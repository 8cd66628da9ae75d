/**
 Callbacks that overlap: looking a state up and deleting it are two steps, and other callers' steps may come
 in between.
 */
module LoginInterleaving {
  import opened Common
  import opened LoginState

  datatype Step =
    | Save(s: OAuthState)
    | Get(caller: nat, value: string, now: int)
    | Complete(caller: nat, accepted: bool)

  /** The store, and the state each caller has looked up and not yet completed with. */
  datatype World = World(states: States, held: map<nat, OAuthState>)

  function Next(ttl: int, w: World, step: Step): World {
    match step
    case Save(s) => w.(states := Saved(w.states, s).1)
    case Get(caller, value, now) =>
      if caller in w.held then w
      else
        var (r, next) := Got(w.states, ttl, value, now);
        World(next, if r.Ok? then w.held[caller := r.value] else w.held)
    case Complete(caller, accepted) =>
      if caller !in w.held then w
      else World(if accepted then Deleted(w.states, w.held[caller].state).1 else w.states, w.held - {caller})
  }

  function WorldBefore(ttl: int, steps: seq<Step>, j: nat): World
    requires j <= |steps|
  {
    if j == 0 then World(map[], map[]) else Next(ttl, WorldBefore(ttl, steps, j - 1), steps[j - 1])
  }

  /** A callback that completes successfully at step `j`, having used `s`. */
  predicate Uses(ttl: int, steps: seq<Step>, j: nat, s: OAuthState)
    requires j < |steps|
  {
    && steps[j].Complete? && steps[j].accepted
    && steps[j].caller in WorldBefore(ttl, steps, j).held && WorldBefore(ttl, steps, j).held[steps[j].caller] == s
  }

  /** Step `i` saves `s`. */
  predicate Saves(steps: seq<Step>, i: nat, s: OAuthState)
    requires i < |steps|
  {
    steps[i] == Save(s) && Valid(s)
  }

  /** Step `k` looks up a value by a caller that holds nothing, at a time when `s` has expired. */
  predicate FindsExpired(ttl: int, steps: seq<Step>, k: nat, s: OAuthState)
    requires k < |steps|
  {
    && steps[k].Get? && steps[k].caller !in WorldBefore(ttl, steps, k).held
    && steps[k].value == s.state && IsExpired(s, steps[k].now, ttl)
  }

  /** Step `k` leaves the stored `s` alone: no new save of its value, no use of its value, no look-up too late. */
  ghost predicate Spares(ttl: int, steps: seq<Step>, k: nat, s: OAuthState)
    requires k < |steps|
  {
    && (steps[k].Save? && Valid(steps[k].s) ==> steps[k].s.state != s.state)
    && (forall t :: Uses(ttl, steps, k, t) ==> t.state != s.state)
    && !FindsExpired(ttl, steps, k, s)
  }

  /** Step `i` saves `s`, and every step up to `j` leaves it alone. */
  ghost predicate KeptSince(ttl: int, steps: seq<Step>, s: OAuthState, i: nat, j: nat)
    requires j <= |steps|
  {
    i < j && Saves(steps, i, s) && forall k :: i < k < j ==> Spares(ttl, steps, k, s)
  }

  /** Step `g` is a look-up that hands `s` to its caller. */
  predicate TakesUp(ttl: int, steps: seq<Step>, g: nat, s: OAuthState)
    requires g < |steps|
  {
    var w := WorldBefore(ttl, steps, g);
    && steps[g].Get? && steps[g].caller !in w.held
    && Got(w.states, ttl, steps[g].value, steps[g].now).0 == Ok(s)
  }

  /** The caller completes nothing between steps `g` and `j`. */
  ghost predicate Idle(steps: seq<Step>, caller: nat, g: nat, j: nat)
    requires j <= |steps|
  {
    forall k :: g < k < j && steps[k].Complete? ==> steps[k].caller != caller
  }

  // ---- What is held and what is stored

  ghost predicate HeldSince(ttl: int, steps: seq<Step>, caller: nat, s: OAuthState, g: nat, j: nat)
    requires j <= |steps|
  {
    g < j && TakesUp(ttl, steps, g, s) && steps[g].caller == caller && Idle(steps, caller, g, j)
  }

  /** A caller holds a state exactly when it took it up and has completed nothing since. */
  lemma {:induction false} HeldIff(ttl: int, steps: seq<Step>, caller: nat, s: OAuthState, j: nat)
    requires j <= |steps|
    ensures var held := WorldBefore(ttl, steps, j).held;
            caller in held && held[caller] == s <==> exists g: nat :: HeldSince(ttl, steps, caller, s, g, j)
  {
    if j > 0 {
      var last: nat := j - 1;
      HeldIff(ttl, steps, caller, s, last);
      HeldStep(ttl, steps, caller, s, last);
      hide WorldBefore, TakesUp;
      if g: nat :| HeldSince(ttl, steps, caller, s, g, last) {
        assert !(steps[last].Complete? && steps[last].caller == caller) ==> HeldSince(ttl, steps, caller, s, g, j);
      }
      if TakesUp(ttl, steps, last, s) && steps[last].caller == caller {
        assert HeldSince(ttl, steps, caller, s, last, j);
      }
      if g: nat :| HeldSince(ttl, steps, caller, s, g, j) {
        assert g < last ==> HeldSince(ttl, steps, caller, s, g, last);
      }
    }
  }

  lemma {:induction false} HeldStep(ttl: int, steps: seq<Step>, caller: nat, s: OAuthState, j: nat)
    requires j < |steps|
    ensures var before, after := WorldBefore(ttl, steps, j).held, WorldBefore(ttl, steps, j + 1).held;
            && (caller in after && after[caller] == s <==>
                  || (caller in before && before[caller] == s && !(steps[j].Complete? && steps[j].caller == caller))
                  || (TakesUp(ttl, steps, j, s) && steps[j].caller == caller))
            && (TakesUp(ttl, steps, j, s) && steps[j].caller == caller ==> caller !in before)
  {
  }

  /** A state is stored exactly when some step saved it and every later one left it alone. */
  lemma {:induction false} StoredIff(ttl: int, steps: seq<Step>, s: OAuthState, j: nat)
    requires j <= |steps|
    ensures var states := WorldBefore(ttl, steps, j).states;
            s.state in states && states[s.state] == s <==> exists i: nat :: KeptSince(ttl, steps, s, i, j)
  {
    if j > 0 {
      var last: nat := j - 1;
      StoredIff(ttl, steps, s, last);
      StoredStep(ttl, steps, s, last);
      hide WorldBefore, Spares;
      if i: nat :| KeptSince(ttl, steps, s, i, last) {
        assert Spares(ttl, steps, last, s) ==> KeptSince(ttl, steps, s, i, j);
      }
      if Saves(steps, last, s) {
        assert KeptSince(ttl, steps, s, last, j);
      }
      if i: nat :| KeptSince(ttl, steps, s, i, j) {
        assert i < last ==> KeptSince(ttl, steps, s, i, last) && Spares(ttl, steps, last, s);
      }
    }
  }

  /** Stored under its own value, and valid. */
  lemma {:induction false} StoredIsNamed(ttl: int, steps: seq<Step>, value: string, j: nat)
    requires j <= |steps| && value in WorldBefore(ttl, steps, j).states
    ensures WorldBefore(ttl, steps, j).states[value].state == value && Valid(WorldBefore(ttl, steps, j).states[value])
  {
    if value in WorldBefore(ttl, steps, j - 1).states {
      StoredIsNamed(ttl, steps, value, j - 1);
    }
  }

  lemma {:induction false} HeldIsNamed(ttl: int, steps: seq<Step>, caller: nat, j: nat)
    requires j <= |steps| && caller in WorldBefore(ttl, steps, j).held
    ensures WorldBefore(ttl, steps, j).held[caller].state != ""
  {
    if caller in WorldBefore(ttl, steps, j - 1).held {
      HeldIsNamed(ttl, steps, caller, j - 1);
    } else {
      StoredIsNamed(ttl, steps, steps[j - 1].value, j - 1);
    }
  }

  ghost predicate IsStored(ttl: int, steps: seq<Step>, s: OAuthState, j: nat)
    requires j <= |steps|
  {
    s.state in WorldBefore(ttl, steps, j).states && WorldBefore(ttl, steps, j).states[s.state] == s
  }

  lemma {:induction false} StoredStep(ttl: int, steps: seq<Step>, s: OAuthState, j: nat)
    requires j < |steps|
    ensures IsStored(ttl, steps, s, j + 1) <==>
            Saves(steps, j, s) || (IsStored(ttl, steps, s, j) && Spares(ttl, steps, j, s))
  {
    var w := WorldBefore(ttl, steps, j);
    if s.state in w.states {
      StoredIsNamed(ttl, steps, s.state, j);
    }
    if steps[j].Complete? && steps[j].caller in w.held {
      HeldIsNamed(ttl, steps, steps[j].caller, j);
      assert steps[j].accepted ==> Uses(ttl, steps, j, w.held[steps[j].caller]);
    }
  }

  // ---- Uses

  /** Step `j` is an accepted completion of what was taken up at step `g`. */
  ghost predicate CompletesFor(steps: seq<Step>, g: nat, j: nat)
    requires j < |steps|
  {
    && g < j && steps[g].Get? && steps[j].Complete? && steps[j].accepted
    && steps[j].caller == steps[g].caller && Idle(steps, steps[g].caller, g, j)
  }

  lemma {:induction false} TakesUpIsGet(ttl: int, steps: seq<Step>, g: nat, s: OAuthState)
    requires g < |steps| && TakesUp(ttl, steps, g, s)
    ensures steps[g].Get?
  {
  }

  /**
   In every schedule, a completion uses a state exactly when it is accepted and its caller took that state up
   before, with no completion of its own in between.
   */
  lemma {:induction false} UsesIff(ttl: int, steps: seq<Step>, j: nat, s: OAuthState)
    requires j < |steps|
    ensures Uses(ttl, steps, j, s) <==> exists g: nat :: g < j && TakesUp(ttl, steps, g, s) && CompletesFor(steps, g, j)
  {
    if steps[j].Complete? {
      HeldIff(ttl, steps, steps[j].caller, s, j);
      hide WorldBefore, TakesUp, Idle;
      if g: nat :| HeldSince(ttl, steps, steps[j].caller, s, g, j) {
        TakesUpIsGet(ttl, steps, g, s);
        assert steps[j].accepted ==> CompletesFor(steps, g, j);
      }
      if g: nat :| g < j && TakesUp(ttl, steps, g, s) && CompletesFor(steps, g, j) {
        assert HeldSince(ttl, steps, steps[j].caller, s, g, j);
      }
    }
  }

  /** Step `g` finds, in time and by a caller that holds nothing, what step `i` saved and nothing has disturbed. */
  ghost predicate LooksUp(ttl: int, steps: seq<Step>, i: nat, g: nat, s: OAuthState)
    requires g < |steps|
  {
    && KeptSince(ttl, steps, s, i, g)
    && steps[g].Get? && steps[g].caller !in WorldBefore(ttl, steps, g).held
    && steps[g].value == s.state && !IsExpired(s, steps[g].now, ttl)
  }

  /** A state is taken up exactly from a save of it that was disturbed by nothing in between. */
  lemma {:induction false} TakesUpIff(ttl: int, steps: seq<Step>, g: nat, s: OAuthState)
    requires g < |steps|
    ensures TakesUp(ttl, steps, g, s) <==> exists i: nat :: LooksUp(ttl, steps, i, g, s)
  {
    StoredIff(ttl, steps, s, g);
    if steps[g].Get? && steps[g].value in WorldBefore(ttl, steps, g).states {
      StoredIsNamed(ttl, steps, steps[g].value, g);
    }
    hide WorldBefore, Spares;
    if i: nat :| KeptSince(ttl, steps, s, i, g) {
      assert TakesUp(ttl, steps, g, s) ==> LooksUp(ttl, steps, i, g, s);
    }
  }

  /** Step `k` uses what step `i` saved. */
  ghost predicate UsedFrom(ttl: int, steps: seq<Step>, i: nat, k: nat, s: OAuthState)
    requires k < |steps|
  {
    exists h: nat :: h < k && LooksUp(ttl, steps, i, h, s) && CompletesFor(steps, h, k)
  }

  /** Every use is the use of some save. */
  lemma {:induction false} UsesFromSaveIff(ttl: int, steps: seq<Step>, k: nat, s: OAuthState)
    requires k < |steps|
    ensures Uses(ttl, steps, k, s) <==> exists i: nat :: UsedFrom(ttl, steps, i, k, s)
  {
    UsesIff(ttl, steps, k, s);
    hide Uses, TakesUp, LooksUp, CompletesFor;
    if g: nat :| g < k && TakesUp(ttl, steps, g, s) && CompletesFor(steps, g, k) {
      TakesUpIff(ttl, steps, g, s);
      var i: nat :| LooksUp(ttl, steps, i, g, s);
      assert UsedFrom(ttl, steps, i, k, s);
    }
    if i: nat :| UsedFrom(ttl, steps, i, k, s) {
      var h: nat :| h < k && LooksUp(ttl, steps, i, h, s) && CompletesFor(steps, h, k);
      TakesUpIff(ttl, steps, h, s);
    }
  }

  /**
   In every schedule, a save that was used is used again exactly when another look-up found it before that first
   use and its caller is accepted afterwards.
   */
  lemma {:induction false} UsedAgainIff(ttl: int, steps: seq<Step>, i: nat, j: nat, s: OAuthState)
    requires j < |steps| && UsedFrom(ttl, steps, i, j, s)
    ensures (exists k: nat :: j < k < |steps| && UsedFrom(ttl, steps, i, k, s)) <==>
            (exists h: nat, k: nat :: i < h < j < k < |steps| && LooksUp(ttl, steps, i, h, s) && CompletesFor(steps, h, k))
  {
    UsesFromSaveIff(ttl, steps, j, s);
    assert Uses(ttl, steps, j, s) && steps[j].Complete?;
    hide WorldBefore, Uses, Idle, IsExpired, FindsExpired;
    if k: nat :| j < k < |steps| && UsedFrom(ttl, steps, i, k, s) {
      var h: nat :| h < k && LooksUp(ttl, steps, i, h, s) && CompletesFor(steps, h, k);
      assert h != j;
      assert i < j by {
        var first: nat :| first < j && LooksUp(ttl, steps, i, first, s) && CompletesFor(steps, first, j);
      }
      assert j < h ==> Spares(ttl, steps, j, s);
      assert i < h < j;
    }
    if h: nat, k: nat :| i < h < j < k < |steps| && LooksUp(ttl, steps, i, h, s) && CompletesFor(steps, h, k) {
      assert UsedFrom(ttl, steps, i, k, s);
    }
  }

  /**
   However callbacks overlap, every one that succeeds looked its state up after a save of exactly that state,
   in time, and before anyone used the state up after that save.
   */
  lemma {:induction false} FoundBeforeFirstUse(ttl: int, steps: seq<Step>, j: nat, s: OAuthState) returns (g: nat, i: nat)
    requires j < |steps| && Uses(ttl, steps, j, s)
    ensures i < g < j && Saves(steps, i, s) && LooksUp(ttl, steps, i, g, s) && CompletesFor(steps, g, j)
    ensures forall k, t :: i < k < g && Uses(ttl, steps, k, t) ==> t.state != s.state
  {
    UsesFromSaveIff(ttl, steps, j, s);
    hide Uses, WorldBefore, CompletesFor;
    i :| UsedFrom(ttl, steps, i, j, s);
    g :| g < j && LooksUp(ttl, steps, i, g, s) && CompletesFor(steps, g, j);
    forall k, t | i < k < g && Uses(ttl, steps, k, t)
      ensures t.state != s.state
    {
      assert Spares(ttl, steps, k, s);
    }
  }

  /** Two callers that look a state up before either deletes it both succeed. */
  lemma {:induction false} OverlappingUse(s: OAuthState, ttl: int, now: int)
    requires Valid(s) && !IsExpired(s, now, ttl)
    ensures var steps := [Save(s), Get(0, s.state, now), Get(1, s.state, now), Complete(0, true), Complete(1, true)];
            Uses(ttl, steps, 3, s) && Uses(ttl, steps, 4, s)
  {
    var steps := [Save(s), Get(0, s.state, now), Get(1, s.state, now), Complete(0, true), Complete(1, true)];
    assert WorldBefore(ttl, steps, 1) == World(map[s.state := s], map[]);
    assert WorldBefore(ttl, steps, 2) == World(map[s.state := s], map[0 := s]);
    assert WorldBefore(ttl, steps, 3) == World(map[s.state := s], map[0 := s, 1 := s]);
    assert WorldBefore(ttl, steps, 4).held == map[0 := s, 1 := s] - {0};
  }
}
