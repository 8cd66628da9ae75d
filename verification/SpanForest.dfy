/**
 The span-cycle check of the trace normalizer: spans name their parents, and a trace
 is accepted only when following parents never comes back to a span already met.
 */
module SpanForest {
  import opened Common

  /** Lower-cased parent identifier of every span received, "" for a root. */
  type Parents = map<string, string>

  /** The parent, when it is itself among the spans received. */
  function Parent(parents: Parents, id: string): Option<string> {
    if id in parents && parents[id] != "" && parents[id] in parents then Some(parents[id]) else None
  }

  /** The `k`-th ancestor, None once the chain has left the spans received. */
  ghost function Ancestor(parents: Parents, id: string, k: nat): Option<string> {
    if k == 0 then Some(id)
    else match Ancestor(parents, id, k - 1)
      case None => None
      case Some(a) => Parent(parents, a)
  }

  ghost predicate OnCycle(parents: Parents, id: string) {
    exists k: nat :: k > 0 && Ancestor(parents, id, k) == Some(id)
  }

  ghost predicate HasCycle(parents: Parents) {
    exists id :: id in parents && OnCycle(parents, id)
  }

  /** The chain of parents reaches a root or a span that was not received. */
  ghost predicate Ends(parents: Parents, id: string) {
    exists k: nat :: Ancestor(parents, id, k) == None
  }

  /** Every span whose parent was received ranks strictly above that parent. */
  ghost predicate Ranks(parents: Parents, rank: map<string, nat>) {
    && rank.Keys == parents.Keys
    && forall id :: id in parents && Parent(parents, id).Some? ==> rank[Parent(parents, id).value] < rank[id]
  }

  // ---- Chains of ancestors

  lemma {:induction false} AncestorAdds(parents: Parents, id: string, i: nat, j: nat)
    ensures Ancestor(parents, id, i).None? ==> Ancestor(parents, id, i + j).None?
    ensures Ancestor(parents, id, i).Some? ==>
              Ancestor(parents, id, i + j) == Ancestor(parents, Ancestor(parents, id, i).value, j)
  {
    if j > 0 {
      AncestorAdds(parents, id, i, j - 1);
    }
  }

  lemma {:induction false} CycleRepeats(parents: Parents, id: string, k: nat, rounds: nat)
    requires k > 0 && Ancestor(parents, id, k) == Some(id)
    ensures Ancestor(parents, id, rounds * k) == Some(id)
  {
    if rounds > 0 {
      CycleRepeats(parents, id, k, rounds - 1);
      AncestorAdds(parents, id, (rounds - 1) * k, k);
      assert (rounds - 1) * k + k == rounds * k;
    }
  }

  lemma {:induction false} EndedChainHasNoCycle(parents: Parents, id: string)
    requires Ends(parents, id)
    ensures !OnCycle(parents, id)
  {
    var n: nat :| Ancestor(parents, id, n) == None;
    if OnCycle(parents, id) {
      var k: nat :| k > 0 && Ancestor(parents, id, k) == Some(id);
      CycleRepeats(parents, id, k, n);
      assert n <= n * k;
      AncestorAdds(parents, id, n, n * k - n);
    }
  }

  /** Meeting an ancestor twice exhibits a cycle through it. */
  lemma {:induction false} RepeatedAncestor(parents: Parents, id: string, i: nat, j: nat)
    requires i < j && Ancestor(parents, id, i).Some?
    requires Ancestor(parents, id, i) == Ancestor(parents, id, j)
    requires Ancestor(parents, id, i).value in parents
    ensures HasCycle(parents)
  {
    AncestorAdds(parents, id, i, j - i);
    assert OnCycle(parents, Ancestor(parents, id, i).value);
  }

  /** `x` is among the first `k` ancestors. */
  ghost predicate MetBy(parents: Parents, id: string, k: nat, x: string) {
    exists j: nat :: j <= k && Ancestor(parents, id, j) == Some(x)
  }

  /** State of a walk from `id`: `at` is the `k`-th ancestor and `seen` holds only ancestors met so far. */
  ghost predicate Walked(parents: Parents, id: string, k: nat, at: string, seen: set<string>) {
    && Ancestor(parents, id, k) == Some(at)
    && seen <= parents.Keys && at in seen
    && forall x :: x in seen ==> MetBy(parents, id, k, x)
  }

  lemma {:induction false} WalkStarts(parents: Parents, id: string)
    requires id in parents
    ensures Walked(parents, id, 0, id, {id})
  {
    assert Ancestor(parents, id, 0) == Some(id);
  }

  lemma {:induction false} WalkAdvances(
    parents: Parents, id: string, k: nat, at: string, seen: set<string>, next: string)
    requires Walked(parents, id, k, at, seen) && Parent(parents, at) == Some(next)
    ensures Walked(parents, id, k + 1, next, seen + {next})
    ensures next !in seen ==> |parents.Keys - (seen + {next})| < |parents.Keys - seen|
  {
    assert Ancestor(parents, id, k + 1) == Some(next);
    forall x | x in seen
      ensures MetBy(parents, id, k + 1, x)
    {
      assert MetBy(parents, id, k, x);
    }
    if next !in seen {
      assert parents.Keys - (seen + {next}) == (parents.Keys - seen) - {next};
    }
  }

  lemma {:induction false} WalkRevisits(
    parents: Parents, id: string, k: nat, at: string, seen: set<string>, next: string)
    requires Walked(parents, id, k, at, seen) && Parent(parents, at) == Some(next) && next in seen
    ensures HasCycle(parents)
  {
    assert MetBy(parents, id, k, next);
    var j: nat :| j <= k && Ancestor(parents, id, j) == Some(next);
    assert Ancestor(parents, id, k + 1) == Some(next);
    RepeatedAncestor(parents, id, j, k + 1);
  }

  /** Among finitely many spans, a chain that never repeats must end. */
  lemma {:induction false} AcyclicChainEnds(parents: Parents, id: string, k: nat, at: string, seen: set<string>)
    requires !HasCycle(parents)
    requires Walked(parents, id, k, at, seen)
    ensures Ends(parents, id)
    decreases |parents.Keys - seen|
  {
    match Parent(parents, at)
    case None =>
      assert Ancestor(parents, id, k + 1) == None;
    case Some(next) =>
      if next in seen {
        WalkRevisits(parents, id, k, at, seen, next);
      } else {
        WalkAdvances(parents, id, k, at, seen, next);
        AcyclicChainEnds(parents, id, k + 1, next, seen + {next});
      }
  }

  // ---- Ranks

  ghost predicate IsHeight(parents: Parents, id: string, n: nat) {
    n > 0 && Ancestor(parents, id, n).None? && Ancestor(parents, id, n - 1).Some?
  }

  lemma {:induction false} HeightsAgree(parents: Parents, id: string, m: nat, n: nat)
    requires IsHeight(parents, id, m) && IsHeight(parents, id, n)
    ensures m == n
  {
    if m < n {
      AncestorAdds(parents, id, m, n - 1 - m);
    } else if n < m {
      AncestorAdds(parents, id, n, m - 1 - n);
    }
  }

  ghost function Height(parents: Parents, id: string): (h: nat)
    requires Ends(parents, id)
    ensures IsHeight(parents, id, h)
  {
    var n: nat :| Ancestor(parents, id, n) == None;
    HeightFrom(parents, id, n)
  }

  ghost function HeightFrom(parents: Parents, id: string, n: nat): (h: nat)
    requires Ancestor(parents, id, n).None?
    ensures IsHeight(parents, id, h)
  {
    if Ancestor(parents, id, n - 1).None? then HeightFrom(parents, id, n - 1) else n
  }

  lemma {:induction false} ParentIsLower(parents: Parents, id: string)
    requires id in parents && Parent(parents, id).Some?
    requires Ends(parents, id) && Ends(parents, Parent(parents, id).value)
    ensures Height(parents, Parent(parents, id).value) < Height(parents, id)
  {
    var p := Parent(parents, id).value;
    var h := Height(parents, id);
    assert Ancestor(parents, id, 1) == Some(p) by {
      assert Ancestor(parents, id, 0) == Some(id);
    }
    assert h > 1;
    AncestorAdds(parents, id, 1, h - 1);
    AncestorAdds(parents, id, 1, h - 2);
    HeightsAgree(parents, p, h - 1, Height(parents, p));
  }

  lemma {:induction false} RankFallsAlongChain(parents: Parents, rank: map<string, nat>, id: string, k: nat)
    requires Ranks(parents, rank) && id in parents && k > 0
    requires Ancestor(parents, id, k).Some?
    ensures Ancestor(parents, id, k).value in parents
    ensures rank[Ancestor(parents, id, k).value] < rank[id]
  {
    if k == 1 {
      assert Ancestor(parents, id, 0) == Some(id);
    } else {
      RankFallsAlongChain(parents, rank, id, k - 1);
    }
  }

  /** Acyclic parent relations are exactly those that can be ranked; in them every chain ends. */
  lemma {:induction false} AcyclicIffRanked(parents: Parents)
    ensures !HasCycle(parents) <==> exists rank :: Ranks(parents, rank)
    ensures !HasCycle(parents) <==> forall id :: id in parents ==> Ends(parents, id)
  {
    if !HasCycle(parents) {
      forall id | id in parents
        ensures Ends(parents, id)
      {
        WalkStarts(parents, id);
        AcyclicChainEnds(parents, id, 0, id, {id});
      }
      var rank := map id | id in parents :: Height(parents, id);
      forall id | id in parents && Parent(parents, id).Some?
        ensures rank[Parent(parents, id).value] < rank[id]
      {
        ParentIsLower(parents, id);
      }
      assert Ranks(parents, rank);
    } else {
      var id :| id in parents && OnCycle(parents, id);
      var k: nat :| k > 0 && Ancestor(parents, id, k) == Some(id);
      forall rank | Ranks(parents, rank)
        ensures false
      {
        RankFallsAlongChain(parents, rank, id, k);
      }
      if Ends(parents, id) {
        EndedChainHasNoCycle(parents, id);
      }
    }
  }

  // ---- The walk

  /** The inner walk from one span; every step meets a span not seen from this start. */
  method WalkFrom(id: string, parents: Parents) returns (cycle: bool)
    requires id in parents
    ensures cycle ==> HasCycle(parents)
    ensures !cycle ==> Ends(parents, id)
  {
    var seen := {id};
    var parent := parents[id];
    ghost var k: nat, at := 0, id;
    WalkStarts(parents, id);
    while parent != "" && parent in parents
      invariant Walked(parents, id, k, at, seen) && parent == parents[at]
      decreases |parents.Keys - seen|
    {
      if parent in seen {
        WalkRevisits(parents, id, k, at, seen, parent);
        return true;
      }
      WalkAdvances(parents, id, k, at, seen, parent);
      seen := seen + {parent};
      k, at := k + 1, parent;
      parent := parents[parent];
    }
    assert Ancestor(parents, id, k + 1) == None;
    return false;
  }

  /** The walk over all spans, in whatever order they were received. */
  method WalkFindsCycle(ids: seq<string>, parents: Parents) returns (cycle: bool)
    requires forall id :: id in ids <==> id in parents
    ensures cycle <==> HasCycle(parents)
  {
    for i := 0 to |ids|
      invariant forall j :: 0 <= j < i ==> Ends(parents, ids[j])
    {
      var found := WalkFrom(ids[i], parents);
      if found {
        return true;
      }
    }
    AcyclicIffRanked(parents);
    return false;
  }
}
