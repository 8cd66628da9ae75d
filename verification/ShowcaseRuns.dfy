/** What the driver keeps over whole runs of events, whatever order they come in. */
module ShowcaseRuns {
  import opened Common
  import opened RequestFlow
  import opened TraceQuery
  import opened ShowcaseDriver

  function StateAt(events: seq<Event>, j: nat): State
    requires j <= |events|
  {
    if j == 0 then START else Next(StateAt(events, j - 1), events[j - 1])
  }

  /** The clock does not go back. */
  ghost predicate Nondecreasing(events: seq<Event>) {
    forall i, k :: 0 <= i <= k < |events| ==> events[i].now <= events[k].now
  }

  /** A response carries a back-off within the range its constructor admits. */
  predicate BackOffInRange(e: Event) {
    e.act.Respond? && !e.act.result.ConnectionFailure? && e.act.result.retryAfterMs.Some? ==>
      0 <= e.act.result.retryAfterMs.value <= MAX_RETRY_AFTER_MS
  }

  ghost predicate BackOffsInRange(events: seq<Event>) {
    forall k :: 0 <= k < |events| ==> BackOffInRange(events[k])
  }

  predicate Settled(shown: Shown) {
    !shown.InFlight? && !shown.WaitingForTrace?
  }

  /** A cycle knows its response exactly when it no longer waits for it, and has lookups left while it polls. */
  ghost predicate CycleInv(c: Cycle) {
    && (c.wait.ForResponse? <==> c.result.None?)
    && (c.wait.ForResponse? ==> c.lookups == [])
    && (c.wait.ForLookup? ==> |c.lookups| < MAX_TRACE_LOOKUPS)
    && |c.lookups| <= MAX_TRACE_LOOKUPS
    && (c.result.Some? ==> !c.result.value.ConnectionFailure? && (c.latest.WaitingForTrace? || c.latest.PartlyTraced?))
  }

  lemma {:induction false} StateAfter(events: seq<Event>, j: nat)
    requires j < |events|
    ensures StateAt(events, j + 1) == Next(StateAt(events, j), events[j])
  {
    hide Next;
  }

  /** What holds in every state. */
  ghost predicate Inv(s: State) {
    && |s.cycles| <= 1
    && (|s.cycles| == 1 ==> s.active && CycleInv(s.cycles[0]))
    && (s.mounted && s.active ==> |s.cycles| == 1)
    && (s.mounted && |s.cycles| == 1 && s.cycles[0].result.Some? ==> s.shown == s.cycles[0].latest)
    && (s.mounted && !s.active ==> Settled(s.shown))
    && s.counts.Keys == REPLICAS
  }

  lemma {:induction false} ContinuingKeepsInv(s: State, c: Cycle, now: int)
    requires Inv(s.(shown := c.latest, cycles := [c])) && |s.cycles| == 1 && s.mounted
    requires s.shown == c.latest && c.wait.ForAnswer? && c.result.Some?
    ensures Inv(Continued(s, 0, c, now))
  {
    if |c.lookups| < MAX_TRACE_LOOKUPS {
      assert s.cycles[0 := c.(wait := ForLookup(now))] == [c.(wait := ForLookup(now))];
    } else {
      assert Dropped(s.cycles, 0) == [];
    }
  }

  lemma {:induction false} SendKeepsInv(s: State, now: int, hidden: bool)
    requires Inv(s)
    ensures Inv(Sent(s, now, hidden))
  {
  }

  lemma {:induction false} RespondKeepsInv(s: State, result: RequestResult, now: int)
    requires Inv(s) && |s.cycles| == 1 && s.mounted && s.cycles[0].wait.ForResponse?
    ensures Inv(Responded(s, 0, result, now))
  {
    assert Dropped(s.cycles, 0) == [];
  }

  lemma {:induction false} AbandonKeepsInv(s: State)
    requires Inv(s) && |s.cycles| == 1 && !s.mounted
    ensures Inv(Abandoned(s, 0))
  {
    assert Dropped(s.cycles, 0) == [];
  }

  lemma {:induction false} BreakKeepsInv(s: State, now: int)
    requires Inv(s) && |s.cycles| == 1 && s.mounted
    ensures Inv(Broken(s, 0, now))
  {
    assert Dropped(s.cycles, 0) == [];
  }

  lemma {:induction false} LookKeepsInv(s: State, c: Cycle)
    requires Inv(s) && |s.cycles| == 1
    requires CycleInv(c) && c.result == s.cycles[0].result && c.latest == s.cycles[0].latest
    ensures Inv(Kept(s, 0, c))
  {
    assert s.cycles[0 := c] == [c];
  }

  lemma {:induction false} StepKeepsInv(s: State, e: Event)
    requires Inv(s)
    ensures Inv(Next(s, e))
  {
    hide Sent, Responded, Abandoned, Broken, Kept, Answered;
    if Takes(s, e.now, e.act) {
      match e.act {
        case Send(hidden) => SendKeepsInv(s, e.now, hidden);
        case StartTraffic(hidden) => SendKeepsInv(s.(traffic := true), e.now, hidden);
        case Tick(hidden) => SendKeepsInv(s, e.now, hidden);
        case StopTraffic =>
        case Unmount =>
        case Respond(_, result) =>
          if s.mounted { RespondKeepsInv(s, result, e.now); } else { AbandonKeepsInv(s); }
        case LookUp(_, _) =>
          if s.mounted {
            var c := s.cycles[0];
            LookKeepsInv(s, c.(wait := ForAnswer, lookups := c.lookups + [e.now]));
          } else {
            AbandonKeepsInv(s);
          }
        case Answer(_, answer) =>
          if s.mounted { AnswerKeepsInv(s, answer, e.now); } else { AbandonKeepsInv(s); }
        case _ =>
          if s.mounted { BreakKeepsInv(s, e.now); } else { AbandonKeepsInv(s); }
      }
    }
  }

  lemma {:induction false} AnswerKeepsInv(s: State, answer: TraceAnswer, now: int)
    requires Inv(s) && |s.cycles| == 1 && s.mounted && s.cycles[0].wait.ForAnswer? && s.cycles[0].result.Some?
    ensures Inv(Answered(s, 0, answer, now))
  {
    hide AuthenticationRejected, Newest, SelectedIn;
    var c := s.cycles[0];
    assert Dropped(s.cycles, 0) == [] && s.cycles == [c];
    match answer {
      case Judged(Partial(trace)) =>
        var latest := PartlyTraced(c.result.value, trace);
        ContinuingKeepsInv(s.(shown := latest, traffic := s.traffic && !AuthenticationRejected(trace)),
                           c.(latest := latest), now);
      case Judged(NotFound) => ContinuingKeepsInv(s, c, now);
      case StillWaiting => ContinuingKeepsInv(s, c, now);
      case _ =>
    }
  }

  /** In every run there is at most one cycle, and a mounted page is busy exactly while there is one. */
  lemma {:induction false} AtMostOneCycle(events: seq<Event>, j: nat)
    requires j <= |events|
    ensures Inv(StateAt(events, j))
  {
    hide Inv, Next;
    if j == 0 {
      StartKeepsInv();
    } else {
      AtMostOneCycle(events, j - 1);
      StepKeepsInv(StateAt(events, j - 1), events[j - 1]);
    }
  }

  lemma {:induction false} StartKeepsInv()
    ensures Inv(START)
  {
  }

  /** An event that starts a cycle, and one that ends a cycle of a mounted page. */
  predicate Starts(s: State, e: Event) {
    |Next(s, e).cycles| > |s.cycles|
  }

  predicate Ends(s: State, e: Event) {
    s.mounted && |Next(s, e).cycles| < |s.cycles|
  }

  /** A response taken by a mounted page that asks it to back off. */
  predicate AsksToBackOff(s: State, e: Event) {
    && s.mounted && e.act.Respond? && Takes(s, e.now, e.act)
    && !e.act.result.ConnectionFailure? && e.act.result.statusCode == 429
  }

  // ---- What one event can do

  /** Nothing to a cycle, start one, carry it on as `cycle`, end it with those variables, or find the page gone. */
  datatype Shape = Quiet | Begun | Going(cycle: Cycle) | Over(mid: State, cycle: Cycle) | Gone

  /** Everything but the cycles, the display and the traffic switch is as before; a response may back off the next send. */
  ghost predicate SameBooks(s: State, e: Event, next: State) {
    && next.history == s.history && next.counts == s.counts
    && next.nextSendAt == if AsksToBackOff(s, e) then e.now + BackOff(e.act.result) else s.nextSendAt
  }

  /** The result a cycle knows once it has taken the event. */
  function ResultKnown(s: State, e: Event): Option<RequestResult>
    requires |s.cycles| == 1
  {
    if e.act.Respond? then Some(e.act.result) else s.cycles[0].result
  }

  ghost predicate Moves(c: Cycle, next: Cycle, e: Event) {
    && next.lookups == c.lookups + (if e.act.LookUp? then [e.now] else [])
    && (next.wait.ForLookup? ==> next.wait.since == e.now)
    && !next.wait.ForResponse? && (next.wait.ForAnswer? <==> e.act.LookUp?)
    && next.result == (if e.act.Respond? then Some(e.act.result) else c.result)
    && (e.act.Respond? <==> c.wait.ForResponse?)
    && (e.act.LookUp? ==> c.wait.ForLookup? && e.now >= c.wait.since + TRACE_POLL_INTERVAL_MS)
  }

  ghost predicate HasShape(s: State, e: Event, k: Shape) {
    var next := Next(s, e);
    match k
    case Quiet =>
      !AsksToBackOff(s, e) && SameBooks(s, e, next) && next.cycles == s.cycles
    case Begun =>
      && s.mounted && s.cycles == [] && e.now >= s.nextSendAt && !AsksToBackOff(s, e)
      && SameBooks(s, e, next) && |next.cycles| == 1 && next.cycles[0] == Cycle(ForResponse, None, NotConnected, false, [])
    case Going(c) =>
      s.mounted && |s.cycles| == 1 && SameBooks(s, e, next) && next.cycles == [c] && Moves(s.cycles[0], c, e)
    case Over(mid, c) =>
      && s.mounted && |s.cycles| == 1 && mid.cycles == s.cycles && SameBooks(s, e, mid)
      && next == Finished(mid, 0, c, e.now) && next.cycles == []
      && c.result == ResultKnown(s, e) && (c.result.Some? ==> SelectedIn(mid.shown) == SelectedIn(c.latest))
      && (e.act.Respond? || e.act.FailRequest? || e.act.Answer? || e.act.FailLookup?)
      && (e.act.Respond? || e.act.FailRequest? <==> s.cycles[0].wait.ForResponse?)
    case Gone =>
      !s.mounted && next == s.(cycles := []) && !AsksToBackOff(s, e)
  }

  lemma {:induction false} SentShape(s: State, e: Event) returns (k: Shape)
    requires Inv(s) && (e.act.Send? || e.act.StartTraffic? || e.act.Tick?)
    ensures HasShape(s, e, k)
  {
    hide Newest, Counted, REPLICAS;
    k := if |Next(s, e).cycles| > |s.cycles| then Begun else Quiet;
  }

  lemma {:induction false} GoneShape(s: State, e: Event)
    requires Inv(s) && |s.cycles| == 1 && !s.mounted && Takes(s, e.now, e.act)
    requires e.act.Respond? || e.act.FailRequest? || e.act.LookUp? || e.act.Answer? || e.act.FailLookup?
    ensures HasShape(s, e, Gone)
  {
    hide REPLICAS;
    assert Dropped(s.cycles, 0) == [];
  }

  lemma {:induction false} RespondShape(s: State, e: Event) returns (k: Shape)
    requires Inv(s) && |s.cycles| == 1 && s.mounted && Takes(s, e.now, e.act) && e.act.Respond?
    ensures HasShape(s, e, k)
  {
    hide REPLICAS, Newest, Counted, UnattributedRejection;
    assert Dropped(s.cycles, 0) == [];
    var result := e.act.result;
    var c := s.cycles[0].(result := Some(result), latest := WaitingForTrace(result));
    var mid := s.(
      shown := WaitingForTrace(result),
      traffic := s.traffic && result.HttpResponse?,
      nextSendAt := if AsksToBackOff(s, e) then e.now + BackOff(result) else s.nextSendAt);
    if result.ConnectionFailure? {
      k := ConcludedShape(s, e, mid, c);
    } else {
      k := Going(c.(wait := ForLookup(e.now)));
      assert c.lookups == s.cycles[0].lookups + [];
    }
  }

  /** Leaving the lookup loop ends the cycle. */
  lemma {:induction false} ConcludedShape(s: State, e: Event, mid: State, c: Cycle) returns (k: Shape)
    requires s.mounted && |s.cycles| == 1 && mid.cycles == s.cycles && SameBooks(s, e, mid)
    requires c.result.Some? && c.result == ResultKnown(s, e) && mid.shown == c.latest
    requires Next(s, e) == Concluding(mid, 0, c, e.now)
    requires e.act.Respond? || e.act.Answer?
    requires e.act.Respond? <==> s.cycles[0].wait.ForResponse?
    ensures HasShape(s, e, k)
  {
    hide REPLICAS, Newest, Counted, Next, AsksToBackOff, AuthenticationOutcome;
    assert Dropped(s.cycles, 0) == [];
    var result := c.result.value;
    var latest := if c.latest.WaitingForTrace?
                  then Untraced(result, if result.ConnectionFailure? then QueryFailed else TraceNotFound)
                  else c.latest;
    var ended := c.(latest := latest);
    k := Over(mid.(shown := latest, traffic := mid.traffic && !UnattributedRejection(ended, result)), ended);
  }

  lemma {:induction false} ContinuedShape(s: State, e: Event, mid: State, c: Cycle) returns (k: Shape)
    requires s.mounted && |s.cycles| == 1 && mid.cycles == s.cycles && SameBooks(s, e, mid)
    requires c.result.Some? && c.result == ResultKnown(s, e) && mid.shown == c.latest
    requires c.lookups == s.cycles[0].lookups && s.cycles[0].wait.ForAnswer? && c.wait.ForAnswer?
    requires Next(s, e) == Continued(mid, 0, c, e.now) && e.act.Answer?
    ensures HasShape(s, e, k)
  {
    hide Next, AsksToBackOff, Concluding;
    if |c.lookups| < MAX_TRACE_LOOKUPS {
      k := Going(c.(wait := ForLookup(e.now)));
    } else {
      k := ConcludedShape(s, e, mid, c);
    }
  }

  lemma {:induction false} AnswerShape(s: State, e: Event) returns (k: Shape)
    requires Inv(s) && |s.cycles| == 1 && s.mounted && Takes(s, e.now, e.act) && e.act.Answer?
    ensures HasShape(s, e, k)
  {
    var c := s.cycles[0];
    var result := c.result.value;
    assert Next(s, e) == Answered(s, 0, e.act.answer, e.now);
    hide Next, HasShape, REPLICAS, AuthenticationRejected, Concluding, Continued;
    match e.act.answer {
      case LoginNeeded =>
        var latest := Untraced(result, QueryFailed);
        k := ConcludedShape(s, e, s.(shown := latest, traffic := false),
                            c.(latest := latest, authenticationRequired := true));
      case Judged(NotFound) => k := ContinuedShape(s, e, s, c);
      case StillWaiting => k := ContinuedShape(s, e, s, c);
      case Judged(Partial(trace)) =>
        var latest := PartlyTraced(result, trace);
        k := ContinuedShape(s, e, s.(shown := latest, traffic := s.traffic && !AuthenticationRejected(trace)),
                            c.(latest := latest));
      case Judged(Available(trace)) =>
        var latest := Traced(result, trace);
        k := ConcludedShape(s, e, s.(shown := latest, traffic := s.traffic && !AuthenticationRejected(trace)),
                            c.(latest := latest));
      case NoEvidence(reason) =>
        var latest := if c.latest.PartlyTraced? then c.latest else Untraced(result, reason);
        k := ConcludedShape(s, e, s.(shown := latest, traffic := false), c.(latest := latest));
    }
  }

  lemma {:induction false} BrokenShape(s: State, e: Event) returns (k: Shape)
    requires Inv(s) && |s.cycles| == 1 && s.mounted && Takes(s, e.now, e.act) && (e.act.FailRequest? || e.act.FailLookup?)
    ensures HasShape(s, e, k)
  {
    hide REPLICAS, Newest, Counted;
    assert Dropped(s.cycles, 0) == [];
    var c := s.cycles[0];
    var shown := if c.result.None? then NotConnected
                 else if c.latest.PartlyTraced? then s.shown
                 else Untraced(c.result.value, QueryFailed);
    k := Over(s.(shown := shown, traffic := false), c);
  }

  lemma {:induction false} LookShape(s: State, e: Event) returns (k: Shape)
    requires Inv(s) && |s.cycles| == 1 && s.mounted && Takes(s, e.now, e.act) && e.act.LookUp?
    ensures HasShape(s, e, k)
  {
    hide REPLICAS;
    var c := s.cycles[0].(wait := ForAnswer, lookups := s.cycles[0].lookups + [e.now]);
    assert s.cycles[0 := c] == [c];
    k := Going(c);
  }

  lemma {:induction false} ShapeOf(s: State, e: Event) returns (k: Shape)
    requires Inv(s)
    ensures HasShape(s, e, k)
  {
    if !Takes(s, e.now, e.act) || e.act.StopTraffic? || e.act.Unmount? {
      k := Quiet;
      return;
    }
    hide HasShape;
    if e.act.Send? || e.act.StartTraffic? || e.act.Tick? {
      k := SentShape(s, e);
    } else if !s.mounted {
      GoneShape(s, e);
      k := Gone;
    } else {
      match e.act {
        case Respond(_, _) => k := RespondShape(s, e);
        case Answer(_, _) => k := AnswerShape(s, e);
        case LookUp(_, _) => k := LookShape(s, e);
        case _ => k := BrokenShape(s, e);
      }
    }
  }

  // ---- Waiting times

  /** While a response is awaited, the next send is not due later than now. */
  ghost predicate SendWasDue(s: State, now: int) {
    |s.cycles| == 1 && s.cycles[0].wait.ForResponse? ==> s.nextSendAt <= now
  }

  /** No event moves the next send back. */
  lemma {:induction false} NextSendAdvances(s: State, e: Event)
    requires Inv(s) && SendWasDue(s, e.now) && BackOffInRange(e)
    ensures s.nextSendAt <= Next(s, e).nextSendAt && SendWasDue(Next(s, e), e.now)
    ensures Starts(s, e) ==> s.nextSendAt <= e.now
    ensures Ends(s, e) ==> Next(s, e).nextSendAt >= e.now + TRAFFIC_INTERVAL_MS
    ensures AsksToBackOff(s, e) ==> Next(s, e).nextSendAt >= e.now + BackOff(e.act.result)
  {
    var k := ShapeOf(s, e);
    hide Next, Takes, Newest, Counted, SelectedIn, Inv;
  }

  lemma {:induction false} NextSendNeverDecreases(events: seq<Event>, i: nat, j: nat)
    requires i <= j <= |events| && Nondecreasing(events) && BackOffsInRange(events)
    ensures StateAt(events, i).nextSendAt <= StateAt(events, j).nextSendAt
    ensures j < |events| ==> SendWasDue(StateAt(events, j), events[j].now)
    decreases j
  {
    hide Next, Inv, BackOffInRange;
    if j > 0 {
      NextSendNeverDecreases(events, Min(i, j - 1), j - 1);
      AtMostOneCycle(events, j - 1);
      NextSendAdvances(StateAt(events, j - 1), events[j - 1]);
    }
  }

  /**
   With a clock that does not go back, a send comes at least five seconds after every earlier cycle ended
   and not before any earlier back-off is over.
   */
  lemma {:induction false} SendsAreSpaced(events: seq<Event>, i: nat, k: nat)
    requires i < k < |events| && Nondecreasing(events) && BackOffsInRange(events)
    requires Starts(StateAt(events, k), events[k])
    ensures Ends(StateAt(events, i), events[i]) ==> events[k].now >= events[i].now + 5_000
    ensures AsksToBackOff(StateAt(events, i), events[i]) ==>
              events[k].now >= events[i].now + BackOff(events[i].act.result)
  {
    hide StateAt, Next, Nondecreasing, BackOffsInRange, Starts, Ends, AsksToBackOff, BackOff;
    StepAdvances(events, i);
    StepAdvances(events, k);
    NextSendNeverDecreases(events, i + 1, k);
  }

  lemma {:induction false} StepAdvances(events: seq<Event>, j: nat)
    requires j < |events| && Nondecreasing(events) && BackOffsInRange(events)
    ensures var s, e, next := StateAt(events, j), events[j], StateAt(events, j + 1);
            && (Starts(s, e) ==> s.nextSendAt <= e.now)
            && (Ends(s, e) ==> next.nextSendAt >= e.now + TRAFFIC_INTERVAL_MS)
            && (AsksToBackOff(s, e) ==> next.nextSendAt >= e.now + BackOff(e.act.result))
  {
    StateAfter(events, j);
    hide StateAt, Next, Nondecreasing, Starts, Ends, AsksToBackOff, BackOff, BackOffInRange;
    AtMostOneCycle(events, j);
    NextSendNeverDecreases(events, 0, j);
    NextSendAdvances(StateAt(events, j), events[j]);
  }

  /**
   A rate-limited response replaces the next send instead of taking the later of the two. That moves it back
   exactly when the clock it is read on has gone back far enough.
   */
  lemma {:induction false} MovesBackIff(s: State, e: Event)
    requires Inv(s)
    ensures Next(s, e).nextSendAt < s.nextSendAt <==>
            AsksToBackOff(s, e) && e.now + BackOff(e.act.result) < s.nextSendAt
  {
    var k := ShapeOf(s, e);
    var limited := AsksToBackOff(s, e);
    if limited {
      var c := s.cycles[0].(result := Some(e.act.result));
      assert Next(s, e).nextSendAt == e.now + BackOff(e.act.result);
    }
    hide Next, Takes, Newest, Counted, SelectedIn, REPLICAS, AsksToBackOff;
  }

  /** A run in which the clock goes back and the next send with it. */
  lemma {:induction false} ClockBackMovesSendBack()
    ensures var limited := HttpResponse("", 429, Some(0));
            var events := [Event(0, Send(false)), Event(0, FailRequest(0)), Event(5_000, Send(false)),
                           Event(0, Respond(0, limited))];
            StateAt(events, 3).nextSendAt == 5_000 && StateAt(events, 4).nextSendAt == 0
  {
    var events := [Event(0, Send(false)), Event(0, FailRequest(0)), Event(5_000, Send(false)),
                   Event(0, Respond(0, HttpResponse("", 429, Some(0))))];
    var s1 := StateAt(events, 1);
    assert s1 == Next(StateAt(events, 0), events[0]);
    assert |s1.cycles| == 1 && s1.cycles[0].wait.ForResponse?;
    var s2 := StateAt(events, 2);
    assert Dropped(s1.cycles, 0) == [];
    assert s2.cycles == [] && s2.nextSendAt == 5_000 && !s2.active && s2.mounted;
    var s3 := StateAt(events, 3);
    assert |s3.cycles| == 1 && s3.cycles[0].wait.ForResponse? && s3.nextSendAt == 5_000;
  }

  // ---- History and counts

  /** What an event completes: the cycle's result, and the replica the page then shows as selected. */
  function Completion(s: State, e: Event): Option<Entry> {
    if !Ends(s, e) then None
    else match e.act
      case Respond(_, result) => Some(Entry(result, SelectedIn(Next(s, e).shown)))
      case Answer(i, _) =>
        if i < |s.cycles| && s.cycles[i].result.Some?
        then Some(Entry(s.cycles[i].result.value, SelectedIn(Next(s, e).shown)))
        else None
      case FailLookup(i) =>
        if i < |s.cycles| && s.cycles[i].result.Some?
        then Some(Entry(s.cycles[i].result.value, SelectedIn(Next(s, e).shown)))
        else None
      case _ => None
  }

  /** Every completed cycle so far, the newest first. */
  function Log(events: seq<Event>, j: nat): seq<Entry>
    requires j <= |events|
  {
    if j == 0 then []
    else
      var done := Completion(StateAt(events, j - 1), events[j - 1]);
      if done.Some? then [done.value] + Log(events, j - 1) else Log(events, j - 1)
  }

  function Tally(log: seq<Entry>, replica: string): nat {
    if log == [] then 0
    else (if log[0].selectedReplica == Some(replica) then 1 else 0) + Tally(log[1..], replica)
  }

  /** A step adds to the history and the counts exactly what it completes. */
  ghost predicate Records(s: State, next: State, done: Option<Entry>) {
    && next.history == (if done.Some? then Newest([done.value] + s.history) else s.history)
    && next.counts == (if done.Some? then Counted(s.counts, done.value.selectedReplica) else s.counts)
  }

  lemma {:induction false} StepRecords(s: State, e: Event)
    requires Inv(s)
    ensures Records(s, Next(s, e), Completion(s, e))
  {
    var k := ShapeOf(s, e);
    hide Next, Takes, Newest, Counted, SelectedIn, REPLICAS;
  }

  lemma {:induction false} TallyGrows(entry: Entry, log: seq<Entry>, replica: string)
    ensures Tally([entry] + log, replica) ==
            (if entry.selectedReplica == Some(replica) then 1 else 0) + Tally(log, replica)
  {
    assert ([entry] + log)[1..] == log;
  }

  /**
   The history is the newest five of all completed cycles, while each replica's count tallies all of them.
   */
  lemma {:induction false} HistoryAndCounts(events: seq<Event>, j: nat)
    requires j <= |events|
    ensures StateAt(events, j).history == (if |Log(events, j)| <= 5 then Log(events, j) else Log(events, j)[..5])
    ensures StateAt(events, j).counts.Keys == {"replica-1", "replica-2", "replica-3"}
    ensures forall r :: r in StateAt(events, j).counts ==> StateAt(events, j).counts[r] == Tally(Log(events, j), r)
  {
    hide Next, Inv, Completion;
    if j > 0 {
      HistoryAndCounts(events, j - 1);
      AtMostOneCycle(events, j - 1);
      var s, e := StateAt(events, j - 1), events[j - 1];
      StepRecords(s, e);
      var done, log := Completion(s, e), Log(events, j - 1);
      if done.Some? {
        NewestOfNewest(done.value, log);
        forall r ensures Tally([done.value] + log, r) ==
                         (if done.value.selectedReplica == Some(r) then 1 else 0) + Tally(log, r)
        {
          TallyGrows(done.value, log, r);
        }
      }
    }
  }

  lemma {:induction false} NewestOfNewest(entry: Entry, log: seq<Entry>)
    ensures Newest([entry] + Newest(log)) == Newest([entry] + log)
  {
  }

  // ---- Lookups

  /** Lookups come after the wait, and each wait starts after the answer before it. */
  ghost predicate LookupsSpaced(c: Cycle, now: int) {
    && (forall i, k :: 0 <= i < k < |c.lookups| ==> c.lookups[k] - c.lookups[i] >= TRACE_POLL_INTERVAL_MS)
    && (forall i :: 0 <= i < |c.lookups| ==> c.lookups[i] <= now)
    && (c.wait.ForLookup? ==> c.wait.since <= now && forall i :: 0 <= i < |c.lookups| ==> c.lookups[i] <= c.wait.since)
  }

  ghost predicate AllSpaced(s: State, now: int) {
    forall i :: 0 <= i < |s.cycles| ==> LookupsSpaced(s.cycles[i], now)
  }

  lemma {:induction false} StepKeepsSpacing(s: State, e: Event, before: int)
    requires Inv(s) && AllSpaced(s, before) && before <= e.now
    ensures AllSpaced(Next(s, e), e.now)
  {
    var k := ShapeOf(s, e);
    hide Next, Takes, Newest, Counted, SelectedIn, REPLICAS;
    if |s.cycles| == 1 {
      assert LookupsSpaced(s.cycles[0], before);
    }
  }

  /** In every run, on any clock, a cycle sends at most ten lookups. */
  lemma {:induction false} AtMostTenLookups(events: seq<Event>, j: nat)
    requires j <= |events|
    ensures forall i :: 0 <= i < |StateAt(events, j).cycles| ==> |StateAt(events, j).cycles[i].lookups| <= 10
  {
    AtMostOneCycle(events, j);
    hide StateAt;
  }

  /** On a clock that does not go back they are at least a second and a half apart. */
  lemma {:induction false} LookupsAreSpaced(events: seq<Event>, j: nat)
    requires j <= |events| && Nondecreasing(events)
    ensures forall i :: 0 <= i < |StateAt(events, j).cycles| ==>
              var lookups := StateAt(events, j).cycles[i].lookups;
              forall a, b :: 0 <= a < b < |lookups| ==> lookups[b] - lookups[a] >= 1_500
    ensures j > 0 ==> AllSpaced(StateAt(events, j), events[j - 1].now)
  {
    hide Next;
    if j > 0 {
      LookupsAreSpaced(events, j - 1);
      AtMostOneCycle(events, j - 1);
      var before := if j > 1 then events[j - 2].now else events[j - 1].now;
      StepKeepsSpacing(StateAt(events, j - 1), events[j - 1], before);
    }
  }
}
