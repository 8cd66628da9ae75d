/**
 What each event does to a page that is there: when a request goes out, how the polling for its trace goes on or ends,
 and what the page shows, told from the event and what the page showed before, over every run.
 */
module ShowcasePolling {
  import opened Common
  import opened RequestFlow
  import opened TraceQuery
  import opened ShowcaseDriver
  import opened ShowcaseRuns

  /** The page is there, and its cycle waits for the answer to a lookup. */
  ghost predicate IsPolling(s: State) {
    s.mounted && |s.cycles| == 1 && s.cycles[0].wait.ForAnswer? && s.cycles[0].result.Some?
  }

  /** The trace rejects the request's authentication. */
  ghost predicate RejectsLogin(trace: TraceEvidence) {
    exists i :: 0 <= i < |trace.policies| && trace.policies[i] == PolicyEvidence(Authentication, PolicyOutcome.Rejected)
  }

  /** The first thing the trace says of the authentication, if anything. */
  ghost predicate FirstSays(trace: TraceEvidence, outcome: PolicyOutcome) {
    exists i :: && 0 <= i < |trace.policies| && trace.policies[i] == PolicyEvidence(Authentication, outcome)
                && forall k :: 0 <= k < i ==> trace.policies[k].policy != Authentication
  }

  /** An answer after which the trace may still come. */
  predicate LeavesOpen(answer: TraceAnswer) {
    answer.StillWaiting? || (answer.Judged? && !answer.normalized.Available?)
  }

  /** The trace an answer brings. */
  function Brought(answer: TraceAnswer): Option<TraceEvidence> {
    if answer.Judged? && !answer.normalized.NotFound? then Some(answer.normalized.trace) else None
  }

  lemma {:induction false} FirstOutcomeIs(policies: seq<PolicyEvidence>, policy: PolicyName)
    ensures match FirstOutcome(policies, policy)
            case None => forall k :: 0 <= k < |policies| ==> policies[k].policy != policy
            case Some(outcome) =>
              exists i :: && 0 <= i < |policies| && policies[i] == PolicyEvidence(policy, outcome)
                          && forall k :: 0 <= k < i ==> policies[k].policy != policy
  {
    if policies != [] && policies[0].policy != policy {
      FirstOutcomeIs(policies[1..], policy);
      assert forall k :: 0 < k < |policies| ==> policies[k] == policies[1..][k - 1];
      match FirstOutcome(policies[1..], policy) {
        case None =>
        case Some(outcome) =>
          var i :| && 0 <= i < |policies[1..]| && policies[1..][i] == PolicyEvidence(policy, outcome)
                   && forall k :: 0 <= k < i ==> policies[1..][k].policy != policy;
          assert policies[i + 1] == PolicyEvidence(policy, outcome);
          assert forall k :: 0 <= k < i + 1 ==> policies[k].policy != policy;
      }
    } else if policies != [] {
      assert policies[0] == PolicyEvidence(policy, policies[0].outcome);
    }
  }

  // ---- Going on

  /**
   An answer that leaves the trace open, with fewer than ten lookups sent: the cycle waits for its next lookup from now
   on, with its result and its lookups; the page shows what part of the trace there is.
   */
  lemma {:induction false} PollingGoesOn(events: seq<Event>, j: nat)
    requires j < |events| && IsPolling(StateAt(events, j)) && events[j].act.Answer? && events[j].act.cycle == 0
    requires LeavesOpen(events[j].act.answer) && |StateAt(events, j).cycles[0].lookups| < 10
    ensures var s, e, next := StateAt(events, j), events[j], StateAt(events, j + 1);
            var c, brought := s.cycles[0], Brought(e.act.answer);
            && |next.cycles| == 1 && next.mounted && next.active
            && next.cycles[0].wait == ForLookup(e.now)
            && next.cycles[0].result == c.result && next.cycles[0].lookups == c.lookups
            && next.shown == (if brought.Some? then PartlyTraced(c.result.value, brought.value) else s.shown)
            && next.traffic == (s.traffic && !(brought.Some? && RejectsLogin(brought.value)))
            && next.history == s.history && next.counts == s.counts && next.nextSendAt == s.nextSendAt
  {
    StateAfter(events, j);
    AtMostOneCycle(events, j);
    RejectionIs(events[j].act.answer);
    hide StateAt, REPLICAS, AuthenticationRejected;
  }

  lemma {:induction false} RejectionIs(answer: TraceAnswer)
    ensures Brought(answer).Some? ==> (AuthenticationRejected(Brought(answer).value) <==> RejectsLogin(Brought(answer).value))
  {
    if Brought(answer).Some? {
      var policies := Brought(answer).value.policies;
      if PolicyEvidence(Authentication, PolicyOutcome.Rejected) in policies {
        var i :| 0 <= i < |policies| && policies[i] == PolicyEvidence(Authentication, PolicyOutcome.Rejected);
      }
    }
  }

  /** The lookup after the wait: a second and a half later at the earliest, and only on a visible page. */
  lemma {:induction false} LookupGoesOut(events: seq<Event>, j: nat)
    requires j < |events| && events[j].act.LookUp? && events[j].act.cycle == 0
    requires var s := StateAt(events, j); s.mounted && |s.cycles| == 1 && s.cycles[0].wait.ForLookup?
    ensures var s, e, next := StateAt(events, j), events[j], StateAt(events, j + 1);
            if !e.act.hidden && e.now >= s.cycles[0].wait.since + 1_500
            then next == s.(cycles := [s.cycles[0].(wait := ForAnswer, lookups := s.cycles[0].lookups + [e.now])])
            else next == s
  {
    StateAfter(events, j);
    hide StateAt;
    var s := StateAt(events, j);
    assert forall c: Cycle :: s.cycles[0 := c] == [c];
  }

  // ---- Ending

  /**
   A cycle of a page that is there is ended by an answer exactly when the answer settles the matter or comes to the tenth
   lookup.
   */
  lemma {:induction false} PollingEndsIff(events: seq<Event>, j: nat)
    requires j < |events| && IsPolling(StateAt(events, j)) && events[j].act.Answer? && events[j].act.cycle == 0
    ensures StateAt(events, j + 1).cycles == [] <==>
            || |StateAt(events, j).cycles[0].lookups| == 10
            || !LeavesOpen(events[j].act.answer)
  {
    AtMostOneCycle(events, j);
    if |StateAt(events, j).cycles[0].lookups| < 10 && LeavesOpen(events[j].act.answer) {
      PollingGoesOn(events, j);
    } else {
      StateAfter(events, j);
      hide StateAt, REPLICAS, UnattributedRejection, AuthenticationRejected, Newest, Counted;
      assert Dropped(StateAt(events, j).cycles, 0) == [];
    }
  }

  /** What the page shows once the polling is over. */
  function LastShown(c: Cycle, answer: TraceAnswer): Shown
    requires c.result.Some?
  {
    var result := c.result.value;
    match answer
    case LoginNeeded => Untraced(result, QueryFailed)
    case NoEvidence(reason) => if c.latest.PartlyTraced? then c.latest else Untraced(result, reason)
    case Judged(Available(trace)) => Traced(result, trace)
    case Judged(Partial(trace)) => PartlyTraced(result, trace)
    case _ => if c.latest.PartlyTraced? then c.latest else Untraced(result, TraceNotFound)
  }

  /** A 401 of which the trace shown says neither that the gateway passed the login nor that it rejected it. */
  ghost predicate IsUnattributed(result: RequestResult, shown: Shown) {
    && !result.ConnectionFailure? && result.statusCode == 401
    && (shown.Traced? || shown.PartlyTraced? ==>
          !FirstSays(shown.trace, PolicyOutcome.Passed) && !FirstSays(shown.trace, PolicyOutcome.Rejected))
  }

  lemma {:induction false} UnattributedIs(c: Cycle, result: RequestResult)
    ensures !c.authenticationRequired ==> (UnattributedRejection(c, result) <==> IsUnattributed(result, c.latest))
    ensures c.authenticationRequired ==> !UnattributedRejection(c, result)
  {
    if c.latest.Traced? || c.latest.PartlyTraced? {
      FirstOutcomeIs(c.latest.trace.policies, Authentication);
      forall outcome
        ensures FirstOutcome(c.latest.trace.policies, Authentication) == Some(outcome) <==> FirstSays(c.latest.trace, outcome)
      {
        FirstSaysOnce(c.latest.trace, outcome);
      }
    }
    hide FirstOutcome, FirstSays;
  }

  lemma {:induction false} FirstSaysOnce(trace: TraceEvidence, outcome: PolicyOutcome)
    ensures FirstOutcome(trace.policies, Authentication) == Some(outcome) <==> FirstSays(trace, outcome)
  {
    FirstOutcomeIs(trace.policies, Authentication);
    var policies := trace.policies;
    if i :| && 0 <= i < |policies| && policies[i] == PolicyEvidence(Authentication, outcome)
            && forall k :: 0 <= k < i ==> policies[k].policy != Authentication {
      var first := FirstOutcome(policies, Authentication);
      assert policies[i].policy == Authentication;
      var m :| && 0 <= m < |policies| && policies[m] == PolicyEvidence(Authentication, first.value)
               && forall k :: 0 <= k < m ==> policies[k].policy != Authentication;
      assert policies[m].policy == Authentication;
      assert m == i;
    }
    hide FirstOutcome;
  }

  /** The replica a page names. */
  function ReplicaShown(shown: Shown): Option<string> {
    match shown
    case PartlyTraced(_, trace) =>
      if trace.replicaSelection.Selected? then Some(trace.replicaSelection.replicaId) else None
    case Traced(_, trace) =>
      if trace.replicaSelection.Selected? then Some(trace.replicaSelection.replicaId) else None
    case _ => None
  }

  /** What the end of a cycle leaves: an entry of what was shown, at most five of them, the count of the replica, the pause. */
  ghost predicate IsRecorded(s: State, next: State, result: RequestResult, now: int) {
    var replica := ReplicaShown(next.shown);
    && !next.active && next.cycles == []
    && next.history == ([Entry(result, replica)] + s.history)[..if |s.history| < 4 then |s.history| + 1 else 5]
    && next.counts.Keys == s.counts.Keys
    && (forall r :: r in s.counts ==> next.counts[r] == s.counts[r] + (if replica == Some(r) then 1 else 0))
    && (next.nextSendAt >= now + 5_000)
  }

  /**
   When the polling ends, the page shows the trace if it came, and why not otherwise, unless part of it came; traffic
   stops for a login, a failed lookup, a rejected login and a 401 the trace does not explain; the request is recorded.
   */
  lemma {:induction false} PollingEnds(events: seq<Event>, j: nat)
    requires j < |events| && IsPolling(StateAt(events, j)) && events[j].act.Answer? && events[j].act.cycle == 0
    requires !LeavesOpen(events[j].act.answer) || |StateAt(events, j).cycles[0].lookups| == 10
    ensures var s, e, next := StateAt(events, j), events[j], StateAt(events, j + 1);
            var c, answer := s.cycles[0], e.act.answer;
            && next.shown == LastShown(c, answer)
            && next.traffic == (&& s.traffic && !answer.LoginNeeded? && !answer.NoEvidence?
                                && !(Brought(answer).Some? && RejectsLogin(Brought(answer).value))
                                && !IsUnattributed(c.result.value, next.shown))
            && IsRecorded(s, next, c.result.value, e.now)
            && next.nextSendAt == Max(s.nextSendAt, e.now + 5_000)
  {
    AtMostOneCycle(events, j);
    NoLoginAsked(events, j);
    StateAfter(events, j);
    var s, answer, now := StateAt(events, j), events[j].act.answer, events[j].now;
    hide StateAt, IsRecorded, IsUnattributed, RejectsLogin, Answered;
    EndShows(s, answer, now);
  }

  /** A cycle that found the login missing is over. */
  lemma {:induction false} NoLoginAsked(events: seq<Event>, j: nat)
    requires j <= |events|
    ensures |StateAt(events, j).cycles| == 1 ==> !StateAt(events, j).cycles[0].authenticationRequired
  {
    hide Inv, Next;
    if j > 0 {
      NoLoginAsked(events, j - 1);
      AtMostOneCycle(events, j - 1);
      StepAsksNoLogin(StateAt(events, j - 1), events[j - 1]);
    }
  }

  lemma {:induction false} StepAsksNoLogin(s: State, e: Event)
    requires Inv(s) && (|s.cycles| == 1 ==> !s.cycles[0].authenticationRequired)
    ensures |Next(s, e).cycles| == 1 ==> !Next(s, e).cycles[0].authenticationRequired
  {
    if Takes(s, e.now, e.act) && e.act.Answer? && s.mounted {
      hide Next, REPLICAS, Inv;
      AnswerAsksNoLogin(s, e.act.answer, e.now);
      AnswerIsNext(s, e);
    } else {
      hide REPLICAS, Newest, Counted, UnattributedRejection, Answered;
    }
  }

  lemma {:induction false} AnswerIsNext(s: State, e: Event)
    requires Inv(s) && Takes(s, e.now, e.act) && e.act.Answer? && s.mounted
    ensures |s.cycles| == 1 && Next(s, e) == Answered(s, 0, e.act.answer, e.now)
  {
    hide Answered;
  }

  lemma {:induction false} AnswerAsksNoLogin(s: State, answer: TraceAnswer, now: int)
    requires |s.cycles| == 1 && s.cycles[0].result.Some? && !s.cycles[0].authenticationRequired
    ensures var next := Answered(s, 0, answer, now);
            |next.cycles| == 1 ==> !next.cycles[0].authenticationRequired
  {
    hide REPLICAS, Newest, Counted, UnattributedRejection, AuthenticationRejected, SelectedIn;
  }

  lemma {:induction false} EndShows(s: State, answer: TraceAnswer, now: int)
    requires Inv(s) && IsPolling(s) && !s.cycles[0].authenticationRequired
    requires !LeavesOpen(answer) || |s.cycles[0].lookups| == 10
    ensures var c, next := s.cycles[0], Answered(s, 0, answer, now);
            && next.shown == LastShown(c, answer)
            && next.traffic == (&& s.traffic && !answer.LoginNeeded? && !answer.NoEvidence?
                                && !(Brought(answer).Some? && RejectsLogin(Brought(answer).value))
                                && !IsUnattributed(c.result.value, next.shown))
            && IsRecorded(s, next, c.result.value, now)
            && next.nextSendAt == Max(s.nextSendAt, now + 5_000)
  {
    hide AuthenticationRejected, RejectsLogin, IsRecorded, IsUnattributed, Concluding, REPLICAS;
    RejectionIs(answer);
    var c := s.cycles[0];
    var result := c.result.value;
    match answer {
      case LoginNeeded =>
        var latest := Untraced(result, QueryFailed);
        ConclusionShows(s.(shown := latest, traffic := false), c.(latest := latest, authenticationRequired := true), now);
      case NoEvidence(reason) =>
        var latest := if c.latest.PartlyTraced? then c.latest else Untraced(result, reason);
        ConclusionShows(s.(shown := latest, traffic := false), c.(latest := latest), now);
      case Judged(Available(trace)) =>
        var latest := Traced(result, trace);
        ConclusionShows(s.(shown := latest, traffic := s.traffic && !AuthenticationRejected(trace)), c.(latest := latest), now);
      case Judged(Partial(trace)) =>
        var latest := PartlyTraced(result, trace);
        ConclusionShows(s.(shown := latest, traffic := s.traffic && !AuthenticationRejected(trace)), c.(latest := latest), now);
      case _ => ConclusionShows(s, c, now);
    }
    RecordedAlike(s, Answered(s, 0, answer, now), result, now);
  }

  /** What is recorded depends on the history and the counts only. */
  lemma {:induction false} RecordedAlike(s: State, next: State, result: RequestResult, now: int)
    ensures forall t: State :: t.history == s.history && t.counts == s.counts ==>
              (IsRecorded(t, next, result, now) <==> IsRecorded(s, next, result, now))
  {
  }

  /** Leaving the loop shows why there is no trace if none came, records the request and may pause traffic. */
  lemma {:induction false} ConclusionShows(s: State, c: Cycle, now: int)
    requires |s.cycles| == 1 && c.result.Some? && s.shown == c.latest && s.counts.Keys == REPLICAS
    requires !c.result.value.ConnectionFailure?
    ensures var result, next := c.result.value, Concluding(s, 0, c, now);
            && next.shown == (if c.latest.WaitingForTrace? then Untraced(result, TraceNotFound) else c.latest)
            && next.traffic == (s.traffic && (c.authenticationRequired || !IsUnattributed(result, next.shown)))
            && IsRecorded(s, next, result, now)
            && next.nextSendAt == Max(s.nextSendAt, now + 5_000)
  {
    hide REPLICAS, IsUnattributed, UnattributedRejection, Finished, IsRecorded;
    var result := c.result.value;
    var ended := c.(latest := if c.latest.WaitingForTrace? then Untraced(result, TraceNotFound) else c.latest);
    UnattributedIs(ended, result);
    var mid := s.(shown := ended.latest, traffic := s.traffic && !UnattributedRejection(ended, result));
    FinishRecords(mid, ended, now);
    RecordedAlike(mid, Finished(mid, 0, ended, now), result, now);
  }

  lemma {:induction false} FinishRecords(s: State, c: Cycle, now: int)
    requires |s.cycles| == 1 && c.result.Some? && s.shown == c.latest && s.counts.Keys == REPLICAS
    ensures var next := Finished(s, 0, c, now);
            && next.shown == s.shown && next.traffic == s.traffic
            && IsRecorded(s, next, c.result.value, now)
            && next.nextSendAt == Max(s.nextSendAt, now + 5_000)
  {
    hide REPLICAS;
  }

  // ---- Sending, and the other events

  /** Whether an event may send a request. */
  predicate AsksToSend(s: State, act: Act) {
    act.Send? || act.StartTraffic? || (act.Tick? && s.traffic)
  }

  /**
   A request goes out exactly when the page is there and visible, nothing is under way and the pause is over. Nothing
   else then changes but what is shown, and the switch of a start.
   */
  lemma {:induction false} RequestGoesOutIff(events: seq<Event>, j: nat)
    requires j < |events| && (events[j].act.Send? || events[j].act.StartTraffic? || events[j].act.Tick?)
    ensures var s, e, next := StateAt(events, j), events[j], StateAt(events, j + 1);
            && (next.cycles != s.cycles <==>
                  AsksToSend(s, e.act) && s.mounted && s.cycles == [] && !e.act.hidden && e.now >= s.nextSendAt)
            && next == s.(traffic := s.traffic || e.act.StartTraffic?,
                          cycles := next.cycles, active := next.active, shown := next.shown)
            && (if next.cycles == s.cycles then next.shown == s.shown && next.active == s.active
                else next.shown == InFlight && next.active && |next.cycles| == 1
                     && next.cycles[0].wait.ForResponse? && next.cycles[0].result.None? && next.cycles[0].lookups == [])
  {
    AtMostOneCycle(events, j);
    StateAfter(events, j);
    hide StateAt, REPLICAS;
    var s := StateAt(events, j);
    assert s.cycles + [Cycle(ForResponse, None, NotConnected, false, [])] != s.cycles;
  }

  /** A switch turned off, and leaving the page, which nothing brings back. */
  lemma {:induction false} StoppingStops(events: seq<Event>, j: nat)
    requires j < |events| && (events[j].act.StopTraffic? || events[j].act.Unmount?)
    ensures var s, e, next := StateAt(events, j), events[j], StateAt(events, j + 1);
            next == s.(traffic := false, mounted := s.mounted && e.act.StopTraffic?)
  {
    StateAfter(events, j);
    hide StateAt, REPLICAS;
  }

  /**
   A response is shown as waiting for its trace and polled for, unless the connection failed, which ends the cycle.
   Only a whole response keeps traffic on, and one of 429 sets the next send.
   */
  lemma {:induction false} ResponseShown(events: seq<Event>, j: nat)
    requires j < |events| && events[j].act.Respond? && events[j].act.cycle == 0
    requires var s := StateAt(events, j); s.mounted && |s.cycles| == 1 && s.cycles[0].wait.ForResponse?
    ensures var s, e, next := StateAt(events, j), events[j], StateAt(events, j + 1);
            var result := e.act.result;
            && next.traffic == (s.traffic && result.HttpResponse?)
            && (if result.ConnectionFailure?
                then
                  && next.shown == Untraced(result, QueryFailed) && IsRecorded(s, next, result, e.now)
                  && next.nextSendAt == Max(s.nextSendAt, e.now + 5_000)
                else
                  && next.shown == WaitingForTrace(result) && next.active && |next.cycles| == 1
                  && next.cycles[0].wait == ForLookup(e.now) && next.cycles[0].result == Some(result)
                  && next.cycles[0].lookups == [] && next.history == s.history && next.counts == s.counts
                  && next.nextSendAt ==
                     (if result.statusCode != 429 then s.nextSendAt
                      else e.now + if result.retryAfterMs.Some? then result.retryAfterMs.value else 5_000))
  {
    AtMostOneCycle(events, j);
    StateAfter(events, j);
    hide StateAt, REPLICAS;
  }

  /** A request or a lookup that throws ends the cycle and stops traffic; a result already there is kept and recorded. */
  lemma {:induction false} FailureShown(events: seq<Event>, j: nat)
    requires j < |events| && StateAt(events, j).mounted && |StateAt(events, j).cycles| == 1
    requires var s, act := StateAt(events, j), events[j].act;
             || (act.FailRequest? && act.cycle == 0 && s.cycles[0].wait.ForResponse?)
             || (act.FailLookup? && act.cycle == 0 && s.cycles[0].wait.ForAnswer?)
    ensures var s, e, next := StateAt(events, j), events[j], StateAt(events, j + 1);
            && !next.traffic && next.cycles == [] && !next.active && next.nextSendAt == Max(s.nextSendAt, e.now + 5_000)
            && match s.cycles[0].result
               case None => next.shown == NotConnected && next.history == s.history && next.counts == s.counts
               case Some(result) =>
                 && next.shown == (if s.shown.PartlyTraced? then s.shown else Untraced(result, QueryFailed))
                 && IsRecorded(s, next, result, e.now)
  {
    AtMostOneCycle(events, j);
    StateAfter(events, j);
    hide StateAt, REPLICAS;
  }

  /** On a page that is gone an event changes nothing but the cycles left behind. */
  lemma {:induction false} GonePageIsLeftAlone(events: seq<Event>, j: nat)
    requires j < |events| && !StateAt(events, j).mounted
    ensures var s, e, next := StateAt(events, j), events[j], StateAt(events, j + 1);
            && next == s.(cycles := next.cycles, traffic := next.traffic)
            && (next.traffic ==> s.traffic || e.act.StartTraffic?)
            && (next.cycles == s.cycles || next.cycles == [])
  {
    AtMostOneCycle(events, j);
    StateAfter(events, j);
    hide StateAt, REPLICAS;
  }
}
