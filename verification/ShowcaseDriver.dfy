/**
 The dashboard's request driver. Its one asynchronous function is cut at its waits: a call that passes the
 guard leaves a cycle behind, and each later event carries one cycle up to its next wait.
 */
module ShowcaseDriver {
  import opened Common
  import opened RequestFlow
  import opened TraceQuery

  const TRAFFIC_INTERVAL_MS := 5_000
  const TRACE_POLL_INTERVAL_MS := 1_500
  const MAX_TRACE_LOOKUPS := 10

  /** What the page shows. */
  datatype Shown =
    | NotConnected
    | InFlight
    | WaitingForTrace(result: RequestResult)
    | PartlyTraced(result: RequestResult, trace: TraceEvidence)
    | Traced(result: RequestResult, trace: TraceEvidence)
    | Untraced(result: RequestResult, reason: Reason)

  datatype Entry = Entry(result: RequestResult, selectedReplica: Option<string>)

  /** Where a cycle waits: for the response, for the next lookup since an instant, or for a lookup's answer. */
  datatype Wait = ForResponse | ForLookup(since: int) | ForAnswer

  /** The variables of one run of the request function. `lookups` holds the times of the lookups sent. */
  datatype Cycle = Cycle(
    wait: Wait,
    result: Option<RequestResult>,
    latest: Shown,
    authenticationRequired: bool,
    lookups: seq<int>)

  datatype State = State(
    mounted: bool,
    active: bool,
    traffic: bool,
    nextSendAt: int,
    shown: Shown,
    history: seq<Entry>,
    counts: map<string, nat>,
    cycles: seq<Cycle>)

  const REPLICAS: set<string> := {"replica-1", "replica-2", "replica-3"}

  const START := State(true, false, false, 0, NotConnected, [], map r | r in REPLICAS :: 0, [])

  datatype Act =
    | Send(hidden: bool)
    | StartTraffic(hidden: bool)
    | StopTraffic
    | Tick(hidden: bool)
    | Respond(cycle: nat, result: RequestResult)
    | FailRequest(cycle: nat)
    | LookUp(cycle: nat, hidden: bool)
    | Answer(cycle: nat, answer: TraceAnswer)
    | FailLookup(cycle: nat)
    | Unmount

  datatype Event = Event(now: int, act: Act)

  // ---- The pieces between waits

  predicate MaySend(s: State, now: int, hidden: bool) {
    s.mounted && !s.active && !hidden && now >= s.nextSendAt
  }

  function Sent(s: State, now: int, hidden: bool): State {
    if !MaySend(s, now, hidden) then s
    else s.(active := true, shown := InFlight, cycles := s.cycles + [Cycle(ForResponse, None, NotConnected, false, [])])
  }

  function TraceOf(shown: Shown): Option<TraceEvidence> {
    if shown.PartlyTraced? || shown.Traced? then Some(shown.trace) else None
  }

  function SelectedIn(shown: Shown): Option<string> {
    var trace := TraceOf(shown);
    if trace.Some? && trace.value.replicaSelection.Selected? then Some(trace.value.replicaSelection.replicaId) else None
  }

  function FirstOutcome(policies: seq<PolicyEvidence>, policy: PolicyName): Option<PolicyOutcome> {
    if policies == [] then None
    else if policies[0].policy == policy then Some(policies[0].outcome)
    else FirstOutcome(policies[1..], policy)
  }

  function AuthenticationOutcome(shown: Shown): Option<PolicyOutcome> {
    var trace := TraceOf(shown);
    if trace.Some? then FirstOutcome(trace.value.policies, Authentication) else None
  }

  predicate AuthenticationRejected(trace: TraceEvidence) {
    PolicyEvidence(Authentication, Rejected) in trace.policies
  }

  /** A 401 that the trace does not attribute to either side. */
  predicate UnattributedRejection(c: Cycle, result: RequestResult) {
    && !c.authenticationRequired
    && !result.ConnectionFailure? && result.statusCode == 401
    && AuthenticationOutcome(c.latest) != Some(Passed) && AuthenticationOutcome(c.latest) != Some(Rejected)
  }

  function Counted(counts: map<string, nat>, replica: Option<string>): map<string, nat> {
    if replica.Some? && replica.value in counts
    then counts[replica.value := counts[replica.value] + 1]
    else counts
  }

  function Newest(history: seq<Entry>): seq<Entry> {
    if |history| <= MAX_REQUEST_HISTORY then history else history[..MAX_REQUEST_HISTORY]
  }

  /** What a cycle adds to the history when it ends. */
  function EntryOf(c: Cycle): Option<Entry> {
    if c.result.Some? then Some(Entry(c.result.value, SelectedIn(c.latest))) else None
  }

  function Dropped(cycles: seq<Cycle>, i: nat): seq<Cycle>
    requires i < |cycles|
  {
    cycles[..i] + cycles[i + 1..]
  }

  /** The `finally` block of a mounted component. */
  function Finished(s: State, i: nat, c: Cycle, now: int): State
    requires i < |s.cycles|
  {
    var entry := EntryOf(c);
    s.(history := if entry.Some? then Newest([entry.value] + s.history) else s.history,
       counts := if entry.Some? then Counted(s.counts, entry.value.selectedReplica) else s.counts,
       nextSendAt := Max(s.nextSendAt, now + TRAFFIC_INTERVAL_MS),
       active := false,
       cycles := Dropped(s.cycles, i))
  }

  /** What follows the lookup loop. */
  function Concluding(s: State, i: nat, c: Cycle, now: int): State
    requires i < |s.cycles| && c.result.Some?
  {
    var result := c.result.value;
    var latest := if c.latest.WaitingForTrace?
                  then Untraced(result, if result.ConnectionFailure? then QueryFailed else TraceNotFound)
                  else c.latest;
    var ended := c.(latest := latest);
    Finished(s.(shown := if c.latest.WaitingForTrace? then latest else s.shown,
                traffic := s.traffic && !UnattributedRejection(ended, result)), i, ended, now)
  }

  function Kept(s: State, i: nat, c: Cycle): State
    requires i < |s.cycles|
  {
    s.(cycles := s.cycles[i := c])
  }

  /** Either wait for the next lookup or leave the loop. */
  function Continued(s: State, i: nat, c: Cycle, now: int): State
    requires i < |s.cycles| && c.result.Some?
  {
    if |c.lookups| < MAX_TRACE_LOOKUPS then Kept(s, i, c.(wait := ForLookup(now))) else Concluding(s, i, c, now)
  }

  function Responded(s: State, i: nat, result: RequestResult, now: int): State
    requires i < |s.cycles|
  {
    var c := s.cycles[i].(result := Some(result), latest := WaitingForTrace(result));
    var limited := !result.ConnectionFailure? && result.statusCode == 429;
    var s1 := s.(
      shown := WaitingForTrace(result),
      traffic := s.traffic && result.HttpResponse?,
      nextSendAt := if limited then now + BackOff(result) else s.nextSendAt);
    if result.ConnectionFailure? then Concluding(s1, i, c, now) else Kept(s1, i, c.(wait := ForLookup(now)))
  }

  /** How long a rate-limited response asks to wait. */
  function BackOff(result: RequestResult): int
    requires !result.ConnectionFailure?
  {
    if result.retryAfterMs.Some? then result.retryAfterMs.value else TRAFFIC_INTERVAL_MS
  }

  function Answered(s: State, i: nat, answer: TraceAnswer, now: int): State
    requires i < |s.cycles| && s.cycles[i].result.Some?
  {
    var c := s.cycles[i];
    var result := c.result.value;
    match answer
    case LoginNeeded =>
      var latest := Untraced(result, QueryFailed);
      Concluding(s.(shown := latest, traffic := false), i, c.(latest := latest, authenticationRequired := true), now)
    case Judged(NotFound) => Continued(s, i, c, now)
    case Judged(Partial(trace)) =>
      var latest := PartlyTraced(result, trace);
      Continued(s.(shown := latest, traffic := s.traffic && !AuthenticationRejected(trace)),
                i, c.(latest := latest), now)
    case Judged(Available(trace)) =>
      var latest := Traced(result, trace);
      Concluding(s.(shown := latest, traffic := s.traffic && !AuthenticationRejected(trace)),
                 i, c.(latest := latest), now)
    case NoEvidence(reason) =>
      var latest := if c.latest.PartlyTraced? then c.latest else Untraced(result, reason);
      Concluding(s.(shown := if c.latest.PartlyTraced? then s.shown else latest, traffic := false),
                 i, c.(latest := latest), now)
    case StillWaiting => Continued(s, i, c, now)
  }

  /** The `catch` block of a mounted component. */
  function Broken(s: State, i: nat, now: int): State
    requires i < |s.cycles|
  {
    var c := s.cycles[i];
    var shown := if c.result.None? then NotConnected
                 else if c.latest.PartlyTraced? then s.shown
                 else Untraced(c.result.value, QueryFailed);
    Finished(s.(shown := shown, traffic := false), i, c, now)
  }

  /** Whether a cycle can take an event now. */
  predicate Takes(s: State, now: int, act: Act) {
    match act
    case Respond(i, _) => i < |s.cycles| && s.cycles[i].wait.ForResponse?
    case FailRequest(i) => i < |s.cycles| && s.cycles[i].wait.ForResponse?
    case LookUp(i, hidden) =>
      && i < |s.cycles| && s.cycles[i].wait.ForLookup? && !hidden
      && now >= s.cycles[i].wait.since + TRACE_POLL_INTERVAL_MS
    case Answer(i, _) => i < |s.cycles| && s.cycles[i].wait.ForAnswer? && s.cycles[i].result.Some?
    case FailLookup(i) =>
      i < |s.cycles| && (s.cycles[i].wait.ForAnswer? || (s.cycles[i].wait.ForLookup? && !s.mounted))
    case _ => true
  }

  /** A cycle that resumes after the page is gone returns without touching anything. */
  function Abandoned(s: State, i: nat): State
    requires i < |s.cycles|
  {
    s.(cycles := Dropped(s.cycles, i))
  }

  function Next(s: State, e: Event): State {
    if !Takes(s, e.now, e.act) then s
    else match e.act
      case Send(hidden) => Sent(s, e.now, hidden)
      case StartTraffic(hidden) => Sent(s.(traffic := true), e.now, hidden)
      case StopTraffic => s.(traffic := false)
      case Tick(hidden) => if s.traffic then Sent(s, e.now, hidden) else s
      case Respond(i, result) => if s.mounted then Responded(s, i, result, e.now) else Abandoned(s, i)
      case FailRequest(i) => if s.mounted then Broken(s, i, e.now) else Abandoned(s, i)
      case LookUp(i, _) =>
        if s.mounted
        then Kept(s, i, s.cycles[i].(wait := ForAnswer, lookups := s.cycles[i].lookups + [e.now]))
        else Abandoned(s, i)
      case Answer(i, answer) => if s.mounted then Answered(s, i, answer, e.now) else Abandoned(s, i)
      case FailLookup(i) => if s.mounted then Broken(s, i, e.now) else Abandoned(s, i)
      case Unmount => s.(mounted := false, traffic := false)
  }

  // ---- The component

  class Showcase {
    var mounted: bool
    var active: bool
    var traffic: bool
    var nextSendAt: int
    var shown: Shown
    var history: seq<Entry>
    var counts: map<string, nat>
    var cycles: seq<Cycle>

    constructor ()
      ensures Value() == START
    {
      mounted, active, traffic, nextSendAt := true, false, false, 0;
      shown, history, counts, cycles := NotConnected, [], map r | r in REPLICAS :: 0, [];
    }

    function Value(): State
      reads this
    {
      State(mounted, active, traffic, nextSendAt, shown, history, counts, cycles)
    }

    /** Up to the first wait: nothing at all unless the guard passes. */
    method ExecuteRequest(now: int, hidden: bool)
      modifies this
      ensures Value() == Sent(old(Value()), now, hidden)
    {
      if !mounted || active || hidden || now < nextSendAt {
        return;
      }
      active := true;
      shown := InFlight;
      cycles := cycles + [Cycle(ForResponse, None, NotConnected, false, [])];
    }

    method Start(now: int, hidden: bool)
      modifies this
      ensures Value() == Next(old(Value()), Event(now, StartTraffic(hidden)))
    {
      traffic := true;
      ExecuteRequest(now, hidden);
    }

    method Stop()
      modifies this
      ensures forall now :: Value() == Next(old(Value()), Event(now, StopTraffic))
    {
      traffic := false;
    }

    method OnTick(now: int, hidden: bool)
      modifies this
      ensures Value() == Next(old(Value()), Event(now, Tick(hidden)))
    {
      if traffic {
        ExecuteRequest(now, hidden);
      }
    }

    /** The page is left: cycles still waiting will find it gone. */
    method Leave()
      modifies this
      ensures forall now :: Value() == Next(old(Value()), Event(now, Unmount))
    {
      mounted := false;
      traffic := false;
    }

    method Finish(i: nat, c: Cycle, now: int)
      requires i < |cycles|
      modifies this
      ensures Value() == Finished(old(Value()), i, c, now)
    {
      if c.result.Some? {
        var selectedReplica := SelectedIn(c.latest);
        history := Newest([Entry(c.result.value, selectedReplica)] + history);
        if selectedReplica.Some? {
          if selectedReplica.value in counts {
            counts := counts[selectedReplica.value := counts[selectedReplica.value] + 1];
          }
        }
      }
      nextSendAt := Max(nextSendAt, now + TRAFFIC_INTERVAL_MS);
      active := false;
      cycles := cycles[..i] + cycles[i + 1..];
    }

    method Conclude(i: nat, cycle: Cycle, now: int)
      requires i < |cycles| && cycle.result.Some?
      modifies this
      ensures Value() == Concluding(old(Value()), i, cycle, now)
    {
      var c := cycle;
      var result := c.result.value;
      if c.latest.WaitingForTrace? {
        c := c.(latest := Untraced(result, if result.ConnectionFailure? then QueryFailed else TraceNotFound));
        shown := c.latest;
      }
      if UnattributedRejection(c, result) {
        traffic := false;
      }
      Finish(i, c, now);
    }

    /** From the response to the first lookup's wait. */
    method OnResponse(i: nat, result: RequestResult, now: int)
      requires Takes(Value(), now, Respond(i, result))
      modifies this
      ensures Value() == Next(old(Value()), Event(now, Respond(i, result)))
    {
      if !mounted {
        cycles := cycles[..i] + cycles[i + 1..];
        return;
      }
      var c := cycles[i].(result := Some(result), latest := WaitingForTrace(result));
      shown := c.latest;
      if !result.HttpResponse? {
        traffic := false;
      }
      if !result.ConnectionFailure? && result.statusCode == 429 {
        nextSendAt := now + if result.retryAfterMs.Some? then result.retryAfterMs.value else TRAFFIC_INTERVAL_MS;
      }
      if result.ConnectionFailure? {
        Conclude(i, c, now);
      } else {
        cycles := cycles[i := c.(wait := ForLookup(now))];
      }
    }

    /** The request function threw, either the request itself or a lookup. */
    method OnFailure(i: nat, now: int)
      requires Takes(Value(), now, FailRequest(i)) || Takes(Value(), now, FailLookup(i))
      modifies this
      ensures Value() == if old(mounted) then Broken(old(Value()), i, now) else Abandoned(old(Value()), i)
    {
      if !mounted {
        cycles := cycles[..i] + cycles[i + 1..];
        return;
      }
      traffic := false;
      var c := cycles[i];
      if c.result.Some? {
        if !c.latest.PartlyTraced? {
          shown := Untraced(c.result.value, QueryFailed);
        }
      } else {
        shown := NotConnected;
      }
      Finish(i, c, now);
    }

    /** A lookup is sent once its wait is over and the page is visible. */
    method OnLookup(i: nat, now: int)
      requires Takes(Value(), now, LookUp(i, false))
      modifies this
      ensures Value() == Next(old(Value()), Event(now, LookUp(i, false)))
    {
      if mounted {
        cycles := cycles[i := cycles[i].(wait := ForAnswer, lookups := cycles[i].lookups + [now])];
      } else {
        cycles := cycles[..i] + cycles[i + 1..];
      }
    }

    /** From a lookup's answer to the next wait, or to the end of the cycle. */
    method OnAnswer(i: nat, answer: TraceAnswer, now: int)
      requires Takes(Value(), now, Answer(i, answer))
      modifies this
      ensures Value() == Next(old(Value()), Event(now, Answer(i, answer)))
    {
      if !mounted {
        cycles := cycles[..i] + cycles[i + 1..];
        return;
      }
      var c := cycles[i];
      var result := c.result.value;
      if answer.LoginNeeded? {
        traffic := false;
        c := c.(authenticationRequired := true, latest := Untraced(result, QueryFailed));
        shown := c.latest;
        Conclude(i, c, now);
        return;
      }
      if answer.Judged? && !answer.normalized.NotFound? {
        var trace := answer.normalized.trace;
        c := c.(latest := if answer.normalized.Available? then Traced(result, trace) else PartlyTraced(result, trace));
        shown := c.latest;
        if AuthenticationRejected(trace) {
          traffic := false;
        }
        if answer.normalized.Available? {
          Conclude(i, c, now);
          return;
        }
      } else if answer.NoEvidence? {
        if !c.latest.PartlyTraced? {
          c := c.(latest := Untraced(result, answer.reason));
          shown := c.latest;
        }
        traffic := false;
        Conclude(i, c, now);
        return;
      }
      if |c.lookups| < MAX_TRACE_LOOKUPS {
        cycles := cycles[i := c.(wait := ForLookup(now))];
      } else {
        Conclude(i, c, now);
      }
    }
  }
}
