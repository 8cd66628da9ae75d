/** The server's record of the one active showcase trace: its quota, its spacing and its expiry. */
module TraceRegistry {
  import opened Common
  import opened RequestFlow

  const TRACE_TTL_MS := 30 * 60_000
  const MAX_TRACE_QUERIES := 10
  const TRACE_QUERY_INTERVAL_MS := 500

  datatype ActiveTrace = ActiveTrace(
    id: string,
    expiresAt: int,
    queries: nat,
    lastQueryAt: Option<int>,
    result: Option<RequestResult>)

  // ---- What each function does to the record

  function Registered(traceId: string, now: int): ActiveTrace {
    ActiveTrace(traceId, now + TRACE_TTL_MS, 0, None, None)
  }

  /** Every look at the record drops it once it has expired. */
  function Live(a: Option<ActiveTrace>, now: int): Option<ActiveTrace> {
    if a.Some? && a.value.expiresAt <= now then None else a
  }

  predicate IsActive(a: Option<ActiveTrace>, traceId: string, now: int) {
    Live(a, now).Some? && a.value.id == traceId
  }

  function Saved(a: Option<ActiveTrace>, result: RequestResult, now: int): Option<ActiveTrace> {
    if IsActive(a, result.traceId, now) then Some(a.value.(result := Some(result))) else Live(a, now)
  }

  function ResultOf(a: Option<ActiveTrace>, traceId: string, now: int): Option<RequestResult> {
    if IsActive(a, traceId, now) then a.value.result else None
  }

  predicate MayQuery(a: ActiveTrace, now: int) {
    && a.queries < MAX_TRACE_QUERIES
    && (a.lastQueryAt.Some? ==> now - a.lastQueryAt.value >= TRACE_QUERY_INTERVAL_MS)
  }

  /** The number of the query granted, if it is granted. */
  function Granted(a: Option<ActiveTrace>, traceId: string, now: int): Option<nat> {
    if IsActive(a, traceId, now) && MayQuery(a.value, now) then Some(a.value.queries + 1) else None
  }

  function Queried(a: Option<ActiveTrace>, traceId: string, now: int): Option<ActiveTrace> {
    if Granted(a, traceId, now).Some?
    then Some(a.value.(queries := a.value.queries + 1, lastQueryAt := Some(now)))
    else Live(a, now)
  }

  class ShowcaseTraces {
    var activeTrace: Option<ActiveTrace>

    constructor ()
      ensures activeTrace == None
    {
      activeTrace := None;
    }

    method RegisterShowcaseTrace(traceId: string, now: int)
      modifies this
      ensures activeTrace == Some(Registered(traceId, now))
    {
      activeTrace := Some(ActiveTrace(traceId, now + TRACE_TTL_MS, 0, None, None));
    }

    method IsActiveShowcaseTrace(traceId: string, now: int) returns (active: bool)
      modifies this
      ensures active == IsActive(old(activeTrace), traceId, now) && activeTrace == Live(old(activeTrace), now)
    {
      if activeTrace.Some? && activeTrace.value.expiresAt <= now {
        activeTrace := None;
      }
      return activeTrace.Some? && activeTrace.value.id == traceId;
    }

    method SaveShowcaseResult(result: RequestResult, now: int) returns (saved: bool)
      modifies this
      ensures saved == IsActive(old(activeTrace), result.traceId, now)
      ensures activeTrace == Saved(old(activeTrace), result, now)
    {
      var active := IsActiveShowcaseTrace(result.traceId, now);
      if !active || activeTrace.None? {
        return false;
      }
      activeTrace := Some(activeTrace.value.(result := Some(result)));
      return true;
    }

    method GetShowcaseResult(traceId: string, now: int) returns (result: Option<RequestResult>)
      modifies this
      ensures result == ResultOf(old(activeTrace), traceId, now) && activeTrace == Live(old(activeTrace), now)
    {
      var active := IsActiveShowcaseTrace(traceId, now);
      return if active && activeTrace.Some? then activeTrace.value.result else None;
    }

    method ConsumeTraceQuery(traceId: string, now: int) returns (number: Option<nat>)
      modifies this
      ensures number == Granted(old(activeTrace), traceId, now)
      ensures activeTrace == Queried(old(activeTrace), traceId, now)
    {
      var active := IsActiveShowcaseTrace(traceId, now);
      if !active || activeTrace.None? {
        return None;
      }
      if activeTrace.value.queries >= MAX_TRACE_QUERIES
         || (activeTrace.value.lastQueryAt.Some?
             && now - activeTrace.value.lastQueryAt.value < TRACE_QUERY_INTERVAL_MS)
      {
        return None;
      }
      activeTrace := Some(activeTrace.value.(queries := activeTrace.value.queries + 1, lastQueryAt := Some(now)));
      return Some(activeTrace.value.queries);
    }
  }

  // ---- Runs, with any clock readings

  datatype Event =
    | Register(traceId: string, now: int)
    | Look(traceId: string, now: int)
    | Save(result: RequestResult, now: int)
    | Query(traceId: string, now: int)

  function Next(a: Option<ActiveTrace>, e: Event): Option<ActiveTrace> {
    match e
    case Register(traceId, now) => Some(Registered(traceId, now))
    case Look(_, now) => Live(a, now)
    case Save(result, now) => Saved(a, result, now)
    case Query(traceId, now) => Queried(a, traceId, now)
  }

  function RecordBefore(events: seq<Event>, j: nat): Option<ActiveTrace>
    requires j <= |events|
  {
    if j == 0 then None else Next(RecordBefore(events, j - 1), events[j - 1])
  }

  /** The latest registration among the first `j` events. */
  function Registration(events: seq<Event>, j: nat): (r: Option<nat>)
    requires j <= |events|
    ensures r.Some? ==> r.value < j && events[r.value].Register?
  {
    if j == 0 then None else if events[j - 1].Register? then Some(j - 1) else Registration(events, j - 1)
  }

  datatype Grant = Grant(traceId: string, number: nat, at: int)

  /** The queries granted since the latest registration. */
  function Grants(events: seq<Event>, j: nat): seq<Grant>
    requires j <= |events|
  {
    if j == 0 then []
    else match events[j - 1]
      case Register(_, _) => []
      case Query(traceId, now) =>
        var number := Granted(RecordBefore(events, j - 1), traceId, now);
        Grants(events, j - 1) + (if number.Some? then [Grant(traceId, number.value, now)] else [])
      case _ => Grants(events, j - 1)
  }

  /** The result last saved for the trace of the latest registration. */
  function SavedSince(events: seq<Event>, j: nat): Option<RequestResult>
    requires j <= |events|
  {
    if j == 0 then None
    else match events[j - 1]
      case Register(_, _) => None
      case Save(result, _) =>
        var r := Registration(events, j - 1);
        if r.Some? && events[r.value].traceId == result.traceId then Some(result) else SavedSince(events, j - 1)
      case _ => SavedSince(events, j - 1)
  }

  /** Whether no reading since the latest registration has reached its expiry. */
  ghost predicate Unexpired(events: seq<Event>, j: nat)
    requires j <= |events|
  {
    var r := Registration(events, j);
    r.Some? && forall k :: r.value < k < j ==> events[k].now < events[r.value].now + 1_800_000
  }

  /** The record is exactly what the registration, and the grants and saves since then, make it. */
  lemma {:induction false} RecordIsHistory(events: seq<Event>, j: nat)
    requires j <= |events|
    ensures RecordBefore(events, j).Some? <==> Unexpired(events, j)
    ensures Unexpired(events, j) ==>
              var a, r, grants := RecordBefore(events, j).value, events[Registration(events, j).value], Grants(events, j);
              && a.id == r.traceId && a.expiresAt == r.now + 1_800_000 && a.queries == |grants|
              && a.lastQueryAt == (if grants == [] then None else Some(grants[|grants| - 1].at))
              && a.result == SavedSince(events, j)
  {
    if j > 0 {
      RecordIsHistory(events, j - 1);
    }
  }

  /**
   For any clock readings, one registration grants at most ten queries, all for its trace, numbered
   consecutively, at least half a second apart and none once it has expired.
   */
  lemma {:induction false} GrantsAreBounded(events: seq<Event>, j: nat)
    requires j <= |events|
    ensures var grants := Grants(events, j);
            && |grants| <= 10
            && (Registration(events, j).None? ==> grants == [])
            && (forall i :: 0 <= i < |grants| ==>
                  && Registration(events, j).Some?
                  && var r := events[Registration(events, j).value];
                     grants[i].number == i + 1 && grants[i].traceId == r.traceId && grants[i].at < r.now + 1_800_000)
            && (forall i, k :: 0 <= i < k < |grants| ==> grants[k].at - grants[i].at >= 500)
  {
    if j > 0 {
      GrantsAreBounded(events, j - 1);
      RecordIsHistory(events, j - 1);
    }
  }

  /** A query is granted exactly when it is for a registered unexpired trace with quota left, and not too soon. */
  lemma {:induction false} QueryGrantedIff(events: seq<Event>, j: nat)
    requires j < |events| && events[j].Query?
    ensures Granted(RecordBefore(events, j), events[j].traceId, events[j].now).Some? <==>
            && Unexpired(events, j + 1)
            && events[j].traceId == events[Registration(events, j).value].traceId
            && var grants := Grants(events, j);
               |grants| < 10
               && (grants != [] ==> events[j].now - grants[|grants| - 1].at >= 500)
  {
    RecordIsHistory(events, j);
    assert Registration(events, j + 1) == Registration(events, j);
  }

  /** A result is read back exactly when it was the last one saved for the registered trace, which has not expired. */
  lemma {:induction false} ResultReadIff(events: seq<Event>, j: nat, traceId: string, now: int, result: RequestResult)
    requires j <= |events|
    ensures ResultOf(RecordBefore(events, j), traceId, now) == Some(result) <==>
            && Unexpired(events, j) && SavedSince(events, j) == Some(result)
            && var r := events[Registration(events, j).value]; traceId == r.traceId && now < r.now + 1_800_000
    ensures IsActive(RecordBefore(events, j), traceId, now) <==>
            && Unexpired(events, j)
            && var r := events[Registration(events, j).value]; traceId == r.traceId && now < r.now + 1_800_000
  {
    RecordIsHistory(events, j);
  }
}
