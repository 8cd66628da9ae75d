/** The server function the dashboard polls: one quota check, then one look at the trace backend. */
module TraceQuery {
  import opened Common
  import opened Text
  import opened Json
  import opened RequestFlow
  import opened TraceNormalizer
  import opened GatewayPipeline
  import opened TraceRoundTrip
  import opened JaegerParser
  import opened JaegerEncoding
  import opened TraceRegistry

  datatype QueryError = TraceUnavailable | QueryLimitReached

  datatype Reason = TraceNotFound | LookupTimedOut | QueryFailed

  datatype TraceAnswer =
    | LoginNeeded
    | StillWaiting
    | NoEvidence(reason: Reason)
    | Judged(normalized: Normalized)

  /** What the trace backend may reply: nothing under that identifier, a payload, or a failure. */
  datatype JaegerReply = NoSuchTrace | Payload(payload: Json) | ReplyTimedOut | ReplyFailed

  function NothingYet(number: nat): TraceAnswer {
    if number >= 10 then NoEvidence(TraceNotFound) else StillWaiting
  }

  ghost function Concluded(
    number: nat, reply: JaegerReply, traceId: string, result: RequestResult, num: NumberOf): TraceAnswer
  {
    match reply
    case NoSuchTrace => NothingYet(number)
    case ReplyTimedOut => NoEvidence(LookupTimedOut)
    case ReplyFailed => NoEvidence(QueryFailed)
    case Payload(payload) =>
      match Normalize(payload, traceId, result, num)
      case Err(_) => NoEvidence(QueryFailed)
      case Ok(NotFound) => NothingYet(number)
      case Ok(normalized) => Judged(normalized)
  }

  class TraceHandler {
    const traces: ShowcaseTraces

    constructor (traces: ShowcaseTraces)
      ensures this.traces == traces
    {
      this.traces := traces;
    }

    /** Up to the first wait: the trace must be active, and one query is taken from its quota. */
    method StartLookup(traceId: string, seenAt: int, queriedAt: int) returns (r: Result<nat, QueryError>)
      modifies traces
      ensures var live := Live(old(traces.activeTrace), seenAt);
              if !IsActive(old(traces.activeTrace), traceId, seenAt)
              then r == Err(TraceUnavailable) && traces.activeTrace == live
              else traces.activeTrace == Queried(live, traceId, queriedAt)
                   && r == match Granted(live, traceId, queriedAt)
                           case None => Err(QueryLimitReached)
                           case Some(number) => Ok(number)
    {
      var active := traces.IsActiveShowcaseTrace(traceId, seenAt);
      if !active {
        return Err(TraceUnavailable);
      }
      var number := traces.ConsumeTraceQuery(traceId, queriedAt);
      return if number.None? then Err(QueryLimitReached) else Ok(number.value);
    }

    /** After the user is known. The record may have changed in the meantime; no further query is taken. */
    method FinishLookup(
      traceId: string, number: nat, user: bool, seenAt: int, readAt: int, reply: JaegerReply, num: NumberOf)
      returns (r: Result<TraceAnswer, QueryError>)
      modifies traces
      ensures !user ==> r == Ok(LoginNeeded)
      ensures user && !IsActive(old(traces.activeTrace), traceId, seenAt) ==> r == Err(TraceUnavailable)
      ensures user && IsActive(old(traces.activeTrace), traceId, seenAt) ==>
                match ResultOf(Live(old(traces.activeTrace), seenAt), traceId, readAt)
                case None => r == Ok(StillWaiting)
                case Some(result) => r == Ok(Concluded(number, reply, traceId, result, num))
      ensures traces.activeTrace ==
              if !user then old(traces.activeTrace)
              else if !IsActive(old(traces.activeTrace), traceId, seenAt) then Live(old(traces.activeTrace), seenAt)
              else Live(Live(old(traces.activeTrace), seenAt), readAt)
    {
      if !user {
        return Ok(LoginNeeded);
      }
      var active := traces.IsActiveShowcaseTrace(traceId, seenAt);
      if !active {
        return Err(TraceUnavailable);
      }
      var result := traces.GetShowcaseResult(traceId, readAt);
      if result.None? {
        return Ok(StillWaiting);
      }
      match reply {
        case NoSuchTrace =>
          return Ok(if number >= 10 then NoEvidence(TraceNotFound) else StillWaiting);
        case ReplyTimedOut =>
          return Ok(NoEvidence(LookupTimedOut));
        case ReplyFailed =>
          return Ok(NoEvidence(QueryFailed));
        case Payload(payload) =>
          var normalized := NormalizeJaegerTrace(payload, traceId, result.value, num);
          if normalized.Err? {
            return Ok(NoEvidence(QueryFailed));
          }
          if normalized.value.NotFound? {
            return Ok(if number >= 10 then NoEvidence(TraceNotFound) else StillWaiting);
          }
          return Ok(Judged(normalized.value));
      }
    }
  }

  /** A trace is only given up as not found on the last query of its quota; before that the answer is to wait. */
  lemma {:induction false} GivenUpIff(
    number: nat, reply: JaegerReply, traceId: string, result: RequestResult, num: NumberOf)
    requires number <= 10
    ensures var missing := reply.NoSuchTrace?
                           || (reply.Payload? && Normalize(reply.payload, traceId, result, num) == Ok(NotFound));
            && (Concluded(number, reply, traceId, result, num) == NoEvidence(TraceNotFound) <==>
                missing && number == 10)
            && (Concluded(number, reply, traceId, result, num) == StillWaiting <==>
                missing && number < 10)
  {
    hide Normalize;
  }

  /** Every reply has its own answer: a judged trace, a timeout, or a failure, which a payload that cannot be read is too. */
  lemma {:induction false} AnsweredIff(
    number: nat, reply: JaegerReply, traceId: string, result: RequestResult, num: NumberOf)
    ensures var answer := Concluded(number, reply, traceId, result, num);
            && (answer == NoEvidence(LookupTimedOut) <==> reply.ReplyTimedOut?)
            && (answer == NoEvidence(QueryFailed) <==>
                  reply.ReplyFailed? || (reply.Payload? && Normalize(reply.payload, traceId, result, num).Err?))
            && (forall normalized :: answer == Judged(normalized) <==>
                  && reply.Payload? && Normalize(reply.payload, traceId, result, num) == Ok(normalized)
                  && !normalized.NotFound?)
            && answer != LoginNeeded
  {
    hide Normalize;
  }

  /** A lookup that finds the whole trace of a run answers with what the gateway decided. */
  lemma {:induction false} FullTraceIsAnswered(
    number: nat, payload: Json, ps: seq<Producer>, d: Decisions, rec: Recording,
    traceId: string, result: RequestResult, num: NumberOf)
    requires NonZeroHex(traceId, 32) && result.traceId == Lower(traceId)
    requires PartOf(ps, d, rec) && AllArrived(ps, d, rec)
    requires DistinctStages(rec) && Readable(rec, num)
    requires Carries(payload, ps, traceId)
    requires LabelShown(d) && ResultFits(result, d)
    ensures var answer := Concluded(number, Payload(payload), traceId, result, num);
            && answer.Judged? && !answer.normalized.NotFound?
            && (answer.normalized.Available? <==> Conclusive(d))
            && (forall e :: e in answer.normalized.trace.policies <==> e in DecidedPolicies(d))
            && answer.normalized.trace.replicaSelection == DecidedSelection(d)
            && answer.normalized.trace.delivery == DecidedDelivery(d)
  {
    hide Normalize, PartOf, AllArrived, DistinctStages, Readable, Carries, LabelShown, ResultFits,
      Conclusive, DecidedPolicies, DecidedSelection, DecidedDelivery, NonZeroHex;
    GatewayTraceRoundTrip(payload, ps, d, rec, traceId, result, num);
  }
}