/**
 Rebuilding the gateway's decisions from recognised spans, and judging whether the
 evidence is complete.
 */
module TraceNormalizer {
  import opened Common
  import opened Text
  import opened Json
  import opened RequestFlow
  import opened JaegerParser

  /** JavaScript's reading of a string as a finite number; the model holds for any such reading. */
  type NumberOf = string -> Option<real>

  datatype NormalizeError = InvalidTraceId | ResultMismatch | Malformed(error: JaegerError) | OverLimit

  datatype Normalized =
    | NotFound
    | Partial(trace: TraceEvidence)
    | Available(trace: TraceEvidence)

  function Id(p: Producer): string {
    Lower(p.spanId)
  }

  function ParentId(p: Producer): string {
    Lower(p.parentSpanId)
  }

  function Role(p: Producer): SpanRole {
    RoleOf(p.operation)
  }

  // ---- Looking for spans

  datatype Selector =
    | WithRole(role: SpanRole)
    | Under(role: SpanRole, parent: string)
    | Reporting(check: Check, outcome: Outcome)

  predicate Matches(sel: Selector, p: Producer) {
    match sel
    case WithRole(role) => Role(p) == role
    case Under(role, parent) => Role(p) == role && ParentId(p) == parent
    case Reporting(check, outcome) => p.operation == Policy(check) && p.evidence.outcome == outcome
  }

  function First(ps: seq<Producer>, sel: Selector): Option<Producer> {
    if ps == [] then None
    else if Matches(sel, ps[0]) then Some(ps[0])
    else First(ps[1..], sel)
  }

  function Select(ps: seq<Producer>, sel: Selector): seq<Producer> {
    if ps == [] then []
    else (if Matches(sel, ps[0]) then [ps[0]] else []) + Select(ps[1..], sel)
  }

  predicate Any(ps: seq<Producer>, sel: Selector) {
    exists p :: p in ps && Matches(sel, p)
  }

  /** The policy spans recorded directly under the gateway span. */
  function GatewayPolicies(ps: seq<Producer>, gateway: Option<Producer>): seq<Producer> {
    match gateway
    case None => []
    case Some(g) => Select(ps, Under(GatewayPolicy, Id(g)))
  }

  function ProxyUnder(ps: seq<Producer>, gateway: Option<Producer>): Option<Producer> {
    match gateway
    case None => None
    case Some(g) => First(ps, Under(GatewayProxy, Id(g)))
  }

  // ---- Status code

  function IntegerIn(x: real): Option<int> {
    if x == x.Floor as real then Some(x.Floor) else None
  }

  function StatusValue(value: Option<Json>, num: NumberOf): Option<int> {
    match value
    case Some(JString(s)) => (match num(s) case Some(x) => IntegerIn(x) case None => None)
    case Some(JNumber(x)) => IntegerIn(x)
    case _ => None
  }

  function StatusCode(p: Producer, num: NumberOf): Option<int> {
    StatusValue(if p.evidence.responseStatus.Some? then p.evidence.responseStatus else p.evidence.legacyStatus, num)
  }

  predicate ServerFailed(proxy: Producer, num: NumberOf) {
    StatusCode(proxy, num).Some? && StatusCode(proxy, num).value >= 500
  }

  // ---- Policy evidence

  /** What one span of the rate limiter, the authentication or the route match shows. */
  function Direct(p: Producer): seq<PolicyEvidence> {
    match p.operation
    case Policy(RateLimitCheck) =>
      (match p.evidence.outcome
       case Disabled => [PolicyEvidence(RateLimit, PolicyOutcome.Disabled)]
       case Admitted => [PolicyEvidence(RateLimit, PolicyOutcome.Passed)]
       case Rejected => [PolicyEvidence(RateLimit, PolicyOutcome.Rejected)]
       case _ => [])
    case Policy(AuthenticationCheck) =>
      (match p.evidence.outcome
       case Authenticated => [PolicyEvidence(Authentication, PolicyOutcome.Passed)]
       case Rejected => [PolicyEvidence(Authentication, PolicyOutcome.Rejected)]
       case _ => [])
    case Policy(RouteCheck) =>
      (match p.evidence.outcome
       case Matched => [PolicyEvidence(RouteMatching, PolicyOutcome.Matched)]
       case NotMatched => [PolicyEvidence(RouteMatching, PolicyOutcome.NotMatched)]
       case _ => [])
    case _ => []
  }

  function Directs(pols: seq<Producer>): seq<PolicyEvidence> {
    if pols == [] then [] else Directs(pols[..|pols| - 1]) + Direct(pols[|pols| - 1])
  }

  /** The last of the two given outcomes that a span of `check` recorded. */
  function LastOf(pols: seq<Producer>, check: Check, a: Outcome, b: Outcome): Outcome {
    if pols == [] then Unrecorded
    else
      var last := pols[|pols| - 1];
      if Matches(Reporting(check, a), last) || Matches(Reporting(check, b), last) then last.evidence.outcome
      else LastOf(pols[..|pols| - 1], check, a, b)
  }

  /** Origin and CSRF checks are shown as one policy: rejected by either, passed by both. */
  function CsrfEvidence(origin: Outcome, csrf: Outcome): seq<PolicyEvidence> {
    if origin == Outcome.Rejected || csrf == Outcome.Rejected then [PolicyEvidence(CsrfOrigin, PolicyOutcome.Rejected)]
    else if origin == Outcome.Passed && csrf == Outcome.Passed then [PolicyEvidence(CsrfOrigin, PolicyOutcome.Passed)]
    else []
  }

  function ChoiceEvidence(selection: Outcome): seq<PolicyEvidence> {
    if selection == Outcome.Selected then [PolicyEvidence(ReplicaChoice, Chosen)]
    else if selection == Unavailable then [PolicyEvidence(ReplicaChoice, NotChosen)]
    else []
  }

  function PolicyOutcomesOf(pols: seq<Producer>): seq<PolicyEvidence> {
    Directs(pols)
    + CsrfEvidence(LastOf(pols, OriginCheck, Outcome.Rejected, Outcome.Passed),
                   LastOf(pols, CsrfCheck, Outcome.Rejected, Outcome.Passed))
    + ChoiceEvidence(LastOf(pols, BackendCheck, Outcome.Selected, Unavailable))
  }

  function Recorded(csrf: map<Check, Outcome>, check: Check): Outcome {
    if check in csrf then csrf[check] else Unrecorded
  }

  /** What one more policy span changes. */
  lemma {:induction false} OneMorePolicy(pols: seq<Producer>, i: nat, check: Check, a: Outcome, b: Outcome)
    requires i < |pols|
    ensures LastOf(pols[..i + 1], check, a, b) ==
            if pols[i].operation == Policy(check) && (pols[i].evidence.outcome == a || pols[i].evidence.outcome == b)
            then pols[i].evidence.outcome
            else LastOf(pols[..i], check, a, b)
  {
    var grown := pols[..i + 1];
    LastOfLast(grown, check, a, b);
    hide LastOf, Matches;
    assert grown[..i] == pols[..i];
  }

  lemma {:induction false} LastOfLast(pols: seq<Producer>, check: Check, a: Outcome, b: Outcome)
    requires pols != []
    ensures var last := pols[|pols| - 1];
            LastOf(pols, check, a, b) ==
            if last.operation == Policy(check) && (last.evidence.outcome == a || last.evidence.outcome == b)
            then last.evidence.outcome
            else LastOf(pols[..|pols| - 1], check, a, b)
  {
    hide Role, ParentId;
  }

  lemma {:induction false} OneMoreDirect(pols: seq<Producer>, i: nat)
    requires i < |pols|
    ensures Directs(pols[..i + 1]) == Directs(pols[..i]) + Direct(pols[i])
  {
    hide Direct;
    var grown := pols[..i + 1];
    assert grown[..i] == pols[..i];
  }

  lemma {:induction false} NoPolicies(check: Check, a: Outcome, b: Outcome)
    ensures Directs([]) == [] && LastOf([], check, a, b) == Unrecorded
  {
  }

  method PolicyOutcomes(pols: seq<Producer>) returns (values: seq<PolicyEvidence>)
    ensures values == PolicyOutcomesOf(pols)
  {
    hide Directs, LastOf, Matches;
    NoPolicies(OriginCheck, Outcome.Rejected, Outcome.Passed);
    NoPolicies(CsrfCheck, Outcome.Rejected, Outcome.Passed);
    NoPolicies(BackendCheck, Outcome.Selected, Unavailable);
    assert pols[..0] == [];
    values := [];
    var csrf: map<Check, Outcome> := map[];
    var selection := Unrecorded;
    for i := 0 to |pols|
      invariant values == Directs(pols[..i])
      invariant Recorded(csrf, OriginCheck) == LastOf(pols[..i], OriginCheck, Outcome.Rejected, Outcome.Passed)
      invariant Recorded(csrf, CsrfCheck) == LastOf(pols[..i], CsrfCheck, Outcome.Rejected, Outcome.Passed)
      invariant selection == LastOf(pols[..i], BackendCheck, Outcome.Selected, Unavailable)
    {
      var outcome := pols[i].evidence.outcome;
      OneMoreDirect(pols, i);
      OneMorePolicy(pols, i, OriginCheck, Outcome.Rejected, Outcome.Passed);
      OneMorePolicy(pols, i, CsrfCheck, Outcome.Rejected, Outcome.Passed);
      OneMorePolicy(pols, i, BackendCheck, Outcome.Selected, Unavailable);
      match pols[i].operation {
        case Policy(RateLimitCheck) =>
          if outcome == Outcome.Disabled {
            values := values + [PolicyEvidence(RateLimit, PolicyOutcome.Disabled)];
          } else if outcome == Admitted {
            values := values + [PolicyEvidence(RateLimit, PolicyOutcome.Passed)];
          } else if outcome == Outcome.Rejected {
            values := values + [PolicyEvidence(RateLimit, PolicyOutcome.Rejected)];
          }
        case Policy(AuthenticationCheck) =>
          if outcome == Authenticated {
            values := values + [PolicyEvidence(Authentication, PolicyOutcome.Passed)];
          } else if outcome == Outcome.Rejected {
            values := values + [PolicyEvidence(Authentication, PolicyOutcome.Rejected)];
          }
        case Policy(RouteCheck) =>
          if outcome == Outcome.Matched {
            values := values + [PolicyEvidence(RouteMatching, PolicyOutcome.Matched)];
          } else if outcome == Outcome.NotMatched {
            values := values + [PolicyEvidence(RouteMatching, PolicyOutcome.NotMatched)];
          }
        case Policy(BackendCheck) =>
          if outcome == Outcome.Selected || outcome == Unavailable {
            selection := outcome;
          }
        case Policy(check) =>
          if outcome == Outcome.Passed || outcome == Outcome.Rejected {
            csrf := csrf[check := outcome];
          }
        case _ =>
      }
    }
    assert pols[..|pols|] == pols;
    if Recorded(csrf, OriginCheck) == Outcome.Rejected || Recorded(csrf, CsrfCheck) == Outcome.Rejected {
      values := values + [PolicyEvidence(CsrfOrigin, PolicyOutcome.Rejected)];
    } else if Recorded(csrf, OriginCheck) == Outcome.Passed && Recorded(csrf, CsrfCheck) == Outcome.Passed {
      values := values + [PolicyEvidence(CsrfOrigin, PolicyOutcome.Passed)];
    }
    if selection == Outcome.Selected {
      values := values + [PolicyEvidence(ReplicaChoice, Chosen)];
    } else if selection == Unavailable {
      values := values + [PolicyEvidence(ReplicaChoice, NotChosen)];
    }
  }

  // ---- Selection and delivery

  function SelectionOf(pols: seq<Producer>): ReplicaSelection {
    var span := First(pols, Reporting(BackendCheck, Outcome.Selected));
    if span.Some? && span.value.evidence.replica.Some? && span.value.evidence.replica.value.JString? then
      var name := span.value.evidence.replica.value.text;
      if IsPublicReplicaId(name) then ReplicaSelection.Selected(name) else SelectionUnknown
    else if Any(pols, Reporting(BackendCheck, Unavailable)) then NotSelected
    else SelectionUnknown
  }

  function DeliveryOf(
    pols: seq<Producer>, proxy: Option<Producer>, service: Option<Producer>,
    selection: ReplicaSelection, num: NumberOf): Delivery
  {
    if proxy.Some? && service.Some? then
      if ParentId(service.value) == Id(proxy.value) && selection.Selected? then Delivered(selection.replicaId)
      else DeliveryUnknown
    else if proxy.Some? && ServerFailed(proxy.value, num) then Failed
    else if Any(pols, Reporting(BackendCheck, Unavailable)) || Any(pols, Reporting(BackendCheck, ProxyUnavailable)) then
      NotAttempted
    else DeliveryUnknown
  }

  // ---- Completeness of the evidence

  predicate ParentRecorded(ps: seq<Producer>, p: Producer) {
    || Role(p) == GatewayRequest
    || p.parentSpanId == ""
    || exists q :: q in ps && Id(q) == ParentId(p)
  }

  predicate ParentageComplete(ps: seq<Producer>) {
    forall p :: p in ps ==> ParentRecorded(ps, p)
  }

  predicate CoreRolesUnique(ps: seq<Producer>) {
    && |Select(ps, WithRole(GatewayRequest))| <= 1
    && |Select(ps, WithRole(GatewayProxy))| <= 1
    && |Select(ps, WithRole(OrdersService))| <= 1
  }

  function Operations(ps: seq<Producer>): (ops: seq<Operation>)
    ensures |ops| == |ps|
    ensures forall i :: 0 <= i < |ps| ==> ops[i] == ps[i].operation
  {
    seq(|ps|, i requires 0 <= i < |ps| => ps[i].operation)
  }

  predicate PolicyNamesUnique(pols: seq<Producer>) {
    |Members(Operations(pols))| == |pols|
  }

  predicate IsTerminal(p: Producer) {
    || (p.evidence.outcome == Outcome.Rejected
        && p.operation in [Policy(RateLimitCheck), Policy(OriginCheck), Policy(CsrfCheck), Policy(AuthenticationCheck)])
    || p.evidence.outcome == Outcome.NotMatched
    || p.evidence.outcome == Unavailable
    || p.evidence.outcome == ProxyUnavailable
  }

  predicate SuccessfulPolicies(values: seq<PolicyEvidence>) {
    && (PolicyEvidence(RateLimit, PolicyOutcome.Passed) in values
        || PolicyEvidence(RateLimit, PolicyOutcome.Disabled) in values)
    && PolicyEvidence(CsrfOrigin, PolicyOutcome.Passed) in values
    && PolicyEvidence(Authentication, PolicyOutcome.Passed) in values
    && PolicyEvidence(RouteMatching, PolicyOutcome.Matched) in values
    && PolicyEvidence(ReplicaChoice, Chosen) in values
  }

  predicate StatusesMatch(gateway: Option<Producer>, result: RequestResult, num: NumberOf) {
    && !result.ConnectionFailure?
    && gateway.Some?
    && StatusCode(gateway.value, num) == Some(result.statusCode)
  }

  predicate TrustedParentChain(
    pols: seq<Producer>, gateway: Option<Producer>, proxy: Option<Producer>, service: Option<Producer>)
  {
    && gateway.Some?
    && (forall p :: p in pols ==> ParentId(p) == Id(gateway.value))
    && (proxy.Some? ==> ParentId(proxy.value) == Id(gateway.value))
    && (service.Some? ==> proxy.Some? && ParentId(service.value) == Id(proxy.value))
  }

  predicate IsComplete(ps: seq<Producer>, result: RequestResult, num: NumberOf) {
    var gateway := First(ps, WithRole(GatewayRequest));
    var pols := GatewayPolicies(ps, gateway);
    var proxy := ProxyUnder(ps, gateway);
    var service := First(ps, WithRole(OrdersService));
    var selectedAndDelivered :=
      && proxy.Some? && service.Some?
      && ParentId(service.value) == Id(proxy.value)
      && SelectionOf(pols).Selected?;
    var terminalFailure :=
      (exists p :: p in pols && IsTerminal(p)) && proxy.None? && service.None?;
    var proxyFailed := proxy.Some? && service.None? && ServerFailed(proxy.value, num);
    && ParentageComplete(ps)
    && CoreRolesUnique(ps)
    && PolicyNamesUnique(pols)
    && TrustedParentChain(pols, gateway, proxy, service)
    && StatusesMatch(gateway, result, num)
    && ((selectedAndDelivered && SuccessfulPolicies(PolicyOutcomesOf(pols))) || terminalFailure || proxyFailed)
  }

  // ---- The evidence shown

  function PolicyOf(operation: Operation): Option<PolicyName> {
    match operation
    case Policy(RateLimitCheck) => Some(RateLimit)
    case Policy(OriginCheck) => Some(CsrfOrigin)
    case Policy(CsrfCheck) => Some(CsrfOrigin)
    case Policy(AuthenticationCheck) => Some(Authentication)
    case Policy(RouteCheck) => Some(RouteMatching)
    case Policy(BackendCheck) => Some(ReplicaChoice)
    case _ => None
  }

  function DurationMs(p: Producer): Option<real> {
    var nanos := p.endNs - p.startNs;
    if nanos > MAX_SPAN_DURATION_MS * 1_000_000 then None else Some(nanos as real / 1_000_000.0)
  }

  function ShownSpan(p: Producer): TraceSpan {
    TraceSpan(
      Id(p),
      if Role(p) != GatewayRequest && p.parentSpanId != "" then Some(ParentId(p)) else None,
      Role(p),
      PolicyOf(p.operation),
      DurationMs(p))
  }

  function ShownSpans(ps: seq<Producer>): seq<TraceSpan> {
    seq(|ps|, i requires 0 <= i < |ps| => ShownSpan(ps[i]))
  }

  function EvidenceShown(ps: seq<Producer>, result: RequestResult, num: NumberOf): TraceEvidence {
    var gateway := First(ps, WithRole(GatewayRequest));
    var pols := GatewayPolicies(ps, gateway);
    var selection := SelectionOf(pols);
    TraceEvidence(
      result.traceId,
      ShownSpans(ps),
      PolicyOutcomesOf(pols),
      selection,
      DeliveryOf(pols, ProxyUnder(ps, gateway), First(ps, WithRole(OrdersService)), selection, num))
  }

  /** The verdict on recognised spans; over-long evidence is refused, never cut. */
  function Judge(ps: seq<Producer>, result: RequestResult, num: NumberOf): Result<Normalized, NormalizeError> {
    var shown := EvidenceShown(ps, result, num);
    if Bounded(shown.spans, MAX_TRACE_SPANS).Err? || Bounded(shown.policies, MAX_POLICY_EVIDENCE).Err? then Err(OverLimit)
    else if IsComplete(ps, result, num) then Ok(Available(shown))
    else Ok(Partial(shown))
  }

  ghost function Normalize(payload: Json, traceId: string, result: RequestResult, num: NumberOf):
    Result<Normalized, NormalizeError>
  {
    if !NonZeroHex(traceId, 32) then Err(InvalidTraceId)
    else if result.traceId != Lower(traceId) then Err(ResultMismatch)
    else match Parse(payload, traceId)
      case Err(e) => Err(Malformed(e))
      case Ok(parsed) => if parsed.rawCount == 0 then Ok(NotFound) else Judge(parsed.spans, result, num)
  }

  method NormalizeJaegerTrace(payload: Json, traceId: string, result: RequestResult, num: NumberOf)
    returns (r: Result<Normalized, NormalizeError>)
    ensures r == Normalize(payload, traceId, result, num)
  {
    hide Parse, IsComplete, SelectionOf, DeliveryOf, PolicyOutcomesOf, First, GatewayPolicies, ProxyUnder;
    if !NonZeroHex(traceId, 32) {
      return Err(InvalidTraceId);
    }
    if result.traceId != Lower(traceId) {
      return Err(ResultMismatch);
    }
    var parsed := SpansFromJaeger(payload, traceId);
    if parsed.Err? {
      return Err(Malformed(parsed.error));
    }
    if parsed.value.rawCount == 0 {
      return Ok(NotFound);
    }
    var ps := parsed.value.spans;
    if ps == [] {
      NothingRecognised(result, num);
      return Ok(Partial(TraceEvidence(result.traceId, [], [], SelectionUnknown, DeliveryUnknown)));
    }
    var gateway := First(ps, WithRole(GatewayRequest));
    var pols := GatewayPolicies(ps, gateway);
    var proxy := ProxyUnder(ps, gateway);
    var service := First(ps, WithRole(OrdersService));
    var selection := SelectionOf(pols);
    var delivery := DeliveryOf(pols, proxy, service, selection, num);
    var policies := PolicyOutcomes(pols);
    if |ps| > MAX_TRACE_SPANS || |policies| > MAX_POLICY_EVIDENCE {
      return Err(OverLimit);
    }
    var trace := TraceEvidence(result.traceId, ShownSpans(ps), policies, selection, delivery);
    return Ok(if IsComplete(ps, result, num) then Available(trace) else Partial(trace));
  }

  /** With spans received but none recognised, the verdict is `partial` with everything unknown. */
  lemma {:induction false} NothingRecognised(result: RequestResult, num: NumberOf)
    ensures Judge([], result, num)
         == Ok(Partial(TraceEvidence(result.traceId, [], [], SelectionUnknown, DeliveryUnknown)))
  {
    assert ShownSpans([]) == [];
    assert PolicyOutcomesOf([]) == [];
  }
}
