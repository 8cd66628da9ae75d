/** The bounded evidence types the dashboard shows. */
module RequestFlow {
  import opened Common
  import opened Text

  const MAX_TRACE_SPANS := 64
  const MAX_POLICY_EVIDENCE := 8
  const MAX_REQUEST_HISTORY := 5
  const MAX_RETRY_AFTER_MS := 300_000
  const MAX_SPAN_DURATION_MS := 300_000

  datatype RangeError = RangeError

  /** Refuses a list longer than its limit instead of cutting it. */
  function Bounded<T>(items: seq<T>, max: nat): Result<seq<T>, RangeError> {
    if |items| > max then Err(RangeError) else Ok(items)
  }

  predicate IsReplicaLead(c: char) {
    IsDigit(c) || 'a' <= c <= 'z' || 'A' <= c <= 'Z'
  }

  /** Labels that may be shown publicly: 1 to 64 characters, led by a letter or a digit. */
  predicate IsPublicReplicaId(s: string) {
    && 1 <= |s| <= 64
    && IsReplicaLead(s[0])
    && forall i :: 1 <= i < |s| ==> IsReplicaLead(s[i]) || s[i] == '.' || s[i] == '_' || s[i] == '-'
  }

  datatype RequestResult =
    | HttpResponse(traceId: string, statusCode: int, retryAfterMs: Option<int>)
    | ResponseBodyFailure(traceId: string, statusCode: int, retryAfterMs: Option<int>)
    | ConnectionFailure(traceId: string)

  datatype PolicyName = RateLimit | CsrfOrigin | Authentication | RouteMatching | ReplicaChoice

  datatype PolicyOutcome = Passed | Rejected | Disabled | Matched | NotMatched | Chosen | NotChosen

  datatype PolicyEvidence = PolicyEvidence(policy: PolicyName, outcome: PolicyOutcome)

  datatype SpanRole = GatewayRequest | GatewayPolicy | GatewayProxy | OrdersService

  /** Duration in milliseconds; None when it is too long to be shown. */
  datatype TraceSpan = TraceSpan(
    spanId: string,
    parentSpanId: Option<string>,
    role: SpanRole,
    policy: Option<PolicyName>,
    durationMs: Option<real>)

  datatype ReplicaSelection = SelectionUnknown | NotSelected | Selected(replicaId: string)

  datatype Delivery = DeliveryUnknown | NotAttempted | Failed | Delivered(replicaId: string)

  datatype TraceEvidence = TraceEvidence(
    traceId: string,
    spans: seq<TraceSpan>,
    policies: seq<PolicyEvidence>,
    replicaSelection: ReplicaSelection,
    delivery: Delivery)
}
