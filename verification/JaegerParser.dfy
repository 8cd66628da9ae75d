/**
 Reading Jaeger's reply: an unordered bag of spans grouped by resource and scope, from
 which the spans of the gateway and of the orders service are kept.
 */
module JaegerParser {
  import opened Common
  import opened Text
  import opened Json
  import opened RequestFlow
  import opened SpanForest

  const MAX_RAW_SPANS := 256
  const MAX_GROUPS := 32
  const MAX_ATTRIBUTES := 64

  const OUTCOME := "trapigo.policy.outcome"
  const REPLICA := "trapigo.backend.replica"
  const RESPONSE_STATUS := "http.response.status_code"
  const LEGACY_STATUS := "http.status_code"

  const RATE_LIMIT := "gateway.rate_limit"
  const ORIGIN_CHECK := "gateway.origin_check"
  const CSRF_CHECK := "gateway.csrf_check"
  const AUTHENTICATION := "gateway.authentication"
  const ROUTE_MATCH := "gateway.route_match"
  const BACKEND_SELECTION := "gateway.backend_selection"

  const GATEWAY := "trapigo-gateway"
  const ORDERS := "go-order-service"

  datatype JaegerError =
    | InvalidEnvelope
    | MalformedResource
    | MalformedScope
    | TooManyRawSpans
    | InvalidServiceName
    | DuplicateServiceName
    | MalformedSpan
    | InvalidSpanId
    | ForeignTrace
    | DuplicateSpanId
    | InvalidParentId
    | UnexpectedKind
    | InvalidTimestamps
    | MalformedAttributes
    | MalformedAttributeKey
    | MalformedAttribute
    | UnsupportedAttributeValue
    | SpanCycle

  /** The policy checks of the gateway that record a span of their own. */
  datatype Check = RateLimitCheck | OriginCheck | CsrfCheck | AuthenticationCheck | RouteCheck | BackendCheck

  /** The operations recognised, whichever of their names they were recorded under. */
  datatype Operation = GatewayServer | Policy(check: Check) | ProxyCall | OrdersServer

  /** The recorded policy outcomes that are ever told apart. */
  datatype Outcome =
    | Unrecorded
    | Unrecognised
    | Disabled
    | Admitted
    | Rejected
    | Passed
    | Authenticated
    | Matched
    | NotMatched
    | Selected
    | Unavailable
    | ProxyUnavailable

  /** The attributes of a span that count as evidence. */
  datatype Evidence = Evidence(
    outcome: Outcome,
    replica: Option<Json>,
    responseStatus: Option<Json>,
    legacyStatus: Option<Json>)

  /** A recognised span. Identifiers keep the case they were received in. */
  datatype Producer = Producer(
    spanId: string,
    parentSpanId: string,
    operation: Operation,
    evidence: Evidence,
    startNs: nat,
    endNs: nat)

  datatype Parsed = Parsed(spans: seq<Producer>, rawCount: nat)

  datatype ParseState = ParseState(
    output: seq<Producer>,
    ids: seq<string>,
    parents: map<string, string>,
    rawCount: nat)

  const EMPTY := ParseState([], [], map[], 0)

  function CheckOf(name: string): Option<Check> {
    if name == RATE_LIMIT then Some(RateLimitCheck)
    else if name == ORIGIN_CHECK then Some(OriginCheck)
    else if name == CSRF_CHECK then Some(CsrfCheck)
    else if name == AUTHENTICATION then Some(AuthenticationCheck)
    else if name == ROUTE_MATCH then Some(RouteCheck)
    else if name == BACKEND_SELECTION then Some(BackendCheck)
    else None
  }

  function OperationOf(service: string, name: string): Option<Operation> {
    if service == GATEWAY then
      if name == "GET /" || name == "gateway" then Some(GatewayServer)
      else if CheckOf(name).Some? then Some(Policy(CheckOf(name).value))
      else if name == "HTTP GET" then Some(ProxyCall)
      else None
    else if service == ORDERS && (name == "GET /api/v1/go-orders" || name == "orders.request") then Some(OrdersServer)
    else None
  }

  function RoleOf(operation: Operation): SpanRole {
    match operation
    case GatewayServer => GatewayRequest
    case Policy(_) => GatewayPolicy
    case ProxyCall => GatewayProxy
    case OrdersServer => OrdersService
  }

  predicate IsExpectedKind(operation: Operation, kind: Json) {
    match operation
    case Policy(_) => kind == JString("SPAN_KIND_INTERNAL") || kind == JNumber(1.0)
    case ProxyCall => kind == JString("SPAN_KIND_CLIENT") || kind == JNumber(3.0)
    case _ => kind == JString("SPAN_KIND_SERVER") || kind == JNumber(2.0)
  }

  function PositiveNanos(value: Option<Json>): Option<nat> {
    match value
    case Some(JString(s)) =>
      if 1 <= |s| <= 24 && AllDigits(s) && DecimalValue(s) > 0 then Some(DecimalValue(s)) else None
    case _ => None
  }

  // ---- Attributes

  predicate IsEvidenceKey(key: string) {
    key in [OUTCOME, REPLICA, RESPONSE_STATUS, LEGACY_STATUS]
  }

  function Present(typed: Json, field: string): seq<string>
    requires typed.JObject?
  {
    if field in typed.fields then [field] else []
  }

  /** The value of a typed attribute: exactly one supported field holding a scalar. */
  function ScalarValue(typed: Json): Option<Json>
    requires typed.JObject?
  {
    var fields := Present(typed, "stringValue") + Present(typed, "intValue")
                + Present(typed, "boolValue") + Present(typed, "doubleValue");
    if |fields| != 1 then None
    else
      var value := typed.fields[fields[0]];
      if value.JString? || value.JNumber? || value.JBool? then Some(value) else None
  }

  /** One attribute: keys of no interest are skipped without looking at their value. */
  function ScanAttribute(item: Json, found: map<string, Json>): Result<map<string, Json>, JaegerError> {
    match StringField(item, "key")
    case None => Err(MalformedAttributeKey)
    case Some(key) =>
      if key == "" then Err(MalformedAttributeKey)
      else if !IsEvidenceKey(key) then Ok(found)
      else
        var typed := ObjectField(item, "value");
        if typed.None? || key in found then Err(MalformedAttribute)
        else if ScalarValue(typed.value).None? then Err(UnsupportedAttributeValue)
        else Ok(found[key := ScalarValue(typed.value).value])
  }

  function ScanAttributes(items: seq<Json>, found: map<string, Json>): Result<map<string, Json>, JaegerError>
    decreases |items|
  {
    if items == [] then Ok(found)
    else match ScanAttribute(items[0], found)
      case Err(e) => Err(e)
      case Ok(next) => ScanAttributes(items[1..], next)
  }

  function Attributes(value: Json): Result<map<string, Json>, JaegerError> {
    if !value.JArray? || |value.items| > MAX_ATTRIBUTES then Err(MalformedAttributes)
    else ScanAttributes(value.items, map[])
  }

  method SpanAttributes(value: Json) returns (r: Result<map<string, Json>, JaegerError>)
    ensures r == Attributes(value)
  {
    if !value.JArray? || |value.items| > MAX_ATTRIBUTES {
      return Err(MalformedAttributes);
    }
    var items := value.items;
    var attributes: map<string, Json> := map[];
    for i := 0 to |items|
      invariant ScanAttributes(items, map[]) == ScanAttributes(items[i..], attributes)
    {
      assert items[i..][0] == items[i] && items[i..][1..] == items[i + 1..];
      var key := StringField(items[i], "key");
      if key.None? || key.value == "" {
        return Err(MalformedAttributeKey);
      }
      if !IsEvidenceKey(key.value) {
        continue;
      }
      var typed := ObjectField(items[i], "value");
      if typed.None? || key.value in attributes {
        return Err(MalformedAttribute);
      }
      var supported := ScalarValue(typed.value);
      if supported.None? {
        return Err(UnsupportedAttributeValue);
      }
      attributes := attributes[key.value := supported.value];
    }
    return Ok(attributes);
  }

  function OutcomeOf(value: Option<Json>): Outcome {
    match value
    case None => Unrecorded
    case Some(JString(s)) =>
      if s == "disabled" then Outcome.Disabled
      else if s == "admitted" then Admitted
      else if s == "rejected" then Outcome.Rejected
      else if s == "passed" then Outcome.Passed
      else if s == "authenticated" then Authenticated
      else if s == "matched" then Outcome.Matched
      else if s == "not_matched" then Outcome.NotMatched
      else if s == "selected" then Outcome.Selected
      else if s == "unavailable" then Unavailable
      else if s == "proxy_unavailable" then ProxyUnavailable
      else Unrecognised
    case _ => Unrecognised
  }

  function Lookup(attributes: map<string, Json>, key: string): Option<Json> {
    if key in attributes then Some(attributes[key]) else None
  }

  function EvidenceOf(attributes: map<string, Json>): Evidence {
    Evidence(
      OutcomeOf(Lookup(attributes, OUTCOME)),
      Lookup(attributes, REPLICA),
      Lookup(attributes, RESPONSE_STATUS),
      Lookup(attributes, LEGACY_STATUS))
  }

  // ---- Service name of a resource

  function ServiceNameItems(items: seq<Json>): seq<Json> {
    if items == [] then []
    else
      (if StringField(items[0], "key") == Some("service.name") then [items[0]] else [])
      + ServiceNameItems(items[1..])
  }

  function ServiceNameValue(item: Json): Option<string> {
    match Field(item, "value")
    case Some(value) => (match StringField(value, "stringValue") case Some("") => None case other => other)
    case None => None
  }

  /** The service a resource names, if it names exactly one properly. */
  function ServiceName(resource: Option<Json>): Result<Option<string>, JaegerError> {
    match (if resource.Some? then ArrayField(resource.value, "attributes") else None)
    case None => Ok(None)
    case Some(items) =>
      if |items| > MAX_ATTRIBUTES then Ok(None)
      else
        var named := ServiceNameItems(items);
        if named == [] then Ok(None)
        else if ServiceNameValue(named[0]).None? then Err(InvalidServiceName)
        else if |named| > 1 then Err(DuplicateServiceName)
        else Ok(ServiceNameValue(named[0]))
  }

  method ResourceServiceName(resource: Option<Json>) returns (r: Result<Option<string>, JaegerError>)
    ensures r == ServiceName(resource)
  {
    var attributes := if resource.Some? then ArrayField(resource.value, "attributes") else None;
    if attributes.None? || |attributes.value| > MAX_ATTRIBUTES {
      return Ok(None);
    }
    var items := attributes.value;
    var serviceName: Option<string> := None;
    var found := false;
    ghost var first := JNull;
    for i := 0 to |items|
      invariant ServiceNameItems(items) == (if found then [first] else []) + ServiceNameItems(items[i..])
      invariant if found then serviceName == ServiceNameValue(first) && serviceName.Some? else serviceName == None
    {
      assert items[i..][0] == items[i] && items[i..][1..] == items[i + 1..];
      if StringField(items[i], "key") != Some("service.name") {
        continue;
      }
      if found {
        return Err(DuplicateServiceName);
      }
      found, first := true, items[i];
      serviceName := ServiceNameValue(items[i]);
      if serviceName.None? {
        return Err(InvalidServiceName);
      }
    }
    return Ok(serviceName);
  }

  // ---- One span

  /** Identifier and parent of a span that is acceptable on its own. */
  function ReadIds(candidate: Json, traceId: string): Result<(string, string), JaegerError> {
    if !candidate.JObject? then Err(MalformedSpan)
    else
      var id := StringField(candidate, "spanId");
      var trace := StringField(candidate, "traceId");
      if id.None? || !NonZeroHex(id.value, 16) then Err(InvalidSpanId)
      else if trace.None? || trace.value == "" || Lower(trace.value) != Lower(traceId) then Err(ForeignTrace)
      else Ok((id.value, ParentField(candidate)))
  }

  function ParentField(candidate: Json): string {
    match StringField(candidate, "parentSpanId")
    case Some(parent) => parent
    case None => ""
  }

  /** The operation a span records, if it is of interest. */
  function ReadOperation(service: Option<string>, candidate: Json): Option<Operation> {
    var name := StringField(candidate, "name");
    if service.None? || name.None? then None else OperationOf(service.value, name.value)
  }

  /** The producer a span stands for: None for services and operations of no interest. */
  function ReadProducer(service: Option<string>, candidate: Json, id: string, parent: string):
    Result<Option<Producer>, JaegerError>
  {
    match ReadOperation(service, candidate)
    case None => Ok(None)
    case Some(operation) =>
      var kind := Field(candidate, "kind");
      var start := PositiveNanos(Field(candidate, "startTimeUnixNano"));
      var end := PositiveNanos(Field(candidate, "endTimeUnixNano"));
      if kind.None? || !IsExpectedKind(operation, kind.value) then Err(UnexpectedKind)
      else if start.None? || end.None? || end.value < start.value then Err(InvalidTimestamps)
      else match Attributes(AttributesField(candidate))
        case Err(e) => Err(e)
        case Ok(attributes) =>
          Ok(Some(Producer(id, parent, operation, EvidenceOf(attributes), start.value, end.value)))
  }

  /** Missing and null attributes read as an empty list. */
  function AttributesField(candidate: Json): Json {
    match Field(candidate, "attributes")
    case None => JArray([])
    case Some(JNull) => JArray([])
    case Some(value) => value
  }

  function Appended(output: seq<Producer>, producer: Option<Producer>): seq<Producer> {
    if producer.Some? then output + [producer.value] else output
  }

  function ScanSpan(st: ParseState, service: Option<string>, candidate: Json, traceId: string):
    Result<ParseState, JaegerError>
  {
    match ReadIds(candidate, traceId)
    case Err(e) => Err(e)
    case Ok(pair) =>
      var (id, parent) := pair;
      if Lower(id) in st.ids then Err(DuplicateSpanId)
      else if parent != "" && !NonZeroHex(parent, 16) then Err(InvalidParentId)
      else match ReadProducer(service, candidate, id, parent)
        case Err(e) => Err(e)
        case Ok(producer) =>
          Ok(st.(output := Appended(st.output, producer),
                 ids := st.ids + [Lower(id)],
                 parents := st.parents[Lower(id) := Lower(parent)]))
  }

  function ScanSpans(st: ParseState, service: Option<string>, spans: seq<Json>, traceId: string):
    Result<ParseState, JaegerError>
    decreases |spans|
  {
    if spans == [] then Ok(st)
    else match ScanSpan(st, service, spans[0], traceId)
      case Err(e) => Err(e)
      case Ok(next) => ScanSpans(next, service, spans[1..], traceId)
  }

  function ScanScope(st: ParseState, service: Option<string>, scope: Json, traceId: string):
    Result<ParseState, JaegerError>
  {
    match ArrayField(scope, "spans")
    case None => Err(MalformedScope)
    case Some(spans) =>
      if st.rawCount + |spans| > MAX_RAW_SPANS then Err(TooManyRawSpans)
      else ScanSpans(st.(rawCount := st.rawCount + |spans|), service, spans, traceId)
  }

  function ScanScopes(st: ParseState, service: Option<string>, scopes: seq<Json>, traceId: string):
    Result<ParseState, JaegerError>
    decreases |scopes|
  {
    if scopes == [] then Ok(st)
    else match ScanScope(st, service, scopes[0], traceId)
      case Err(e) => Err(e)
      case Ok(next) => ScanScopes(next, service, scopes[1..], traceId)
  }

  function ScanResource(st: ParseState, resource: Json, traceId: string): Result<ParseState, JaegerError> {
    match ServiceName(Field(resource, "resource"))
    case Err(e) => Err(e)
    case Ok(service) =>
      match ArrayField(resource, "scopeSpans")
      case None => Err(MalformedResource)
      case Some(scopes) =>
        if |scopes| > MAX_GROUPS then Err(MalformedResource) else ScanScopes(st, service, scopes, traceId)
  }

  function ScanResources(st: ParseState, resources: seq<Json>, traceId: string): Result<ParseState, JaegerError>
    decreases |resources|
  {
    if resources == [] then Ok(st)
    else match ScanResource(st, resources[0], traceId)
      case Err(e) => Err(e)
      case Ok(next) => ScanResources(next, resources[1..], traceId)
  }

  function ResourceSpans(payload: Json): Option<seq<Json>> {
    match ObjectField(payload, "result")
    case None => None
    case Some(root) => ArrayField(root, "resourceSpans")
  }

  /** What the parser computes: one scan over all spans, then the cycle check. */
  ghost function Parse(payload: Json, traceId: string): Result<Parsed, JaegerError> {
    match ResourceSpans(payload)
    case None => Err(InvalidEnvelope)
    case Some(resources) =>
      if |resources| > MAX_GROUPS then Err(InvalidEnvelope)
      else match ScanResources(EMPTY, resources, traceId)
        case Err(e) => Err(e)
        case Ok(st) => if HasCycle(st.parents) then Err(SpanCycle) else Ok(Parsed(st.output, st.rawCount))
  }

  // ---- The loops

  /** The parents are recorded for exactly the identifiers met. */
  ghost predicate Consistent(st: ParseState) {
    forall id :: id in st.ids <==> id in st.parents
  }

  method ParseSpans(st0: ParseState, service: Option<string>, spans: seq<Json>, traceId: string)
    returns (r: Result<ParseState, JaegerError>)
    requires Consistent(st0)
    ensures r == ScanSpans(st0, service, spans, traceId)
    ensures r.Ok? ==> Consistent(r.value)
  {
    var output, ids, parents := st0.output, st0.ids, st0.parents;
    for i := 0 to |spans|
      invariant Consistent(ParseState(output, ids, parents, st0.rawCount))
      invariant ScanSpans(st0, service, spans, traceId)
             == ScanSpans(ParseState(output, ids, parents, st0.rawCount), service, spans[i..], traceId)
    {
      assert spans[i..][0] == spans[i] && spans[i..][1..] == spans[i + 1..];
      var read := ReadIds(spans[i], traceId);
      if read.Err? {
        return Err(read.error);
      }
      var (id, parent) := read.value;
      if Lower(id) in ids {
        return Err(DuplicateSpanId);
      }
      if parent != "" && !NonZeroHex(parent, 16) {
        return Err(InvalidParentId);
      }
      ids := ids + [Lower(id)];
      parents := parents[Lower(id) := Lower(parent)];
      var producer := ParseProducer(service, spans[i], id, parent);
      if producer.Err? {
        return Err(producer.error);
      }
      output := Appended(output, producer.value);
    }
    return Ok(ParseState(output, ids, parents, st0.rawCount));
  }

  method ParseProducer(service: Option<string>, candidate: Json, id: string, parent: string)
    returns (r: Result<Option<Producer>, JaegerError>)
    ensures r == ReadProducer(service, candidate, id, parent)
  {
    var operation := ReadOperation(service, candidate);
    if operation.None? {
      return Ok(None);
    }
    var kind := Field(candidate, "kind");
    if kind.None? || !IsExpectedKind(operation.value, kind.value) {
      return Err(UnexpectedKind);
    }
    var start := PositiveNanos(Field(candidate, "startTimeUnixNano"));
    var end := PositiveNanos(Field(candidate, "endTimeUnixNano"));
    if start.None? || end.None? || end.value < start.value {
      return Err(InvalidTimestamps);
    }
    var attributes := SpanAttributes(AttributesField(candidate));
    if attributes.Err? {
      return Err(attributes.error);
    }
    return Ok(Some(Producer(id, parent, operation.value, EvidenceOf(attributes.value), start.value, end.value)));
  }

  method ParseScope(st: ParseState, service: Option<string>, scope: Json, traceId: string)
    returns (r: Result<ParseState, JaegerError>)
    requires Consistent(st)
    ensures r == ScanScope(st, service, scope, traceId)
    ensures r.Ok? ==> Consistent(r.value)
  {
    var spans := ArrayField(scope, "spans");
    if spans.None? {
      return Err(MalformedScope);
    }
    var counted := st.(rawCount := st.rawCount + |spans.value|);
    if counted.rawCount > MAX_RAW_SPANS {
      return Err(TooManyRawSpans);
    }
    r := ParseSpans(counted, service, spans.value, traceId);
  }

  method ParseResource(st0: ParseState, resource: Json, traceId: string) returns (r: Result<ParseState, JaegerError>)
    requires Consistent(st0)
    ensures r == ScanResource(st0, resource, traceId)
    ensures r.Ok? ==> Consistent(r.value)
  {
    hide ServiceName, ScanScope;
    var service := ResourceServiceName(Field(resource, "resource"));
    if service.Err? {
      return Err(service.error);
    }
    var scopeSpans := ArrayField(resource, "scopeSpans");
    if scopeSpans.None? || |scopeSpans.value| > MAX_GROUPS {
      return Err(MalformedResource);
    }
    var scopes := scopeSpans.value;
    var st := st0;
    for i := 0 to |scopes|
      invariant Consistent(st)
      invariant ScanScopes(st0, service.value, scopes, traceId) == ScanScopes(st, service.value, scopes[i..], traceId)
    {
      assert scopes[i..][0] == scopes[i] && scopes[i..][1..] == scopes[i + 1..];
      var parsed := ParseScope(st, service.value, scopes[i], traceId);
      if parsed.Err? {
        return parsed;
      }
      st := parsed.value;
    }
    return Ok(st);
  }

  method ParseResources(resources: seq<Json>, traceId: string) returns (r: Result<ParseState, JaegerError>)
    ensures r == ScanResources(EMPTY, resources, traceId)
    ensures r.Ok? ==> Consistent(r.value)
  {
    var st := EMPTY;
    for i := 0 to |resources|
      invariant Consistent(st)
      invariant ScanResources(EMPTY, resources, traceId) == ScanResources(st, resources[i..], traceId)
    {
      assert resources[i..][0] == resources[i] && resources[i..][1..] == resources[i + 1..];
      var parsed := ParseResource(st, resources[i], traceId);
      if parsed.Err? {
        return parsed;
      }
      st := parsed.value;
    }
    return Ok(st);
  }

  method SpansFromJaeger(payload: Json, traceId: string) returns (r: Result<Parsed, JaegerError>)
    ensures r == Parse(payload, traceId)
  {
    var resources := ResourceSpans(payload);
    if resources.None? || |resources.value| > MAX_GROUPS {
      return Err(InvalidEnvelope);
    }
    var scanned := ParseResources(resources.value, traceId);
    if scanned.Err? {
      return Err(scanned.error);
    }
    var st := scanned.value;
    var cycle := WalkFindsCycle(st.ids, st.parents);
    if cycle {
      return Err(SpanCycle);
    }
    return Ok(Parsed(st.output, st.rawCount));
  }
}
