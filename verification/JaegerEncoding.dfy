/**
 The JSON a trace arrives in: writing recognised spans the way Jaeger's API returns them and
 parsing them back, and from there the round trip from decisions to verdict over JSON payloads.
 */
module JaegerEncoding {
  import opened Common
  import opened Text
  import opened Json
  import opened RequestFlow
  import opened SpanForest
  import opened JaegerParser
  import opened ParserAcceptance
  import opened TraceNormalizer
  import opened TraceVerdict
  import opened GatewayPipeline
  import opened TraceRoundTrip

  // ---- Attributes

  function Attribute(key: string, field: string, value: Json): Json {
    JObject(map["key" := JString(key), "value" := JObject(map[field := value])])
  }

  function OutcomeText(outcome: Outcome): string {
    match outcome
    case Disabled => "disabled"
    case Admitted => "admitted"
    case Rejected => "rejected"
    case Passed => "passed"
    case Authenticated => "authenticated"
    case Matched => "matched"
    case NotMatched => "not_matched"
    case Selected => "selected"
    case Unavailable => "unavailable"
    case ProxyUnavailable => "proxy_unavailable"
    case _ => ""
  }

  predicate IsScalar(value: Json) {
    value.JString? || value.JNumber? || value.JBool?
  }

  /** Evidence that attributes can carry: a known outcome, scalar values. */
  predicate Writable(e: Evidence) {
    && !e.outcome.Unrecognised?
    && (e.replica.Some? ==> IsScalar(e.replica.value))
    && (e.responseStatus.Some? ==> IsScalar(e.responseStatus.value))
    && (e.legacyStatus.Some? ==> IsScalar(e.legacyStatus.value))
  }

  function WriteOption(key: string, field: string, value: Option<Json>): seq<Json> {
    match value case None => [] case Some(v) => [Attribute(key, field, v)]
  }

  function OutcomeJson(outcome: Outcome): Option<Json> {
    if outcome.Unrecorded? then None else Some(JString(OutcomeText(outcome)))
  }

  function WriteEvidence(e: Evidence): (r: seq<Json>)
    ensures |r| <= 4
  {
    WriteOption(OUTCOME, "stringValue", OutcomeJson(e.outcome))
    + WriteOption(REPLICA, "stringValue", e.replica)
    + WriteOption(RESPONSE_STATUS, "intValue", e.responseStatus)
    + WriteOption(LEGACY_STATUS, "intValue", e.legacyStatus)
  }

  /** Attributes of no interest: named, and not one of the evidence keys. */
  predicate IsNoise(item: Json) {
    && StringField(item, "key").Some?
    && StringField(item, "key").value != ""
    && !IsEvidenceKey(StringField(item, "key").value)
  }

  lemma {:induction false} AttributeScans(key: string, field: string, value: Json, found: map<string, Json>)
    requires IsEvidenceKey(key) && key !in found && IsScalar(value)
    requires field in ["stringValue", "intValue"]
    ensures ScanAttribute(Attribute(key, field, value), found) == Ok(found[key := value])
  {
    hide IsEvidenceKey;
    KeyNotEmpty(key);
    assert "key" != "value";
    assert "stringValue" != "intValue" && "stringValue" != "boolValue" && "stringValue" != "doubleValue";
    assert "intValue" != "boolValue" && "intValue" != "doubleValue";
    var item := Attribute(key, field, value);
    assert StringField(item, "key") == Some(key);
    assert ObjectField(item, "value") == Some(JObject(map[field := value]));
    assert ScalarValue(JObject(map[field := value])) == Some(value);
  }

  lemma {:induction false} KeyNotEmpty(key: string)
    requires IsEvidenceKey(key)
    ensures key != ""
  {
  }

  lemma {:induction false} ScanAppend(a: seq<Json>, b: seq<Json>, found: map<string, Json>)
    ensures ScanAttributes(a + b, found)
         == match ScanAttributes(a, found) case Err(e) => Err(e) case Ok(next) => ScanAttributes(b, next)
    decreases |a|
  {
    hide ScanAttribute;
    if a == [] {
      assert a + b == b;
    } else {
      assert (a + b)[0] == a[0] && (a + b)[1..] == a[1..] + b;
      match ScanAttribute(a[0], found)
      case Err(_) =>
      case Ok(next) => ScanAppend(a[1..], b, next);
    }
  }

  lemma {:induction false} NoiseScans(noise: seq<Json>, found: map<string, Json>)
    requires forall i :: 0 <= i < |noise| ==> IsNoise(noise[i])
    ensures ScanAttributes(noise, found) == Ok(found)
    decreases |noise|
  {
    hide IsEvidenceKey;
    if noise != [] {
      assert ScanAttribute(noise[0], found) == Ok(found);
      NoiseScans(noise[1..], found);
    }
  }

  function Put(found: map<string, Json>, key: string, value: Option<Json>): map<string, Json> {
    if value.Some? then found[key := value.value] else found
  }

  lemma {:induction false} OptionScans(key: string, field: string, value: Option<Json>, found: map<string, Json>)
    requires IsEvidenceKey(key) && key !in found && (value.Some? ==> IsScalar(value.value))
    requires field in ["stringValue", "intValue"]
    ensures ScanAttributes(WriteOption(key, field, value), found) == Ok(Put(found, key, value))
  {
    hide IsEvidenceKey, ScanAttribute;
    if value.Some? {
      AttributeScans(key, field, value.value, found);
      var items := WriteOption(key, field, value);
      assert items[1..] == [];
    }
  }

  lemma {:induction false} KeysDiffer()
    ensures OUTCOME != REPLICA && OUTCOME != RESPONSE_STATUS && OUTCOME != LEGACY_STATUS
    ensures REPLICA != RESPONSE_STATUS && REPLICA != LEGACY_STATUS && RESPONSE_STATUS != LEGACY_STATUS
    ensures IsEvidenceKey(OUTCOME) && IsEvidenceKey(REPLICA) && IsEvidenceKey(RESPONSE_STATUS) && IsEvidenceKey(LEGACY_STATUS)
  {
  }

  lemma {:induction false} OutcomeReadsBack(outcome: Outcome)
    requires !outcome.Unrecognised?
    ensures OutcomeOf(OutcomeJson(outcome)) == outcome
  {
    assert |"disabled"| == 8 && |"admitted"| == 8 && |"rejected"| == 8 && |"passed"| == 6 && |"authenticated"| == 13
        && |"matched"| == 7 && |"not_matched"| == 11 && |"selected"| == 8 && |"unavailable"| == 11
        && |"proxy_unavailable"| == 17;
    assert "admitted"[0] == 'a' && "rejected"[0] == 'r' && "selected"[0] == 's' && "not_matched"[0] == 'n';
  }

  /** Evidence written among attributes of no interest is read back unchanged. */
  lemma {:induction false} EvidenceReadsBack(e: Evidence, noise: seq<Json>)
    requires Writable(e) && |noise| <= MAX_ATTRIBUTES - 4
    requires forall i :: 0 <= i < |noise| ==> IsNoise(noise[i])
    ensures Attributes(JArray(WriteEvidence(e) + noise)).Ok?
    ensures EvidenceOf(Attributes(JArray(WriteEvidence(e) + noise)).value) == e
  {
    hide IsEvidenceKey, ScanAttribute, ScanAttributes, WriteOption, OutcomeOf, OutcomeText, IsNoise;
    KeysDiffer();
    OutcomeReadsBack(e.outcome);
    var o, r := WriteOption(OUTCOME, "stringValue", OutcomeJson(e.outcome)), WriteOption(REPLICA, "stringValue", e.replica);
    var s, l := WriteOption(RESPONSE_STATUS, "intValue", e.responseStatus), WriteOption(LEGACY_STATUS, "intValue", e.legacyStatus);
    var m1 := Put(map[], OUTCOME, OutcomeJson(e.outcome));
    var m2 := Put(m1, REPLICA, e.replica);
    var m3 := Put(m2, RESPONSE_STATUS, e.responseStatus);
    var m4 := Put(m3, LEGACY_STATUS, e.legacyStatus);
    OptionScans(OUTCOME, "stringValue", OutcomeJson(e.outcome), map[]);
    OptionScans(REPLICA, "stringValue", e.replica, m1);
    OptionScans(RESPONSE_STATUS, "intValue", e.responseStatus, m2);
    OptionScans(LEGACY_STATUS, "intValue", e.legacyStatus, m3);
    NoiseScans(noise, m4);
    ScanAppend(o, r, map[]);
    ScanAppend(o + r, s, map[]);
    ScanAppend(o + r + s, l, map[]);
    ScanAppend(o + r + s + l, noise, map[]);
  }

  // ---- One span

  function ServiceOf(operation: Operation): string {
    if operation.OrdersServer? then ORDERS else GATEWAY
  }

  function NameOf(operation: Operation): string {
    match operation
    case GatewayServer => "GET /"
    case Policy(RateLimitCheck) => RATE_LIMIT
    case Policy(OriginCheck) => ORIGIN_CHECK
    case Policy(CsrfCheck) => CSRF_CHECK
    case Policy(AuthenticationCheck) => AUTHENTICATION
    case Policy(RouteCheck) => ROUTE_MATCH
    case Policy(BackendCheck) => BACKEND_SELECTION
    case ProxyCall => "HTTP GET"
    case OrdersServer => "GET /api/v1/go-orders"
  }

  function KindOf(operation: Operation): Json {
    match operation
    case Policy(_) => JString("SPAN_KIND_INTERNAL")
    case ProxyCall => JString("SPAN_KIND_CLIENT")
    case _ => JString("SPAN_KIND_SERVER")
  }

  /** What writing a span leaves open: its name, its kind, and attributes of no interest. */
  datatype Style = Style(name: string, kind: Json, noise: seq<Json>)

  /** The name and the kind are among those recognised for the operation. */
  predicate Suits(style: Style, operation: Operation) {
    && OperationOf(ServiceOf(operation), style.name) == Some(operation)
    && IsExpectedKind(operation, style.kind)
    && NoiseFits(style.noise)
  }

  function PlainStyle(operation: Operation, noise: seq<Json>): Style {
    Style(NameOf(operation), KindOf(operation), noise)
  }

  lemma {:induction false} PlainStyleSuits(operation: Operation, noise: seq<Json>)
    requires NoiseFits(noise)
    ensures Suits(PlainStyle(operation, noise), operation)
  {
    hide IsNoise;
  }

  /** A span as Jaeger lists it, with attributes of no interest besides the evidence. */
  function WriteSpan(p: Producer, traceId: string, style: Style): Json {
    JObject(map[
      "traceId" := JString(traceId),
      "spanId" := JString(p.spanId),
      "parentSpanId" := JString(p.parentSpanId),
      "name" := JString(style.name),
      "kind" := style.kind,
      "startTimeUnixNano" := JString(Decimal(p.startNs)),
      "endTimeUnixNano" := JString(Decimal(p.endNs)),
      "attributes" := JArray(WriteEvidence(p.evidence) + style.noise)])
  }

  predicate IsTime(n: nat) {
    0 < n < Pow10(24)
  }

  /** A span the wire format can carry. */
  predicate Recordable(p: Producer) {
    && NonZeroHex(p.spanId, 16)
    && (p.parentSpanId == "" || NonZeroHex(p.parentSpanId, 16))
    && IsTime(p.startNs) && IsTime(p.endNs) && p.startNs <= p.endNs
    && Writable(p.evidence)
  }

  predicate NoiseFits(noise: seq<Json>) {
    |noise| <= MAX_ATTRIBUTES - 4 && forall i :: 0 <= i < |noise| ==> IsNoise(noise[i])
  }

  lemma {:induction false} TimeReadsBack(n: nat)
    requires IsTime(n)
    ensures PositiveNanos(Some(JString(Decimal(n)))) == Some(n)
  {
    DecimalReadsBack(n);
    DecimalLength(n, 24);
  }

  lemma {:induction false} FieldsOf(p: Producer, traceId: string, style: Style)
    ensures var j := WriteSpan(p, traceId, style);
            && j.JObject?
            && StringField(j, "traceId") == Some(traceId)
            && StringField(j, "spanId") == Some(p.spanId)
            && StringField(j, "parentSpanId") == Some(p.parentSpanId)
            && StringField(j, "name") == Some(style.name)
            && Field(j, "kind") == Some(style.kind)
            && Field(j, "startTimeUnixNano") == Some(JString(Decimal(p.startNs)))
            && Field(j, "endTimeUnixNano") == Some(JString(Decimal(p.endNs)))
            && Field(j, "attributes") == Some(JArray(WriteEvidence(p.evidence) + style.noise))
  {
    hide WriteEvidence, Decimal;
    assert |"traceId"| == 7 && |"spanId"| == 6 && |"parentSpanId"| == 12 && |"name"| == 4 && |"kind"| == 4
        && |"startTimeUnixNano"| == 17 && |"endTimeUnixNano"| == 15 && |"attributes"| == 10;
    assert "name"[0] != "kind"[0];
  }

  /** Writing a span, in any accepted spelling, and reading it gives the span back. */
  lemma {:induction false} SpanReadsBack(p: Producer, traceId: string, style: Style)
    requires Recordable(p) && Suits(style, p.operation) && NonZeroHex(traceId, 32)
    ensures RowOf(Entry(Some(ServiceOf(p.operation)), WriteSpan(p, traceId, style)), traceId) == RowFor(p)
  {
    hide WriteSpan, WriteEvidence, Attributes, EvidenceOf, NameOf, KindOf, ServiceOf, OperationOf, IsExpectedKind, PositiveNanos,
         Decimal, NonZeroHex;
    FieldsOf(p, traceId, style);
    TimeReadsBack(p.startNs);
    TimeReadsBack(p.endNs);
    EvidenceReadsBack(p.evidence, style.noise);
    assert traceId != "" by { HexNotEmpty(traceId); }
    var e := Entry(Some(ServiceOf(p.operation)), WriteSpan(p, traceId, style));
    assert ReadIds(e.span, traceId) == Ok((p.spanId, p.parentSpanId));
    assert ReadProducer(e.service, e.span, p.spanId, p.parentSpanId) == Ok(Some(p));
  }

  /** What a listing of `p` reads as. */
  function RowFor(p: Producer): Row {
    Row(Id(p), ParentId(p), Some(p), true)
  }

  lemma {:induction false} HexNotEmpty(s: string)
    requires NonZeroHex(s, 32)
    ensures s != ""
  {
  }

  // ---- A whole payload

  /** The bag of spans a payload lists when it carries exactly `ps`, each with its own style. */
  function WriteEntries(ps: seq<Producer>, traceId: string, style: Producer -> Style): (es: seq<Entry>)
    ensures |es| == |ps|
  {
    seq(|ps|, i requires 0 <= i < |ps| => Entry(Some(ServiceOf(ps[i].operation)), WriteSpan(ps[i], traceId, style(ps[i]))))
  }

  ghost predicate AllRecordable(ps: seq<Producer>, style: Producer -> Style) {
    forall p :: p in ps ==> Recordable(p) && Suits(style(p), p.operation)
  }

  /** The rows of a payload that carries `ps`, in whatever order: one per span, as the span is. */
  lemma {:induction false} CarriedRows(
    es: seq<Entry>, ps: seq<Producer>, traceId: string, style: Producer -> Style, row: Row)
    requires AllRecordable(ps, style) && NonZeroHex(traceId, 32)
    requires multiset(es) == multiset(WriteEntries(ps, traceId, style))
    ensures row in Rows(es, traceId) <==> exists p :: p in ps && row == RowFor(p)
  {
    hide RowOf, WriteSpan, Recordable, Suits, NonZeroHex, Id, ParentId;
    var written := WriteEntries(ps, traceId, style);
    SameBagRows(es, written, traceId);
    RowsMembers(written, traceId, row);
    if p :| p in ps && row == RowFor(p) {
      var i :| 0 <= i < |ps| && ps[i] == p;
      SpanReadsBack(p, traceId, style(p));
      assert RowOf(written[i], traceId) == row;
    }
    if i :| 0 <= i < |written| && RowOf(written[i], traceId) == row {
      SpanReadsBack(ps[i], traceId, style(ps[i]));
      assert ps[i] in ps;
    }
  }

  lemma {:induction false} CarriedCount(
    es: seq<Entry>, ps: seq<Producer>, traceId: string, style: Producer -> Style)
    requires multiset(es) == multiset(WriteEntries(ps, traceId, style))
    ensures |es| == |ps|
  {
    assert |multiset(es)| == |es| && |multiset(WriteEntries(ps, traceId, style))| == |ps|;
  }

  /** Following parents within `ps` terminates. */
  ghost predicate Layered(ps: seq<Producer>, rank: Producer -> nat) {
    forall p, q :: p in ps && q in ps && ParentId(p) != "" && ParentId(p) == Id(q) ==> rank(q) < rank(p)
  }

  lemma {:induction false} CarriedIds(es: seq<Entry>, ps: seq<Producer>, traceId: string, style: Producer -> Style)
    requires AllRecordable(ps, style) && NonZeroHex(traceId, 32) && DistinctIds(ps)
    requires multiset(es) == multiset(WriteEntries(ps, traceId, style))
    ensures Clean(Rows(es, traceId))
  {
    hide RowOf, WriteSpan, Recordable, Suits, NonZeroHex;
    var rows := Rows(es, traceId);
    var ids := seq(|ps|, i requires 0 <= i < |ps| => Id(ps[i]));
    CarriedCount(es, ps, traceId, style);
    assert NoRepeats(ids);
    forall id
      ensures id in ids <==> id in Ids(rows)
    {
      IdsMembers(rows, id);
      if row :| row in rows && row.id == id {
        CarriedRows(es, ps, traceId, style, row);
        var p :| p in ps && row == RowFor(p);
        var i :| 0 <= i < |ps| && ps[i] == p;
        assert ids[i] == id;
      }
      if i :| 0 <= i < |ids| && ids[i] == id {
        CarriedRows(es, ps, traceId, style, RowFor(ps[i]));
      }
    }
    NoRepeatsRearranged(ids, Ids(rows));
    forall i | 0 <= i < |rows|
      ensures rows[i].sound
    {
      CarriedRows(es, ps, traceId, style, rows[i]);
    }
  }

  lemma {:induction false} CarriedAcyclic(
    es: seq<Entry>, ps: seq<Producer>, traceId: string, style: Producer -> Style, rank: Producer -> nat)
    requires AllRecordable(ps, style) && NonZeroHex(traceId, 32) && DistinctIds(ps) && Layered(ps, rank)
    requires multiset(es) == multiset(WriteEntries(ps, traceId, style))
    ensures !HasCycle(ParentMap(Rows(es, traceId)))
  {
    hide RowOf, WriteSpan, Recordable, Suits, NonZeroHex, Id, ParentId, Rows, ParentMap, WriteEntries, Layered, Ranks;
    var parents := ParentMap(Rows(es, traceId));
    var owner := map id | id in parents :: Owner(es, ps, traceId, style, id);
    OwnersRank(parents, ps, owner, rank);
    AcyclicIffRanked(parents);
  }

  lemma {:induction false} OwnersRank(
    parents: Parents, ps: seq<Producer>, owner: map<string, Producer>, rank: Producer -> nat)
    requires Layered(ps, rank) && owner.Keys == parents.Keys
    requires forall id :: id in parents ==>
               owner[id] in ps && Id(owner[id]) == id && ParentId(owner[id]) == parents[id]
    ensures Ranks(parents, map id | id in parents :: rank(owner[id]))
  {
    hide Id, ParentId;
  }

  /** The span an identifier in the parent map belongs to. */
  ghost function Owner(
    es: seq<Entry>, ps: seq<Producer>, traceId: string, style: Producer -> Style, id: string): (p: Producer)
    requires AllRecordable(ps, style) && NonZeroHex(traceId, 32) && DistinctIds(ps)
    requires multiset(es) == multiset(WriteEntries(ps, traceId, style))
    requires id in ParentMap(Rows(es, traceId))
    ensures p in ps && Id(p) == id && ParentMap(Rows(es, traceId))[id] == ParentId(p)
  {
    CarriedIds(es, ps, traceId, style);
    ParentMapEntries(Rows(es, traceId));
    var row :| row in Rows(es, traceId) && row.id == id;
    CarriedRows(es, ps, traceId, style, row);
    var p :| p in ps && row == RowFor(p);
    p
  }

  /**
   `payload` carries the spans `ps`: those are what its entries read as, in whatever order, grouping and
   spelling. Entries that are of no interest may stand among them.
   */
  ghost predicate Carries(payload: Json, ps: seq<Producer>, traceId: string) {
    var rows := Rows(Entries(payload), traceId);
    && EnvelopeFormed(payload) && |rows| <= MAX_RAW_SPANS
    && Clean(rows) && !HasCycle(ParentMap(rows))
    && (forall row :: row in rows && row.producer.Some? ==> row.producer.value in ps)
    && (forall p :: p in ps ==> exists row :: row in rows && row.producer == Some(p))
  }

  /** A payload parses to `ps`, in some order, exactly when it carries them. */
  lemma {:induction false} CarriedParses(payload: Json, ps: seq<Producer>, traceId: string)
    requires DistinctIds(ps)
    ensures Carries(payload, ps, traceId) <==>
              Parse(payload, traceId).Ok? && SameSpans(ps, Parse(payload, traceId).value.spans)
    ensures Carries(payload, ps, traceId) && ps != [] ==> Parse(payload, traceId).value.rawCount > 0
  {
    hide RowOf, Parse, EnvelopeFormed, Entries, DistinctIds, Rows, NoRepeats, Ids, AllSound, HasCycle, ParentMap;
    var rows := Rows(Entries(payload), traceId);
    ParseIff(payload, traceId);
    if Parse(payload, traceId).Ok? {
      ParsedDistinct(payload, traceId);
      forall p
        ensures p in Producers(rows) <==> exists row :: row in rows && row.producer == Some(p)
      {
        ProducersMembers(rows, p);
      }
      assert ps != [] ==> ps[0] in ps;
    }
  }

  /** Listing spans, each in a spelling of its own, makes a payload that carries them. */
  lemma {:induction false} WrittenIsCarried(
    payload: Json, ps: seq<Producer>, traceId: string, style: Producer -> Style, rank: Producer -> nat)
    requires EnvelopeFormed(payload) && NonZeroHex(traceId, 32) && |ps| <= MAX_RAW_SPANS
    requires AllRecordable(ps, style) && DistinctIds(ps) && Layered(ps, rank)
    requires multiset(Entries(payload)) == multiset(WriteEntries(ps, traceId, style))
    ensures Carries(payload, ps, traceId)
  {
    hide RowOf, WriteSpan, Recordable, Suits, NonZeroHex, EnvelopeFormed, Id, ParentId, Entries, HasCycle, Clean, ParentMap,
         DistinctIds, Rows, AllRecordable;
    var es := Entries(payload);
    var rows := Rows(es, traceId);
    CarriedIds(es, ps, traceId, style);
    CarriedAcyclic(es, ps, traceId, style, rank);
    CarriedCount(es, ps, traceId, style);
    forall p | p in ps
      ensures exists row :: row in rows && row.producer == Some(p)
    {
      CarriedRows(es, ps, traceId, style, RowFor(p));
    }
    forall row | row in rows && row.producer.Some?
      ensures row.producer.value in ps
    {
      CarriedRows(es, ps, traceId, style, row);
    }
  }

  // ---- An envelope

  function WriteResource(service: string, spans: seq<Json>): Json {
    JObject(map[
      "resource" := JObject(map["attributes" := JArray([Attribute("service.name", "stringValue", JString(service))])]),
      "scopeSpans" := JArray([JObject(map["spans" := JArray(spans)])])])
  }

  /** A payload listing each span under a resource of its own. */
  function WritePayload(es: seq<Entry>): Json {
    JObject(map["result" := JObject(map["resourceSpans" := JArray(WriteResources(es))])])
  }

  function WriteResources(es: seq<Entry>): (rs: seq<Json>)
    ensures |rs| == |es|
  {
    seq(|es|, i requires 0 <= i < |es| =>
      WriteResource(if es[i].service.Some? then es[i].service.value else "", [es[i].span]))
  }

  lemma {:induction false} ResourceReadsBack(service: string, span: Json)
    requires service != ""
    ensures ResourceFormed(WriteResource(service, [span]))
    ensures OneResource(WriteResource(service, [span])) == [Entry(Some(service), span)]
  {
    var r := WriteResource(service, [span]);
    assert "resource" != "scopeSpans" && "key" != "value";
    var item := Attribute("service.name", "stringValue", JString(service));
    assert StringField(item, "key") == Some("service.name");
    assert [item][1..] == [];
    assert ServiceNameItems([item]) == [item];
    assert ServiceName(Field(r, "resource")) == Ok(Some(service));
    var scope := JObject(map["spans" := JArray([span])]);
    assert ArrayField(r, "scopeSpans") == Some([scope]);
    assert ArrayField(scope, "spans") == Some([span]);
    assert [scope][1..] == [];
    assert ScopeEntries(Some(service), [scope]) == SpanEntries(Some(service), [span]);
  }

  lemma {:induction false} ResourcesReadBack(es: seq<Entry>)
    requires forall e :: e in es ==> e.service.Some? && e.service.value != ""
    ensures ResourceEntries(WriteResources(es)) == es
    ensures ResourcesFormed(WriteResources(es))
  {
    hide WriteResource, ResourceFormed, OneResource;
    if es != [] {
      var rs := WriteResources(es);
      ResourceReadsBack(es[0].service.value, es[0].span);
      assert rs[1..] == WriteResources(es[1..]);
      assert forall e :: e in es[1..] ==> e in es;
      ResourcesReadBack(es[1..]);
      assert rs == [rs[0]] + rs[1..];
      assert es == [es[0]] + es[1..];
    }
  }

  /** Every bag of at most 32 spans has a payload that carries it. */
  lemma {:induction false} PayloadReadsBack(es: seq<Entry>)
    requires |es| <= MAX_GROUPS && forall e :: e in es ==> e.service.Some? && e.service.value != ""
    ensures EnvelopeFormed(WritePayload(es)) && Entries(WritePayload(es)) == es
  {
    hide WriteResources, ResourceFormed;
    ResourcesReadBack(es);
    var payload := WritePayload(es);
    assert ResourceSpans(payload) == Some(WriteResources(es));
  }

  // ---- The round trip over payloads

  function StageRank(p: Producer): nat {
    match p.operation
    case GatewayServer => 0
    case OrdersServer => 2
    case _ => 1
  }

  /** The gateway's remote parent is the client's correlation identifier, not one of the run's spans. */
  ghost predicate RemoteParentForeign(rec: Recording) {
    forall stage: Stage :: Lower(rec.ids(stage)) != Lower(rec.remoteParent)
  }

  /** A stage's span is parented by the span of a stage ranked below it, or by no span of the run. */
  lemma {:induction false} StageIsLayered(d: Decisions, rec: Recording, a: Stage, b: Stage)
    requires DistinctStages(rec) && RemoteParentForeign(rec)
    requires ParentId(SpanOf(d, rec, a)) == Id(SpanOf(d, rec, b))
    ensures StageRank(SpanOf(d, rec, b)) < StageRank(SpanOf(d, rec, a))
  {
    SpanFacts(d, rec, a);
    SpanFacts(d, rec, b);
    GatewayParent(d, rec);
    SpanFacts(d, rec, if a.ServiceStage? then ProxyStage else GatewayStage);
    hide SpanOf;
    assert Lower(rec.ids(b)) != Lower(rec.remoteParent);
    assert b == if a.ServiceStage? then ProxyStage else GatewayStage;
  }

  lemma {:induction false} GatewayParent(d: Decisions, rec: Recording)
    ensures ParentId(SpanOf(d, rec, GatewayStage)) == Lower(rec.remoteParent)
  {
  }

  lemma {:induction false} RunIsLayered(ps: seq<Producer>, d: Decisions, rec: Recording)
    requires PartOf(ps, d, rec) && DistinctStages(rec) && RemoteParentForeign(rec)
    ensures Layered(ps, StageRank)
  {
    hide Reaches, SpanOf, StageRank, Id, ParentId;
    forall p, q | p in ps && q in ps && ParentId(p) != "" && ParentId(p) == Id(q)
      ensures StageRank(q) < StageRank(p)
    {
      var a :| Reaches(d, a) && p == SpanOf(d, rec, a);
      var b :| Reaches(d, b) && q == SpanOf(d, rec, b);
      StageIsLayered(d, rec, a, b);
    }
  }

  /** A payload carrying part of a run is judged on spans that are that part of the run. */
  lemma {:induction false} CarriedRunIsJudged(
    payload: Json, ps: seq<Producer>, d: Decisions, rec: Recording,
    traceId: string, result: RequestResult, num: NumberOf)
    returns (qs: seq<Producer>)
    requires NonZeroHex(traceId, 32) && result.traceId == Lower(traceId)
    requires PartOf(ps, d, rec) && ps != []
    requires Carries(payload, ps, traceId)
    ensures PartOf(qs, d, rec) && Arrived(qs, d, rec) == Arrived(ps, d, rec) && forall p :: p in qs <==> p in ps
    ensures Normalize(payload, traceId, result, num) == Judge(qs, result, num)
  {
    hide Judge, Parse, Carries, Reaches, SpanOf;
    CarriedParses(payload, ps, traceId);
    qs := Parse(payload, traceId).value.spans;
  }

  /**
   Over JSON payloads: the full trace of any run, in any order, grouping and spelling and among spans and
   attributes of no interest, normalizes to exactly the gateway's decisions, complete exactly when they leave nothing open.
   */
  lemma {:induction false} GatewayTraceRoundTrip(
    payload: Json, ps: seq<Producer>, d: Decisions, rec: Recording,
    traceId: string, result: RequestResult, num: NumberOf)
    requires NonZeroHex(traceId, 32) && result.traceId == Lower(traceId)
    requires PartOf(ps, d, rec) && AllArrived(ps, d, rec)
    requires DistinctStages(rec) && Readable(rec, num)
    requires Carries(payload, ps, traceId)
    requires LabelShown(d) && ResultFits(result, d)
    ensures Normalize(payload, traceId, result, num).Ok?
    ensures var normalized := Normalize(payload, traceId, result, num).value;
            && (normalized.Available? <==> Conclusive(d))
            && (normalized.Partial? <==> !Conclusive(d))
            && (forall e :: e in normalized.trace.policies <==> e in DecidedPolicies(d))
            && normalized.trace.replicaSelection == DecidedSelection(d)
            && normalized.trace.delivery == DecidedDelivery(d)
  {
    hide Judge, Parse, SpanOf, EvidenceShown, Carries, Normalize, DecidedPolicies;
    assert SpanOf(d, rec, GatewayStage) in ps by {
      assert GatewayStage in Arrived(ps, d, rec);
    }
    var qs := CarriedRunIsJudged(payload, ps, d, rec, traceId, result, num);
    FullTraceRoundTrip(qs, d, rec, result, num);
  }

  /** Over JSON payloads: one that carries fewer spans of a run never contradicts one that carries more of them. */
  lemma {:induction false} PartialPayloadAgrees(
    p: Json, q: Json, ps: seq<Producer>, qs: seq<Producer>, d: Decisions, rec: Recording,
    traceId: string, result: RequestResult, num: NumberOf)
    requires NonZeroHex(traceId, 32) && result.traceId == Lower(traceId)
    requires PartOf(ps, d, rec) && PartOf(qs, d, rec) && Readable(rec, num)
    requires ps != [] && forall x :: x in ps ==> x in qs
    requires Carries(p, ps, traceId) && Carries(q, qs, traceId)
    ensures var a, b := Normalize(p, traceId, result, num), Normalize(q, traceId, result, num);
            && a.Ok? && b.Ok? && !a.value.NotFound? && !b.value.NotFound?
            && (forall e :: e in a.value.trace.policies ==> e in b.value.trace.policies)
            && (a.value.trace.replicaSelection == SelectionUnknown
                || a.value.trace.replicaSelection == b.value.trace.replicaSelection)
            && (a.value.trace.delivery.Delivered? ==> a.value.trace.delivery == b.value.trace.delivery)
  {
    hide Judge, SpanOf, EvidenceShown, Carries, Normalize, PartOf, Readable, ConclusiveRebuilt, Arrived;
    assert ps[0] in qs;
    var us := CarriedRunIsJudged(p, ps, d, rec, traceId, result, num);
    var vs := CarriedRunIsJudged(q, qs, d, rec, traceId, result, num);
    PartJudged(us, d, rec, result, num);
    PartJudged(vs, d, rec, result, num);
    PartialExportAgrees(us, vs, d, rec, result, num);
  }

  /** Over JSON payloads: an available verdict outlasts the arrival of further spans of the run. */
  lemma {:induction false} AvailablePayloadIsStable(
    p: Json, q: Json, ps: seq<Producer>, qs: seq<Producer>, d: Decisions, rec: Recording,
    traceId: string, result: RequestResult, num: NumberOf, trace: TraceEvidence)
    requires NonZeroHex(traceId, 32) && result.traceId == Lower(traceId)
    requires PartOf(ps, d, rec) && PartOf(qs, d, rec) && Readable(rec, num) && !FailedButServed(d)
    requires ps != [] && forall x :: x in ps ==> x in qs
    requires Carries(p, ps, traceId) && Carries(q, qs, traceId)
    requires Normalize(p, traceId, result, num) == Ok(Available(trace))
    ensures var b := Normalize(q, traceId, result, num);
            && b.Ok? && b.value.Available? && b.value.trace.delivery == trace.delivery
            && (b.value.trace.replicaSelection == trace.replicaSelection
                || (UpstreamFailed(d) && trace.replicaSelection == SelectionUnknown))
  {
    hide SpanOf, EvidenceShown, Carries, Normalize, PartOf, Readable, ConclusiveRebuilt, Arrived, FailedButServed, UpstreamFailed,
         Judge;
    assert ps[0] in qs;
    var us := CarriedRunIsJudged(p, ps, d, rec, traceId, result, num);
    var vs := CarriedRunIsJudged(q, qs, d, rec, traceId, result, num);
    PartJudged(us, d, rec, result, num);
    AvailableIsStable(us, vs, d, rec, result, num);
  }

  /** Every recordable run has such a payload. */
  lemma {:induction false} RunHasPayload(
    ps: seq<Producer>, d: Decisions, rec: Recording, traceId: string, noise: Producer -> seq<Json>)
    returns (payload: Json)
    requires NonZeroHex(traceId, 32) && PartOf(ps, d, rec) && DistinctStages(rec) && RemoteParentForeign(rec)
    requires forall p :: p in ps ==> Recordable(p) && NoiseFits(noise(p))
    ensures Carries(payload, ps, traceId)
  {
    hide WriteSpan, EnvelopeFormed, WritePayload, Reaches, SpanOf, Entries, Carries, Recordable, NoiseFits, Suits, PlainStyle,
         DistinctStages, RemoteParentForeign, Layered, NonZeroHex, ServiceOf, DistinctIds;
    RunFits(ps, d, rec);
    RunIsLayered(ps, d, rec);
    var style := (p: Producer) => PlainStyle(p.operation, noise(p));
    forall p | p in ps
      ensures Suits(style(p), p.operation)
    {
      PlainStyleSuits(p.operation, noise(p));
    }
    var es := WriteEntries(ps, traceId, style);
    forall e | e in es
      ensures e.service.Some? && e.service.value != ""
    {
      var i :| 0 <= i < |es| && es[i] == e;
      ServiceIsNamed(ps[i].operation);
    }
    PayloadReadsBack(es);
    payload := WritePayload(es);
    WrittenIsCarried(payload, ps, traceId, style, StageRank);
  }

  lemma {:induction false} ServiceIsNamed(operation: Operation)
    ensures ServiceOf(operation) != ""
  {
  }
}
