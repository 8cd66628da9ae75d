/**
 Which payloads are accepted and what they are read as, told from the JSON alone: fields, texts and numbers. The
 parser's own reading functions do not occur in this account; the lemmas say that the two agree.
 */
module PayloadAccount {
  import opened Common
  import opened Text
  import opened Json
  import opened SpanForest
  import opened JaegerParser
  import opened ParserAcceptance

  // ---- JSON

  predicate Holds(value: Json, key: string, field: Json) {
    value.JObject? && key in value.fields && value.fields[key] == field
  }

  predicate HoldsText(value: Json, key: string, text: string) {
    Holds(value, key, JString(text))
  }

  lemma {:induction false} TextIs(value: Json, key: string)
    ensures forall text :: StringField(value, key) == Some(text) <==> HoldsText(value, key, text)
  {
  }

  // ---- Attributes

  const EVIDENCE: set<string> := {"trapigo.policy.outcome", "trapigo.backend.replica",
                                  "http.response.status_code", "http.status_code"}

  /** The value an attribute bears: its one typed field, holding a text, a number or a flag. */
  predicate BearsValue(item: Json, v: Json) {
    && item.JObject? && "value" in item.fields && item.fields["value"].JObject?
    && (v.JString? || v.JNumber? || v.JBool?)
    && var typed := item.fields["value"].fields;
       || ("stringValue" in typed && typed["stringValue"] == v
           && "intValue" !in typed && "boolValue" !in typed && "doubleValue" !in typed)
       || ("intValue" in typed && typed["intValue"] == v
           && "stringValue" !in typed && "boolValue" !in typed && "doubleValue" !in typed)
       || ("boolValue" in typed && typed["boolValue"] == v
           && "stringValue" !in typed && "intValue" !in typed && "doubleValue" !in typed)
       || ("doubleValue" in typed && typed["doubleValue"] == v
           && "stringValue" !in typed && "intValue" !in typed && "boolValue" !in typed)
  }

  /** An attribute has a name, and a value if it is evidence. */
  ghost predicate IsAttribute(item: Json) {
    exists key :: && HoldsText(item, "key", key) && key != ""
                  && (key in EVIDENCE ==> exists v :: BearsValue(item, v))
  }

  predicate IsNamed(item: Json, key: string) {
    HoldsText(item, "key", key)
  }

  /** The attributes are well formed: each is one, and no evidence occurs twice. */
  ghost predicate AreAttributes(items: seq<Json>) {
    && (forall i :: 0 <= i < |items| ==> IsAttribute(items[i]))
    && (forall i, j, key :: 0 <= i < j < |items| && key in EVIDENCE && IsNamed(items[i], key) ==> !IsNamed(items[j], key))
  }

  /** The evidence of a name: the value of the attribute so named, or none. */
  ghost predicate Shows(items: seq<Json>, key: string, shown: Option<Json>) {
    match shown
    case None => forall i :: 0 <= i < |items| ==> !IsNamed(items[i], key)
    case Some(v) => Told(items, key, v)
  }

  lemma {:induction false} EvidenceKeysAre(key: string)
    ensures IsEvidenceKey(key) <==> key in EVIDENCE
  {
  }

  lemma {:induction false} ValueIs(item: Json)
    ensures var typed := ObjectField(item, "value");
            forall v :: typed.Some? && ScalarValue(typed.value) == Some(v) <==> BearsValue(item, v)
  {
    FieldNamesDiffer();
    if item.JObject? && "value" in item.fields && item.fields["value"].JObject? {
      var typed := item.fields["value"];
      forall v
        ensures ScalarValue(typed) == Some(v) <==> BearsValue(item, v)
      {
        ScalarIs(item, v);
      }
    }
    hide ScalarValue;
  }

  lemma {:induction false} FieldNamesDiffer()
    ensures "stringValue" != "intValue" && "stringValue" != "boolValue" && "stringValue" != "doubleValue"
    ensures "intValue" != "boolValue" && "intValue" != "doubleValue" && "boolValue" != "doubleValue"
  {
    assert |"stringValue"| == 11 && |"intValue"| == 8 && |"boolValue"| == 9 && |"doubleValue"| == 11;
    assert "stringValue"[0] == 's' && "doubleValue"[0] == 'd';
  }

  lemma {:induction false} ScalarIs(item: Json, v: Json)
    requires item.JObject? && "value" in item.fields && item.fields["value"].JObject?
    ensures ScalarValue(item.fields["value"]) == Some(v) <==> BearsValue(item, v)
  {
    FieldNamesDiffer();
  }

  predicate Maps(m: map<string, Json>, key: string, v: Json) {
    key in m && m[key] == v
  }

  /** Some attribute of the list is so named and bears the value. */
  ghost predicate Told(items: seq<Json>, key: string, v: Json) {
    exists i :: 0 <= i < |items| && IsNamed(items[i], key) && BearsValue(items[i], v)
  }

  ghost predicate NoneNamed(items: seq<Json>, found: map<string, Json>) {
    forall i, key :: 0 <= i < |items| && key in found ==> !IsNamed(items[i], key)
  }

  lemma {:induction false} ScanOne(item: Json, found: map<string, Json>)
    ensures var r := ScanAttribute(item, found);
            && (r.Ok? <==> IsAttribute(item) && forall key :: key in found && key in EVIDENCE ==> !IsNamed(item, key))
            && (r.Ok? ==> forall key, v :: Maps(r.value, key, v) <==>
                  Maps(found, key, v) || (key in EVIDENCE && IsNamed(item, key) && BearsValue(item, v)))
  {
    hide ScalarValue, IsEvidenceKey, BearsValue;
    TextIs(item, "key");
    ValueIs(item);
    match StringField(item, "key")
    case None =>
    case Some(key) =>
      EvidenceKeysAre(key);
      forall other
        ensures IsNamed(item, other) <==> other == key
      {
      }
  }

  /** The scan of a list of attributes, in these terms. */
  lemma {:induction false} ScanAll(items: seq<Json>, found: map<string, Json>)
    requires forall key :: key in found ==> key in EVIDENCE
    ensures var r := ScanAttributes(items, found);
            && (r.Ok? <==> AreAttributes(items) && NoneNamed(items, found))
            && (r.Ok? ==> forall key, v :: Maps(r.value, key, v) <==> Maps(found, key, v) || (key in EVIDENCE && Told(items, key, v)))
    decreases |items|
  {
    hide ScanAttribute, IsAttribute, IsNamed, BearsValue, Maps, AreAttributes, NoneNamed, Told;
    if items == [] {
      NothingToScan(found);
    } else {
      ScanOne(items[0], found);
      if AreAttributes(items) && NoneNamed(items, found) {
        FirstRefuses(items, found);
      }
      var first := ScanAttribute(items[0], found);
      if first.Ok? {
        NewKeys(items[0], found);
        ScanAll(items[1..], first.value);
        RestOk(items, found, first.value);
        forall key, v
          ensures Told(items, key, v) <==> (IsNamed(items[0], key) && BearsValue(items[0], v)) || Told(items[1..], key, v)
        {
          ToldSplits(items, key, v);
        }
      }
    }
  }

  lemma {:induction false} NothingToScan(found: map<string, Json>)
    ensures AreAttributes([]) && NoneNamed([], found) && forall key, v :: !Told([], key, v)
  {
  }

  lemma {:induction false} FirstRefuses(items: seq<Json>, found: map<string, Json>)
    requires items != [] && AreAttributes(items) && NoneNamed(items, found)
    ensures IsAttribute(items[0]) && forall key :: key in found && key in EVIDENCE ==> !IsNamed(items[0], key)
  {
    hide IsAttribute, IsNamed;
  }

  lemma {:induction false} ToldSplits(items: seq<Json>, key: string, v: Json)
    requires items != []
    ensures Told(items, key, v) <==> (IsNamed(items[0], key) && BearsValue(items[0], v)) || Told(items[1..], key, v)
  {
    hide IsNamed, BearsValue;
    var rest := items[1..];
    if i :| 0 <= i < |items| && IsNamed(items[i], key) && BearsValue(items[i], v) {
      assert i > 0 ==> IsNamed(rest[i - 1], key) && BearsValue(rest[i - 1], v);
    }
    if i :| 0 <= i < |rest| && IsNamed(rest[i], key) && BearsValue(rest[i], v) {
      assert IsNamed(items[i + 1], key) && BearsValue(items[i + 1], v);
    }
  }

  /** After one attribute, the names found are those before and its own if it is evidence. */
  lemma {:induction false} NewKeys(item: Json, found: map<string, Json>)
    requires ScanAttribute(item, found).Ok?
    requires forall key :: key in found ==> key in EVIDENCE
    ensures forall key :: key in ScanAttribute(item, found).value <==> key in found || (key in EVIDENCE && IsNamed(item, key))
  {
    ScanOne(item, found);
    hide ScanAttribute, BearsValue, IsNamed, IsAttribute;
    var next := ScanAttribute(item, found).value;
    forall key
      ensures key in next <==> key in found || (key in EVIDENCE && IsNamed(item, key))
    {
      if key in next {
        assert Maps(next, key, next[key]);
      }
      if key in found {
        assert Maps(next, key, found[key]);
      }
      if key in EVIDENCE && IsNamed(item, key) {
        ItsValue(item, key);
        var v :| BearsValue(item, v);
        assert Maps(next, key, v);
      }
    }
  }

  lemma {:induction false} ItsValue(item: Json, key: string)
    requires IsAttribute(item) && key in EVIDENCE && IsNamed(item, key)
    ensures exists v :: BearsValue(item, v)
  {
    hide BearsValue;
  }

  lemma {:induction false} RestOk(items: seq<Json>, found: map<string, Json>, next: map<string, Json>)
    requires items != [] && IsAttribute(items[0]) && forall key :: key in found ==> key in EVIDENCE
    requires forall key :: key in found ==> !IsNamed(items[0], key)
    requires forall key :: key in next <==> key in found || (key in EVIDENCE && IsNamed(items[0], key))
    ensures AreAttributes(items[1..]) && NoneNamed(items[1..], next) <==> AreAttributes(items) && NoneNamed(items, found)
  {
    hide IsAttribute, IsNamed;
    var rest := items[1..];
    assert forall i :: 0 < i < |items| ==> items[i] == rest[i - 1];
    assert forall i :: 0 <= i < |rest| ==> rest[i] == items[i + 1];
  }

  /** What an outcome text says. */
  predicate Means(shown: Option<Json>, outcome: Outcome) {
    match outcome
    case Unrecorded => shown == None
    case Disabled => shown == Some(JString("disabled"))
    case Admitted => shown == Some(JString("admitted"))
    case Rejected => shown == Some(JString("rejected"))
    case Passed => shown == Some(JString("passed"))
    case Authenticated => shown == Some(JString("authenticated"))
    case Matched => shown == Some(JString("matched"))
    case NotMatched => shown == Some(JString("not_matched"))
    case Selected => shown == Some(JString("selected"))
    case Unavailable => shown == Some(JString("unavailable"))
    case ProxyUnavailable => shown == Some(JString("proxy_unavailable"))
    case Unrecognised =>
      shown.Some? && (shown.value.JString? ==>
        shown.value.text !in {"disabled", "admitted", "rejected", "passed", "authenticated", "matched", "not_matched",
                              "selected", "unavailable", "proxy_unavailable"})
  }

  lemma {:induction false} OutcomeIs(shown: Option<Json>, outcome: Outcome)
    ensures OutcomeOf(shown) == outcome <==> Means(shown, outcome)
  {
    OutcomeTextsDiffer();
  }

  lemma {:induction false} OutcomeTextsDiffer()
    ensures forall i, j :: 0 <= i < j < |OutcomeTexts()| ==> OutcomeTexts()[i] != OutcomeTexts()[j]
  {
    assert |"disabled"| == 8 && |"admitted"| == 8 && |"rejected"| == 8 && |"passed"| == 6 && |"authenticated"| == 13
        && |"matched"| == 7 && |"not_matched"| == 11 && |"selected"| == 8 && |"unavailable"| == 11
        && |"proxy_unavailable"| == 17;
    assert "disabled"[0] == 'd' && "admitted"[0] == 'a' && "rejected"[0] == 'r' && "selected"[0] == 's'
        && "not_matched"[0] == 'n' && "unavailable"[0] == 'u';
  }

  function OutcomeTexts(): seq<string> {
    ["disabled", "admitted", "rejected", "passed", "authenticated", "matched", "not_matched", "selected", "unavailable",
     "proxy_unavailable"]
  }

  /** The evidence a span's attributes show. */
  ghost predicate ShowsEvidence(items: seq<Json>, e: Evidence) {
    && (exists shown :: Shows(items, "trapigo.policy.outcome", shown) && Means(shown, e.outcome))
    && Shows(items, "trapigo.backend.replica", e.replica)
    && Shows(items, "http.response.status_code", e.responseStatus)
    && Shows(items, "http.status_code", e.legacyStatus)
  }

  lemma {:induction false} FoundIs(items: seq<Json>, key: string, shown: Option<Json>)
    requires AreAttributes(items) && key in EVIDENCE
    ensures ScanAttributes(items, map[]).Ok?
    ensures Lookup(ScanAttributes(items, map[]).value, key) == shown <==> Shows(items, key, shown)
  {
    hide ScanAttributes, IsAttribute, IsNamed, BearsValue;
    ScanAll(items, map[]);
    var m := ScanAttributes(items, map[]).value;
    if key in m {
      assert Maps(m, key, m[key]);
    }
    if i :| 0 <= i < |items| && IsNamed(items[i], key) {
      ItsValue(items[i], key);
      var v :| BearsValue(items[i], v);
      assert Told(items, key, v) && Maps(m, key, v);
    }
    if shown.Some? {
      assert Maps(m, key, shown.value) <==> Told(items, key, shown.value);
    }
  }

  lemma {:induction false} EvidenceIs(items: seq<Json>, e: Evidence)
    requires AreAttributes(items)
    ensures ScanAttributes(items, map[]).Ok?
    ensures EvidenceOf(ScanAttributes(items, map[]).value) == e <==> ShowsEvidence(items, e)
  {
    hide ScanAttributes, AreAttributes, Shows, OutcomeOf, Means;
    EvidenceNames();
    ScanAllOk(items);
    var m := ScanAttributes(items, map[]).value;
    forall key, shown | key in EVIDENCE
      ensures Lookup(m, key) == shown <==> Shows(items, key, shown)
    {
      FoundIs(items, key, shown);
    }
    OutcomeIs(Lookup(m, OUTCOME), e.outcome);
    hide Lookup;
    assert Shows(items, OUTCOME, Lookup(m, OUTCOME));
  }

  lemma {:induction false} EvidenceNames()
    ensures OUTCOME in EVIDENCE && REPLICA in EVIDENCE && RESPONSE_STATUS in EVIDENCE && LEGACY_STATUS in EVIDENCE
  {
  }

  lemma {:induction false} ScanAllOk(items: seq<Json>)
    ensures ScanAttributes(items, map[]).Ok? <==> AreAttributes(items)
  {
    ScanAll(items, map[]);
    hide ScanAttributes, AreAttributes;
  }

  // ---- One span

  predicate IsHexId(s: string, n: nat) {
    && |s| == n && (exists i :: 0 <= i < |s| && s[i] != '0')
    && forall i :: 0 <= i < |s| ==> '0' <= s[i] <= '9' || 'a' <= s[i] <= 'f' || 'A' <= s[i] <= 'F'
  }

  lemma {:induction false} HexIdIs(s: string, n: nat)
    ensures NonZeroHex(s, n) <==> IsHexId(s, n)
  {
  }

  /** A span of the trace, with its identifier and its parent's. */
  ghost predicate IsIdentified(span: Json, traceId: string, id: string, parent: string) {
    && HoldsText(span, "spanId", id) && IsHexId(id, 16)
    && (exists trace :: HoldsText(span, "traceId", trace) && trace != "" && Lower(trace) == Lower(traceId))
    && (if parent == "" then forall text :: HoldsText(span, "parentSpanId", text) ==> text == ""
        else HoldsText(span, "parentSpanId", parent) && IsHexId(parent, 16))
  }

  function NameOfCheck(check: Check): string {
    match check
    case RateLimitCheck => "gateway.rate_limit"
    case OriginCheck => "gateway.origin_check"
    case CsrfCheck => "gateway.csrf_check"
    case AuthenticationCheck => "gateway.authentication"
    case RouteCheck => "gateway.route_match"
    case BackendCheck => "gateway.backend_selection"
  }

  /** A service and a name stand for an operation. */
  predicate Denotes(service: string, name: string, operation: Operation) {
    match operation
    case GatewayServer => service == "trapigo-gateway" && name in {"GET /", "gateway"}
    case Policy(check) => service == "trapigo-gateway" && name == NameOfCheck(check)
    case ProxyCall => service == "trapigo-gateway" && name == "HTTP GET"
    case OrdersServer => service == "go-order-service" && name in {"GET /api/v1/go-orders", "orders.request"}
  }

  ghost predicate Names(service: Option<string>, span: Json, operation: Operation) {
    service.Some? && exists name :: HoldsText(span, "name", name) && Denotes(service.value, name, operation)
  }

  lemma {:induction false} ServicesDiffer()
    ensures GATEWAY == "trapigo-gateway" && ORDERS == "go-order-service" && GATEWAY != ORDERS
  {
    assert GATEWAY[0] == 't' && ORDERS[0] == 'g';
  }

  lemma {:induction false} CheckNamesAre(name: string, check: Check)
    ensures CheckOf(name) == Some(check) <==> name == NameOfCheck(check)
  {
    assert |"gateway.rate_limit"| == 18 && |"gateway.origin_check"| == 20 && |"gateway.csrf_check"| == 18
        && |"gateway.authentication"| == 22 && |"gateway.route_match"| == 19 && |"gateway.backend_selection"| == 25;
    assert "gateway.rate_limit"[8] == 'r' && "gateway.csrf_check"[8] == 'c';
  }

  /** The other names are none of these. */
  lemma {:induction false} OtherNames()
    ensures CheckOf("GET /").None? && CheckOf("gateway").None? && CheckOf("HTTP GET").None?
    ensures "GET /" != "gateway" && "GET /" != "HTTP GET" && "gateway" != "HTTP GET"
    ensures "GET /api/v1/go-orders" != "orders.request"
  {
    assert |"GET /"| == 5 && |"gateway"| == 7 && |"HTTP GET"| == 8;
    assert |"GET /api/v1/go-orders"| == 21 && |"orders.request"| == 14;
    assert |RATE_LIMIT| == 18 && |ORIGIN_CHECK| == 20 && |CSRF_CHECK| == 18 && |AUTHENTICATION| == 22
        && |ROUTE_MATCH| == 19 && |BACKEND_SELECTION| == 25;
  }

  lemma {:induction false} DenotesIs(service: string, name: string, operation: Operation)
    ensures OperationOf(service, name) == Some(operation) <==> Denotes(service, name, operation)
  {
    hide CheckOf, NameOfCheck, GATEWAY, ORDERS;
    ServicesDiffer();
    OtherNames();
    if CheckOf(name).Some? {
      CheckNamesAre(name, CheckOf(name).value);
    }
    if operation.Policy? {
      CheckNamesAre(name, operation.check);
    }
  }

  lemma {:induction false} NamesAre(service: Option<string>, span: Json, operation: Operation)
    ensures ReadOperation(service, span) == Some(operation) <==> Names(service, span, operation)
  {
    hide OperationOf, Denotes;
    TextIs(span, "name");
    var name := StringField(span, "name");
    if service.Some? && name.Some? {
      DenotesIs(service.value, name.value, operation);
      assert forall text :: HoldsText(span, "name", text) <==> text == name.value;
    }
  }

  /** The kind recorded, by name or by number, is the one the operation has. */
  predicate HasKind(span: Json, operation: Operation) {
    match operation
    case Policy(_) => Holds(span, "kind", JString("SPAN_KIND_INTERNAL")) || Holds(span, "kind", JNumber(1.0))
    case ProxyCall => Holds(span, "kind", JString("SPAN_KIND_CLIENT")) || Holds(span, "kind", JNumber(3.0))
    case GatewayServer => Holds(span, "kind", JString("SPAN_KIND_SERVER")) || Holds(span, "kind", JNumber(2.0))
    case OrdersServer => Holds(span, "kind", JString("SPAN_KIND_SERVER")) || Holds(span, "kind", JNumber(2.0))
  }

  /** A time in nanoseconds: up to 24 decimal digits, not zero. */
  ghost predicate ShowsTime(span: Json, key: string, n: nat) {
    n > 0 && exists text :: && HoldsText(span, key, text) && 1 <= |text| <= 24 && AllDigits(text)
                            && DecimalValue(text) == n
  }

  lemma {:induction false} TimeIs(span: Json, key: string, n: nat)
    ensures PositiveNanos(Field(span, key)) == Some(n) <==> ShowsTime(span, key, n)
  {
    hide DecimalValue, AllDigits;
    if span.JObject? && key in span.fields && span.fields[key].JString? {
      assert HoldsText(span, key, span.fields[key].text);
    }
  }

  /** The attributes of a span: a list of at most 64, or nothing at all. */
  ghost predicate HasAttributes(span: Json, items: seq<Json>) {
    && |items| <= 64
    && (|| Holds(span, "attributes", JArray(items))
        || (items == [] && (Holds(span, "attributes", JNull) || !(span.JObject? && "attributes" in span.fields))))
  }

  /** The span is of interest, and stands for `p`. */
  ghost predicate StandsFor(e: Entry, p: Producer) {
    && Names(e.service, e.span, p.operation) && HasKind(e.span, p.operation)
    && ShowsTime(e.span, "startTimeUnixNano", p.startNs) && ShowsTime(e.span, "endTimeUnixNano", p.endNs)
    && p.startNs <= p.endNs
    && exists items :: HasAttributes(e.span, items) && AreAttributes(items) && ShowsEvidence(items, p.evidence)
  }

  lemma {:induction false} KindIs(span: Json, operation: Operation)
    ensures Field(span, "kind").Some? && IsExpectedKind(operation, Field(span, "kind").value) <==> HasKind(span, operation)
  {
  }

  lemma {:induction false} AttributesAre(span: Json, e: Evidence)
    ensures (Attributes(AttributesField(span)).Ok? && EvidenceOf(Attributes(AttributesField(span)).value) == e) <==>
            exists items :: HasAttributes(span, items) && AreAttributes(items) && ShowsEvidence(items, e)
  {
    hide ScanAttributes, AreAttributes, ShowsEvidence, EvidenceOf;
    var value := AttributesField(span);
    if value.JArray? && |value.items| <= 64 {
      assert HasAttributes(span, value.items);
      ScanAllOk(value.items);
      if AreAttributes(value.items) {
        EvidenceIs(value.items, e);
      }
    }
    forall items | HasAttributes(span, items)
      ensures value == JArray(items)
    {
    }
  }

  /** Reading one span as a producer, in these terms. */
  lemma {:induction false} ReadsAsIff(e: Entry, id: string, parent: string, p: Producer)
    ensures ReadProducer(e.service, e.span, id, parent) == Ok(Some(p)) <==>
            p.spanId == id && p.parentSpanId == parent && StandsFor(e, p)
  {
    hide ReadOperation, IsExpectedKind, PositiveNanos, Attributes, AttributesField, EvidenceOf, Names, HasKind, ShowsTime,
         HasAttributes, AreAttributes, ShowsEvidence, Field;
    NamesAre(e.service, e.span, p.operation);
    KindIs(e.span, p.operation);
    TimeIs(e.span, "startTimeUnixNano", p.startNs);
    TimeIs(e.span, "endTimeUnixNano", p.endNs);
    AttributesAre(e.span, p.evidence);
  }

  ghost predicate IsStranger(e: Entry) {
    forall operation :: !Names(e.service, e.span, operation)
  }

  lemma {:induction false} ReadsAsNothingIff(e: Entry, id: string, parent: string)
    ensures ReadProducer(e.service, e.span, id, parent) == Ok(None) <==> IsStranger(e)
  {
    hide ReadOperation, IsExpectedKind, PositiveNanos, Attributes, AttributesField, EvidenceOf, Names, Field;
    forall operation
      ensures ReadOperation(e.service, e.span) == Some(operation) <==> Names(e.service, e.span, operation)
    {
      NamesAre(e.service, e.span, operation);
    }
    if ReadOperation(e.service, e.span).Some? {
      assert Names(e.service, e.span, ReadOperation(e.service, e.span).value);
    }
  }

  /** The identifiers of an entry, as the row tells them. */
  lemma {:induction false} IdentifiedIs(e: Entry, traceId: string)
    ensures && ReadIds(e.span, traceId).Ok?
            && (ParentField(e.span) == "" || NonZeroHex(ParentField(e.span), 16))
            <==> exists id, parent :: IsIdentified(e.span, traceId, id, parent)
    ensures forall id, parent :: IsIdentified(e.span, traceId, id, parent) ==> RawId(e) == id && ParentField(e.span) == parent
  {
    hide Lower, NonZeroHex, IsHexId;
    TextIs(e.span, "spanId");
    TextIs(e.span, "traceId");
    TextIs(e.span, "parentSpanId");
    forall s
      ensures NonZeroHex(s, 16) <==> IsHexId(s, 16)
    {
      HexIdIs(s, 16);
    }
    if ReadIds(e.span, traceId).Ok? && (ParentField(e.span) == "" || NonZeroHex(ParentField(e.span), 16)) {
      assert IsIdentified(e.span, traceId, RawId(e), ParentField(e.span));
    }
    hide StringField;
    forall id, parent | IsIdentified(e.span, traceId, id, parent)
      ensures RawId(e) == id && ParentField(e.span) == parent
    {
    }
  }

  /** An entry is acceptable on its own: identified, and either of no interest or standing for a span. */
  ghost predicate IsSound(e: Entry, traceId: string) {
    && (exists id, parent :: IsIdentified(e.span, traceId, id, parent))
    && (IsStranger(e) || exists p :: StandsFor(e, p))
  }

  /** A row is exactly what the entry says of itself. */
  lemma {:induction false} RowTells(e: Entry, traceId: string)
    ensures RowOf(e, traceId).sound <==> IsSound(e, traceId)
    ensures forall id, parent :: IsIdentified(e.span, traceId, id, parent) ==>
              RowOf(e, traceId).id == Lower(id) && RowOf(e, traceId).parent == Lower(parent)
    ensures forall p :: RowOf(e, traceId).producer == Some(p) <==>
              StandsFor(e, p) && p.spanId == RawId(e) && p.parentSpanId == ParentField(e.span)
  {
    hide ReadIds, ReadProducer, NonZeroHex, IsIdentified, StandsFor, IsStranger, RawId, ParentField, Lower;
    var id, parent := RawId(e), ParentField(e.span);
    IdentifiedIs(e, traceId);
    ReadsAsNothingIff(e, id, parent);
    forall p: Producer
      ensures ReadProducer(e.service, e.span, id, parent) == Ok(Some(p)) <==>
              p.spanId == id && p.parentSpanId == parent && StandsFor(e, p)
    {
      ReadsAsIff(e, id, parent, p);
    }
    if p :| StandsFor(e, p) {
      StandsAlike(e, p, id, parent);
      ReadsAsIff(e, id, parent, p.(spanId := id, parentSpanId := parent));
    }
    var read := ReadProducer(e.service, e.span, id, parent);
    if read.Ok? && read.value.Some? {
      ReadsAsIff(e, id, parent, read.value.value);
    }
  }

  lemma {:induction false} StandsAlike(e: Entry, p: Producer, id: string, parent: string)
    requires StandsFor(e, p)
    ensures StandsFor(e, p.(spanId := id, parentSpanId := parent))
  {
    hide Names, HasKind, ShowsTime, HasAttributes, AreAttributes, ShowsEvidence;
  }

  // ---- The envelope

  /** The attributes listed with a resource, if it lists any that are looked at. */
  ghost predicate ListsAttributes(resource: Json, items: seq<Json>) {
    && |items| <= 64
    && exists r :: Holds(resource, "resource", r) && Holds(r, "attributes", JArray(items))
  }

  /** The item is the service's name, and it is this one. */
  ghost predicate NamesService(item: Json, service: string) {
    && IsServiceItem(item) && service != ""
    && exists v :: Holds(item, "value", v) && HoldsText(v, "stringValue", service)
  }

  predicate IsServiceItem(item: Json) {
    IsNamed(item, "service.name")
  }

  ghost predicate NoServiceItem(items: seq<Json>) {
    forall i :: 0 <= i < |items| ==> !IsServiceItem(items[i])
  }

  /** The one attribute that names the service. */
  ghost predicate OnlyServiceItem(items: seq<Json>, i: nat) {
    i < |items| && IsServiceItem(items[i]) && forall k :: 0 <= k < |items| && k != i ==> !IsServiceItem(items[k])
  }

  /** The service of a resource: the one named among its attributes, none when none is. Two, or a bad one, are refused. */
  ghost predicate HasService(resource: Json, service: Option<string>) {
    match service
    case None => forall items :: ListsAttributes(resource, items) ==> NoServiceItem(items)
    case Some(name) =>
      exists items, i: nat :: ListsAttributes(resource, items) && OnlyServiceItem(items, i) && NamesService(items[i], name)
  }

  lemma {:induction false} NoneNamedIs(items: seq<Json>)
    ensures ServiceNameItems(items) == [] <==> NoServiceItem(items)
  {
    hide IsServiceItem;
    if items != [] {
      NamedIs(items[0]);
      NoneNamedIs(items[1..]);
      hide StringField;
      assert forall i :: 0 < i < |items| ==> items[i] == items[1..][i - 1];
    }
  }

  /** One item named, and which. */
  lemma {:induction false} OneNamedIs(items: seq<Json>)
    ensures |ServiceNameItems(items)| == 1 <==> exists i: nat :: OnlyServiceItem(items, i)
    ensures forall i: nat :: OnlyServiceItem(items, i) ==> i < |items| && ServiceNameItems(items) == [items[i]]
  {
    hide IsServiceItem, StringField, OnlyServiceItem;
    if items == [] {
      NothingOnly();
    } else {
      var rest := items[1..];
      NamedIs(items[0]);
      NoneNamedIs(rest);
      OneNamedIs(rest);
      OnlySplits(items);
      if IsServiceItem(items[0]) {
        assert NoServiceItem(rest) ==> OnlyServiceItem(items, 0);
      } else if i: nat :| OnlyServiceItem(rest, i) {
        assert OnlyServiceItem(items, i + 1);
      }
      forall i: nat | OnlyServiceItem(items, i)
        ensures i < |items| && ServiceNameItems(items) == [items[i]]
      {
        OnlyIsItem(items, i);
        if i > 0 {
          assert OnlyServiceItem(rest, i - 1);
        }
      }
    }
  }

  lemma {:induction false} NothingOnly()
    ensures forall i: nat :: !OnlyServiceItem([], i)
  {
  }

  lemma {:induction false} OnlySplits(items: seq<Json>)
    requires items != []
    ensures OnlyServiceItem(items, 0) <==> IsServiceItem(items[0]) && NoServiceItem(items[1..])
    ensures forall i: nat :: OnlyServiceItem(items, i + 1) <==> !IsServiceItem(items[0]) && OnlyServiceItem(items[1..], i)
    ensures forall i: nat :: i > 0 ==> (OnlyServiceItem(items, i) <==> !IsServiceItem(items[0]) && OnlyServiceItem(items[1..], i - 1))
    ensures forall i: nat :: i > 0 && i < |items| ==> items[i] == items[1..][i - 1]
  {
    hide IsServiceItem;
    var rest := items[1..];
    assert forall i :: 0 < i < |items| ==> items[i] == rest[i - 1];
    assert forall i :: 0 <= i < |rest| ==> rest[i] == items[i + 1];
    forall i: nat
      ensures OnlyServiceItem(items, i + 1) <==> !IsServiceItem(items[0]) && OnlyServiceItem(rest, i)
    {
      if OnlyServiceItem(items, i + 1) {
        assert 0 != i + 1;
      }
    }
    forall i: nat | i > 0
      ensures OnlyServiceItem(items, i) <==> !IsServiceItem(items[0]) && OnlyServiceItem(rest, i - 1)
    {
      assert OnlyServiceItem(items, (i - 1) + 1) <==> !IsServiceItem(items[0]) && OnlyServiceItem(rest, i - 1);
    }
  }

  lemma {:induction false} NamedIs(item: Json)
    ensures StringField(item, "key") == Some("service.name") <==> IsServiceItem(item)
  {
    TextIs(item, "key");
  }

  lemma {:induction false} ServiceValueIs(item: Json, service: string)
    requires IsServiceItem(item)
    ensures ServiceNameValue(item) == Some(service) <==> NamesService(item, service)
  {
    if item.JObject? && "value" in item.fields {
      TextIs(item.fields["value"], "stringValue");
    }
  }

  /** The list of attributes looked at, if there is one. */
  function Listed(resource: Json): Option<seq<Json>> {
    var r := Field(resource, "resource");
    var list := if r.Some? then ArrayField(r.value, "attributes") else None;
    if list.Some? && |list.value| <= 64 then list else None
  }

  lemma {:induction false} ListIs(resource: Json, items: seq<Json>)
    ensures Listed(resource) == Some(items) <==> ListsAttributes(resource, items)
  {
    if resource.JObject? && "resource" in resource.fields {
      assert Holds(resource, "resource", resource.fields["resource"]);
    }
  }

  lemma {:induction false} NameReadIs(resource: Json)
    ensures ServiceName(Field(resource, "resource")) ==
            match Listed(resource)
            case None => Ok(None)
            case Some(items) =>
              var named := ServiceNameItems(items);
              if named == [] then Ok(None)
              else if ServiceNameValue(named[0]).None? then Err(InvalidServiceName)
              else if |named| > 1 then Err(DuplicateServiceName)
              else Ok(ServiceNameValue(named[0]))
  {
    hide ServiceNameItems, ServiceNameValue, Field, ArrayField;
  }

  /** The service read off a resource is the one it has in these terms. */
  lemma {:induction false} ServiceIs(resource: Json, service: Option<string>)
    ensures ServiceName(Field(resource, "resource")) == Ok(service) <==> HasService(resource, service)
  {
    hide Field, Listed, ServiceName, ServiceNameItems, ServiceNameValue, IsServiceItem, ListsAttributes, NamesService,
         OnlyServiceItem, NoServiceItem;
    NameReadIs(resource);
    forall items
      ensures Listed(resource) == Some(items) <==> ListsAttributes(resource, items)
    {
      ListIs(resource, items);
    }
    if Listed(resource).Some? {
      var items := Listed(resource).value;
      NoneNamedIs(items);
      OneNamedIs(items);
      forall i: nat, name | OnlyServiceItem(items, i)
        ensures i < |items| && (ServiceNameValue(items[i]) == Some(name) <==> NamesService(items[i], name))
      {
        OnlyIsItem(items, i);
        ServiceValueIs(items[i], name);
      }
    }
  }

  lemma {:induction false} OnlyIsItem(items: seq<Json>, i: nat)
    requires OnlyServiceItem(items, i)
    ensures i < |items| && IsServiceItem(items[i])
  {
    hide IsServiceItem;
  }

  /** A resource with its service and its scopes, each with its spans. */
  ghost predicate IsResource(resource: Json) {
    && (exists service :: HasService(resource, service))
    && exists scopes :: && Holds(resource, "scopeSpans", JArray(scopes)) && |scopes| <= 32
                        && forall i :: 0 <= i < |scopes| ==> exists spans :: Holds(scopes[i], "spans", JArray(spans))
  }

  /** The resources of a payload. */
  ghost predicate Lists(payload: Json, resources: seq<Json>) {
    |resources| <= 32 && exists root :: Holds(payload, "result", root) && Holds(root, "resourceSpans", JArray(resources))
  }

  lemma {:induction false} ResourceIs(resource: Json)
    ensures ResourceFormed(resource) <==> IsResource(resource)
  {
    var service := ServiceName(Field(resource, "resource"));
    if service.Ok? {
      ServiceIs(resource, service.value);
    }
    if named :| HasService(resource, named) {
      ServiceIs(resource, named);
    }
    hide ServiceName, HasService;
    if ResourceFormed(resource) {
      var scopes := ArrayField(resource, "scopeSpans").value;
      forall i | 0 <= i < |scopes|
        ensures exists spans :: Holds(scopes[i], "spans", JArray(spans))
      {
        assert Holds(scopes[i], "spans", JArray(ArrayField(scopes[i], "spans").value));
      }
      assert Holds(resource, "scopeSpans", JArray(scopes));
    }
  }

  lemma {:induction false} ListedIs(payload: Json, resources: seq<Json>)
    ensures ResourceSpans(payload) == Some(resources) && |resources| <= 32 <==> Lists(payload, resources)
  {
    assert payload.JObject? && "result" in payload.fields ==> Holds(payload, "result", payload.fields["result"]);
  }

  /** The envelope is well formed exactly when it lists resources, each of them one. */
  lemma {:induction false} EnvelopeIs(payload: Json)
    ensures EnvelopeFormed(payload) <==>
            exists resources :: Lists(payload, resources) && forall i :: 0 <= i < |resources| ==> IsResource(resources[i])
  {
    hide ResourceSpans, Lists, ResourceFormed, IsResource;
    forall resources
      ensures ResourceSpans(payload) == Some(resources) && |resources| <= 32 <==> Lists(payload, resources)
    {
      ListedIs(payload, resources);
    }
    forall resource
      ensures ResourceFormed(resource) <==> IsResource(resource)
    {
      ResourceIs(resource);
    }
  }

  /** The span is in the scope. */
  ghost predicate ScopeHolds(scope: Json, span: Json) {
    exists spans :: Holds(scope, "spans", JArray(spans)) && span in spans
  }

  /** The span is in one of the resource's scopes. */
  ghost predicate Contains(resource: Json, span: Json) {
    exists scopes, scope :: Holds(resource, "scopeSpans", JArray(scopes)) && scope in scopes && ScopeHolds(scope, span)
  }

  lemma {:induction false} ScopesContain(service: Option<string>, scopes: seq<Json>, e: Entry)
    ensures e in ScopeEntries(service, scopes) <==>
            e.service == service && exists scope :: scope in scopes && ScopeHolds(scope, e.span)
  {
    if scopes != [] {
      ScopesContain(service, scopes[1..], e);
      OneScope(service, scopes[0], e);
      hide ScopeSpans, ScopeHolds;
      assert scopes == [scopes[0]] + scopes[1..];
    }
  }

  lemma {:induction false} OneScope(service: Option<string>, scope: Json, e: Entry)
    ensures e in ScopeSpans(service, scope) <==>
            e.service == service && ScopeHolds(scope, e.span)
  {
    match ArrayField(scope, "spans")
    case None =>
    case Some(spans) =>
      var es := SpanEntries(service, spans);
      if e in es {
        var i :| 0 <= i < |es| && es[i] == e;
        assert Holds(scope, "spans", JArray(spans)) && spans[i] in spans;
      }
      if e.service == service && e.span in spans {
        var i :| 0 <= i < |spans| && spans[i] == e.span;
        assert es[i] == e;
      }
  }

  lemma {:induction false} ResourceContains(resource: Json, e: Entry)
    requires ResourceFormed(resource)
    ensures e in OneResource(resource) <==> HasService(resource, e.service) && Contains(resource, e.span)
  {
    var service := ServiceName(Field(resource, "resource")).value;
    var scopes := ArrayField(resource, "scopeSpans").value;
    ServiceIs(resource, e.service);
    ScopesContain(service, scopes, e);
    assert forall other :: Holds(resource, "scopeSpans", JArray(other)) <==> other == scopes;
    hide ServiceName, HasService, ScopeEntries, ScopeHolds;
  }

  lemma {:induction false} ResourcesContain(resources: seq<Json>, e: Entry)
    requires ResourcesFormed(resources)
    ensures e in ResourceEntries(resources) <==>
            exists resource :: resource in resources && HasService(resource, e.service) && Contains(resource, e.span)
  {
    hide OneResource, HasService, Contains, ResourceFormed;
    if resources != [] {
      assert forall i :: 0 <= i < |resources[1..]| ==> resources[1..][i] == resources[i + 1];
      ResourcesContain(resources[1..], e);
      ResourceContains(resources[0], e);
      assert resources == [resources[0]] + resources[1..];
    }
  }

  /** A payload contains the entry: a span in a scope of a resource with that service. */
  ghost predicate IsListed(payload: Json, e: Entry) {
    exists resources, resource :: && Lists(payload, resources) && resource in resources
                                  && HasService(resource, e.service) && Contains(resource, e.span)
  }

  lemma {:induction false} EntriesAre(payload: Json, e: Entry)
    requires EnvelopeFormed(payload)
    ensures e in Entries(payload) <==> IsListed(payload, e)
  {
    var resources := ResourceSpans(payload).value;
    ResourcesContain(resources, e);
    hide HasService, Contains, ResourceFormed, ResourceSpans, ResourceEntries;
    forall other
      ensures Lists(payload, other) <==> other == resources
    {
      ListedIs(payload, other);
    }
    hide Lists;
  }

  /**
   The spans a parsed payload yields are exactly those its listed spans stand for. A span that does not belong to the
   trace, has a bad identifier, or is of interest and ill formed is never passed over: with it the payload is refused.
   */
  lemma {:induction false} PayloadTells(payload: Json, traceId: string)
    requires Parse(payload, traceId).Ok?
    ensures forall e :: IsListed(payload, e) ==> IsSound(e, traceId)
    ensures forall p :: p in Parse(payload, traceId).value.spans <==>
              exists e :: && IsListed(payload, e) && StandsFor(e, p)
                          && IsIdentified(e.span, traceId, p.spanId, p.parentSpanId)
    ensures Parse(payload, traceId).value.rawCount <= 256
  {
    hide Parse, EnvelopeFormed, RowOf, IsListed, IsSound, StandsFor, IsIdentified, Entries, HasCycle, ParentMap, NoRepeats, Ids;
    ParseIff(payload, traceId);
    var es := Entries(payload);
    var rows := Rows(es, traceId);
    forall e | IsListed(payload, e)
      ensures IsSound(e, traceId)
    {
      EntriesAre(payload, e);
      EntryIsSound(es, traceId, e);
    }
    forall p
      ensures p in Producers(rows) <==>
              exists e :: IsListed(payload, e) && StandsFor(e, p) && IsIdentified(e.span, traceId, p.spanId, p.parentSpanId)
    {
      ProducersMembers(rows, p);
      if row :| row in rows && row.producer == Some(p) {
        RowsMembers(es, traceId, row);
        var i :| 0 <= i < |es| && RowOf(es[i], traceId) == row;
        EntriesAre(payload, es[i]);
        EntryIsSound(es, traceId, es[i]);
        ProducerTells(es[i], traceId, p);
      }
      if e :| IsListed(payload, e) && StandsFor(e, p) && IsIdentified(e.span, traceId, p.spanId, p.parentSpanId) {
        EntriesAre(payload, e);
        ProducerTells(e, traceId, p);
        RowsMembers(es, traceId, RowOf(e, traceId));
        var i :| 0 <= i < |es| && es[i] == e;
      }
    }
  }

  lemma {:induction false} EntryIsSound(es: seq<Entry>, traceId: string, e: Entry)
    requires AllSound(Rows(es, traceId)) && e in es
    ensures IsSound(e, traceId)
  {
    hide RowOf, IsSound;
    RowTells(e, traceId);
    RowsMembers(es, traceId, RowOf(e, traceId));
    var i :| 0 <= i < |es| && es[i] == e;
  }

  lemma {:induction false} ProducerTells(e: Entry, traceId: string, p: Producer)
    requires IsSound(e, traceId)
    ensures RowOf(e, traceId).producer == Some(p) <==>
            StandsFor(e, p) && IsIdentified(e.span, traceId, p.spanId, p.parentSpanId)
  {
    RowTells(e, traceId);
    IdentifiedIs(e, traceId);
    hide RowOf, StandsFor, IsIdentified, RawId, ParentField, IsStranger, ReadIds;
  }

  /**
   A payload is accepted exactly when its envelope is well formed, it lists at most 256 spans, each of them sound, no two
   with the same identifier, and no chain of parents comes back to its start.
   */
  lemma {:induction false} PayloadAcceptedIff(payload: Json, traceId: string)
    ensures Parse(payload, traceId).Ok? <==>
            && (exists resources ::
                  Lists(payload, resources) && forall i :: 0 <= i < |resources| ==> IsResource(resources[i]))
            && |Entries(payload)| <= 256
            && (forall e :: e in Entries(payload) ==> IsSound(e, traceId))
            && NoRepeats(Ids(Rows(Entries(payload), traceId)))
            && !HasCycle(ParentMap(Rows(Entries(payload), traceId)))
  {
    hide Parse, EnvelopeFormed, RowOf, IsSound, Entries, HasCycle, ParentMap, NoRepeats, Ids, Lists, IsResource;
    ParseIff(payload, traceId);
    EnvelopeIs(payload);
    var es := Entries(payload);
    forall e | e in es
      ensures RowOf(e, traceId).sound <==> IsSound(e, traceId)
    {
      RowTells(e, traceId);
    }
    AllSoundIs(es, traceId);
  }

  lemma {:induction false} AllSoundIs(es: seq<Entry>, traceId: string)
    ensures AllSound(Rows(es, traceId)) <==> forall e :: e in es ==> RowOf(e, traceId).sound
  {
    hide RowOf;
    var rows := Rows(es, traceId);
    if AllSound(rows) {
      forall e | e in es
        ensures RowOf(e, traceId).sound
      {
        RowsMembers(es, traceId, RowOf(e, traceId));
        var i :| 0 <= i < |es| && es[i] == e;
      }
    }
    if forall e :: e in es ==> RowOf(e, traceId).sound {
      forall i | 0 <= i < |rows|
        ensures rows[i].sound
      {
        RowsMembers(es, traceId, rows[i]);
        var k :| 0 <= k < |es| && RowOf(es[k], traceId) == rows[i];
      }
    }
  }
}
