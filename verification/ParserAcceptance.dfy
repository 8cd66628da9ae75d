/**
 What the nested scan accepts, said without its loops: the envelope has the right shape,
 every span is sound on its own, no identifier occurs twice, and following parents
 terminates. The spans kept are a filter of the spans received. None of this depends
 on how the spans are ordered or grouped.
 */
module ParserAcceptance {
  import opened Common
  import opened Text
  import opened Json
  import opened SpanForest
  import opened JaegerParser

  /** One received span with the service of the resource it was listed under. */
  datatype Entry = Entry(service: Option<string>, span: Json)

  // ---- The bag of spans in a payload

  function SpanEntries(service: Option<string>, spans: seq<Json>): (es: seq<Entry>)
    ensures |es| == |spans|
  {
    seq(|spans|, i requires 0 <= i < |spans| => Entry(service, spans[i]))
  }

  function ScopeEntries(service: Option<string>, scopes: seq<Json>): seq<Entry> {
    if scopes == [] then [] else ScopeSpans(service, scopes[0]) + ScopeEntries(service, scopes[1..])
  }

  function ScopeSpans(service: Option<string>, scope: Json): seq<Entry> {
    match ArrayField(scope, "spans")
    case Some(spans) => SpanEntries(service, spans)
    case None => []
  }

  function ResourceEntries(resources: seq<Json>): seq<Entry> {
    if resources == [] then [] else OneResource(resources[0]) + ResourceEntries(resources[1..])
  }

  function OneResource(resource: Json): seq<Entry> {
    match ServiceName(Field(resource, "resource"))
    case Err(_) => []
    case Ok(service) =>
      match ArrayField(resource, "scopeSpans")
      case None => []
      case Some(scopes) => ScopeEntries(service, scopes)
  }

  function Entries(payload: Json): seq<Entry> {
    match ResourceSpans(payload)
    case None => []
    case Some(resources) => ResourceEntries(resources)
  }

  // ---- Acceptance

  predicate ScopesFormed(scopes: seq<Json>) {
    forall i :: 0 <= i < |scopes| ==> ArrayField(scopes[i], "spans").Some?
  }

  predicate ResourceFormed(resource: Json) {
    && ServiceName(Field(resource, "resource")).Ok?
    && ArrayField(resource, "scopeSpans").Some?
    && |ArrayField(resource, "scopeSpans").value| <= MAX_GROUPS
    && ScopesFormed(ArrayField(resource, "scopeSpans").value)
  }

  predicate EnvelopeFormed(payload: Json) {
    && ResourceSpans(payload).Some?
    && |ResourceSpans(payload).value| <= MAX_GROUPS
    && ResourcesFormed(ResourceSpans(payload).value)
  }

  predicate ResourcesFormed(resources: seq<Json>) {
    forall i :: 0 <= i < |resources| ==> ResourceFormed(resources[i])
  }

  function RawId(e: Entry): string {
    match StringField(e.span, "spanId")
    case Some(id) => id
    case None => ""
  }

  function EntryId(e: Entry): string {
    Lower(RawId(e))
  }

  function EntryParent(e: Entry): string {
    Lower(ParentField(e.span))
  }

  /** A received span as read on its own: `sound` when it is acceptable whatever else the payload holds. */
  datatype Row = Row(id: string, parent: string, producer: Option<Producer>, sound: bool)

  function RowOf(e: Entry, traceId: string): Row {
    var read := ReadProducer(e.service, e.span, RawId(e), ParentField(e.span));
    Row(EntryId(e),
        EntryParent(e),
        if read.Ok? then read.value else None,
        && ReadIds(e.span, traceId).Ok?
        && (ParentField(e.span) == "" || NonZeroHex(ParentField(e.span), 16))
        && read.Ok?)
  }

  function Rows(es: seq<Entry>, traceId: string): (rows: seq<Row>)
    ensures |rows| == |es|
  {
    if es == [] then [] else [RowOf(es[0], traceId)] + Rows(es[1..], traceId)
  }

  lemma {:induction false} RowsAppend(a: seq<Entry>, b: seq<Entry>, traceId: string)
    ensures Rows(a + b, traceId) == Rows(a, traceId) + Rows(b, traceId)
  {
    if a == [] {
      assert a + b == b;
    } else {
      assert (a + b)[0] == a[0] && (a + b)[1..] == a[1..] + b;
      RowsAppend(a[1..], b, traceId);
    }
  }

  predicate AllSound(rows: seq<Row>) {
    forall i :: 0 <= i < |rows| ==> rows[i].sound
  }

  function Ids(rows: seq<Row>): (ids: seq<string>)
    ensures |ids| == |rows|
    ensures forall i :: 0 <= i < |rows| ==> ids[i] == rows[i].id
  {
    seq(|rows|, i requires 0 <= i < |rows| => rows[i].id)
  }

  /** The recognised spans, in the order received. */
  function Producers(rows: seq<Row>): seq<Producer> {
    if rows == [] then [] else Appended(Producers(rows[..|rows| - 1]), rows[|rows| - 1].producer)
  }

  function ParentMap(rows: seq<Row>): map<string, string> {
    if rows == [] then map[] else ParentMap(rows[..|rows| - 1])[rows[|rows| - 1].id := rows[|rows| - 1].parent]
  }

  /** The conditions of acceptance, on the bag of spans alone. */
  ghost predicate Accepts(es: seq<Entry>, traceId: string) {
    var rows := Rows(es, traceId);
    && |es| <= MAX_RAW_SPANS
    && AllSound(rows)
    && NoRepeats(Ids(rows))
    && !HasCycle(ParentMap(rows))
  }

  // ---- The scan as a fold over rows

  function TakeOne(st: ParseState, row: Row): Option<ParseState> {
    if !row.sound || row.id in st.ids then None
    else Some(ParseState(Appended(st.output, row.producer), st.ids + [row.id],
                         st.parents[row.id := row.parent], st.rawCount + 1))
  }

  function TakeAll(st: ParseState, rows: seq<Row>): Option<ParseState>
    decreases |rows|
  {
    if rows == [] then Some(st)
    else match TakeOne(st, rows[0])
      case None => None
      case Some(next) => TakeAll(next, rows[1..])
  }

  lemma {:induction false} TakeAllSplits(st: ParseState, a: seq<Row>, b: seq<Row>)
    ensures TakeAll(st, a + b)
         == match TakeAll(st, a) case None => None case Some(next) => TakeAll(next, b)
    decreases |a|
  {
    if a == [] {
      assert a + b == b;
    } else {
      assert (a + b)[0] == a[0] && (a + b)[1..] == a[1..] + b;
      match TakeOne(st, a[0])
      case None =>
      case Some(next) => TakeAllSplits(next, a[1..], b);
    }
  }

  lemma {:induction false} TakeAllCounts(st: ParseState, rows: seq<Row>)
    requires TakeAll(st, rows).Some?
    ensures TakeAll(st, rows).value.rawCount == st.rawCount + |rows|
    decreases |rows|
  {
    if rows != [] {
      TakeAllCounts(TakeOne(st, rows[0]).value, rows[1..]);
    }
  }

  /** `r` is what the fold over `rows` gives, the raw count apart. */
  ghost predicate Folds(r: Result<ParseState, JaegerError>, st: ParseState, rows: seq<Row>, count: nat) {
    var taken := TakeAll(st, rows);
    && (r.Ok? <==> taken.Some?)
    && (r.Ok? ==> r.value == taken.value.(rawCount := count))
  }

  lemma {:induction false} CountIsInert(st: ParseState, count: nat, rows: seq<Row>)
    ensures TakeAll(st, rows).Some? <==> TakeAll(st.(rawCount := count), rows).Some?
    ensures TakeAll(st, rows).Some? ==>
              TakeAll(st.(rawCount := count), rows).value
              == TakeAll(st, rows).value.(rawCount := count + |rows|)
    decreases |rows|
  {
    if rows != [] && TakeOne(st, rows[0]).Some? {
      CountIsInert(TakeOne(st, rows[0]).value, count + 1, rows[1..]);
    }
  }

  // ---- The scan, level by level

  lemma {:induction false} ScanSpanFolds(st: ParseState, e: Entry, traceId: string)
    ensures var r := ScanSpan(st, e.service, e.span, traceId);
            var taken := TakeOne(st, RowOf(e, traceId));
            && (r.Ok? <==> taken.Some?)
            && (r.Ok? ==> r.value.(rawCount := st.rawCount + 1) == taken.value)
            && (r.Ok? ==> r.value.rawCount == st.rawCount)
  {
  }

  lemma {:induction false} ScanSpansFolds(st: ParseState, service: Option<string>, spans: seq<Json>, traceId: string)
    ensures Folds(ScanSpans(st, service, spans, traceId), st, Rows(SpanEntries(service, spans), traceId), st.rawCount)
    decreases |spans|
  {
    if spans != [] {
      var e := Entry(service, spans[0]);
      var rows, rest := Rows(SpanEntries(service, spans), traceId), Rows(SpanEntries(service, spans[1..]), traceId);
      assert SpanEntries(service, spans)[1..] == SpanEntries(service, spans[1..]);
      ScanSpanFolds(st, e, traceId);
      var r := ScanSpan(st, service, spans[0], traceId);
      if r.Ok? {
        ScanSpansFolds(r.value, service, spans[1..], traceId);
        CountIsInert(r.value, st.rawCount + 1, rest);
      }
    }
  }

  lemma {:induction false} ScanScopeFolds(st: ParseState, service: Option<string>, scope: Json, traceId: string)
    ensures var rows := Rows(ScopeSpans(service, scope), traceId);
            var r := ScanScope(st, service, scope, traceId);
            var taken := TakeAll(st, rows);
            && (r.Ok? <==> ArrayField(scope, "spans").Some? && st.rawCount + |rows| <= MAX_RAW_SPANS && taken.Some?)
            && (r.Ok? ==> r.value == taken.value)
  {
    hide ScanSpan, RowOf, ReadProducer;
    match ArrayField(scope, "spans")
    case None =>
    case Some(spans) =>
      var rows := Rows(ScopeSpans(service, scope), traceId);
      var count := st.rawCount + |spans|;
      ScanSpansFolds(st.(rawCount := count), service, spans, traceId);
      CountIsInert(st, count, rows);
      if TakeAll(st, rows).Some? {
        TakeAllCounts(st, rows);
      }
  }

  lemma {:induction false} ScanScopesFolds(st: ParseState, service: Option<string>, scopes: seq<Json>, traceId: string)
    requires st.rawCount <= MAX_RAW_SPANS
    ensures var rows := Rows(ScopeEntries(service, scopes), traceId);
            var r := ScanScopes(st, service, scopes, traceId);
            var taken := TakeAll(st, rows);
            && (r.Ok? <==> ScopesFormed(scopes) && st.rawCount + |rows| <= MAX_RAW_SPANS && taken.Some?)
            && (r.Ok? ==> r.value == taken.value)
    decreases |scopes|
  {
    hide ScanSpan, RowOf, ScanScope;
    if scopes != [] {
      var first := Rows(ScopeSpans(service, scopes[0]), traceId);
      var rest := Rows(ScopeEntries(service, scopes[1..]), traceId);
      RowsAppend(ScopeSpans(service, scopes[0]), ScopeEntries(service, scopes[1..]), traceId);
      ScanScopeFolds(st, service, scopes[0], traceId);
      TakeAllSplits(st, first, rest);
      var r := ScanScope(st, service, scopes[0], traceId);
      if r.Ok? {
        TakeAllCounts(st, first);
        ScanScopesFolds(r.value, service, scopes[1..], traceId);
      }
    }
  }

  lemma {:induction false} ScanResourceFolds(st: ParseState, resource: Json, traceId: string)
    requires st.rawCount <= MAX_RAW_SPANS
    ensures var rows := Rows(OneResource(resource), traceId);
            var r := ScanResource(st, resource, traceId);
            var taken := TakeAll(st, rows);
            && (r.Ok? <==> ResourceFormed(resource) && st.rawCount + |rows| <= MAX_RAW_SPANS && taken.Some?)
            && (r.Ok? ==> r.value == taken.value)
  {
    hide ScanSpan, RowOf, ScanScope;
    match ServiceName(Field(resource, "resource"))
    case Err(_) =>
    case Ok(service) =>
      match ArrayField(resource, "scopeSpans")
      case None =>
      case Some(scopes) => ScanScopesFolds(st, service, scopes, traceId);
  }

  lemma {:induction false} ScanResourcesFolds(st: ParseState, resources: seq<Json>, traceId: string)
    requires st.rawCount <= MAX_RAW_SPANS
    ensures var rows := Rows(ResourceEntries(resources), traceId);
            var r := ScanResources(st, resources, traceId);
            var taken := TakeAll(st, rows);
            && (r.Ok? <==> ResourcesFormed(resources) && st.rawCount + |rows| <= MAX_RAW_SPANS && taken.Some?)
            && (r.Ok? ==> r.value == taken.value)
    decreases |resources|
  {
    hide ScanSpan, RowOf, ScanResource, ResourceFormed;
    if resources != [] {
      var first := Rows(OneResource(resources[0]), traceId);
      var rest := Rows(ResourceEntries(resources[1..]), traceId);
      RowsAppend(OneResource(resources[0]), ResourceEntries(resources[1..]), traceId);
      ScanResourceFolds(st, resources[0], traceId);
      TakeAllSplits(st, first, rest);
      var r := ScanResource(st, resources[0], traceId);
      if r.Ok? {
        TakeAllCounts(st, first);
        ScanResourcesFolds(r.value, resources[1..], traceId);
      }
    }
  }

  // ---- The fold, without its order

  function Closed(rows: seq<Row>): ParseState {
    ParseState(Producers(rows), Ids(rows), ParentMap(rows), |rows|)
  }

  ghost predicate Clean(rows: seq<Row>) {
    AllSound(rows) && NoRepeats(Ids(rows))
  }

  lemma {:induction false} CleanExtends(rows: seq<Row>, row: Row)
    requires Clean(rows)
    ensures Clean(rows + [row]) <==> row.sound && row.id !in Ids(rows)
    ensures Ids(rows + [row]) == Ids(rows) + [row.id]
  {
    var grown := rows + [row];
    assert grown[|rows|] == row;
    if row.id in Ids(rows) {
      var i :| 0 <= i < |rows| && Ids(rows)[i] == row.id;
      assert Ids(grown)[i] == Ids(grown)[|rows|];
    } else if row.sound {
      assert forall i :: 0 <= i < |rows| ==> Ids(grown)[i] == Ids(rows)[i];
    }
  }

  lemma {:induction false} CleanPrefix(a: seq<Row>, b: seq<Row>)
    requires Clean(a + b)
    ensures Clean(a)
  {
    assert forall i :: 0 <= i < |a| ==> (a + b)[i] == a[i] && Ids(a + b)[i] == Ids(a)[i];
  }

  lemma {:induction false} TakeAllIff(done: seq<Row>, rows: seq<Row>)
    requires Clean(done)
    ensures TakeAll(Closed(done), rows).Some? <==> Clean(done + rows)
    ensures TakeAll(Closed(done), rows).Some? ==> TakeAll(Closed(done), rows).value == Closed(done + rows)
    decreases |rows|
  {
    if rows == [] {
      assert done + rows == done;
    } else {
      var grown := done + [rows[0]];
      CleanExtends(done, rows[0]);
      assert grown[..|grown| - 1] == done;
      assert done + rows == grown + rows[1..];
      if Clean(grown) {
        assert TakeOne(Closed(done), rows[0]) == Some(Closed(grown));
        TakeAllIff(grown, rows[1..]);
      } else if Clean(done + rows) {
        CleanPrefix(grown, rows[1..]);
      }
    }
  }

  lemma {:induction false} NothingClosed()
    ensures Clean([]) && Closed([]) == EMPTY
  {
  }

  /** The parser accepts exactly the well-formed envelopes holding an acceptable bag of spans. */
  lemma {:induction false} ParseIff(payload: Json, traceId: string)
    ensures Parse(payload, traceId).Ok? <==> EnvelopeFormed(payload) && Accepts(Entries(payload), traceId)
    ensures Parse(payload, traceId).Ok? ==>
              Parse(payload, traceId).value
              == Parsed(Producers(Rows(Entries(payload), traceId)), |Entries(payload)|)
  {
    hide ScanSpan, RowOf, ScanResource, ResourceFormed, TakeAll, ScanResources, NoRepeats, Producers, ParentMap, Ids;
    match ResourceSpans(payload)
    case None =>
    case Some(resources) =>
      var rows := Rows(Entries(payload), traceId);
      NothingClosed();
      ScanResourcesFolds(EMPTY, resources, traceId);
      TakeAllIff([], rows);
      assert [] + rows == rows;
  }

  // ---- Order and grouping do not matter

  /** No two spans share an identifier, letter case apart. */
  ghost predicate DistinctIds(ps: seq<Producer>) {
    forall i, j :: 0 <= i < j < |ps| ==> Lower(ps[i].spanId) != Lower(ps[j].spanId)
  }

  lemma {:induction false} RowsMembers(es: seq<Entry>, traceId: string, row: Row)
    ensures row in Rows(es, traceId) <==> exists i :: 0 <= i < |es| && RowOf(es[i], traceId) == row
  {
    hide RowOf;
    if es != [] {
      RowsMembers(es[1..], traceId, row);
      if row in Rows(es[1..], traceId) {
        var i :| 0 <= i < |es[1..]| && RowOf(es[1..][i], traceId) == row;
        assert RowOf(es[i + 1], traceId) == row;
      }
      if i :| 0 <= i < |es| && RowOf(es[i], traceId) == row {
        assert i > 0 ==> es[1..][i - 1] == es[i];
      }
    }
  }

  lemma {:induction false} ParentMapEntries(rows: seq<Row>)
    requires NoRepeats(Ids(rows))
    ensures forall row :: row in rows ==> row.id in ParentMap(rows) && ParentMap(rows)[row.id] == row.parent
    ensures forall id :: id in ParentMap(rows) ==> exists row :: row in rows && row.id == id
  {
    if rows != [] {
      var front, last := rows[..|rows| - 1], rows[|rows| - 1];
      assert rows == front + [last];
      assert forall i :: 0 <= i < |front| ==> Ids(front)[i] == Ids(rows)[i];
      ParentMapEntries(front);
      forall row | row in front
        ensures row.id != last.id
      {
        var i :| 0 <= i < |front| && front[i] == row;
        assert Ids(rows)[i] != Ids(rows)[|front|];
      }
    }
  }

  lemma {:induction false} ProducersMembers(rows: seq<Row>, p: Producer)
    ensures p in Producers(rows) <==> exists row :: row in rows && row.producer == Some(p)
  {
    if rows != [] {
      var front, last := rows[..|rows| - 1], rows[|rows| - 1];
      assert rows == front + [last];
      ProducersMembers(front, p);
    }
  }

  /** A producer carries the identifier of the row it was read from. */
  ghost predicate Labelled(rows: seq<Row>) {
    forall row :: row in rows && row.producer.Some? ==> Lower(row.producer.value.spanId) == row.id
  }

  lemma {:induction false} ProducersDistinct(rows: seq<Row>)
    requires Labelled(rows) && NoRepeats(Ids(rows))
    ensures DistinctIds(Producers(rows))
  {
    if rows != [] {
      var front, last := rows[..|rows| - 1], rows[|rows| - 1];
      assert rows == front + [last];
      FrontDistinct(front, last);
      ProducersDistinct(front);
      forall p | p in Producers(front)
        ensures Lower(p.spanId) != last.id
      {
        ProducersMembers(front, p);
      }
      hide Lower, Labelled, Ids;
      assert last.producer.Some? ==> Lower(last.producer.value.spanId) == last.id;
    }
  }

  /** The last of distinct rows shares its identifier with none before it. */
  lemma {:induction false} FrontDistinct(front: seq<Row>, last: Row)
    requires Labelled(front + [last]) && NoRepeats(Ids(front + [last]))
    ensures Labelled(front) && NoRepeats(Ids(front))
    ensures forall row :: row in front ==> row.id != last.id
    ensures last.producer.Some? ==> Lower(last.producer.value.spanId) == last.id
  {
    hide Lower;
    var rows := front + [last];
    assert forall k :: 0 <= k < |front| ==> rows[k] == front[k] && Ids(rows)[k] == front[k].id;
    assert rows[|front|] == last && Ids(rows)[|front|] == last.id;
  }

  lemma {:induction false} RowIsLabelled(e: Entry, traceId: string)
    ensures RowOf(e, traceId).producer.Some? ==>
              Lower(RowOf(e, traceId).producer.value.spanId) == RowOf(e, traceId).id
  {
    hide Lower;
  }

  lemma {:induction false} RowsLabelled(es: seq<Entry>, traceId: string)
    ensures Labelled(Rows(es, traceId))
  {
    forall row | row in Rows(es, traceId) && row.producer.Some?
      ensures Lower(row.producer.value.spanId) == row.id
    {
      RowsMembers(es, traceId, row);
      var i :| 0 <= i < |es| && RowOf(es[i], traceId) == row;
      hide RowOf, Lower, Rows;
      RowIsLabelled(es[i], traceId);
    }
  }

  lemma {:induction false} SameBagRows(a: seq<Entry>, b: seq<Entry>, traceId: string)
    requires multiset(a) == multiset(b)
    ensures |a| == |b|
    ensures forall row :: row in Rows(a, traceId) <==> row in Rows(b, traceId)
  {
    hide RowOf;
    assert |multiset(a)| == |a| && |multiset(b)| == |b|;
    assert forall e :: e in a <==> e in multiset(a);
    assert forall e :: e in b <==> e in multiset(b);
    forall row
      ensures row in Rows(a, traceId) <==> row in Rows(b, traceId)
    {
      RowsMembers(a, traceId, row);
      RowsMembers(b, traceId, row);
      if i :| 0 <= i < |a| && RowOf(a[i], traceId) == row {
        assert a[i] in b;
      }
      if i :| 0 <= i < |b| && RowOf(b[i], traceId) == row {
        assert b[i] in a;
      }
    }
  }

  lemma {:induction false} IdsMembers(rows: seq<Row>, id: string)
    ensures id in Ids(rows) <==> exists row :: row in rows && row.id == id
  {
    if row :| row in rows && row.id == id {
      var i :| 0 <= i < |rows| && rows[i] == row;
      assert Ids(rows)[i] == id;
    }
  }

  lemma {:induction false} SameRowsClean(a: seq<Row>, b: seq<Row>)
    requires |a| == |b| && Clean(a)
    requires forall row :: row in a <==> row in b
    ensures Clean(b)
  {
    forall i | 0 <= i < |b|
      ensures b[i].sound
    {
      assert b[i] in a;
    }
    forall id
      ensures id in Ids(a) <==> id in Ids(b)
    {
      IdsMembers(a, id);
      IdsMembers(b, id);
    }
    NoRepeatsRearranged(Ids(a), Ids(b));
  }

  lemma {:induction false} SameRowsParents(a: seq<Row>, b: seq<Row>)
    requires Clean(a) && Clean(b)
    requires forall row :: row in a <==> row in b
    ensures ParentMap(a) == ParentMap(b)
  {
    ParentMapEntries(a);
    ParentMapEntries(b);
    assert ParentMap(a).Keys == ParentMap(b).Keys;
  }

  lemma {:induction false} SameRowsProducers(a: seq<Row>, b: seq<Row>)
    requires forall row :: row in a <==> row in b
    ensures forall p :: p in Producers(a) <==> p in Producers(b)
  {
    forall p
      ensures p in Producers(a) <==> p in Producers(b)
    {
      ProducersMembers(a, p);
      ProducersMembers(b, p);
    }
  }

  /** Whatever was parsed, its recognised spans have distinct identifiers. */
  lemma {:induction false} ParsedDistinct(payload: Json, traceId: string)
    requires Parse(payload, traceId).Ok?
    ensures DistinctIds(Parse(payload, traceId).value.spans)
  {
    hide ScanSpan, RowOf, ScanResource, ResourceFormed;
    ParseIff(payload, traceId);
    RowsLabelled(Entries(payload), traceId);
    ProducersDistinct(Rows(Entries(payload), traceId));
  }

  /** However a bag of spans is ordered and grouped, it parses to the same spans or not at all. */
  lemma {:induction false} SameBagParses(p: Json, q: Json, traceId: string)
    requires EnvelopeFormed(p) && EnvelopeFormed(q)
    requires multiset(Entries(p)) == multiset(Entries(q))
    ensures Parse(p, traceId).Ok? <==> Parse(q, traceId).Ok?
    ensures Parse(p, traceId).Ok? ==>
              && Parse(p, traceId).value.rawCount == Parse(q, traceId).value.rawCount
              && forall x :: x in Parse(p, traceId).value.spans <==> x in Parse(q, traceId).value.spans
  {
    hide ScanSpan, RowOf, ScanResource, ResourceFormed;
    var a, b := Rows(Entries(p), traceId), Rows(Entries(q), traceId);
    ParseIff(p, traceId);
    ParseIff(q, traceId);
    SameBagRows(Entries(p), Entries(q), traceId);
    SameRowsProducers(a, b);
    if Clean(a) {
      SameRowsClean(a, b);
      SameRowsParents(a, b);
    } else if Clean(b) {
      SameRowsClean(b, a);
    }
  }
}
