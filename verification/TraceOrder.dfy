/**
 When the order in which spans are listed can change the verdict or the evidence shown. The normalizer takes the
 first span of some kinds and the last report of others; a reading is one way these choices can fall.
 */
module TraceOrder {
  import opened Common
  import opened Text
  import opened Json
  import opened RequestFlow
  import opened JaegerParser
  import opened ParserAcceptance
  import opened TraceNormalizer
  import opened SpanBags
  import opened TraceVerdict

  datatype Reading = Reading(
    gateway: Option<Producer>,
    origin: Outcome,
    csrf: Outcome,
    choice: Outcome,
    picked: Option<Producer>,
    proxy: Option<Producer>,
    service: Option<Producer>)

  const SELECTED := Reporting(BackendCheck, Outcome.Selected)

  /** The choices the normalizer makes on spans listed in this order. */
  function ReadingOf(ps: seq<Producer>): Reading {
    var g := GatewayOf(ps);
    var pols := GatewayPolicies(ps, g);
    Reading(g,
            LastOf(pols, OriginCheck, Outcome.Rejected, Outcome.Passed),
            LastOf(pols, CsrfCheck, Outcome.Rejected, Outcome.Passed),
            LastOf(pols, BackendCheck, Outcome.Selected, Unavailable),
            First(pols, SELECTED),
            ProxyUnder(ps, g),
            First(ps, WithRole(OrdersService)))
  }

  /** Some matching span, or none when none matches. */
  ghost predicate Picks(ps: seq<Producer>, sel: Selector, x: Option<Producer>) {
    match x
    case None => !Any(ps, sel)
    case Some(p) => p in ps && Matches(sel, p)
  }

  /** One of the two outcomes as reported by some span, or unrecorded when none reports either. */
  ghost predicate Reports(pols: seq<Producer>, check: Check, a: Outcome, b: Outcome, o: Outcome) {
    || (o == Unrecorded && !Any(pols, Reporting(check, a)) && !Any(pols, Reporting(check, b)))
    || ((o == a || o == b) && Any(pols, Reporting(check, o)))
  }

  /** The choices a reading makes are all among the spans. */
  ghost predicate Possible(ps: seq<Producer>, r: Reading) {
    var pols := GatewayPolicies(ps, r.gateway);
    && Picks(ps, WithRole(GatewayRequest), r.gateway)
    && Reports(pols, OriginCheck, Outcome.Rejected, Outcome.Passed, r.origin)
    && Reports(pols, CsrfCheck, Outcome.Rejected, Outcome.Passed, r.csrf)
    && Reports(pols, BackendCheck, Outcome.Selected, Unavailable, r.choice)
    && Picks(pols, SELECTED, r.picked)
    && (if r.gateway.Some? then Picks(ps, Under(GatewayProxy, Id(r.gateway.value)), r.proxy) else r.proxy == None)
    && Picks(ps, WithRole(OrdersService), r.service)
  }

  // ---- What a reading shows

  function PoliciesBy(ps: seq<Producer>, r: Reading): seq<PolicyEvidence> {
    Directs(GatewayPolicies(ps, r.gateway)) + CsrfEvidence(r.origin, r.csrf) + ChoiceEvidence(r.choice)
  }

  ghost function SelectionBy(ps: seq<Producer>, r: Reading): ReplicaSelection {
    if r.picked.Some? && r.picked.value.evidence.replica.Some? && r.picked.value.evidence.replica.value.JString? then
      var name := r.picked.value.evidence.replica.value.text;
      if IsPublicReplicaId(name) then ReplicaSelection.Selected(name) else SelectionUnknown
    else if Any(GatewayPolicies(ps, r.gateway), Reporting(BackendCheck, Unavailable)) then NotSelected
    else SelectionUnknown
  }

  ghost function DeliveryBy(ps: seq<Producer>, r: Reading, num: NumberOf): Delivery {
    DeliveryOf(GatewayPolicies(ps, r.gateway), r.proxy, r.service, SelectionBy(ps, r), num)
  }

  /** Two readings of the same spans show the same evidence. */
  ghost predicate ShowAlike(ps: seq<Producer>, r: Reading, t: Reading, num: NumberOf) {
    && multiset(PoliciesBy(ps, r)) == multiset(PoliciesBy(ps, t))
    && SelectionBy(ps, r) == SelectionBy(ps, t)
    && DeliveryBy(ps, r, num) == DeliveryBy(ps, t, num)
  }

  /** The policies a reading shows are not too many. */
  predicate Fits(ps: seq<Producer>, r: Reading) {
    |PoliciesBy(ps, r)| <= MAX_POLICY_EVIDENCE
  }

  /** Two readings of the same spans are judged alike: both refused, or showing the same evidence. */
  ghost predicate JudgedAlike(ps: seq<Producer>, r: Reading, t: Reading, num: NumberOf) {
    (!Fits(ps, r) && !Fits(ps, t)) || ShowAlike(ps, r, t, num)
  }

  /** The evidence shown is that of the reading the order leads to. */
  lemma {:induction false} EvidenceIsReading(ps: seq<Producer>, result: RequestResult, num: NumberOf)
    ensures var shown, r := EvidenceShown(ps, result, num), ReadingOf(ps);
            && shown.policies == PoliciesBy(ps, r)
            && shown.replicaSelection == SelectionBy(ps, r)
            && shown.delivery == DeliveryBy(ps, r, num)
  {
    hide Directs, CsrfEvidence, ChoiceEvidence, LastOf, First, DeliveryOf, ShownSpans, GatewayPolicies, Any, IsPublicReplicaId,
         ProxyUnder;
  }

  // ---- The reading of an order is possible

  lemma {:induction false} LastOfReports(pols: seq<Producer>, check: Check, a: Outcome, b: Outcome)
    requires a != Unrecorded && b != Unrecorded
    ensures Reports(pols, check, a, b, LastOf(pols, check, a, b))
  {
    hide LastOf, Any, Matches;
    if pols == [] {
      NoPolicies(check, a, b);
      NothingMatches(Reporting(check, a));
      NothingMatches(Reporting(check, b));
    } else {
      var front, last := pols[..|pols| - 1], pols[|pols| - 1];
      assert pols == front + [last];
      LastOfReports(front, check, a, b);
      LastOfLast(pols, check, a, b);
      AnyGrows(front, last, Reporting(check, a));
      AnyGrows(front, last, Reporting(check, b));
      ReportingIs(last, check, a);
      ReportingIs(last, check, b);
    }
  }

  lemma {:induction false} NothingMatches(sel: Selector)
    ensures !Any([], sel)
  {
  }

  lemma {:induction false} FirstPicks(ps: seq<Producer>, sel: Selector)
    ensures Picks(ps, sel, First(ps, sel))
  {
    FirstMatches(ps, sel);
  }

  lemma {:induction false} ReadingIsPossible(ps: seq<Producer>)
    ensures Possible(ps, ReadingOf(ps))
  {
    hide LastOf, First, Picks, Reports, GatewayPolicies;
    var g := GatewayOf(ps);
    var pols := GatewayPolicies(ps, g);
    FirstPicks(ps, WithRole(GatewayRequest));
    FirstPicks(ps, WithRole(OrdersService));
    FirstPicks(pols, SELECTED);
    LastOfReports(pols, OriginCheck, Outcome.Rejected, Outcome.Passed);
    LastOfReports(pols, CsrfCheck, Outcome.Rejected, Outcome.Passed);
    LastOfReports(pols, BackendCheck, Outcome.Selected, Unavailable);
    if g.Some? {
      FirstPicks(ps, Under(GatewayProxy, Id(g.value)));
    }
  }

  // ---- Possible readings depend on the bag alone

  ghost predicate SameMembers(a: seq<Producer>, b: seq<Producer>) {
    forall p :: p in a <==> p in b
  }

  lemma {:induction false} SameGatewayPolicies(ps: seq<Producer>, qs: seq<Producer>, g: Option<Producer>)
    requires SameMembers(ps, qs)
    ensures SameMembers(GatewayPolicies(ps, g), GatewayPolicies(qs, g))
  {
    if g.Some? {
      SelectMembers(ps, Under(GatewayPolicy, Id(g.value)));
      SelectMembers(qs, Under(GatewayPolicy, Id(g.value)));
    }
  }

  lemma {:induction false} SameAny(a: seq<Producer>, b: seq<Producer>)
    requires SameMembers(a, b)
    ensures forall sel :: Any(a, sel) <==> Any(b, sel)
  {
  }

  lemma {:induction false} SamePossible(ps: seq<Producer>, qs: seq<Producer>, r: Reading)
    requires SameMembers(ps, qs) && Possible(ps, r)
    ensures Possible(qs, r)
  {
    SameGatewayPolicies(ps, qs, r.gateway);
    SameAny(ps, qs);
    SameAny(GatewayPolicies(ps, r.gateway), GatewayPolicies(qs, r.gateway));
    hide GatewayPolicies, Any, Matches;
  }

  lemma {:induction false} SameShown(ps: seq<Producer>, qs: seq<Producer>, r: Reading, num: NumberOf)
    requires multiset(ps) == multiset(qs)
    ensures multiset(PoliciesBy(ps, r)) == multiset(PoliciesBy(qs, r))
    ensures SelectionBy(ps, r) == SelectionBy(qs, r) && DeliveryBy(ps, r, num) == DeliveryBy(qs, r, num)
  {
    hide GatewayPolicies, Any, IsPublicReplicaId, DeliveryOf, Directs, CsrfEvidence, ChoiceEvidence;
    var a, b := GatewayPolicies(ps, r.gateway), GatewayPolicies(qs, r.gateway);
    SameBagPolicies(ps, qs, r.gateway);
    SameBagDirects(a, b);
    SameBagMembers(a, b);
    SameAny(a, b);
    DeliveryBySelectors(a, b, r.proxy, r.service, SelectionBy(ps, r), num);
  }

  lemma {:induction false} SameBagPolicies(ps: seq<Producer>, qs: seq<Producer>, g: Option<Producer>)
    requires multiset(ps) == multiset(qs)
    ensures multiset(GatewayPolicies(ps, g)) == multiset(GatewayPolicies(qs, g))
  {
    if g.Some? {
      SameBagSelect(ps, qs, Under(GatewayPolicy, Id(g.value)));
    }
  }

  lemma {:induction false} SameBagMembers(ps: seq<Producer>, qs: seq<Producer>)
    requires multiset(ps) == multiset(qs)
    ensures SameMembers(ps, qs)
  {
    assert forall p :: p in ps <==> p in multiset(ps);
    assert forall p :: p in qs <==> p in multiset(qs);
  }

  /** Two orders show the same evidence exactly when the readings they lead to do. */
  lemma {:induction false} SameEvidenceIff(ps: seq<Producer>, qs: seq<Producer>, result: RequestResult, num: NumberOf)
    requires multiset(ps) == multiset(qs)
    ensures SameEvidence(EvidenceShown(ps, result, num), EvidenceShown(qs, result, num)) <==>
            ShowAlike(ps, ReadingOf(ps), ReadingOf(qs), num)
  {
    hide EvidenceShown, ReadingOf, PoliciesBy, SelectionBy, DeliveryBy, ShownSpans;
    EvidenceIsReading(ps, result, num);
    EvidenceIsReading(qs, result, num);
    SameShown(ps, qs, ReadingOf(qs), num);
    SameBagShown(ps, qs);
    EvidenceFields(ps, result, num);
    EvidenceFields(qs, result, num);
  }

  lemma {:induction false} EvidenceFields(ps: seq<Producer>, result: RequestResult, num: NumberOf)
    ensures EvidenceShown(ps, result, num).traceId == result.traceId
    ensures EvidenceShown(ps, result, num).spans == ShownSpans(ps)
  {
    hide PolicyOutcomesOf, First, DeliveryOf, ShownSpans, GatewayPolicies, SelectionOf, ProxyUnder;
  }

  // ---- Every possible reading is that of some order

  lemma {:induction false} FirstJoined(a: seq<Producer>, b: seq<Producer>, sel: Selector)
    ensures First(a + b, sel) == if First(a, sel).Some? then First(a, sel) else First(b, sel)
  {
    hide Matches;
    if a == [] {
      assert a + b == b;
    } else {
      assert (a + b)[0] == a[0] && (a + b)[1..] == a[1..] + b;
      FirstJoined(a[1..], b, sel);
    }
  }

  lemma {:induction false} SelectJoined(a: seq<Producer>, b: seq<Producer>, sel: Selector)
    ensures Select(a + b, sel) == Select(a, sel) + Select(b, sel)
  {
    hide Matches;
    if a == [] {
      assert a + b == b;
    } else {
      assert (a + b)[0] == a[0] && (a + b)[1..] == a[1..] + b;
      var first := if Matches(sel, a[0]) then [a[0]] else [];
      assert Select(a + b, sel) == first + Select(a[1..] + b, sel);
      assert Select(a, sel) == first + Select(a[1..], sel);
      SelectJoined(a[1..], b, sel);
      hide Select;
      Associative(first, Select(a[1..], sel), Select(b, sel));
    }
  }

  lemma {:induction false} LastOfJoined(x: seq<Producer>, y: seq<Producer>, check: Check, a: Outcome, b: Outcome)
    requires a != Unrecorded && b != Unrecorded
    ensures LastOf(x + y, check, a, b) ==
            if LastOf(y, check, a, b) != Unrecorded then LastOf(y, check, a, b) else LastOf(x, check, a, b)
    decreases |y|
  {
    hide LastOf, Matches;
    if y == [] {
      assert x + y == x;
      NoPolicies(check, a, b);
    } else {
      var front := y[..|y| - 1];
      assert (x + y)[..|x + y| - 1] == x + front;
      LastOfJoined(x, front, check, a, b);
      LastOfLast(x + y, check, a, b);
      LastOfLast(y, check, a, b);
    }
  }

  /** The spans of `ps` that are not among `taken`. */
  function Remaining(ps: seq<Producer>, taken: seq<Producer>): (rest: seq<Producer>)
    ensures forall p :: p in rest <==> p in ps && p !in taken
  {
    if ps == [] then []
    else (if ps[0] in taken then [] else [ps[0]]) + Remaining(ps[1..], taken)
  }

  lemma {:induction false} RemainingDistinct(ps: seq<Producer>, taken: seq<Producer>)
    requires DistinctIds(ps)
    ensures DistinctIds(Remaining(ps, taken))
  {
    hide Lower;
    if ps != [] {
      assert forall i :: 0 < i < |ps| ==> ps[i] == ps[1..][i - 1];
      RemainingDistinct(ps[1..], taken);
      var rest := Remaining(ps[1..], taken);
      forall i | 0 <= i < |rest|
        ensures Lower(ps[0].spanId) != Lower(rest[i].spanId)
      {
        assert rest[i] in ps[1..];
        var k :| 0 <= k < |ps[1..]| && ps[1..][k] == rest[i];
        assert ps[k + 1] == rest[i];
      }
    }
  }

  function Arranged(ps: seq<Producer>, front: seq<Producer>, back: seq<Producer>): seq<Producer> {
    front + Remaining(ps, front + back) + back
  }

  /** Members of spans with distinct identifiers, each listed once, have distinct identifiers. */
  lemma {:induction false} MembersDistinct(ps: seq<Producer>, qs: seq<Producer>)
    requires DistinctIds(ps) && NoRepeats(qs) && forall p :: p in qs ==> p in ps
    ensures DistinctIds(qs)
  {
    hide Lower;
    forall i, j | 0 <= i < j < |qs|
      ensures Lower(qs[i].spanId) != Lower(qs[j].spanId)
    {
      assert qs[i] in ps && qs[j] in ps;
      var x :| 0 <= x < |ps| && ps[x] == qs[i];
      var y :| 0 <= y < |ps| && ps[y] == qs[j];
    }
  }

  lemma {:induction false} ArrangedIsSame(ps: seq<Producer>, front: seq<Producer>, back: seq<Producer>)
    requires DistinctIds(ps) && NoRepeats(front + back) && forall p :: p in front + back ==> p in ps
    ensures SameSpans(ps, Arranged(ps, front, back))
  {
    var taken := front + back;
    var rest := Remaining(ps, taken);
    RemainingDistinct(ps, taken);
    DistinctIdsNoRepeats(rest);
    var all := Arranged(ps, front, back);
    assert forall p :: p in taken <==> p in front || p in back;
    assert forall p :: p in all <==> p in front || p in rest || p in back;
    ThreeNoRepeats(front, rest, back);
    MembersDistinct(ps, all);
  }

  lemma {:induction false} ThreeNoRepeats(a: seq<Producer>, b: seq<Producer>, c: seq<Producer>)
    requires NoRepeats(a + c) && NoRepeats(b) && forall p :: p in b ==> p !in a && p !in c
    ensures NoRepeats(a + b + c)
  {
    NoRepeatsJoined(a, c);
    NoRepeatsJoined(a, b);
    NoRepeatsJoined(a + b, c);
    hide NoRepeats;
  }

  function Opt(x: Option<Producer>): seq<Producer> {
    if x.Some? then [x.value] else []
  }

  /** Spans put at the front are the first of their kind. */
  lemma {:induction false} FrontIsFirst(
    ps: seq<Producer>, front: seq<Producer>, rest: seq<Producer>, sel: Selector, x: Option<Producer>)
    requires Picks(ps, sel, x) && SameMembers(ps, front + rest)
    requires x.Some? ==> x.value in front && Sole(front, sel)
    ensures First(front + rest, sel) == x
  {
    FirstJoined(front, rest, sel);
    FirstMatches(front + rest, sel);
    if x.Some? {
      FirstOfSole(front, sel, x.value);
    }
    hide First, Matches;
  }

  /** A span of the given check and outcome, when the outcome is recorded. */
  ghost predicate Witnesses(pols: seq<Producer>, check: Check, o: Outcome, w: Option<Producer>) {
    if o == Unrecorded then w == None else w.Some? && w.value in pols && Matches(Reporting(check, o), w.value)
  }

  lemma {:induction false} SomeWitness(pols: seq<Producer>, check: Check, a: Outcome, b: Outcome, o: Outcome)
    returns (w: Option<Producer>)
    requires Reports(pols, check, a, b, o) && a != Unrecorded && b != Unrecorded
    ensures Witnesses(pols, check, o, w)
  {
    hide Matches;
    if o == Unrecorded {
      w := None;
    } else {
      var p :| p in pols && Matches(Reporting(check, o), p);
      w := Some(p);
    }
  }

  /** The last report of a selection is not the span picked first, unless that is the only one selected. */
  lemma {:induction false} ChoiceWitness(pols: seq<Producer>, o: Outcome, picked: Option<Producer>)
    returns (w: Option<Producer>)
    requires Reports(pols, BackendCheck, Outcome.Selected, Unavailable, o) && Picks(pols, SELECTED, picked)
    ensures Witnesses(pols, BackendCheck, o, w)
    ensures w.Some? && w == picked ==> Sole(pols, SELECTED)
  {
    if p :| p in pols && Matches(SELECTED, p) && Some(p) != picked && o == Outcome.Selected {
      w := Some(p);
    } else {
      w := SomeWitness(pols, BackendCheck, Outcome.Selected, Unavailable, o);
    }
  }

  /** Reports put at the back are the last of their check. */
  lemma {:induction false} BackIsLast(
    pols: seq<Producer>, x: seq<Producer>, y: seq<Producer>, check: Check, a: Outcome, b: Outcome, o: Outcome,
    w: Option<Producer>)
    requires a != Unrecorded && b != Unrecorded && SameMembers(pols, x + y) && OnePerOperation(y)
    requires Reports(pols, check, a, b, o) && Witnesses(pols, check, o, w) && (w.Some? ==> w.value in y)
    ensures LastOf(x + y, check, a, b) == o
  {
    SameAny(pols, x + y);
    LastOfReports(x + y, check, a, b);
    if o != Unrecorded {
      LastOfMembers(y, check, a, b);
      assert Any(y, Reporting(check, o));
      LastOfJoined(x, y, check, a, b);
    }
    hide LastOf, Any, Matches;
  }

  ghost predicate Apart(x: Option<Producer>, y: Option<Producer>) {
    x.Some? && y.Some? ==> x.value != y.value
  }

  /** `s` lists the given spans, each once. */
  ghost predicate Lists(s: seq<Producer>, xs: set<Option<Producer>>) {
    NoRepeats(s) && forall p :: p in s <==> Some(p) in xs
  }

  lemma {:induction false} OneMore(s: seq<Producer>, xs: set<Option<Producer>>, x: Option<Producer>)
    requires Lists(s, xs) && (x.Some? ==> x !in xs)
    ensures Lists(s + Opt(x), xs + {x})
  {
    NoRepeatsJoined(s, Opt(x));
    assert forall p :: p in s + Opt(x) <==> p in s || x == Some(p);
  }

  lemma {:induction false} OneListed(a: Option<Producer>)
    ensures Lists(Opt(a), {a})
  {
    OneMore([], {}, a);
    assert [] + Opt(a) == Opt(a) && {} + {a} == {a};
  }

  lemma {:induction false} ThreeListed(a: Option<Producer>, b: Option<Producer>, c: Option<Producer>)
    requires Apart(a, b) && Apart(a, c) && Apart(b, c)
    ensures Lists(Opt(a) + Opt(b) + Opt(c), {a, b, c})
  {
    hide Lists, Opt;
    OneListed(a);
    OneMore(Opt(a), {a}, b);
    assert {a} + {b} == {a, b};
    OneMore(Opt(a) + Opt(b), {a, b}, c);
    assert {a, b} + {c} == {a, b, c};
  }

  lemma {:induction false} FourListed(a: Option<Producer>, b: Option<Producer>, c: Option<Producer>, d: Option<Producer>)
    requires Apart(a, b) && Apart(a, c) && Apart(b, c) && Apart(a, d) && Apart(b, d) && Apart(c, d)
    ensures Lists(Opt(a) + Opt(b) + Opt(c) + Opt(d), {a, b, c, d})
  {
    hide Lists, Opt;
    ThreeListed(a, b, c);
    OneMore(Opt(a) + Opt(b) + Opt(c), {a, b, c}, d);
    assert {a, b, c} + {d} == {a, b, c, d};
  }

  lemma {:induction false} TwoLists(
    s: seq<Producer>, xs: set<Option<Producer>>, t: seq<Producer>, ys: set<Option<Producer>>)
    requires Lists(s, xs) && Lists(t, ys) && forall x :: x in xs && x.Some? ==> x !in ys
    ensures NoRepeats(s + t)
  {
    NoRepeatsJoined(s, t);
  }

  /** The spans a reading under gateway `g` wants at the two ends of the listing. */
  datatype Ends = Ends(
    picked: Option<Producer>,
    proxy: Option<Producer>,
    service: Option<Producer>,
    origin: Option<Producer>,
    csrf: Option<Producer>,
    choice: Option<Producer>)

  function Front(g: Producer, ends: Ends): seq<Producer> {
    Opt(Some(g)) + Opt(ends.proxy) + Opt(ends.service) + Opt(ends.picked)
  }

  function Back(ends: Ends): seq<Producer> {
    Opt(ends.origin) + Opt(ends.csrf) + Opt(ends.choice)
  }

  ghost predicate OfKind(ps: seq<Producer>, x: Option<Producer>, operation: Operation) {
    x.Some? ==> x.value in ps && x.value.operation == operation
  }

  /** Each end is a span of its kind; the choice is not the span picked first. */
  ghost predicate Sorted(ps: seq<Producer>, g: Producer, ends: Ends) {
    && OfKind(ps, Some(g), GatewayServer)
    && OfKind(ps, ends.proxy, ProxyCall)
    && OfKind(ps, ends.service, OrdersServer)
    && OfKind(ps, ends.picked, Policy(BackendCheck))
    && OfKind(ps, ends.origin, Policy(OriginCheck))
    && OfKind(ps, ends.csrf, Policy(CsrfCheck))
    && OfKind(ps, ends.choice, Policy(BackendCheck))
    && Apart(ends.picked, ends.choice)
  }

  lemma {:induction false} EndsList(ps: seq<Producer>, g: Producer, ends: Ends)
    requires Sorted(ps, g, ends)
    ensures Lists(Front(g, ends), {Some(g), ends.proxy, ends.service, ends.picked})
    ensures Lists(Back(ends), {ends.origin, ends.csrf, ends.choice})
    ensures NoRepeats(Front(g, ends) + Back(ends)) && forall p :: p in Front(g, ends) + Back(ends) ==> p in ps
  {
    hide Opt, NoRepeats;
    FourListed(Some(g), ends.proxy, ends.service, ends.picked);
    ThreeListed(ends.origin, ends.csrf, ends.choice);
    TwoLists(Front(g, ends), {Some(g), ends.proxy, ends.service, ends.picked},
             Back(ends), {ends.origin, ends.csrf, ends.choice});
    var front, back := Front(g, ends), Back(ends);
    forall p | p in front + back
      ensures p in ps
    {
      assert p in front || p in back;
    }
  }

  /** At each end there is one span of each kind. */
  lemma {:induction false} EndsAreSole(ps: seq<Producer>, g: Producer, ends: Ends)
    requires Sorted(ps, g, ends)
    ensures OnePerOperation(Front(g, ends)) && OnePerOperation(Back(ends))
  {
    hide Front, Back, NoRepeats;
    EndsList(ps, g, ends);
  }

  lemma {:induction false} RoleIsOperation(p: Producer)
    ensures Role(p) == GatewayRequest <==> p.operation == GatewayServer
    ensures Role(p) == GatewayProxy <==> p.operation == ProxyCall
    ensures Role(p) == OrdersService <==> p.operation == OrdersServer
  {
  }

  /** With one span per operation, one matches any selector of a single operation. */
  lemma {:induction false} SoleSelectors(s: seq<Producer>, g: Producer)
    requires OnePerOperation(s)
    ensures Sole(s, WithRole(GatewayRequest)) && Sole(s, WithRole(OrdersService))
    ensures Sole(s, Under(GatewayProxy, Id(g)))
    ensures forall check, o :: Sole(s, Reporting(check, o))
  {
    forall p
      ensures Role(p) == GatewayRequest <==> p.operation == GatewayServer
      ensures Role(p) == GatewayProxy <==> p.operation == ProxyCall
      ensures Role(p) == OrdersService <==> p.operation == OrdersServer
    {
      RoleIsOperation(p);
    }
    hide Role, Id, ParentId;
  }

  /** The listing with those ends, and its policies under the gateway. */
  lemma {:induction false} ArrangedPolicies(ps: seq<Producer>, g: Producer, ends: Ends)
    requires DistinctIds(ps) && Sorted(ps, g, ends)
    ensures var front, back := Front(g, ends), Back(ends);
            var qs, under := Arranged(ps, front, back), Under(GatewayPolicy, Id(g));
            && SameSpans(ps, qs)
            && GatewayPolicies(qs, Some(g)) ==
               Select(front, under) + Select(Remaining(ps, front + back), under) + Select(back, under)
  {
    EndsList(ps, g, ends);
    var front, back := Front(g, ends), Back(ends);
    ArrangedIsSame(ps, front, back);
    SelectJoined(front + Remaining(ps, front + back), back, Under(GatewayPolicy, Id(g)));
    SelectJoined(front, Remaining(ps, front + back), Under(GatewayPolicy, Id(g)));
    hide Front, Back, Select;
  }

  /** `ends` serve the reading: its first spans at the front, a witness of each report at the back. */
  ghost predicate Serve(ps: seq<Producer>, r: Reading, ends: Ends) {
    r.gateway.Some?
    && var pols := GatewayPolicies(ps, r.gateway);
       && Sorted(ps, r.gateway.value, ends)
       && ends.proxy == r.proxy && ends.service == r.service
       && Witnesses(pols, OriginCheck, r.origin, ends.origin)
       && Witnesses(pols, CsrfCheck, r.csrf, ends.csrf)
       && Witnesses(pols, BackendCheck, r.choice, ends.choice)
       && (ends.picked == r.picked || (r.picked.Some? && ends.picked == None && Sole(pols, SELECTED)))
  }

  lemma {:induction false} SomeEnds(ps: seq<Producer>, r: Reading) returns (ends: Ends)
    requires Possible(ps, r) && r.gateway.Some?
    ensures Serve(ps, r, ends)
  {
    var g := r.gateway.value;
    var pols := GatewayPolicies(ps, r.gateway);
    SelectMembers(ps, Under(GatewayPolicy, Id(g)));
    hide GatewayPolicies, Any, Reports, Picks, Sole;
    var origin := SomeWitness(pols, OriginCheck, Outcome.Rejected, Outcome.Passed, r.origin);
    var csrf := SomeWitness(pols, CsrfCheck, Outcome.Rejected, Outcome.Passed, r.csrf);
    var choice := ChoiceWitness(pols, r.choice, r.picked);
    ends := Ends(if choice == r.picked then None else r.picked, r.proxy, r.service, origin, csrf, choice);
    EndsAreSorted(ps, r, ends);
  }

  lemma {:induction false} EndsAreSorted(ps: seq<Producer>, r: Reading, ends: Ends)
    requires Possible(ps, r) && r.gateway.Some?
    requires ends.picked.Some? ==> ends.picked == r.picked
    requires ends.proxy == r.proxy && ends.service == r.service && Apart(ends.picked, ends.choice)
    requires var pols := GatewayPolicies(ps, r.gateway);
             && Witnesses(pols, OriginCheck, r.origin, ends.origin)
             && Witnesses(pols, CsrfCheck, r.csrf, ends.csrf)
             && Witnesses(pols, BackendCheck, r.choice, ends.choice)
    ensures Sorted(ps, r.gateway.value, ends)
  {
    var g := r.gateway.value;
    SelectMembers(ps, Under(GatewayPolicy, Id(g)));
    RoleIsOperation(g);
    if r.proxy.Some? {
      RoleIsOperation(r.proxy.value);
    }
    if r.service.Some? {
      RoleIsOperation(r.service.value);
    }
    hide Select, Role, Id, ParentId, Reports, Any;
  }

  /** Each first span is listed at the front, alone of its kind. */
  lemma {:induction false} FrontHolds(ps: seq<Producer>, r: Reading, ends: Ends)
    requires Serve(ps, r, ends)
    ensures var g, front := r.gateway.value, Front(r.gateway.value, ends);
            && g in front && Sole(front, WithRole(GatewayRequest))
            && (r.proxy.Some? ==> r.proxy.value in front) && Sole(front, Under(GatewayProxy, Id(g)))
            && (r.service.Some? ==> r.service.value in front) && Sole(front, WithRole(OrdersService))
            && (ends.picked.Some? ==> ends.picked.value in front) && Sole(front, SELECTED)
  {
    var g := r.gateway.value;
    hide Front, Back, NoRepeats, OnePerOperation, Sole, Witnesses, GatewayPolicies, Sorted;
    EndsList(ps, g, ends);
    EndsAreSole(ps, g, ends);
    SoleSelectors(Front(g, ends), g);
  }

  /** The listing, as what is at the front and the rest. */
  lemma {:induction false} ArrangedSplits(ps: seq<Producer>, g: Producer, ends: Ends) returns (rest: seq<Producer>)
    requires DistinctIds(ps) && Sorted(ps, g, ends)
    ensures Arranged(ps, Front(g, ends), Back(ends)) == Front(g, ends) + rest
    ensures SameMembers(ps, Front(g, ends) + rest)
  {
    var front, back := Front(g, ends), Back(ends);
    ArrangedPolicies(ps, g, ends);
    hide Front, Back, Remaining, Select, Sorted;
    rest := Remaining(ps, front + back) + back;
    Associative(front, Remaining(ps, front + back), back);
    SameSpansMembers(ps, Arranged(ps, front, back));
    hide SameSpans, SameMembers;
  }

  /** The reading of the listing with those ends, part by part. */
  lemma {:induction false} FrontReads(ps: seq<Producer>, r: Reading, ends: Ends)
    requires DistinctIds(ps) && Possible(ps, r) && Serve(ps, r, ends)
    ensures var g := r.gateway.value;
            var qs := Arranged(ps, Front(g, ends), Back(ends));
            GatewayOf(qs) == Some(g) && ProxyUnder(qs, Some(g)) == r.proxy && First(qs, WithRole(OrdersService)) == r.service
  {
    hide Front, Back, Arranged, First, Matches, Sole, Sorted, Picks, Reports, Witnesses, GatewayPolicies;
    var g := r.gateway.value;
    var front := Front(g, ends);
    FrontHolds(ps, r, ends);
    var rest := ArrangedSplits(ps, g, ends);
    FrontIsFirst(ps, front, rest, WithRole(GatewayRequest), Some(g));
    FrontIsFirst(ps, front, rest, Under(GatewayProxy, Id(g)), r.proxy);
    FrontIsFirst(ps, front, rest, WithRole(OrdersService), r.service);
  }

  /** What holds of one span at the front holds of the policies there. */
  lemma {:induction false} SelectedFront(front: seq<Producer>, under: Selector, x: Option<Producer>)
    requires Sole(front, SELECTED) && (x.Some? ==> x.value in front && Matches(under, x.value))
    ensures Sole(Select(front, under), SELECTED) && (x.Some? ==> x.value in Select(front, under))
  {
    SelectMembers(front, under);
    hide Select, Matches;
  }

  lemma {:induction false} PickedIsPolicy(ps: seq<Producer>, r: Reading, ends: Ends)
    requires Possible(ps, r) && Serve(ps, r, ends)
    ensures Picks(GatewayPolicies(ps, r.gateway), SELECTED, r.picked)
    ensures r.picked.Some? ==> Matches(Under(GatewayPolicy, Id(r.gateway.value)), r.picked.value)
    ensures ends.picked != r.picked ==> Sole(GatewayPolicies(ps, r.gateway), SELECTED) && r.picked.Some? && ends.picked == None
  {
    SelectMembers(ps, Under(GatewayPolicy, Id(r.gateway.value)));
    hide Select, Matches, Reports, Witnesses, Sorted, Sole;
  }

  lemma {:induction false} PickReads(ps: seq<Producer>, r: Reading, ends: Ends)
    requires DistinctIds(ps) && Possible(ps, r) && Serve(ps, r, ends)
    ensures First(GatewayPolicies(Arranged(ps, Front(r.gateway.value, ends), Back(ends)), r.gateway), SELECTED) == r.picked
  {
    assert r.gateway.Some? && Sorted(ps, r.gateway.value, ends);
    hide *;
    PickedIsPolicy(ps, r, ends);
    FrontHolds(ps, r, ends);
    var g := r.gateway.value;
    var under, pols := Under(GatewayPolicy, Id(g)), GatewayPolicies(ps, r.gateway);
    var rest := PoliciesSplit(ps, r, ends);
    var fs := Select(Front(g, ends), under);
    SelectedFront(Front(g, ends), under, ends.picked);
    if ends.picked == r.picked {
      FrontIsFirst(pols, fs, rest, SELECTED, r.picked);
    } else {
      SoleAmongSame(pols, fs + rest, SELECTED, r.picked);
    }
  }

  /** The policies under the gateway, as those at the front and the rest. */
  lemma {:induction false} PoliciesSplit(ps: seq<Producer>, r: Reading, ends: Ends) returns (rest: seq<Producer>)
    requires DistinctIds(ps) && r.gateway.Some? && Sorted(ps, r.gateway.value, ends)
    ensures var g := r.gateway.value;
            var pols := GatewayPolicies(Arranged(ps, Front(g, ends), Back(ends)), r.gateway);
            && pols == Select(Front(g, ends), Under(GatewayPolicy, Id(g))) + rest
            && SameMembers(GatewayPolicies(ps, r.gateway), pols)
  {
    var g := r.gateway.value;
    hide *;
    var front, back := Front(g, ends), Back(ends);
    var under := Under(GatewayPolicy, Id(g));
    var middle := Select(Remaining(ps, front + back), under);
    rest := middle + Select(back, under);
    ArrangedPolicies(ps, g, ends);
    Associative(Select(front, under), middle, Select(back, under));
    SameSpansMembers(ps, Arranged(ps, front, back));
    SameGatewayPolicies(ps, Arranged(ps, front, back), Some(g));
  }

  lemma {:induction false} Associative(a: seq<Producer>, b: seq<Producer>, c: seq<Producer>)
    ensures a + b + c == a + (b + c)
  {
  }

  lemma {:induction false} SameSpansMembers(ps: seq<Producer>, qs: seq<Producer>)
    requires SameSpans(ps, qs)
    ensures SameMembers(ps, qs)
  {
  }

  lemma {:induction false} SoleAmongSame(a: seq<Producer>, b: seq<Producer>, sel: Selector, x: Option<Producer>)
    requires Sole(a, sel) && SameMembers(a, b) && x.Some? && Picks(a, sel, x)
    ensures First(b, sel) == x
  {
    hide Matches, First;
    FirstOfSole(b, sel, x.value);
  }

  lemma {:induction false} BackReads(
    ps: seq<Producer>, r: Reading, ends: Ends, check: Check, a: Outcome, b: Outcome, o: Outcome, w: Option<Producer>)
    requires DistinctIds(ps) && Possible(ps, r) && Serve(ps, r, ends) && a != Unrecorded && b != Unrecorded
    requires w in {ends.origin, ends.csrf, ends.choice}
    requires Reports(GatewayPolicies(ps, r.gateway), check, a, b, o)
    requires Witnesses(GatewayPolicies(ps, r.gateway), check, o, w)
    ensures LastOf(GatewayPolicies(Arranged(ps, Front(r.gateway.value, ends), Back(ends)), r.gateway), check, a, b) == o
  {
    var g := r.gateway.value;
    var front, back := Front(g, ends), Back(ends);
    var qs, under := Arranged(ps, front, back), Under(GatewayPolicy, Id(g));
    var x, y := Select(front, under) + Select(Remaining(ps, front + back), under), Select(back, under);
    ArrangedPolicies(ps, g, ends);
    assert GatewayPolicies(qs, Some(g)) == x + y;
    SameGatewayPolicies(ps, qs, Some(g));
    EndsList(ps, g, ends);
    EndsAreSole(ps, g, ends);
    SelectMembers(back, under);
    SelectMembers(ps, under);
    assert OnePerOperation(y);
    hide Front, Back, Remaining, Select, Matches, Reports, NoRepeats, OnePerOperation, Sorted, Arranged, Possible, LastOf;
    BackIsLast(GatewayPolicies(ps, Some(g)), x, y, check, a, b, o, w);
  }

  /** Every possible reading is the reading of some order of the spans. */
  lemma {:induction false} ReadingIsRealized(ps: seq<Producer>, r: Reading) returns (qs: seq<Producer>)
    requires DistinctIds(ps) && Possible(ps, r)
    ensures SameSpans(ps, qs) && ReadingOf(qs) == r
  {
    match r.gateway {
      case None =>
        qs := NoGatewayRealized(ps, r);
      case Some(g) =>
        var ends := SomeEnds(ps, r);
        hide Front, Back, Arranged, GatewayPolicies, LastOf, First, Reports, Witnesses, Sorted, Picks, ProxyUnder, Sole;
        qs := Arranged(ps, Front(g, ends), Back(ends));
        ArrangedPolicies(ps, g, ends);
        FrontReads(ps, r, ends);
        PickReads(ps, r, ends);
        BackReads(ps, r, ends, OriginCheck, Outcome.Rejected, Outcome.Passed, r.origin, ends.origin);
        BackReads(ps, r, ends, CsrfCheck, Outcome.Rejected, Outcome.Passed, r.csrf, ends.csrf);
        BackReads(ps, r, ends, BackendCheck, Outcome.Selected, Unavailable, r.choice, ends.choice);
    }
  }

  lemma {:induction false} NoGatewayRealized(ps: seq<Producer>, r: Reading) returns (qs: seq<Producer>)
    requires DistinctIds(ps) && Possible(ps, r) && r.gateway == None
    ensures SameSpans(ps, qs) && ReadingOf(qs) == r
  {
    hide LastOf, Remaining, Arranged, Matches, SameSpans;
    var front := Opt(r.service);
    qs := Arranged(ps, front, []);
    var rest := ServiceInFront(ps, r.service);
    SameSpansMembers(ps, qs);
    FirstPicks(qs, WithRole(GatewayRequest));
    SameAny(ps, qs);
    NoPolicies(OriginCheck, Outcome.Rejected, Outcome.Passed);
    NoPolicies(CsrfCheck, Outcome.Rejected, Outcome.Passed);
    NoPolicies(BackendCheck, Outcome.Selected, Unavailable);
    FrontIsFirst(ps, front, rest, WithRole(OrdersService), r.service);
  }

  lemma {:induction false} ServiceInFront(ps: seq<Producer>, service: Option<Producer>) returns (rest: seq<Producer>)
    requires DistinctIds(ps) && Picks(ps, WithRole(OrdersService), service)
    ensures SameSpans(ps, Arranged(ps, Opt(service), [])) && Arranged(ps, Opt(service), []) == Opt(service) + rest
    ensures service.Some? ==> service.value in Opt(service) && Sole(Opt(service), WithRole(OrdersService))
  {
    hide Remaining, Matches, DistinctIds, Any, SameSpans;
    var front := Opt(service);
    assert front + [] == front;
    ArrangedIsSame(ps, front, []);
    rest := Remaining(ps, front) + [];
  }

  // ---- The exact condition

  /** The same verdict, on the same evidence if any. */
  ghost predicate SameVerdict(a: Result<Normalized, NormalizeError>, b: Result<Normalized, NormalizeError>) {
    match (a, b)
    case (Err(e), Err(f)) => e == f
    case (Ok(NotFound), Ok(NotFound)) => true
    case (Ok(Partial(x)), Ok(Partial(y))) => SameEvidence(x, y)
    case (Ok(Available(x)), Ok(Available(y))) => SameEvidence(x, y)
    case _ => false
  }

  lemma {:induction false} JudgedIff(ps: seq<Producer>, result: RequestResult, num: NumberOf)
    ensures Judge(ps, result, num) == Err(OverLimit) <==> |ps| > MAX_TRACE_SPANS || !Fits(ps, ReadingOf(ps))
    ensures var shown := EvidenceShown(ps, result, num);
            Judge(ps, result, num) in {Err(OverLimit), Ok(Partial(shown)), Ok(Available(shown))}
  {
    hide EvidenceShown, ReadingOf, PoliciesBy, IsComplete, ShownSpans;
    EvidenceIsReading(ps, result, num);
    EvidenceFields(ps, result, num);
    assert |ShownSpans(ps)| == |ps| by {
      ShownCount(ps);
    }
  }

  lemma {:induction false} ShownCount(ps: seq<Producer>)
    ensures |ShownSpans(ps)| == |ps|
  {
  }

  /** Whether a verdict is `available` never depends on the order, whatever the spans. */
  lemma {:induction false} VerdictIgnoresOrder(
    ps: seq<Producer>, qs: seq<Producer>, result: RequestResult, num: NumberOf)
    requires SameSpans(ps, qs)
    ensures Judge(ps, result, num) == Ok(Available(EvidenceShown(ps, result, num))) <==>
            Judge(qs, result, num) == Ok(Available(EvidenceShown(qs, result, num)))
  {
    hide *;
    SameLength(ps, qs);
    SwappedSpans(ps, qs);
    if Judge(ps, result, num) == Ok(Available(EvidenceShown(ps, result, num))) {
      JudgedFits(ps, result, num);
      OrderDoesNotMatter(ps, qs, result, num);
    }
    if Judge(qs, result, num) == Ok(Available(EvidenceShown(qs, result, num))) {
      JudgedFits(qs, result, num);
      OrderDoesNotMatter(qs, ps, result, num);
    }
  }

  lemma {:induction false} AlikeFits(ps: seq<Producer>, r: Reading, t: Reading, num: NumberOf)
    requires ShowAlike(ps, r, t, num)
    ensures Fits(ps, r) <==> Fits(ps, t)
  {
    hide PoliciesBy, SelectionBy, DeliveryBy;
    assert |multiset(PoliciesBy(ps, r))| == |multiset(PoliciesBy(ps, t))|;
  }

  lemma {:induction false} SameFits(ps: seq<Producer>, qs: seq<Producer>, r: Reading, num: NumberOf)
    requires multiset(ps) == multiset(qs)
    ensures Fits(ps, r) <==> Fits(qs, r)
  {
    hide PoliciesBy, SelectionBy, DeliveryBy;
    SameShown(ps, qs, r, num);
    assert |multiset(PoliciesBy(ps, r))| == |multiset(PoliciesBy(qs, r))|;
  }

  /** Two orders of a bag that is not too large get the same verdict exactly when their readings are judged alike. */
  lemma {:induction false} SameVerdictIff(ps: seq<Producer>, qs: seq<Producer>, result: RequestResult, num: NumberOf)
    requires SameSpans(ps, qs) && |ps| <= MAX_TRACE_SPANS
    ensures SameVerdict(Judge(ps, result, num), Judge(qs, result, num)) <==>
            JudgedAlike(ps, ReadingOf(ps), ReadingOf(qs), num)
  {
    hide Judge, EvidenceShown, ReadingOf, Fits, ShowAlike, SameEvidence, SameSpans;
    SameBag(ps, qs);
    SameLength(ps, qs);
    JudgedIff(ps, result, num);
    JudgedIff(qs, result, num);
    SameFits(ps, qs, ReadingOf(qs), num);
    VerdictIgnoresOrder(ps, qs, result, num);
    SameEvidenceIff(ps, qs, result, num);
    if ShowAlike(ps, ReadingOf(ps), ReadingOf(qs), num) {
      AlikeFits(ps, ReadingOf(ps), ReadingOf(qs), num);
    }
  }

  lemma {:induction false} TooManySpans(ps: seq<Producer>, qs: seq<Producer>, result: RequestResult, num: NumberOf)
    requires SameSpans(ps, qs) && |ps| > MAX_TRACE_SPANS
    ensures SameVerdict(Judge(ps, result, num), Judge(qs, result, num))
  {
    hide Judge, EvidenceShown, ReadingOf, Fits, SameSpans;
    SameLength(ps, qs);
    JudgedIff(ps, result, num);
    JudgedIff(qs, result, num);
  }

  /** The bag is refused in every order, or all its possible readings are judged alike. */
  ghost predicate OrderIsIrrelevant(ps: seq<Producer>, num: NumberOf) {
    |ps| > MAX_TRACE_SPANS || forall r, t :: Possible(ps, r) && Possible(ps, t) ==> JudgedAlike(ps, r, t, num)
  }

  /**
   The verdict on a bag of spans, with its evidence, is independent of the order they are listed in exactly when
   the bag has too many spans or all its possible readings are judged alike.
   */
  lemma {:induction false} OrderIsIrrelevantIff(ps: seq<Producer>, result: RequestResult, num: NumberOf)
    requires DistinctIds(ps)
    ensures (forall qs :: SameSpans(ps, qs) ==> SameVerdict(Judge(ps, result, num), Judge(qs, result, num))) <==>
            OrderIsIrrelevant(ps, num)
  {
    hide Possible, JudgedAlike, SameVerdict, Judge, ReadingOf, SameSpans;
    if |ps| > MAX_TRACE_SPANS {
      forall qs | SameSpans(ps, qs)
        ensures SameVerdict(Judge(ps, result, num), Judge(qs, result, num))
      {
        TooManySpans(ps, qs, result, num);
      }
    } else {
      if OrderIsIrrelevant(ps, num) {
        forall qs | SameSpans(ps, qs)
          ensures SameVerdict(Judge(ps, result, num), Judge(qs, result, num))
        {
          ReadingsArePossible(ps, qs);
          SameVerdictIff(ps, qs, result, num);
        }
      }
      if forall qs :: SameSpans(ps, qs) ==> SameVerdict(Judge(ps, result, num), Judge(qs, result, num)) {
        forall r, t | Possible(ps, r) && Possible(ps, t)
          ensures JudgedAlike(ps, r, t, num)
        {
          var qs := ReadingIsRealized(ps, r);
          var us := ReadingIsRealized(ps, t);
          SameVerdictIff(ps, qs, result, num);
          SameVerdictIff(ps, us, result, num);
          AlikeThrough(ps, ReadingOf(ps), r, t, num);
        }
      }
    }
  }

  lemma {:induction false} ReadingsArePossible(ps: seq<Producer>, qs: seq<Producer>)
    requires SameSpans(ps, qs)
    ensures Possible(ps, ReadingOf(ps)) && Possible(ps, ReadingOf(qs))
  {
    hide *;
    ReadingIsPossible(ps);
    ReadingIsPossible(qs);
    SwappedSpans(ps, qs);
    SameSpansMembers(qs, ps);
    SamePossible(qs, ps, ReadingOf(qs));
  }

  lemma {:induction false} AlikeThrough(ps: seq<Producer>, s: Reading, r: Reading, t: Reading, num: NumberOf)
    requires JudgedAlike(ps, s, r, num) && JudgedAlike(ps, s, t, num)
    ensures JudgedAlike(ps, r, t, num)
  {
    hide PoliciesBy, SelectionBy, DeliveryBy, Fits;
    if ShowAlike(ps, s, r, num) {
      AlikeFits(ps, s, r, num);
    }
    if ShowAlike(ps, s, t, num) {
      AlikeFits(ps, s, t, num);
    }
  }

  /** The same over payloads: where all readings are judged alike, grouping and order change nothing. */
  lemma {:induction false} PayloadOrderIsIrrelevant(
    p: Json, q: Json, traceId: string, result: RequestResult, num: NumberOf)
    requires EnvelopeFormed(p) && EnvelopeFormed(q) && multiset(Entries(p)) == multiset(Entries(q))
    requires Parse(p, traceId).Ok? && OrderIsIrrelevant(Parse(p, traceId).value.spans, num)
    ensures SameVerdict(Normalize(p, traceId, result, num), Normalize(q, traceId, result, num))
  {
    hide Parse, EnvelopeFormed, Entries, Judge, OrderIsIrrelevant, DistinctIds;
    SameBagParses(p, q, traceId);
    ParsedDistinct(p, traceId);
    ParsedDistinct(q, traceId);
    OrderIsIrrelevantIff(Parse(p, traceId).value.spans, result, num);
  }

  /** A bag without a gateway span, or in which the gateway's spans are one of each kind, is shown the same in any order. */
  lemma {:induction false} EvidenceIgnoresOrder(
    ps: seq<Producer>, qs: seq<Producer>, result: RequestResult, num: NumberOf)
    requires SameSpans(ps, qs)
    requires forall g :: g in ps && Role(g) == GatewayRequest ==> Unambiguous(ps, g)
    ensures SameEvidence(EvidenceShown(ps, result, num), EvidenceShown(qs, result, num))
    ensures SameVerdict(Judge(ps, result, num), Judge(qs, result, num))
  {
    UnambiguousEvidence(ps, qs, result, num);
    hide *;
    SameBag(ps, qs);
    SameEvidenceIff(ps, qs, result, num);
    if |ps| > MAX_TRACE_SPANS {
      TooManySpans(ps, qs, result, num);
    } else {
      SameVerdictIff(ps, qs, result, num);
      ShownAlikeIsJudgedAlike(ps, ReadingOf(ps), ReadingOf(qs), num);
    }
  }

  lemma {:induction false} ShownAlikeIsJudgedAlike(ps: seq<Producer>, r: Reading, t: Reading, num: NumberOf)
    requires ShowAlike(ps, r, t, num)
    ensures JudgedAlike(ps, r, t, num)
  {
    hide ShowAlike, Fits;
  }

  lemma {:induction false} UnambiguousEvidence(
    ps: seq<Producer>, qs: seq<Producer>, result: RequestResult, num: NumberOf)
    requires SameSpans(ps, qs)
    requires forall g :: g in ps && Role(g) == GatewayRequest ==> Unambiguous(ps, g)
    ensures SameEvidence(EvidenceShown(ps, result, num), EvidenceShown(qs, result, num))
  {
    hide First, SameEvidence, EvidenceShown, Unambiguous, SameSpans;
    FirstMatches(ps, WithRole(GatewayRequest));
    FirstMatches(qs, WithRole(GatewayRequest));
    SameSpansMembers(ps, qs);
    match GatewayOf(ps) {
      case Some(g) =>
        UnambiguousSame(ps, qs, g);
        FirstOfSoleGateway(qs, g);
        SameEvidenceShown(ps, qs, g, result, num);
      case None =>
        assert GatewayOf(qs) == None;
        NoGatewayShowsNothing(ps, qs, num);
        SameBag(ps, qs);
        SameEvidenceIff(ps, qs, result, num);
    }
  }

  lemma {:induction false} UnambiguousSame(ps: seq<Producer>, qs: seq<Producer>, g: Producer)
    requires SameSpans(ps, qs) && Unambiguous(ps, g)
    ensures Unambiguous(qs, g)
  {
    hide Matches;
  }

  lemma {:induction false} NoGatewayShowsNothing(ps: seq<Producer>, qs: seq<Producer>, num: NumberOf)
    requires GatewayOf(ps) == None && GatewayOf(qs) == None
    ensures ShowAlike(ps, ReadingOf(ps), ReadingOf(qs), num)
  {
    hide First, ServerFailed, Direct, LastOf;
    NoPolicies(OriginCheck, Outcome.Rejected, Outcome.Passed);
    NoPolicies(CsrfCheck, Outcome.Rejected, Outcome.Passed);
    NoPolicies(BackendCheck, Outcome.Selected, Unavailable);
  }

  lemma {:induction false} SwappedSpans(ps: seq<Producer>, qs: seq<Producer>)
    requires SameSpans(ps, qs)
    ensures SameSpans(qs, ps)
  {
  }

  /** A span of a gateway that did not record anything else. */
  function BareSpan(id: string, parent: string, operation: Operation, outcome: Outcome): Producer {
    Producer(id, parent, operation, Evidence(outcome, None, None, None), 1, 1)
  }

  /** With two gateway spans the first one listed counts, and what is shown can change with the order. */
  lemma {:induction false} AmbiguousOrderMatters(result: RequestResult, num: NumberOf)
    ensures var g1, g2 := BareSpan("1", "", GatewayServer, Unrecorded), BareSpan("2", "", GatewayServer, Unrecorded);
            var b := BareSpan("3", "1", Policy(BackendCheck), Unavailable);
            && SameSpans([g1, g2, b], [g2, g1, b])
            && EvidenceShown([g1, g2, b], result, num).replicaSelection == NotSelected
            && EvidenceShown([g2, g1, b], result, num).replicaSelection == SelectionUnknown
  {
    var g1, g2 := BareSpan("1", "", GatewayServer, Unrecorded), BareSpan("2", "", GatewayServer, Unrecorded);
    var b := BareSpan("3", "1", Policy(BackendCheck), Unavailable);
    assert Lower("1")[0] == '1' && Lower("2")[0] == '2' && Lower("3")[0] == '3';
    assert Id(g1) != Id(g2) && Id(g1) != Id(b) && Id(g2) != Id(b) && ParentId(b) == Id(g1);
    hide Lower, BareSpan, EvidenceShown, Id, ParentId;
    ThreeDistinct(g1, g2, b);
    SelectionOfThree(g1, g2, b, result, num);
    SelectionOfThree(g2, g1, b, result, num);
  }

  lemma {:induction false} ThreeDistinct(g: Producer, h: Producer, b: Producer)
    requires Id(g) != Id(h) && Id(g) != Id(b) && Id(h) != Id(b)
    ensures SameSpans([g, h, b], [h, g, b])
  {
    hide Lower;
  }

  lemma {:induction false} SelectionOfThree(
    g: Producer, h: Producer, b: Producer, result: RequestResult, num: NumberOf)
    requires Role(g) == GatewayRequest && Role(h) == GatewayRequest
    requires b.operation == Policy(BackendCheck) && b.evidence.outcome == Unavailable
    ensures EvidenceShown([g, h, b], result, num).replicaSelection ==
            if ParentId(b) == Id(g) then NotSelected else SelectionUnknown
  {
    TwoGateways(g, h, b);
    var ps := [g, h, b];
    var pols := GatewayPolicies(ps, Some(g));
    hide Id, ParentId, ShownSpans, PolicyOutcomesOf, DeliveryOf, GatewayPolicies, First, ProxyUnder, IsPublicReplicaId, Matches;
    assert EvidenceShown(ps, result, num).replicaSelection == SelectionOf(pols);
    hide EvidenceShown;
    ReportsUnavailable(b);
    assert ParentId(b) == Id(g) ==> b in pols;
  }

  lemma {:induction false} ReportsUnavailable(b: Producer)
    requires b.operation == Policy(BackendCheck) && b.evidence.outcome == Unavailable
    ensures Matches(Reporting(BackendCheck, Unavailable), b)
  {
    hide Id, ParentId;
  }

  lemma {:induction false} TwoGateways(g: Producer, h: Producer, b: Producer)
    requires Role(g) == GatewayRequest && Role(h) == GatewayRequest && Role(b) == GatewayPolicy
    requires b.evidence.outcome == Unavailable
    ensures var pols := if ParentId(b) == Id(g) then [b] else [];
            && GatewayOf([g, h, b]) == Some(g) && GatewayPolicies([g, h, b], Some(g)) == pols
            && First(pols, SELECTED) == None
  {
    var ps, under := [g, h, b], Under(GatewayPolicy, Id(g));
    assert ps[1..] == [h, b] && [h, b][1..] == [b] && [b][1..] == [];
    assert Select([b], under) == if ParentId(b) == Id(g) then [b] else [];
    assert Select([h, b], under) == Select([b], under);
    assert First([b], SELECTED) == First([], SELECTED);
  }

  // ---- A bag that is refused in one order only

  /** Identifiers that differ in length. */
  function Ones(n: nat): (id: string)
    ensures |id| == n
  {
    seq(n, i => '1')
  }

  function AdmittedSpan(length: nat, parent: string): Producer {
    BareSpan(Ones(length), parent, Policy(RateLimitCheck), Admitted)
  }

  predicate AllAdmitted(xs: seq<Producer>, parent: string) {
    forall x :: x in xs ==> x.operation == Policy(RateLimitCheck) && x.evidence.outcome == Admitted && ParentId(x) == parent
  }

  lemma {:induction false} AdmittedUnder(xs: seq<Producer>, parent: string, id: string)
    requires AllAdmitted(xs, parent)
    ensures Select(xs, Under(GatewayPolicy, id)) == if parent == id then xs else []
  {
    hide ParentId;
    if xs != [] {
      AdmittedUnder(xs[1..], parent, id);
      assert [xs[0]] + xs[1..] == xs;
    }
  }

  lemma {:induction false} AdmittedCount(xs: seq<Producer>, parent: string)
    requires AllAdmitted(xs, parent)
    ensures |Directs(xs)| == |xs|
  {
    hide ParentId;
    if xs != [] {
      AdmittedCount(xs[..|xs| - 1], parent);
      assert xs[|xs| - 1] in xs;
    }
  }

  /** Of two gateway spans the first decides which of two groups of admitted requests is shown. */
  lemma {:induction false} ShownCountIs(a: Producer, b: Producer, xs: seq<Producer>, c: Producer, x: string, y: string)
    requires Role(a) == GatewayRequest && Role(b) == GatewayRequest
    requires AllAdmitted(xs, x) && AllAdmitted([c], y) && x != y && Id(a) in {x, y}
    ensures var ps := [a, b] + xs + [c];
            var n := if Id(a) == x then |xs| else 1;
            n <= |PoliciesBy(ps, ReadingOf(ps))| <= n + 2
  {
    hide Id, ParentId, Role, AllAdmitted, Directs, LastOf, First, Select, Matches;
    var ps, under := [a, b] + xs + [c], Under(GatewayPolicy, Id(a));
    SelectJoined([a, b] + xs, [c], under);
    SelectJoined([a, b], xs, under);
    TwoFirst(a, b, xs + [c], under);
    assert ps == [a, b] + (xs + [c]);
    AdmittedUnder(xs, x, Id(a));
    AdmittedUnder([c], y, Id(a));
    AdmittedCount(xs, x);
    AdmittedCount([c], y);
    var pols := GatewayPolicies(ps, Some(a));
    assert [] + xs + [] == xs && [] + [] + [c] == [c];
    assert pols == if Id(a) == x then xs else [c];
  }

  lemma {:induction false} TwoFirst(a: Producer, b: Producer, rest: seq<Producer>, under: Selector)
    requires Role(a) == GatewayRequest && Role(b) == GatewayRequest && under == Under(GatewayPolicy, Id(a))
    ensures GatewayOf([a, b] + rest) == Some(a)
    ensures Select([a, b], under) == []
  {
    hide Id, ParentId, Role;
    assert [a, b][1..] == [b] && [b][1..] == [];
    assert ([a, b] + rest)[0] == a;
    assert !Matches(under, a) && !Matches(under, b);
    assert Select([b], under) == Select([], under) == [];
  }

  /** Nine admitted requests under one gateway span and one under another, the gateway spans in this order. */
  function Crowd(a: Producer, b: Producer): seq<Producer> {
    [a, b] + seq(9, i requires 0 <= i < 9 => AdmittedSpan(i + 4, Ones(1))) + [AdmittedSpan(3, Ones(2))]
  }

  /**
   Listed with the busy gateway span in front such a bag is refused, for its evidence is over the limit; listed with
   the other one in front it is shown.
   */
  lemma {:induction false} OrderCanRefuse(result: RequestResult, num: NumberOf)
    ensures var g, h := BareSpan(Ones(1), "", GatewayServer, Unrecorded), BareSpan(Ones(2), "", GatewayServer, Unrecorded);
            && SameSpans(Crowd(g, h), Crowd(h, g))
            && Judge(Crowd(g, h), result, num) == Err(OverLimit)
            && Judge(Crowd(h, g), result, num).Ok?
  {
    var g, h := BareSpan(Ones(1), "", GatewayServer, Unrecorded), BareSpan(Ones(2), "", GatewayServer, Unrecorded);
    CrowdIsSame(g, h);
    CrowdShown(g, h);
    hide Crowd, Ones, Judge, ReadingOf, SameSpans, PoliciesBy;
    CrowdCount(g, h);
    SameLength(Crowd(g, h), Crowd(h, g));
    JudgedIff(Crowd(g, h), result, num);
    JudgedIff(Crowd(h, g), result, num);
  }

  lemma {:induction false} CrowdCount(a: Producer, b: Producer)
    ensures |Crowd(a, b)| == 12
  {
  }

  lemma {:induction false} CrowdShown(g: Producer, h: Producer)
    requires Role(g) == GatewayRequest && Role(h) == GatewayRequest && g.spanId == Ones(1) && h.spanId == Ones(2)
    ensures !Fits(Crowd(g, h), ReadingOf(Crowd(g, h))) && Fits(Crowd(h, g), ReadingOf(Crowd(h, g)))
  {
    hide Ones, ReadingOf, PoliciesBy, Lower, Role;
    var xs, c := seq(9, i requires 0 <= i < 9 => AdmittedSpan(i + 4, Ones(1))), AdmittedSpan(3, Ones(2));
    assert |Id(g)| == 1 && |Id(h)| == 2;
    assert AllAdmitted(xs, Id(g)) && AllAdmitted([c], Id(h));
    ShownCountIs(g, h, xs, c, Id(g), Id(h));
    ShownCountIs(h, g, xs, c, Id(g), Id(h));
  }

  lemma {:induction false} CrowdIsSame(g: Producer, h: Producer)
    requires |g.spanId| == 1 && |h.spanId| == 2
    ensures SameSpans(Crowd(g, h), Crowd(h, g))
  {
    hide Ones, Lower, DistinctIds;
    LengthsDiffer(Crowd(g, h));
    LengthsDiffer(Crowd(h, g));
    forall p
      ensures p in Crowd(g, h) <==> p in Crowd(h, g)
    {
      assert p in [g, h] <==> p in [h, g];
    }
  }

  lemma {:induction false} LengthsDiffer(ps: seq<Producer>)
    requires forall i, j :: 0 <= i < j < |ps| ==> |ps[i].spanId| != |ps[j].spanId|
    ensures DistinctIds(ps)
  {
    hide Lower;
  }
}
