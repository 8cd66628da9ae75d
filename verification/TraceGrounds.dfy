/**
 What an available verdict rests on, told from the fields of the recorded spans alone. This is the account a reader
 would give of a trace; it shares no definition with the normalizer but the lower-casing of identifiers.
 */
module TraceGrounds {
  import opened Common
  import opened Text
  import opened Json
  import opened RequestFlow
  import opened SpanForest
  import opened JaegerParser
  import opened ParserAcceptance
  import opened TraceNormalizer
  import opened TraceVerdict

  /** `p` was recorded directly under `g`. */
  predicate IsChild(p: Producer, g: Producer) {
    Lower(p.parentSpanId) == Lower(g.spanId)
  }

  /** The status a span shows: a number, or a text that reads as that number. The newer attribute is the one that counts. */
  predicate HasStatus(p: Producer, num: NumberOf, status: int) {
    var shown := if p.evidence.responseStatus.Some? then p.evidence.responseStatus else p.evidence.legacyStatus;
    match shown
    case Some(JNumber(x)) => x == status as real
    case Some(JString(s)) => num(s) == Some(status as real)
    case _ => false
  }

  ghost predicate HasServerError(p: Producer, num: NumberOf) {
    exists status: int :: status >= 500 && HasStatus(p, num, status)
  }

  /** A check recorded under `g` with the given outcome. */
  ghost predicate Says(ps: seq<Producer>, g: Producer, check: Check, outcome: Outcome) {
    exists p :: p in ps && IsChild(p, g) && p.operation == Policy(check) && p.evidence.outcome == outcome
  }

  /** Letters, digits, dots, dashes and underscores, up to 64 of them, led by a letter or a digit. */
  predicate IsPublicName(s: string) {
    && 0 < |s| < 65 && s[0] !in {'.', '_', '-'}
    && forall i :: 0 <= i < |s| ==>
         'a' <= s[i] <= 'z' || 'A' <= s[i] <= 'Z' || '0' <= s[i] <= '9' || s[i] in {'.', '_', '-'}
  }

  /** The recorded selection names the replica. */
  ghost predicate Names(ps: seq<Producer>, g: Producer, replica: string) {
    && IsPublicName(replica)
    && exists b :: && b in ps && IsChild(b, g) && b.operation == Policy(BackendCheck)
                   && b.evidence.outcome == Outcome.Selected && b.evidence.replica == Some(JString(replica))
  }

  /** A proxy call under `g`, and a service under that call. */
  ghost predicate ServedUnder(ps: seq<Producer>, g: Producer) {
    exists x, s :: && x in ps && x.operation == ProxyCall && IsChild(x, g)
                   && s in ps && s.operation == OrdersServer && IsChild(s, x)
  }

  /** Every check passed, a replica was chosen, and the service was reached through the proxy. */
  ghost predicate Delivers(ps: seq<Producer>, g: Producer) {
    && ServedUnder(ps, g)
    && (Says(ps, g, RateLimitCheck, Admitted) || Says(ps, g, RateLimitCheck, Outcome.Disabled))
    && Says(ps, g, OriginCheck, Outcome.Passed) && Says(ps, g, CsrfCheck, Outcome.Passed)
    && Says(ps, g, AuthenticationCheck, Authenticated) && Says(ps, g, RouteCheck, Outcome.Matched)
    && Says(ps, g, BackendCheck, Outcome.Selected)
    && exists replica :: Names(ps, g, replica)
  }

  ghost predicate NoService(ps: seq<Producer>) {
    forall p :: p in ps ==> p.operation != OrdersServer
  }

  /** The proxy call shows a server error, and no service recorded anything. */
  ghost predicate Fails(ps: seq<Producer>, g: Producer, num: NumberOf) {
    && NoService(ps)
    && exists x :: x in ps && x.operation == ProxyCall && IsChild(x, g) && HasServerError(x, num)
  }

  /** A check that ends a request. */
  predicate EndsRequest(p: Producer) {
    && p.operation.Policy?
    && (|| p.evidence.outcome in {Outcome.NotMatched, Unavailable, ProxyUnavailable}
        || (p.evidence.outcome == Outcome.Rejected
            && p.operation.check in {RateLimitCheck, OriginCheck, CsrfCheck, AuthenticationCheck}))
  }

  /** A check ended the request before any proxy call. */
  ghost predicate Stops(ps: seq<Producer>, g: Producer) {
    && NoService(ps)
    && (forall x :: x in ps && x.operation == ProxyCall ==> !IsChild(x, g))
    && exists p :: p in ps && IsChild(p, g) && EndsRequest(p)
  }

  /** One gateway span, at most one proxy call and one service span, and one span of each check under the gateway. */
  ghost predicate OneOfEach(ps: seq<Producer>, g: Producer) {
    && (forall x, y :: x in ps && y in ps && x.operation == y.operation && !x.operation.Policy? ==> x == y)
    && (forall x, y | x in ps && y in ps && IsChild(x, g) && IsChild(y, g) ::
          x.operation == y.operation && x.operation.Policy? ==> x == y)
  }

  /** Every parent named is among the spans, the gateway's own aside, and every service is under a proxy call under `g`. */
  ghost predicate Connected(ps: seq<Producer>, g: Producer) {
    && (forall p :: p in ps && p.operation != GatewayServer && p.parentSpanId != "" ==>
          exists q :: q in ps && IsChild(p, q))
    && (forall s :: s in ps && s.operation == OrdersServer ==>
          exists x :: x in ps && x.operation == ProxyCall && IsChild(x, g) && IsChild(s, x))
  }

  /** What makes a trace complete: rooted in a gateway span with the status the client saw, and nothing left open. */
  ghost predicate Grounds(ps: seq<Producer>, g: Producer, status: int, num: NumberOf) {
    && g in ps && g.operation == GatewayServer && HasStatus(g, num, status)
    && OneOfEach(ps, g) && Connected(ps, g)
    && (Delivers(ps, g) || Fails(ps, g, num) || Stops(ps, g))
  }

  // ---- The two accounts agree

  lemma {:induction false} StatusIs(p: Producer, num: NumberOf, status: int)
    ensures StatusCode(p, num) == Some(status) <==> HasStatus(p, num, status)
  {
  }

  lemma {:induction false} ServerErrorIs(p: Producer, num: NumberOf)
    ensures ServerFailed(p, num) <==> HasServerError(p, num)
  {
    var status := StatusCode(p, num);
    if status.Some? {
      StatusIs(p, num, status.value);
    }
    if n: int :| n >= 500 && HasStatus(p, num, n) {
      StatusIs(p, num, n);
    }
    hide StatusCode, HasStatus;
  }

  lemma {:induction false} PublicNameIs(s: string)
    ensures IsPublicReplicaId(s) <==> IsPublicName(s)
  {
  }

  lemma {:induction false} ChildIs(p: Producer, g: Producer)
    ensures IsProxyUnder(p, g) <==> p.operation == ProxyCall && IsChild(p, g)
    ensures IsPolicyUnder(p, g) <==> p.operation.Policy? && IsChild(p, g)
    ensures Role(p) == GatewayRequest <==> p.operation == GatewayServer
    ensures Role(p) == OrdersService <==> p.operation == OrdersServer
    ensures Role(p) == GatewayProxy <==> p.operation == ProxyCall
    ensures forall check, outcome :: Matches(Reporting(check, outcome), p) <==>
                                     p.operation == Policy(check) && p.evidence.outcome == outcome
    ensures forall role :: Matches(WithRole(role), p) <==> Role(p) == role
    ensures IsTerminal(p) && p.operation.Policy? <==> EndsRequest(p)
    ensures forall q :: ParentId(p) == Id(q) <==> IsChild(p, q)
  {
    hide Lower;
  }

  lemma {:induction false} ChildrenAre()
    ensures forall p, g :: IsProxyUnder(p, g) <==> p.operation == ProxyCall && IsChild(p, g)
    ensures forall p, g :: IsPolicyUnder(p, g) <==> p.operation.Policy? && IsChild(p, g)
    ensures forall p, q :: ParentId(p) == Id(q) <==> IsChild(p, q)
    ensures forall p :: IsTerminal(p) && p.operation.Policy? <==> EndsRequest(p)
  {
    forall p, g
      ensures IsProxyUnder(p, g) <==> p.operation == ProxyCall && IsChild(p, g)
      ensures IsPolicyUnder(p, g) <==> p.operation.Policy? && IsChild(p, g)
      ensures ParentId(p) == Id(g) <==> IsChild(p, g)
      ensures IsTerminal(p) && p.operation.Policy? <==> EndsRequest(p)
    {
      ChildIs(p, g);
    }
  }

  lemma {:induction false} RolesAre()
    ensures forall p :: Role(p) == GatewayRequest <==> p.operation == GatewayServer
    ensures forall p :: Role(p) == OrdersService <==> p.operation == OrdersServer
    ensures forall p :: Role(p) == GatewayProxy <==> p.operation == ProxyCall
    ensures forall p, role :: Matches(WithRole(role), p) <==> Role(p) == role
    ensures forall p, check, outcome :: Matches(Reporting(check, outcome), p) <==>
                                        p.operation == Policy(check) && p.evidence.outcome == outcome
  {
    forall p: Producer
      ensures Role(p) == GatewayRequest <==> p.operation == GatewayServer
      ensures Role(p) == OrdersService <==> p.operation == OrdersServer
      ensures Role(p) == GatewayProxy <==> p.operation == ProxyCall
      ensures forall role :: Matches(WithRole(role), p) <==> Role(p) == role
      ensures forall check, outcome :: Matches(Reporting(check, outcome), p) <==>
                                       p.operation == Policy(check) && p.evidence.outcome == outcome
    {
      ChildIs(p, p);
    }
  }

  lemma {:induction false} SaysIs(ps: seq<Producer>, g: Producer, check: Check, outcome: Outcome)
    ensures ReportedUnder(ps, g, check, outcome) <==> Says(ps, g, check, outcome)
  {
    ChildrenAre();
    RolesAre();
    hide IsChild, IsPolicyUnder, Matches;
  }

  lemma {:induction false} NamesIs(ps: seq<Producer>, g: Producer, replica: string)
    ensures ReplicaNamed(ps, g, replica) <==> Names(ps, g, replica)
  {
    PublicNameIs(replica);
    ChildrenAre();
    RolesAre();
    hide IsChild, IsPolicyUnder, Matches, IsPublicName, IsPublicReplicaId;
  }

  lemma {:induction false} DeliversIs(ps: seq<Producer>, g: Producer)
    ensures WasDelivered(ps, g) <==> Delivers(ps, g)
  {
    forall check, outcome
      ensures ReportedUnder(ps, g, check, outcome) <==> Says(ps, g, check, outcome)
    {
      SaysIs(ps, g, check, outcome);
    }
    forall replica
      ensures ReplicaNamed(ps, g, replica) <==> Names(ps, g, replica)
    {
      NamesIs(ps, g, replica);
    }
    ServedIs(ps, g);
    hide ReportedUnder, Says, ReplicaNamed, Names, Chained, ServedUnder;
  }

  lemma {:induction false} ServedIs(ps: seq<Producer>, g: Producer)
    ensures Chained(ps, g) <==> ServedUnder(ps, g)
  {
    ChildrenAre();
    RolesAre();
    hide IsChild, IsProxyUnder, Matches, Role, ParentId, Id;
  }

  lemma {:induction false} EndingsAre(ps: seq<Producer>, g: Producer, num: NumberOf)
    ensures HasFailed(ps, g, num) <==> Fails(ps, g, num)
    ensures WasStopped(ps, g) <==> Stops(ps, g)
  {
    ChildrenAre();
    RolesAre();
    forall p
      ensures ServerFailed(p, num) <==> HasServerError(p, num)
    {
      ServerErrorIs(p, num);
    }
    hide IsChild, IsProxyUnder, IsPolicyUnder, Matches, Role, ServerFailed, HasServerError, IsTerminal, EndsRequest;
  }

  lemma {:induction false} ClearIs(ps: seq<Producer>, g: Producer)
    ensures Unambiguous(ps, g) <==> OneOfEach(ps, g)
  {
    ChildrenAre();
    RolesAre();
    hide IsChild, IsPolicyUnder, Matches, Role;
  }

  lemma {:induction false} ConnectedIs(ps: seq<Producer>, g: Producer)
    ensures ParentageComplete(ps)
            && (forall s :: s in ps && Role(s) == OrdersService ==>
                  exists x :: x in ps && IsProxyUnder(x, g) && ParentId(s) == Id(x))
            <==> Connected(ps, g)
  {
    ChildrenAre();
    RolesAre();
    hide IsChild, IsProxyUnder, Matches, Role, ParentId, Id;
  }

  lemma {:induction false} GroundsIff(ps: seq<Producer>, g: Producer, status: int, num: NumberOf)
    ensures ConclusiveAt(ps, g, status, num) <==> Grounds(ps, g, status, num)
  {
    StatusIs(g, num, status);
    ChildIs(g, g);
    ClearIs(ps, g);
    ConnectedIs(ps, g);
    DeliversIs(ps, g);
    EndingsAre(ps, g, num);
    hide StatusCode, HasStatus, Unambiguous, OneOfEach, ParentageComplete, Connected, IsProxyUnder, ParentId, Id,
         WasDelivered, Delivers, HasFailed, Fails, WasStopped, Stops, Role;
  }

  // ---- The verdict

  /** What is reported of the way the trace ended. */
  ghost predicate Tells(ps: seq<Producer>, g: Producer, num: NumberOf, trace: TraceEvidence) {
    && (Delivers(ps, g) ==>
        exists replica :: && Names(ps, g, replica) && trace.replicaSelection == ReplicaSelection.Selected(replica)
                          && trace.delivery == Delivered(replica))
    && (Fails(ps, g, num) ==> trace.delivery == Failed)
    && (Stops(ps, g) ==>
          trace.delivery == if Says(ps, g, BackendCheck, Unavailable) || Says(ps, g, BackendCheck, ProxyUnavailable)
                            then NotAttempted else DeliveryUnknown)
  }

  lemma {:induction false} TellsIs(ps: seq<Producer>, g: Producer, num: NumberOf, trace: TraceEvidence)
    requires ReportedFaithfully(ps, g, trace, num)
    ensures Tells(ps, g, num, trace)
  {
    DeliversIs(ps, g);
    EndingsAre(ps, g, num);
    SaysIs(ps, g, BackendCheck, Unavailable);
    SaysIs(ps, g, BackendCheck, ProxyUnavailable);
    if trace.replicaSelection.Selected? {
      NamesIs(ps, g, trace.replicaSelection.replicaId);
    }
    hide WasDelivered, Delivers, HasFailed, Fails, WasStopped, Stops, Says, ReportedUnder, Names, ReplicaNamed;
  }

  /**
   For spans with distinct identifiers, and no more than 64 of them, a verdict is available exactly when a gateway span
   with the status the client saw grounds the trace; it then rests on exactly one of the three endings, and tells it.
   */
  lemma {:induction false} AvailableOnGrounds(ps: seq<Producer>, result: RequestResult, num: NumberOf)
    requires DistinctIds(ps)
    ensures (exists trace :: Judge(ps, result, num) == Ok(Available(trace))) <==>
            |ps| <= 64 && !result.ConnectionFailure? && exists g :: Grounds(ps, g, result.statusCode, num)
    ensures forall trace :: Judge(ps, result, num) == Ok(Available(trace)) ==>
              exists g :: && Grounds(ps, g, result.statusCode, num) && Tells(ps, g, num, trace)
                          && ExactlyOne(Delivers(ps, g), Fails(ps, g, num), Stops(ps, g))
  {
    hide Judge, Grounds, Tells, Delivers, Fails, Stops, ConclusiveAt, DistinctIds, EvidenceShown, WasDelivered, HasFailed,
         WasStopped, ReportedFaithfully;
    if |ps| <= 64 {
      AvailableIff(ps, result, num);
    }
    forall g, status
      ensures ConclusiveAt(ps, g, status, num) <==> Grounds(ps, g, status, num)
    {
      GroundsIff(ps, g, status, num);
    }
    forall trace | Judge(ps, result, num) == Ok(Available(trace))
      ensures |ps| <= 64 && !result.ConnectionFailure?
      ensures exists g :: && Grounds(ps, g, result.statusCode, num) && Tells(ps, g, num, trace)
                          && ExactlyOne(Delivers(ps, g), Fails(ps, g, num), Stops(ps, g))
    {
      JudgedFits(ps, result, num);
      VerdictIsSound(ps, result, num, trace);
      var g :| && ConclusiveAt(ps, g, result.statusCode, num) && ReportedFaithfully(ps, g, trace, num)
               && ExactlyOne(WasDelivered(ps, g), HasFailed(ps, g, num), WasStopped(ps, g));
      TellsIs(ps, g, num, trace);
      DeliversIs(ps, g);
      EndingsAre(ps, g, num);
    }
  }

  /** Evidence is refused exactly when there are more than 64 spans or more than eight policies to show. */
  lemma {:induction false} RefusedIff(ps: seq<Producer>, result: RequestResult, num: NumberOf)
    ensures Judge(ps, result, num).Err? <==> |ps| > 64 || |EvidenceShown(ps, result, num).policies| > 8
    ensures Judge(ps, result, num).Err? ==> Judge(ps, result, num) == Err(OverLimit)
  {
    hide PolicyOutcomesOf, First, DeliveryOf, GatewayPolicies, SelectionOf, ProxyUnder, ShownSpan, IsComplete;
  }

  /**
   Over every JSON payload: the verdict is available exactly when the payload parses to spans that are grounded in a
   gateway span with the client's status.
   */
  lemma {:induction false} PayloadOnGrounds(payload: Json, traceId: string, result: RequestResult, num: NumberOf)
    ensures (exists trace :: Normalize(payload, traceId, result, num) == Ok(Available(trace))) <==>
            && NonZeroHex(traceId, 32) && result.traceId == Lower(traceId) && Parse(payload, traceId).Ok?
            && var ps := Parse(payload, traceId).value.spans;
               |ps| <= 64 && !result.ConnectionFailure? && exists g :: Grounds(ps, g, result.statusCode, num)
  {
    hide Parse, Judge, Grounds, NonZeroHex, DistinctIds, Accepts;
    if Parse(payload, traceId).Ok? {
      ParsedDistinct(payload, traceId);
      var ps := Parse(payload, traceId).value.spans;
      AvailableOnGrounds(ps, result, num);
      NothingGrounds(result.traceId, num);
      CountedWhenListed(payload, traceId);
      if exists g :: !result.ConnectionFailure? && Grounds(ps, g, result.statusCode, num) {
        var g :| Grounds(ps, g, result.statusCode, num);
        GroundIsListed(ps, g, result.statusCode, num);
      }
    }
  }

  /** What else a payload may come to: a bad identifier, another trace's result, a refusal, no spans at all, or a part. */
  lemma {:induction false} PayloadComesTo(payload: Json, traceId: string, result: RequestResult, num: NumberOf)
    ensures var r, parsed := Normalize(payload, traceId, result, num), Parse(payload, traceId);
            var ours := NonZeroHex(traceId, 32) && result.traceId == Lower(traceId);
            && (r == Err(InvalidTraceId) <==> !NonZeroHex(traceId, 32))
            && (r == Err(ResultMismatch) <==> NonZeroHex(traceId, 32) && result.traceId != Lower(traceId))
            && (r.Err? && r.error.Malformed? <==> ours && parsed.Err?)
            && (r == Ok(NotFound) <==> ours && parsed.Ok? && Entries(payload) == [])
            && (r == Err(OverLimit) <==>
                  && ours && parsed.Ok? && Entries(payload) != []
                  && (|parsed.value.spans| > 64 || |EvidenceShown(parsed.value.spans, result, num).policies| > 8))
            && (r.Ok? && !r.value.NotFound? ==> r.value.trace == EvidenceShown(parsed.value.spans, result, num))
  {
    hide Parse, EvidenceShown, NonZeroHex, IsComplete, Accepts, Producers, Rows;
    ParseIff(payload, traceId);
    if Parse(payload, traceId).Ok? {
      RefusedIff(Parse(payload, traceId).value.spans, result, num);
    }
  }

  lemma {:induction false} NothingGrounds(id: string, num: NumberOf)
    ensures forall g, status :: !Grounds([], g, status, num)
  {
  }

  lemma {:induction false} GroundIsListed(ps: seq<Producer>, g: Producer, status: int, num: NumberOf)
    requires Grounds(ps, g, status, num)
    ensures g in ps
  {
  }

  lemma {:induction false} CountedWhenListed(payload: Json, traceId: string)
    requires Parse(payload, traceId).Ok?
    ensures Parse(payload, traceId).value.spans != [] ==> Parse(payload, traceId).value.rawCount > 0
  {
    hide RowOf, Parse, EnvelopeFormed, Entries, AllSound, HasCycle, ParentMap;
    ParseIff(payload, traceId);
    var rows := Rows(Entries(payload), traceId);
    if Producers(rows) != [] {
      ProducersMembers(rows, Producers(rows)[0]);
    }
  }

  // ---- The evidence, whether the verdict is available or not

  /** What the checks under `g` amount to, policy by policy; origin and CSRF pass together and are rejected separately. */
  ghost predicate Amounts(ps: seq<Producer>, g: Producer, e: PolicyEvidence) {
    match e
    case PolicyEvidence(RateLimit, Disabled) => Says(ps, g, RateLimitCheck, Outcome.Disabled)
    case PolicyEvidence(RateLimit, Passed) => Says(ps, g, RateLimitCheck, Admitted)
    case PolicyEvidence(RateLimit, Rejected) => Says(ps, g, RateLimitCheck, Outcome.Rejected)
    case PolicyEvidence(CsrfOrigin, Passed) =>
      Says(ps, g, OriginCheck, Outcome.Passed) && Says(ps, g, CsrfCheck, Outcome.Passed)
    case PolicyEvidence(CsrfOrigin, Rejected) =>
      Says(ps, g, OriginCheck, Outcome.Rejected) || Says(ps, g, CsrfCheck, Outcome.Rejected)
    case PolicyEvidence(Authentication, Passed) => Says(ps, g, AuthenticationCheck, Authenticated)
    case PolicyEvidence(Authentication, Rejected) => Says(ps, g, AuthenticationCheck, Outcome.Rejected)
    case PolicyEvidence(RouteMatching, Matched) => Says(ps, g, RouteCheck, Outcome.Matched)
    case PolicyEvidence(RouteMatching, NotMatched) => Says(ps, g, RouteCheck, Outcome.NotMatched)
    case PolicyEvidence(ReplicaChoice, Chosen) => Says(ps, g, BackendCheck, Outcome.Selected)
    case PolicyEvidence(ReplicaChoice, NotChosen) => Says(ps, g, BackendCheck, Unavailable)
    case _ => false
  }

  /** One span of each check says one thing only. */
  lemma {:induction false} SaysOne(ps: seq<Producer>, g: Producer, check: Check, a: Outcome, b: Outcome)
    requires OneOfEach(ps, g) && Says(ps, g, check, a) && Says(ps, g, check, b)
    ensures a == b
  {
    hide IsChild;
  }

  lemma {:induction false} PoliciesAre(ps: seq<Producer>, g: Producer, e: PolicyEvidence)
    requires OneOfEach(ps, g)
    ensures e in PolicyOutcomesOf(GatewayPolicies(ps, Some(g))) <==> Amounts(ps, g, e)
  {
    hide Says, Any, PolicyOutcomesOf, GatewayPolicies, OneOfEach, OnePerOperation;
    var pols := GatewayPolicies(ps, Some(g));
    UnderIsOnePer(ps, g);
    PolicyEvidenceIff(pols, e);
    forall check, outcome
      ensures Any(pols, Reporting(check, outcome)) <==> Says(ps, g, check, outcome)
    {
      AnyUnder(ps, g, check, outcome);
      SaysIs(ps, g, check, outcome);
    }
    forall check, a, b | Says(ps, g, check, a) && Says(ps, g, check, b)
      ensures a == b
    {
      SaysOne(ps, g, check, a, b);
    }
  }

  lemma {:induction false} UnderIsOnePer(ps: seq<Producer>, g: Producer)
    requires OneOfEach(ps, g)
    ensures OnePerOperation(GatewayPolicies(ps, Some(g)))
  {
    ClearIs(ps, g);
    PoliciesUnder(ps, g);
    hide IsPolicyUnder, IsChild, OneOfEach, Sole;
  }

  /** No policy is listed twice. */
  lemma {:induction false} PoliciesAreDistinct(pols: seq<Producer>)
    requires DistinctIds(pols) && OnePerOperation(pols)
    ensures NoRepeats(PolicyOutcomesOf(pols))
  {
    hide Directs, LastOf, CsrfEvidence, ChoiceEvidence, NoRepeats, DistinctIds, OnePerOperation;
    DirectsAreDistinct(pols);
    var origin, csrf := LastOf(pols, OriginCheck, Outcome.Rejected, Outcome.Passed),
                        LastOf(pols, CsrfCheck, Outcome.Rejected, Outcome.Passed);
    var choice := LastOf(pols, BackendCheck, Outcome.Selected, Unavailable);
    SingleEvidence(origin, csrf, choice);
    forall e | e in Directs(pols)
      ensures e.policy in {RateLimit, Authentication, RouteMatching}
    {
      DirectsArePlain(pols, e);
    }
    NoRepeatsJoined(Directs(pols), CsrfEvidence(origin, csrf));
    NoRepeatsJoined(Directs(pols) + CsrfEvidence(origin, csrf), ChoiceEvidence(choice));
  }

  lemma {:induction false} SingleEvidence(origin: Outcome, csrf: Outcome, choice: Outcome)
    ensures NoRepeats(CsrfEvidence(origin, csrf)) && NoRepeats(ChoiceEvidence(choice))
    ensures forall e :: e in CsrfEvidence(origin, csrf) ==> e.policy == CsrfOrigin
    ensures forall e :: e in ChoiceEvidence(choice) ==> e.policy == ReplicaChoice
  {
  }

  lemma {:induction false} DirectsArePlain(pols: seq<Producer>, e: PolicyEvidence)
    requires e in Directs(pols)
    ensures e.policy in {RateLimit, Authentication, RouteMatching}
  {
    DirectsMembers(pols, e);
    var p :| p in pols && e in Direct(p);
    hide Directs;
  }

  lemma {:induction false} DirectsAreDistinct(pols: seq<Producer>)
    requires DistinctIds(pols) && OnePerOperation(pols)
    ensures NoRepeats(Directs(pols))
  {
    hide Direct, DistinctIds, NoRepeats;
    if pols == [] {
      NothingRepeats<PolicyEvidence>();
    } else {
      var front, last := pols[..|pols| - 1], pols[|pols| - 1];
      assert pols == front + [last];
      DistinctFrontOf(pols);
      assert forall p :: p in front ==> p in pols;
      DirectsAreDistinct(front);
      DirectNamesCheck(last);
      forall e | e in Directs(front)
        ensures e !in Direct(last)
      {
        DirectsMembers(front, e);
        var p :| p in front && e in Direct(p);
        DirectNamesCheck(p);
      }
      NoRepeatsJoined(Directs(front), Direct(last));
    }
  }

  lemma {:induction false} NothingRepeats<T>()
    ensures NoRepeats<T>([])
  {
  }

  lemma {:induction false} DistinctFrontOf(ps: seq<Producer>)
    requires DistinctIds(ps) && ps != []
    ensures DistinctIds(ps[..|ps| - 1]) && ps[|ps| - 1] !in ps[..|ps| - 1]
  {
    hide Lower;
    var front := ps[..|ps| - 1];
    assert forall i :: 0 <= i < |front| ==> front[i] == ps[i];
  }

  /** The policy of direct evidence names the check it comes from. */
  lemma {:induction false} DirectNamesCheck(p: Producer)
    ensures NoRepeats(Direct(p))
    ensures forall e :: e in Direct(p) ==>
              p.operation == match e.policy
                             case RateLimit => Policy(RateLimitCheck)
                             case Authentication => Policy(AuthenticationCheck)
                             case _ => Policy(RouteCheck)
  {
  }

  /** A proxy call under `g` that shows a server error. */
  ghost predicate ProxyFails(ps: seq<Producer>, g: Producer, num: NumberOf) {
    exists x :: x in ps && x.operation == ProxyCall && IsChild(x, g) && HasServerError(x, num)
  }

  ghost predicate HasProxy(ps: seq<Producer>, g: Producer) {
    exists x :: x in ps && x.operation == ProxyCall && IsChild(x, g)
  }

  /**
   The evidence shown of spans with one gateway span and one of each kind, whether or not it is complete: every policy
   outcome once, the replica named, and the delivery as far as it is known.
   */
  lemma {:induction false} EvidenceTells(ps: seq<Producer>, g: Producer, result: RequestResult, num: NumberOf)
    requires DistinctIds(ps) && g in ps && g.operation == GatewayServer && OneOfEach(ps, g)
    ensures var shown := EvidenceShown(ps, result, num);
            && NoRepeats(shown.policies)
            && (forall e :: e in shown.policies <==> Amounts(ps, g, e))
            && (forall r :: shown.replicaSelection == ReplicaSelection.Selected(r) <==> Names(ps, g, r))
            && (shown.replicaSelection == NotSelected <==> Says(ps, g, BackendCheck, Unavailable))
            && (forall r :: shown.delivery == Delivered(r) <==> ServedUnder(ps, g) && Names(ps, g, r))
            && (shown.delivery == Failed <==> NoService(ps) && ProxyFails(ps, g, num))
            && (shown.delivery == NotAttempted <==>
                  && (Says(ps, g, BackendCheck, Unavailable) || Says(ps, g, BackendCheck, ProxyUnavailable))
                  && (NoService(ps) || !HasProxy(ps, g)) && !(NoService(ps) && ProxyFails(ps, g, num)))
  {
    ChildIs(g, g);
    ClearIs(ps, g);
    FirstOfSoleGateway(ps, g);
    var pols := GatewayPolicies(ps, Some(g));
    PoliciesUnder(ps, g);
    UnderIsOnePer(ps, g);
    hide OneOfEach, Unambiguous, DistinctIds, IsChild, IsPolicyUnder, Names, Says, Amounts, ServedUnder, NoService, ProxyFails,
         HasProxy, PolicyOutcomesOf, SelectionOf, DeliveryOf, First, ShownSpans, GatewayPolicies, ProxyUnder, OnePerOperation;
    PoliciesAreDistinct(pols);
    forall e
      ensures e in PolicyOutcomesOf(pols) <==> Amounts(ps, g, e)
    {
      PoliciesAre(ps, g, e);
    }
    SelectionTells(ps, g);
    DeliveryTells(ps, g, num);
  }

  lemma {:induction false} SelectionTells(ps: seq<Producer>, g: Producer)
    requires DistinctIds(ps) && OneOfEach(ps, g)
    ensures var selection := SelectionOf(GatewayPolicies(ps, Some(g)));
            && (forall r :: selection == ReplicaSelection.Selected(r) <==> Names(ps, g, r))
            && (selection == NotSelected <==> Says(ps, g, BackendCheck, Unavailable))
  {
    var pols := GatewayPolicies(ps, Some(g));
    ClearIs(ps, g);
    PoliciesUnder(ps, g);
    UnderIsOnePer(ps, g);
    hide OneOfEach, Unambiguous, DistinctIds, IsChild, Names, Says, GatewayPolicies, First, IsPublicReplicaId;
    forall r
      ensures SelectionOf(pols) == ReplicaSelection.Selected(r) <==> Names(ps, g, r)
    {
      SelectionIff(ps, g, r);
      NamesIs(ps, g, r);
    }
    AnyUnder(ps, g, BackendCheck, Unavailable);
    SaysIs(ps, g, BackendCheck, Unavailable);
    FirstMatches(pols, Reporting(BackendCheck, Outcome.Selected));
  }

  lemma {:induction false} DeliveryTells(ps: seq<Producer>, g: Producer, num: NumberOf)
    requires DistinctIds(ps) && g in ps && g.operation == GatewayServer && OneOfEach(ps, g)
    ensures var pols := GatewayPolicies(ps, Some(g));
            var delivery := DeliveryOf(pols, ProxyUnder(ps, Some(g)), First(ps, WithRole(OrdersService)), SelectionOf(pols), num);
            && (forall r :: delivery == Delivered(r) <==> ServedUnder(ps, g) && Names(ps, g, r))
            && (delivery == Failed <==> NoService(ps) && ProxyFails(ps, g, num))
            && (delivery == NotAttempted <==>
                  && (Says(ps, g, BackendCheck, Unavailable) || Says(ps, g, BackendCheck, ProxyUnavailable))
                  && (NoService(ps) || !HasProxy(ps, g)) && !(NoService(ps) && ProxyFails(ps, g, num)))
  {
    var pols := GatewayPolicies(ps, Some(g));
    SelectionTells(ps, g);
    ProxyTells(ps, g, num);
    AnyUnder(ps, g, BackendCheck, Unavailable);
    AnyUnder(ps, g, BackendCheck, ProxyUnavailable);
    SaysIs(ps, g, BackendCheck, Unavailable);
    SaysIs(ps, g, BackendCheck, ProxyUnavailable);
    hide OneOfEach, DistinctIds, IsChild, Names, Says, GatewayPolicies, First, ProxyUnder, SelectionOf, ServedUnder, NoService,
         ProxyFails, HasProxy, ServerFailed, Any, ReportedUnder;
  }

  lemma {:induction false} ProxyTells(ps: seq<Producer>, g: Producer, num: NumberOf)
    requires OneOfEach(ps, g)
    ensures var proxy, service := ProxyUnder(ps, Some(g)), First(ps, WithRole(OrdersService));
            && (proxy.Some? <==> HasProxy(ps, g)) && (service.None? <==> NoService(ps))
            && (proxy.Some? && ServerFailed(proxy.value, num) <==> ProxyFails(ps, g, num))
            && (proxy.Some? && service.Some? && ParentId(service.value) == Id(proxy.value) <==> ServedUnder(ps, g))
  {
    FirstMatches(ps, Under(GatewayProxy, Id(g)));
    FirstMatches(ps, WithRole(OrdersService));
    ChildrenAre();
    RolesAre();
    forall p
      ensures ServerFailed(p, num) <==> HasServerError(p, num)
    {
      ServerErrorIs(p, num);
    }
    assert forall x :: IsProxyUnder(x, g) <==> Matches(Under(GatewayProxy, Id(g)), x);
    hide IsChild, Matches, Role, ServerFailed, HasServerError, First, ParentId, Id;
  }
}
