/**
 What the verdict means, in terms of which spans were recorded and not of how they are
 listed: when evidence is complete, that completeness is sound, and that the order of the
 spans makes no difference to an available verdict.
 */
module TraceVerdict {
  import opened Common
  import opened Text
  import opened Json
  import opened RequestFlow
  import opened JaegerParser
  import opened ParserAcceptance
  import opened TraceNormalizer
  import opened SpanBags

  // ---- Looking for spans, without their order

  /** At most one span matches. */
  ghost predicate Sole(ps: seq<Producer>, sel: Selector) {
    forall x, y :: x in ps && y in ps && Matches(sel, x) && Matches(sel, y) ==> x == y
  }

  lemma {:induction false} FirstMatches(ps: seq<Producer>, sel: Selector)
    ensures First(ps, sel).Some? ==> First(ps, sel).value in ps && Matches(sel, First(ps, sel).value)
    ensures First(ps, sel).None? ==> forall p :: p in ps ==> !Matches(sel, p)
  {
    if ps != [] {
      FirstMatches(ps[1..], sel);
      assert ps == [ps[0]] + ps[1..];
    }
  }

  /** Where at most one span matches, the first match is that span. */
  lemma {:induction false} FirstOfSole(ps: seq<Producer>, sel: Selector, x: Producer)
    requires Sole(ps, sel) && x in ps && Matches(sel, x)
    ensures First(ps, sel) == Some(x)
  {
    FirstMatches(ps, sel);
  }

  lemma {:induction false} SelectMembers(ps: seq<Producer>, sel: Selector)
    ensures forall p :: p in Select(ps, sel) <==> p in ps && Matches(sel, p)
  {
    if ps != [] {
      SelectMembers(ps[1..], sel);
      assert ps == [ps[0]] + ps[1..];
    }
  }

  lemma {:induction false} DistinctTail(ps: seq<Producer>)
    requires DistinctIds(ps) && ps != []
    ensures DistinctIds(ps[1..]) && ps[0] !in ps[1..]
  {
    assert forall i :: 0 <= i < |ps[1..]| ==> ps[1..][i] == ps[i + 1];
  }

  lemma {:induction false} SelectDistinct(ps: seq<Producer>, sel: Selector)
    requires DistinctIds(ps)
    ensures DistinctIds(Select(ps, sel))
  {
    if ps != [] {
      DistinctTail(ps);
      SelectDistinct(ps[1..], sel);
      SelectMembers(ps[1..], sel);
      var rest := Select(ps[1..], sel);
      forall i | 0 <= i < |rest|
        ensures Lower(rest[i].spanId) != Lower(ps[0].spanId)
      {
        assert rest[i] in ps[1..];
        var k :| 0 <= k < |ps[1..]| && ps[1..][k] == rest[i];
        assert ps[k + 1] == rest[i];
      }
    }
  }

  lemma {:induction false} CountedIffSole(ps: seq<Producer>, sel: Selector)
    requires DistinctIds(ps)
    ensures |Select(ps, sel)| <= 1 <==> Sole(ps, sel)
  {
    var found := Select(ps, sel);
    SelectMembers(ps, sel);
    SelectDistinct(ps, sel);
    if |found| <= 1 {
      forall x, y | x in ps && y in ps && Matches(sel, x) && Matches(sel, y)
        ensures x == y
      {
        assert x in found && y in found;
      }
    } else {
      assert found[0] in ps && found[1] in ps;
      assert Matches(sel, found[0]) && Matches(sel, found[1]);
    }
  }

  /** No two of the spans record the same operation. */
  ghost predicate OnePerOperation(pols: seq<Producer>) {
    forall x, y :: x in pols && y in pols && x.operation == y.operation ==> x == y
  }

  lemma {:induction false} NamesUniqueIff(pols: seq<Producer>)
    requires DistinctIds(pols)
    ensures PolicyNamesUnique(pols) <==> OnePerOperation(pols)
  {
    NoRepeatsIffCounted(Operations(pols));
    if NoRepeats(Operations(pols)) {
      forall x, y | x in pols && y in pols && x.operation == y.operation
        ensures x == y
      {
        var i :| 0 <= i < |pols| && pols[i] == x;
        var j :| 0 <= j < |pols| && pols[j] == y;
        assert Operations(pols)[i] == Operations(pols)[j];
      }
    }
    if OnePerOperation(pols) {
      forall i, j | 0 <= i < j < |pols|
        ensures Operations(pols)[i] != Operations(pols)[j]
      {
        assert pols[i] in pols && pols[j] in pols;
      }
    }
  }

  // ---- Policy evidence, without its order

  lemma {:induction false} DirectsMembers(pols: seq<Producer>, e: PolicyEvidence)
    ensures e in Directs(pols) <==> exists p :: p in pols && e in Direct(p)
  {
    if pols != [] {
      var front, last := pols[..|pols| - 1], pols[|pols| - 1];
      assert pols == front + [last];
      DirectsMembers(front, e);
      hide Direct;
    }
  }

  lemma {:induction false} ReportingIs(p: Producer, check: Check, o: Outcome)
    ensures Matches(Reporting(check, o), p) <==> p.operation == Policy(check) && p.evidence.outcome == o
  {
    hide Id, ParentId;
  }

  lemma {:induction false} AnyGrows(front: seq<Producer>, last: Producer, sel: Selector)
    ensures Any(front + [last], sel) <==> Any(front, sel) || Matches(sel, last)
  {
    hide Matches;
    if Any(front, sel) {
      var p :| p in front && Matches(sel, p);
      assert p in front + [last];
    }
    assert last in front + [last];
  }

  lemma {:induction false} LastOfMembers(pols: seq<Producer>, check: Check, a: Outcome, b: Outcome)
    requires OnePerOperation(pols)
    requires a != Unrecorded && b != Unrecorded
    ensures forall o :: o == a || o == b ==> (LastOf(pols, check, a, b) == o <==> Any(pols, Reporting(check, o)))
    ensures LastOf(pols, check, a, b) in [a, b, Unrecorded]
  {
    if pols != [] {
      var front, last := pols[..|pols| - 1], pols[|pols| - 1];
      assert pols == front + [last];
      LastOfMembers(front, check, a, b);
      LastOfLast(pols, check, a, b);
      AnyGrows(front, last, Reporting(check, a));
      AnyGrows(front, last, Reporting(check, b));
      ReportingIs(last, check, a);
      ReportingIs(last, check, b);
    }
  }

  /** The policy evidence the recorded checks amount to. */
  ghost predicate Shows(pols: seq<Producer>, e: PolicyEvidence) {
    match e
    case PolicyEvidence(RateLimit, Disabled) => Any(pols, Reporting(RateLimitCheck, Outcome.Disabled))
    case PolicyEvidence(RateLimit, Passed) => Any(pols, Reporting(RateLimitCheck, Admitted))
    case PolicyEvidence(RateLimit, Rejected) => Any(pols, Reporting(RateLimitCheck, Outcome.Rejected))
    case PolicyEvidence(Authentication, Passed) => Any(pols, Reporting(AuthenticationCheck, Authenticated))
    case PolicyEvidence(Authentication, Rejected) => Any(pols, Reporting(AuthenticationCheck, Outcome.Rejected))
    case PolicyEvidence(RouteMatching, Matched) => Any(pols, Reporting(RouteCheck, Outcome.Matched))
    case PolicyEvidence(RouteMatching, NotMatched) => Any(pols, Reporting(RouteCheck, Outcome.NotMatched))
    case PolicyEvidence(CsrfOrigin, Rejected) => CsrfRejected(pols)
    case PolicyEvidence(CsrfOrigin, Passed) =>
      !CsrfRejected(pols)
      && Any(pols, Reporting(OriginCheck, Outcome.Passed)) && Any(pols, Reporting(CsrfCheck, Outcome.Passed))
    case PolicyEvidence(ReplicaChoice, Chosen) => Any(pols, Reporting(BackendCheck, Outcome.Selected))
    case PolicyEvidence(ReplicaChoice, NotChosen) =>
      Any(pols, Reporting(BackendCheck, Unavailable)) && !Any(pols, Reporting(BackendCheck, Outcome.Selected))
    case _ => false
  }

  ghost predicate CsrfRejected(pols: seq<Producer>) {
    Any(pols, Reporting(OriginCheck, Outcome.Rejected)) || Any(pols, Reporting(CsrfCheck, Outcome.Rejected))
  }

  /** The single span of evidence that shows `e` directly. */
  function DirectSource(e: PolicyEvidence): Option<Selector> {
    match e
    case PolicyEvidence(RateLimit, Disabled) => Some(Reporting(RateLimitCheck, Outcome.Disabled))
    case PolicyEvidence(RateLimit, Passed) => Some(Reporting(RateLimitCheck, Admitted))
    case PolicyEvidence(RateLimit, Rejected) => Some(Reporting(RateLimitCheck, Outcome.Rejected))
    case PolicyEvidence(Authentication, Passed) => Some(Reporting(AuthenticationCheck, Authenticated))
    case PolicyEvidence(Authentication, Rejected) => Some(Reporting(AuthenticationCheck, Outcome.Rejected))
    case PolicyEvidence(RouteMatching, Matched) => Some(Reporting(RouteCheck, Outcome.Matched))
    case PolicyEvidence(RouteMatching, NotMatched) => Some(Reporting(RouteCheck, Outcome.NotMatched))
    case _ => None
  }

  lemma {:induction false} DirectIff(p: Producer, e: PolicyEvidence)
    ensures e in Direct(p) <==> DirectSource(e).Some? && Matches(DirectSource(e).value, p)
  {
  }

  /** When each check recorded at most one span, the evidence listed is what those spans show. */
  lemma {:induction false} PolicyEvidenceIff(pols: seq<Producer>, e: PolicyEvidence)
    requires OnePerOperation(pols)
    ensures e in PolicyOutcomesOf(pols) <==> Shows(pols, e)
  {
    hide Matches, Direct, LastOf, Directs, OnePerOperation;
    DirectsMembers(pols, e);
    assert e in Directs(pols) <==> DirectSource(e).Some? && Any(pols, DirectSource(e).value) by {
      forall p | p in pols
        ensures e in Direct(p) <==> DirectSource(e).Some? && Matches(DirectSource(e).value, p)
      {
        DirectIff(p, e);
      }
    }
    LastOfMembers(pols, OriginCheck, Outcome.Rejected, Outcome.Passed);
    LastOfMembers(pols, CsrfCheck, Outcome.Rejected, Outcome.Passed);
    LastOfMembers(pols, BackendCheck, Outcome.Selected, Unavailable);
  }

  // ---- Complete evidence, without its order

  ghost predicate IsProxyUnder(x: Producer, g: Producer) {
    Matches(Under(GatewayProxy, Id(g)), x)
  }

  ghost predicate IsPolicyUnder(x: Producer, g: Producer) {
    Matches(Under(GatewayPolicy, Id(g)), x)
  }

  ghost predicate ReportedUnder(ps: seq<Producer>, g: Producer, check: Check, outcome: Outcome) {
    exists p :: p in ps && IsPolicyUnder(p, g) && Matches(Reporting(check, outcome), p)
  }

  ghost predicate NoneWithRole(ps: seq<Producer>, role: SpanRole) {
    forall p :: p in ps ==> Role(p) != role
  }

  /** Every check let the request through and a replica was selected. */
  ghost predicate AllChecksPassed(ps: seq<Producer>, g: Producer) {
    && (ReportedUnder(ps, g, RateLimitCheck, Admitted) || ReportedUnder(ps, g, RateLimitCheck, Outcome.Disabled))
    && ReportedUnder(ps, g, OriginCheck, Outcome.Passed)
    && ReportedUnder(ps, g, CsrfCheck, Outcome.Passed)
    && ReportedUnder(ps, g, AuthenticationCheck, Authenticated)
    && ReportedUnder(ps, g, RouteCheck, Outcome.Matched)
    && ReportedUnder(ps, g, BackendCheck, Outcome.Selected)
  }

  /** The backend selection under the gateway span names a public replica. */
  ghost predicate ReplicaNamed(ps: seq<Producer>, g: Producer, replica: string) {
    && IsPublicReplicaId(replica)
    && exists b :: b in ps && IsPolicyUnder(b, g) && Matches(Reporting(BackendCheck, Outcome.Selected), b)
                && b.evidence.replica == Some(JString(replica))
  }

  /** Gateway, proxy call and service form a chain of parents. */
  ghost predicate Chained(ps: seq<Producer>, g: Producer) {
    exists x, s :: x in ps && s in ps && IsProxyUnder(x, g) && Role(s) == OrdersService && ParentId(s) == Id(x)
  }

  ghost predicate WasDelivered(ps: seq<Producer>, g: Producer) {
    Chained(ps, g) && AllChecksPassed(ps, g) && exists replica :: ReplicaNamed(ps, g, replica)
  }

  ghost predicate HasFailed(ps: seq<Producer>, g: Producer, num: NumberOf) {
    && NoneWithRole(ps, OrdersService)
    && exists x :: x in ps && IsProxyUnder(x, g) && ServerFailed(x, num)
  }

  ghost predicate WasStopped(ps: seq<Producer>, g: Producer) {
    && NoneWithRole(ps, OrdersService)
    && (forall x :: x in ps ==> !IsProxyUnder(x, g))
    && exists p :: p in ps && IsPolicyUnder(p, g) && IsTerminal(p)
  }

  /** Evidence rooted at `g` that is unambiguous and leaves nothing open. */
  ghost predicate ConclusiveAt(ps: seq<Producer>, g: Producer, status: int, num: NumberOf) {
    && g in ps && Role(g) == GatewayRequest && StatusCode(g, num) == Some(status)
    && Unambiguous(ps, g)
    && ParentageComplete(ps)
    && (forall s :: s in ps && Role(s) == OrdersService ==>
          exists x :: x in ps && IsProxyUnder(x, g) && ParentId(s) == Id(x))
    && (WasDelivered(ps, g) || HasFailed(ps, g, num) || WasStopped(ps, g))
  }

  ghost predicate Unambiguous(ps: seq<Producer>, g: Producer) {
    && Sole(ps, WithRole(GatewayRequest))
    && Sole(ps, WithRole(GatewayProxy))
    && Sole(ps, WithRole(OrdersService))
    && forall x, y :: x in ps && y in ps && IsPolicyUnder(x, g) && IsPolicyUnder(y, g) && x.operation == y.operation
         ==> x == y
  }

  // ---- The verdict in those terms

  lemma {:induction false} PoliciesUnder(ps: seq<Producer>, g: Producer)
    ensures forall p :: p in GatewayPolicies(ps, Some(g)) <==> p in ps && IsPolicyUnder(p, g)
    ensures DistinctIds(ps) ==> DistinctIds(GatewayPolicies(ps, Some(g)))
  {
    SelectMembers(ps, Under(GatewayPolicy, Id(g)));
    if DistinctIds(ps) {
      SelectDistinct(ps, Under(GatewayPolicy, Id(g)));
    }
  }

  lemma {:induction false} UnambiguousIff(ps: seq<Producer>, g: Producer)
    requires DistinctIds(ps)
    ensures CoreRolesUnique(ps) && PolicyNamesUnique(GatewayPolicies(ps, Some(g))) <==> Unambiguous(ps, g)
  {
    CountedIffSole(ps, WithRole(GatewayRequest));
    CountedIffSole(ps, WithRole(GatewayProxy));
    CountedIffSole(ps, WithRole(OrdersService));
    PoliciesUnder(ps, g);
    NamesUniqueIff(GatewayPolicies(ps, Some(g)));
  }

  lemma {:induction false} AnyUnder(ps: seq<Producer>, g: Producer, check: Check, outcome: Outcome)
    ensures Any(GatewayPolicies(ps, Some(g)), Reporting(check, outcome)) <==> ReportedUnder(ps, g, check, outcome)
  {
    PoliciesUnder(ps, g);
  }

  lemma {:induction false} SuccessIff(ps: seq<Producer>, g: Producer)
    requires OnePerOperation(GatewayPolicies(ps, Some(g)))
    ensures SuccessfulPolicies(PolicyOutcomesOf(GatewayPolicies(ps, Some(g)))) <==> AllChecksPassed(ps, g)
  {
    hide PolicyOutcomesOf, GatewayPolicies, ReportedUnder, Matches;
    var pols := GatewayPolicies(ps, Some(g));
    PolicyEvidenceIff(pols, PolicyEvidence(RateLimit, PolicyOutcome.Passed));
    PolicyEvidenceIff(pols, PolicyEvidence(RateLimit, PolicyOutcome.Disabled));
    PolicyEvidenceIff(pols, PolicyEvidence(CsrfOrigin, PolicyOutcome.Passed));
    PolicyEvidenceIff(pols, PolicyEvidence(Authentication, PolicyOutcome.Passed));
    PolicyEvidenceIff(pols, PolicyEvidence(RouteMatching, PolicyOutcome.Matched));
    PolicyEvidenceIff(pols, PolicyEvidence(ReplicaChoice, Chosen));
    OutcomesExclude(pols, OriginCheck, Outcome.Passed, Outcome.Rejected);
    OutcomesExclude(pols, CsrfCheck, Outcome.Passed, Outcome.Rejected);
    AnyUnder(ps, g, RateLimitCheck, Admitted);
    AnyUnder(ps, g, RateLimitCheck, Outcome.Disabled);
    AnyUnder(ps, g, OriginCheck, Outcome.Passed);
    AnyUnder(ps, g, CsrfCheck, Outcome.Passed);
    AnyUnder(ps, g, AuthenticationCheck, Authenticated);
    AnyUnder(ps, g, RouteCheck, Outcome.Matched);
    AnyUnder(ps, g, BackendCheck, Outcome.Selected);
  }

  lemma {:induction false} OutcomesExclude(pols: seq<Producer>, check: Check, a: Outcome, b: Outcome)
    requires OnePerOperation(pols) && a != b
    ensures !(Any(pols, Reporting(check, a)) && Any(pols, Reporting(check, b)))
  {
  }

  lemma {:induction false} SelectionIff(ps: seq<Producer>, g: Producer, replica: string)
    requires OnePerOperation(GatewayPolicies(ps, Some(g)))
    ensures SelectionOf(GatewayPolicies(ps, Some(g))) == ReplicaSelection.Selected(replica)
       <==> ReplicaNamed(ps, g, replica)
  {
    var pols := GatewayPolicies(ps, Some(g));
    PoliciesUnder(ps, g);
    FirstMatches(pols, Reporting(BackendCheck, Outcome.Selected));
  }

  lemma {:induction false} DirectsLength(pols: seq<Producer>)
    ensures |Directs(pols)| <= |pols|
  {
    if pols != [] {
      DirectsLength(pols[..|pols| - 1]);
    }
  }

  function PolicyOperations(): (all: set<Operation>)
    ensures |all| <= 6
  {
    {Policy(RateLimitCheck), Policy(OriginCheck), Policy(CsrfCheck),
     Policy(AuthenticationCheck), Policy(RouteCheck), Policy(BackendCheck)}
  }

  lemma {:induction false} SixChecks(op: Operation)
    requires RoleOf(op) == GatewayPolicy
    ensures op in PolicyOperations()
  {
    match op
    case Policy(check) =>
      match check
      case RateLimitCheck =>
      case OriginCheck =>
      case CsrfCheck =>
      case AuthenticationCheck =>
      case RouteCheck =>
      case BackendCheck =>
  }

  /** Unambiguous evidence never overflows the bounds on policy evidence. */
  lemma {:induction false} EvidenceFits(pols: seq<Producer>)
    requires PolicyNamesUnique(pols)
    requires forall p :: p in pols ==> Role(p) == GatewayPolicy
    ensures |PolicyOutcomesOf(pols)| <= 8
  {
    var all := PolicyOperations();
    forall op | op in Members(Operations(pols))
      ensures op in all
    {
      var i :| 0 <= i < |pols| && Operations(pols)[i] == op;
      assert pols[i] in pols;
      SixChecks(op);
    }
    SubsetSize(Members(Operations(pols)), all);
    DirectsLength(pols);
  }

  lemma {:induction false} SubsetSize<T>(a: set<T>, b: set<T>)
    requires a <= b
    ensures |a| <= |b|
  {
    if a != {} {
      var x :| x in a;
      SubsetSize(a - {x}, b - {x});
    }
  }

  /** The gateway the verdict starts from is the first span of its role. */
  function GatewayOf(ps: seq<Producer>): Option<Producer> {
    First(ps, WithRole(GatewayRequest))
  }

  lemma {:induction false} ProxyIff(ps: seq<Producer>, g: Producer)
    ensures ProxyUnder(ps, Some(g)).Some? <==> exists x :: x in ps && IsProxyUnder(x, g)
    ensures ProxyUnder(ps, Some(g)).Some? ==>
              ProxyUnder(ps, Some(g)).value in ps && IsProxyUnder(ProxyUnder(ps, Some(g)).value, g)
  {
    FirstMatches(ps, Under(GatewayProxy, Id(g)));
  }

  lemma {:induction false} ServiceIff(ps: seq<Producer>)
    ensures First(ps, WithRole(OrdersService)).None? <==> NoneWithRole(ps, OrdersService)
    ensures First(ps, WithRole(OrdersService)).Some? ==>
              First(ps, WithRole(OrdersService)).value in ps && Role(First(ps, WithRole(OrdersService)).value) == OrdersService
  {
    FirstMatches(ps, WithRole(OrdersService));
  }

  /** With a single proxy and a single service span, the three ways of being complete read off those spans. */
  lemma {:induction false} CasesIff(ps: seq<Producer>, g: Producer, num: NumberOf)
    requires DistinctIds(ps) && Unambiguous(ps, g)
    ensures var proxy, service := ProxyUnder(ps, Some(g)), First(ps, WithRole(OrdersService));
            var pols := GatewayPolicies(ps, Some(g));
            && (WasDelivered(ps, g) <==>
                && proxy.Some? && service.Some? && ParentId(service.value) == Id(proxy.value)
                && SelectionOf(pols).Selected? && SuccessfulPolicies(PolicyOutcomesOf(pols)))
            && (HasFailed(ps, g, num) <==> proxy.Some? && service.None? && ServerFailed(proxy.value, num))
            && (WasStopped(ps, g) <==> (exists p :: p in pols && IsTerminal(p)) && proxy.None? && service.None?)
  {
    hide PolicyOutcomesOf, SelectionOf, GatewayPolicies, First, AllChecksPassed, IsTerminal, ReplicaNamed, SuccessfulPolicies,
         DistinctIds, OnePerOperation, PolicyNamesUnique, ServerFailed;
    var pols := GatewayPolicies(ps, Some(g));
    PoliciesUnder(ps, g);
    UnambiguousIff(ps, g);
    NamesUniqueIff(pols);
    ProxyIff(ps, g);
    ServiceIff(ps);
    SuccessIff(ps, g);
    assert SelectionOf(pols).Selected? <==> exists replica :: ReplicaNamed(ps, g, replica) by {
      if SelectionOf(pols).Selected? {
        SelectionIff(ps, g, SelectionOf(pols).replicaId);
      }
      if replica :| ReplicaNamed(ps, g, replica) {
        SelectionIff(ps, g, replica);
      }
    }
  }

  lemma {:induction false} CompleteIff(ps: seq<Producer>, g: Producer, result: RequestResult, num: NumberOf)
    requires DistinctIds(ps) && GatewayOf(ps) == Some(g) && !result.ConnectionFailure?
    ensures IsComplete(ps, result, num) <==> ConclusiveAt(ps, g, result.statusCode, num)
  {
    hide PolicyOutcomesOf, SelectionOf, First, WasDelivered, HasFailed, WasStopped, SuccessfulPolicies, StatusCode, ServerFailed,
         CoreRolesUnique, PolicyNamesUnique, ParentageComplete, GatewayPolicies, Unambiguous;
    var pols := GatewayPolicies(ps, Some(g));
    FirstMatches(ps, WithRole(GatewayRequest));
    PoliciesUnder(ps, g);
    UnambiguousIff(ps, g);
    ProxyIff(ps, g);
    ServiceIff(ps);
    if Unambiguous(ps, g) {
      CasesIff(ps, g, num);
      SoleChain(ps, g);
    }
  }

  lemma {:induction false} SoleChain(ps: seq<Producer>, g: Producer)
    requires Unambiguous(ps, g)
    ensures var proxy, service := ProxyUnder(ps, Some(g)), First(ps, WithRole(OrdersService));
            (forall s :: s in ps && Role(s) == OrdersService ==>
               exists x :: x in ps && IsProxyUnder(x, g) && ParentId(s) == Id(x))
            <==> (service.Some? ==> proxy.Some? && ParentId(service.value) == Id(proxy.value))
  {
    var proxy, service := ProxyUnder(ps, Some(g)), First(ps, WithRole(OrdersService));
    hide First, ProxyUnder;
    ProxyIff(ps, g);
    ServiceIff(ps);
    assert forall x :: IsProxyUnder(x, g) ==> Matches(WithRole(GatewayProxy), x);
    assert forall s: Producer :: Role(s) == OrdersService ==> Matches(WithRole(OrdersService), s);
    assert forall x :: x in ps && IsProxyUnder(x, g) ==> proxy == Some(x);
    assert forall s :: s in ps && Role(s) == OrdersService ==> service == Some(s);
  }

  /** Evidence is complete exactly when some gateway span roots conclusive evidence with the status the client saw. */
  lemma {:induction false} AvailableIff(ps: seq<Producer>, result: RequestResult, num: NumberOf)
    requires DistinctIds(ps) && |ps| <= MAX_TRACE_SPANS
    ensures Judge(ps, result, num) == Ok(Available(EvidenceShown(ps, result, num))) <==>
            !result.ConnectionFailure? && exists g :: ConclusiveAt(ps, g, result.statusCode, num)
  {
    hide IsComplete, EvidenceShown, ConclusiveAt;
    FirstMatches(ps, WithRole(GatewayRequest));
    match GatewayOf(ps)
    case None =>
      NoGateway(ps, result, num);
    case Some(g) =>
      if !result.ConnectionFailure? {
        CompleteIff(ps, g, result, num);
        ConclusiveRootIsFirst(ps, g, result.statusCode, num);
      }
      if IsComplete(ps, result, num) {
        CompleteFits(ps, result, num);
      }
  }

  lemma {:induction false} NoGateway(ps: seq<Producer>, result: RequestResult, num: NumberOf)
    requires GatewayOf(ps) == None
    ensures !IsComplete(ps, result, num)
    ensures forall g, status :: !ConclusiveAt(ps, g, status, num)
  {
    FirstMatches(ps, WithRole(GatewayRequest));
  }

  lemma {:induction false} ConclusiveRootIsFirst(ps: seq<Producer>, g: Producer, status: int, num: NumberOf)
    requires GatewayOf(ps) == Some(g)
    ensures forall h :: ConclusiveAt(ps, h, status, num) ==> h == g
  {
    hide WasDelivered, HasFailed, WasStopped, ParentageComplete, StatusCode, IsProxyUnder, IsPolicyUnder;
    FirstMatches(ps, WithRole(GatewayRequest));
    forall h | ConclusiveAt(ps, h, status, num)
      ensures h == g
    {
      assert Matches(WithRole(GatewayRequest), h);
    }
  }

  lemma {:induction false} CompleteFits(ps: seq<Producer>, result: RequestResult, num: NumberOf)
    requires |ps| <= MAX_TRACE_SPANS && IsComplete(ps, result, num)
    ensures !result.ConnectionFailure?
    ensures Judge(ps, result, num) == Ok(Available(EvidenceShown(ps, result, num)))
  {
    hide PolicyOutcomesOf;
    var pols := GatewayPolicies(ps, GatewayOf(ps));
    PoliciesUnder(ps, GatewayOf(ps).value);
    EvidenceFits(pols);
  }

  // ---- Soundness

  /** What each kind of conclusive evidence is reported as. */
  ghost predicate ReportedFaithfully(ps: seq<Producer>, g: Producer, trace: TraceEvidence, num: NumberOf) {
    && (WasDelivered(ps, g) ==>
        && trace.replicaSelection.Selected? && ReplicaNamed(ps, g, trace.replicaSelection.replicaId)
        && trace.delivery == Delivered(trace.replicaSelection.replicaId))
    && (HasFailed(ps, g, num) ==> trace.delivery == Failed)
    && (WasStopped(ps, g) ==>
        trace.delivery ==
          if ReportedUnder(ps, g, BackendCheck, Unavailable) || ReportedUnder(ps, g, BackendCheck, ProxyUnavailable)
          then NotAttempted else DeliveryUnknown)
  }

  ghost predicate ExactlyOne(a: bool, b: bool, c: bool) {
    (a && !b && !c) || (!a && b && !c) || (!a && !b && c)
  }

  lemma {:induction false} ConclusiveReport(ps: seq<Producer>, g: Producer, result: RequestResult, num: NumberOf)
    requires DistinctIds(ps) && GatewayOf(ps) == Some(g) && Unambiguous(ps, g)
    ensures ReportedFaithfully(ps, g, EvidenceShown(ps, result, num), num)
  {
    hide PolicyOutcomesOf, SelectionOf, First, GatewayPolicies, WasDelivered, HasFailed, WasStopped, SuccessfulPolicies,
         ReportedUnder, Any, ReplicaNamed, ProxyUnder, ShownSpans, ServerFailed;
    CasesIff(ps, g, num);
    AnyUnder(ps, g, BackendCheck, Unavailable);
    AnyUnder(ps, g, BackendCheck, ProxyUnavailable);
    UnambiguousIff(ps, g);
    PoliciesUnder(ps, g);
    NamesUniqueIff(GatewayPolicies(ps, Some(g)));
    var selection := SelectionOf(GatewayPolicies(ps, Some(g)));
    if selection.Selected? {
      SelectionIff(ps, g, selection.replicaId);
    }
  }

  /**
   An `available` verdict on spans with distinct identifiers rests on exactly one of: a full chain
   gateway, proxy, service with every policy passed and a public replica selected; a proxied
   call that failed; or a policy that ended the request. It is reported as such.
   */
  lemma {:induction false} VerdictIsSound(ps: seq<Producer>, result: RequestResult, num: NumberOf, trace: TraceEvidence)
    requires DistinctIds(ps) && Judge(ps, result, num) == Ok(Available(trace))
    ensures !result.ConnectionFailure?
    ensures exists g ::
              && ConclusiveAt(ps, g, result.statusCode, num)
              && ExactlyOne(WasDelivered(ps, g), HasFailed(ps, g, num), WasStopped(ps, g))
              && ReportedFaithfully(ps, g, trace, num)
  {
    hide IsComplete, EvidenceShown, Unambiguous, ReportedFaithfully, AllChecksPassed, StatusCode, ServerFailed;
    JudgedFits(ps, result, num);
    AvailableIff(ps, result, num);
    var g :| ConclusiveAt(ps, g, result.statusCode, num);
    FirstOfSoleGateway(ps, g);
    ConclusiveReport(ps, g, result, num);
    assert trace == EvidenceShown(ps, result, num);
  }

  /** Every available verdict on a payload is sound, for the spans recognised in it. */
  lemma {:induction false} PayloadVerdictIsSound(
    payload: Json, traceId: string, result: RequestResult, num: NumberOf, trace: TraceEvidence)
    requires Normalize(payload, traceId, result, num) == Ok(Available(trace))
    ensures !result.ConnectionFailure? && Parse(payload, traceId).Ok?
    ensures var ps := Parse(payload, traceId).value.spans;
            exists g ::
              && ConclusiveAt(ps, g, result.statusCode, num)
              && ExactlyOne(WasDelivered(ps, g), HasFailed(ps, g, num), WasStopped(ps, g))
              && ReportedFaithfully(ps, g, trace, num)
  {
    hide Parse, Judge, ConclusiveAt, WasDelivered, HasFailed, WasStopped, ReportedFaithfully, DistinctIds;
    ParsedDistinct(payload, traceId);
    VerdictIsSound(Parse(payload, traceId).value.spans, result, num, trace);
  }

  lemma {:induction false} FirstOfSoleGateway(ps: seq<Producer>, g: Producer)
    requires Unambiguous(ps, g) && g in ps && Role(g) == GatewayRequest
    ensures GatewayOf(ps) == Some(g)
  {
    FirstOfSole(ps, WithRole(GatewayRequest), g);
  }

  lemma {:induction false} JudgedFits(ps: seq<Producer>, result: RequestResult, num: NumberOf)
    requires Judge(ps, result, num).Ok?
    ensures |ps| <= MAX_TRACE_SPANS
  {
  }

  /** Delivery is never claimed without a gateway, proxy, service chain and a selected public replica. */
  lemma {:induction false} DeliveredNeedsChain(ps: seq<Producer>, result: RequestResult, num: NumberOf, replica: string)
    requires EvidenceShown(ps, result, num).delivery == Delivered(replica)
    ensures exists g :: g in ps && Role(g) == GatewayRequest && Chained(ps, g) && ReplicaNamed(ps, g, replica)
    ensures EvidenceShown(ps, result, num).replicaSelection == ReplicaSelection.Selected(replica)
  {
    FirstMatches(ps, WithRole(GatewayRequest));
    var g := GatewayOf(ps).value;
    ProxyIff(ps, g);
    ServiceIff(ps);
    PoliciesUnder(ps, g);
    FirstMatches(GatewayPolicies(ps, Some(g)), Reporting(BackendCheck, Outcome.Selected));
    assert Chained(ps, g);
  }

  // ---- Order

  ghost predicate SameSpans(ps: seq<Producer>, qs: seq<Producer>) {
    DistinctIds(ps) && DistinctIds(qs) && forall p :: p in ps <==> p in qs
  }

  /** The same evidence, apart from the order of its two lists. */
  ghost predicate SameEvidence(a: TraceEvidence, b: TraceEvidence) {
    && a.traceId == b.traceId
    && a.replicaSelection == b.replicaSelection
    && a.delivery == b.delivery
    && multiset(a.policies) == multiset(b.policies)
    && multiset(a.spans) == multiset(b.spans)
  }

  lemma {:induction false} DistinctIdsNoRepeats(ps: seq<Producer>)
    requires DistinctIds(ps)
    ensures NoRepeats(ps)
  {
  }

  lemma {:induction false} SameBag(ps: seq<Producer>, qs: seq<Producer>)
    requires SameSpans(ps, qs)
    ensures multiset(ps) == multiset(qs)
  {
    DistinctIdsNoRepeats(ps);
    DistinctIdsNoRepeats(qs);
    NoRepeatsBag(ps);
    NoRepeatsBag(qs);
    hide NoRepeats, DistinctIds;
  }

  lemma {:induction false} SameLength(ps: seq<Producer>, qs: seq<Producer>)
    requires SameSpans(ps, qs)
    ensures |ps| == |qs|
  {
    SameBag(ps, qs);
    assert |multiset(ps)| == |ps| && |multiset(qs)| == |qs|;
  }

  lemma {:induction false} SameConclusion(ps: seq<Producer>, qs: seq<Producer>, g: Producer, status: int, num: NumberOf)
    requires SameSpans(ps, qs) && ConclusiveAt(ps, g, status, num)
    ensures ConclusiveAt(qs, g, status, num)
  {
    hide StatusCode, IsProxyUnder, IsPolicyUnder, Matches, IsTerminal, ServerFailed, Id, ParentId, Role, IsPublicReplicaId;
    assert Unambiguous(qs, g);
    assert ParentageComplete(qs);
    SameCases(ps, qs, g, num);
  }

  lemma {:induction false} SameReports(
    ps: seq<Producer>, qs: seq<Producer>, g: Producer, check: Check, outcome: Outcome)
    requires forall p :: p in ps <==> p in qs
    ensures ReportedUnder(ps, g, check, outcome) ==> ReportedUnder(qs, g, check, outcome)
  {
    hide IsPolicyUnder, Matches;
  }

  lemma {:induction false} SameChain(ps: seq<Producer>, qs: seq<Producer>, g: Producer)
    requires forall p :: p in ps <==> p in qs
    ensures Chained(ps, g) ==> Chained(qs, g)
  {
    hide IsProxyUnder, Role, Id, ParentId;
    if Chained(ps, g) {
      var x, s :| x in ps && s in ps && IsProxyUnder(x, g) && Role(s) == OrdersService && ParentId(s) == Id(x);
      assert x in qs && s in qs;
    }
  }

  lemma {:induction false} SameName(ps: seq<Producer>, qs: seq<Producer>, g: Producer, replica: string)
    requires forall p :: p in ps <==> p in qs
    ensures ReplicaNamed(ps, g, replica) ==> ReplicaNamed(qs, g, replica)
  {
    hide IsPolicyUnder, Matches, IsPublicReplicaId;
  }

  lemma {:induction false} SameDelivered(ps: seq<Producer>, qs: seq<Producer>, g: Producer)
    requires forall p :: p in ps <==> p in qs
    ensures WasDelivered(ps, g) ==> WasDelivered(qs, g)
  {
    hide ReportedUnder, Chained, ReplicaNamed;
    if WasDelivered(ps, g) {
      SameChain(ps, qs, g);
      forall check, outcome
        ensures ReportedUnder(ps, g, check, outcome) ==> ReportedUnder(qs, g, check, outcome)
      {
        SameReports(ps, qs, g, check, outcome);
      }
      var replica :| ReplicaNamed(ps, g, replica);
      SameName(ps, qs, g, replica);
    }
  }

  lemma {:induction false} SameCases(ps: seq<Producer>, qs: seq<Producer>, g: Producer, num: NumberOf)
    requires forall p :: p in ps <==> p in qs
    ensures WasDelivered(ps, g) ==> WasDelivered(qs, g)
    ensures HasFailed(ps, g, num) ==> HasFailed(qs, g, num)
    ensures WasStopped(ps, g) ==> WasStopped(qs, g)
  {
    hide WasDelivered, IsProxyUnder, IsPolicyUnder, IsTerminal, ServerFailed, Role;
    SameDelivered(ps, qs, g);
  }

  lemma {:induction false} SameEvidenceShown(
    ps: seq<Producer>, qs: seq<Producer>, g: Producer, result: RequestResult, num: NumberOf)
    requires SameSpans(ps, qs) && GatewayOf(ps) == Some(g) && GatewayOf(qs) == Some(g)
    requires Unambiguous(ps, g) && Unambiguous(qs, g)
    ensures SameEvidence(EvidenceShown(ps, result, num), EvidenceShown(qs, result, num))
  {
    hide PolicyOutcomesOf, SelectionOf, DeliveryOf, ShownSpan, First, ProxyUnder, GatewayPolicies, Unambiguous;
    var a, b := GatewayPolicies(ps, Some(g)), GatewayPolicies(qs, Some(g));
    SamePolicies(ps, qs, g);
    SameSelection(a, b);
    SameDelivery(ps, qs, g, SelectionOf(a), num);
    SameBag(ps, qs);
    SameBagShown(ps, qs);
    SamePoliciesShown(a, b);
  }

  lemma {:induction false} SamePolicies(ps: seq<Producer>, qs: seq<Producer>, g: Producer)
    requires SameSpans(ps, qs) && Unambiguous(ps, g) && Unambiguous(qs, g)
    ensures var a, b := GatewayPolicies(ps, Some(g)), GatewayPolicies(qs, Some(g));
            OnePerOperation(a) && OnePerOperation(b) && multiset(a) == multiset(b) && forall p :: p in a <==> p in b
  {
    PoliciesUnder(ps, g);
    PoliciesUnder(qs, g);
    SameBag(ps, qs);
    SameBagSelect(ps, qs, Under(GatewayPolicy, Id(g)));
  }

  lemma {:induction false} SameSelection(a: seq<Producer>, b: seq<Producer>)
    requires OnePerOperation(a) && forall p :: p in a <==> p in b
    ensures SelectionOf(a) == SelectionOf(b)
  {
    var sel := Reporting(BackendCheck, Outcome.Selected);
    FirstMatches(a, sel);
    FirstMatches(b, sel);
    assert First(a, sel) == First(b, sel);
    assert Any(a, Reporting(BackendCheck, Unavailable)) <==> Any(b, Reporting(BackendCheck, Unavailable));
  }

  lemma {:induction false} SameLast(a: seq<Producer>, b: seq<Producer>, check: Check, x: Outcome, y: Outcome)
    requires OnePerOperation(a) && OnePerOperation(b) && x != Unrecorded && y != Unrecorded
    requires forall p :: p in a <==> p in b
    ensures LastOf(a, check, x, y) == LastOf(b, check, x, y)
  {
    hide LastOf, Matches, OnePerOperation;
    LastOfMembers(a, check, x, y);
    LastOfMembers(b, check, x, y);
    assert Any(a, Reporting(check, x)) <==> Any(b, Reporting(check, x));
    assert Any(a, Reporting(check, y)) <==> Any(b, Reporting(check, y));
  }

  lemma {:induction false} SamePoliciesShown(a: seq<Producer>, b: seq<Producer>)
    requires OnePerOperation(a) && OnePerOperation(b) && multiset(a) == multiset(b)
    requires forall p :: p in a <==> p in b
    ensures multiset(PolicyOutcomesOf(a)) == multiset(PolicyOutcomesOf(b))
  {
    hide LastOf, Directs, CsrfEvidence, ChoiceEvidence, OnePerOperation;
    SameBagDirects(a, b);
    SameLast(a, b, OriginCheck, Outcome.Rejected, Outcome.Passed);
    SameLast(a, b, CsrfCheck, Outcome.Rejected, Outcome.Passed);
    SameLast(a, b, BackendCheck, Outcome.Selected, Unavailable);
  }

  lemma {:induction false} SameDelivery(
    ps: seq<Producer>, qs: seq<Producer>, g: Producer, selection: ReplicaSelection, num: NumberOf)
    requires SameSpans(ps, qs) && Unambiguous(ps, g) && Unambiguous(qs, g)
    ensures DeliveryOf(GatewayPolicies(ps, Some(g)), ProxyUnder(ps, Some(g)), First(ps, WithRole(OrdersService)), selection, num)
         == DeliveryOf(GatewayPolicies(qs, Some(g)), ProxyUnder(qs, Some(g)), First(qs, WithRole(OrdersService)), selection, num)
  {
    var a, b := GatewayPolicies(ps, Some(g)), GatewayPolicies(qs, Some(g));
    SamePolicies(ps, qs, g);
    assert forall sel :: Any(a, sel) <==> Any(b, sel);
    FirstMatches(ps, Under(GatewayProxy, Id(g)));
    FirstMatches(qs, Under(GatewayProxy, Id(g)));
    assert forall x :: Matches(Under(GatewayProxy, Id(g)), x) ==> Matches(WithRole(GatewayProxy), x);
    FirstMatches(ps, WithRole(OrdersService));
    FirstMatches(qs, WithRole(OrdersService));
    assert ProxyUnder(ps, Some(g)) == ProxyUnder(qs, Some(g));
    assert First(ps, WithRole(OrdersService)) == First(qs, WithRole(OrdersService));
    hide *;
    DeliveryBySelectors(a, b, ProxyUnder(ps, Some(g)), First(ps, WithRole(OrdersService)), selection, num);
  }

  lemma {:induction false} DeliveryBySelectors(
    a: seq<Producer>, b: seq<Producer>, proxy: Option<Producer>, service: Option<Producer>, selection: ReplicaSelection,
    num: NumberOf)
    requires forall sel :: Any(a, sel) <==> Any(b, sel)
    ensures DeliveryOf(a, proxy, service, selection, num) == DeliveryOf(b, proxy, service, selection, num)
  {
    hide Any, ServerFailed;
  }

  /** Listing the spans of an available verdict in another order gives an available verdict on the same evidence. */
  lemma {:induction false} OrderDoesNotMatter(
    ps: seq<Producer>, qs: seq<Producer>, result: RequestResult, num: NumberOf)
    requires SameSpans(ps, qs) && |ps| <= MAX_TRACE_SPANS
    requires Judge(ps, result, num) == Ok(Available(EvidenceShown(ps, result, num)))
    ensures Judge(qs, result, num) == Ok(Available(EvidenceShown(qs, result, num)))
    ensures SameEvidence(EvidenceShown(ps, result, num), EvidenceShown(qs, result, num))
  {
    hide IsComplete, EvidenceShown, ConclusiveAt, Unambiguous, Judge;
    SameLength(ps, qs);
    AvailableIff(ps, result, num);
    AvailableIff(qs, result, num);
    var g :| ConclusiveAt(ps, g, result.statusCode, num);
    SameConclusion(ps, qs, g, result.statusCode, num);
    ConclusiveRoot(ps, g, result.statusCode, num);
    ConclusiveRoot(qs, g, result.statusCode, num);
    SameEvidenceShown(ps, qs, g, result, num);
  }

  lemma {:induction false} ConclusiveRoot(ps: seq<Producer>, g: Producer, status: int, num: NumberOf)
    requires ConclusiveAt(ps, g, status, num)
    ensures Unambiguous(ps, g) && GatewayOf(ps) == Some(g)
  {
    FirstOfSoleGateway(ps, g);
  }

  /**
   Two payloads listing the same spans, grouped and ordered in any two ways, are judged `available`
   together, on the same evidence.
   */
  lemma {:induction false} NormalizeIgnoresOrder(
    p: Json, q: Json, traceId: string, result: RequestResult, num: NumberOf, trace: TraceEvidence)
    requires EnvelopeFormed(p) && EnvelopeFormed(q) && multiset(Entries(p)) == multiset(Entries(q))
    requires Normalize(p, traceId, result, num) == Ok(Available(trace))
    ensures Normalize(q, traceId, result, num).Ok? && Normalize(q, traceId, result, num).value.Available?
    ensures SameEvidence(trace, Normalize(q, traceId, result, num).value.trace)
  {
    hide Parse, EnvelopeFormed, EvidenceShown, IsComplete;
    SameBagParses(p, q, traceId);
    ParsedDistinct(p, traceId);
    ParsedDistinct(q, traceId);
    var ps, qs := Parse(p, traceId).value.spans, Parse(q, traceId).value.spans;
    JudgedFits(ps, result, num);
    OrderDoesNotMatter(ps, qs, result, num);
  }
}
