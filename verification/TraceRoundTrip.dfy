/**
 From the gateway's decisions to spans and back. Spans may arrive in any order, and only
 some of them may have been exported; what is rebuilt then is stated in terms of which
 stages' spans arrived.
 */
module TraceRoundTrip {
  import opened Common
  import opened Text
  import opened GoInts
  import opened Json
  import opened RequestFlow
  import opened JaegerParser
  import opened ParserAcceptance
  import opened TraceNormalizer
  import opened TraceVerdict
  import opened GatewayPipeline

  function OperationAt(stage: Stage): Operation {
    match stage
    case GatewayStage => GatewayServer
    case RateStage => Policy(RateLimitCheck)
    case CsrfStage => Policy(CsrfCheck)
    case OriginStage => Policy(OriginCheck)
    case AuthStage => Policy(AuthenticationCheck)
    case RouteStage => Policy(RouteCheck)
    case BackendStage => Policy(BackendCheck)
    case ProxyStage => ProxyCall
    case ServiceStage => OrdersServer
  }

  function StageFor(check: Check): Stage {
    match check
    case RateLimitCheck => RateStage
    case CsrfCheck => CsrfStage
    case OriginCheck => OriginStage
    case AuthenticationCheck => AuthStage
    case RouteCheck => RouteStage
    case BackendCheck => BackendStage
  }

  /**
   What the tracing library adds to a run: identifiers, times, how a status is written as an
   attribute, and whatever evidence the service's own span carries.
   */
  datatype Recording = Recording(
    ids: Stage -> string,
    remoteParent: string,
    starts: Stage -> nat,
    ends: Stage -> nat,
    show: int -> Json,
    serviceEvidence: Evidence)

  ghost predicate Readable(rec: Recording, num: NumberOf) {
    forall status: int :: StatusValue(Some(rec.show(status)), num) == Some(status)
  }

  ghost predicate DistinctStages(rec: Recording) {
    forall a: Stage, b: Stage :: Lower(rec.ids(a)) == Lower(rec.ids(b)) ==> a == b
  }

  function ShownStatus(d: Decisions, rec: Recording, stage: Stage): Option<Json> {
    match stage
    case GatewayStage => Some(rec.show(GatewayStatus(d)))
    case ProxyStage =>
      if d.routing.Proxied? && d.routing.upstream.status.Some? then Some(rec.show(d.routing.upstream.status.value)) else None
    case _ => None
  }

  /** The replica label is written only when there is one. */
  function ShownReplica(d: Decisions, stage: Stage): Option<Json> {
    if ReplicaAt(d, stage) == "" then None else Some(JString(ReplicaAt(d, stage)))
  }

  /** The span a stage records, as the normalizer recognises it. */
  function SpanOf(d: Decisions, rec: Recording, stage: Stage): Producer {
    Producer(
      rec.ids(stage),
      match stage case GatewayStage => rec.remoteParent case ServiceStage => rec.ids(ProxyStage) case _ => rec.ids(GatewayStage),
      OperationAt(stage),
      if stage.ServiceStage? then rec.serviceEvidence
      else Evidence(OutcomeAt(d, stage), ShownReplica(d, stage), ShownStatus(d, rec, stage), None),
      rec.starts(stage),
      rec.ends(stage))
  }

  /** `ps` are spans of the run: each its own, none twice. */
  ghost predicate PartOf(ps: seq<Producer>, d: Decisions, rec: Recording) {
    && DistinctIds(ps)
    && forall p :: p in ps ==> exists stage :: Reaches(d, stage) && p == SpanOf(d, rec, stage)
  }

  /** The stages whose spans arrived. */
  ghost function Arrived(ps: seq<Producer>, d: Decisions, rec: Recording): set<Stage> {
    set stage: Stage | Reaches(d, stage) && SpanOf(d, rec, stage) in ps
  }

  // ---- What is rebuilt, by stages

  /** The run got as far as proxying the request. */
  predicate ReachesProxy(d: Decisions) {
    LetThrough(d) && d.routing.Proxied?
  }

  /** The stage at which the request was turned away, if it was. */
  predicate TurnsAway(d: Decisions, stage: Stage) {
    match stage
    case RateStage => d.rate.RateRejected?
    case CsrfStage => d.csrf.CsrfRejected?
    case OriginStage => !d.originPassed
    case AuthStage => !d.authenticated
    case RouteStage => d.routing.NoRoute?
    case BackendStage => d.routing.NoReplica? || d.routing.NoProxy?
    case _ => false
  }

  ghost predicate PolicyRebuilt(d: Decisions, arrived: set<Stage>, e: PolicyEvidence) {
    && GatewayStage in arrived
    && match e
       case PolicyEvidence(RateLimit, Disabled) => RateStage in arrived && d.rate.RateDisabled?
       case PolicyEvidence(RateLimit, Passed) => RateStage in arrived && d.rate.RateAdmitted?
       case PolicyEvidence(RateLimit, Rejected) => RateStage in arrived && d.rate.RateRejected?
       case PolicyEvidence(CsrfOrigin, Passed) =>
         CsrfStage in arrived && OriginStage in arrived && d.csrf.CsrfPassed? && d.originPassed
       case PolicyEvidence(CsrfOrigin, Rejected) =>
         (CsrfStage in arrived && d.csrf.CsrfRejected?) || (OriginStage in arrived && !d.originPassed)
       case PolicyEvidence(Authentication, Passed) => AuthStage in arrived && d.authenticated
       case PolicyEvidence(Authentication, Rejected) => AuthStage in arrived && !d.authenticated
       case PolicyEvidence(RouteMatching, Matched) => RouteStage in arrived && !d.routing.NoRoute?
       case PolicyEvidence(RouteMatching, NotMatched) => RouteStage in arrived && d.routing.NoRoute?
       case PolicyEvidence(ReplicaChoice, Chosen) => BackendStage in arrived && d.routing.Proxied?
       case PolicyEvidence(ReplicaChoice, NotChosen) => BackendStage in arrived && d.routing.NoReplica?
       case _ => false
  }

  function SelectionRebuilt(d: Decisions, arrived: set<Stage>): ReplicaSelection {
    if GatewayStage !in arrived || BackendStage !in arrived then SelectionUnknown
    else match d.routing
      case Proxied(replica, _) => if IsPublicReplicaId(replica) then ReplicaSelection.Selected(replica) else SelectionUnknown
      case NoReplica => NotSelected
      case _ => SelectionUnknown
  }

  predicate UpstreamFailed(d: Decisions) {
    d.routing.Proxied? && d.routing.upstream.status.Some? && d.routing.upstream.status.value >= 500
  }

  function DeliveryRebuilt(d: Decisions, arrived: set<Stage>): Delivery {
    if GatewayStage !in arrived then DeliveryUnknown
    else if ProxyStage in arrived && ServiceStage in arrived then
      (match SelectionRebuilt(d, arrived) case Selected(replica) => Delivered(replica) case _ => DeliveryUnknown)
    else if ProxyStage in arrived && UpstreamFailed(d) then Failed
    else if BackendStage in arrived && (d.routing.NoReplica? || d.routing.NoProxy?) then NotAttempted
    else DeliveryUnknown
  }

  ghost predicate ConclusiveRebuilt(d: Decisions, arrived: set<Stage>) {
    && GatewayStage in arrived
    && (ServiceStage in arrived ==> ProxyStage in arrived)
    && (|| (ServiceStage in arrived && AllChecksArrived(d, arrived))
        || (ProxyStage in arrived && ServiceStage !in arrived && UpstreamFailed(d))
        || (ProxyStage !in arrived && ServiceStage !in arrived && exists stage :: stage in arrived && TurnsAway(d, stage)))
  }

  ghost predicate AllChecksArrived(d: Decisions, arrived: set<Stage>) {
    && {RateStage, CsrfStage, OriginStage, AuthStage, RouteStage, BackendStage} <= arrived
    && d.routing.Proxied? && IsPublicReplicaId(d.routing.replica)
  }

  // ---- Spans and stages

  lemma {:induction false} OneStagePerOperation(a: Stage, b: Stage)
    requires OperationAt(a) == OperationAt(b)
    ensures a == b
  {
  }

  /** The span with a given operation, if it arrived, is that of its stage. */
  lemma {:induction false} ArrivedSpan(ps: seq<Producer>, d: Decisions, rec: Recording, p: Producer, stage: Stage)
    requires PartOf(ps, d, rec) && p in ps && p.operation == OperationAt(stage)
    ensures p == SpanOf(d, rec, stage) && stage in Arrived(ps, d, rec)
  {
    hide SpanOf, Reaches;
    var s :| Reaches(d, s) && p == SpanOf(d, rec, s);
    SpanFacts(d, rec, s);
    OneStagePerOperation(s, stage);
  }

  /** No later stage is reached after one that turns the request away. */
  lemma {:induction false} TurnedAwayIsLast(d: Decisions, stage: Stage)
    requires Reaches(d, stage) && TurnsAway(d, stage)
    ensures !ReachesProxy(d)
  {
  }

  /** What a span of the run looks like to the normalizer. */
  lemma {:induction false} SpanFacts(d: Decisions, rec: Recording, stage: Stage)
    ensures var p := SpanOf(d, rec, stage);
            && p.operation == OperationAt(stage)
            && Id(p) == Lower(rec.ids(stage))
            && (!stage.GatewayStage? && !stage.ServiceStage? ==> ParentId(p) == Id(SpanOf(d, rec, GatewayStage)))
            && (stage.ServiceStage? ==> ParentId(p) == Id(SpanOf(d, rec, ProxyStage)))
            && (!stage.ServiceStage? ==> p.evidence.outcome == OutcomeAt(d, stage))
  {
  }

  lemma {:induction false} ReportedIff(ps: seq<Producer>, d: Decisions, rec: Recording, check: Check, outcome: Outcome)
    requires PartOf(ps, d, rec)
    ensures ReportedUnder(ps, SpanOf(d, rec, GatewayStage), check, outcome) <==>
            StageFor(check) in Arrived(ps, d, rec) && OutcomeAt(d, StageFor(check)) == outcome
  {
    var g := SpanOf(d, rec, GatewayStage);
    var stage := StageFor(check);
    hide SpanOf, Reaches;
    SpanFacts(d, rec, stage);
    if p :| p in ps && IsPolicyUnder(p, g) && Matches(Reporting(check, outcome), p) {
      ArrivedSpan(ps, d, rec, p, stage);
    }
    if stage in Arrived(ps, d, rec) && OutcomeAt(d, stage) == outcome {
      assert IsPolicyUnder(SpanOf(d, rec, stage), g);
    }
  }

  lemma {:induction false} RunIsUnambiguous(ps: seq<Producer>, d: Decisions, rec: Recording)
    requires PartOf(ps, d, rec)
    ensures Unambiguous(ps, SpanOf(d, rec, GatewayStage))
  {
    hide SpanOf, Reaches;
    forall x, y | x in ps && y in ps && x.operation == y.operation
      ensures x == y
    {
      var a :| Reaches(d, a) && x == SpanOf(d, rec, a);
      SpanFacts(d, rec, a);
      ArrivedSpan(ps, d, rec, x, a);
      ArrivedSpan(ps, d, rec, y, a);
    }
    assert forall x, y: Producer :: Role(x) == Role(y) && Role(x) != GatewayPolicy ==> x.operation == y.operation;
  }

  lemma {:induction false} GatewayFound(ps: seq<Producer>, d: Decisions, rec: Recording)
    requires PartOf(ps, d, rec)
    ensures GatewayOf(ps) ==
            if GatewayStage in Arrived(ps, d, rec) then Some(SpanOf(d, rec, GatewayStage)) else None
  {
    hide SpanOf, Reaches;
    SpanFacts(d, rec, GatewayStage);
    FirstMatches(ps, WithRole(GatewayRequest));
    if GatewayOf(ps).Some? {
      ArrivedSpan(ps, d, rec, GatewayOf(ps).value, GatewayStage);
    }
  }

  lemma {:induction false} ProxyFound(ps: seq<Producer>, d: Decisions, rec: Recording)
    requires PartOf(ps, d, rec)
    ensures ProxyUnder(ps, Some(SpanOf(d, rec, GatewayStage))) ==
            if ProxyStage in Arrived(ps, d, rec) then Some(SpanOf(d, rec, ProxyStage)) else None
  {
    hide SpanOf, Reaches;
    SpanFacts(d, rec, ProxyStage);
    var g := SpanOf(d, rec, GatewayStage);
    ProxyIff(ps, g);
    if ProxyUnder(ps, Some(g)).Some? {
      ArrivedSpan(ps, d, rec, ProxyUnder(ps, Some(g)).value, ProxyStage);
    }
    if ProxyStage in Arrived(ps, d, rec) {
      assert IsProxyUnder(SpanOf(d, rec, ProxyStage), g);
    }
  }

  lemma {:induction false} ServiceFound(ps: seq<Producer>, d: Decisions, rec: Recording)
    requires PartOf(ps, d, rec)
    ensures First(ps, WithRole(OrdersService)) ==
            if ServiceStage in Arrived(ps, d, rec) then Some(SpanOf(d, rec, ServiceStage)) else None
  {
    hide SpanOf, Reaches;
    SpanFacts(d, rec, ServiceStage);
    ServiceIff(ps);
    if First(ps, WithRole(OrdersService)).Some? {
      ArrivedSpan(ps, d, rec, First(ps, WithRole(OrdersService)).value, ServiceStage);
    }
    if ServiceStage in Arrived(ps, d, rec) {
      assert Role(SpanOf(d, rec, ServiceStage)) == OrdersService;
    }
  }

  // ---- Evidence

  lemma {:induction false} PoliciesRebuilt(
    ps: seq<Producer>, d: Decisions, rec: Recording, result: RequestResult, num: NumberOf, e: PolicyEvidence)
    requires PartOf(ps, d, rec)
    ensures e in EvidenceShown(ps, result, num).policies <==> PolicyRebuilt(d, Arrived(ps, d, rec), e)
  {
    hide SpanOf, Reaches, PolicyOutcomesOf, GatewayPolicies, SelectionOf, DeliveryOf, Arrived, PolicyRebuilt, Shows;
    GatewayFound(ps, d, rec);
    if GatewayStage in Arrived(ps, d, rec) {
      var g := SpanOf(d, rec, GatewayStage);
      RunIsUnambiguous(ps, d, rec);
      PoliciesUnder(ps, g);
      PolicyEvidenceIff(GatewayPolicies(ps, Some(g)), e);
      ShowsRebuilt(ps, d, rec, e);
    } else {
      EmptyPolicies(ps, result, num);
      NothingRebuilt(d, Arrived(ps, d, rec), e);
    }
  }

  lemma {:induction false} ShowsRebuilt(ps: seq<Producer>, d: Decisions, rec: Recording, e: PolicyEvidence)
    requires PartOf(ps, d, rec) && GatewayStage in Arrived(ps, d, rec)
    ensures Shows(GatewayPolicies(ps, Some(SpanOf(d, rec, GatewayStage))), e) <==> PolicyRebuilt(d, Arrived(ps, d, rec), e)
  {
    hide SpanOf, Reaches, GatewayPolicies, Arrived, Any;
    var g := SpanOf(d, rec, GatewayStage);
    AnyIff(ps, d, rec, RateLimitCheck, Outcome.Disabled);
    AnyIff(ps, d, rec, RateLimitCheck, Admitted);
    AnyIff(ps, d, rec, RateLimitCheck, Outcome.Rejected);
    AnyIff(ps, d, rec, AuthenticationCheck, Authenticated);
    AnyIff(ps, d, rec, AuthenticationCheck, Outcome.Rejected);
    AnyIff(ps, d, rec, RouteCheck, Outcome.Matched);
    AnyIff(ps, d, rec, RouteCheck, Outcome.NotMatched);
    AnyIff(ps, d, rec, OriginCheck, Outcome.Passed);
    AnyIff(ps, d, rec, OriginCheck, Outcome.Rejected);
    AnyIff(ps, d, rec, CsrfCheck, Outcome.Passed);
    AnyIff(ps, d, rec, CsrfCheck, Outcome.Rejected);
    AnyIff(ps, d, rec, BackendCheck, Outcome.Selected);
    AnyIff(ps, d, rec, BackendCheck, Unavailable);
    assert BackendStage in Arrived(ps, d, rec) ==> !d.routing.NoRoute? by { BackendRouted(ps, d, rec); }
    assert CsrfStage in Arrived(ps, d, rec) ==> !d.csrf.CsrfAbsent? by { BackendRouted(ps, d, rec); }
  }

  lemma {:induction false} BackendRouted(ps: seq<Producer>, d: Decisions, rec: Recording)
    ensures BackendStage in Arrived(ps, d, rec) ==> !d.routing.NoRoute?
    ensures CsrfStage in Arrived(ps, d, rec) ==> !d.csrf.CsrfAbsent?
  {
  }

  lemma {:induction false} AnyIff(ps: seq<Producer>, d: Decisions, rec: Recording, check: Check, outcome: Outcome)
    requires PartOf(ps, d, rec)
    ensures Any(GatewayPolicies(ps, Some(SpanOf(d, rec, GatewayStage))), Reporting(check, outcome)) <==>
            StageFor(check) in Arrived(ps, d, rec) && OutcomeAt(d, StageFor(check)) == outcome
  {
    hide SpanOf, Reaches, GatewayPolicies, Any, ReportedUnder;
    AnyUnder(ps, SpanOf(d, rec, GatewayStage), check, outcome);
    ReportedIff(ps, d, rec, check, outcome);
  }

  lemma {:induction false} NothingRebuilt(d: Decisions, arrived: set<Stage>, e: PolicyEvidence)
    requires GatewayStage !in arrived
    ensures !PolicyRebuilt(d, arrived, e)
  {
  }

  lemma {:induction false} EmptyPolicies(ps: seq<Producer>, result: RequestResult, num: NumberOf)
    requires GatewayOf(ps) == None
    ensures EvidenceShown(ps, result, num).policies == []
    ensures GatewayPolicies(ps, None) == [] && ProxyUnder(ps, None) == None
  {
  }

  lemma {:induction false} ReplicaRebuilt(
    ps: seq<Producer>, d: Decisions, rec: Recording, result: RequestResult, num: NumberOf)
    requires PartOf(ps, d, rec)
    ensures EvidenceShown(ps, result, num).replicaSelection == SelectionRebuilt(d, Arrived(ps, d, rec))
  {
    hide SpanOf, Reaches, GatewayPolicies, Arrived, PolicyOutcomesOf, DeliveryOf, First, Any;
    GatewayFound(ps, d, rec);
    if GatewayStage in Arrived(ps, d, rec) {
      var g := SpanOf(d, rec, GatewayStage);
      var pols := GatewayPolicies(ps, Some(g));
      AnyIff(ps, d, rec, BackendCheck, Unavailable);
      AnyIff(ps, d, rec, BackendCheck, Outcome.Selected);
      SelectionSpan(ps, d, rec);
      assert BackendStage in Arrived(ps, d, rec) ==> !d.routing.NoRoute? by { BackendRouted(ps, d, rec); }
    } else {
      EmptyPolicies(ps, result, num);
      NoSelection();
    }
  }

  lemma {:induction false} NoSelection()
    ensures SelectionOf([]) == SelectionUnknown
  {
  }

  lemma {:induction false} SelectionSpan(ps: seq<Producer>, d: Decisions, rec: Recording)
    requires PartOf(ps, d, rec)
    ensures var pols := GatewayPolicies(ps, Some(SpanOf(d, rec, GatewayStage)));
            var span := First(pols, Reporting(BackendCheck, Outcome.Selected));
            && (span.Some? <==> Any(pols, Reporting(BackendCheck, Outcome.Selected)))
            && (span.Some? ==> span.value.evidence.replica == ShownReplica(d, BackendStage))
  {
    var g := SpanOf(d, rec, GatewayStage);
    var pols := GatewayPolicies(ps, Some(g));
    FirstMatches(pols, Reporting(BackendCheck, Outcome.Selected));
    PoliciesUnder(ps, g);
    var span := First(pols, Reporting(BackendCheck, Outcome.Selected));
    if span.Some? {
      ArrivedSpan(ps, d, rec, span.value, BackendStage);
    }
  }

  lemma {:induction false} DeliveryIsRebuilt(
    ps: seq<Producer>, d: Decisions, rec: Recording, result: RequestResult, num: NumberOf)
    requires PartOf(ps, d, rec) && Readable(rec, num)
    ensures EvidenceShown(ps, result, num).delivery == DeliveryRebuilt(d, Arrived(ps, d, rec))
  {
    hide SpanOf, Reaches, SelectionOf, GatewayPolicies, First, Arrived, Any, ProxyUnder, PolicyOutcomesOf;
    GatewayFound(ps, d, rec);
    ReplicaRebuilt(ps, d, rec, result, num);
    ServiceFound(ps, d, rec);
    if GatewayStage in Arrived(ps, d, rec) {
      var g := SpanOf(d, rec, GatewayStage);
      ProxyFound(ps, d, rec);
      AnyIff(ps, d, rec, BackendCheck, Unavailable);
      AnyIff(ps, d, rec, BackendCheck, ProxyUnavailable);
      ProxyStatus(d, rec, num);
      SpanFacts(d, rec, ServiceStage);
    } else {
      EmptyPolicies(ps, result, num);
      NoDelivery(First(ps, WithRole(OrdersService)), EvidenceShown(ps, result, num).replicaSelection, num);
    }
  }

  lemma {:induction false} NoDelivery(service: Option<Producer>, selection: ReplicaSelection, num: NumberOf)
    ensures DeliveryOf([], None, service, selection, num) == DeliveryUnknown
  {
  }

  lemma {:induction false} ProxyStatus(d: Decisions, rec: Recording, num: NumberOf)
    requires Readable(rec, num)
    ensures ServerFailed(SpanOf(d, rec, ProxyStage), num) <==> UpstreamFailed(d)
    ensures StatusCode(SpanOf(d, rec, GatewayStage), num) == Some(GatewayStatus(d))
  {
  }

  // ---- Completeness

  lemma {:induction false} RunParentage(ps: seq<Producer>, d: Decisions, rec: Recording)
    requires PartOf(ps, d, rec) && GatewayStage in Arrived(ps, d, rec)
    requires ServiceStage in Arrived(ps, d, rec) ==> ProxyStage in Arrived(ps, d, rec)
    ensures ParentageComplete(ps)
  {
    forall p | p in ps
      ensures ParentRecorded(ps, p)
    {
      var stage :| Reaches(d, stage) && p == SpanOf(d, rec, stage);
      var parent := if stage.ServiceStage? then SpanOf(d, rec, ProxyStage) else SpanOf(d, rec, GatewayStage);
      assert parent in ps;
      assert Role(p) == GatewayRequest || Id(parent) == ParentId(p);
    }
  }

  lemma {:induction false} ChecksArrivedIff(ps: seq<Producer>, d: Decisions, rec: Recording)
    requires PartOf(ps, d, rec) && ReachesProxy(d)
    ensures AllChecksPassed(ps, SpanOf(d, rec, GatewayStage)) <==>
            {RateStage, CsrfStage, OriginStage, AuthStage, RouteStage, BackendStage} <= Arrived(ps, d, rec)
  {
    hide SpanOf, ReportedUnder, Reaches, Arrived;
    ReportedIff(ps, d, rec, RateLimitCheck, Admitted);
    ReportedIff(ps, d, rec, RateLimitCheck, Outcome.Disabled);
    ReportedIff(ps, d, rec, OriginCheck, Outcome.Passed);
    ReportedIff(ps, d, rec, CsrfCheck, Outcome.Passed);
    ReportedIff(ps, d, rec, AuthenticationCheck, Authenticated);
    ReportedIff(ps, d, rec, RouteCheck, Outcome.Matched);
    ReportedIff(ps, d, rec, BackendCheck, Outcome.Selected);
  }

  lemma {:induction false} TerminalIff(d: Decisions, rec: Recording, stage: Stage)
    ensures IsPolicyUnder(SpanOf(d, rec, stage), SpanOf(d, rec, GatewayStage)) && IsTerminal(SpanOf(d, rec, stage)) <==>
            TurnsAway(d, stage)
  {
    hide SpanOf;
    SpanFacts(d, rec, stage);
  }

  lemma {:induction false} StoppedIff(ps: seq<Producer>, d: Decisions, rec: Recording)
    requires PartOf(ps, d, rec)
    ensures (exists p :: p in ps && IsPolicyUnder(p, SpanOf(d, rec, GatewayStage)) && IsTerminal(p)) <==>
            (exists stage :: stage in Arrived(ps, d, rec) && TurnsAway(d, stage))
  {
    hide SpanOf, Reaches, TurnsAway, IsTerminal, IsPolicyUnder;
    var g := SpanOf(d, rec, GatewayStage);
    if p :| p in ps && IsPolicyUnder(p, g) && IsTerminal(p) {
      var stage :| Reaches(d, stage) && p == SpanOf(d, rec, stage);
      TerminalIff(d, rec, stage);
    }
    if stage :| stage in Arrived(ps, d, rec) && TurnsAway(d, stage) {
      TerminalIff(d, rec, stage);
    }
  }

  lemma {:induction false} ProxyReached(ps: seq<Producer>, d: Decisions, rec: Recording)
    ensures ProxyStage in Arrived(ps, d, rec) ==> ReachesProxy(d)
  {
  }

  lemma {:induction false} CasesRebuilt(ps: seq<Producer>, d: Decisions, rec: Recording, num: NumberOf)
    requires PartOf(ps, d, rec) && Readable(rec, num)
    requires GatewayStage in Arrived(ps, d, rec)
    ensures var g, arrived := SpanOf(d, rec, GatewayStage), Arrived(ps, d, rec);
            && (WasDelivered(ps, g) <==> ProxyStage in arrived && ServiceStage in arrived && AllChecksArrived(d, arrived))
            && (HasFailed(ps, g, num) <==> ProxyStage in arrived && ServiceStage !in arrived && UpstreamFailed(d))
            && (WasStopped(ps, g) <==>
                ProxyStage !in arrived && ServiceStage !in arrived && exists stage :: stage in arrived && TurnsAway(d, stage))
  {
    hide AllChecksPassed, IsTerminal, ServerFailed, Reaches, StatusCode, SpanOf, ReplicaNamed, IsPublicReplicaId, TurnsAway, ProxyUnder, First;
    SpanFacts(d, rec, ProxyStage);
    SpanFacts(d, rec, ServiceStage);
    var g, arrived := SpanOf(d, rec, GatewayStage), Arrived(ps, d, rec);
    ProxyFound(ps, d, rec);
    ServiceFound(ps, d, rec);
    ProxyIff(ps, g);
    ServiceIff(ps);
    ProxyStatus(d, rec, num);
    StoppedIff(ps, d, rec);
    assert ProxyStage in arrived ==> ReachesProxy(d) by { ProxyReached(ps, d, rec); }
    forall x | x in ps && IsProxyUnder(x, g)
      ensures x == SpanOf(d, rec, ProxyStage)
    {
      ArrivedSpan(ps, d, rec, x, ProxyStage);
    }
    if ProxyStage in arrived && ServiceStage in arrived {
      ChecksArrivedIff(ps, d, rec);
      ReplicaNamedIff(ps, d, rec);
      assert Chained(ps, g) by {
        assert IsProxyUnder(SpanOf(d, rec, ProxyStage), g);
      }
    }
  }

  lemma {:induction false} ReplicaNamedIff(ps: seq<Producer>, d: Decisions, rec: Recording)
    requires PartOf(ps, d, rec) && ReachesProxy(d)
    ensures (exists replica :: ReplicaNamed(ps, SpanOf(d, rec, GatewayStage), replica)) <==>
            BackendStage in Arrived(ps, d, rec) && IsPublicReplicaId(d.routing.replica)
  {
    var g := SpanOf(d, rec, GatewayStage);
    if replica :| ReplicaNamed(ps, g, replica) {
      var b :| b in ps && IsPolicyUnder(b, g) && Matches(Reporting(BackendCheck, Outcome.Selected), b)
               && b.evidence.replica == Some(JString(replica));
      ArrivedSpan(ps, d, rec, b, BackendStage);
    }
    if BackendStage in Arrived(ps, d, rec) && IsPublicReplicaId(d.routing.replica) {
      var b := SpanOf(d, rec, BackendStage);
      assert IsPolicyUnder(b, g) && Matches(Reporting(BackendCheck, Outcome.Selected), b);
      assert ReplicaNamed(ps, g, d.routing.replica);
    }
  }

  /** Spans of one run are conclusive exactly when the right stages arrived and the client saw the gateway's status. */
  lemma {:induction false} ConclusiveIff(ps: seq<Producer>, d: Decisions, rec: Recording, status: int, num: NumberOf)
    requires PartOf(ps, d, rec) && Readable(rec, num)
    ensures (exists g :: ConclusiveAt(ps, g, status, num)) <==>
            status == GatewayStatus(d) && ConclusiveRebuilt(d, Arrived(ps, d, rec))
  {
    hide WasDelivered, HasFailed, WasStopped, Unambiguous, ParentageComplete, Reaches, StatusCode, AllChecksArrived, UpstreamFailed,
         TurnsAway, SpanOf;
    SpanFacts(d, rec, GatewayStage);
    var arrived := Arrived(ps, d, rec);
    var g := SpanOf(d, rec, GatewayStage);
    ProxyStatus(d, rec, num);
    RunIsUnambiguous(ps, d, rec);
    if h :| ConclusiveAt(ps, h, status, num) {
      ArrivedSpan(ps, d, rec, h, GatewayStage);
    }
    if GatewayStage in arrived {
      CasesRebuilt(ps, d, rec, num);
      ChainIff(ps, d, rec);
      if ServiceStage in arrived ==> ProxyStage in arrived {
        RunParentage(ps, d, rec);
      }
      assert ConclusiveAt(ps, g, status, num) <==>
             status == GatewayStatus(d) && ConclusiveRebuilt(d, arrived);
    }
  }

  lemma {:induction false} ChainIff(ps: seq<Producer>, d: Decisions, rec: Recording)
    requires PartOf(ps, d, rec)
    ensures (forall s :: s in ps && Role(s) == OrdersService ==>
               exists x :: x in ps && IsProxyUnder(x, SpanOf(d, rec, GatewayStage)) && ParentId(s) == Id(x))
       <==> (ServiceStage in Arrived(ps, d, rec) ==> ProxyStage in Arrived(ps, d, rec))
  {
    var g, arrived := SpanOf(d, rec, GatewayStage), Arrived(ps, d, rec);
    if ServiceStage in arrived {
      assert Role(SpanOf(d, rec, ServiceStage)) == OrdersService;
    }
    forall s | s in ps && Role(s) == OrdersService
      ensures s == SpanOf(d, rec, ServiceStage) && ServiceStage in arrived
    {
      ArrivedSpan(ps, d, rec, s, ServiceStage);
    }
    forall x | x in ps && IsProxyUnder(x, g)
      ensures x == SpanOf(d, rec, ProxyStage) && ProxyStage in arrived
    {
      ArrivedSpan(ps, d, rec, x, ProxyStage);
    }
    if ProxyStage in arrived {
      assert IsProxyUnder(SpanOf(d, rec, ProxyStage), g);
    }
  }

  // ---- The round trip

  /** A sequence of distinct spans of one run is never too long to be shown. */
  lemma {:induction false} RunFits(ps: seq<Producer>, d: Decisions, rec: Recording)
    requires PartOf(ps, d, rec)
    ensures |ps| <= 9
  {
    hide SpanOf, Reaches;
    DistinctIdsNoRepeats(ps);
    NoRepeatsIffCounted(ps);
    var all := {SpanOf(d, rec, GatewayStage), SpanOf(d, rec, RateStage), SpanOf(d, rec, CsrfStage),
                SpanOf(d, rec, OriginStage), SpanOf(d, rec, AuthStage), SpanOf(d, rec, RouteStage),
                SpanOf(d, rec, BackendStage), SpanOf(d, rec, ProxyStage), SpanOf(d, rec, ServiceStage)};
    forall p | p in Members(ps)
      ensures p in all
    {
      var stage :| Reaches(d, stage) && p == SpanOf(d, rec, stage);
      NineStages(stage);
    }
    SubsetSize(Members(ps), all);
  }

  lemma {:induction false} NineStages(stage: Stage)
    ensures stage in {GatewayStage, RateStage, CsrfStage, OriginStage, AuthStage, RouteStage, BackendStage, ProxyStage, ServiceStage}
  {
  }

  ghost predicate ResultFits(result: RequestResult, d: Decisions) {
    !result.ConnectionFailure? && result.statusCode == GatewayStatus(d)
  }

  ghost predicate JudgedAvailable(ps: seq<Producer>, result: RequestResult, num: NumberOf) {
    Judge(ps, result, num) == Ok(Available(EvidenceShown(ps, result, num)))
  }

  /** Any part of a run is judged; it is complete exactly when the arrived stages leave nothing open. */
  lemma {:induction false} PartJudged(
    ps: seq<Producer>, d: Decisions, rec: Recording, result: RequestResult, num: NumberOf)
    requires PartOf(ps, d, rec) && Readable(rec, num)
    ensures JudgedAvailable(ps, result, num) <==> ResultFits(result, d) && ConclusiveRebuilt(d, Arrived(ps, d, rec))
    ensures !JudgedAvailable(ps, result, num) ==> Judge(ps, result, num) == Ok(Partial(EvidenceShown(ps, result, num)))
  {
    hide SpanOf, Reaches, EvidenceShown, IsComplete, ConclusiveAt, ConclusiveRebuilt;
    RunFits(ps, d, rec);
    AvailableIff(ps, result, num);
    if !result.ConnectionFailure? {
      ConclusiveIff(ps, d, rec, result.statusCode, num);
    }
    PartFits(ps, d, rec, result, num);
  }

  lemma {:induction false} PartFits(
    ps: seq<Producer>, d: Decisions, rec: Recording, result: RequestResult, num: NumberOf)
    requires PartOf(ps, d, rec) && |ps| <= 9
    ensures |EvidenceShown(ps, result, num).policies| <= MAX_POLICY_EVIDENCE
    ensures |EvidenceShown(ps, result, num).spans| <= MAX_TRACE_SPANS
  {
    hide SpanOf, Reaches, PolicyOutcomesOf, SelectionOf, DeliveryOf;
    GatewayFound(ps, d, rec);
    if GatewayStage in Arrived(ps, d, rec) {
      var g := SpanOf(d, rec, GatewayStage);
      RunIsUnambiguous(ps, d, rec);
      UnambiguousIff(ps, g);
      PoliciesUnder(ps, g);
      EvidenceFits(GatewayPolicies(ps, Some(g)));
    } else {
      EmptyPolicies(ps, result, num);
    }
  }

  /** Every span of the run arrived. */
  ghost predicate AllArrived(ps: seq<Producer>, d: Decisions, rec: Recording) {
    forall stage :: Reaches(d, stage) ==> stage in Arrived(ps, d, rec)
  }

  /** What the gateway decided, as policy evidence. */
  function DecidedPolicies(d: Decisions): set<PolicyEvidence> {
    match d.rate
    case RateRejected => {PolicyEvidence(RateLimit, PolicyOutcome.Rejected)}
    case RateAdmitted => {PolicyEvidence(RateLimit, PolicyOutcome.Passed)} + DecidedAfterRate(d)
    case RateDisabled => {PolicyEvidence(RateLimit, PolicyOutcome.Disabled)} + DecidedAfterRate(d)
  }

  function DecidedAfterRate(d: Decisions): set<PolicyEvidence> {
    if d.csrf.CsrfRejected? || !d.originPassed then {PolicyEvidence(CsrfOrigin, PolicyOutcome.Rejected)}
    else (if d.csrf.CsrfPassed? then {PolicyEvidence(CsrfOrigin, PolicyOutcome.Passed)} else {})
         + if !d.authenticated then {PolicyEvidence(Authentication, PolicyOutcome.Rejected)}
           else {PolicyEvidence(Authentication, PolicyOutcome.Passed)} + DecidedRouting(d.routing)
  }

  function DecidedRouting(routing: Routing): set<PolicyEvidence> {
    match routing
    case NoRoute => {PolicyEvidence(RouteMatching, PolicyOutcome.NotMatched)}
    case NoReplica => {PolicyEvidence(RouteMatching, PolicyOutcome.Matched), PolicyEvidence(ReplicaChoice, NotChosen)}
    case NoProxy => {PolicyEvidence(RouteMatching, PolicyOutcome.Matched)}
    case Proxied(_, _) => {PolicyEvidence(RouteMatching, PolicyOutcome.Matched), PolicyEvidence(ReplicaChoice, Chosen)}
  }

  function DecidedSelection(d: Decisions): ReplicaSelection {
    if !LetThrough(d) then SelectionUnknown
    else match d.routing
      case NoReplica => NotSelected
      case Proxied(replica, _) => ReplicaSelection.Selected(replica)
      case _ => SelectionUnknown
  }

  function DecidedDelivery(d: Decisions): Delivery {
    if !LetThrough(d) then DeliveryUnknown
    else match d.routing
      case NoRoute => DeliveryUnknown
      case NoReplica => NotAttempted
      case NoProxy => NotAttempted
      case Proxied(replica, upstream) =>
        if upstream.served then Delivered(replica)
        else if UpstreamFailed(d) then Failed
        else DeliveryUnknown
  }

  /**
   The decisions leave nothing open: the request was turned away, or the service recorded it
   behind a CSRF check, or the upstream failed without the service recording it.
   */
  predicate Conclusive(d: Decisions) {
    || !ReachesProxy(d)
    || (d.routing.upstream.served && !d.csrf.CsrfAbsent?)
    || (!d.routing.upstream.served && UpstreamFailed(d))
  }

  lemma {:induction false} NineteenDigits()
    ensures INT64_LIMIT < Pow10(19)
  {
    assert Pow10(4) == 10_000;
    assert Pow10(8) == 100_000_000;
    assert Pow10(12) == 1_000_000_000_000;
    assert Pow10(16) == 10_000_000_000_000_000;
  }

  /** The label the proxy handler gives is one that may be shown. */
  lemma {:induction false} LabelIsPublic(index: nat)
    requires index < INT64_LIMIT
    ensures IsPublicReplicaId(ReplicaLabel(index))
  {
    NineteenDigits();
    DecimalReadsBack(index + 1);
    DecimalLength(index + 1, 19);
    var name := ReplicaLabel(index);
    forall i | 8 <= i < |name|
      ensures IsReplicaLead(name[i])
    {
      assert name[i] == Decimal(index + 1)[i - 8];
    }
  }

  /** Whatever the pipeline routes to, the label it records may be shown. */
  lemma {:induction false} RoutedLabelIsPublic(
    routers: seq<RouteTable.Router>, proxies: set<string>, path: string, upstream: Upstream)
    requires forall i :: 0 <= i < |routers| ==> routers[i].pool.Valid()
    requires RoutingOf(routers, proxies, path, upstream).Some?
    ensures var routing := RoutingOf(routers, proxies, path, upstream).value;
            routing.Proxied? ==> IsPublicReplicaId(routing.replica)
  {
    hide IsPublicReplicaId, ReplicaLabel;
    FirstRouterIndex(routers, path);
    var i := FirstRouter(routers, path);
    if i.Some? {
      var pool := routers[i.value].pool;
      match pool.At(pool.current) {
        case Chosen(_, index) => LabelIsPublic(index);
        case _ =>
      }
    }
  }

  ghost predicate LabelShown(d: Decisions) {
    ReachesProxy(d) ==> IsPublicReplicaId(d.routing.replica)
  }

  lemma {:induction false} StopsSomewhere(d: Decisions)
    requires !ReachesProxy(d)
    ensures exists stage :: Reaches(d, stage) && TurnsAway(d, stage)
  {
    var stage :=
      if d.rate.RateRejected? then RateStage
      else if d.csrf.CsrfRejected? then CsrfStage
      else if !d.originPassed then OriginStage
      else if !d.authenticated then AuthStage
      else if d.routing.NoRoute? then RouteStage
      else BackendStage;
    assert Reaches(d, stage) && TurnsAway(d, stage);
  }

  lemma {:induction false} AllStages(ps: seq<Producer>, d: Decisions, rec: Recording)
    requires AllArrived(ps, d, rec)
    ensures forall stage :: stage in Arrived(ps, d, rec) <==> Reaches(d, stage)
  {
  }

  lemma {:induction false} ConclusiveWhenAllArrived(d: Decisions, arrived: set<Stage>)
    requires LabelShown(d) && forall stage :: stage in arrived <==> Reaches(d, stage)
    ensures ConclusiveRebuilt(d, arrived) <==> Conclusive(d)
  {
    if !ReachesProxy(d) {
      StopsSomewhere(d);
    }
    forall stage | Reaches(d, stage) && TurnsAway(d, stage)
      ensures !ReachesProxy(d)
    {
      TurnedAwayIsLast(d, stage);
    }
  }

  lemma {:induction false} PoliciesWhenAllArrived(d: Decisions, arrived: set<Stage>, e: PolicyEvidence)
    requires forall stage :: stage in arrived <==> Reaches(d, stage)
    ensures PolicyRebuilt(d, arrived, e) <==> e in DecidedPolicies(d)
  {
    assert GatewayStage in arrived;
  }

  /**
   Round trip: whatever every stage decided, the full set of spans, in any order, rebuilds exactly those
   decisions, and is judged complete exactly when the decisions leave nothing open.
   */
  lemma {:induction false} FullTraceRoundTrip(
    ps: seq<Producer>, d: Decisions, rec: Recording, result: RequestResult, num: NumberOf)
    requires PartOf(ps, d, rec) && AllArrived(ps, d, rec) && Readable(rec, num)
    requires LabelShown(d) && ResultFits(result, d)
    ensures Judge(ps, result, num)
         == Ok(if Conclusive(d) then Available(EvidenceShown(ps, result, num)) else Partial(EvidenceShown(ps, result, num)))
    ensures forall e :: e in EvidenceShown(ps, result, num).policies <==> e in DecidedPolicies(d)
    ensures EvidenceShown(ps, result, num).replicaSelection == DecidedSelection(d)
    ensures EvidenceShown(ps, result, num).delivery == DecidedDelivery(d)
  {
    hide SpanOf, EvidenceShown, Judge, ConclusiveRebuilt, PolicyRebuilt, DecidedPolicies, Arrived;
    var arrived := Arrived(ps, d, rec);
    AllStages(ps, d, rec);
    PartJudged(ps, d, rec, result, num);
    ConclusiveWhenAllArrived(d, arrived);
    forall e
      ensures e in EvidenceShown(ps, result, num).policies <==> e in DecidedPolicies(d)
    {
      PoliciesRebuilt(ps, d, rec, result, num, e);
      PoliciesWhenAllArrived(d, arrived, e);
    }
    ReplicaRebuilt(ps, d, rec, result, num);
    DeliveryIsRebuilt(ps, d, rec, result, num);
  }

  // ---- Partial export

  lemma {:induction false} ArrivedGrows(ps: seq<Producer>, qs: seq<Producer>, d: Decisions, rec: Recording)
    requires forall p :: p in ps ==> p in qs
    ensures Arrived(ps, d, rec) <= Arrived(qs, d, rec)
  {
  }

  lemma {:induction false} PolicyKept(d: Decisions, a: set<Stage>, b: set<Stage>, e: PolicyEvidence)
    requires a <= b && PolicyRebuilt(d, a, e)
    requires forall stage :: stage in b ==> Reaches(d, stage)
    ensures PolicyRebuilt(d, b, e)
  {
  }

  /** Fewer spans never contradict more spans of the same run: they only leave more unknown. */
  lemma {:induction false} PartialExportAgrees(
    ps: seq<Producer>, qs: seq<Producer>, d: Decisions, rec: Recording, result: RequestResult, num: NumberOf)
    requires PartOf(ps, d, rec) && PartOf(qs, d, rec) && Readable(rec, num)
    requires forall p :: p in ps ==> p in qs
    ensures var a, b := EvidenceShown(ps, result, num), EvidenceShown(qs, result, num);
            && (forall e :: e in a.policies ==> e in b.policies)
            && (a.replicaSelection == SelectionUnknown || a.replicaSelection == b.replicaSelection)
            && (a.delivery.Delivered? ==> a.delivery == b.delivery)
  {
    hide SpanOf, EvidenceShown, PolicyRebuilt;
    ArrivedGrows(ps, qs, d, rec);
    forall e | e in EvidenceShown(ps, result, num).policies
      ensures e in EvidenceShown(qs, result, num).policies
    {
      PoliciesRebuilt(ps, d, rec, result, num, e);
      PoliciesRebuilt(qs, d, rec, result, num, e);
      PolicyKept(d, Arrived(ps, d, rec), Arrived(qs, d, rec), e);
    }
    ReplicaRebuilt(ps, d, rec, result, num);
    ReplicaRebuilt(qs, d, rec, result, num);
    DeliveryIsRebuilt(ps, d, rec, result, num);
    DeliveryIsRebuilt(qs, d, rec, result, num);
  }

  /** The service recorded a request whose proxied call reports a server error. */
  predicate FailedButServed(d: Decisions) {
    ReachesProxy(d) && d.routing.upstream.served && UpstreamFailed(d)
  }

  lemma {:induction false} ConclusionKept(d: Decisions, a: set<Stage>, b: set<Stage>)
    requires a <= b && ConclusiveRebuilt(d, a) && !FailedButServed(d)
    requires forall stage :: stage in b ==> Reaches(d, stage)
    ensures ConclusiveRebuilt(d, b)
    ensures SelectionRebuilt(d, a) == SelectionRebuilt(d, b) || (UpstreamFailed(d) && BackendStage !in a)
    ensures DeliveryRebuilt(d, a) == DeliveryRebuilt(d, b)
  {
    if stage :| stage in a && TurnsAway(d, stage) {
      TurnedAwayIsLast(d, stage);
    }
  }

  /**
   Once a part of a run is judged complete, further spans of the run keep that verdict and the delivery,
   unless the service recorded a request whose proxied call failed. The selection is kept too, except that
   after a failed proxied call it may still become known.
   */
  lemma {:induction false} AvailableIsStable(
    ps: seq<Producer>, qs: seq<Producer>, d: Decisions, rec: Recording, result: RequestResult, num: NumberOf)
    requires PartOf(ps, d, rec) && PartOf(qs, d, rec) && Readable(rec, num)
    requires forall p :: p in ps ==> p in qs
    requires JudgedAvailable(ps, result, num) && !FailedButServed(d)
    ensures JudgedAvailable(qs, result, num)
    ensures var a, b := EvidenceShown(ps, result, num), EvidenceShown(qs, result, num);
            && a.delivery == b.delivery
            && (a.replicaSelection == b.replicaSelection || (UpstreamFailed(d) && a.replicaSelection == SelectionUnknown))
  {
    hide SpanOf, EvidenceShown, PolicyRebuilt, Judge, ConclusiveRebuilt, DeliveryRebuilt;
    ArrivedGrows(ps, qs, d, rec);
    PartJudged(ps, d, rec, result, num);
    PartJudged(qs, d, rec, result, num);
    ConclusionKept(d, Arrived(ps, d, rec), Arrived(qs, d, rec));
    ReplicaRebuilt(ps, d, rec, result, num);
    ReplicaRebuilt(qs, d, rec, result, num);
    DeliveryIsRebuilt(ps, d, rec, result, num);
    DeliveryIsRebuilt(qs, d, rec, result, num);
  }

  function SpansOf(d: Decisions, rec: Recording, stages: seq<Stage>): seq<Producer> {
    seq(|stages|, i requires 0 <= i < |stages| => SpanOf(d, rec, stages[i]))
  }

  lemma {:induction false} SpansOfRun(d: Decisions, rec: Recording, stages: seq<Stage>)
    requires DistinctStages(rec) && NoRepeats(stages)
    requires forall stage :: stage in stages ==> Reaches(d, stage)
    ensures PartOf(SpansOf(d, rec, stages), d, rec)
    ensures forall stage :: stage in Arrived(SpansOf(d, rec, stages), d, rec) <==> stage in stages
  {
    hide SpanOf, Reaches;
    var ps := SpansOf(d, rec, stages);
    forall i, j | 0 <= i < j < |ps|
      ensures Lower(ps[i].spanId) != Lower(ps[j].spanId)
    {
      SpanFacts(d, rec, stages[i]);
      SpanFacts(d, rec, stages[j]);
    }
    forall stage
      ensures stage in Arrived(ps, d, rec) <==> stage in stages
    {
      if stage in Arrived(ps, d, rec) {
        var i :| 0 <= i < |ps| && ps[i] == SpanOf(d, rec, stage);
        SpanFacts(d, rec, stage);
        SpanFacts(d, rec, stages[i]);
        OneStagePerOperation(stage, stages[i]);
      }
      if stage in stages {
        var i :| 0 <= i < |stages| && stages[i] == stage;
        assert ps[i] == SpanOf(d, rec, stage);
      }
    }
  }

  /**
   The exception is real: in every run whose service recorded a request its proxied call reports as
   failed, the spans of gateway and proxy alone are judged complete and `failed`, and the service's
   span then turns the delivery into something else.
   */
  lemma {:induction false} FailedVerdictCanChange(d: Decisions, rec: Recording, result: RequestResult, num: NumberOf)
    requires FailedButServed(d) && DistinctStages(rec) && Readable(rec, num) && ResultFits(result, d)
    ensures exists ps: seq<Producer>, qs: seq<Producer> ::
              && PartOf(ps, d, rec) && PartOf(qs, d, rec)
              && (forall p :: p in ps ==> p in qs)
              && JudgedAvailable(ps, result, num)
              && EvidenceShown(ps, result, num).delivery == Failed
              && EvidenceShown(qs, result, num).delivery != Failed
  {
    hide SpanOf, EvidenceShown, JudgedAvailable, PartOf, SpansOf, Arrived, ConclusiveRebuilt, DeliveryRebuilt;
    var few, more := [GatewayStage, ProxyStage], [GatewayStage, ProxyStage, ServiceStage];
    SpansOfRun(d, rec, few);
    SpansOfRun(d, rec, more);
    var ps, qs := SpansOf(d, rec, few), SpansOf(d, rec, more);
    assert more == few + [ServiceStage];
    SpansOfPrefix(d, rec, few, ServiceStage);
    PartJudged(ps, d, rec, result, num);
    DeliveryIsRebuilt(ps, d, rec, result, num);
    DeliveryIsRebuilt(qs, d, rec, result, num);
    FailedThenServed(d, Arrived(ps, d, rec), Arrived(qs, d, rec));
  }

  lemma {:induction false} SpansOfPrefix(d: Decisions, rec: Recording, stages: seq<Stage>, stage: Stage)
    ensures forall p :: p in SpansOf(d, rec, stages) ==> p in SpansOf(d, rec, stages + [stage])
  {
    hide SpanOf;
    assert SpansOf(d, rec, stages + [stage])[..|stages|] == SpansOf(d, rec, stages);
  }

  lemma {:induction false} FailedThenServed(d: Decisions, few: set<Stage>, more: set<Stage>)
    requires FailedButServed(d)
    requires forall stage :: stage in few <==> stage in [GatewayStage, ProxyStage]
    requires forall stage :: stage in more <==> stage in [GatewayStage, ProxyStage, ServiceStage]
    ensures ConclusiveRebuilt(d, few) && DeliveryRebuilt(d, few) == Failed && DeliveryRebuilt(d, more) != Failed
  {
  }

  /** Every run can be recorded in full, so the round trip is about something. */
  lemma {:induction false} FullTraceExists(d: Decisions, rec: Recording) returns (ps: seq<Producer>)
    requires DistinctStages(rec)
    ensures PartOf(ps, d, rec) && AllArrived(ps, d, rec)
  {
    hide SpanOf;
    var stages := Filter(d, [GatewayStage, RateStage, CsrfStage, OriginStage, AuthStage, RouteStage,
                             BackendStage, ProxyStage, ServiceStage]);
    ps := SpansOf(d, rec, stages);
    SpansOfRun(d, rec, stages);
    forall stage | Reaches(d, stage)
      ensures stage in stages
    {
      NineStages(stage);
    }
  }

  function Filter(d: Decisions, stages: seq<Stage>): (kept: seq<Stage>)
    requires NoRepeats(stages)
    ensures forall stage :: stage in kept <==> stage in stages && Reaches(d, stage)
    ensures NoRepeats(kept)
  {
    if stages == [] then []
    else
      assert forall i :: 0 <= i < |stages[1..]| ==> stages[1..][i] == stages[i + 1];
      assert stages == [stages[0]] + stages[1..];
      var rest := Filter(d, stages[1..]);
      if Reaches(d, stages[0]) then [stages[0]] + rest else rest
  }
}
