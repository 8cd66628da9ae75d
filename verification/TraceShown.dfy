/** The spans shown with the evidence: what each of their fields says of the span that was recorded. */
module TraceShown {
  import opened Common
  import opened Text
  import opened Json
  import opened RequestFlow
  import opened JaegerParser
  import opened ParserAcceptance
  import opened TraceNormalizer
  import opened GatewayPipeline
  import opened TraceRoundTrip
  import opened JaegerEncoding

  /** The duration shown is the time between start and end in milliseconds, unless that is more than five minutes. */
  predicate Lasts(shown: Option<real>, startNs: nat, endNs: nat) {
    if endNs - startNs <= 300_000_000_000 then shown.Some? && shown.value * 1_000_000.0 == (endNs - startNs) as real
    else shown.None?
  }

  /** Whatever the spans, each is shown as it was recorded, in the order listed. */
  lemma {:induction false} ShownFields(ps: seq<Producer>, result: RequestResult, num: NumberOf, i: nat)
    requires i < |ps|
    ensures var p, shown := ps[i], EvidenceShown(ps, result, num);
            && shown.traceId == result.traceId && |shown.spans| == |ps|
            && var s := shown.spans[i];
               && s.spanId == Lower(p.spanId)
               && s.parentSpanId ==
                  (if p.operation == GatewayServer || p.parentSpanId == "" then None else Some(Lower(p.parentSpanId)))
               && (s.role == GatewayRequest <==> p.operation == GatewayServer)
               && (s.role == GatewayPolicy <==> p.operation.Policy?)
               && (s.role == GatewayProxy <==> p.operation == ProxyCall)
               && (s.role == OrdersService <==> p.operation == OrdersServer)
               && (s.policy == Some(RateLimit) <==> p.operation == Policy(RateLimitCheck))
               && (s.policy == Some(CsrfOrigin) <==> p.operation == Policy(OriginCheck) || p.operation == Policy(CsrfCheck))
               && (s.policy == Some(Authentication) <==> p.operation == Policy(AuthenticationCheck))
               && (s.policy == Some(RouteMatching) <==> p.operation == Policy(RouteCheck))
               && (s.policy == Some(ReplicaChoice) <==> p.operation == Policy(BackendCheck))
               && Lasts(s.durationMs, p.startNs, p.endNs)
  {
    hide PolicyOutcomesOf, First, DeliveryOf, GatewayPolicies, SelectionOf, ProxyUnder, Lower;
  }

  /** The gateway is a root, the service is under the proxy call, and everything else under the gateway. */
  function ParentTold(stage: Stage, rec: Recording): Option<string> {
    if stage.GatewayStage? then None
    else
      var id := rec.ids(if stage.ServiceStage? then ProxyStage else GatewayStage);
      if id == "" then None else Some(Lower(id))
  }

  function RoleTold(stage: Stage): SpanRole {
    match stage
    case GatewayStage => GatewayRequest
    case ProxyStage => GatewayProxy
    case ServiceStage => OrdersService
    case _ => GatewayPolicy
  }

  function PolicyTold(stage: Stage): Option<PolicyName> {
    match stage
    case RateStage => Some(RateLimit)
    case CsrfStage => Some(CsrfOrigin)
    case OriginStage => Some(CsrfOrigin)
    case AuthStage => Some(Authentication)
    case RouteStage => Some(RouteMatching)
    case BackendStage => Some(ReplicaChoice)
    case _ => None
  }

  /** A shown span tells of the given stage: its identifier, parent, role, policy and duration. */
  predicate Tells(s: TraceSpan, stage: Stage, rec: Recording) {
    && s.spanId == Lower(rec.ids(stage))
    && s.parentSpanId == ParentTold(stage, rec) && s.role == RoleTold(stage) && s.policy == PolicyTold(stage)
    && Lasts(s.durationMs, rec.starts(stage), rec.ends(stage))
  }

  lemma {:induction false} StageTold(d: Decisions, rec: Recording, stage: Stage)
    ensures Tells(ShownSpan(SpanOf(d, rec, stage)), stage, rec)
  {
    hide Lower;
  }

  ghost predicate IsTold(spans: seq<TraceSpan>, stage: Stage, rec: Recording) {
    exists s :: s in spans && Tells(s, stage, rec)
  }

  ghost predicate TellsOfAny(s: TraceSpan, stages: set<Stage>, rec: Recording) {
    exists stage :: stage in stages && Tells(s, stage, rec)
  }

  /** Every arrived stage is told of by one shown span, and every shown span tells of an arrived stage. */
  ghost predicate TellsAll(spans: seq<TraceSpan>, arrived: set<Stage>, rec: Recording) {
    && |spans| == |arrived|
    && (forall stage :: stage in arrived ==> IsTold(spans, stage, rec))
    && (forall s :: s in spans ==> TellsOfAny(s, arrived, rec))
    && (forall i, j :: 0 <= i < j < |spans| ==> spans[i].spanId != spans[j].spanId)
  }

  lemma {:induction false} RunIsTold(ps: seq<Producer>, d: Decisions, rec: Recording)
    requires PartOf(ps, d, rec) && DistinctStages(rec)
    ensures TellsAll(ShownSpans(ps), Arrived(ps, d, rec), rec)
  {
    hide SpanOf, Reaches, Tells, Lower, ShownSpan;
    var arrived, spans := Arrived(ps, d, rec), ShownSpans(ps);
    ArrivedCount(ps, d, rec);
    forall stage | stage in arrived
      ensures IsTold(spans, stage, rec)
    {
      var i :| 0 <= i < |ps| && ps[i] == SpanOf(d, rec, stage);
      StageTold(d, rec, stage);
      assert spans[i] in spans && Tells(spans[i], stage, rec);
    }
    forall s | s in spans
      ensures TellsOfAny(s, arrived, rec)
    {
      var i :| 0 <= i < |spans| && spans[i] == s;
      assert ps[i] in ps;
      var stage :| Reaches(d, stage) && ps[i] == SpanOf(d, rec, stage);
      StageTold(d, rec, stage);
      assert stage in arrived && Tells(s, stage, rec);
    }
    forall i, j | 0 <= i < j < |spans|
      ensures spans[i].spanId != spans[j].spanId
    {
      ShownId(ps[i]);
      ShownId(ps[j]);
    }
  }

  lemma {:induction false} ShownId(p: Producer)
    ensures ShownSpan(p).spanId == Lower(p.spanId)
  {
    hide Lower;
  }

  lemma {:induction false} DistinctFront(ps: seq<Producer>)
    requires DistinctIds(ps) && ps != []
    ensures DistinctIds(ps[..|ps| - 1]) && ps[|ps| - 1] !in ps[..|ps| - 1]
  {
    hide Lower;
    var front := ps[..|ps| - 1];
    assert forall i :: 0 <= i < |front| ==> front[i] == ps[i];
  }

  /** As many spans as stages. */
  lemma {:induction false} ArrivedCount(ps: seq<Producer>, d: Decisions, rec: Recording)
    requires PartOf(ps, d, rec) && DistinctStages(rec)
    ensures |ps| == |Arrived(ps, d, rec)|
  {
    hide SpanOf, Reaches, Lower, DistinctIds;
    var arrived := Arrived(ps, d, rec);
    if ps == [] {
      assert arrived == {};
    } else {
      var front, last := ps[..|ps| - 1], ps[|ps| - 1];
      assert ps == front + [last];
      DistinctFront(ps);
      assert forall p :: p in front ==> p in ps;
      ArrivedCount(front, d, rec);
      assert last in ps;
      var stage :| Reaches(d, stage) && last == SpanOf(d, rec, stage);
      forall other | other in arrived
        ensures other in Arrived(front, d, rec) + {stage}
      {
        if SpanOf(d, rec, other) == last {
          SpanFacts(d, rec, other);
          SpanFacts(d, rec, stage);
        }
      }
      assert arrived == Arrived(front, d, rec) + {stage};
    }
  }

  /**
   Over JSON payloads: the normalized trace of any part of a run shows one span for each stage that arrived, with that
   stage's identifier, parent, role, policy and duration.
   */
  lemma {:induction false} PayloadSpansShown(
    payload: Json, ps: seq<Producer>, d: Decisions, rec: Recording, traceId: string, result: RequestResult, num: NumberOf)
    requires NonZeroHex(traceId, 32) && result.traceId == Lower(traceId)
    requires PartOf(ps, d, rec) && ps != [] && DistinctStages(rec) && Readable(rec, num)
    requires Carries(payload, ps, traceId)
    ensures var r := Normalize(payload, traceId, result, num);
            && r.Ok? && !r.value.NotFound? && r.value.trace.traceId == Lower(traceId)
            && TellsAll(r.value.trace.spans, Arrived(ps, d, rec), rec)
  {
    hide Judge, SpanOf, EvidenceShown, Carries, Normalize, PartOf, Readable, ConclusiveRebuilt, Arrived, TellsAll, DistinctStages;
    var qs := CarriedRunIsJudged(payload, ps, d, rec, traceId, result, num);
    PartJudged(qs, d, rec, result, num);
    RunIsTold(qs, d, rec);
    ShownAre(qs, result, num);
  }

  lemma {:induction false} ShownAre(ps: seq<Producer>, result: RequestResult, num: NumberOf)
    ensures EvidenceShown(ps, result, num).spans == ShownSpans(ps)
    ensures EvidenceShown(ps, result, num).traceId == result.traceId
  {
    hide PolicyOutcomesOf, First, DeliveryOf, GatewayPolicies, SelectionOf, ProxyUnder, ShownSpans;
  }
}
