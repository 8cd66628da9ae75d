/**
 The gateway's pipeline for a GET through the catch-all route: which decisions are taken
 in which order, which child spans record them, and the status the client gets.
 */
module GatewayPipeline {
  import opened Common
  import opened Text
  import opened JaegerParser
  import opened BackendPools
  import opened GoInts
  import opened RouteTable

  datatype RateDecision = RateDisabled | RateAdmitted | RateRejected

  datatype CsrfDecision = CsrfAbsent | CsrfPassed | CsrfRejected

  /** The upstream's answer: no status when the call itself failed; `served` when the service recorded a span. */
  datatype Upstream = Upstream(status: Option<int>, served: bool)

  datatype Routing =
    | NoRoute
    | NoReplica
    | NoProxy
    | Proxied(replica: string, upstream: Upstream)

  /** Every decision the stages of the pipeline can take; later ones matter only when reached. */
  datatype Decisions = Decisions(
    rate: RateDecision,
    csrf: CsrfDecision,
    originPassed: bool,
    authenticated: bool,
    routing: Routing)

  datatype Stage =
    | GatewayStage
    | RateStage
    | CsrfStage
    | OriginStage
    | AuthStage
    | RouteStage
    | BackendStage
    | ProxyStage
    | ServiceStage

  /** A span as recorded: the stage, its policy outcome and the replica label it names. */
  datatype Recorded = Recorded(stage: Stage, outcome: Outcome, replica: string)

  // ---- What a run records

  /** Every stage before the proxy handler lets the request through. */
  predicate LetThrough(d: Decisions) {
    !d.rate.RateRejected? && !d.csrf.CsrfRejected? && d.originPassed && d.authenticated
  }

  /** The stages entered before the proxy handler. */
  function Front(d: Decisions): seq<Stage> {
    [GatewayStage, RateStage]
    + (if d.rate.RateRejected? then []
       else (if d.csrf.CsrfAbsent? then [] else [CsrfStage])
            + (if d.csrf.CsrfRejected? then []
               else [OriginStage] + (if d.originPassed then [AuthStage] else [])))
  }

  function Reached(d: Decisions): seq<Stage> {
    Front(d) + (if LetThrough(d) then [RouteStage] + ReachedBehindRoute(d.routing) else [])
  }

  function ReachedBehindRoute(routing: Routing): seq<Stage> {
    match routing
    case NoRoute => []
    case NoReplica => [BackendStage]
    case NoProxy => [BackendStage]
    case Proxied(_, upstream) => [BackendStage, ProxyStage] + (if upstream.served then [ServiceStage] else [])
  }

  /** Whether the request gets as far as a stage. */
  predicate Reaches(d: Decisions, stage: Stage) {
    match stage
    case GatewayStage => true
    case RateStage => true
    case CsrfStage => !d.rate.RateRejected? && !d.csrf.CsrfAbsent?
    case OriginStage => !d.rate.RateRejected? && !d.csrf.CsrfRejected?
    case AuthStage => !d.rate.RateRejected? && !d.csrf.CsrfRejected? && d.originPassed
    case RouteStage => LetThrough(d)
    case BackendStage => LetThrough(d) && !d.routing.NoRoute?
    case ProxyStage => LetThrough(d) && d.routing.Proxied?
    case ServiceStage => LetThrough(d) && d.routing.Proxied? && d.routing.upstream.served
  }

  lemma {:induction false} ReachedIff(d: Decisions, stage: Stage)
    ensures stage in Reached(d) <==> Reaches(d, stage)
  {
    var behind := if LetThrough(d) then [RouteStage] + ReachedBehindRoute(d.routing) else [];
    assert stage in Reached(d) <==> stage in Front(d) || stage in behind;
  }

  /** The outcome a stage records when it is reached. */
  function OutcomeAt(d: Decisions, stage: Stage): Outcome {
    match stage
    case RateStage =>
      (match d.rate case RateDisabled => Outcome.Disabled case RateAdmitted => Admitted case RateRejected => Outcome.Rejected)
    case CsrfStage => if d.csrf.CsrfRejected? then Outcome.Rejected else Outcome.Passed
    case OriginStage => if d.originPassed then Outcome.Passed else Outcome.Rejected
    case AuthStage => if d.authenticated then Authenticated else Outcome.Rejected
    case RouteStage => if d.routing.NoRoute? then Outcome.NotMatched else Outcome.Matched
    case BackendStage =>
      (match d.routing
       case NoReplica => Unavailable
       case NoProxy => ProxyUnavailable
       case _ => Outcome.Selected)
    case _ => Unrecorded
  }

  function ReplicaAt(d: Decisions, stage: Stage): string {
    if stage.BackendStage? && d.routing.Proxied? then d.routing.replica else ""
  }

  function RecordOf(d: Decisions, stage: Stage): Recorded {
    Recorded(stage, OutcomeAt(d, stage), ReplicaAt(d, stage))
  }

  function Records(d: Decisions, stages: seq<Stage>): seq<Recorded> {
    seq(|stages|, i requires 0 <= i < |stages| => RecordOf(d, stages[i]))
  }

  /** The spans of a run, in the order the stages are entered. */
  function LogOf(d: Decisions): seq<Recorded> {
    Records(d, Reached(d))
  }

  /** The status the gateway answers with, 502 when the upstream call failed. */
  function GatewayStatus(d: Decisions): int {
    if d.rate.RateRejected? then 429
    else if d.csrf.CsrfRejected? then 403
    else if !d.originPassed then 403
    else if !d.authenticated then 401
    else RoutedStatus(d.routing)
  }

  function RoutedStatus(routing: Routing): int {
    match routing
    case NoRoute => 404
    case NoReplica => 503
    case NoProxy => 503
    case Proxied(_, upstream) => if upstream.status.Some? then upstream.status.value else 502
  }

  // ---- The proxy handler

  function ReplicaLabel(index: nat): string {
    "replica-" + Decimal(index + 1)
  }

  /** The public label of a backend: its position in the pool, counted from one. */
  method BackendReplicaLabel(pool: BackendPool, selected: Backend) returns (name: string)
    ensures selected !in pool.backends ==> name == ""
    ensures forall i :: 0 <= i < |pool.backends| && pool.backends[i] == selected && selected !in pool.backends[..i] ==>
              name == ReplicaLabel(i)
  {
    for i := 0 to |pool.backends|
      invariant selected !in pool.backends[..i]
    {
      if pool.backends[i] == selected {
        return ReplicaLabel(i);
      }
      assert pool.backends[..i + 1] == pool.backends[..i] + [pool.backends[i]];
    }
    assert pool.backends[..|pool.backends|] == pool.backends;
    return "";
  }

  /** The first router whose prefix the path has. */
  function FirstRouter(routers: seq<Router>, path: string): Option<nat> {
    if routers == [] then None
    else if IsPrefix(routers[0].pathPrefix, path) then Some(0)
    else match FirstRouter(routers[1..], path)
      case None => None
      case Some(i) => Some(i + 1)
  }

  lemma {:induction false} FirstRouterIndex(routers: seq<Router>, path: string)
    ensures FirstRouter(routers, path).Some? ==> FirstRouter(routers, path).value < |routers|
  {
    if routers != [] {
      FirstRouterIndex(routers[1..], path);
    }
  }

  /** Routing by table and routing by configured routes agree. */
  lemma {:induction false} RoutersFollowRoutes(routers: seq<Router>, routes: seq<Route>, path: string)
    requires |routers| == |routes|
    requires forall i :: 0 <= i < |routers| ==> routers[i].pathPrefix == routes[i].pathPrefix
    ensures FirstRouter(routers, path) == FirstMatch(routes, path)
  {
    if routers != [] {
      RoutersFollowRoutes(routers[1..], routes[1..], path);
    }
  }

  method MatchRoute(routers: seq<Router>, path: string) returns (matched: Option<Router>)
    ensures match FirstRouter(routers, path)
            case None => matched == None
            case Some(i) => i < |routers| && matched == Some(routers[i])
  {
    for i := 0 to |routers|
      invariant match FirstRouter(routers[i..], path)
                case None => FirstRouter(routers, path) == None
                case Some(j) => FirstRouter(routers, path) == Some(i + j)
    {
      assert routers[i..][0] == routers[i] && routers[i..][1..] == routers[i + 1..];
      if IsPrefix(routers[i].pathPrefix, path) {
        return Some(routers[i]);
      }
    }
    return None;
  }

  /** Where a pool in this state sends its next request; None when picking panics. */
  function RoutingFrom(pool: BackendPool, proxies: set<string>, upstream: Upstream): Option<Routing>
    reads pool
  {
    match pool.At(pool.current)
    case NoBackend => Some(NoReplica)
    case Panicked => None
    case Chosen(backend, index) =>
      Some(if backend.id in proxies then Proxied(ReplicaLabel(index), upstream) else NoProxy)
  }

  function RoutingOf(routers: seq<Router>, proxies: set<string>, path: string, upstream: Upstream): Option<Routing>
    reads Pools(routers)
  {
    match FirstRouter(routers, path)
    case None => Some(NoRoute)
    case Some(i) => FirstRouterIndex(routers, path); RoutingFrom(routers[i].pool, proxies, upstream)
  }

  /** The pool of the router that takes the path. */
  predicate IsTaken(routers: seq<Router>, path: string, pool: BackendPool) {
    match FirstRouter(routers, path)
    case None => false
    case Some(i) => FirstRouterIndex(routers, path); routers[i].pool == pool
  }

  /** A pool's counter once a request has picked from it. */
  function Advanced(pool: BackendPool): int
    reads pool
  {
    if pool.backends == [] then pool.current else Wrap64(pool.current + 1)
  }

  /** Routes, selects and proxies one request; `proxies` are the upstream URLs a proxy exists for. */
  method ProxyHandler(routers: seq<Router>, proxies: set<string>, path: string, upstream: Upstream, log0: seq<Recorded>)
    returns (routing: Option<Routing>, status: int, log: seq<Recorded>)
    requires forall i :: 0 <= i < |routers| ==> routers[i].pool.Valid() && NoRepeats(routers[i].pool.backends)
    modifies set r | r in routers :: r.pool`current
    ensures routing == old(RoutingOf(routers, proxies, path, upstream))
    ensures routing.Some? ==> log == log0 + BehindAuth(routing.value) && status == RoutedStatus(routing.value)
    ensures forall i :: 0 <= i < |routers| ==>
              routers[i].pool.current ==
              old(if IsTaken(routers, path, routers[i].pool) then Advanced(routers[i].pool) else routers[i].pool.current)
    ensures forall i :: 0 <= i < |routers| ==> routers[i].pool.Valid()
  {
    hide ReplicaLabel, FirstRouter, Wrap64;
    FirstRouterIndex(routers, path);
    var matched := MatchRoute(routers, path);
    if matched.None? {
      return Some(NoRoute), 404, log0 + [Recorded(RouteStage, Outcome.NotMatched, "")];
    }
    log := log0 + [Recorded(RouteStage, Outcome.Matched, "")];
    var pool := matched.value.pool;
    var pick := pool.RoundRobinAtomic();
    match pick {
      case NoBackend =>
        return Some(NoReplica), 503, log + [Recorded(BackendStage, Unavailable, "")];
      case Panicked =>
        return None, 0, log;
      case Chosen(backend, index) =>
        if backend.id !in proxies {
          return Some(NoProxy), 503, log + [Recorded(BackendStage, ProxyUnavailable, "")];
        }
        var name := BackendReplicaLabel(pool, backend);
        assert pool.backends[index] == backend && backend !in pool.backends[..index];
        log := log + [Recorded(BackendStage, Outcome.Selected, name)];
        log := log + [Recorded(ProxyStage, Unrecorded, "")];
        if upstream.served {
          log := log + [Recorded(ServiceStage, Unrecorded, "")];
        }
        return Some(Proxied(name, upstream)), if upstream.status.Some? then upstream.status.value else 502, log;
    }
  }

  /** What the handler behind authentication records. */
  function BehindAuth(routing: Routing): seq<Recorded> {
    [Recorded(RouteStage, if routing.NoRoute? then Outcome.NotMatched else Outcome.Matched, "")]
    + (match routing
       case NoRoute => []
       case NoReplica => [Recorded(BackendStage, Unavailable, "")]
       case NoProxy => [Recorded(BackendStage, ProxyUnavailable, "")]
       case Proxied(replica, upstream) =>
         [Recorded(BackendStage, Outcome.Selected, replica), Recorded(ProxyStage, Unrecorded, "")]
         + (if upstream.served then [Recorded(ServiceStage, Unrecorded, "")] else []))
  }

  // ---- The whole pipeline

  lemma {:induction false} RecordsAppend(d: Decisions, a: seq<Stage>, b: seq<Stage>)
    ensures Records(d, a + b) == Records(d, a) + Records(d, b)
  {
  }

  lemma {:induction false} LogSplits(d: Decisions)
    ensures LogOf(d) == Records(d, Front(d)) + (if LetThrough(d) then BehindAuth(d.routing) else [])
  {
    hide Front;
    var behind := [RouteStage] + ReachedBehindRoute(d.routing);
    RecordsAppend(d, Front(d), if LetThrough(d) then behind else []);
    assert Records(d, behind) == BehindAuth(d.routing);
  }

  /** Rate limit, CSRF check, origin check and authentication; `status` is 0 when all let the request through. */
  method FrontStages(d: Decisions) returns (log: seq<Recorded>, status: int)
    ensures log == Records(d, Front(d))
    ensures LetThrough(d) <==> status == 0
    ensures !LetThrough(d) ==> status == GatewayStatus(d)
  {
    log := [RecordOf(d, GatewayStage)];
    log := log + [RecordOf(d, RateStage)];
    if d.rate.RateRejected? {
      return log, 429;
    }
    if !d.csrf.CsrfAbsent? {
      log := log + [RecordOf(d, CsrfStage)];
      if d.csrf.CsrfRejected? {
        return log, 403;
      }
    }
    log := log + [RecordOf(d, OriginStage)];
    if !d.originPassed {
      return log, 403;
    }
    log := log + [RecordOf(d, AuthStage)];
    return log, if d.authenticated then 0 else 401;
  }

  /**
   One GET through the catch-all route. The result is None when picking a backend panicked;
   otherwise the log and the status are those of the decisions taken.
   */
  method ServeGet(
    rate: RateDecision, csrf: CsrfDecision, originPassed: bool, authenticated: bool,
    routers: seq<Router>, proxies: set<string>, path: string, upstream: Upstream)
    returns (d: Option<Decisions>, log: seq<Recorded>, status: int)
    requires forall i :: 0 <= i < |routers| ==> routers[i].pool.Valid() && NoRepeats(routers[i].pool.backends)
    modifies set r | r in routers :: r.pool`current
    ensures var routing := old(RoutingOf(routers, proxies, path, upstream));
            if !LetThrough(Decisions(rate, csrf, originPassed, authenticated, NoRoute)) then
              d == Some(Decisions(rate, csrf, originPassed, authenticated, NoRoute))
            else if routing.None? then d == None
            else d == Some(Decisions(rate, csrf, originPassed, authenticated, routing.value))
    ensures d.Some? ==> log == LogOf(d.value) && status == GatewayStatus(d.value)
    ensures var reached := LetThrough(Decisions(rate, csrf, originPassed, authenticated, NoRoute));
            forall i :: 0 <= i < |routers| ==>
              routers[i].pool.current ==
              old(if reached && IsTaken(routers, path, routers[i].pool)
                  then Advanced(routers[i].pool) else routers[i].pool.current)
  {
    hide LogOf, Front, BehindAuth, Records, IsTaken, Advanced;
    var front := Decisions(rate, csrf, originPassed, authenticated, NoRoute);
    FirstRouterIndex(routers, path);
    log, status := FrontStages(front);
    assert FirstRouter(routers, path).Some? ==>
        var pool := routers[FirstRouter(routers, path).value].pool;
        RoutingFrom(pool, proxies, upstream) == old(RoutingFrom(pool, proxies, upstream));
    LogSplits(front);
    if status != 0 {
      return Some(front), log, status;
    }
    var routing;
    routing, status, log := ProxyHandler(routers, proxies, path, upstream, log);
    if routing.None? {
      return None, log, 0;
    }
    var reached := front.(routing := routing.value);
    LogSplits(reached);
    SameFront(front, reached);
    return Some(reached), log, status;
  }

  lemma {:induction false} SameFront(a: Decisions, b: Decisions)
    requires a == b.(routing := a.routing)
    ensures Records(a, Front(a)) == Records(b, Front(b))
  {
  }

  // ---- Over a table that was built

  /**
   Behind a table the builder made, with the proxies it made, a request that some route fits is always proxied,
   unless the pick panics: neither a missing backend nor a missing proxy can occur. The replica is the one the
   pool's counter points at.
   */
  lemma {:induction false} BuiltTableServes(
    routers: seq<Router>, cfg: HttpConfig, order: seq<string>, parse: string -> bool, path: string, upstream: Upstream)
    requires forall name :: name in order ==> name in cfg.routers
    requires TableFor(cfg, order, parse).Ok? && Represents(routers, TableFor(cfg, order, parse).value)
    ensures var routes := TableFor(cfg, order, parse).value;
            var routing, i := RoutingOf(routers, AllUrls(routes), path, upstream), FirstRouter(routers, path);
            if i.None? then MatchedRoute(routes, path) == None && routing == Some(NoRoute)
            else
              && i.value < |routers|
              && MatchedRoute(routes, path) == Some(routes[i.value]) && routes[i.value].urls != []
              && routing == match IndexOf(routers[i.value].pool.current, |routes[i.value].urls|)
                            case None => None
                            case Some(k) => Some(Proxied(ReplicaLabel(k), upstream))
  {
    var routes := TableFor(cfg, order, parse).value;
    assert |routers| == |routes| && forall i :: 0 <= i < |routers| ==> RouteOf(routers[i]) == routes[i];
    hide TableFor, Represents, Configured, IsPrefix, RoutingFrom, AllUrls, FirstRouter, FirstMatch;
    RoutersFollowRoutes(routers, routes, path);
    FirstRouterIndex(routers, path);
    FirstMatchIndex(routes, path);
    var i := FirstRouter(routers, path);
    if i.Some? {
      BuiltTableIsTotal(cfg, order, parse, path);
      assert RouteOf(routers[i.value]) == routes[i.value];
      PoolServes(routers[i.value].pool, routes[i.value].urls, AllUrls(routes), upstream);
    }
  }

  /** A pool of known upstreams, none without its proxy, proxies to the one its counter points at. */
  lemma {:induction false} PoolServes(pool: BackendPool, urls: seq<string>, proxies: set<string>, upstream: Upstream)
    requires urls != [] && Urls(pool.backends) == urls && forall j :: 0 <= j < |urls| ==> urls[j] in proxies
    ensures RoutingFrom(pool, proxies, upstream) ==
            match IndexOf(pool.current, |urls|)
            case None => None
            case Some(k) => Some(Proxied(ReplicaLabel(k), upstream))
  {
    RemBound(pool.current, |urls|);
    hide ReplicaLabel;
    assert forall j :: 0 <= j < |urls| ==> pool.backends[j].id == urls[j];
  }

  /** Neither 503 answer of the handler is ever given. */
  lemma {:induction false} BuiltTableIsNeverUnavailable(
    routers: seq<Router>, cfg: HttpConfig, order: seq<string>, parse: string -> bool, path: string, upstream: Upstream)
    requires forall name :: name in order ==> name in cfg.routers
    requires TableFor(cfg, order, parse).Ok? && Represents(routers, TableFor(cfg, order, parse).value)
    ensures var routing := RoutingOf(routers, AllUrls(TableFor(cfg, order, parse).value), path, upstream);
            routing.Some? ==> !routing.value.NoReplica? && !routing.value.NoProxy?
  {
    BuiltTableServes(routers, cfg, order, parse, path, upstream);
    hide RoutingOf, TableFor, Represents, AllUrls;
  }

  /** With fewer than 2^63 picks behind it, from zero, a pool never panics and serves its backends in turn. */
  lemma {:induction false} BuiltTableTakesTurns(
    routers: seq<Router>, cfg: HttpConfig, order: seq<string>, parse: string -> bool, path: string, upstream: Upstream,
    picks: nat)
    requires forall name :: name in order ==> name in cfg.routers
    requires TableFor(cfg, order, parse).Ok? && Represents(routers, TableFor(cfg, order, parse).value)
    requires picks < INT64_LIMIT && forall r :: r in routers && IsTaken(routers, path, r.pool) ==> r.pool.current == Wrap64(picks)
    ensures var routes := TableFor(cfg, order, parse).value;
            match MatchedRoute(routes, path)
            case None => RoutingOf(routers, AllUrls(routes), path, upstream) == Some(NoRoute)
            case Some(route) =>
              && route.urls != []
              && RoutingOf(routers, AllUrls(routes), path, upstream) ==
                 Some(Proxied(ReplicaLabel(picks % |route.urls|), upstream))
  {
    BuiltTableServes(routers, cfg, order, parse, path, upstream);
    FirstRouterIndex(routers, path);
    var i := FirstRouter(routers, path);
    if i.Some? {
      assert routers[i.value] in routers && IsTaken(routers, path, routers[i.value].pool);
    }
    hide RoutingOf, TableFor, Represents, AllUrls, FirstRouter, MatchedRoute;
  }

  /** The first router visited whose configured prefix the path continues. */
  ghost predicate IsFirstFor(cfg: HttpConfig, order: seq<string>, path: string, i: nat)
    requires forall name :: name in order ==> name in cfg.routers
  {
    && i < |order| && Continues(path, cfg.routers[order[i]].pathPrefix)
    && forall k :: 0 <= k < i ==> !Continues(path, cfg.routers[order[k]].pathPrefix)
  }

  /**
   From the configuration to the answer: a path that continues the prefix of no configured router is answered not
   found, and any other is proxied for the first such router visited, to the server of its service whose turn it is.
   */
  lemma {:induction false} RequestIsServed(
    routers: seq<Router>, cfg: HttpConfig, order: seq<string>, parse: string -> bool, path: string, upstream: Upstream,
    picks: nat, i: nat)
    requires forall name :: name in order ==> name in cfg.routers
    requires TableFor(cfg, order, parse).Ok? && Represents(routers, TableFor(cfg, order, parse).value)
    requires picks < INT64_LIMIT && forall r :: r in routers && IsTaken(routers, path, r.pool) ==> r.pool.current == Wrap64(picks)
    ensures var proxies := AllUrls(TableFor(cfg, order, parse).value);
            && ((forall name :: name in order ==> !Continues(path, cfg.routers[name].pathPrefix)) <==>
                  RoutingOf(routers, proxies, path, upstream) == Some(NoRoute))
            && (IsFirstFor(cfg, order, path, i) ==>
                  && cfg.routers[order[i]].service in cfg.services
                  && var servers := cfg.services[cfg.routers[order[i]].service];
                     && servers != []
                     && RoutingOf(routers, proxies, path, upstream) ==
                        Some(Proxied("replica-" + Decimal(picks % |servers| + 1), upstream)))
  {
    hide TableFor, Represents, AllUrls, FirstRouter, FirstMatch, IsPrefix, Continues, RoutingOf, MatchedRoute, IsFirstFor,
         IsTaken, Wrap64;
    BuiltTableTakesTurns(routers, cfg, order, parse, path, upstream, picks);
    ConfiguredMatch(cfg, order, parse, path, i);
  }

  lemma {:induction false} ConfiguredMatch(cfg: HttpConfig, order: seq<string>, parse: string -> bool, path: string, i: nat)
    requires forall name :: name in order ==> name in cfg.routers
    requires TableFor(cfg, order, parse).Ok?
    ensures var route := MatchedRoute(TableFor(cfg, order, parse).value, path);
            && (route == None <==> forall name :: name in order ==> !Continues(path, cfg.routers[name].pathPrefix))
            && (IsFirstFor(cfg, order, path, i) ==>
                  var router := cfg.routers[order[i]];
                  && router.service in cfg.services
                  && route == Some(Route(router.pathPrefix, router.service, cfg.services[router.service])))
  {
    hide TableFor, FirstMatch, Continues, MatchedRoute, IsServable;
    TableIsConfigured(cfg, order, parse);
    var routes := TableFor(cfg, order, parse).value;
    MatchedIff(routes, path);
    forall k | 0 <= k < |order|
      ensures order[k] in order && routes[k].pathPrefix == cfg.routers[order[k]].pathPrefix
    {
    }
  }

  /** The status answered tells of the last span recorded: which stage ended the request, or what the upstream said. */
  lemma {:induction false} StatusTellsOfLast(d: Decisions)
    ensures var log := LogOf(d);
            && log != []
            && var last := log[|log| - 1];
               var refused := last.outcome == Outcome.Rejected;
               && (last.stage == RateStage ==> refused && GatewayStatus(d) == 429)
               && (last.stage == CsrfStage ==> refused && GatewayStatus(d) == 403)
               && (last.stage == OriginStage ==> refused && GatewayStatus(d) == 403)
               && (last.stage == AuthStage ==> refused && GatewayStatus(d) == 401)
               && (last.stage == RouteStage ==> last.outcome == Outcome.NotMatched && GatewayStatus(d) == 404)
               && (last.stage == BackendStage ==>
                     last.outcome in {Unavailable, ProxyUnavailable} && GatewayStatus(d) == 503)
               && (last.stage == ProxyStage || last.stage == ServiceStage ==>
                     d.routing.Proxied? && GatewayStatus(d) ==
                     match d.routing.upstream.status case Some(status) => status case None => 502)
               && last.stage != GatewayStage
  {
    assert Reached(d) != [];
    var stages := Reached(d);
    assert LogOf(d)[|stages| - 1] == RecordOf(d, stages[|stages| - 1]);
  }

  /** Which stage that is: the first that refuses, or the furthest one the routing allows. */
  lemma {:induction false} LastStageIs(d: Decisions)
    ensures LogOf(d) != []
    ensures var last := LogOf(d)[|LogOf(d)| - 1].stage;
            && (d.rate == RateRejected ==> last == RateStage)
            && (d.rate != RateRejected && d.csrf == CsrfRejected ==> last == CsrfStage)
            && (d.rate != RateRejected && d.csrf != CsrfRejected ==>
                  && (!d.originPassed ==> last == OriginStage)
                  && (d.originPassed && !d.authenticated ==> last == AuthStage)
                  && (d.originPassed && d.authenticated ==>
                        last == match d.routing
                                case NoRoute => RouteStage
                                case NoReplica => BackendStage
                                case NoProxy => BackendStage
                                case Proxied(_, upstream) => if upstream.served then ServiceStage else ProxyStage))
  {
    var stages := Reached(d);
    assert stages != [];
    assert LogOf(d)[|stages| - 1] == RecordOf(d, stages[|stages| - 1]);
  }
}
