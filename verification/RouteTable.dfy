/**
 Building the route table from configuration, and matching a request path against it.
 Go visits the configured routers in an order of its own choosing; `order` is that choice.
 */
module RouteTable {
  import opened Common
  import opened BackendPools
  import opened GoInts

  datatype RouterConfig = RouterConfig(pathPrefix: string, service: string)

  /** Configured routers by name, and the server URLs of each service. */
  datatype HttpConfig = HttpConfig(routers: map<string, RouterConfig>, services: map<string, seq<string>>)

  datatype BuildError = ServiceNotFound | NoBackends | InvalidUpstream

  class Router {
    const pathPrefix: string
    const serviceName: string
    const pool: BackendPool

    constructor (pathPrefix: string, serviceName: string, pool: BackendPool)
      ensures this.pathPrefix == pathPrefix && this.serviceName == serviceName && this.pool == pool
    {
      this.pathPrefix, this.serviceName, this.pool := pathPrefix, serviceName, pool;
    }
  }

  /** A router as configuration describes it. */
  datatype Route = Route(pathPrefix: string, serviceName: string, urls: seq<string>)

  function Urls(backends: seq<Backend>): seq<string> {
    seq(|backends|, i requires 0 <= i < |backends| => backends[i].id)
  }

  function RouteOf(r: Router): Route
    reads r.pool
  {
    Route(r.pathPrefix, r.serviceName, Urls(r.pool.backends))
  }

  function Pools(routers: seq<Router>): set<BackendPool> {
    set r | r in routers :: r.pool
  }

  class LoadBalancer {
    var routers: seq<Router>

    constructor ()
      ensures routers == []
    {
      routers := [];
    }

    method AddRouter(router: Router)
      modifies this
      ensures routers == old(routers) + [router]
    {
      routers := routers + [router];
    }
  }

  /** The routers stand for the routes, in order. */
  ghost predicate Represents(routers: seq<Router>, routes: seq<Route>)
    reads Pools(routers)
  {
    |routers| == |routes| && forall i :: 0 <= i < |routers| ==> RouteOf(routers[i]) == routes[i]
  }

  // ---- What the builder computes

  predicate Parses(urls: seq<string>, parse: string -> bool) {
    forall i :: 0 <= i < |urls| ==> parse(urls[i])
  }

  /** The route configured under `name`, or why there is none. */
  function Configured(cfg: HttpConfig, name: string, parse: string -> bool): Result<Route, BuildError>
    requires name in cfg.routers
  {
    var router := cfg.routers[name];
    if router.service !in cfg.services then Err(ServiceNotFound)
    else
      var urls := cfg.services[router.service];
      if urls == [] then Err(NoBackends)
      else if !Parses(urls, parse) then Err(InvalidUpstream)
      else Ok(Route(router.pathPrefix, router.service, urls))
  }

  /** The table for an order of visiting the routers. */
  function TableFor(cfg: HttpConfig, order: seq<string>, parse: string -> bool): Result<seq<Route>, BuildError>
    requires forall name :: name in order ==> name in cfg.routers
  {
    if order == [] then Ok([])
    else match TableFor(cfg, order[..|order| - 1], parse)
      case Err(e) => Err(e)
      case Ok(routes) =>
        match Configured(cfg, order[|order| - 1], parse)
        case Err(e) => Err(e)
        case Ok(route) => Ok(routes + [route])
  }

  function AllUrls(routes: seq<Route>): set<string> {
    set i, j | 0 <= i < |routes| && 0 <= j < |routes[i].urls| :: routes[i].urls[j]
  }

  /** Pools of different routers are different objects, each in its initial state. */
  ghost predicate Separate(routers: seq<Router>)
    reads Pools(routers)
  {
    && (forall i, j :: 0 <= i < j < |routers| ==> routers[i].pool != routers[j].pool)
    && (forall i :: 0 <= i < |routers| ==>
          routers[i].pool.Valid() && routers[i].pool.current == 0 && NoRepeats(routers[i].pool.backends))
  }

  // ---- The builder

  /** Fills a pool with one fresh backend per server; None when a URL does not parse. */
  method FillPool(urls: seq<string>, proxies0: set<string>, parse: string -> bool)
    returns (pool: Option<BackendPool>, proxies: set<string>)
    requires |urls| < INT64_LIMIT
    ensures pool.Some? <==> Parses(urls, parse)
    ensures pool.Some? ==>
              && fresh(pool.value) && pool.value.Valid() && pool.value.current == 0
              && Urls(pool.value.backends) == urls
              && NoRepeats(pool.value.backends)
              && proxies == proxies0 + set u | u in urls
  {
    var p := new BackendPool();
    proxies := proxies0;
    for i := 0 to |urls|
      invariant fresh(p) && p.Valid() && p.current == 0
      invariant Parses(urls[..i], parse)
      invariant |p.backends| == i
      invariant forall k :: 0 <= k < i ==> p.backends[k].id == urls[k]
      invariant NoRepeats(p.backends)
      invariant forall k :: 0 <= k < i ==> allocated(p.backends[k])
      invariant proxies == proxies0 + set u | u in urls[..i]
    {
      if !parse(urls[i]) {
        return None, proxies;
      }
      var backend := new Backend(urls[i]);
      p.Add(backend);
      proxies := proxies + {urls[i]};
      assert urls[..i + 1] == urls[..i] + [urls[i]];
    }
    assert urls[..|urls|] == urls;
    return Some(p), proxies;
  }

  /** One pass of the outer loop: the router configured under `name` with its pool and proxies. */
  method BuildRouter(cfg: HttpConfig, name: string, proxies0: set<string>, parse: string -> bool)
    returns (r: Result<Router, BuildError>, proxies: set<string>)
    requires name in cfg.routers
    requires forall service :: service in cfg.services ==> |cfg.services[service]| < INT64_LIMIT
    ensures match Configured(cfg, name, parse)
            case Err(e) => r == Err(e)
            case Ok(route) =>
              && r.Ok? && fresh(r.value) && fresh(r.value.pool)
              && r.value.pool.Valid() && r.value.pool.current == 0
              && NoRepeats(r.value.pool.backends)
              && RouteOf(r.value) == route
              && proxies == proxies0 + set u | u in route.urls
  {
    proxies := proxies0;
    var router := cfg.routers[name];
    if router.service !in cfg.services {
      return Err(ServiceNotFound), proxies;
    }
    var servers := cfg.services[router.service];
    if |servers| == 0 {
      return Err(NoBackends), proxies;
    }
    var pool, grown := FillPool(servers, proxies, parse);
    if pool.None? {
      return Err(InvalidUpstream), proxies;
    }
    var lbRouter := new Router(router.pathPrefix, router.service, pool.value);
    return Ok(lbRouter), grown;
  }

  /** The builder; `order` lists the configured routers in the order the runtime visits them. */
  method BuildLoadBalancer(cfg: HttpConfig, order: seq<string>, parse: string -> bool)
    returns (r: Result<LoadBalancer, BuildError>, proxies: set<string>)
    requires forall name :: name in order <==> name in cfg.routers
    requires forall service :: service in cfg.services ==> |cfg.services[service]| < INT64_LIMIT
    ensures match TableFor(cfg, order, parse)
            case Err(e) => r == Err(e)
            case Ok(routes) =>
              && r.Ok? && fresh(r.value)
              && Separate(r.value.routers)
              && Represents(r.value.routers, routes)
              && proxies == AllUrls(routes)
  {
    hide Configured, AllUrls, TableFor, Urls;
    var balancer := new LoadBalancer();
    proxies := {};
    NothingBuilt(cfg, order, parse);
    ghost var routes: seq<Route> := [];
    for i := 0 to |order|
      invariant fresh(balancer)
      invariant TableFor(cfg, order[..i], parse) == Ok(routes)
      invariant Separate(balancer.routers) && Represents(balancer.routers, routes)
      invariant proxies == AllUrls(routes)
    {
      var router, grown := BuildRouter(cfg, order[i], proxies, parse);
      if router.Err? {
        TableStops(cfg, order, i, parse, router.error);
        return Err(router.error), grown;
      }
      ghost var route := RouteOf(router.value);
      TableGrows(cfg, order, i, parse, routes, route);
      UrlsGrow(routes, route);
      balancer.AddRouter(router.value);
      routes := routes + [route];
      proxies := grown;
    }
    assert order[..|order|] == order;
    r := Ok(balancer);
  }

  lemma {:induction false} NothingBuilt(cfg: HttpConfig, order: seq<string>, parse: string -> bool)
    requires forall name :: name in order ==> name in cfg.routers
    ensures TableFor(cfg, order[..0], parse) == Ok([]) && AllUrls([]) == {}
  {
  }

  lemma {:induction false} TableGrows(
    cfg: HttpConfig, order: seq<string>, i: nat, parse: string -> bool, routes: seq<Route>, route: Route)
    requires forall name :: name in order ==> name in cfg.routers
    requires i < |order| && TableFor(cfg, order[..i], parse) == Ok(routes) && Configured(cfg, order[i], parse) == Ok(route)
    ensures TableFor(cfg, order[..i + 1], parse) == Ok(routes + [route])
  {
    assert order[..i + 1][..i] == order[..i];
  }

  lemma {:induction false} UrlsGrow(routes: seq<Route>, route: Route)
    ensures AllUrls(routes + [route]) == AllUrls(routes) + set u | u in route.urls
  {
    var grown := routes + [route];
    forall u | u in route.urls
      ensures u in AllUrls(grown)
    {
      var j :| 0 <= j < |route.urls| && route.urls[j] == u;
      assert grown[|routes|].urls[j] == u;
    }
    forall u | u in AllUrls(routes)
      ensures u in AllUrls(grown)
    {
      var i, j :| 0 <= i < |routes| && 0 <= j < |routes[i].urls| && routes[i].urls[j] == u;
      assert grown[i].urls[j] == u;
    }
  }

  lemma {:induction false} TableStops(cfg: HttpConfig, order: seq<string>, i: nat, parse: string -> bool, e: BuildError)
    requires forall name :: name in order ==> name in cfg.routers
    requires i < |order| && TableFor(cfg, order[..i], parse).Ok? && Configured(cfg, order[i], parse) == Err(e)
    ensures TableFor(cfg, order, parse) == Err(e)
    decreases |order|
  {
    var front := order[..|order| - 1];
    if i < |order| - 1 {
      assert front[..i] == order[..i];
      TableStops(cfg, front, i, parse, e);
    }
  }

  // ---- Matching

  predicate IsPrefix(prefix: string, path: string) {
    prefix <= path
  }

  /** The first route whose prefix the path starts with. */
  function FirstMatch(routes: seq<Route>, path: string): Option<nat> {
    if routes == [] then None
    else if IsPrefix(routes[0].pathPrefix, path) then Some(0)
    else match FirstMatch(routes[1..], path)
      case None => None
      case Some(i) => Some(i + 1)
  }

  function MatchedRoute(routes: seq<Route>, path: string): (r: Option<Route>) {
    match FirstMatch(routes, path)
    case None => None
    case Some(i) => FirstMatchIndex(routes, path); Some(routes[i])
  }

  lemma {:induction false} FirstMatchIndex(routes: seq<Route>, path: string)
    ensures FirstMatch(routes, path).Some? ==>
              FirstMatch(routes, path).value < |routes| && IsPrefix(routes[FirstMatch(routes, path).value].pathPrefix, path)
    ensures FirstMatch(routes, path).None? ==>
              forall i :: 0 <= i < |routes| ==> !IsPrefix(routes[i].pathPrefix, path)
  {
    if routes != [] {
      FirstMatchIndex(routes[1..], path);
      assert forall i :: 1 <= i < |routes| ==> routes[i] == routes[1..][i - 1];
    }
  }

  /** The path is the prefix with some text after it. */
  ghost predicate Continues(path: string, prefix: string) {
    exists rest :: path == prefix + rest
  }

  lemma {:induction false} PrefixContinues(prefix: string, path: string)
    ensures IsPrefix(prefix, path) <==> Continues(path, prefix)
  {
    if IsPrefix(prefix, path) {
      assert path == prefix + path[|prefix|..];
    }
  }

  /** A path is routed by the first route whose prefix it continues, and by none exactly when it continues none. */
  lemma {:induction false} MatchedIff(routes: seq<Route>, path: string)
    ensures MatchedRoute(routes, path).None? <==> forall i :: 0 <= i < |routes| ==> !Continues(path, routes[i].pathPrefix)
    ensures forall i :: 0 <= i < |routes| && Continues(path, routes[i].pathPrefix)
                        && (forall k :: 0 <= k < i ==> !Continues(path, routes[k].pathPrefix)) ==>
              MatchedRoute(routes, path) == Some(routes[i])
  {
    FirstMatchIndex(routes, path);
    FirstMatchIsFirst(routes, path);
    forall i | 0 <= i < |routes|
      ensures IsPrefix(routes[i].pathPrefix, path) <==> Continues(path, routes[i].pathPrefix)
    {
      PrefixContinues(routes[i].pathPrefix, path);
    }
    hide IsPrefix, FirstMatch, Continues;
  }

  lemma {:induction false} FirstMatchIsFirst(routes: seq<Route>, path: string)
    ensures FirstMatch(routes, path).Some? ==>
              forall k :: 0 <= k < FirstMatch(routes, path).value && k < |routes| ==> !IsPrefix(routes[k].pathPrefix, path)
  {
    hide IsPrefix;
    if routes != [] {
      FirstMatchIsFirst(routes[1..], path);
      assert forall k :: 1 <= k < |routes| ==> routes[k] == routes[1..][k - 1];
    }
  }

  /** Whatever text follows a route's prefix, the path goes to that route or to an earlier one whose prefix it continues too. */
  lemma {:induction false} PrefixIsRouted(routes: seq<Route>, i: nat, rest: string) returns (k: nat, tail: string)
    requires i < |routes|
    ensures k <= i && routes[i].pathPrefix + rest == routes[k].pathPrefix + tail
    ensures MatchedRoute(routes, routes[i].pathPrefix + rest) == Some(routes[k])
    ensures forall j :: 0 <= j < k ==> !Continues(routes[i].pathPrefix + rest, routes[j].pathPrefix)
  {
    var path := routes[i].pathPrefix + rest;
    assert Continues(path, routes[i].pathPrefix);
    k := 0;
    while !Continues(path, routes[k].pathPrefix)
      invariant k <= i && forall j :: 0 <= j < k ==> !Continues(path, routes[j].pathPrefix)
      decreases i - k
    {
      k := k + 1;
    }
    tail :| path == routes[k].pathPrefix + tail;
    MatchedIff(routes, path);
  }

  // ---- The table, from the configuration

  /** What the configuration must hold for the router named: a known service with servers, each with a URL that parses. */
  ghost predicate IsServable(cfg: HttpConfig, name: string, parse: string -> bool)
    requires name in cfg.routers
  {
    var service := cfg.routers[name].service;
    service in cfg.services && cfg.services[service] != [] && forall u :: u in cfg.services[service] ==> parse(u)
  }

  /** A table is built exactly when every router visited can be served; its routes are the routers visited, in order. */
  lemma {:induction false} TableIsConfigured(cfg: HttpConfig, order: seq<string>, parse: string -> bool)
    requires forall name :: name in order ==> name in cfg.routers
    ensures TableFor(cfg, order, parse).Ok? <==> forall name :: name in order ==> IsServable(cfg, name, parse)
    ensures TableFor(cfg, order, parse).Ok? ==>
              var routes := TableFor(cfg, order, parse).value;
              && |routes| == |order|
              && (forall i :: 0 <= i < |order| ==>
                    var router := cfg.routers[order[i]];
                    && router.service in cfg.services
                    && routes[i] == Route(router.pathPrefix, router.service, cfg.services[router.service]))
  {
    if order != [] {
      var front, last := order[..|order| - 1], order[|order| - 1];
      assert order == front + [last];
      TableIsConfigured(cfg, front, parse);
      ServableIff(cfg, last, parse);
      hide Configured, IsServable;
    }
  }

  lemma {:induction false} ServableIff(cfg: HttpConfig, name: string, parse: string -> bool)
    requires name in cfg.routers
    ensures Configured(cfg, name, parse).Ok? <==> IsServable(cfg, name, parse)
    ensures Configured(cfg, name, parse).Ok? ==>
              var router := cfg.routers[name];
              && router.service in cfg.services
              && Configured(cfg, name, parse).value == Route(router.pathPrefix, router.service, cfg.services[router.service])
  {
  }

  /** The error reported is that of the first router visited that cannot be served. */
  lemma {:induction false} TableErrorIs(cfg: HttpConfig, order: seq<string>, parse: string -> bool) returns (i: nat)
    requires forall name :: name in order ==> name in cfg.routers
    requires TableFor(cfg, order, parse).Err?
    ensures i < |order| && !IsServable(cfg, order[i], parse) && forall k :: 0 <= k < i ==> IsServable(cfg, order[k], parse)
    ensures var service := cfg.routers[order[i]].service;
            && (TableFor(cfg, order, parse).error == ServiceNotFound <==> service !in cfg.services)
            && (TableFor(cfg, order, parse).error == NoBackends <==> service in cfg.services && cfg.services[service] == [])
  {
    var front, last := order[..|order| - 1], order[|order| - 1];
    assert order == front + [last];
    if TableFor(cfg, front, parse).Err? {
      i := TableErrorIs(cfg, front, parse);
    } else {
      i := |front|;
      TableIsConfigured(cfg, front, parse);
      ServableIff(cfg, last, parse);
      assert forall k :: 0 <= k < |front| ==> front[k] in front && order[k] == front[k];
    }
  }

  /** No configured prefix is a prefix of the prefix of another router. */
  ghost predicate PrefixFree(cfg: HttpConfig) {
    forall a, b :: a in cfg.routers && b in cfg.routers && a != b ==>
      !IsPrefix(cfg.routers[a].pathPrefix, cfg.routers[b].pathPrefix)
  }

  /** Routers whose prefixes fit a common path are configured alike. */
  ghost predicate OverlapsAlike(cfg: HttpConfig, parse: string -> bool) {
    forall a, b :: a in cfg.routers && b in cfg.routers
                   && IsPrefix(cfg.routers[a].pathPrefix, cfg.routers[b].pathPrefix) ==>
      Configured(cfg, a, parse) == Configured(cfg, b, parse)
  }

  lemma {:induction false} PrefixFreeIsAlike(cfg: HttpConfig, parse: string -> bool)
    requires PrefixFree(cfg)
    ensures OverlapsAlike(cfg, parse)
  {
  }

  lemma {:induction false} TableRoutes(cfg: HttpConfig, order: seq<string>, parse: string -> bool)
    requires forall name :: name in order ==> name in cfg.routers
    requires TableFor(cfg, order, parse).Ok?
    ensures |TableFor(cfg, order, parse).value| == |order|
    ensures forall i :: 0 <= i < |order| ==>
              && Configured(cfg, order[i], parse).Ok?
              && TableFor(cfg, order, parse).value[i] == Configured(cfg, order[i], parse).value
  {
    if order != [] {
      TableRoutes(cfg, order[..|order| - 1], parse);
    }
  }

  /** Whether a table can be built depends on the routers visited, not on their order. */
  lemma {:induction false} BuildsIff(cfg: HttpConfig, order: seq<string>, parse: string -> bool)
    requires forall name :: name in order ==> name in cfg.routers
    ensures TableFor(cfg, order, parse).Ok? <==>
            forall name :: name in order ==> Configured(cfg, name, parse).Ok?
  {
    hide Configured;
    if order != [] {
      var front, last := order[..|order| - 1], order[|order| - 1];
      assert order == front + [last] && last in order;
      BuildsIff(cfg, front, parse);
    }
  }

  lemma {:induction false} PrefixesOfOnePath(a: string, b: string, path: string)
    requires IsPrefix(a, path) && IsPrefix(b, path)
    ensures IsPrefix(a, b) || IsPrefix(b, a)
  {
    if |a| <= |b| {
      assert forall i :: 0 <= i < |a| ==> a[i] == path[i] == b[i];
    } else {
      assert forall i :: 0 <= i < |b| ==> b[i] == path[i] == a[i];
    }
  }

  /** The route matched is that of the routers whose prefix the path has. */
  lemma {:induction false} MatchIsTheOne(
    cfg: HttpConfig, order: seq<string>, parse: string -> bool, path: string, name: string)
    requires OverlapsAlike(cfg, parse)
    requires forall name :: name in order <==> name in cfg.routers
    requires TableFor(cfg, order, parse).Ok?
    requires name in cfg.routers && IsPrefix(cfg.routers[name].pathPrefix, path)
    ensures Configured(cfg, name, parse).Ok?
    ensures MatchedRoute(TableFor(cfg, order, parse).value, path) == Some(Configured(cfg, name, parse).value)
  {
    hide IsPrefix, TableFor, FirstMatch;
    var routes := TableFor(cfg, order, parse).value;
    TableRoutes(cfg, order, parse);
    FirstMatchIndex(routes, path);
    assert name in order;
    var k :| 0 <= k < |order| && order[k] == name;
    assert IsPrefix(routes[k].pathPrefix, path);
    var i := FirstMatch(routes, path).value;
    PrefixesOfOnePath(cfg.routers[order[i]].pathPrefix, cfg.routers[name].pathPrefix, path);
    assert order[i] in cfg.routers;
  }

  /** A path no configured prefix fits matches no route. */
  lemma {:induction false} NoMatch(cfg: HttpConfig, order: seq<string>, parse: string -> bool, path: string)
    requires forall name :: name in order ==> name in cfg.routers
    requires TableFor(cfg, order, parse).Ok?
    requires forall name :: name in cfg.routers ==> !IsPrefix(cfg.routers[name].pathPrefix, path)
    ensures MatchedRoute(TableFor(cfg, order, parse).value, path) == None
  {
    TableRoutes(cfg, order, parse);
    FirstMatchIndex(TableFor(cfg, order, parse).value, path);
  }

  /** An order in which the configured routers may be visited. */
  ghost predicate Visits(cfg: HttpConfig, order: seq<string>) {
    NoRepeats(order) && forall name :: name in order <==> name in cfg.routers
  }

  /** Two orders of visiting the routers route a path alike. */
  ghost predicate RoutedAlike(cfg: HttpConfig, o1: seq<string>, o2: seq<string>, parse: string -> bool, path: string)
    requires Visits(cfg, o1) && Visits(cfg, o2)
  {
    && (TableFor(cfg, o1, parse).Ok? <==> TableFor(cfg, o2, parse).Ok?)
    && (TableFor(cfg, o1, parse).Ok? ==>
          MatchedRoute(TableFor(cfg, o1, parse).value, path) == MatchedRoute(TableFor(cfg, o2, parse).value, path))
  }

  /**
   When no configured prefix is a prefix of another, or only where the routers are configured alike, every order
   of visiting the routers routes every path alike: to the route of the prefix it has, or nowhere.
   */
  lemma {:induction false} RoutingIgnoresOrder(
    cfg: HttpConfig, o1: seq<string>, o2: seq<string>, parse: string -> bool, path: string)
    requires PrefixFree(cfg) || OverlapsAlike(cfg, parse)
    requires Visits(cfg, o1) && Visits(cfg, o2)
    ensures RoutedAlike(cfg, o1, o2, parse, path)
  {
    if PrefixFree(cfg) {
      PrefixFreeIsAlike(cfg, parse);
    }
    BuildsIff(cfg, o1, parse);
    BuildsIff(cfg, o2, parse);
    if TableFor(cfg, o1, parse).Ok? {
      if name :| name in cfg.routers && IsPrefix(cfg.routers[name].pathPrefix, path) {
        MatchIsTheOne(cfg, o1, parse, path, name);
        MatchIsTheOne(cfg, o2, parse, path, name);
      } else {
        NoMatch(cfg, o1, parse, path);
        NoMatch(cfg, o2, parse, path);
      }
    }
  }

  /** `order` with `name` moved to the front. */
  function Fronted(order: seq<string>, name: string): seq<string> {
    [name] + Others(order, name)
  }

  function Others(order: seq<string>, name: string): (rest: seq<string>)
    ensures forall x :: x in rest <==> x in order && x != name
  {
    if order == [] then []
    else if order[0] == name then Others(order[1..], name)
    else [order[0]] + Others(order[1..], name)
  }

  lemma {:induction false} OthersNoRepeats(order: seq<string>, name: string)
    requires NoRepeats(order)
    ensures NoRepeats(Others(order, name))
  {
    if order != [] {
      assert forall i :: 0 < i < |order| ==> order[i] == order[1..][i - 1];
      OthersNoRepeats(order[1..], name);
      var rest := Others(order[1..], name);
      assert order[0] !in order[1..];
      assert forall i :: 0 <= i < |rest| ==> rest[i] in rest;
    }
  }

  lemma {:induction false} FrontedVisits(cfg: HttpConfig, order: seq<string>, name: string)
    requires Visits(cfg, order) && name in cfg.routers
    ensures Visits(cfg, Fronted(order, name))
  {
    OthersNoRepeats(order, name);
    var rest := Others(order, name);
    assert forall i :: 0 <= i < |rest| ==> rest[i] in rest;
  }

  /** Visited first, a router takes every path its prefix fits. */
  lemma {:induction false} FirstTakesAll(cfg: HttpConfig, order: seq<string>, parse: string -> bool, path: string)
    requires Visits(cfg, order) && order != [] && TableFor(cfg, order, parse).Ok?
    requires IsPrefix(cfg.routers[order[0]].pathPrefix, path)
    ensures Configured(cfg, order[0], parse).Ok?
    ensures MatchedRoute(TableFor(cfg, order, parse).value, path) == Some(Configured(cfg, order[0], parse).value)
  {
    TableRoutes(cfg, order, parse);
    var routes := TableFor(cfg, order, parse).value;
    assert routes[0].pathPrefix == cfg.routers[order[0]].pathPrefix;
    assert FirstMatch(routes, path) == Some(0);
  }

  /**
   For every configuration a table can be built from, routing is independent of the visiting order exactly when
   routers whose prefixes overlap are configured alike.
   */
  lemma {:induction false} OrderIsIrrelevantIff(cfg: HttpConfig, order: seq<string>, parse: string -> bool)
    requires Visits(cfg, order) && TableFor(cfg, order, parse).Ok?
    ensures OverlapsAlike(cfg, parse) <==>
            forall o1, o2, path | Visits(cfg, o1) && Visits(cfg, o2) :: RoutedAlike(cfg, o1, o2, parse, path)
  {
    if OverlapsAlike(cfg, parse) {
      forall o1, o2, path | Visits(cfg, o1) && Visits(cfg, o2)
        ensures RoutedAlike(cfg, o1, o2, parse, path)
      {
        RoutingIgnoresOrder(cfg, o1, o2, parse, path);
      }
    } else {
      var a, b :| a in cfg.routers && b in cfg.routers
                  && IsPrefix(cfg.routers[a].pathPrefix, cfg.routers[b].pathPrefix)
                  && Configured(cfg, a, parse) != Configured(cfg, b, parse);
      var path := cfg.routers[b].pathPrefix;
      var o1, o2 := Fronted(order, a), Fronted(order, b);
      FrontedVisits(cfg, order, a);
      FrontedVisits(cfg, order, b);
      BuildsIff(cfg, order, parse);
      BuildsIff(cfg, o1, parse);
      BuildsIff(cfg, o2, parse);
      FirstTakesAll(cfg, o1, parse, path);
      FirstTakesAll(cfg, o2, parse, path);
      assert !RoutedAlike(cfg, o1, o2, parse, path);
    }
  }

  /**
   In every table the builder returns, each route has a backend and each of its backends a
   proxy, so the answers `unavailable` and `proxy_unavailable` cannot occur.
   */
  lemma {:induction false} BuiltTableIsTotal(cfg: HttpConfig, order: seq<string>, parse: string -> bool, path: string)
    requires forall name :: name in order ==> name in cfg.routers
    requires TableFor(cfg, order, parse).Ok?
    requires MatchedRoute(TableFor(cfg, order, parse).value, path).Some?
    ensures var route := MatchedRoute(TableFor(cfg, order, parse).value, path).value;
            && route.urls != []
            && forall j :: 0 <= j < |route.urls| ==> route.urls[j] in AllUrls(TableFor(cfg, order, parse).value)
  {
    var routes := TableFor(cfg, order, parse).value;
    TableRoutes(cfg, order, parse);
    FirstMatchIndex(routes, path);
  }
}
