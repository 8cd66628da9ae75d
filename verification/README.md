# Trapigo: a verified model

This project models the logic of three cooperating programs and proves properties of it with Dafny 4.11:
the Trapigo API gateway (Go), the dashboard that explains what the gateway did with a request (TypeScript),
and the order service behind the gateway (Go). `dafny verify dfyconfig.toml` checks all of it.

What a step of a program does is a function on plain values. Where the program updates an object in place or
runs a loop, a class or a method does the same and is proved to compute that function. The theorems are about
the functions: for every input, every run, every order of events, and where it matters for every clock.

## The pieces

1. **The gateway and its trace** (`GatewayPipeline`, `RouteTable`, `BackendPool`, `SpanForest`, `JaegerParser`,
   `ParserAcceptance`, `PayloadAccount`, `TraceNormalizer`, `SpanBags`, `TraceVerdict`, `TraceGrounds`, `TraceOrder`,
   `TraceRoundTrip`, `JaegerEncoding`, `TraceShown`). The gateway takes rate-limit, CSRF, origin, authentication, routing and backend decisions and
   records each as a span. The dashboard receives an unordered and possibly incomplete bag of spans as JSON and rebuilds the decisions.
   The main result is the round trip: for every decision of every stage, the full trace normalizes to exactly
   those decisions. Part of a trace never contradicts the whole. A verdict on arbitrary payloads is sound.
   The cycle detector is exact. The order of spans never decides whether a verdict is available, and never changes
   the verdict or the evidence of an unambiguous bag; when it can change what is shown or refused is stated exactly.
   `PayloadAccount` and `TraceGrounds` are second accounts of the parser and of the verdict, in terms of JSON fields and
   of recorded spans, each proved equivalent to the first.
2. **Orders** (`OrderAggregate`, `OrderTables`, `OrderCommands`, `OrderDrift`, `OrderRuns`, `OrderEffects`). The aggregate keeps
   its total incrementally in wrapping 64-bit arithmetic, and the two tables are written in transactions whose
   every statement may fail. Updating an order never deletes an item row, so a removed item stays stored; the
   stored total drifts from the stored items by exactly what was removed. `OrderEffects` tells of each command when it is
   carried out and what it stores, field by field.
3. **The token bucket** (`TokenBucket`, `TokenBucketRuns`). A bound on the admissions of every window of every
   run, the exact condition of admission, refinement of a continuously refilled bucket, independent clients.
4. **The showcase driver and the trace record** (`TraceRegistry`, `TraceQuery`, `ShowcaseDriver`,
   `ShowcaseRuns`, `ShowcasePolling`, `ShowcaseSystem`). Two state machines, one in the browser and one on the server, and their
   composition: the pace of the first never trips the quota or the spacing of the second.
5. **Sessions** (`CookieSession`, `CookieSessionRuns`, `JwksCache`, `LoginState`, `LoginInterleaving`,
   `AuthCookieHeader`). Cookie authentication with refresh against a browser's jar, the cache of signing keys,
   the one-time login state, and the filter of the cookie header.

`Common.dfy` holds small shared types, string and white-space helpers and Go's 64-bit integers; `Json.dfy` and
`RequestFlow.dfy` the JSON values and the dashboard's bounded evidence types.

## Where the code does not do what one would expect

The model follows the code; each of these is stated as a theorem with its exact condition.

- Removing an order item does not delete its row. The item comes back on the next read while the total stays
  lowered (`OrderRuns.DriftIsExact`, `OrderRuns.TotalIsSumIff`, `OrderRuns.RemovedItemStaysStored`).
- A verdict of "failed" can be taken back: a proxied call that reports a server error is judged complete before
  the span of the service that served it arrives (`TraceRoundTrip.AvailableIsStable`,
  `TraceRoundTrip.FailedVerdictCanChange`).
- A rate-limited response assigns the time of the next send instead of taking the later of the two, so a clock
  that goes back can move it back (`ShowcaseRuns.MovesBackIff`).
- Looking a login state up and deleting it are two steps, so overlapping callbacks can both succeed
  (`LoginInterleaving.OverlappingUse`). `LoginInterleaving.UsedAgainIff` says exactly when, over all schedules.
- The round-robin counter wraps to negative numbers, where picking can panic; under the mutex it then panics for
  good (`BackendPools.PanicsIff`, `BackendPools.WrappedPickPanicsIff`, `BackendPools.MutexStaysPanicked`).
- Of several gateway, proxy or service spans, or several spans of one check, the first or the last one listed counts,
  so partial evidence, and even whether a trace is refused for too many policies, can depend on the order of the
  spans (`TraceOrder.AmbiguousOrderMatters`, `TraceOrder.OrderCanRefuse`, `TraceOrder.OrderIsIrrelevantIff`).
- A path that several configured prefixes fit is routed by Go's random map order; `RouteTable.OrderIsIrrelevantIff`
  states exactly when the order makes no difference.

## Inputs and assumptions

- Clocks, random values, the network, the identity provider, token signatures, base64 and URL parsing, and the
  behaviour of the database connection are inputs, and the theorems hold for all their values.
- Transactions do not overlap, and a transaction whose commit reports an error has stored nothing.
- The round trip takes it that the gateway's server span has a name the dashboard recognises, that the client
  saw the status the gateway sent, and that span identifiers of one run differ. A payload for every run exists when
  the client's correlation identifier is not one of them; otherwise the listing can hold a cycle and be refused.
- The composition of driver and record takes it that the browser's clock does not go back, that the server's own
  clock advances at least 500 ms while the browser's advances 1500 ms, that nobody else queries a trace
  being looked up, and that a response names a trace not queried before, as fresh random identifiers give.
- JavaScript's conversion of strings to numbers is an input of the normalizer; the round trip asks of it only
  that a status written by the tracing library reads back.

## Model

| member | source | states |
|---|---|---|
| SpanForest.WalkFrom | frontend-dashboard/src/lib/trace-normalizer.ts:282-291 | The walk along parents from one span ends, because the spans not yet seen grow fewer; a report means there is a cycle, and no report means that the chain from that span reaches a root or a span not received. |
| SpanForest.WalkFindsCycle | frontend-dashboard/src/lib/trace-normalizer.ts:282-291 | The nested walk reports a cycle exactly when the parent relation among the spans received has one, in whatever order the spans are visited. |
| SpanForest.AcyclicIffRanked | frontend-dashboard/src/lib/trace-normalizer.ts:202-291 | No cycle is the same as having a ranking in which every span is above its parent, and as every chain of parents ending at a root or at a span that was not received. |
| JaegerParser.SpanAttributes | frontend-dashboard/src/lib/trace-normalizer.ts:94-130 | The loop over the attributes keeps the evidence attributes and refuses a malformed one and an evidence key that occurs twice, as the attribute specification says. |
| JaegerParser.ResourceServiceName | frontend-dashboard/src/lib/trace-normalizer.ts:132-148 | The loop finds the service name or refuses the resource, as specified. |
| JaegerParser.ParseSpans | frontend-dashboard/src/lib/trace-normalizer.ts:226-279 | One scope: every span checked, the recognised ones kept, in order. |
| JaegerParser.SpansFromJaeger | frontend-dashboard/src/lib/trace-normalizer.ts:192-293 | The four nested loops and the cycle walk compute the parse that the lemmas below are about. |
| ParserAcceptance.ParseIff | frontend-dashboard/src/lib/trace-normalizer.ts:192-293 | Parsing succeeds exactly when the envelope is well formed and the bag of spans has at most 256 members, each sound by itself, no identifier twice and no cycle; the result then is the recognised spans in order. |
| ParserAcceptance.SameBagParses | frontend-dashboard/src/lib/trace-normalizer.ts:202-293 | Two payloads listing the same bag of spans, ordered and grouped in any way, are both accepted with the same recognised spans or both refused. |
| ParserAcceptance.ParsedDistinct | frontend-dashboard/src/lib/trace-normalizer.ts:232-236 | Whatever was parsed, no two recognised spans share an identifier, letter case aside. |
| PayloadAccount.PayloadAcceptedIff | frontend-dashboard/src/lib/trace-normalizer.ts:192-293 | A payload is accepted exactly when, field by field of its JSON, the envelope is well formed, it lists at most 256 spans each of which is sound, no identifier occurs twice and no chain of parents comes back to its start. |
| PayloadAccount.EnvelopeIs | frontend-dashboard/src/lib/trace-normalizer.ts:192-225 | The envelope: at most 32 resources, each with at most one proper service name and at most 32 scopes with a list of spans. |
| PayloadAccount.ServiceIs | frontend-dashboard/src/lib/trace-normalizer.ts:132-148 | The service of a resource is the one named by its single service.name attribute, none when there is no such attribute, and refused when it is repeated or not a text. |
| PayloadAccount.RowTells | frontend-dashboard/src/lib/trace-normalizer.ts:226-279 | A span is sound exactly when its identifiers are hexadecimal and not zero, it names the trace looked for, letter case aside, and it is of no interest or has the kind, times and attributes of the operation its service and name denote. |
| PayloadAccount.PayloadTells | frontend-dashboard/src/lib/trace-normalizer.ts:226-279 | The spans a payload yields are exactly those its listed spans stand for, with their identifier, parent, operation, times and evidence; no listed span of the wrong trace or of ill-formed content is passed over. |
| TraceNormalizer.PolicyOutcomes | frontend-dashboard/src/lib/trace-normalizer.ts:311-375 | The loop with its map and its variable gives the evidence specified, the last origin, CSRF and selection outcome winning. |
| TraceNormalizer.NormalizeJaegerTrace | frontend-dashboard/src/lib/trace-normalizer.ts:387-604 | The whole normalizer with its error conditions in the order the code checks them. |
| TraceNormalizer.NothingRecognised | frontend-dashboard/src/lib/trace-normalizer.ts:404-414 | Received spans of which none is recognised give a partial verdict with everything unknown. |
| Text.LowerIs | frontend-dashboard/src/lib/trace-normalizer.ts:229-248 | Identifiers are compared with each of the 26 capital letters taken as the small one and no other character changed. |
| TraceShown.ShownFields | frontend-dashboard/src/lib/trace-normalizer.ts:295-309 | Each span is shown with its lower-cased identifier, its lower-cased parent unless it is the gateway or has none, the role and policy of its operation, and its duration in milliseconds up to five minutes. |
| TraceShown.PayloadSpansShown | frontend-dashboard/src/lib/trace-normalizer.ts:419-432 | Over payloads, the trace of any part of a run shows one span for each stage that arrived, policies and proxy call under the gateway and the service under the proxy call, and no other span. |
| TraceVerdict.PolicyEvidenceIff | frontend-dashboard/src/lib/trace-normalizer.ts:311-375 | When no check recorded twice, a policy outcome is reported exactly when the spans under the gateway show it; the origin and CSRF checks pass together and reject separately. |
| TraceVerdict.EvidenceFits | frontend-dashboard/src/lib/request-flow.ts:28-34 | Unambiguous evidence never exceeds the bound of eight policy outcomes. |
| TraceVerdict.AvailableIff | frontend-dashboard/src/lib/trace-normalizer.ts:513-603 | A verdict is available exactly when some gateway span with the status the client saw roots unambiguous evidence that was delivered, failed at the proxy, or was stopped by a policy. |
| TraceVerdict.VerdictIsSound | frontend-dashboard/src/lib/trace-normalizer.ts:440-603 | For arbitrary spans with distinct identifiers, an available verdict rests on exactly one of: a gateway, proxy, service chain with all five policies successful and a public replica; a proxy call answered with at least 500 and no service span; a terminal policy. Selection and delivery are reported accordingly. |
| TraceVerdict.PayloadVerdictIsSound | frontend-dashboard/src/lib/trace-normalizer.ts:387-604 | The same over payloads: every available verdict on any JSON payload rests on exactly one of those grounds among the spans recognised in it. |
| TraceGrounds.AvailableOnGrounds | frontend-dashboard/src/lib/trace-normalizer.ts:513-603 | In terms of the recorded fields alone: a verdict is available exactly when at most 64 spans are connected, one of each, rooted in a gateway span with the status the client saw, and delivered, failed or stopped; it rests on exactly one of these and tells it. |
| TraceGrounds.PayloadOnGrounds | frontend-dashboard/src/lib/trace-normalizer.ts:387-604 | The same for every payload. |
| TraceGrounds.PayloadComesTo | frontend-dashboard/src/lib/trace-normalizer.ts:387-414 | What else a payload comes to: a bad trace identifier, a result of another trace, a refused payload, no spans, evidence over its limits, or the evidence of its spans. |
| TraceGrounds.EvidenceTells | frontend-dashboard/src/lib/trace-normalizer.ts:415-512 | What is shown of spans with one of each kind, complete or not: every policy outcome once, exactly those the checks recorded, the replica named, and the delivery as far as it is known. |
| TraceGrounds.RefusedIff | frontend-dashboard/src/lib/request-flow.ts:28-34 | Evidence is refused exactly when there are more than 64 spans or more than eight policies. |
| TraceVerdict.DeliveredNeedsChain | frontend-dashboard/src/lib/trace-normalizer.ts:468-504 | Delivery to a replica is never reported, in any verdict, without the chain of parents and a selection under the gateway that names that replica. |
| TraceVerdict.OrderDoesNotMatter | frontend-dashboard/src/lib/trace-normalizer.ts:387-604 | Listing the spans of an available verdict in another order gives an available verdict on the same evidence, entry for entry, only the order of its lists apart. |
| TraceVerdict.NormalizeIgnoresOrder | frontend-dashboard/src/lib/trace-normalizer.ts:387-604 | The same over payloads: reordering and regrouping change neither an available verdict nor its evidence. |
| TraceOrder.EvidenceIsReading | frontend-dashboard/src/lib/trace-normalizer.ts:387-604 | What is shown is that of a reading of the bag: which gateway, service, proxy and selected spans come first and which check outcomes come last. The policies are the whole list, repeated entries included. |
| TraceOrder.ReadingIsPossible | frontend-dashboard/src/lib/trace-normalizer.ts:387-604 | Every order of the spans leads to one of the readings the bag allows. |
| TraceOrder.ReadingIsRealized | frontend-dashboard/src/lib/trace-normalizer.ts:387-604 | Every reading the bag allows is that of some order of its spans. |
| TraceOrder.OrderIsIrrelevantIff | frontend-dashboard/src/lib/trace-normalizer.ts:387-604 | All orders of a bag get the same verdict on the same evidence exactly when the bag has too many spans, or any two of its possible readings show the same evidence, repeated policies counted, or are both over the limit of eight policies. This can be told from the bag alone. |
| TraceOrder.PayloadOrderIsIrrelevant | frontend-dashboard/src/lib/trace-normalizer.ts:387-604 | Under that condition grouping and order of a whole payload change nothing either. |
| TraceOrder.EvidenceIgnoresOrder | frontend-dashboard/src/lib/trace-normalizer.ts:387-604 | Spans without a gateway span, or with unambiguous gateway spans, show the same evidence and get the same verdict in every order, whether available or partial. |
| TraceOrder.VerdictIgnoresOrder | frontend-dashboard/src/lib/trace-normalizer.ts:513-603 | Whether a verdict is available never depends on the order, for any spans. |
| TraceOrder.AmbiguousOrderMatters | frontend-dashboard/src/lib/trace-normalizer.ts:416-466 | Two gateway spans and an unavailable selection under one of them: the order decides between not selected and unknown. |
| TraceOrder.OrderCanRefuse | frontend-dashboard/src/lib/request-flow.ts:28-34 | Nine admitted requests under one gateway span and one under another: with the first gateway span in front the trace is refused for too many policies, with the second in front it is shown. |
| GatewayPipeline.ReachedIff | trapigo/internal/app/gateway/bootstrap/gateway_setup.go:97-209 | A stage records a span exactly when every earlier stage let the request through. |
| GatewayPipeline.BackendReplicaLabel | trapigo/internal/app/gateway/bootstrap/gateway_setup.go:211-221 | The label is replica-(i+1) for the first position i of the backend in its pool, empty when it is not there. |
| Text.DecimalIs | trapigo/internal/app/gateway/bootstrap/gateway_setup.go:211-221 | The number in a label is written digit by digit in base ten. |
| GatewayPipeline.MatchRoute | trapigo/internal/app/gateway/bootstrap/gateway_setup.go:100-106 | The scan finds the first router whose prefix the path has. |
| GatewayPipeline.RoutersFollowRoutes | trapigo/internal/app/gateway/bootstrap/gateway_setup.go:49-106 | Matching on the routers built agrees with matching on the routes configured. |
| GatewayPipeline.ProxyHandler | trapigo/internal/app/gateway/bootstrap/gateway_setup.go:98-190 | One request through the handler: the status and the spans recorded, in order, or a panic of the pick; the counter of the pool that served goes up by one, wrapping, unless the pool is empty, and every other counter stays. |
| GatewayPipeline.FrontStages | trapigo/internal/app/gateway/bootstrap/gateway_setup.go:201-208 | Rate limit, CSRF, origin and authentication in this order, each recording its span and able to end the request with 429, 403, 403 or 401. |
| GatewayPipeline.ServeGet | trapigo/internal/app/gateway/bootstrap/gateway_setup.go:192-208 | A GET through the catch-all route records exactly the spans and the status of the decisions taken, in order; only a request let through to the proxy handler takes a ticket, from the pool its path matches. |
| GatewayPipeline.LogSplits | trapigo/internal/app/gateway/bootstrap/gateway_setup.go:97-209 | The spans of a run are those of the stages in front followed by those of the proxy handler. |
| GatewayPipeline.StatusTellsOfLast | trapigo/internal/app/gateway/bootstrap/gateway_setup.go:97-209 | The status answered tells of the last span recorded: 429, 403, 401 or 404 of the stage that refused, 503 of the selection, or what the upstream said, 502 if nothing. |
| GatewayPipeline.LastStageIs | trapigo/internal/app/gateway/bootstrap/gateway_setup.go:97-209 | That is the first stage that refuses, or the furthest one the routing allows. |
| TraceRoundTrip.PoliciesRebuilt | frontend-dashboard/src/lib/trace-normalizer.ts:506-512 | For any part of a run, the policy outcomes reported are exactly the decisions whose spans arrived under the gateway span. |
| TraceRoundTrip.ReplicaRebuilt | frontend-dashboard/src/lib/trace-normalizer.ts:440-466 | For any part of a run, the selection reported is the label recorded, not-selected, or unknown, as the arrived spans allow; a missing proxy yields no selection. |
| TraceRoundTrip.DeliveryIsRebuilt | frontend-dashboard/src/lib/trace-normalizer.ts:468-504 | For any part of a run, the delivery reported is determined by the stages that arrived: delivered with gateway, backend, proxy and service, failed with a proxy that reports at least 500 and no service, not attempted without replica or proxy, unknown otherwise. |
| TraceRoundTrip.ConclusiveIff | frontend-dashboard/src/lib/trace-normalizer.ts:513-603 | A part of a run is conclusive exactly when the stages that settle its outcome arrived and the client saw the gateway status. |
| TraceRoundTrip.PartJudged | frontend-dashboard/src/lib/trace-normalizer.ts:387-604 | Every part of a run is judged without error, and available exactly when it is conclusive. |
| TraceRoundTrip.FullTraceRoundTrip | frontend-dashboard/src/lib/trace-normalizer.ts:387-604 | Round trip: whatever every stage decided, the full set of spans in any order gives back exactly the decisions, the label and the delivery, and is available exactly when the decisions leave nothing open. |
| TraceRoundTrip.PartialExportAgrees | frontend-dashboard/src/lib/trace-normalizer.ts:311-504 | A subset of a run never contradicts a larger one: fewer policy outcomes, selection unknown or the same, delivery only if delivered there. |
| TraceRoundTrip.AvailableIsStable | frontend-dashboard/src/lib/trace-normalizer.ts:513-603 | Once a part of a run is available, further spans of the run keep the verdict, the delivery and a known selection, except for a served request whose proxied call reports a server error. |
| TraceRoundTrip.FailedVerdictCanChange | frontend-dashboard/src/lib/trace-normalizer.ts:491-543 | The exception is real: in every such run two spans are judged available as failed, and the service span takes that back. |
| TraceRoundTrip.LabelIsPublic | frontend-dashboard/src/lib/request-flow.ts:52-57 | The label the gateway records is a public replica label, for every position a pool can have. |
| TraceRoundTrip.RoutedLabelIsPublic | trapigo/internal/app/gateway/bootstrap/gateway_setup.go:121-153 | Whatever the pipeline routes a request to, the label it records is a public one, as the round trip asks. |
| TraceRoundTrip.FullTraceExists | trapigo/internal/app/gateway/bootstrap/gateway_setup.go:97-209 | Every run can be recorded in full, so the round trip is not empty. |
| JaegerEncoding.EvidenceReadsBack | frontend-dashboard/src/lib/trace-normalizer.ts:94-130 | Evidence written as attributes, among attributes of no interest, is read back unchanged. |
| JaegerEncoding.SpanReadsBack | frontend-dashboard/src/lib/trace-normalizer.ts:226-279 | A span written as Jaeger lists it, under any of its accepted names and kinds, is read back as the same span. |
| JaegerEncoding.CarriedParses | frontend-dashboard/src/lib/trace-normalizer.ts:192-293 | A payload parses to given spans, in some order, exactly when its entries read as those spans and otherwise as sound spans of no interest, none twice and no cycle: order, grouping, spelling and other spans do not matter. |
| JaegerEncoding.WrittenIsCarried | frontend-dashboard/src/lib/trace-normalizer.ts:192-293 | Listing spans under any of their accepted names and kinds, in any order and grouping, among attributes of no interest, makes such a payload. |
| JaegerEncoding.GatewayTraceRoundTrip | frontend-dashboard/src/lib/trace-normalizer.ts:387-604 | The round trip over JSON payloads, from the gateway decisions to the normalized evidence, for every payload whose entries read as the spans of the run, spans of no interest among them. |
| JaegerEncoding.PartialPayloadAgrees | frontend-dashboard/src/lib/trace-normalizer.ts:387-604 | Over payloads, one that carries fewer spans of a run is judged on less evidence, none of which contradicts that of one carrying more. |
| JaegerEncoding.AvailablePayloadIsStable | frontend-dashboard/src/lib/trace-normalizer.ts:513-603 | Over payloads, an available verdict and its delivery outlast the arrival of further spans of the run, unless a proxied call that failed was served after all. |
| JaegerEncoding.RunHasPayload | frontend-dashboard/src/lib/trace-normalizer.ts:192-293 | Every recordable run has a payload that carries it. |
| BackendPools.BackendPool.Add | trapigo/internal/features/core/domain/backend_pool.go:33-35 | Appends the backend and leaves the counter alone. |
| BackendPools.BackendPool.RoundRobinMutex | trapigo/internal/features/core/domain/backend_pool.go:37-49 | Picks by the counter before it advances; a negative index panics and leaves the counter; an empty pool picks nothing. |
| BackendPools.BackendPool.RoundRobinAtomic | trapigo/internal/features/core/domain/backend_pool.go:51-62 | Advances first and picks by the ticket recovered from the new value, wrapping at 64 bits. |
| BackendPools.PanicsIff | trapigo/internal/features/core/domain/backend_pool.go:46-61 | A pick panics exactly on negative tickets that are no multiple of the pool size. |
| BackendPools.WrappedPickPanicsIff | trapigo/internal/features/core/domain/backend_pool.go:51-62 | The pick after 2^63 picks from zero panics exactly when the pool size does not divide 2^63, as three does not. |
| BackendPools.VersionsAgree | trapigo/internal/features/core/domain/backend_pool.go:37-62 | While the counter stays in the nonnegative range both versions pick the same sequence of positions, ticket modulo size. |
| BackendPools.MutexStaysPanicked | trapigo/internal/features/core/domain/backend_pool.go:42-48 | After a panic the mutex version panics for good. |
| BackendPools.TicketsAreConsecutive | trapigo/internal/features/core/domain/backend_pool.go:56-58 | For every interleaving of callers the tickets handed out are consecutive. |
| BackendPools.TicketsAreDistinct | trapigo/internal/features/core/domain/backend_pool.go:56-58 | No two of them are equal, short of a full turn of the counter. |
| BackendPools.Fair | trapigo/internal/features/core/domain/backend_pool.go:56-61 | Over any consecutive tickets two positions are picked a number of times that differs by at most one. |
| BackendPools.InterleavedFairness | trapigo/internal/features/core/domain/backend_pool.go:51-62 | The same for the selections of concurrent callers, over any stretch of the tickets and any schedule. |
| RouteTable.LoadBalancer.AddRouter | trapigo/internal/features/core/domain/load_balancer.go:27-29 | Appends the router. |
| RouteTable.FillPool | trapigo/internal/app/gateway/bootstrap/gateway_setup.go:77-91 | Fills a pool with one backend per server, in order, registering a proxy for each, or stops at a URL that does not parse. |
| RouteTable.BuildRouter | trapigo/internal/app/gateway/bootstrap/gateway_setup.go:49-75 | One pass of the outer loop, with its three errors. |
| RouteTable.BuildLoadBalancer | trapigo/internal/app/gateway/bootstrap/gateway_setup.go:44-95 | The builder, for any order in which the configuration map is visited, builds the specified table or fails as specified. |
| RouteTable.BuildsIff | trapigo/internal/app/gateway/bootstrap/gateway_setup.go:49-95 | Whether a table is built depends on the routers, not on the order they are visited in. |
| RouteTable.RoutingIgnoresOrder | trapigo/internal/app/gateway/bootstrap/gateway_setup.go:49-106 | When no configured prefix is a prefix of another, the route matched is the same for every visiting order. |
| RouteTable.OrderIsIrrelevantIff | trapigo/internal/app/gateway/bootstrap/gateway_setup.go:49-106 | For every configuration a table can be built from, routing is independent of the visiting order exactly when routers whose prefixes overlap are configured alike. |
| RouteTable.MatchIsTheOne | trapigo/internal/app/gateway/bootstrap/gateway_setup.go:100-106 | The route matched is then that of the router whose prefix the path has. |
| RouteTable.NoMatch | trapigo/internal/app/gateway/bootstrap/gateway_setup.go:100-112 | A path that no prefix fits matches nothing. |
| RouteTable.MatchedIff | trapigo/internal/app/gateway/bootstrap/gateway_setup.go:100-106 | A path goes to the first route whose prefix it continues with some text, and to none exactly when it continues none. |
| RouteTable.PrefixIsRouted | trapigo/internal/app/gateway/bootstrap/gateway_setup.go:100-106 | Whatever text follows the prefix of a route, the path goes to that route or to an earlier one whose prefix it continues as well. |
| RouteTable.TableIsConfigured | trapigo/internal/app/gateway/bootstrap/gateway_setup.go:49-95 | A table is built exactly when every router visited has a known service with servers whose URLs all parse; its routes are those routers, in order, each with its prefix and its servers. |
| RouteTable.TableErrorIs | trapigo/internal/app/gateway/bootstrap/gateway_setup.go:49-95 | The error is that of the first router visited that cannot be served, and tells why. |
| GatewayPipeline.BuiltTableServes | trapigo/internal/app/gateway/bootstrap/gateway_setup.go:66-147 | For the table and the proxies the builder returns, whatever the counters: a path no router fits is answered not found, and any other is proxied to the replica its counter picks among the configured servers, unless the pick itself panics. |
| GatewayPipeline.BuiltTableIsNeverUnavailable | trapigo/internal/app/gateway/bootstrap/gateway_setup.go:117-147 | Neither of the two 503 answers of the handler is ever given for a table that was built. |
| GatewayPipeline.BuiltTableTakesTurns | trapigo/internal/app/gateway/bootstrap/gateway_setup.go:66-147 | With fewer than 2^63 picks behind the pool, from zero, there is no panic and replica number picks modulo pool size serves. |
| GatewayPipeline.RequestIsServed | trapigo/internal/app/gateway/bootstrap/gateway_setup.go:66-147 | From configuration to answer: a path that continues no configured prefix is not found; any other is proxied, for the first such router visited, to the server of its service whose turn it is, under the label replica-n. |
| TokenBucket.TokenBucketLimiter.Consume | trapigo/internal/features/middleware/transporthttp/rate_limit.go:111-143 | Refills lazily, spends a token if there is one, and touches no other bucket. |
| TokenBucket.RateLimitMiddleware.constructor | trapigo/internal/features/middleware/transporthttp/rate_limit.go:55-63 | There is a limiter exactly when the policy is present, enabled and of positive capacity. |
| TokenBucket.RateLimitMiddleware.Serve | trapigo/internal/features/middleware/transporthttp/rate_limit.go:65-105 | Without a limiter every request passes as disabled; with one it is admitted exactly when a token was spent. |
| TokenBucketRuns.CallIs | trapigo/internal/features/middleware/transporthttp/rate_limit.go:125-142 | A call first adds the share of the refill rate that the time since the mark is of the interval, up to the capacity; it is admitted exactly when there is a whole token, which it takes. |
| TokenBucketRuns.IntervalRefills | trapigo/internal/features/middleware/transporthttp/rate_limit.go:125-137 | A whole interval gives the refill rate back. |
| TokenBucketRuns.NothingRefills | trapigo/internal/features/middleware/transporthttp/rate_limit.go:125-137 | Nothing comes back without a later reading, a positive rate and a positive interval. |
| TokenBucketRuns.NewClientIsFull | trapigo/internal/features/middleware/transporthttp/rate_limit.go:115-123 | A client not seen before starts with a full bucket. |
| TokenBucketRuns.StaysInRange | trapigo/internal/features/middleware/transporthttp/rate_limit.go:111-143 | Whatever the clock does, tokens stay between zero and the capacity and the refill mark never moves back. |
| TokenBucketRuns.TokensAreConserved | trapigo/internal/features/middleware/transporthttp/rate_limit.go:125-140 | Admissions and tokens left never exceed the tokens there were and those gained since. |
| TokenBucketRuns.WindowBound | trapigo/internal/features/middleware/transporthttp/rate_limit.go:111-143 | In every window of every run, with any clock, admissions are at most the capacity plus what refills between the first and the latest reading of the window. |
| TokenBucketRuns.FollowsRunningMax | trapigo/internal/features/middleware/transporthttp/rate_limit.go:125-137 | Readings from before the latest one are ignored: on any clock the bucket is that of the running maximum of the readings. |
| TokenBucketRuns.LevelIsLeastSlack | trapigo/internal/features/middleware/transporthttp/rate_limit.go:125-137 | On any clock the bucket holds exactly the least allowance of the windows ending with the call, elapsed time being taken from the running maximum of the readings. |
| TokenBucketRuns.AdmittedIff | trapigo/internal/features/middleware/transporthttp/rate_limit.go:137-142 | On any clock a call of a new client is admitted exactly when admitting it breaks the bound of no window ending with it, at the running maximum of the readings. |
| TokenBucketRuns.RefillComposes | trapigo/internal/features/middleware/transporthttp/rate_limit.go:125-135 | Refilling in between changes nothing about what the bucket holds later. |
| TokenBucketRuns.LazyRefillIsFluid | trapigo/internal/features/middleware/transporthttp/rate_limit.go:125-135 | Refilling at each call decides as a bucket that is refilled at any other instants as well. |
| TokenBucketRuns.RejectionsChangeNothing | trapigo/internal/features/middleware/transporthttp/rate_limit.go:137-142 | On any clock, a call is decided as if the rejected calls before it had not been made. |
| TokenBucketRuns.ClientsAreIndependent | trapigo/internal/features/middleware/transporthttp/rate_limit.go:115-123 | Every request is decided as it would be if its client were the only one. |
| TraceRegistry.ShowcaseTraces.RegisterShowcaseTrace | frontend-dashboard/src/server/showcase-trace.server.ts:17-25 | Replaces the record with a new one of thirty minutes. |
| TraceRegistry.ShowcaseTraces.IsActiveShowcaseTrace | frontend-dashboard/src/server/showcase-trace.server.ts:27-33 | Drops an expired record and tells whether the trace is the active one. |
| TraceRegistry.ShowcaseTraces.SaveShowcaseResult | frontend-dashboard/src/server/showcase-trace.server.ts:35-42 | Saves the result exactly when its trace is active. |
| TraceRegistry.ShowcaseTraces.GetShowcaseResult | frontend-dashboard/src/server/showcase-trace.server.ts:44-51 | Gives the saved result of the active trace. |
| TraceRegistry.ShowcaseTraces.ConsumeTraceQuery | frontend-dashboard/src/server/showcase-trace.server.ts:53-68 | Grants and numbers a query, or refuses and leaves quota and spacing alone. |
| TraceRegistry.RecordIsHistory | frontend-dashboard/src/server/showcase-trace.server.ts:15-68 | The record is at all times what the latest registration and the grants and saves since make of it, and gone once any reading has reached its expiry. |
| TraceRegistry.GrantsAreBounded | frontend-dashboard/src/server/showcase-trace.server.ts:53-68 | For any clock readings, one registration grants at most ten queries, numbered consecutively, pairwise at least 500 ms apart, none at or after its expiry. |
| TraceRegistry.QueryGrantedIff | frontend-dashboard/src/server/showcase-trace.server.ts:53-68 | A query is granted exactly when it is for the registered, unexpired trace, with quota left and 500 ms after the grant before it. |
| TraceRegistry.ResultReadIff | frontend-dashboard/src/server/showcase-trace.server.ts:44-51 | A result is read back exactly when it was the last saved for the registered trace, which has not expired. |
| TraceQuery.TraceHandler.StartLookup | frontend-dashboard/src/server/trace.functions.ts:20-30 | Takes at most one query, and refuses an inactive trace before taking any. |
| TraceQuery.TraceHandler.FinishLookup | frontend-dashboard/src/server/trace.functions.ts:31-70 | After the wait for the user: the record is looked at again and dropped only when a reading finds it expired, no query is taken, and the answer follows from the saved result and the reply. |
| TraceQuery.GivenUpIff | frontend-dashboard/src/server/trace.functions.ts:41-56 | A trace is reported as not found exactly on the tenth query of its quota; before it the answer is to wait. |
| TraceQuery.AnsweredIff | frontend-dashboard/src/server/trace.functions.ts:31-70 | Every reply has its own answer: the trace judged, a timeout, or a failure, which an unreadable payload is too. |
| TraceQuery.FullTraceIsAnswered | frontend-dashboard/src/server/trace.functions.ts:39-56 | A lookup that finds the full trace of a gateway run answers with exactly what the gateway decided. |
| ShowcaseDriver.Showcase.ExecuteRequest | frontend-dashboard/src/lib/use-showcase.ts:63-78 | Nothing happens unless mounted, idle, visible and due; otherwise one cycle begins. |
| ShowcaseDriver.Showcase.Start | frontend-dashboard/src/lib/use-showcase.ts:239-243 | Turns traffic on and tries to send. |
| ShowcaseDriver.Showcase.Stop | frontend-dashboard/src/lib/use-showcase.ts:58-61 | Turns traffic off and changes nothing else. |
| ShowcaseDriver.Showcase.OnTick | frontend-dashboard/src/lib/use-showcase.ts:245-250 | A tick sends only while traffic is on. |
| ShowcaseDriver.Showcase.Leave | frontend-dashboard/src/lib/use-showcase.ts:259-264 | Leaving the page turns traffic off; cycles in progress stay behind. |
| ShowcaseDriver.Showcase.OnResponse | frontend-dashboard/src/lib/use-showcase.ts:86-108 | From the response to the first wait: back-off on 429, traffic off on a failed connection or body, straight to the end on a failed connection. |
| ShowcaseDriver.Showcase.OnLookup | frontend-dashboard/src/lib/use-showcase.ts:109-111 | A lookup is sent after its wait while the page is visible. |
| ShowcaseDriver.Showcase.OnAnswer | frontend-dashboard/src/lib/use-showcase.ts:112-150 | From an answer to the next wait or the end of the cycle, with every branch of the loop. |
| ShowcaseDriver.Showcase.OnFailure | frontend-dashboard/src/lib/use-showcase.ts:178-195 | What a thrown error leaves on the page, and the end of the cycle. |
| ShowcaseDriver.Showcase.Conclude | frontend-dashboard/src/lib/use-showcase.ts:151-177 | What follows the loop: the reason shown when the trace stayed out, and traffic off on an unattributed 401. |
| ShowcaseDriver.Showcase.Finish | frontend-dashboard/src/lib/use-showcase.ts:196-228 | History, counts, the next send and the flags after a cycle of a mounted page. |
| ShowcasePolling.RequestGoesOutIff | frontend-dashboard/src/lib/use-showcase.ts:63-78 | In every run, a request goes out exactly when the page is there and visible, nothing is under way and the pause is over, and nothing else changes then. |
| ShowcasePolling.ResponseShown | frontend-dashboard/src/lib/use-showcase.ts:86-108 | A response is shown as waiting for its trace and polled for, unless the connection failed, which ends the cycle; only a whole response keeps traffic on; a 429 sets the next send to the retry-after or five seconds. |
| ShowcasePolling.LookupGoesOut | frontend-dashboard/src/lib/use-showcase.ts:109-111 | A lookup goes out a second and a half after its wait began at the earliest, and only on a visible page. |
| ShowcasePolling.PollingGoesOn | frontend-dashboard/src/lib/use-showcase.ts:104-150 | After an answer that leaves the trace open, with fewer than ten lookups sent, the cycle waits for its next lookup with its result kept, and the page shows what part of the trace there is. |
| ShowcasePolling.PollingEndsIff | frontend-dashboard/src/lib/use-showcase.ts:104-150 | An answer ends the cycle of a page that is there exactly when it settles the matter or comes to the tenth lookup. |
| ShowcasePolling.PollingEnds | frontend-dashboard/src/lib/use-showcase.ts:112-228 | What the page then shows, when traffic stops, and what is recorded: the trace or the reason for having none, a rejected login or an unexplained 401, the entry, the count of the replica and the five-second pause. |
| ShowcasePolling.FailureShown | frontend-dashboard/src/lib/use-showcase.ts:178-228 | A request or lookup that throws ends the cycle and stops traffic; a result already there is kept and recorded. |
| ShowcasePolling.StoppingStops | frontend-dashboard/src/lib/use-showcase.ts:58-61 | Stopping turns traffic off, leaving the page for good, and neither does anything else. |
| ShowcasePolling.GonePageIsLeftAlone | frontend-dashboard/src/lib/use-showcase.ts:259-264 | On a page that is gone nothing shown, recorded or counted changes any more. |
| ShowcaseRuns.AtMostOneCycle | frontend-dashboard/src/lib/use-showcase.ts:63-78 | For every order of events there is at most one cycle, a mounted page is busy exactly while there is one, and an idle page shows neither a request in flight nor a wait for its trace. |
| ShowcaseRuns.NextSendNeverDecreases | frontend-dashboard/src/lib/use-showcase.ts:99-102 | With a clock that does not go back, the next send never moves back. |
| ShowcaseRuns.SendsAreSpaced | frontend-dashboard/src/lib/use-showcase.ts:99-221 | Every send comes at least five seconds after each earlier cycle ended and not before any earlier back-off is over. |
| ShowcaseRuns.MovesBackIff | frontend-dashboard/src/lib/use-showcase.ts:99-102 | The next send moves back exactly when a 429 is read on a clock that has gone back behind it, since the code assigns there instead of taking the maximum. |
| ShowcaseRuns.ClockBackMovesSendBack | frontend-dashboard/src/lib/use-showcase.ts:99-102 | A run in which that happens. |
| ShowcaseRuns.HistoryAndCounts | frontend-dashboard/src/lib/use-showcase.ts:198-216 | The history is the newest five of all completed cycles, while each replica count tallies all of them; the replica counted is the one the page shows as selected. |
| ShowcaseRuns.AtMostTenLookups | frontend-dashboard/src/lib/use-showcase.ts:104-111 | On any clock, a cycle sends at most ten lookups. |
| ShowcaseRuns.LookupsAreSpaced | frontend-dashboard/src/lib/use-showcase.ts:104-111 | On a clock that does not go back, the lookups of a cycle are at least 1500 ms apart. |
| ShowcaseSystem.SystemKeeps | frontend-dashboard/src/lib/use-showcase.ts:104-150 | Driver and record together: queries used never exceed the lookups sent, and the last query was granted, by the browser clock, before the wait for the next lookup. |
| ShowcaseSystem.LookupsAreNeverRefused | frontend-dashboard/src/server/showcase-trace.server.ts:53-68 | A lookup that reaches the server while its trace is still the active record is never refused its query, with a server clock of its own that only has to advance half a second while the browser clock advances one and a half. |
| ShowcaseSystem.ALookupIsGranted | frontend-dashboard/src/server/showcase-trace.server.ts:53-68 | A run in which a lookup arrives and is granted the first query of its trace, so the composition is about something. |
| OrderAggregate.NewOrder | go-order-service/internal/features/orders/domain/order.go:15-52 | Checks customer, emptiness and each item in order, and adds the items one by one. |
| OrderAggregate.Order.AddItem | go-order-service/internal/features/orders/domain/order.go:54-72 | Appends the charged item and adds to the total, or reports the fault and changes nothing. |
| OrderAggregate.Order.RemoveItem | go-order-service/internal/features/orders/domain/order.go:74-86 | Removes the first item of that identifier and subtracts its subtotal, or changes nothing. |
| OrderAggregate.Order.UpdateItem | go-order-service/internal/features/orders/domain/order.go:88-123 | Patches the first item of that identifier and shifts the total; a patch of nothing or a faulty patch changes nothing. |
| OrderAggregate.Order.UpdateStatus | go-order-service/internal/features/orders/domain/order.go:125-128 | Changes the status and nothing else. |
| OrderAggregate.AddedAllIff | go-order-service/internal/features/orders/domain/order.go:32-49 | Placing succeeds exactly when no item is at fault, and otherwise reports the fault of the first that is. |
| OrderAggregate.TotalsAgree | go-order-service/internal/features/orders/domain/order.go:15-123 | After any sequence of changes to a placed order its total is the sum of quantity times price, wrapped to 64 bits, and exact whenever that fits. |
| OrderAggregate.RemoveUndoesAdd | go-order-service/internal/features/orders/domain/order.go:54-86 | Removing an item undoes adding it. |
| OrderAggregate.WithoutKeepsTheRest | go-order-service/internal/features/orders/domain/order.go:74-82 | Removing leaves every item of another identifier, in the order they were in. |
| OrderRuns.InsertExtends | go-order-service/db/migrations/20260824073550_initial.sql:12-21 | Inserting an item adds exactly one row, under an identifier no item row has, at the end of its order, and leaves every other row, the listings of other orders and the constraints alone. |
| OrderRuns.ErasedKeeps | go-order-service/db/migrations/20260824073550_initial.sql:12-14 | Deleting an order takes that order and, by the cascade, exactly its item rows; rows, listing and drift of every other order and the constraints stay. |
| OrderTables.PostgresOrderRepository.Create | go-order-service/internal/features/orders/infrastructure/repository/postgres_order_repository.go:26-59 | Inserts the order and then its items one by one; any failing statement ends it. |
| OrderTables.PostgresOrderRepository.GetByID | go-order-service/internal/features/orders/infrastructure/repository/postgres_order_repository.go:61-83 | Reads the order and its items by ascending identifier, or fails. |
| OrderTables.PostgresOrderRepository.List | go-order-service/internal/features/orders/infrastructure/repository/postgres_order_repository.go:85-115 | Reads every order by ascending identifier, each with its items. |
| OrderTables.PostgresOrderRepository.Update | go-order-service/internal/features/orders/infrastructure/repository/postgres_order_repository.go:117-154 | Writes the order row, inserts items without an identifier, writes over the others, deletes none. |
| OrderTables.PostgresOrderRepository.Delete | go-order-service/internal/features/orders/infrastructure/repository/postgres_order_repository.go:156-159 | Deletes the order. |
| OrderTables.ItemsAreStored | go-order-service/internal/features/orders/infrastructure/repository/postgres_order_repository.go:161-187 | The items listed for an order are exactly its rows. |
| OrderTables.ItemsAscend | go-order-service/internal/features/orders/infrastructure/repository/postgres_order_repository.go:161-187 | They are listed by ascending identifier. |
| OrderTables.ListedIsEveryOrder | go-order-service/internal/features/orders/infrastructure/repository/postgres_order_repository.go:85-115 | A listing holds every stored order once, each as reading it by itself would give it. |
| OrderCommands.OrderService.CreateOrderHandler | go-order-service/internal/features/orders/application/command/create_order.go:36-66 | Checks, builds the aggregate, and inserts it in one transaction. |
| OrderCommands.OrderService.ChangeOrder | go-order-service/internal/features/orders/application/command/add_order_item.go:32-48 | The body the add, remove, update and status handlers share: load, change, write back. |
| OrderCommands.OrderService.Perform | go-order-service/internal/features/orders/application/command/delete_order.go:25-30 | The transaction bodies, that of the delete handler among them. |
| OrderCommands.OrderService.RunInTx | go-order-service/internal/platform/uow/uow.go:24-48 | Commits the work of a body that succeeded and rolls back any other, identifiers handed out staying handed out. |
| OrderCommands.OrderService.Handle | go-order-service/internal/features/orders/application/command/update_order_status.go:28-48 | Every command as one transaction, an empty status refused before it. |
| OrderEffects.CreateStoredIff | go-order-service/internal/features/orders/application/command/create_order.go:36-66 | An order is created exactly when customer and lines are valid, quantities fit their column, and the database takes it. |
| OrderEffects.CreateStores | go-order-service/internal/features/orders/application/command/create_order.go:36-66 | It then has the customer asked for, status pending, and one item per line, in order, with the product, quantity, price and charge of that line, answered and stored alike; no other row changes. |
| OrderEffects.CreateRefused | go-order-service/internal/features/orders/domain/order.go:15-52 | It is refused for the customer, for having no lines, or for the first fault of the first line at fault. |
| OrderEffects.ReadIs | go-order-service/internal/features/orders/infrastructure/repository/postgres_order_repository.go:61-83 | An order read has the fields of its row and exactly its item rows, field by field. |
| OrderEffects.ReadIff | go-order-service/internal/features/orders/infrastructure/repository/postgres_order_repository.go:61-115 | Reading one order succeeds exactly when it exists and its two statements go through, listing all exactly when one statement more than there are orders does. |
| OrderEffects.AddStoredIff | go-order-service/internal/features/orders/application/command/add_order_item.go:32-48 | An item is added exactly when the order exists, the line is valid and the database takes it. |
| OrderEffects.AddStores | go-order-service/internal/features/orders/application/command/add_order_item.go:32-48 | It goes to the end of the order with the product, quantity, price and charge of the line, in a row of its own, and the total grows by the charge. |
| OrderEffects.UpdateStoredIff | go-order-service/internal/features/orders/application/command/update_order_item.go:29-47 | An item is updated exactly when it is one of the order, the values asked for are positive and fit, and the database takes it. |
| OrderEffects.UpdateStores | go-order-service/internal/features/orders/application/command/update_order_item.go:29-47 | It then has the quantity and price asked for, each kept where none was asked for, and is charged anew; its product and every other item stay. |
| OrderEffects.StatusStoredIff | go-order-service/internal/features/orders/application/command/update_order_status.go:28-48 | A status is stored exactly when the order exists and the status is not empty and has only spaces beyond 32 characters. |
| OrderEffects.StatusStores | go-order-service/internal/features/orders/application/command/update_order_status.go:28-48 | It is answered as asked for and stored without those spaces; customer, total and items stay. |
| OrderEffects.RemoveStoredIff | go-order-service/internal/features/orders/application/command/remove_order_item.go:30-42 | An item is removed exactly when it is one of the order and the database takes it. |
| OrderEffects.RemoveStores | go-order-service/internal/features/orders/application/command/remove_order_item.go:30-42 | It is gone from the answer with its subtotal, while every item row stays. |
| OrderEffects.ChangeRefused | go-order-service/internal/features/orders/domain/order.go:54-123 | A change is refused for a missing order, a missing item, or the first value out of range. |
| OrderEffects.DeleteErasesIff | go-order-service/internal/features/orders/application/command/delete_order.go:20-31 | An order is deleted exactly when it exists and the database carries it out; exactly its rows go. |
| OrderDrift.MatchingUntouched | go-order-service/internal/features/orders/infrastructure/repository/postgres_order_repository.go:127-151 | Writing back items that equal their rows changes no row. |
| OrderDrift.ChangeStoredIff | go-order-service/internal/features/orders/infrastructure/repository/postgres_order_repository.go:117-154 | A change is stored exactly when the order exists, the aggregate allows it, the status and the row written fit their columns and the connection lasts; it then writes the order row and at most one item row. |
| OrderDrift.ReadsBack | go-order-service/internal/features/orders/application/command/remove_order_item.go:30-42 | Reading an order after a successful change gives what was answered, except that a removed item is there again and that the status column drops trailing spaces beyond 32 characters. |
| OrderDrift.OthersAfterChange | go-order-service/internal/features/orders/infrastructure/repository/postgres_order_repository.go:117-154 | No other order is touched. |
| OrderRuns.CreatedIsStored | go-order-service/internal/features/orders/infrastructure/repository/postgres_order_repository.go:26-59 | A created order is stored with exactly the items answered, which add up to its total. |
| OrderRuns.CommandKeeps | go-order-service/internal/platform/uow/uow.go:24-48 | Every command, successful or not, keeps the constraints and the exact drift of every order. |
| OrderRuns.DriftIsExact | go-order-service/internal/features/orders/infrastructure/repository/postgres_order_repository.go:117-154 | After any run from empty tables, each stored total is the sum of its stored items less everything successful removals took off it, modulo 2^64. |
| OrderRuns.TotalIsSumIff | go-order-service/internal/features/orders/infrastructure/repository/postgres_order_repository.go:117-154 | The intended equality of total and stored items holds exactly when what removals took off wraps to zero. |
| OrderRuns.TotalIsSumWithoutRemoval | go-order-service/internal/features/orders/infrastructure/repository/postgres_order_repository.go:117-154 | In particular it holds in every run without a successful removal, and the total is then the amount due. |
| OrderRuns.RemovedItemStaysStored | go-order-service/internal/features/orders/application/command/remove_order_item.go:30-42 | A run in which it fails: one item created and removed leaves a total of 0 and a stored item of 600. |
| OrderRuns.FailureChangesNothing | go-order-service/internal/platform/uow/uow.go:37-45 | A command that fails, wherever it fails, leaves both tables as they were. |
| CookieSession.HasRequiredScopes | trapigo/internal/features/auth/middleware/authentication.go:181-202 | True exactly when every required scope that is not blank is among those granted, outer white space aside. |
| CookieSession.Authentication.ValidateToken | trapigo/internal/features/auth/middleware/authentication.go:161-179 | Asks the validator at most once, and accepts only claims with the required scopes. |
| CookieSession.Authentication.AuthenticateRequest | trapigo/internal/features/auth/middleware/authentication.go:83-147 | Bearer token first, then the access cookie, then a refresh: result, cookies set, tokens validated and refreshed, in order. |
| CookieSession.Authentication.RefreshSession | trapigo/internal/features/auth/middleware/authentication.go:112-142 | The branches after an expired access cookie. |
| CookieSession.ResponseWriter.SetTokenCookies | trapigo/internal/features/auth/middleware/authentication.go:204-228 | The cookies set for a new token, with their ages. |
| CookieSession.ResponseWriter.ClearAuthCookies | trapigo/internal/features/auth/infrastructure/cookie_manager.go:44-98 | Both session cookies told to be dropped. |
| CookieSession.AddAuthorizationHeader | trapigo/internal/features/auth/gateway/request_gateway.go:10-18 | Replaces the header by the validated token, whatever the client sent. |
| CookieSessionRuns.SessionAfter | trapigo/internal/features/auth/middleware/authentication.go:83-147 | With the cookies applied in order, the browser has exactly the session it had, a rotated one whose access token this request validated, or none. |
| CookieSessionRuns.LetThroughIsValidated | trapigo/internal/features/auth/middleware/authentication.go:161-179 | A request let through carries the token validated last, accepted with every required scope. |
| CookieSessionRuns.LetThroughIff | trapigo/internal/features/auth/middleware/authentication.go:83-147 | A request is let through exactly when its bearer token is accepted or, without one, its access cookie is, or that has expired and a renewed token is; accepted meaning by a validator, with every required scope. |
| CookieSessionRuns.TurnedAwayWith | trapigo/internal/features/auth/middleware/authentication.go:83-179 | A request turned away is told the validator error, or what became of the attempt to renew. |
| CookieSessionRuns.CookiesAre | trapigo/internal/features/auth/middleware/authentication.go:204-228 | The cookies set: a renewed access token for as long as it lasts, five minutes if unknown, and its refresh token for half an hour; both dropped when a session ends; else none. |
| CookieSessionRuns.AskedAre | trapigo/internal/features/auth/middleware/authentication.go:83-179 | The tokens a request has validated, in order: its bearer token, or its access cookie and then the renewed one; blank ones never, and none without a validator. |
| CookieSessionRuns.BearerIff | trapigo/internal/features/auth/middleware/authentication.go:149-159 | The bearer token is what follows the scheme and one space, trimmed, the scheme in any letter case. |
| Whitespace.SpacesAre | trapigo/internal/features/auth/middleware/authentication.go:149-159 | The white space trimmed, character by character, in Go and in JavaScript. |
| CookieSessionRuns.DownstreamReadsBack | trapigo/internal/features/auth/gateway/request_gateway.go:12-13 | The header sent downstream reads back as the validated token, outer white space aside. |
| CookieSessionRuns.Forward | trapigo/internal/features/auth/gateway/request_gateway.go:10-18 | A request let through goes on with Bearer and the token validated last, whatever header the client sent, and reads back as that token; one turned away keeps its header and goes nowhere. |
| CookieSessionRuns.RefreshesIff | trapigo/internal/features/auth/middleware/authentication.go:90-129 | A refresh happens at most once, and exactly when there is no bearer token, the access cookie is found expired and a refresh token can be used. |
| CookieSessionRuns.EndedStaysEnded | trapigo/internal/features/auth/middleware/authentication.go:113-141 | After a session ended, the next request without a bearer token is turned away without asking anyone. |
| CookieSessionRuns.AccessCookieIsVouched | trapigo/internal/features/auth/middleware/authentication.go:83-147 | In every run the access cookie is the text of a token that a login gave or that some request accepted with every required scope; it is the whole token exactly when a cookie can hold every character of it. |
| JwksCache.JWTValidator.RefreshJWKS | trapigo/internal/features/auth/infrastructure/jwt_validator.go:237-286 | Fetches unless fresh, keeps the usable keys of the document, and changes nothing when the fetch yields none. |
| JwksCache.JWTValidator.Validate | trapigo/internal/features/auth/infrastructure/jwt_validator.go:81-163 | At most two fetches per validation, the second only for an unknown key identifier. |
| JwksCache.KeysOfIff | trapigo/internal/features/auth/infrastructure/jwt_validator.go:266-276 | The key map holds exactly the usable RSA keys, the last of each identifier. |
| JwksCache.RefreshIs | trapigo/internal/features/auth/infrastructure/jwt_validator.go:237-286 | Fresh keys are kept without asking; a document with signing keys replaces them all and sets the time; anything else leaves them. |
| JwksCache.VerifiedIff | trapigo/internal/features/auth/infrastructure/jwt_validator.go:86-163 | A token is verified exactly when it names a key that is known once the keys are fresh, or known by asking once more. |
| JwksCache.CacheIsLatest | trapigo/internal/features/auth/infrastructure/jwt_validator.go:237-286 | In every run the cache holds the keys and the time of the last fetch that yielded any; failed fetches leave no mark. |
| JwksCache.VerifiedByFreshKey | trapigo/internal/features/auth/infrastructure/jwt_validator.go:86-124 | In every run, every token that is verified at all, whatever the verdict, is verified with a key for its identifier from a fetch made during the call or younger than the lifetime when it began. |
| JwksCache.AnswersRestOnVerdicts | trapigo/internal/features/auth/infrastructure/jwt_validator.go:86-163 | A verified token is accepted, expired or invalid by its verdict; one that is not verified is invalid, unless the keys were needed and could not be had. |
| JwksCache.FetchesIff | trapigo/internal/features/auth/infrastructure/jwt_validator.go:108-124 | No fetch is made exactly when the cache is fresh and knows the identifier, or no key is needed. |
| LoginState.InMemoryOAuthStateStore.Save | trapigo/internal/features/auth/infrastructure/oauth_state_store.go:35-47 | Stores a valid state and refuses any other. |
| LoginState.InMemoryOAuthStateStore.Get | trapigo/internal/features/auth/infrastructure/oauth_state_store.go:49-65 | Finds a state in time; an expired one is removed. |
| LoginState.InMemoryOAuthStateStore.Delete | trapigo/internal/features/auth/infrastructure/oauth_state_store.go:67-76 | Removes the state. |
| LoginState.LoginCommand.Execute | trapigo/internal/features/auth/web/application/command/login.go:27-64 | Saves the state before the redirect is built, and leaves it saved when that fails. |
| LoginState.CallbackCommand.Execute | trapigo/internal/features/auth/web/application/command/callback.go:40-79 | Look-up, exchange, both validations, then deletion, with the error of the first step that fails. |
| LoginState.StoreIsUnspent | trapigo/internal/features/auth/infrastructure/oauth_state_store.go:35-76 | The store holds exactly the latest save of each state value that was neither used nor found expired. |
| LoginState.CallbackSucceedsIff | trapigo/internal/features/auth/web/application/command/callback.go:40-79 | A callback answers with given tokens exactly when its latest login is unused and not older than its lifetime, the provider exchanges the code for them with the code verifier of that login, the identity token is accepted with its nonce and the access token is accepted; it returns to the URL of that login. |
| LoginState.CallbackErrorIs | trapigo/internal/features/auth/web/application/command/callback.go:40-79 | Any other callback is answered by the first thing wrong with it. |
| LoginState.LoginSucceedsIff | trapigo/internal/features/auth/web/application/command/login.go:27-64 | A login succeeds exactly when its random values are there and its redirect could be built, and stores exactly them. |
| LoginState.SingleUse | trapigo/internal/features/auth/web/application/command/callback.go:74-76 | Between two successes on a state value it was saved again. |
| LoginInterleaving.StoredIff | trapigo/internal/features/auth/infrastructure/oauth_state_store.go:35-76 | However callbacks overlap, a state is stored exactly when some step saved it and no step since saved over it, used it or found it expired. |
| LoginInterleaving.TakesUpIff | trapigo/internal/features/auth/web/application/command/callback.go:48-52 | A look-up hands out a state exactly when it names one saved before and left alone since, in time. |
| LoginInterleaving.UsesIff | trapigo/internal/features/auth/web/application/command/callback.go:48-78 | In every schedule a callback uses a state exactly when it is accepted and took that state up before, completing nothing in between. |
| LoginInterleaving.UsesFromSaveIff | trapigo/internal/features/auth/web/application/command/callback.go:48-78 | Every use is the use of some save, which nothing disturbed up to the look-up. |
| LoginInterleaving.UsedAgainIff | trapigo/internal/features/auth/web/application/command/callback.go:48-78 | A save that was used is used again exactly when a second look-up found it before that use and its caller is accepted afterwards: the exact condition under which single use fails. |
| LoginInterleaving.FoundBeforeFirstUse | trapigo/internal/features/auth/web/application/command/callback.go:48-78 | With overlapping callbacks, every success looked its state up after the save, in time, and before the first use after that save. |
| LoginInterleaving.OverlappingUse | trapigo/internal/features/auth/web/application/command/callback.go:48-78 | A schedule in which it does: two callbacks that both look up before either deletes both succeed. |
| AuthCookieHeader.FilterCookies | frontend-dashboard/src/server/auth-gateway.server.ts:127-141 | The loop gives the allowed cookies in first-seen order, or refuses a repeated name. |
| AuthCookieHeader.FilterIsNormalForm | frontend-dashboard/src/server/auth-gateway.server.ts:127-141 | What the filter lets through parses again to the same cookies in the same order, and filtering it again changes nothing. |
| AuthCookieHeader.PartsAre | frontend-dashboard/src/server/auth-gateway.server.ts:127-141 | The parts looked at are what stands between the semicolons of the header. |
| AuthCookieHeader.PassedOnIff | frontend-dashboard/src/server/auth-gateway.server.ts:127-141 | The cookies passed on are exactly those of the two session names among the parts, white space aside. |
| AuthCookieHeader.PassedOnInOrder | frontend-dashboard/src/server/auth-gateway.server.ts:127-141 | They keep their order. |
| AuthCookieHeader.WrittenIs | frontend-dashboard/src/server/auth-gateway.server.ts:127-141 | They are written as name=value with a semicolon and a space between them, at most two. |
| AuthCookieHeader.RefusedIff | frontend-dashboard/src/server/auth-gateway.server.ts:136 | It refuses exactly the headers in which two parts hold a cookie of the same allowed name. |

## Left out

- HTTP transport, reverse proxying, streams, timeouts, start-up, logging and telemetry set-up: library behaviour.
- The name OpenTelemetry gives the server span of a request that matched no route: taken as recognised.
- Signatures, RSA, base64, PKCE and random generation: inputs of the models of sessions.
- URL parsing: origin normalization, return URLs and endpoint rebasing rest on net/url; the origin and CSRF
  decisions are inputs of the pipeline.
- CORS preflight answers of the origin check: they concern OPTIONS requests, the pipeline modelled serves GET.
- Overlapping SQL transactions and panics inside a transaction body: transactions are serial, bodies do not panic.
- Timestamps of orders and items: they only add easy facts.
- Whether a failing insert uses up an identifier depends on the driver; the model uses one up, and no theorem
  depends on it.
- Rounding: token counts and durations are exact reals, and retry-after times are whole milliseconds.
- Go's saturating time difference, for clock readings more than 292 years apart.
- clientKey and the data race on the bucket read for logging: the client key is an input of the limiter.
- Names of spans, kinds and outcomes are read once into datatypes by the parser; the later stages of the model
  do not compare strings again.
- The label of a duration's boundary, a fixed text for each role.
- Message texts, button states, cooldown display and React's rendering: no invariant of interest.
- The validator of the trace server function, the registration inside the two request functions, and the limits
  on the size of the trace payload.
- Browser attributes of cookies other than name, value and age; the quotes Go puts around values with spaces or commas
  and takes off again on reading.
- A browser forgetting an expired cookie is an event of its own in runs of sessions, at any time.
- Validation of ID tokens beyond the key look-up it shares with access tokens; in the login flow it is an input.
- Concurrent validations: the key cache is modelled one call after another.
- RouteTable.BuildLoadBalancer: the order of visiting a Go map is a parameter, and upstream URLs either parse or not.
- ShowcaseRuns.LookupsAreSpaced: needs a clock that does not go back; ShowcaseRuns.AtMostTenLookups does not.
- ShowcaseRuns.SendsAreSpaced: needs a clock that does not go back; ShowcaseRuns.MovesBackIff says exactly what
  happens otherwise.
- Kubernetes discovery, problem details, configuration loading, YAML and Compose files.
