# A verified model of the multiway gateway

This Dafny project models the two planes of multiway, a Kubernetes Gateway API implementation
written in Rust, and proves what they promise.

- The **data plane** takes a request: it picks a rule (`Routing`, `FirstRule`, `Paths`, `Hosts`),
  applies the rule's filters (`Filters`, `HeaderFilters`), picks a weighted backend (`Backends`),
  parses the query (`QueryParams`), decides whether a connection is a WebSocket handshake
  (`WebSocket`), reads a request head and gives the bytes back to a second reader (`Streams`), and
  reloads its configuration without restarting (`Worker`, `Serving`).
- The **control plane** builds a narrow snapshot of the cluster for one object (`Fetcher`), lets a
  pure core decide what to write (`Validate`, `Convert`, `Ports`, `Reconcile` over the objects of
  `Kube`), and carries the result out against an API that may fail at any call (`Executor`).
- `Sufficiency` and `RouteWrites` compare the narrow snapshots with the whole cluster. `Deployed`,
  `Admission`, `Traffic`, `Destinations` and `Serving` join the planes: from the cluster to a routing
  decision, to what a Gateway admits, to traffic shares, to addresses, and to the end of a worker.
- `Verdicts` says what accepting a parent reference means, `Status` what is reported and when anything
  is built, `DataPlane` what is deployed, and `DesiredState` what the cluster ends with. `Grants` reads ReferenceGrants as documented.
  `Examples` holds inputs on which the code does not do what it is meant to.
- `Config` holds the proxy's configuration, shared by both planes; `Text`, `Words` and `Ordering`
  hold strings, splitting and joining, machine words, and the strict orders that key the source's
  ordered maps.

Code that changes things step by step is imperative here too: loops are methods proved against a
specification, and objects with mutable fields (`HeaderList`, `HeaderMap`, `ByteSource`,
`PrefixedStream`, `ClusterApi`, `WorkerState`) are classes. Expressions are functions. Integer
widths are written out where they matter (`% U32`, `% U16`, `AsU16`, `AsU32`). A slice out of
bounds, which panics in the source, is `None`. Lemmas on which Dafny would try induction by itself
carry `{:induction false}`, so that each proof is the one written.

A Gateway is called *configurable* below when it exists, its class is accepted and its listeners
are valid, which is when the control plane builds a configuration for it. A certificate *could be
used* when the reference to it is permitted and its Secret holds both texts.

The check of everything is `dafny verify dfyconfig.toml`.

## What the proofs found

Each point is an exact statement below, for all inputs; the code is modelled as it is.

- The ConfigMap of a Gateway lists every HTTPRoute that names it, on all listeners
  (`reconcile.rs:681-694`), whether or not the Gateway accepts the route. A listener serves exactly the
  routes admitted there if and only if every route naming the Gateway is admitted there
  (`Admission.ServesAdmittedIff`). A route refused for its namespace is served
  (`Examples.RefusedRouteIsServed`).
- The name in a ReferenceGrant's target is ignored (`snapshot.rs:179-183`). The check is right if and
  only if not all grants for the kind name other resources; so a backend, a parent or a certificate
  passes that no grant names (`Grants`).
- The snapshot fetched for a Gateway holds no Secrets and no ReferenceGrants. What is reconciled from
  it equals what the whole cluster gives if and only if no certificate of a configurable Gateway
  could be used; a listener is reported as unresolved exactly when it has a certificate reference.
- Reconciling an HTTPRoute rewrites the ConfigMap of each accepting Gateway from a snapshot holding
  that one route. It writes what the whole cluster gives if and only if no other route names any of
  those Gateways and none of their certificates could be used.
- Requests are served inside the worker's loop (`server.rs:265-280`), so a panic ends the worker's
  thread. `collect_filters` panics if and only if some filter rewrites a path prefix
  (`filter.rs:96`); a redirect panics if and only if its location is no header value
  (`pipeline.rs:155-162`); and a timeout of 2^64 seconds or more panics. So a worker ends by a panic if
  and only if some connection it serves, no WebSocket, delivers a request that is decided by an
  HTTPRoute rule of one of these kinds. Two such runs are given.
- Validation and grants are about the Service of a namespace, but the proxy asks the name service for
  the bare name and the port (`pipeline.rs:518`, `:665`, `:694`). Some name service can send all traffic
  where it was validated for if and only if no two references have the same name and port in different
  namespaces (`Destinations`). A grant for a Service of equal name makes that impossible.
- A listener attaches a route that its own policy refuses as soon as another matching listener admits
  the route's namespace (`validate.rs:335-345`). A listener's hostname is not consulted by the router
  (`routing.rs:80-115`): a request for another host is found on it.
- A worker whose rebind fails keeps the old acceptors and serves them with the new pipelines
  (`server.rs:220-229`): a connection reaches its own listener's pipeline exactly when the load bound
  last and the load noticed last name that position alike. A load is noticed by its identity: the
  pipelines always have the latest configuration if and only if no load keeps the identity of the one
  before and changes its configuration.
- `select_backend` adds the weights in 32 bits. Traffic is proportional to the weights if and only
  if they sum to less than 2^32; two weights of 2^31 refuse every request (in a release build; a
  debug build panics). An HTTPRoute within its schema's bounds stays below that, so only a configuration
  written by hand overflows.
- The comment on `sanitize_port_name` says that its hash makes truncated names unique
  (`reconcile.rs:788-791`). It does not: the exact condition for two names to collide is given, and
  every long ASCII name collides with the short one it is truncated to. The names of a Service's ports
  are distinct if and only if no two listeners that are first on their ports collide. The hexadecimal
  digits are not padded to four either.
- The list and the multimap form of the header modifier agree if and only if no name that is set
  has two or more fields left after the removals.
- The raw WebSocket detector decides by the last `Connection` and `Upgrade` fields, the parsed one
  by the first. They agree if and only if a `Sec-WebSocket` field is missing or both pairs ask alike.
  (The parsed one is compiled for the source's tests only.)
- The two builders of redirect locations agree if and only if there is no query, no spelled-out
  standard port, and nothing left behind a replaced prefix.
- `replace_prefix` cuts the path by bytes. For a matching prefix it panics only where the prefix is
  "/" and the path is empty or begins with a character of several bytes.

## Model

| member | source | states |
|---|---|---|
| Routing.BeatsIsLexicographic | crates/proxy-core/src/routing.rs:150-166 | one precedence beats another exactly when, at the first of the five fields where they differ, it is greater |
| Routing.BeatsIsStrictTotalOrder | crates/proxy-core/src/routing.rs:150-166 | precedence is irreflexive, transitive and total on distinct precedences |
| Routing.StripPort | crates/proxy-core/src/routing.rs:209-218 | a bracketed IPv6 literal or a host without a colon is kept whole; otherwise exactly the last colon and what follows it are dropped |
| Routing.RuleMatches | crates/proxy-core/src/routing.rs:228-251 | the loop over a rule's matches returns the highest precedence among the candidates of the rule, or nothing when there is none |
| Routing.Route | crates/proxy-core/src/routing.rs:80-115 | the three nested loops decide by the first candidate, in configuration order, that no candidate beats; not found when there is no candidate |
| Routing.FirstBestIsUnique | crates/proxy-core/src/routing.rs:80-115 | a candidate list has only one first best, so that "the first maximum" is a definition |
| Routing.BestOfConcat | crates/proxy-core/src/routing.rs:94-107 | the best of two lists is the better of their bests, ties going to the first: what makes nested loops equal to one flat search |
| Routing.RoutingIsDeterministic | crates/proxy-core/src/routing.rs:80-115 | two decisions that both follow the specification of `Route` are equal |
| Routing.CandidatesAre | crates/proxy-core/src/routing.rs:86-107 | the flattened candidates are exactly the rules of attached, host-matching routes with each precedence that some match of theirs earns |
| Routing.NotFoundIffNothingMatches | crates/proxy-core/src/routing.rs:109-114 | a request is not found if and only if no attached, host-matching route has a rule that matches |
| Routing.BuildDecision | crates/proxy-core/src/routing.rs:384-414 | a rule redirects if and only if one of its filters is a redirect, and never answers not found |
| Routing.DecisionOfFirstRedirect | crates/proxy-core/src/routing.rs:384-414 | the first redirect filter decides the status and the location |
| Routing.DigitsRoundTrip | crates/proxy-core/src/routing.rs:418-437 | the port written into a location reads back as the same number |
| FirstRule.RouteFollowsFirstRule | crates/proxy-core/src/routing.rs:86-107 | the decision is that of the first rule, in the order of routes and then of rules, whose precedence no eligible rule beats and which beats all earlier ones |
| FirstRule.DecidingRuleIsUnique | crates/proxy-core/src/routing.rs:86-107 | there is only one such rule |
| Paths.PrefixMatchIsSegmentMatch | crates/proxy-core/src/routing.rs:320-331 | a prefix matches a path if and only if it is "/" or its slash-separated segments begin the path's segments |
| Paths.EqualLengthPrefixesAreEqual | crates/proxy-core/src/routing.rs:260-270 | two matching prefixes of equal length are the same prefix, so a tie in length is no tie between prefixes |
| Paths.ReplacePrefixRoundTrip | crates/proxy-core/src/filter.rs:319-340 | the rewritten path is matched by the replacement, and replacing back restores the path |
| Paths.ReplacePrefixKeepsSlashesSingle | crates/proxy-core/src/filter.rs:319-340 | joining a replacement and a remainder without doubled slashes doubles none |
| Paths.ReplacePrefixPanicsIff | crates/proxy-core/src/filter.rs:319-340 | for a matching prefix the byte slice panics if and only if the prefix is "/" and the path is empty or begins with a character of several bytes; never on a path that begins with "/" |
| Hosts.WildcardIsLabelMatch | crates/proxy-core/src/routing.rs:178-206 | a pattern "*.suffix" matches if and only if the lower-cased host is one non-empty label followed by the labels of the lower-cased suffix |
| Hosts.StripPortIgnoresCase | crates/proxy-core/src/routing.rs:209-218 | stripping the port commutes with changes of ASCII case |
| Hosts.HostnameMatchIgnoresCase | crates/proxy-core/src/routing.rs:178-206 | changing ASCII case in the host or in the patterns never changes the answer |
| Hosts.HostnameMatchesIff | crates/proxy-core/src/routing.rs:178-218 | a route serves a request if and only if it lists no hostname, or the host without its port equals a listed name letter by letter up to ASCII case, or is one non-empty label before a listed wildcard's suffix; a request without a host only in the first case |
| Hosts.PortIsIgnored | crates/proxy-core/src/routing.rs:209-218 | a host with a port is served exactly where the host without it is |
| Backends.SelectBackend | crates/proxy-core/src/pipeline.rs:168-187 | none is chosen exactly when the wrapped sum is zero; otherwise the draw lies between the prefix sums around the chosen backend, and the fallback after the loop is unreachable |
| Backends.EveryPickSelectsOne | crates/proxy-core/src/pipeline.rs:168-187 | every number below the sum selects exactly one backend, whose weight is positive |
| Backends.ProportionalIff | crates/proxy-core/src/pipeline.rs:168-187 | each backend is chosen for exactly as many draws as its weight says if and only if the weights sum to less than 2^32 |
| Backends.OverflowRefusesAll | crates/proxy-core/src/pipeline.rs:169-173 | two weights of 2^31 sum to zero, so that no draw is made and every request is refused |
| QueryParams.QueryRoundTripIff | crates/proxy-core/src/pipeline.rs:90-103 | parsing inverts rendering if and only if the list is not empty, names avoid "&" and "=", and values avoid "&" |
| QueryParams.ParsedQueryIsRenderable | crates/proxy-core/src/pipeline.rs:462-474 | for every query, rendering the parsed pairs and parsing again gives the same pairs |
| QueryParams.ParsedItemsAre | crates/proxy-core/src/pipeline.rs:90-103 | joining any parameters, with or without a value, gives a query that parses to their names and values, in order, a missing value as the empty text |
| Streams.ByteSource.Read | crates/proxy-core/src/pipeline.rs:337-365 | a peer delivers some of its remaining bytes, at most the capacity, none only at the end or for no capacity; or fails and delivers nothing |
| Streams.ReadRequestHead | crates/proxy-core/src/pipeline.rs:337-365 | the loop ends on every stream; an I/O error is reported exactly when a read failed; an accepted head holds the blank line, has at most 65536 + 4096 bytes and is followed by exactly the unread rest; end of stream and excess size are reported only for streams without an early blank line |
| Streams.PrefixedStream.constructor | crates/proxy-core/src/pipeline.rs:245-258 | what is pending is the bytes given back followed by what the inner stream has left |
| Streams.PrefixedStream.Read | crates/proxy-core/src/pipeline.rs:260-280 | a read delivers the next pending bytes, none lost or repeated, and nothing only at the end or for no capacity |
| Streams.ReadPieces | crates/proxy-core/src/pipeline.rs:260-280 | for every sequence of buffer sizes, what was seen followed by what is pending is what was pending; enough non-empty buffers see it all |
| Streams.ReadAfterHead | crates/proxy-core/src/pipeline.rs:1220-1244 | reading the head and then reading through the prefixed stream yields exactly the original byte stream |
| WebSocket.IsRawWebsocketUpgrade | crates/proxy-core/src/pipeline.rs:371-405 | the loop over the lines sets its four flags as the line-by-line specification does; bytes that are not UTF-8 are no handshake |
| WebSocket.RawDecidesByLastFields | crates/proxy-core/src/pipeline.rs:371-405 | on every request head rendered as in section 5 of RFC 9112 the raw detector decides by the last Connection and Upgrade fields, whatever follows the blank line |
| WebSocket.RawAgreesWithParsed | crates/proxy-core/src/pipeline.rs:201-236 | with at most one Connection and one Upgrade field the raw and the parsed detector agree |
| WebSocket.ParsedVerdictStays | crates/proxy-core/src/pipeline.rs:201-236 | further fields never withdraw the parsed verdict |
| WebSocket.RawVerdictFalls | crates/proxy-core/src/pipeline.rs:371-405 | a later Connection field without the token withdraws the raw verdict |
| WebSocket.DetectorsAgreeIff | crates/proxy-core/src/pipeline.rs:371-405 | on every rendered request head the detectors agree if and only if a Sec-WebSocket field is missing or the first Connection and Upgrade fields ask for an upgrade just as the last ones do |
| WebSocket.ClosedHandshakesDisagree | crates/proxy-core/src/pipeline.rs:201-236 | every handshake followed by a Connection field without the token makes the detectors differ |
| WebSocket.TwoConnectionFieldsDisagree | crates/proxy-core/src/pipeline.rs:371-405 | for every request line and body, a head with two Connection fields on which they differ |
| WebSocket.TokenIsListedIff | crates/proxy-core/src/pipeline.rs:205-213 | for every non-empty list of words, each padded with white space, the joined value holds a token if and only if some word equals it up to ASCII case |
| WebSocket.RawHandshakeIff | crates/proxy-core/src/pipeline.rs:371-405 | on every rendered head whose last Connection value is such a list, the raw detector sees a handshake if and only if some member is "upgrade", the last Upgrade value is "websocket", and version and key are there |
| WebSocket.ParsedHandshakeIff | crates/proxy-core/src/pipeline.rs:201-236 | the same for the parsed detector, from the first Connection and Upgrade fields |
| WebSocket.SecondWordCounts | crates/proxy-core/src/pipeline.rs:1755-1775 | "keep-alive, Upgrade" is a handshake for both detectors |
| HeaderFilters.HeaderList.OverwriteAll | crates/proxy-core/src/filter.rs:275-289 | the inner loop overwrites the value of every field of the name and says whether there was one |
| HeaderFilters.HeaderList.ApplyModifications | crates/proxy-core/src/filter.rs:266-295 | removals, then settings, then additions, in place, as the specification on lists says |
| HeaderFilters.HeaderMap.ApplyFilters | crates/proxy-core/src/pipeline.rs:838-865 | the remove, insert and append loops on the multimap, skipping invalid names and values |
| HeaderFilters.BuildUpstreamFields | crates/proxy-core/src/pipeline.rs:765-818 | rewritten host, modifications, and the original host restored when none is left |
| HeaderFilters.ValuesSet | crates/proxy-core/src/filter.rs:275-289 | setting leaves, for each case-folded name, as many values as before and at least one, all equal to the last value set |
| HeaderFilters.ListRefinesMapIff | crates/proxy-core/src/pipeline.rs:786-807 | the list form and the multimap form give every name the same values if and only if no name that is set has two or more fields after the removals |
| HeaderFilters.UntouchedFieldsAreKept | crates/proxy-core/src/filter.rs:266-295 | fields that no modification names keep their order, spelling and values |
| HeaderFilters.UpstreamHost | crates/proxy-core/src/pipeline.rs:765-818 | a valid original host is never lost, and a valid rewritten host is the one sent unless the modifications remove or set it |
| HeaderFilters.UpstreamValues | crates/proxy-core/src/pipeline.rs:765-818 | for every name, the values sent upstream: the original ones or the rewritten host, none if removed, then the last valid value set, then the valid values added, in order; the original host restored when none is left |
| Filters.CollectFilters | crates/proxy-core/src/filter.rs:78-110 | panics if and only if some filter rewrites a path prefix; otherwise each list is the concatenation, in order, of what the filters of its kind hold, and the last rewrite wins |
| Filters.RecomputeRewrite | crates/proxy-core/src/pipeline.rs:1167-1178 | computing the rewrite again with the request's path changes nothing that was collected |
| Filters.RedirectBuildersAgreeIff | crates/proxy-core/src/filter.rs:129-187 | this builder of locations and the router's agree if and only if there is no query, no standard port is spelled out, and a replaced prefix leaves no remainder |
| Worker.BindListeners | crates/proxy-core/src/server.rs:318-375 | the listeners are all bound, in order, if and only if every bind succeeds, and otherwise none is kept; an acceptor does TLS if and only if its listener is HTTPS, has a TLS section and its acceptor could be built |
| Worker.WorkerState.CheckConfig | crates/proxy-core/src/server.rs:204-236 | a new identity rebuilds the pipelines always and the acceptors only when the bind succeeds |
| Worker.WorkerState.Serve | crates/proxy-core/src/server.rs:256-283 | one connection is passed to the pipeline at its acceptor's position, or its handshake fails, or it is dropped; it is in flight meanwhile, and stays so by a panic |
| Worker.WorkerState.AcceptRound | crates/proxy-core/src/server.rs:245-285 | the log grows by exactly one event per acceptor that gets a connection, in order, until a shutdown or a panic |
| Worker.WorkerState.Iterate | crates/proxy-core/src/server.rs:203-291 | one iteration ends as specified, shows the state after its load, and logs exactly its round |
| Worker.WorkerLoop | crates/proxy-core/src/server.rs:184-293 | for every run: how and with which iteration it ends, exactly what became of every connection, and that the in-flight count is zero at every loop head and where the worker drains |
| Worker.EndIsUnique | crates/proxy-core/src/server.rs:184-293 | a run has one exit and one last iteration, so that each exit happens if and only if the specification names it |
| Worker.NoListenersIff | crates/proxy-core/src/server.rs:232-235 | a run ends for want of listeners in exactly the iteration that loads a configuration without any under a new identity |
| Worker.PanicIsLogged | crates/proxy-core/src/server.rs:256-283 | a run ends by a panic if and only if its log holds one |
| Worker.EventOfRun | crates/proxy-core/src/server.rs:245-285 | every logged event is at an acceptor of the load bound last, with the fate that the round's pipelines and arrivals give it |
| Worker.CurrentLoadIs | crates/proxy-core/src/server.rs:379-393 | the load in use was noticed, and every load since has its identity |
| Worker.AlwaysUpToDateIff | crates/proxy-core/src/server.rs:379-393 | in a run the pipelines always have the configuration of the latest load if and only if no load keeps the identity of the one before and changes its configuration |
| Worker.ServedByCurrentConfig | crates/proxy-core/src/server.rs:184-293 | in every run in which an identity that stays stands for the same configuration, a served connection meets the configuration loaded in its iteration, and its own listener's pipeline whenever the latest bind succeeded |
| Worker.OwnPipelineIff | crates/proxy-core/src/server.rs:220-229 | for every served connection of every run: it meets its own listener's pipeline if and only if the load bound last and the load noticed last name its position alike |
| Worker.FailedRebindMisroutes | crates/proxy-core/src/server.rs:220-229 | a concrete run of two iterations with a failed rebind, whose log is one connection accepted for one listener and served as another |
| Worker.ReusedIdentityHidesLoad | crates/proxy-core/src/server.rs:204-236 | a concrete run in which a load with the identity of the one before is never used |
| Worker.ConnectionFateIs | crates/proxy-core/src/server.rs:245-285 | for every connection of every run: dropped, handshake failed, panicked or served, each if and only if a condition on the loads, the binds and the arrivals holds; a handshake fails only at an HTTPS listener with a TLS section whose acceptor was built in the load bound last |
| Worker.BadHandshakeIsNotServed | crates/proxy-core/src/server.rs:325-353 | a concrete run with an HTTPS listener and a bad handshake, which is logged as failed and not served |
| Serving.ServeConnection | crates/proxy-core/src/pipeline.rs:1195-1244 | serving a connection panics if and only if it is not tunnelled as a WebSocket and one of its requests is redirected to a location that is no header value, or forwarded with a prefix rewrite or a timeout that is no duration |
| Serving.RedirectResponse | crates/proxy-core/src/pipeline.rs:155-162 | a redirect response can be built exactly when its location is a header value |
| Serving.CarryOut | crates/proxy-core/src/pipeline.rs:1118-1160 | which decisions panic when they are carried out |
| Serving.RequestPanicsIff | crates/proxy-core/src/pipeline.rs:1107-1160 | on converted routes a request panics if and only if the HTTPRoute rule that decides it has a first redirect whose host or path is no header value, or no redirect but a rewrite of the matched prefix or a timeout that is no duration |
| Serving.PanicEndsWorkerIff | crates/proxy-core/src/server.rs:256-283 | a worker's thread ends by a panic if and only if a connection it served, not tunnelled as a WebSocket, delivered a request that panics |
| Ordering.Sorted | crates/controlplane/src/core/snapshot.rs:125-140 | the keys of an ordered map, each once, in ascending order |
| Ordering.AscendingIsUnique | crates/controlplane/src/core/snapshot.rs:125-140 | there is only one ascending list of a set's members, so the order of iteration is determined |
| Ordering.KeyLessIsStrictTotal | crates/controlplane/src/core/snapshot.rs:125-140 | (namespace, name) pairs are strictly and totally ordered |
| Ordering.StringLessIff | crates/controlplane/src/core/snapshot.rs:125-140 | one string is less than another if and only if it is a proper prefix of it or has the smaller character at the first position where they differ |
| Kube.GetNodeInternalIP | crates/controlplane/src/core/snapshot.rs:229-257 | the first internal address of the first ready node, in key order, that has one |
| Kube.ReferencesGatewayIff | crates/controlplane/src/core/snapshot.rs:125-140 | a route names a Gateway if and only if some parent reference has its name, and its namespace or none in a route of that namespace |
| Kube.SelectedAreSorted | crates/controlplane/src/core/snapshot.rs:125-140 | the routes of a Gateway are those that name it, each once, in ascending key order |
| Kube.NarrowingKeepsRoutes | crates/controlplane/src/core/snapshot.rs:125-140 | dropping routes that do not name the Gateway changes neither the selection nor its order |
| Validate.ValidateSingleListener | crates/controlplane/src/core/validate.rs:150-201 | a listener is valid exactly when its port and protocol are and HTTPS has a TLS section, with the first failing check as reason |
| Validate.ValidateListeners | crates/controlplane/src/core/validate.rs:131-147 | the loop reports one result per listener, in order, and all valid exactly when each is |
| Validate.ListenerAdmitsIff | crates/controlplane/src/core/validate.rs:221-259 | a listener admits a namespace if and only if its policy is All, or a selector with some label, or else the namespace is the Gateway's own |
| Validate.MatchesInOrder | crates/controlplane/src/core/validate.rs:401-428 | the matches are exactly the HTTP and HTTPS listeners that the section name and port ask for, in order and number: each stands directly behind the matches before it, and other listeners add nothing |
| Validate.ValidateBackend | crates/controlplane/src/core/validate.rs:440-482 | no error if and only if the backend is a core Service that exists and is in the route's namespace or permitted by a grant |
| Validate.ValidateParentRef | crates/controlplane/src/core/validate.rs:277-398 | the loops and early returns give the verdict, first failing check first |
| Validate.AcceptedIff | crates/controlplane/src/core/validate.rs:277-398 | accepted if and only if the parent is a Gateway that exists, of a class that names this controller and has a true Accepted condition, with a matching listener, a permitted namespace, and every backend of every rule valid |
| Validate.AcceptanceIsMonotone | crates/controlplane/src/core/validate.rs:277-398 | adding Services and ReferenceGrants keeps every acceptance and its attached listeners |
| Verdicts.VerdictMeans | crates/controlplane/src/core/validate.rs:277-398 | the verdict on every parent reference: accepted if and only if each test, written on the objects themselves, holds; otherwise the reason of the first that fails; attached to exactly the listeners that fit |
| Convert.ConvertMatch | crates/controlplane/src/controller/httproute.rs:194-222 | the pushing loops give the converted path, headers, parameters and method |
| Convert.ConvertRule | crates/controlplane/src/controller/httproute.rs:139-191 | the loops give the converted matches, or the default match for none, filters and backends in order |
| Convert.ConvertHttpRoute | crates/controlplane/src/controller/httproute.rs:119-136 | the loop converts every rule in order, attached to the given listeners |
| Convert.ConvertedMatchMeans | crates/controlplane/src/controller/httproute.rs:194-268 | a converted match applies exactly when the source match holds, absent types and values defaulted, with the same precedence |
| Convert.ConvertedRuleMeans | crates/controlplane/src/controller/httproute.rs:139-191 | what the router computes for a converted rule is the highest precedence among the source matches that hold |
| Convert.MethodMatchMeans | crates/controlplane/src/controller/httproute.rs:271-285 | a converted method match applies exactly to requests of that method, up to ASCII case |
| Convert.SourceBestIsUnique | crates/controlplane/src/controller/httproute.rs:139-191 | the source meaning of a rule for a request is one answer |
| Convert.EmptyMatchesAreTheDefaultMatch | crates/controlplane/src/controller/httproute.rs:144-157 | an empty match list and the default match replacing it earn the same precedence for every request |
| Convert.NotFoundIffNoSourceHolds | crates/controlplane/src/controller/httproute.rs:119-191 | on converted routes a request is not found if and only if no source rule holds for it |
| Convert.RoutingFollowsSourceMeaning | crates/controlplane/src/controller/httproute.rs:119-191 | otherwise the decision is that of the first source rule, in the order of HTTPRoutes and then of rules, that no other source rule beats |
| Convert.SourceDecidesOnce | crates/controlplane/src/controller/httproute.rs:119-191 | there is only one such source rule |
| Ports.HashIsPolynomial | crates/controlplane/src/core/reconcile.rs:797-801 | the wrapping fold is the base-31 polynomial of the bytes modulo 2^32, and its low 16 bits modulo 65536 |
| Ports.NameWithinBound | crates/controlplane/src/core/reconcile.rs:792-812 | every generated name has at most 15 characters |
| Ports.AsciiNameWithinBound | crates/controlplane/src/core/reconcile.rs:792-812 | for ASCII names the bound of section 5.1 of RFC 6335 holds in bytes |
| Ports.NamesCollideIff | crates/controlplane/src/core/reconcile.rs:792-812 | any two names get the same port name if and only if they are the same short name, or one is the other's truncated form, or both are long with equal stems and polynomials equal modulo 65536 |
| Ports.TruncationCollides | crates/controlplane/src/core/reconcile.rs:788-812 | every long ASCII name collides with the different, short name it is truncated to |
| Ports.PortNamesDistinctIff | crates/controlplane/src/core/reconcile.rs:815-830 | the names of a Service's ports are pairwise distinct if and only if no two listeners that are first on their ports collide |
| Ports.DistinctNamesCollide | crates/controlplane/src/core/reconcile.rs:788-812 | an infinite family of distinct names with the same port name, of characters that listener names may have |
| Ports.BuildPorts | crates/controlplane/src/core/reconcile.rs:815-830 | the ordered map keeps the first entry of each port and lists them in ascending order |
| Ports.BuildServicePorts | crates/controlplane/src/core/reconcile.rs:815-830 | the Service's ports, one for each distinct port |
| Ports.BuildContainerPorts | crates/controlplane/src/core/reconcile.rs:864-876 | the Deployment's ports, one for each distinct port |
| Ports.GeneratedPortsAgree | crates/controlplane/src/core/reconcile.rs:815-876 | both lists are strictly ascending, cover exactly the listeners' ports, agree on names, and take each name from the first listener on the port |
| Reconcile.ResolveListenerTls | crates/controlplane/src/core/reconcile.rs:568-651 | the loop with its early continues keeps exactly the usable certificates, in order, and reports resolved exactly when all are usable |
| Reconcile.BuildListener | crates/controlplane/src/core/reconcile.rs:662-679 | one listener's configuration and whether its references resolved |
| Reconcile.BuildListeners | crates/controlplane/src/core/reconcile.rs:662-679 | one configuration per listener in order, and the map of resolved names, a repeated name keeping the last |
| Reconcile.ConvertRoutes | crates/controlplane/src/core/reconcile.rs:681-694 | every selected route is converted, in order |
| Reconcile.BuildGatewayConfig | crates/controlplane/src/core/reconcile.rs:657-697 | the whole configuration of a Gateway |
| Reconcile.ReconcileParent | crates/controlplane/src/core/reconcile.rs:1000-1025 | one parent's status, and its ConfigMap exactly when it accepts the route |
| Reconcile.ReconcileParents | crates/controlplane/src/core/reconcile.rs:997-1026 | the statuses of all parents in order, and the ConfigMaps of those that accept |
| Reconcile.ReconcileHttpRoute | crates/controlplane/src/core/reconcile.rs:977-1037 | the whole result for a route: nothing for a deleted one, a requeue alone without parents |
| Fetcher.FetchRuleServices | crates/controlplane/src/shell/fetcher.rs:312-355 | after one rule the snapshot also holds exactly the existing Services of its Service backends |
| Fetcher.FetchBackendServices | crates/controlplane/src/shell/fetcher.rs:312-355 | after all rules the snapshot holds exactly the existing Services that the route's backends name |
| Fetcher.FetchRoutesForGateway | crates/controlplane/src/shell/fetcher.rs:244-279 | the snapshot holds exactly the routes that name the Gateway, and their backends' Services |
| Fetcher.FetchManagedService | crates/controlplane/src/shell/fetcher.rs:282-309 | the data plane's own Service is added, if it exists |
| Fetcher.FetchNodes | crates/controlplane/src/shell/fetcher.rs:389-409 | all nodes are added |
| Fetcher.FetchGateway | crates/controlplane/src/shell/fetcher.rs:55-73 | the Gateway and its class, if they exist |
| Fetcher.SnapshotForGateway | crates/controlplane/src/shell/fetcher.rs:49-93 | the snapshot is the stated projection of the cluster |
| Fetcher.FetchParent | crates/controlplane/src/shell/fetcher.rs:118-155 | a parent Gateway, its class and its managed Service are added, if they exist |
| Fetcher.FetchParents | crates/controlplane/src/shell/fetcher.rs:110-160 | the same for every parent that is a Gateway; others are skipped |
| Fetcher.FetchReferenceGrants | crates/controlplane/src/shell/fetcher.rs:358-383 | exactly the grants in the route's namespace or from it |
| Fetcher.SnapshotForHttpRoute | crates/controlplane/src/shell/fetcher.rs:96-177 | the snapshot is the stated projection of the cluster |
| Sufficiency.ParentVerdictSame | crates/controlplane/src/shell/fetcher.rs:96-177 | the narrow snapshot gives every parent reference the verdict of the whole cluster |
| Sufficiency.HttpRouteSnapshotSuffices | crates/controlplane/src/core/reconcile.rs:977-1037 | for every cluster, the status updates and requeue from the narrow snapshot are those from the whole cluster |
| Sufficiency.ProjectionKeepsDecisions | crates/controlplane/src/shell/fetcher.rs:49-93 | class acceptance, addresses and routes of a Gateway are the same on the narrow snapshot |
| Sufficiency.GatewaySnapshotSufficesIff | crates/controlplane/src/core/reconcile.rs:126-230 | the whole result from the narrow snapshot is that from the cluster if and only if no certificate of a configurable Gateway could be used |
| Sufficiency.GatewaySnapshotSuffices | crates/controlplane/src/core/reconcile.rs:126-230 | for a Gateway without certificate references nothing is lost |
| RouteWrites.RouteWritesSameIff | crates/controlplane/src/core/reconcile.rs:1000-1025 | the ConfigMaps written from a route's narrow snapshot are those of the whole cluster if and only if, at each accepting Gateway, no other route names it and no certificate could be used |
| RouteWrites.ParentRoutesSameIff | crates/controlplane/src/core/reconcile.rs:681-694 | the narrow snapshot attaches all the Gateway's routes when this one is alone there, and strictly fewer otherwise |
| Admission.IsAdmittedByIff | crates/controlplane/src/core/validate.rs:277-398 | a reference admits a route to a listener if and only if it is to this Gateway, of an accepted class, a listener of that name matches its section and port, the namespace is permitted and the backends are valid |
| Admission.AttachedAgainstPolicyIff | crates/controlplane/src/core/validate.rs:335-398 | a route is attached to a listener whose policy refuses its namespace if and only if the rest holds and another matching listener, the Gateway's namespace or a grant admits it |
| Admission.AdmittedAreAllIff | crates/controlplane/src/core/snapshot.rs:125-140 | the admitted routes are those naming the Gateway if all of these are admitted, and strictly fewer otherwise |
| Admission.NamedRoutesAreServed | crates/controlplane/src/core/reconcile.rs:681-694 | each listener serves the conversions of all routes naming the Gateway, admitted or not |
| Admission.ServesAdmittedIff | crates/controlplane/src/core/reconcile.rs:681-694 | each listener serves exactly the conversions of the routes admitted there, in key order, if and only if every route naming the Gateway is admitted there |
| Grants.AcceptanceNameIff | crates/controlplane/src/core/validate.rs:277-398 | a parent accepts a route that it should refuse if and only if it accepts and the grants name another Gateway, or other Services than some backend |
| Grants.GrantForAnotherService | crates/controlplane/src/core/snapshot.rs:179-183 | a concrete grant for one Service by which another passes validation |
| Examples.RouteIsRefused | crates/controlplane/src/core/validate.rs:277-398 | a concrete configurable Gateway refuses a route of another namespace that names it |
| Examples.ForeignGatewayIsRefused | crates/controlplane/src/core/validate.rs:71-100 | a concrete Gateway of another controller's class, for which nothing is written and whose routes are refused |
| Examples.RefusedRouteIsServed | crates/controlplane/src/core/reconcile.rs:681-694 | on the configuration deployed for it every request is found, by that refused route |
| Examples.CertificateIsLost | crates/controlplane/src/shell/fetcher.rs:49-93 | a concrete Gateway with a usable Secret whose narrow snapshot gives another result than the cluster |
| Examples.OtherRouteIsLost | crates/controlplane/src/core/reconcile.rs:1000-1025 | two concrete routes on one Gateway: reconciling the one writes a ConfigMap without the other |
| Examples.DoubledHeaderDiffers | crates/proxy-core/src/filter.rs:275-289 | a concrete header that occurs twice and is set, on which the list and the multimap differ |
| Examples.QueryIsDropped | crates/proxy-core/src/routing.rs:418-437 | a concrete redirect of a request with a query, on which the two builders differ |
| Examples.OneListenerAdmitsForAll | crates/controlplane/src/core/validate.rs:335-398 | a concrete Gateway with an open and a closed listener, on which a route of another namespace is attached to the closed one |
| Examples.ListenerHostnameIsIgnored | crates/proxy-core/src/routing.rs:80-115 | a concrete listener for one hostname, deployed, on which every request for another is found |
| Examples.GrantedServiceIsConfused | crates/proxy-core/src/pipeline.rs:665-668 | a concrete accepted route with two Services of one name, one by a grant, that no name service can tell apart |
| Examples.PanickingRuleEndsWorker | crates/proxy-core/src/server.rs:256-283 | for every rule that panics, a run of one iteration that ends by it |
| Examples.RewriteAndRedirectEndWorker | crates/proxy-core/src/pipeline.rs:155-162 | two such rules: a rewrite of the matched prefix, and a redirect to a path with a line feed |
| Executor.ClusterApi.Call | crates/controlplane/src/shell/executor.rs:239-281 | a call overwrites its own key or leaves the cluster alone, and a lost answer reads as failure |
| Executor.CallUntilFailure | crates/controlplane/src/shell/executor.rs:42-70 | the calls made are a prefix, ending at the first failure, with the state they leave |
| Executor.CallAll | crates/controlplane/src/shell/executor.rs:72-80 | every call is made whatever the earlier ones answered |
| Executor.Execute | crates/controlplane/src/shell/executor.rs:42-89 | statuses then upserts up to the first failure; deletes only after all of those succeeded, and then all of them; with the requeue delay of each case |
| Executor.CleanRunForgetsEarlierCalls | crates/controlplane/src/shell/executor.rs:42-89 | earlier calls on the same keys, whichever took effect, do not change where a clean run ends |
| Executor.CrashRecovery | crates/controlplane/src/shell/executor.rs:42-89 | an attempt cut off after any number of its calls, followed by a clean run, ends as one clean run |
| Executor.RetryUntilClean | crates/controlplane/src/shell/executor.rs:42-89 | any number of failing attempts and then a clean one leave the cluster as one clean run would |
| Executor.NextAttempt | crates/controlplane/src/shell/executor.rs:42-89 | 5 seconds after a failed status or upsert; otherwise 300, an hour or the delay asked for |
| Executor.DeleteUndoesUpsert | crates/controlplane/src/shell/executor.rs:104-156 | deleting by kind, namespace and name removes exactly what the upsert wrote, and nothing without a namespace |
| Deployed.DeployedRouting | crates/controlplane/src/core/reconcile.rs:657-697 | fetch, reconcile, route: a request is not found if and only if no rule of an HTTPRoute naming the Gateway holds for it, and is otherwise decided by the first such rule that no other beats |
| Deployed.SomethingIsDeployed | crates/controlplane/src/core/reconcile.rs:126-230 | for every configurable Gateway there is a deployed configuration |
| Deployed.DeployedRoutes | crates/controlplane/src/core/reconcile.rs:681-694 | the deployed configuration holds the conversions of exactly the cluster's routes naming the Gateway, in key order |
| Traffic.TrafficFollowsSourceWeights | crates/controlplane/src/controller/httproute.rs:427-436 | backends are drawn in proportion to the weights of the HTTPRoute, 1 where absent, if and only if those sum to less than 2^32 |
| Traffic.ValidatedWeightsFit | .crds/v1.4.1/http.yml:1285-1305 | with at most 16 backends of weight at most a million each, traffic is always exactly proportional |
| Traffic.CollectedAddsAreTheSources | crates/controlplane/src/controller/httproute.rs:287-345 | the headers collected to be added are those the HTTPRoute lists, in its order, for requests and for responses |
| Traffic.CollectedSetsAreTheSources | crates/controlplane/src/controller/httproute.rs:287-345 | the same for headers to set |
| Traffic.CollectedRemovesAreTheSources | crates/controlplane/src/controller/httproute.rs:287-345 | the same for names to remove |
| Traffic.CollectedMirrorsAreTheSources | crates/controlplane/src/controller/httproute.rs:401-417 | requests are mirrored to exactly the backends the HTTPRoute lists, in order, with namespace and port defaulted |
| Traffic.CollectedRewriteIsTheLast | crates/controlplane/src/controller/httproute.rs:378-400 | the rewrite collected is the last one the HTTPRoute lists, with its hostname and path |
| Traffic.NoRewriteIsCollected | crates/controlplane/src/controller/httproute.rs:378-400 | without a rewrite in the HTTPRoute none is collected |
| Traffic.AcceptedBackendsExist | crates/controlplane/src/controller/httproute.rs:427-436 | in every rule of a route that some parent accepts, each reference became one backend over HTTP/1, which names a Service that exists, in the route's namespace or permitted by a grant, on the port of the reference, 80 where absent |
| Destinations.SomeServiceSendsIff | crates/proxy-core/src/pipeline.rs:665-668 | some name service answers every backend's query with the place it is meant to be if and only if no two backends differ by their namespace only |
| Destinations.ReferencesReachableIff | crates/proxy-core/src/pipeline.rs:516-528 | the same from the HTTPRoutes: if and only if no two references have the same name and port in different namespaces |
| Traffic.ConvertedRedirectsIff | crates/controlplane/src/controller/httproute.rs:346-376 | a converted rule redirects if and only if its source lists a redirect, whatever else is listed or dropped |
| Traffic.ConvertedRedirectMeans | crates/controlplane/src/controller/httproute.rs:346-376 | the first redirect the source lists decides the status, 302 where absent, and the location made of its scheme, hostname, port and path with the request's where absent, port and status cut to 16 bits |
| Traffic.ConvertedRewritePanicsIff | crates/controlplane/src/controller/httproute.rs:287-424 | collecting the converted filters panics if and only if the HTTPRoute asks for a rewrite of the matched prefix |
| Status.GatewayStatusMeans | crates/controlplane/src/core/reconcile.rs:455-559 | accepted, and programmed exactly when an address was found, with the generation of the Gateway; each listener, in order, counts the routes naming the Gateway and has its references resolved exactly when every certificate can be used |
| Status.NarrowStatusMeans | crates/controlplane/src/shell/fetcher.rs:49-93 | the status written from the narrow snapshot reports a listener's references as unresolved if and only if it has any |
| Status.AddressFoundIff | crates/controlplane/src/core/reconcile.rs:361-447 | when an address is found: one is given, or the Service exists and the load balancer, a ready node or the Service has one |
| Status.AddressesAre | crates/controlplane/src/core/reconcile.rs:361-447 | which addresses are reported, in order of preference: those given, the load balancer's, the internal address of the first ready node that has one, the cluster address of the Service |
| Status.GatewayIsBuiltIff | crates/controlplane/src/core/reconcile.rs:126-230 | resources are written if and only if the Gateway exists, its class names this controller and has a true Accepted condition, and its listeners are valid; otherwise one rejecting status is written and the Gateway visited again after 30 seconds |
| Status.RouteStatusMeans | crates/controlplane/src/core/reconcile.rs:1040-1080 | a route's status has one entry per parent reference, in order, carrying that reference and the route's generation; both conditions are true if and only if the reference is acceptable, with the reason of the first failing test otherwise |
| Status.NoParentsNoStatus | crates/controlplane/src/core/reconcile.rs:977-996 | for a route that is gone or has no parents nothing is written; the latter is visited again as configured |
| Status.RouteWritesAre | crates/controlplane/src/core/reconcile.rs:1000-1025 | a route's ConfigMaps are those of exactly its accepting parents, in order |
| DataPlane.ListenerTlsMeans | crates/controlplane/src/core/reconcile.rs:568-651 | a listener's TLS section keeps its mode and references, and inlines the two texts of exactly the Secrets it may use; resolved if and only if all can be used |
| DataPlane.DeployedListeners | crates/controlplane/src/core/reconcile.rs:657-679 | each deployed listener has the name, port, protocol and TLS of its source, in order |
| DataPlane.ResourcesReferToEachOther | crates/controlplane/src/core/reconcile.rs:700-910 | the six resources of a Gateway name each other, belong to it, and open the ports of its listeners |
| DataPlane.GatewaysWriteApart | crates/controlplane/src/core/reconcile.rs:126-230 | no resource of one Gateway overwrites a resource of another |
| DesiredState.LastCallDecides | crates/controlplane/src/shell/executor.rs:239-281 | after a run, a key holds what the last call on it wrote, and nothing if that was a delete |
| DesiredState.DesiredStateReached | crates/controlplane/src/core/reconcile.rs:126-230 | after a clean run every resource and the status of a configurable Gateway are in the cluster as asked |
| DesiredState.NextVisit | crates/controlplane/src/core/reconcile.rs:126-230 | how long after an attempt a Gateway is visited again: 5 seconds after a failure, else 300 if it is gone, 30 if it is rejected, else as configured |

## Left out

- Sockets, TLS handshakes, HTTP codecs, HTTP/2 forwarding, connection pools, DNS and timers: a stream is a byte source that delivers pieces of any size or fails, a bind and a handshake are outcomes given as parameters.
- Regular expressions: matching is a function parameter of pattern and text.
- Random numbers: the draw of `select_backend` is a parameter below the sum, as the source's generator guarantees.
- Text encodings: `string` holds one `char` for each byte, except in `WebSocket`, where the text is already decoded; protocol names are upper-cased as ASCII.
- Vectored reads of `PrefixedStream`, capacity limits of `http::HeaderMap`, request mirroring, logging, events and the texts of status messages.
- Header values are those the `http` crate documents for text: visible ASCII, space and tab. The crate is not part of this model.
- Timeouts that are not finite numbers, and the rounding of those that are: a timeout is a `real`. Addresses: what the name service answers is a function of the query.
- JSON and YAML forms of the configuration, the duplicated configuration types of the two planes, duration parsing (a parameter), certificate parsing and the SNI resolver.
- Server-side-apply field ownership, labels and selectors: every write overwrites its key. A delete or status patch of a missing object is one of the outcomes of a call.
- Reads that fail while a snapshot is fetched: the source logs a warning and goes on without the object; here every read succeeds.
- `snapshot_all`, the snapshot and reconciliation of a GatewayClass, and the ConfigMaps and Deployments read into snapshots, which the core never consults.
- Watchers, controllers, the command line and deployment manifests.
- Worker.WorkerLoop: whether a connection's pipeline panics is part of the run's input, and `Serving` says when it is so. What a connection's own streams do is not part of this model.
