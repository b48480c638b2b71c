/** Inputs on which the code does not do what it is meant to. */
module Examples {
  import opened Text
  import opened Config
  import opened Ordering
  import opened Kube
  import opened Validate
  import Convert
  import Reconcile
  import Fetcher
  import Sufficiency
  import RouteWrites
  import Deployed
  import Admission
  import Routing
  import Filters
  import HeaderFilters
  import Destinations
  import Serving
  import Traffic
  import Worker
  import Status
  import Verdicts

  // Clusters

  function MetaOf(ns: string, name: string): Meta {
    Meta(name, Some(ns), None, "")
  }

  const CLASS := GatewayClass(Meta("c", None, None, ""), CONTROLLER_NAME, Some([Condition("Accepted", "True", None, 0, "")]))

  const WEB := Listener("web", 80, "HTTP", None, None, None)

  /** One Gateway "gw" in namespace "infra", with an accepted class. */
  function ClusterOf(listeners: seq<Listener>, routes: map<Key, HTTPRoute>): WorldSnapshot {
    EmptySnapshot(0).(
      gatewayClasses := map[("", "c") := CLASS],
      gateways := map[("infra", "gw") := Gateway(MetaOf("infra", "gw"), "c", listeners, None)],
      httproutes := routes)
  }

  const TO_GATEWAY := ParentRef(None, None, Some("infra"), "gw", None, None)

  /** A route for every host and path, without backends. */
  function RouteTo(ns: string, name: string): HTTPRoute {
    RouteOf(ns, name, SourceRule(None, None, None, None))
  }

  function RouteOf(ns: string, name: string, rule: SourceRule): HTTPRoute {
    HTTPRoute(MetaOf(ns, name), Some([TO_GATEWAY]), None, Some([rule]))
  }

  lemma IsConfigurable(listeners: seq<Listener>, routes: map<Key, HTTPRoute>)
    requires ListenersValid(listeners)
    requires forall k :: k in routes ==> IsAt(routes[k].meta, k)
    ensures WellKeyed(ClusterOf(listeners, routes)) && Sufficiency.Configurable(ClusterOf(listeners, routes), ("infra", "gw"))
  {
    var conditions := CLASS.conditions.value;
    assert conditions[0] in conditions;
  }

  lemma WebIsValid()
    ensures ValidateSingleListener(WEB).valid
  {
    assert Upper("HTTP") == "HTTP";
  }

  // A route that its Gateway refuses and serves

  const REFUSED := ClusterOf([WEB], map[("team", "r") := RouteTo("team", "r")])

  /** A route of namespace "team" names the Gateway, whose listener takes routes of its own namespace
      only: it is refused. */
  lemma RouteIsRefused()
    ensures WellKeyed(REFUSED) && Sufficiency.Configurable(REFUSED, ("infra", "gw"))
    ensures ReferencesGateway(REFUSED.httproutes[("team", "r")], ("infra", "gw"))
    ensures ParentVerdict(REFUSED, REFUSED.httproutes[("team", "r")], TO_GATEWAY, "team").reason == RefNotPermitted
    ensures !Admission.IsAdmitted(REFUSED, ("infra", "gw"), ("team", "r"), "web")
  {
    WebIsValid();
    IsConfigurable([WEB], REFUSED.httproutes);
    RefusedVerdict();
    RefusedIsNotAdmitted();
    RefusedRouteIsNamed();
  }

  /** Yet whatever is asked for on the listener, the proxy finds it. */
  lemma RefusedRouteIsServed(
    config: Reconcile.ControllerConfig, parse: Convert.DurationParser, proxy: ProxyConfig,
    req: Routing.RequestMeta, regex: Routing.Regex, decision: Routing.RoutingDecision)
    requires Deployed.Deploys(REFUSED, config, ("infra", "gw"), parse, proxy)
    requires Routing.IsRouting(proxy, "web", req, regex, decision)
    ensures decision != Routing.NotFound
  {
    RouteIsRefused();
    RefusedRouteIsNamed();
    assert REFUSED.gateways[("infra", "gw")].listeners[0] == WEB;
    CatchAllIsServed(REFUSED, RouteTo("team", "r"), config, parse, proxy, req, regex, decision);
  }

  lemma CatchAllIsServed(
    cluster: WorldSnapshot, route: HTTPRoute, config: Reconcile.ControllerConfig, parse: Convert.DurationParser,
    proxy: ProxyConfig, req: Routing.RequestMeta, regex: Routing.Regex, decision: Routing.RoutingDecision)
    requires WellKeyed(cluster) && Sufficiency.Configurable(cluster, ("infra", "gw"))
    requires exists l :: l in cluster.gateways[("infra", "gw")].listeners && l.name == "web"
    requires RoutesForGateway(cluster, ("infra", "gw")) == [route]
    requires route.hostnames == None && route.rules == Some([SourceRule(None, None, None, None)])
    requires Deployed.Deploys(cluster, config, ("infra", "gw"), parse, proxy)
    requires Routing.IsRouting(proxy, "web", req, regex, decision)
    ensures decision != Routing.NotFound
  {
    Deployed.DeployedRouting(cluster, config, ("infra", "gw"), parse, proxy, "web", req, regex, decision);
    CatchAllHolds(route, req, regex);
  }

  /** A route for every host and path holds for every request. */
  lemma CatchAllHolds(route: HTTPRoute, req: Routing.RequestMeta, regex: Routing.Regex)
    requires route.hostnames == None && route.rules == Some([SourceRule(None, None, None, None)])
    ensures !Convert.NoSourceHolds([route], req, regex)
  {
    var rule := SourceRule(None, None, None, None);
    assert route.rules.GetOr([])[0] == rule;
    assert Convert.SourceApplies([route], route, rule, req) && Convert.SourceEarns(rule, req, regex, Routing.LOWEST_PRECEDENCE);
  }

  lemma RefusedRouteIsNamed()
    ensures ReferencesGateway(REFUSED.httproutes[("team", "r")], ("infra", "gw"))
    ensures RoutesForGateway(REFUSED, ("infra", "gw")) == [RouteTo("team", "r")]
  {
    var route := REFUSED.httproutes[("team", "r")];
    assert route.parentRefs.value[0] == TO_GATEWAY && ParentIs(TO_GATEWAY, "team", ("infra", "gw"));
    assert TO_GATEWAY in route.parentRefs.GetOr([]);
    OnlyRouteIsSelected(REFUSED, ("infra", "gw"), ("team", "r"));
  }

  lemma RefusedIsNotAdmitted()
    ensures !Admission.IsAdmitted(REFUSED, ("infra", "gw"), ("team", "r"), "web")
  {
    RefusedVerdict();
    var route := REFUSED.httproutes[("team", "r")];
    assert forall ref :: ref in route.parentRefs.GetOr([]) ==> ref == TO_GATEWAY;
  }

  lemma RefusedVerdict()
    ensures ParentVerdict(REFUSED, RouteTo("team", "r"), TO_GATEWAY, "team").reason == RefNotPermitted
    ensures !ParentVerdict(REFUSED, RouteTo("team", "r"), TO_GATEWAY, "team").accepted
  {
    WebIsValid();
    IsConfigurable([WEB], map[("team", "r") := RouteTo("team", "r")]);
    var matching := FindMatchingListeners([WEB], None, None);
    assert ListenerMatches(WEB, None, None) by {
      assert Upper("HTTP") == "HTTP";
    }
    assert WEB in matching;
    assert forall l :: l in matching ==> !ListenerAdmits(l, "infra", "team");
  }

  lemma OnlyRouteIsSelected(s: WorldSnapshot, gateway: Key, key: Key)
    requires s.httproutes.Keys == {key} && ReferencesGateway(s.httproutes[key], gateway)
    ensures RoutesForGateway(s, gateway) == [s.httproutes[key]]
  {
    var selected := SelectedAreSorted(SortedKeys({key}), s.httproutes, gateway);
    RouteWrites.AtMostOneRoute(s, gateway, key);
    assert key in selected;
  }

  // A Gateway of another controller

  const FOREIGN := ClusterOf([WEB], map[("infra", "r") := RouteTo("infra", "r")]).(
    gatewayClasses := map[("", "c") := CLASS.(controllerName := "k8s.io/other")])

  /** It is not built, and its routes are refused. */
  lemma ForeignGatewayIsRefused(config: Reconcile.ControllerConfig, parse: Convert.DurationParser)
    ensures Reconcile.ReconcileGateway(FOREIGN, config, ("infra", "gw"), parse).upserts == []
    ensures ParentVerdict(FOREIGN, RouteTo("infra", "r"), TO_GATEWAY, "infra").reason == NotAllowedByGateway
  {
    assert "k8s.io/other" != "io.multiway/gateway-controller" by {
      assert "k8s.io/other"[0] != "io.multiway/gateway-controller"[0];
    }
    Status.GatewayIsBuiltIff(FOREIGN, config, ("infra", "gw"), parse);
    Verdicts.VerdictMeans(FOREIGN, RouteTo("infra", "r"), TO_GATEWAY, "infra");
  }

  // A certificate that is not fetched

  const TLS_LISTENER := Listener("tls", 443, "HTTPS", None, None, Some(ListenerTls(None, Some([SecretRef(None, "cert")]))))

  const WITH_SECRET := ClusterOf([TLS_LISTENER], map[]).(
    secrets := map[("infra", "cert") := Secret(MetaOf("infra", "cert"), Some(SecretData(Some("pem"), Some("key"))))])

  /** The Gateway's narrow snapshot loses the certificate of its HTTPS listener. */
  lemma CertificateIsLost(config: Reconcile.ControllerConfig, parse: Convert.DurationParser)
    ensures Reconcile.ReconcileGateway(Fetcher.GatewayProjection(WITH_SECRET, ("infra", "gw")), config, ("infra", "gw"), parse)
            != Reconcile.ReconcileGateway(WITH_SECRET, config, ("infra", "gw"), parse)
  {
    assert Upper("HTTPS") == "HTTPS";
    IsConfigurable([TLS_LISTENER], map[]);
    assert Sufficiency.Configurable(WITH_SECRET, ("infra", "gw"));
    var ref := SecretRef(None, "cert");
    assert ref in Reconcile.CertificateRefs(TLS_LISTENER) && Reconcile.CertificateUsable(WITH_SECRET, "infra", ref);
    assert TLS_LISTENER in WITH_SECRET.gateways[("infra", "gw")].listeners;
    assert Sufficiency.SomeCertificateUsable(WITH_SECRET, ("infra", "gw"));
    Sufficiency.GatewaySnapshotSufficesIff(WITH_SECRET, config, ("infra", "gw"), parse);
  }

  // Two routes on one Gateway

  const TWO_ROUTES := ClusterOf([WEB], map[("infra", "a") := RouteTo("infra", "a"), ("infra", "b") := RouteTo("infra", "b")])

  /** Reconciling route "a" writes a ConfigMap that is not the Gateway's: route "b" is missing. */
  lemma OtherRouteIsLost(config: Reconcile.ControllerConfig, parse: Convert.DurationParser)
    ensures Reconcile.HttpRouteResult(Fetcher.HttpRouteProjection(TWO_ROUTES, ("infra", "a")), config, ("infra", "a"), parse).upserts
            != Reconcile.HttpRouteResult(TWO_ROUTES, config, ("infra", "a"), parse).upserts
  {
    WebIsValid();
    IsConfigurable([WEB], TWO_ROUTES.httproutes);
    var route := TWO_ROUTES.httproutes[("infra", "a")];
    assert TO_GATEWAY in route.parentRefs.value;
    AcceptedVerdict();
    var other := TWO_ROUTES.httproutes[("infra", "b")];
    assert TO_GATEWAY in other.parentRefs.value && ParentIs(TO_GATEWAY, "infra", ("infra", "gw"));
    assert !RouteWrites.AloneOn(TWO_ROUTES, ("infra", "gw"), ("infra", "a"));
    assert !RouteWrites.NothingLost(TWO_ROUTES, ("infra", "a"), TO_GATEWAY);
    RouteWrites.RouteWritesSameIff(TWO_ROUTES, config, ("infra", "a"), parse);
  }

  lemma AcceptedVerdict()
    ensures ParentVerdict(TWO_ROUTES, RouteTo("infra", "a"), TO_GATEWAY, "infra").accepted
  {
    WebIsValid();
    IsConfigurable([WEB], TWO_ROUTES.httproutes);
    assert ListenerMatches(WEB, None, None) by {
      assert Upper("HTTP") == "HTTP";
    }
    AcceptedIff(TWO_ROUTES, RouteTo("infra", "a"), TO_GATEWAY, "infra");
  }

  // A header that occurs twice and is set

  /** The list keeps two fields with the new value, the multimap one. */
  lemma DoubledHeaderDiffers()
    ensures var headers, m, toSet := [("x", "1"), ("x", "2")], map["x" := ["1", "2"]], [HeaderValue("x", "3")];
            && HeaderFilters.Represents(headers, m)
            && !HeaderFilters.Represents(HeaderFilters.ListModified(headers, [], toSet, []), HeaderFilters.MapModified(m, [], toSet, []))
  {
    var headers, m, toSet := [("x", "1"), ("x", "2")], map["x" := ["1", "2"]], [HeaderValue("x", "3")];
    assert Lower("x") == "x";
    forall name
      ensures HeaderFilters.Values(headers, name) == HeaderFilters.Get(m, name)
    {
      var one := headers[..1];
      assert one == [("x", "1")] && one[..0] == [];
      assert HeaderFilters.Values(one, name) == if name == "x" then ["1"] else [];
    }
    assert toSet[0] in toSet;
    HeaderFilters.ListRefinesMapIff(headers, m, [], toSet, []);
  }

  // A redirect of a request with a query

  /** One builder of locations keeps the query, the other drops it. */
  lemma QueryIsDropped(regex: Routing.Regex)
    ensures var filter, req := RequestRedirect(None, None, None, None, None), Routing.RequestMeta(None, "/", "GET", [], []);
            Filters.ComputeRedirect(filter, "/?q", "localhost", Some("/"))
            != Some(Routing.BuildRedirectLocation(None, None, None, None, req))
  {
    var filter, req := RequestRedirect(None, None, None, None, None), Routing.RequestMeta(None, "/", "GET", [], []);
    assert Filters.RequestUri("/", "q") == "/?q";
    Filters.RedirectBuildersAgreeIff(filter, req, "q", "/");
  }

  // A listener that attaches a route it refuses

  const OPEN := WEB.(name := "open", allowedRoutes := Some(AllowedRoutes(Some(NamespacePolicy(Some(All), None)))))

  const MIXED := ClusterOf([OPEN, WEB], map[("team", "r") := RouteTo("team", "r")])

  /** A listener that takes all routes opens the other one too. */
  lemma OneListenerAdmitsForAll()
    ensures !ListenerAdmits(WEB, "infra", "team")
    ensures Admission.IsAdmitted(MIXED, ("infra", "gw"), ("team", "r"), "web")
  {
    WebIsValid();
    IsConfigurable([OPEN, WEB], MIXED.httproutes);
    var listeners := MIXED.gateways[("infra", "gw")].listeners;
    assert listeners[0] == OPEN && listeners[1] == WEB;
    assert ListenerMatches(WEB, None, None) && ListenerMatches(OPEN, None, None) by {
      assert Upper("HTTP") == "HTTP";
    }
    var route := MIXED.httproutes[("team", "r")];
    assert route.parentRefs.value[0] == TO_GATEWAY && OPEN.name != WEB.name;
    assert ListenerAdmits(OPEN, "infra", "team");
    Admission.AttachedAgainstPolicyIff(MIXED, ("infra", "gw"), ("team", "r"), TO_GATEWAY, WEB);
  }

  // A listener whose hostname excludes the request

  const NAMED := WEB.(hostname := Some("a.example"))

  const WITH_HOSTNAME := ClusterOf([NAMED], map[("infra", "r") := RouteTo("infra", "r")])

  /** The listener is for "a.example"; a request for "b.example" is found on it, as any other is. */
  lemma ListenerHostnameIsIgnored(
    config: Reconcile.ControllerConfig, parse: Convert.DurationParser, proxy: ProxyConfig,
    req: Routing.RequestMeta, regex: Routing.Regex, decision: Routing.RoutingDecision)
    requires Deployed.Deploys(WITH_HOSTNAME, config, ("infra", "gw"), parse, proxy)
    requires req.host == Some("b.example") && Routing.IsRouting(proxy, "web", req, regex, decision)
    ensures decision != Routing.NotFound
  {
    NamedIsConfigurable();
    NamedRouteIsSelected();
    CatchAllIsServed(WITH_HOSTNAME, RouteTo("infra", "r"), config, parse, proxy, req, regex, decision);
  }

  lemma NamedRouteIsSelected()
    ensures RoutesForGateway(WITH_HOSTNAME, ("infra", "gw")) == [RouteTo("infra", "r")]
  {
    var route := WITH_HOSTNAME.httproutes[("infra", "r")];
    assert route.parentRefs.value[0] == TO_GATEWAY && ParentIs(TO_GATEWAY, "infra", ("infra", "gw"));
    assert TO_GATEWAY in route.parentRefs.GetOr([]);
    OnlyRouteIsSelected(WITH_HOSTNAME, ("infra", "gw"), ("infra", "r"));
  }

  lemma NamedIsConfigurable()
    ensures WellKeyed(WITH_HOSTNAME) && Sufficiency.Configurable(WITH_HOSTNAME, ("infra", "gw"))
    ensures exists l :: l in WITH_HOSTNAME.gateways[("infra", "gw")].listeners && l.name == "web"
  {
    WebIsValid();
    assert ValidateSingleListener(NAMED).valid;
    IsConfigurable([NAMED], WITH_HOSTNAME.httproutes);
    assert WITH_HOSTNAME.gateways[("infra", "gw")].listeners[0] == NAMED;
  }

  // Two Services that share an address

  const OWN := BackendRef(None, None, None, "svc", None, None)
  const OTHERS := BackendRef(None, None, Some("b"), "svc", None, None)
  const BOTH := SourceRule(None, None, Some([OWN, OTHERS]), None)

  function ServiceOf(ns: string): Service {
    Service(MetaOf(ns, "svc"), None, None)
  }

  /** A route of "infra" sends to its own Service "svc" and, by a grant, to the one of namespace "b". */
  const TWO_SERVICES := ClusterOf([WEB], map[("infra", "r") := RouteOf("infra", "r", BOTH)]).(
    services := map[("infra", "svc") := ServiceOf("infra"), ("b", "svc") := ServiceOf("b")],
    referenceGrants := map[("b", "g") := ReferenceGrant(
                             MetaOf("b", "g"), [GrantFrom(GATEWAY_GROUP, "HTTPRoute", "infra")], [GrantTo("", "Service", None)])])

  /** The route is accepted, yet no name service can send to both. */
  lemma GrantedServiceIsConfused(listeners: seq<string>, parse: Convert.DurationParser)
    ensures WellKeyed(TWO_SERVICES)
    ensures ParentVerdict(TWO_SERVICES, RouteOf("infra", "r", BOTH), TO_GATEWAY, "infra").accepted
    ensures !exists resolve :: Destinations.Sends(
                resolve, Mapped([RouteOf("infra", "r", BOTH)], Convert.ConvertedRoute(listeners, parse)))
  {
    var route := RouteOf("infra", "r", BOTH);
    TwoServicesAreWellKeyed();
    BothAreAccepted();
    assert route.rules.value[0] == BOTH && BOTH.backendRefs.value[0] == OWN && BOTH.backendRefs.value[1] == OTHERS;
    assert RouteUsesBackend(route.rules.GetOr([]), OWN) && RouteUsesBackend(route.rules.GetOr([]), OTHERS);
    assert [route][0] == route;
    assert Destinations.Confused([route], "infra", OWN, "infra", OTHERS) by {
      assert "infra" != "b";
    }
    Destinations.ReferencesReachableIff([route], listeners, parse);
  }

  lemma TwoServicesAreWellKeyed()
    ensures WellKeyed(TWO_SERVICES)
  {
    IsConfigurableWeb(map[("infra", "r") := RouteOf("infra", "r", BOTH)]);
  }

  lemma IsConfigurableWeb(routes: map<Key, HTTPRoute>)
    requires forall k :: k in routes ==> IsAt(routes[k].meta, k)
    ensures WellKeyed(ClusterOf([WEB], routes)) && Sufficiency.Configurable(ClusterOf([WEB], routes), ("infra", "gw"))
  {
    WebIsValid();
    IsConfigurable([WEB], routes);
  }

  lemma BothAreAccepted()
    ensures ParentVerdict(TWO_SERVICES, RouteOf("infra", "r", BOTH), TO_GATEWAY, "infra").accepted
  {
    IsConfigurableWeb(map[("infra", "r") := RouteOf("infra", "r", BOTH)]);
    assert HasAcceptedClass(TWO_SERVICES, "c");
    assert ListenerMatches(WEB, None, None) by {
      assert Upper("HTTP") == "HTTP";
    }
    assert TWO_SERVICES.gateways[("infra", "gw")].listeners[0] == WEB;
    BothAreValid();
    assert forall b :: RouteUsesBackend([BOTH], b) ==> b == OWN || b == OTHERS;
    AcceptedIff(TWO_SERVICES, RouteOf("infra", "r", BOTH), TO_GATEWAY, "infra");
  }

  lemma BothAreValid()
    ensures BackendValid(TWO_SERVICES, "infra", OWN) && BackendValid(TWO_SERVICES, "infra", OTHERS)
  {
    var grant := TWO_SERVICES.referenceGrants[("b", "g")];
    assert grant.from[0] in grant.from && grant.to[0] in grant.to;
    assert GrantAllows(grant, "infra", "HTTPRoute", "b", "", "Service");
  }

  // HTTPRoutes that end a worker

  const ASKED := Serving.Asked(Routing.RequestMeta(None, "/", "GET", [], []), false)

  /** A worker with one listener and one route, and one connection that asks for "/". */
  function WorkerRun(rule: SourceRule, parse: Convert.DurationParser): Worker.Run {
    var config := ProxyConfig(
      "v1", GatewayRef("infra", "gw"), [Worker.PLAIN],
      Mapped([RouteOf("infra", "r", rule)], Convert.ConvertedRoute(["plain"], parse)));
    Worker.Run(Worker.Loaded(1, config), [Worker.BindOutcome(true, false)],
               [Worker.Tick(false, Worker.Loaded(1, config), [], [Worker.Arrival(false, true, false, true)])])
  }

  function Came(t: nat, i: nat): Serving.Connection {
    Serving.Connection(None, [ASKED])
  }

  /** It ends for every rule that panics. */
  lemma PanickingRuleEndsWorker(rule: SourceRule, parse: Convert.DurationParser, regex: Routing.Regex)
    requires rule.matches == None && Serving.RulePanics(rule, parse, ASKED)
    ensures var run := WorkerRun(rule, parse);
            Worker.Starts(run) && Serving.IsFaithful(run, Came, regex) && Worker.Ends(run, 0, Worker.Panicked)
  {
    var run := WorkerRun(rule, parse);
    assert Worker.BoundLoad(run, 1) == 0 && Worker.CurrentLoad(run, 1) == 0;
    var r := Worker.RoundAt(run, 0);
    assert |r.states| == 1 && |r.pipelines| == 1;
    PipelinePanics(rule, parse, regex, r.pipelines[0]);
    var e := Worker.Event(0, 0, "plain", Worker.PanickedIn(r.pipelines[0]));
    assert Worker.EventsFrom(r, 0) == [e];
    assert e in Worker.EventsFrom(r, 0);
  }

  lemma PipelinePanics(rule: SourceRule, parse: Convert.DurationParser, regex: Routing.Regex, pipeline: Worker.Pipeline)
    requires rule.matches == None && Serving.RulePanics(rule, parse, ASKED)
    requires pipeline == Worker.Pipeline(WorkerRun(rule, parse).first.config, "plain")
    ensures Serving.ConnectionPanics(pipeline, Serving.Connection(None, [ASKED]), regex)
  {
    var routes := [RouteOf("infra", "r", rule)];
    assert routes[0] in routes && routes[0].rules.GetOr([])[0] == rule;
    assert Convert.SourceContends(routes, ASKED.meta, regex, 0, 0, Routing.LOWEST_PRECEDENCE);
    assert Convert.SourceDecides(routes, ASKED.meta, regex, 0, 0, Routing.LOWEST_PRECEDENCE);
    assert Serving.DecidesAndPanics(routes, parse, ASKED, regex, 0, 0);
    assert "plain" in ["plain"];
    Serving.RequestPanicsIff(pipeline, routes, ["plain"], parse, ASKED, regex);
    assert ASKED in [ASKED];
  }

  const REWRITING := SourceRule(
    None, Some([Rewriting(Some(SourceRewrite(None, Some(SourcePathModifier(PrefixMatch, None, Some("/new"))))))]), None, None)

  const BREAKING := SourceRule(
    None, Some([Redirecting(Some(SourceRedirect(None, None, None, Some(SourcePathModifier(FullPath, Some("/a\nb"), None)), None)))]),
    None, None)

  /** So a rewrite of the matched prefix ends it, and so does a redirect to a path with a line feed. */
  lemma RewriteAndRedirectEndWorker(parse: Convert.DurationParser, regex: Routing.Regex)
    ensures Serving.IsFaithful(WorkerRun(REWRITING, parse), Came, regex) && Worker.Ends(WorkerRun(REWRITING, parse), 0, Worker.Panicked)
    ensures Serving.IsFaithful(WorkerRun(BREAKING, parse), Came, regex) && Worker.Ends(WorkerRun(BREAKING, parse), 0, Worker.Panicked)
  {
    RewritingPanics(parse);
    PanickingRuleEndsWorker(REWRITING, parse, regex);
    BreakingPanics(parse);
    PanickingRuleEndsWorker(BREAKING, parse, regex);
  }

  lemma RewritingPanics(parse: Convert.DurationParser)
    ensures Serving.RulePanics(REWRITING, parse, ASKED)
  {
    var filters := REWRITING.filters.GetOr([]);
    assert Traffic.ReplacesPrefix(filters[0]);
    assert forall f :: f in filters ==> f == filters[0];
  }

  lemma BreakingPanics(parse: Convert.DurationParser)
    ensures Serving.RulePanics(BREAKING, parse, ASKED)
  {
    var filters := BREAKING.filters.GetOr([]);
    assert Serving.IsFirstRedirect(filters, 0);
    assert Traffic.RedirectTarget(filters[0].redirect.value.path, "/")[2] == '\n';
    assert !HeaderFilters.ValidValue(Traffic.RedirectTarget(filters[0].redirect.value.path, "/"));
  }
}
