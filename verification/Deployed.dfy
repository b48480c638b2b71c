/** From the cluster to a routing decision: fetch, reconcile, route. */
module Deployed {
  import opened Text
  import opened Config
  import opened Ordering
  import opened Kube
  import opened Validate
  import opened Convert
  import Reconcile
  import Fetcher
  import Sufficiency
  import Routing

  /** Reconciling the Gateway from its narrow snapshot deploys the proxy configuration. */
  ghost predicate Deploys(cluster: WorldSnapshot, config: Reconcile.ControllerConfig, key: Key, parse: DurationParser, proxy: ProxyConfig) {
    var upserts := Reconcile.ReconcileGateway(Fetcher.GatewayProjection(cluster, key), config, key, parse).upserts;
    upserts != [] && upserts[0].ConfigMap? && upserts[0].config == proxy
  }

  /** Fetch, reconcile, route: on every listener of a configurable Gateway, a request is not found
      exactly when no rule of an HTTPRoute naming the Gateway holds for it, and is otherwise decided
      by the first unbeaten one - whether or not the Gateway accepts that route. */
  lemma DeployedRouting(
    cluster: WorldSnapshot, config: Reconcile.ControllerConfig, key: Key, parse: DurationParser, proxy: ProxyConfig, listener: string,
    req: Routing.RequestMeta, regex: Routing.Regex, decision: Routing.RoutingDecision)
    requires WellKeyed(cluster) && Sufficiency.Configurable(cluster, key) && Deploys(cluster, config, key, parse, proxy)
    requires exists l :: l in cluster.gateways[key].listeners && l.name == listener
    requires Routing.IsRouting(proxy, listener, req, regex, decision)
    ensures decision == Routing.NotFound <==> NoSourceHolds(RoutesForGateway(cluster, key), req, regex)
    ensures decision != Routing.NotFound ==>
              exists i, j, p :: DecidedBy(RoutesForGateway(cluster, key), i, j, p, parse, req, regex, decision)
  {
    var listeners := cluster.gateways[key].listeners;
    DeployedRoutes(cluster, config, key, parse, proxy);
    var l :| 0 <= l < |listeners| && listeners[l].name == listener;
    assert Names(listeners)[l] == listener;
    var routes := RoutesForGateway(cluster, key);
    NotFoundIffNoSourceHolds(proxy, routes, Names(listeners), parse, listener, req, regex, decision);
    if decision != Routing.NotFound {
      var i, j, p := RoutingFollowsSourceMeaning(proxy, routes, Names(listeners), parse, listener, req, regex, decision);
      assert DecidedBy(routes, i, j, p, parse, req, regex, decision);
    }
  }

  /** The decision is that of the first source rule that no other beats, in the order of the routes'
      keys and then of the rules. */
  ghost predicate DecidedBy(
    routes: seq<HTTPRoute>, i: nat, j: nat, p: Routing.MatchPrecedence, parse: DurationParser,
    req: Routing.RequestMeta, regex: Routing.Regex, decision: Routing.RoutingDecision)
  {
    && SourceDecides(routes, req, regex, i, j, p)
    && decision == Routing.BuildDecision(TargetRule(routes[i], routes[i].rules.GetOr([])[j], parse), req)
  }

  /** For a configurable Gateway what is deployed holds the conversions of the cluster's routes that
      name the Gateway, in key order. */
  lemma DeployedRoutes(cluster: WorldSnapshot, config: Reconcile.ControllerConfig, key: Key, parse: DurationParser, proxy: ProxyConfig)
    requires WellKeyed(cluster) && Sufficiency.Configurable(cluster, key)
    requires Deploys(cluster, config, key, parse, proxy)
    ensures proxy.routes == Mapped(RoutesForGateway(cluster, key), ConvertedRoute(Names(cluster.gateways[key].listeners), parse))
  {
    Sufficiency.ProjectionKeepsDecisions(cluster, key);
    ConfiguredRoutes(Fetcher.GatewayProjection(cluster, key), config, key, parse);
  }

  /** For a configurable Gateway some configuration is deployed. */
  lemma SomethingIsDeployed(cluster: WorldSnapshot, config: Reconcile.ControllerConfig, key: Key, parse: DurationParser) returns (proxy: ProxyConfig)
    requires WellKeyed(cluster) && Sufficiency.Configurable(cluster, key)
    ensures Deploys(cluster, config, key, parse, proxy)
  {
    Sufficiency.ProjectionKeepsDecisions(cluster, key);
    ConfiguredRoutes(Fetcher.GatewayProjection(cluster, key), config, key, parse);
    proxy := Reconcile.ReconcileGateway(Fetcher.GatewayProjection(cluster, key), config, key, parse).upserts[0].config;
  }

  lemma ConfiguredRoutes(s: WorldSnapshot, config: Reconcile.ControllerConfig, key: Key, parse: DurationParser)
    requires Sufficiency.Configurable(s, key) && s.gateways[key].meta.name == key.1
    ensures var upserts := Reconcile.ReconcileGateway(s, config, key, parse).upserts;
            |upserts| > 0 && upserts[0].ConfigMap?
            && upserts[0].config.routes == Mapped(RoutesForGateway(s, key), ConvertedRoute(Names(s.gateways[key].listeners), parse))
  {
    Sufficiency.ConfigurableResult(s, config, key, parse);
  }
}
