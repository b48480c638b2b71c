/** Which routes the data plane serves, compared with which routes the Gateway admits. */
module Admission {
  import opened Text
  import opened Config
  import opened Ordering
  import opened Kube
  import opened Validate
  import Convert
  import Reconcile
  import Fetcher
  import Sufficiency
  import Deployed

  // What the status of the route says

  /** The Gateway accepts the route through this reference and attaches it to the listener. */
  predicate IsAdmittedBy(cluster: WorldSnapshot, gateway: Key, key: Key, name: string, ref: ParentRef)
    requires key in cluster.httproutes
  {
    var verdict := ParentVerdict(cluster, cluster.httproutes[key], ref, key.0);
    Fetcher.ParentKey(ref, key.0) == gateway && verdict.accepted && name in verdict.attachedListeners
  }

  predicate IsAdmitted(cluster: WorldSnapshot, gateway: Key, key: Key, name: string)
    requires key in cluster.httproutes
  {
    exists ref :: ref in cluster.httproutes[key].parentRefs.GetOr([]) && IsAdmittedBy(cluster, gateway, key, name, ref)
  }

  /** That is: the reference is to this Gateway, whose class is accepted; a listener of the name matches
      the reference's section and port; the route's namespace is permitted; and its backends are valid. */
  lemma IsAdmittedByIff(cluster: WorldSnapshot, gateway: Key, key: Key, name: string, ref: ParentRef)
    requires WellKeyed(cluster) && key in cluster.httproutes && gateway in cluster.gateways
    ensures var listeners := cluster.gateways[gateway].listeners;
            IsAdmittedBy(cluster, gateway, key, name, ref)
            <==> && Fetcher.ParentKey(ref, key.0) == gateway && IsGatewayParent(ref)
                 && HasAcceptedClass(cluster, cluster.gateways[gateway].className)
                 && (exists l :: l in listeners && l.name == name && ListenerMatches(l, ref.sectionName, ref.port))
                 && NamespacePermitted(cluster, FindMatchingListeners(listeners, ref.sectionName, ref.port), gateway.0, key.0)
                 && forall b :: RouteUsesBackend(cluster.httproutes[key].rules.GetOr([]), b) ==> BackendValid(cluster, key.0, b)
  {
    if Fetcher.ParentKey(ref, key.0) == gateway {
      AcceptedIff(cluster, cluster.httproutes[key], ref, key.0);
      NamedMatch(cluster.gateways[gateway].listeners, ref.sectionName, ref.port, name);
    }
  }

  /** A route is attached to a listener whose own policy refuses its namespace exactly when the rest holds
      and another matching listener admits the namespace, or the Gateway's namespace or a grant does. */
  lemma AttachedAgainstPolicyIff(cluster: WorldSnapshot, gateway: Key, key: Key, ref: ParentRef, l: Listener)
    requires WellKeyed(cluster) && key in cluster.httproutes && gateway in cluster.gateways
    requires l in cluster.gateways[gateway].listeners && !ListenerAdmits(l, gateway.0, key.0)
    ensures var listeners := cluster.gateways[gateway].listeners;
            IsAdmittedBy(cluster, gateway, key, l.name, ref)
            <==> && Fetcher.ParentKey(ref, key.0) == gateway && IsGatewayParent(ref)
                 && HasAcceptedClass(cluster, cluster.gateways[gateway].className)
                 && (exists k :: k in listeners && k.name == l.name && ListenerMatches(k, ref.sectionName, ref.port))
                 && (|| (exists m :: m in listeners && m != l && ListenerMatches(m, ref.sectionName, ref.port)
                                     && ListenerAdmits(m, gateway.0, key.0))
                     || key.0 == gateway.0
                     || IsGatewayReferenceAllowed(cluster, key.0, gateway.0))
                 && forall b :: RouteUsesBackend(cluster.httproutes[key].rules.GetOr([]), b) ==> BackendValid(cluster, key.0, b)
  {
    IsAdmittedByIff(cluster, gateway, key, l.name, ref);
    var listeners := cluster.gateways[gateway].listeners;
    var matching := FindMatchingListeners(listeners, ref.sectionName, ref.port);
    assert forall m :: m in matching <==> m in listeners && ListenerMatches(m, ref.sectionName, ref.port);
  }

  lemma {:induction false} NamedMatch(listeners: seq<Listener>, sectionName: Option<string>, port: Option<int>, name: string)
    ensures name in Names(FindMatchingListeners(listeners, sectionName, port))
            <==> exists l :: l in listeners && l.name == name && ListenerMatches(l, sectionName, port)
  {
    var matching := FindMatchingListeners(listeners, sectionName, port);
    if name in Names(matching) {
      var i :| 0 <= i < |matching| && Names(matching)[i] == name;
      assert matching[i] in matching;
    }
    if l :| l in listeners && l.name == name && ListenerMatches(l, sectionName, port) {
      assert l in matching;
      var i :| 0 <= i < |matching| && matching[i] == l;
      assert Names(matching)[i] == name;
    }
  }

  // What the data plane serves

  /** The routes that the proxy considers on the listener. */
  function ServedOn(routes: seq<RouteConfig>, name: string): seq<RouteConfig> {
    if routes == [] then []
    else
      var n := |routes| - 1;
      ServedOn(routes[..n], name) + (if name in routes[n].attachedListeners then [routes[n]] else [])
  }

  /** The admitted routes, in key order. */
  function AdmittedRoutes(cluster: WorldSnapshot, keys: seq<Key>, gateway: Key, name: string): seq<HTTPRoute>
    requires forall k :: k in keys ==> k in cluster.httproutes
  {
    if keys == [] then []
    else
      var n := |keys| - 1;
      AdmittedRoutes(cluster, keys[..n], gateway, name)
      + (if IsAdmitted(cluster, gateway, keys[n], name) then [cluster.httproutes[keys[n]]] else [])
  }

  lemma {:induction false} AllAreServed(routes: seq<RouteConfig>, name: string)
    requires forall r :: r in routes ==> name in r.attachedListeners
    ensures ServedOn(routes, name) == routes
  {
    if routes == [] {
    } else {
      var n := |routes| - 1;
      AllAreServed(routes[..n], name);
      assert routes[n] in routes;
    }
  }

  lemma AdmittedNames(cluster: WorldSnapshot, gateway: Key, key: Key, name: string)
    requires WellKeyed(cluster) && key in cluster.httproutes && IsAdmitted(cluster, gateway, key, name)
    ensures ReferencesGateway(cluster.httproutes[key], gateway)
  {
    var route := cluster.httproutes[key];
    var ref :| ref in route.parentRefs.GetOr([]) && IsAdmittedBy(cluster, gateway, key, name, ref);
    assert ParentIs(ref, route.meta.namespace.GetOr(""), gateway);
  }

  /** The admitted routes are among those naming the Gateway, and fewer unless all are admitted. */
  lemma {:induction false} AdmittedAreAllIff(cluster: WorldSnapshot, keys: seq<Key>, gateway: Key, name: string)
    requires WellKeyed(cluster) && forall k :: k in keys ==> k in cluster.httproutes
    ensures var named, admitted := SelectRoutes(keys, cluster.httproutes, gateway), AdmittedRoutes(cluster, keys, gateway, name);
            if forall k :: k in keys && ReferencesGateway(cluster.httproutes[k], gateway) ==> IsAdmitted(cluster, gateway, k, name)
            then admitted == named else |admitted| < |named|
  {
    if keys == [] {
    } else {
      var n := |keys| - 1;
      assert keys == keys[..n] + [keys[n]];
      AdmittedAreAllIff(cluster, keys[..n], gateway, name);
      if IsAdmitted(cluster, gateway, keys[n], name) {
        AdmittedNames(cluster, gateway, keys[n], name);
      }
    }
  }

  /** On a listener of a configurable Gateway the deployed configuration serves exactly the admitted
      routes, in key order, if and only if every route that names the Gateway is admitted there. */
  lemma {:induction false} ServesAdmittedIff(
    cluster: WorldSnapshot, config: Reconcile.ControllerConfig, gateway: Key, parse: Convert.DurationParser, proxy: ProxyConfig, name: string)
    requires WellKeyed(cluster) && Sufficiency.Configurable(cluster, gateway) && Deployed.Deploys(cluster, config, gateway, parse, proxy)
    requires exists l :: l in cluster.gateways[gateway].listeners && l.name == name
    ensures var keys := SortedKeys(cluster.httproutes.Keys);
            var convert := Convert.ConvertedRoute(Names(cluster.gateways[gateway].listeners), parse);
            ServedOn(proxy.routes, name) == Mapped(AdmittedRoutes(cluster, keys, gateway, name), convert)
            <==> forall k :: k in cluster.httproutes && ReferencesGateway(cluster.httproutes[k], gateway)
                             ==> IsAdmitted(cluster, gateway, k, name)
  {
    var keys := SortedKeys(cluster.httproutes.Keys);
    NamedRoutesAreServed(cluster, config, gateway, parse, proxy, name);
    AdmittedAreAllIff(cluster, keys, gateway, name);
    assert forall k :: k in cluster.httproutes <==> k in keys;
  }

  /** Every route that names the Gateway is served on each of its listeners, admitted or not. */
  lemma {:induction false} NamedRoutesAreServed(
    cluster: WorldSnapshot, config: Reconcile.ControllerConfig, gateway: Key, parse: Convert.DurationParser, proxy: ProxyConfig, name: string)
    requires WellKeyed(cluster) && Sufficiency.Configurable(cluster, gateway) && Deployed.Deploys(cluster, config, gateway, parse, proxy)
    requires exists l :: l in cluster.gateways[gateway].listeners && l.name == name
    ensures ServedOn(proxy.routes, name)
            == Mapped(RoutesForGateway(cluster, gateway), Convert.ConvertedRoute(Names(cluster.gateways[gateway].listeners), parse))
  {
    var listeners := cluster.gateways[gateway].listeners;
    Deployed.DeployedRoutes(cluster, config, gateway, parse, proxy);
    var i :| 0 <= i < |listeners| && listeners[i].name == name;
    assert Names(listeners)[i] == name;
    AllAreServed(proxy.routes, name);
  }
}
