/** The shell's narrow snapshots: what is read from the cluster to reconcile one object.  The
    cluster is a snapshot of everything; every read succeeds. */
module Fetcher {
  import opened Text
  import opened Ordering
  import opened Kube
  import opened Validate
  import opened Reconcile

  // The builder stores each object under its own namespace and name.

  function WithGatewayClass(b: WorldSnapshot, gc: GatewayClass): WorldSnapshot {
    b.(gatewayClasses := b.gatewayClasses[KeyOf(gc.meta) := gc])
  }

  function WithGateway(b: WorldSnapshot, gw: Gateway): WorldSnapshot {
    b.(gateways := b.gateways[KeyOf(gw.meta) := gw])
  }

  function WithHttpRoute(b: WorldSnapshot, route: HTTPRoute): WorldSnapshot {
    b.(httproutes := b.httproutes[KeyOf(route.meta) := route])
  }

  function WithService(b: WorldSnapshot, service: Service): WorldSnapshot {
    b.(services := b.services[KeyOf(service.meta) := service])
  }

  function WithReferenceGrant(b: WorldSnapshot, grant: ReferenceGrant): WorldSnapshot {
    b.(referenceGrants := b.referenceGrants[KeyOf(grant.meta) := grant])
  }

  function WithNode(b: WorldSnapshot, node: Node): WorldSnapshot {
    b.(nodes := b.nodes[KeyOf(node.meta) := node])
  }

  lemma RestrictStep<V>(m: map<Key, V>, keys: set<Key>, key: Key)
    ensures key in m ==> Restrict(m, keys)[key := m[key]] == Restrict(m, keys + {key})
    ensures key !in m ==> Restrict(m, keys) == Restrict(m, keys + {key})
  {
  }

  // Backend Services

  function BackendKey(b: BackendRef, routeNs: string): Key {
    (b.namespace.GetOr(routeNs), b.name)
  }

  function BackendKeys(backends: seq<BackendRef>, routeNs: string): set<Key> {
    set b | b in backends && b.kind.GetOr("Service") == "Service" :: BackendKey(b, routeNs)
  }

  function RuleBackendKeys(rules: seq<SourceRule>, routeNs: string): set<Key> {
    if rules == [] then {}
    else RuleBackendKeys(rules[..|rules| - 1], routeNs) + BackendKeys(rules[|rules| - 1].backendRefs.GetOr([]), routeNs)
  }

  function RouteBackendKeys(route: HTTPRoute, routeNs: string): set<Key> {
    RuleBackendKeys(route.rules.GetOr([]), routeNs)
  }

  lemma {:induction false} UsedBackendIsFetched(rules: seq<SourceRule>, routeNs: string, b: BackendRef)
    requires RouteUsesBackend(rules, b) && b.kind.GetOr("Service") == "Service"
    ensures BackendKey(b, routeNs) in RuleBackendKeys(rules, routeNs)
  {
    var n := |rules| - 1;
    assert rules == rules[..n] + [rules[n]];
    if !(b in rules[n].backendRefs.GetOr([])) {
      UsedBackendIsFetched(rules[..n], routeNs, b);
    }
  }

  lemma BackendKeysStep(backends: seq<BackendRef>, j: nat, routeNs: string)
    requires j < |backends|
    ensures BackendKeys(backends[..j + 1], routeNs)
            == BackendKeys(backends[..j], routeNs)
               + (if backends[j].kind.GetOr("Service") == "Service" then {BackendKey(backends[j], routeNs)} else {})
  {
    assert backends[..j + 1] == backends[..j] + [backends[j]];
  }

  method FetchRuleServices(cluster: WorldSnapshot, builder: WorldSnapshot, backends: seq<BackendRef>, routeNs: string, ghost have: set<Key>)
    returns (result: WorldSnapshot)
    requires WellKeyed(cluster)
    requires builder.services == Restrict(cluster.services, have)
    ensures result == builder.(services := Restrict(cluster.services, have + BackendKeys(backends, routeNs)))
  {
    result := builder;
    ghost var known := have;
    for j := 0 to |backends|
      invariant known == have + BackendKeys(backends[..j], routeNs)
      invariant result == builder.(services := Restrict(cluster.services, known))
    {
      BackendKeysStep(backends, j, routeNs);
      if backends[j].kind.GetOr("Service") != "Service" {
        continue;
      }
      var key := BackendKey(backends[j], routeNs);
      RestrictStep(cluster.services, known, key);
      known := known + {key};
      if key in cluster.services {
        result := WithService(result, cluster.services[key]);
      }
    }
    assert backends[..|backends|] == backends;
  }

  method FetchBackendServices(cluster: WorldSnapshot, builder: WorldSnapshot, route: HTTPRoute, routeNs: string, ghost have: set<Key>)
    returns (result: WorldSnapshot)
    requires WellKeyed(cluster)
    requires builder.services == Restrict(cluster.services, have)
    ensures result == builder.(services := Restrict(cluster.services, have + RouteBackendKeys(route, routeNs)))
  {
    result := builder;
    ghost var known := have;
    var rules := route.rules.GetOr([]);
    for i := 0 to |rules|
      invariant known == have + RuleBackendKeys(rules[..i], routeNs)
      invariant result == builder.(services := Restrict(cluster.services, known))
    {
      assert rules[..i + 1][..i] == rules[..i];
      var backends := rules[i].backendRefs.GetOr([]);
      result := FetchRuleServices(cluster, result, backends, routeNs, known);
      known := known + BackendKeys(backends, routeNs);
    }
    assert rules[..|rules|] == rules;
  }

  // For a Gateway

  function ManagedServiceKey(gateway: Key): Key {
    (gateway.0, ServiceName(gateway.1))
  }

  /** The Services fetched for one route: those of its backends, if it names the Gateway. */
  function ChosenServices(route: HTTPRoute, gateway: Key): set<Key> {
    if ReferencesGateway(route, gateway) then RouteBackendKeys(route, route.meta.namespace.GetOr("")) else {}
  }

  function ChosenRoute(route: HTTPRoute, key: Key, gateway: Key): set<Key> {
    if ReferencesGateway(route, gateway) then {key} else {}
  }

  function RoutesBackendKeys(cluster: WorldSnapshot, keys: seq<Key>, gateway: Key): set<Key>
    requires forall k :: k in keys ==> k in cluster.httproutes
  {
    if keys == [] then {}
    else
      var n := |keys| - 1;
      RoutesBackendKeys(cluster, keys[..n], gateway) + ChosenServices(cluster.httproutes[keys[n]], gateway)
  }

  lemma {:induction false} RoutesBackendKeysStep(cluster: WorldSnapshot, keys: seq<Key>, i: nat, gateway: Key)
    requires i < |keys| && forall k :: k in keys ==> k in cluster.httproutes
    ensures RoutesBackendKeys(cluster, keys[..i + 1], gateway)
            == RoutesBackendKeys(cluster, keys[..i], gateway) + ChosenServices(cluster.httproutes[keys[i]], gateway)
  {
    assert keys[..i + 1][..i] == keys[..i];
  }

  function OwnClass(cluster: WorldSnapshot, key: Key): map<Key, GatewayClass> {
    if key in cluster.gateways then Restrict(cluster.gatewayClasses, {("", cluster.gateways[key].className)}) else map[]
  }

  /** The Gateway, its class, the routes that name it with their Services, the data plane's own
      Service, and all nodes; no Secrets and no ReferenceGrants. */
  ghost function GatewayProjection(cluster: WorldSnapshot, key: Key): WorldSnapshot {
    WorldSnapshot(
      cluster.now,
      OwnClass(cluster, key),
      Restrict(cluster.gateways, {key}),
      Restrict(cluster.httproutes, ReferencingKeys(cluster.httproutes, key)),
      Restrict(cluster.services, RoutesBackendKeys(cluster, SortedKeys(cluster.httproutes.Keys), key) + {ManagedServiceKey(key)}),
      map[],
      map[],
      cluster.nodes)
  }

  function SelectedKeys(cluster: WorldSnapshot, keys: seq<Key>, gateway: Key): set<Key>
    requires forall k :: k in keys ==> k in cluster.httproutes
  {
    if keys == [] then {}
    else
      var n := |keys| - 1;
      SelectedKeys(cluster, keys[..n], gateway) + ChosenRoute(cluster.httproutes[keys[n]], keys[n], gateway)
  }

  lemma {:induction false} SelectedKeysAre(cluster: WorldSnapshot, keys: seq<Key>, gateway: Key, k: Key)
    requires forall k :: k in keys ==> k in cluster.httproutes
    ensures k in SelectedKeys(cluster, keys, gateway) <==> k in keys && ReferencesGateway(cluster.httproutes[k], gateway)
  {
    if keys == [] {
    } else {
      var n := |keys| - 1;
      assert keys == keys[..n] + [keys[n]];
      SelectedKeysAre(cluster, keys[..n], gateway, k);
    }
  }

  lemma {:induction false} SelectedKeysStep(cluster: WorldSnapshot, keys: seq<Key>, i: nat, gateway: Key)
    requires i < |keys| && forall k :: k in keys ==> k in cluster.httproutes
    ensures SelectedKeys(cluster, keys[..i + 1], gateway)
            == SelectedKeys(cluster, keys[..i], gateway) + ChosenRoute(cluster.httproutes[keys[i]], keys[i], gateway)
  {
    assert keys[..i + 1][..i] == keys[..i];
  }

  lemma {:induction false} AllSelectedKeys(cluster: WorldSnapshot, gateway: Key)
    ensures SelectedKeys(cluster, SortedKeys(cluster.httproutes.Keys), gateway) == ReferencingKeys(cluster.httproutes, gateway)
  {
    forall k
      ensures k in SelectedKeys(cluster, SortedKeys(cluster.httproutes.Keys), gateway) <==> k in ReferencingKeys(cluster.httproutes, gateway)
    {
      SelectedKeysAre(cluster, SortedKeys(cluster.httproutes.Keys), gateway, k);
    }
  }

  /** A route, with the Services of its backends, if it names the Gateway. */
  method FetchRoute(
    cluster: WorldSnapshot, builder: WorldSnapshot, key: Key, gateway: Key, ghost routes: set<Key>, ghost services: set<Key>)
    returns (result: WorldSnapshot)
    requires WellKeyed(cluster) && key in cluster.httproutes
    requires builder.httproutes == Restrict(cluster.httproutes, routes) && builder.services == Restrict(cluster.services, services)
    ensures result == builder.(
              httproutes := Restrict(cluster.httproutes, routes + ChosenRoute(cluster.httproutes[key], key, gateway)),
              services := Restrict(cluster.services, services + ChosenServices(cluster.httproutes[key], gateway)))
  {
    var route := cluster.httproutes[key];
    result := builder;
    assert routes + {} == routes && services + {} == services;
    if ReferencesGateway(route, gateway) {
      result := FetchBackendServices(cluster, result, route, route.meta.namespace.GetOr(""), services);
      RestrictStep(cluster.httproutes, routes, key);
      result := WithHttpRoute(result, route);
    }
  }

  method FetchRoutesForGateway(cluster: WorldSnapshot, builder: WorldSnapshot, gateway: Key) returns (result: WorldSnapshot)
    requires WellKeyed(cluster)
    requires builder.services == map[] && builder.httproutes == map[]
    ensures result == builder.(
              httproutes := Restrict(cluster.httproutes, ReferencingKeys(cluster.httproutes, gateway)),
              services := Restrict(cluster.services, RoutesBackendKeys(cluster, SortedKeys(cluster.httproutes.Keys), gateway)))
  {
    result := builder;
    var keys := SortedKeys(cluster.httproutes.Keys);
    ghost var routes: set<Key>, services: set<Key> := {}, {};
    for i := 0 to |keys|
      invariant routes == SelectedKeys(cluster, keys[..i], gateway)
      invariant services == RoutesBackendKeys(cluster, keys[..i], gateway)
      invariant result == builder.(
                  httproutes := Restrict(cluster.httproutes, routes), services := Restrict(cluster.services, services))
    {
      assert keys[i] in keys;
      RoutesBackendKeysStep(cluster, keys, i, gateway);
      SelectedKeysStep(cluster, keys, i, gateway);
      result := FetchRoute(cluster, result, keys[i], gateway, routes, services);
      routes := routes + ChosenRoute(cluster.httproutes[keys[i]], keys[i], gateway);
      services := services + ChosenServices(cluster.httproutes[keys[i]], gateway);
    }
    assert keys[..|keys|] == keys;
    AllSelectedKeys(cluster, gateway);
  }

  method FetchManagedService(cluster: WorldSnapshot, builder: WorldSnapshot, gateway: Key, ghost have: set<Key>) returns (result: WorldSnapshot)
    requires WellKeyed(cluster)
    requires builder.services == Restrict(cluster.services, have)
    ensures result == builder.(services := Restrict(cluster.services, have + {ManagedServiceKey(gateway)}))
  {
    result := builder;
    var key := ManagedServiceKey(gateway);
    RestrictStep(cluster.services, have, key);
    if key in cluster.services {
      result := WithService(result, cluster.services[key]);
    }
  }

  method FetchNodes(cluster: WorldSnapshot, builder: WorldSnapshot) returns (result: WorldSnapshot)
    requires WellKeyed(cluster) && builder.nodes == map[]
    ensures result == builder.(nodes := cluster.nodes)
  {
    result := builder;
    var keys := SortedKeys(cluster.nodes.Keys);
    ghost var have: set<Key> := {};
    for i := 0 to |keys|
      invariant forall k :: k in have <==> k in keys[..i]
      invariant result == builder.(nodes := Restrict(cluster.nodes, have))
    {
      assert keys[i] in keys;
      RestrictStep(cluster.nodes, have, keys[i]);
      have := have + {keys[i]};
      result := WithNode(result, cluster.nodes[keys[i]]);
    }
    assert keys[..|keys|] == keys;
    assert Restrict(cluster.nodes, have) == cluster.nodes;
  }

  method FetchClass(cluster: WorldSnapshot, builder: WorldSnapshot, key: Key, ghost have: set<Key>) returns (result: WorldSnapshot)
    requires WellKeyed(cluster) && builder.gatewayClasses == Restrict(cluster.gatewayClasses, have)
    ensures result == builder.(gatewayClasses := Restrict(cluster.gatewayClasses, have + {key}))
  {
    result := builder;
    RestrictStep(cluster.gatewayClasses, have, key);
    if key in cluster.gatewayClasses {
      result := WithGatewayClass(result, cluster.gatewayClasses[key]);
    }
  }

  /** The Gateway and its class. */
  method FetchGateway(cluster: WorldSnapshot, builder: WorldSnapshot, key: Key) returns (result: WorldSnapshot)
    requires WellKeyed(cluster) && builder.gateways == map[] && builder.gatewayClasses == map[]
    ensures result == builder.(gateways := Restrict(cluster.gateways, {key}), gatewayClasses := OwnClass(cluster, key))
  {
    result := builder;
    RestrictStep(cluster.gateways, {}, key);
    if key in cluster.gateways {
      result := WithGateway(result, cluster.gateways[key]);
      result := FetchClass(cluster, result, ("", cluster.gateways[key].className), {});
    }
  }

  method SnapshotForGateway(cluster: WorldSnapshot, key: Key) returns (snapshot: WorldSnapshot)
    requires WellKeyed(cluster)
    ensures snapshot == GatewayProjection(cluster, key)
  {
    var builder := EmptySnapshot(cluster.now);
    builder := FetchGateway(cluster, builder, key);
    ghost var backends := RoutesBackendKeys(cluster, SortedKeys(cluster.httproutes.Keys), key);
    builder := FetchRoutesForGateway(cluster, builder, key);
    builder := FetchManagedService(cluster, builder, key, backends);
    snapshot := FetchNodes(cluster, builder);
  }

  // For a route

  function ParentKey(ref: ParentRef, routeNs: string): Key {
    (ref.namespace.GetOr(routeNs), ref.name)
  }

  function ParentKeys(refs: seq<ParentRef>, routeNs: string): set<Key> {
    set r | r in refs && IsGatewayParent(r) :: ParentKey(r, routeNs)
  }

  function ClassKeys(cluster: WorldSnapshot, parents: set<Key>): set<Key> {
    set k | k in parents && k in cluster.gateways :: ("", cluster.gateways[k].className)
  }

  function ManagedKeys(cluster: WorldSnapshot, parents: set<Key>): set<Key> {
    set k | k in parents && k in cluster.gateways :: ManagedServiceKey(k)
  }

  predicate IsRelevantGrant(grant: ReferenceGrant, routeNs: string) {
    grant.meta.namespace.GetOr("") == routeNs || exists f :: f in grant.from && f.namespace == routeNs
  }

  function RelevantGrants(grants: map<Key, ReferenceGrant>, routeNs: string): map<Key, ReferenceGrant> {
    map k | k in grants && IsRelevantGrant(grants[k], routeNs) :: grants[k]
  }

  /** The route, its parent Gateways with their classes and managed Services, the Services of its
      backends, and the grants that concern its namespace. */
  function HttpRouteProjection(cluster: WorldSnapshot, key: Key): WorldSnapshot {
    var route := Lookup(cluster.httproutes, key);
    var parents := if route.Some? then ParentKeys(route.value.parentRefs.GetOr([]), key.0) else {};
    WorldSnapshot(
      cluster.now,
      Restrict(cluster.gatewayClasses, ClassKeys(cluster, parents)),
      Restrict(cluster.gateways, parents),
      Restrict(cluster.httproutes, {key}),
      Restrict(cluster.services,
               ManagedKeys(cluster, parents) + (if route.Some? then RouteBackendKeys(route.value, key.0) else {})),
      map[],
      RelevantGrants(cluster.referenceGrants, key.0),
      map[])
  }

  /** The builder's part for a set of parents. */
  ghost predicate HasParents(cluster: WorldSnapshot, builder: WorldSnapshot, parents: set<Key>) {
    && builder.gateways == Restrict(cluster.gateways, parents)
    && builder.gatewayClasses == Restrict(cluster.gatewayClasses, ClassKeys(cluster, parents))
    && builder.services == Restrict(cluster.services, ManagedKeys(cluster, parents))
  }

  lemma ParentAdds(cluster: WorldSnapshot, parents: set<Key>, key: Key)
    ensures key in cluster.gateways ==>
              && ClassKeys(cluster, parents + {key}) == ClassKeys(cluster, parents) + {("", cluster.gateways[key].className)}
              && ManagedKeys(cluster, parents + {key}) == ManagedKeys(cluster, parents) + {ManagedServiceKey(key)}
    ensures key !in cluster.gateways ==>
              && ClassKeys(cluster, parents + {key}) == ClassKeys(cluster, parents)
              && ManagedKeys(cluster, parents + {key}) == ManagedKeys(cluster, parents)
  {
  }

  method FetchParent(cluster: WorldSnapshot, builder: WorldSnapshot, key: Key, ghost parents: set<Key>) returns (result: WorldSnapshot)
    requires WellKeyed(cluster) && HasParents(cluster, builder, parents)
    ensures HasParents(cluster, result, parents + {key})
    ensures result == builder.(gateways := result.gateways, gatewayClasses := result.gatewayClasses, services := result.services)
  {
    result := builder;
    ParentAdds(cluster, parents, key);
    RestrictStep(cluster.gateways, parents, key);
    if key in cluster.gateways {
      var gateway := cluster.gateways[key];
      result := FetchClass(cluster, result, ("", gateway.className), ClassKeys(cluster, parents));
      result := FetchManagedService(cluster, result, key, ManagedKeys(cluster, parents));
      result := WithGateway(result, gateway);
    }
  }

  lemma ParentKeysStep(refs: seq<ParentRef>, i: nat, routeNs: string)
    requires i < |refs|
    ensures ParentKeys(refs[..i + 1], routeNs)
            == ParentKeys(refs[..i], routeNs) + (if IsGatewayParent(refs[i]) then {ParentKey(refs[i], routeNs)} else {})
  {
    assert refs[..i + 1] == refs[..i] + [refs[i]];
  }

  method FetchParents(cluster: WorldSnapshot, builder: WorldSnapshot, refs: seq<ParentRef>, routeNs: string) returns (result: WorldSnapshot)
    requires WellKeyed(cluster) && HasParents(cluster, builder, {})
    ensures HasParents(cluster, result, ParentKeys(refs, routeNs))
    ensures result == builder.(gateways := result.gateways, gatewayClasses := result.gatewayClasses, services := result.services)
  {
    result := builder;
    ghost var parents: set<Key> := {};
    for i := 0 to |refs|
      invariant parents == ParentKeys(refs[..i], routeNs)
      invariant HasParents(cluster, result, parents)
      invariant result == builder.(gateways := result.gateways, gatewayClasses := result.gatewayClasses, services := result.services)
    {
      ParentKeysStep(refs, i, routeNs);
      if !IsGatewayParent(refs[i]) {
        continue;
      }
      var key := ParentKey(refs[i], routeNs);
      result := FetchParent(cluster, result, key, parents);
      parents := parents + {key};
    }
    assert refs[..|refs|] == refs;
  }

  method FetchGrant(cluster: WorldSnapshot, builder: WorldSnapshot, key: Key, routeNs: string, ghost have: set<Key>)
    returns (result: WorldSnapshot)
    requires WellKeyed(cluster) && key in cluster.referenceGrants
    requires builder.referenceGrants == Restrict(cluster.referenceGrants, have)
    ensures result == builder.(
              referenceGrants := Restrict(cluster.referenceGrants, have + ChosenGrant(cluster.referenceGrants[key], key, routeNs)))
  {
    result := builder;
    assert have + {} == have;
    if IsRelevantGrant(cluster.referenceGrants[key], routeNs) {
      RestrictStep(cluster.referenceGrants, have, key);
      result := WithReferenceGrant(result, cluster.referenceGrants[key]);
    }
  }

  function ChosenGrant(grant: ReferenceGrant, key: Key, routeNs: string): set<Key> {
    if IsRelevantGrant(grant, routeNs) then {key} else {}
  }

  method FetchReferenceGrants(cluster: WorldSnapshot, builder: WorldSnapshot, routeNs: string) returns (result: WorldSnapshot)
    requires WellKeyed(cluster) && builder.referenceGrants == map[]
    ensures result == builder.(referenceGrants := RelevantGrants(cluster.referenceGrants, routeNs))
  {
    result := builder;
    var keys := SortedKeys(cluster.referenceGrants.Keys);
    ghost var have: set<Key> := {};
    for i := 0 to |keys|
      invariant forall k :: k in have <==> k in keys[..i] && IsRelevantGrant(cluster.referenceGrants[k], routeNs)
      invariant result == builder.(referenceGrants := Restrict(cluster.referenceGrants, have))
    {
      assert keys[i] in keys;
      result := FetchGrant(cluster, result, keys[i], routeNs, have);
      have := have + ChosenGrant(cluster.referenceGrants[keys[i]], keys[i], routeNs);
    }
    assert keys[..|keys|] == keys;
    assert Restrict(cluster.referenceGrants, have) == RelevantGrants(cluster.referenceGrants, routeNs);
  }

  method SnapshotForHttpRoute(cluster: WorldSnapshot, key: Key) returns (snapshot: WorldSnapshot)
    requires WellKeyed(cluster)
    ensures snapshot == HttpRouteProjection(cluster, key)
  {
    var builder := EmptySnapshot(cluster.now);
    if key in cluster.httproutes {
      var route := cluster.httproutes[key];
      builder := WithHttpRoute(builder, route);
      var refs := route.parentRefs.GetOr([]);
      builder := FetchParents(cluster, builder, refs, key.0);
      builder := FetchBackendServices(cluster, builder, route, key.0, ManagedKeys(cluster, ParentKeys(refs, key.0)));
    }
    assert builder.httproutes == Restrict(cluster.httproutes, {key});
    snapshot := FetchReferenceGrants(cluster, builder, key.0);
  }
}
