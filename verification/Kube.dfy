/** The cluster resources that the controller reads, and the snapshot it decides on.
    Every resource is kept under its namespace and name; cluster-scoped ones under "". */
module Kube {
  import opened Text
  import opened Config
  import opened Ordering

  datatype Meta = Meta(name: string, namespace: Option<string>, generation: Option<int>, uid: string)

  function KeyOf(meta: Meta): Key {
    (meta.namespace.GetOr(""), meta.name)
  }

  datatype Condition = Condition(kind: string, status: string, observedGeneration: Option<int>, transition: int, reason: string)

  datatype GatewayClass = GatewayClass(meta: Meta, controllerName: string, conditions: Option<seq<Condition>>)

  datatype RoutesFrom = All | Same | Selector

  datatype LabelSelector = LabelSelector(matchLabels: Option<map<string, string>>)

  datatype NamespacePolicy = NamespacePolicy(from: Option<RoutesFrom>, selector: Option<LabelSelector>)

  datatype AllowedRoutes = AllowedRoutes(namespaces: Option<NamespacePolicy>)

  datatype SecretRef = SecretRef(namespace: Option<string>, name: string)

  datatype ListenerTls = ListenerTls(mode: Option<TlsMode>, certificateRefs: Option<seq<SecretRef>>)

  datatype Listener = Listener(
    name: string,
    port: int,
    protocol: string,
    hostname: Option<string>,
    allowedRoutes: Option<AllowedRoutes>,
    tls: Option<ListenerTls>)

  datatype Address = Address(kind: Option<string>, value: string)

  datatype Gateway = Gateway(
    meta: Meta,
    className: string,
    listeners: seq<Listener>,
    addresses: Option<seq<Address>>)

  datatype ParentRef = ParentRef(
    group: Option<string>,
    kind: Option<string>,
    namespace: Option<string>,
    name: string,
    sectionName: Option<string>,
    port: Option<int>)

  datatype BackendRef = BackendRef(
    group: Option<string>,
    kind: Option<string>,
    namespace: Option<string>,
    name: string,
    port: Option<int>,
    weight: Option<int>)

  datatype SourcePath = SourcePath(matchType: Option<PathMatchType>, value: Option<string>)

  datatype SourceValueMatch = SourceValueMatch(name: string, matchType: Option<ValueMatchType>, value: string)

  datatype HttpMethod = Get | Head | Post | Put | Delete | Connect | Options | Trace | Patch

  datatype SourceMatch = SourceMatch(
    path: Option<SourcePath>,
    headers: Option<seq<SourceValueMatch>>,
    queryParams: Option<seq<SourceValueMatch>>,
    httpMethod: Option<HttpMethod>)

  datatype SourceHeaderModifier = SourceHeaderModifier(
    toAdd: Option<seq<HeaderValue>>,
    toSet: Option<seq<HeaderValue>>,
    toRemove: Option<seq<string>>)

  datatype SourcePathModifierKind = FullPath | PrefixMatch

  datatype SourcePathModifier = SourcePathModifier(
    kind: SourcePathModifierKind,
    replaceFullPath: Option<string>,
    replacePrefixMatch: Option<string>)

  datatype SourceRedirect = SourceRedirect(
    scheme: Option<Protocol>,
    hostname: Option<string>,
    port: Option<int>,
    path: Option<SourcePathModifier>,
    statusCode: Option<int>)

  datatype SourceRewrite = SourceRewrite(hostname: Option<string>, path: Option<SourcePathModifier>)

  datatype SourceFilter =
    | RequestHeaders(modifier: Option<SourceHeaderModifier>)
    | ResponseHeaders(modifier: Option<SourceHeaderModifier>)
    | Redirecting(redirect: Option<SourceRedirect>)
    | Rewriting(rewrite: Option<SourceRewrite>)
    | Mirroring(mirror: Option<BackendRef>)
    | Extension

  datatype SourceTimeouts = SourceTimeouts(request: Option<string>, backendRequest: Option<string>)

  datatype SourceRule = SourceRule(
    matches: Option<seq<SourceMatch>>,
    filters: Option<seq<SourceFilter>>,
    backendRefs: Option<seq<BackendRef>>,
    timeouts: Option<SourceTimeouts>)

  datatype HTTPRoute = HTTPRoute(
    meta: Meta,
    parentRefs: Option<seq<ParentRef>>,
    hostnames: Option<seq<string>>,
    rules: Option<seq<SourceRule>>)

  datatype IngressEntry = IngressEntry(ip: Option<string>, hostname: Option<string>)

  datatype Service = Service(meta: Meta, clusterIP: Option<string>, ingress: Option<seq<IngressEntry>>)

  datatype GrantFrom = GrantFrom(group: string, kind: string, namespace: string)

  datatype GrantTo = GrantTo(group: string, kind: string, name: Option<string>)

  datatype ReferenceGrant = ReferenceGrant(meta: Meta, from: seq<GrantFrom>, to: seq<GrantTo>)

  /** The two entries of a TLS secret that are read, each absent when missing or not UTF-8. */
  datatype SecretData = SecretData(certPem: Option<string>, keyPem: Option<string>)

  datatype Secret = Secret(meta: Meta, data: Option<SecretData>)

  datatype NodeAddress = NodeAddress(kind: string, address: string)

  datatype Node = Node(meta: Meta, conditions: Option<seq<Condition>>, addresses: Option<seq<NodeAddress>>)

  datatype WorldSnapshot = WorldSnapshot(
    now: int,
    gatewayClasses: map<Key, GatewayClass>,
    gateways: map<Key, Gateway>,
    httproutes: map<Key, HTTPRoute>,
    services: map<Key, Service>,
    secrets: map<Key, Secret>,
    referenceGrants: map<Key, ReferenceGrant>,
    nodes: map<Key, Node>)

  const GATEWAY_GROUP := "gateway.networking.k8s.io"
  const CONTROLLER_NAME := "io.multiway/gateway-controller"

  function EmptySnapshot(now: int): WorldSnapshot {
    WorldSnapshot(now, map[], map[], map[], map[], map[], map[], map[])
  }

  // Lookups

  function Lookup<V>(m: map<Key, V>, key: Key): Option<V> {
    if key in m then Some(m[key]) else None
  }

  predicate ParentIs(ref: ParentRef, routeNamespace: string, gateway: Key) {
    (ref.namespace.GetOr(routeNamespace), ref.name) == gateway
  }

  predicate ReferencesGateway(route: HTTPRoute, gateway: Key) {
    exists r :: r in route.parentRefs.GetOr([]) && ParentIs(r, route.meta.namespace.GetOr(""), gateway)
  }

  /** A route names a Gateway when some parent reference has its name and its namespace, or has none and is in
      its namespace; the reference's group, kind, section and port are not consulted. */
  lemma ReferencesGatewayIff(route: HTTPRoute, gateway: Key)
    ensures ReferencesGateway(route, gateway)
            <==> exists i :: && 0 <= i < |route.parentRefs.GetOr([])| && route.parentRefs.GetOr([])[i].name == gateway.1
                             && match route.parentRefs.GetOr([])[i].namespace
                                case Some(ns) => ns == gateway.0
                                case None => route.meta.namespace.GetOr("") == gateway.0
  {
    var refs := route.parentRefs.GetOr([]);
    if r :| r in refs && ParentIs(r, route.meta.namespace.GetOr(""), gateway) {
      var i :| 0 <= i < |refs| && refs[i] == r;
    }
    if i :| 0 <= i < |refs| && ParentIs(refs[i], route.meta.namespace.GetOr(""), gateway) {
      assert refs[i] in refs;
    }
  }

  /** The routes naming the Gateway as a parent, in key order. */
  function RoutesForGateway(s: WorldSnapshot, gateway: Key): seq<HTTPRoute> {
    SelectRoutes(SortedKeys(s.httproutes.Keys), s.httproutes, gateway)
  }

  function SelectRoutes(keys: seq<Key>, routes: map<Key, HTTPRoute>, gateway: Key): seq<HTTPRoute>
    requires forall k :: k in keys ==> k in routes
  {
    if keys == [] then []
    else
      var n := |keys| - 1;
      SelectRoutes(keys[..n], routes, gateway)
      + (if ReferencesGateway(routes[keys[n]], gateway) then [routes[keys[n]]] else [])
  }

  /** A grant's target name is not consulted: it allows every resource of the kind. */
  predicate GrantAllows(grant: ReferenceGrant, fromNs: string, fromKind: string, toNs: string, toGroup: string, toKind: string) {
    && grant.meta.namespace == Some(toNs)
    && (exists f :: f in grant.from && f == GrantFrom(GATEWAY_GROUP, fromKind, fromNs))
    && (exists t :: t in grant.to && t.group == toGroup && t.kind == toKind)
  }

  predicate IsReferenceAllowed(s: WorldSnapshot, fromNs: string, fromKind: string, toNs: string, toGroup: string, toKind: string) {
    exists k :: k in s.referenceGrants && GrantAllows(s.referenceGrants[k], fromNs, fromKind, toNs, toGroup, toKind)
  }

  predicate IsGatewayReferenceAllowed(s: WorldSnapshot, fromNs: string, toNs: string) {
    IsReferenceAllowed(s, fromNs, "HTTPRoute", toNs, GATEWAY_GROUP, "Gateway")
  }

  predicate IsServiceReferenceAllowed(s: WorldSnapshot, fromNs: string, toNs: string) {
    IsReferenceAllowed(s, fromNs, "HTTPRoute", toNs, "", "Service")
  }

  predicate IsSecretReferenceAllowed(s: WorldSnapshot, gatewayNs: string, secretNs: string) {
    IsReferenceAllowed(s, gatewayNs, "Gateway", secretNs, "", "Secret")
  }

  predicate IsReady(node: Node) {
    exists c :: c in node.conditions.GetOr([]) && c.kind == "Ready" && c.status == "True"
  }

  function FirstInternalIP(addresses: seq<NodeAddress>): Option<string> {
    if addresses == [] then None
    else if addresses[0].kind == "InternalIP" then Some(addresses[0].address)
    else FirstInternalIP(addresses[1..])
  }

  /** The internal address of the first node, in key order, that is ready and has one. */
  function NodeInternalIP(keys: seq<Key>, nodes: map<Key, Node>): Option<string>
    requires forall k :: k in keys ==> k in nodes
  {
    if keys == [] then None
    else
      var node := nodes[keys[0]];
      var ip := if IsReady(node) then FirstInternalIP(node.addresses.GetOr([])) else None;
      if ip.Some? then ip else NodeInternalIP(keys[1..], nodes)
  }

  method GetNodeInternalIP(s: WorldSnapshot) returns (ip: Option<string>)
    ensures ip == NodeInternalIP(SortedKeys(s.nodes.Keys), s.nodes)
  {
    var keys := SortedKeys(s.nodes.Keys);
    for i := 0 to |keys|
      invariant NodeInternalIP(keys[i..], s.nodes) == NodeInternalIP(keys, s.nodes)
    {
      var node := s.nodes[keys[i]];
      assert keys[i..][1..] == keys[i + 1..];
      if !IsReady(node) {
        continue;
      }
      ip := FirstInternalIP(node.addresses.GetOr([]));
      if ip.Some? {
        return;
      }
    }
    ip := None;
  }

  // What the API server guarantees of every stored object

  /** Each object carries the namespace and name it is stored under. */
  ghost predicate WellKeyed(s: WorldSnapshot) {
    && (forall k :: k in s.gatewayClasses ==> KeyOf(s.gatewayClasses[k].meta) == k && k.0 == "")
    && (forall k :: k in s.gateways ==> IsAt(s.gateways[k].meta, k))
    && (forall k :: k in s.httproutes ==> IsAt(s.httproutes[k].meta, k))
    && (forall k :: k in s.services ==> IsAt(s.services[k].meta, k))
    && (forall k :: k in s.referenceGrants ==> IsAt(s.referenceGrants[k].meta, k))
    && (forall k :: k in s.nodes ==> KeyOf(s.nodes[k].meta) == k && k.0 == "")
  }

  predicate IsAt(meta: Meta, key: Key) {
    meta.namespace == Some(key.0) && meta.name == key.1
  }

  // Narrowing the routes

  function Restrict<V>(m: map<Key, V>, keys: set<Key>): map<Key, V> {
    map k | k in m && k in keys :: m[k]
  }

  ghost function ReferencingKeys(routes: map<Key, HTTPRoute>, gateway: Key): set<Key> {
    set k | k in routes && ReferencesGateway(routes[k], gateway)
  }

  lemma AscendingAppended(before: seq<Key>, keys: seq<Key>, n: nat)
    requires n < |keys| && Ascending(keys, KeyLess) && Ascending(before, KeyLess)
    requires forall k :: k in before ==> k in keys[..n]
    ensures Ascending(before + [keys[n]], KeyLess)
  {
    forall i | 0 <= i < |before|
      ensures KeyLess(before[i], keys[n])
    {
      assert before[i] in keys[..n];
    }
  }

  /** The selected routes are those of the referencing keys, in ascending key order. */
  lemma {:induction false} SelectedAreSorted(keys: seq<Key>, routes: map<Key, HTTPRoute>, gateway: Key) returns (selected: seq<Key>)
    requires Ascending(keys, KeyLess) && forall k :: k in keys ==> k in routes
    ensures Ascending(selected, KeyLess)
    ensures forall k :: k in selected <==> k in keys && ReferencesGateway(routes[k], gateway)
    ensures |SelectRoutes(keys, routes, gateway)| == |selected|
    ensures forall i :: 0 <= i < |selected| ==> SelectRoutes(keys, routes, gateway)[i] == routes[selected[i]]
  {
    if keys == [] {
      selected := [];
    } else {
      var n := |keys| - 1;
      assert keys == keys[..n] + [keys[n]];
      var before := SelectedAreSorted(keys[..n], routes, gateway);
      if ReferencesGateway(routes[keys[n]], gateway) {
        selected := before + [keys[n]];
        AscendingAppended(before, keys, n);
      } else {
        selected := before;
      }
    }
  }

  /** Dropping routes that do not name the Gateway changes neither the selection nor its order. */
  lemma NarrowingKeepsRoutes(wide: WorldSnapshot, narrow: WorldSnapshot, gateway: Key)
    requires narrow.httproutes == Restrict(wide.httproutes, ReferencingKeys(wide.httproutes, gateway))
    ensures RoutesForGateway(narrow, gateway) == RoutesForGateway(wide, gateway)
  {
    var a := SelectedAreSorted(SortedKeys(wide.httproutes.Keys), wide.httproutes, gateway);
    var b := SelectedAreSorted(SortedKeys(narrow.httproutes.Keys), narrow.httproutes, gateway);
    forall k
      ensures k in a <==> k in b
    {
      assert k in narrow.httproutes ==> narrow.httproutes[k] == wide.httproutes[k];
    }
    KeyLessIsStrictTotal();
    AscendingIsUnique(a, b, KeyLess);
    forall i | 0 <= i < |a|
      ensures RoutesForGateway(wide, gateway)[i] == RoutesForGateway(narrow, gateway)[i]
    {
      assert a[i] in a;
    }
  }
}
