/** What the status of a Gateway says. */
module Status {
  import opened Text
  import opened Ordering
  import opened Kube
  import opened Validate
  import opened Convert
  import opened Reconcile
  import opened Fetcher
  import opened Sufficiency
  import opened Verdicts

  lemma {:induction false} ResolvedByName(s: WorldSnapshot, gatewayNs: string, listeners: seq<Listener>, i: nat)
    requires i < |listeners| && forall j :: 0 <= j < |listeners| && j != i ==> listeners[j].name != listeners[i].name
    ensures listeners[i].name in RefsResolved(s, gatewayNs, listeners)
    ensures RefsResolved(s, gatewayNs, listeners)[listeners[i].name] == ListenerRefsResolved(s, gatewayNs, listeners[i])
  {
    var n := |listeners| - 1;
    if i < n {
      ResolvedByName(s, gatewayNs, listeners[..n], i);
    }
  }

  // When a Gateway is built

  /** The listener's protocol is HTTP without or HTTPS with a TLS section, and its port is one. */
  ghost predicate IsValidListener(l: Listener) {
    && ((SameText(l.protocol, "HTTP") && l.tls == None) || (SameText(l.protocol, "HTTPS") && l.tls != None))
    && 0 < l.port <= 65535
  }

  lemma ListenersValidIff(listeners: seq<Listener>)
    ensures ListenersValid(listeners) <==> forall i :: 0 <= i < |listeners| ==> IsValidListener(listeners[i])
  {
    forall i | 0 <= i < |listeners|
      ensures ValidateSingleListener(listeners[i]).valid <==> IsValidListener(listeners[i])
    {
      ServesHttpIff(listeners[i]);
    }
  }

  ghost predicate IsBuildable(s: WorldSnapshot, key: Key) {
    && key in s.gateways && IsOurClass(s, s.gateways[key].className)
    && forall i :: 0 <= i < |s.gateways[key].listeners| ==> IsValidListener(s.gateways[key].listeners[i])
  }

  lemma BuildableIff(s: WorldSnapshot, key: Key)
    ensures Configurable(s, key) <==> IsBuildable(s, key)
  {
    if key in s.gateways {
      ListenersValidIff(s.gateways[key].listeners);
    }
  }

  ghost predicate IsRefusal(c: StatusCondition, kind: ConditionKind, gateway: Gateway, now: int, reason: StatusReason) {
    c.kind == kind && !c.status && c.observedGeneration == gateway.meta.generation && c.transition == now && c.reason == reason
  }

  /** Everything about the Gateway and its listeners is false, with the reason. */
  ghost predicate IsRejected(status: GatewayStatus, gateway: Gateway, now: int, reason: StatusReason) {
    && status.addresses == None && |status.conditions| == 2
    && IsRefusal(status.conditions[0], IsAccepted, gateway, now, reason)
    && IsRefusal(status.conditions[1], IsProgrammed, gateway, now, Invalid)
    && |status.listeners| == |gateway.listeners|
    && forall i :: 0 <= i < |gateway.listeners| ==>
         && status.listeners[i].name == gateway.listeners[i].name && status.listeners[i].attachedRoutes == 0
         && |status.listeners[i].conditions| == 3
         && IsRefusal(status.listeners[i].conditions[0], IsAccepted, gateway, now, reason)
         && IsRefusal(status.listeners[i].conditions[1], HasResolvedRefs, gateway, now, reason)
         && IsRefusal(status.listeners[i].conditions[2], IsProgrammed, gateway, now, Invalid)
  }

  /** Something is written for a Gateway exactly when it exists, its class is this controller's and accepted,
      and its listeners are valid.  Otherwise an existing Gateway gets one rejected status and another look
      after 30 seconds, and a deleted one nothing. */
  lemma GatewayIsBuiltIff(s: WorldSnapshot, config: ControllerConfig, key: Key, parse: DurationParser)
    ensures var result := ReconcileGateway(s, config, key, parse);
            && result.deletes == []
            && (result.upserts != [] <==> IsBuildable(s, key))
            && (key !in s.gateways ==> result.statusUpdates == [] && result.requeue == None)
            && (key in s.gateways && !IsBuildable(s, key) ==>
                  && result.requeue == Some(After(30))
                  && |result.statusUpdates| == 1 && result.statusUpdates[0].UpdateGatewayStatus?
                  && result.statusUpdates[0].gateway == key
                  && IsRejected(result.statusUpdates[0].gatewayStatus, s.gateways[key], s.now,
                                if IsOurClass(s, s.gateways[key].className) then ListenersNotValid else Invalid))
            && (IsBuildable(s, key) ==> result.requeue == Some(After(config.requeueAfter)))
  {
    BuildableIff(s, key);
    if key in s.gateways && !IsBuildable(s, key) {
      var reason := if IsOurClass(s, s.gateways[key].className) then ListenersNotValid else Invalid;
      RejectedStatusIs(s.now, s.gateways[key], reason);
    }
  }

  lemma RejectedStatusIs(now: int, gateway: Gateway, reason: StatusReason)
    ensures IsRejected(RejectedStatus(now, gateway, reason), gateway, now, reason)
  {
  }

  // What the status of a built Gateway says

  ghost predicate IsConditionOf(
    c: StatusCondition, kind: ConditionKind, status: bool, gateway: Gateway, now: int, positive: StatusReason, negative: StatusReason)
  {
    && c.kind == kind && c.status == status && c.observedGeneration == gateway.meta.generation && c.transition == now
    && c.reason == if status then positive else negative
  }

  /** For a configurable Gateway: it is accepted, and programmed exactly when an address was found; every
      listener reports the number of HTTPRoutes naming the Gateway; and a listener with a name of its own
      reports its references resolved exactly when each of its certificates can be used. */
  lemma GatewayStatusMeans(s: WorldSnapshot, config: ControllerConfig, key: Key, parse: DurationParser, i: nat)
    requires Configurable(s, key) && i < |s.gateways[key].listeners|
    requires var listeners := s.gateways[key].listeners;
             forall j :: 0 <= j < |listeners| && j != i ==> listeners[j].name != listeners[i].name
    ensures var status := ReconcileGateway(s, config, key, parse).statusUpdates[0].gatewayStatus;
            var gateway := s.gateways[key];
            var addresses := DeriveGatewayAddresses(s, gateway, key);
            && status.addresses == addresses && |status.conditions| == 2 && |status.listeners| == |gateway.listeners|
            && IsConditionOf(status.conditions[0], IsAccepted, true, gateway, s.now, Verdict(Accepted), Invalid)
            && IsConditionOf(status.conditions[1], IsProgrammed, addresses.Some?, gateway, s.now, Programmed, AddressNotAssigned)
            && IsListenerStatus(s, key, gateway.listeners[i], addresses.Some?, status.listeners[i])
  {
    var gateway := s.gateways[key];
    ResolvedByName(s, key.0, gateway.listeners, i);
    ServesHttpIff(gateway.listeners[i]);
    AcceptedStatusIs(
      s.now, gateway, DeriveGatewayAddresses(s, gateway, key), |RoutesForGateway(s, key)|, RefsResolved(s, key.0, gateway.listeners), i);
  }

  lemma AcceptedStatusIs(
    now: int, gateway: Gateway, addresses: Option<seq<Address>>, attached: nat, resolved: map<string, bool>, i: nat)
    requires i < |gateway.listeners| && gateway.listeners[i].name in resolved
    ensures var status := AcceptedStatus(now, gateway, addresses, attached, resolved);
            && status.addresses == addresses && |status.conditions| == 2 && |status.listeners| == |gateway.listeners|
            && IsConditionOf(status.conditions[0], IsAccepted, true, gateway, now, Verdict(Accepted), Invalid)
            && IsConditionOf(status.conditions[1], IsProgrammed, addresses.Some?, gateway, now, Programmed, AddressNotAssigned)
            && status.listeners[i].name == gateway.listeners[i].name && status.listeners[i].attachedRoutes == attached
            && status.listeners[i].supportsHttpRoutes == SupportsHttpRoutes(gateway.listeners[i])
            && |status.listeners[i].conditions| == 3
            && IsConditionOf(status.listeners[i].conditions[0], IsAccepted, true, gateway, now, Verdict(Accepted), Invalid)
            && IsConditionOf(status.listeners[i].conditions[1], HasResolvedRefs, resolved[gateway.listeners[i].name],
                             gateway, now, ResolvedRefs, InvalidCertificateRef)
            && IsConditionOf(status.listeners[i].conditions[2], IsProgrammed, addresses.Some?, gateway, now, Programmed, AddressNotAssigned)
  {
  }

  ghost predicate IsListenerStatus(s: WorldSnapshot, key: Key, l: Listener, programmed: bool, status: ListenerStatus)
    requires key in s.gateways
  {
    var gateway := s.gateways[key];
    && status.name == l.name && status.attachedRoutes == |RoutesForGateway(s, key)|
    && (status.supportsHttpRoutes <==> ServesHttp(l)) && |status.conditions| == 3
    && IsConditionOf(status.conditions[0], IsAccepted, true, gateway, s.now, Verdict(Accepted), Invalid)
    && IsConditionOf(status.conditions[1], HasResolvedRefs,
                     forall ref :: ref in CertificateRefs(l) ==> CertificateUsable(s, key.0, ref),
                     gateway, s.now, ResolvedRefs, InvalidCertificateRef)
    && IsConditionOf(status.conditions[2], IsProgrammed, programmed, gateway, s.now, Programmed, AddressNotAssigned)
  }

  /** The status written from the narrow snapshot says of a listener with a name of its own that its
      references are unresolved exactly when it has any: certificates that exist are not found. */
  lemma NarrowStatusMeans(cluster: WorldSnapshot, config: ControllerConfig, key: Key, parse: DurationParser, i: nat)
    requires WellKeyed(cluster) && Configurable(cluster, key) && i < |cluster.gateways[key].listeners|
    requires var listeners := cluster.gateways[key].listeners;
             forall j :: 0 <= j < |listeners| && j != i ==> listeners[j].name != listeners[i].name
    ensures Configurable(GatewayProjection(cluster, key), key)
    ensures var status := ReconcileGateway(GatewayProjection(cluster, key), config, key, parse).statusUpdates[0].gatewayStatus;
            var resolved := status.listeners[i].conditions[1];
            && resolved.kind == HasResolvedRefs
            && (!resolved.status <==> CertificateRefs(cluster.gateways[key].listeners[i]) != [])
  {
    var narrow, refs := GatewayProjection(cluster, key), CertificateRefs(cluster.gateways[key].listeners[i]);
    ProjectionKeepsDecisions(cluster, key);
    GatewayStatusMeans(narrow, config, key, parse, i);
    if refs != [] {
      assert refs[0] in refs && !CertificateUsable(narrow, key.0, refs[0]);
    }
  }

  // Which addresses are reported

  /** The first address of the kind "InternalIP". */
  ghost predicate IsInternalIP(node: Node, ip: string) {
    exists i :: && 0 <= i < |node.addresses.GetOr([])|
                && node.addresses.GetOr([])[i] == NodeAddress("InternalIP", ip)
                && forall j :: 0 <= j < i ==> node.addresses.GetOr([])[j].kind != "InternalIP"
  }

  /** The node is ready and has an internal address. */
  ghost predicate IsUsable(node: Node) {
    && (exists c :: c in node.conditions.GetOr([]) && c.kind == "Ready" && c.status == "True")
    && (exists a :: a in node.addresses.GetOr([]) && a.kind == "InternalIP")
  }

  /** The address is of the first usable node in the order of keys. */
  ghost predicate IsNodeIP(nodes: map<Key, Node>, ip: string) {
    exists k :: && k in nodes && IsUsable(nodes[k]) && IsInternalIP(nodes[k], ip)
                && forall m :: m in nodes && IsUsable(nodes[m]) ==> !KeyLess(m, k)
  }

  /** What an entry of the load balancer gives: its IP, else its host name. */
  function EntryAddress(e: IngressEntry): seq<Address> {
    match e
    case IngressEntry(Some(ip), _) => [Address(Some("IPAddress"), ip)]
    case IngressEntry(None, Some(hostname)) => [Address(Some("Hostname"), hostname)]
    case IngressEntry(None, None) => []
  }

  /** The addresses of the Gateway; or those of the load balancer before its Service, in its order; or that
      of a node; or the Service's own. */
  ghost predicate AreAddresses(s: WorldSnapshot, gateway: Gateway, key: Key, addresses: Option<seq<Address>>) {
    var service := (key.0, "multiway-dp-" + key.1);
    if gateway.addresses != None && gateway.addresses != Some([]) then addresses == gateway.addresses
    else if service !in s.services then addresses == None
    else
      var balanced := FlatMap(s.services[service].ingress.GetOr([]), EntryAddress);
      if balanced != [] then addresses == Some(balanced)
      else if exists k :: k in s.nodes && IsUsable(s.nodes[k]) then
        exists ip :: IsNodeIP(s.nodes, ip) && addresses == Some([Address(Some("IPAddress"), ip)])
      else
        match s.services[service].clusterIP
        case None => addresses == None
        case Some(ip) => addresses == if ip == "" || ip == "None" then None else Some([Address(Some("IPAddress"), ip)])
  }

  lemma AddressesAre(s: WorldSnapshot, gateway: Gateway, key: Key)
    ensures AreAddresses(s, gateway, key, DeriveGatewayAddresses(s, gateway, key))
  {
    var service := (key.0, "multiway-dp-" + key.1);
    assert ServiceName(key.1) == "multiway-dp-" + key.1;
    if service in s.services {
      IngressAddressesAre(s.services[service].ingress.GetOr([]));
      NodeIPIs(s.nodes);
    }
  }

  lemma {:induction false} IngressAddressesAre(ingress: seq<IngressEntry>)
    ensures IngressAddresses(ingress) == FlatMap(ingress, EntryAddress)
  {
    if ingress == [] {
    } else {
      IngressAddressesAre(ingress[1..]);
      FlatMapConcat([ingress[0]], ingress[1..], EntryAddress);
      assert ingress == [ingress[0]] + ingress[1..];
      assert [ingress[0]][..0] == [];
    }
  }

  lemma {:induction false} InternalIPIs(addresses: seq<NodeAddress>) returns (i: nat)
    ensures i <= |addresses| && forall j :: 0 <= j < i ==> addresses[j].kind != "InternalIP"
    ensures FirstInternalIP(addresses) == if i < |addresses| then Some(addresses[i].address) else None
    ensures i < |addresses| ==> addresses[i].kind == "InternalIP"
  {
    if addresses == [] || addresses[0].kind == "InternalIP" {
      i := 0;
    } else {
      var k := InternalIPIs(addresses[1..]);
      i := k + 1;
      assert forall j :: 0 < j < i ==> addresses[j] == addresses[1..][j - 1];
    }
  }

  /** What a node gives: nothing unless it is usable. */
  lemma NodeGives(node: Node)
    ensures var ip := if IsReady(node) then FirstInternalIP(node.addresses.GetOr([])) else None;
            (ip.Some? <==> IsUsable(node)) && (ip.Some? ==> IsInternalIP(node, ip.value))
  {
    var addresses := node.addresses.GetOr([]);
    var i := InternalIPIs(addresses);
    if i < |addresses| {
      assert addresses[i] in addresses;
    }
  }

  lemma {:induction false} FirstNodeIs(keys: seq<Key>, nodes: map<Key, Node>) returns (i: nat)
    requires forall k :: k in keys ==> k in nodes
    ensures i <= |keys| && forall j :: 0 <= j < i ==> !IsUsable(nodes[keys[j]])
    ensures i == |keys| <==> NodeInternalIP(keys, nodes) == None
    ensures i < |keys| ==> && IsUsable(nodes[keys[i]]) && NodeInternalIP(keys, nodes).Some?
                           && IsInternalIP(nodes[keys[i]], NodeInternalIP(keys, nodes).value)
  {
    if keys == [] {
      i := 0;
    } else {
      NodeGives(nodes[keys[0]]);
      if IsUsable(nodes[keys[0]]) {
        i := 0;
      } else {
        var k := FirstNodeIs(keys[1..], nodes);
        i := k + 1;
        assert forall j :: 0 < j <= k && j < |keys| ==> keys[j] == keys[1..][j - 1];
        assert i < |keys| ==> keys[i] == keys[1..][k];
      }
    }
  }

  lemma {:induction false} NodeIPIs(nodes: map<Key, Node>)
    ensures var ip := NodeInternalIP(SortedKeys(nodes.Keys), nodes);
            && (ip.Some? <==> exists k :: k in nodes && IsUsable(nodes[k]))
            && (ip.Some? ==> IsNodeIP(nodes, ip.value))
  {
    var keys := SortedKeys(nodes.Keys);
    var i := FirstNodeIs(keys, nodes);
    if i < |keys| {
      forall m | m in nodes && IsUsable(nodes[m])
        ensures !KeyLess(m, keys[i])
      {
        NotBefore(keys, i, m);
      }
      assert keys[i] in keys;
    } else {
      forall m | m in nodes
        ensures !IsUsable(nodes[m])
      {
        assert m in keys;
      }
    }
  }

  lemma NotBefore(keys: seq<Key>, i: nat, m: Key)
    requires Ascending(keys, KeyLess) && i < |keys| && m in keys && m !in keys[..i]
    ensures !KeyLess(m, keys[i])
  {
    assert keys == keys[..i] + keys[i..];
    var d :| 0 <= d < |keys[i..]| && keys[i..][d] == m;
    KeyLessIsStrictTotal();
    assert d > 0 ==> KeyLess(keys[i], keys[i + d]);
  }

  /** An address is found exactly when one is given, or the data plane's Service exists and the
      load balancer, some ready node or the Service itself has one. */
  lemma AddressFoundIff(s: WorldSnapshot, gateway: Gateway, key: Key)
    ensures var service := (key.0, ServiceName(key.1));
            DeriveGatewayAddresses(s, gateway, key).Some?
            <==> || gateway.addresses.GetOr([]) != []
                 || (service in s.services
                     && (|| (exists e :: e in s.services[service].ingress.GetOr([]) && (e.ip.Some? || e.hostname.Some?))
                         || (exists k :: k in s.nodes && IsUsable(s.nodes[k]))
                         || s.services[service].clusterIP.GetOr("") !in ["", "None"]))
  {
    var service := (key.0, ServiceName(key.1));
    if service in s.services {
      IngressFoundIff(s.services[service].ingress.GetOr([]));
    }
    NodeIPIs(s.nodes);
  }

  lemma {:induction false} IngressFoundIff(ingress: seq<IngressEntry>)
    ensures IngressAddresses(ingress) != [] <==> exists e :: e in ingress && (e.ip.Some? || e.hostname.Some?)
  {
    if ingress == [] {
    } else {
      IngressFoundIff(ingress[1..]);
      assert ingress == [ingress[0]] + ingress[1..];
    }
  }

  // What the status of a route says

  /** One entry for each parent reference, in order, which carries it; both its conditions are true exactly
      when the parent accepts the route, and the reason is otherwise that of the first test that fails. */
  lemma RouteStatusMeans(s: WorldSnapshot, config: ControllerConfig, key: Key, parse: DurationParser, i: nat)
    requires key in s.httproutes && i < |s.httproutes[key].parentRefs.GetOr([])|
    ensures var route, result := s.httproutes[key], HttpRouteResult(s, config, key, parse);
            var ref := route.parentRefs.GetOr([])[i];
            && result.deletes == [] && result.requeue == Some(After(config.requeueAfter))
            && |result.statusUpdates| == 1 && result.statusUpdates[0].UpdateRouteStatus? && result.statusUpdates[0].route == key
            && |result.statusUpdates[0].parents| == |route.parentRefs.GetOr([])|
            && IsParentStatus(s, route, ref, key.0, result.statusUpdates[0].parents[i])
  {
    VerdictMeans(s, s.httproutes[key], s.httproutes[key].parentRefs.GetOr([])[i], key.0);
  }

  ghost predicate IsParentStatus(s: WorldSnapshot, route: HTTPRoute, ref: ParentRef, routeNs: string, status: ParentStatus) {
    && status.parentRef == ref && |status.conditions| == 2
    && status.conditions[0].kind == IsAccepted && status.conditions[1].kind == HasResolvedRefs
    && (forall j :: 0 <= j < 2 ==>
          && status.conditions[j].observedGeneration == route.meta.generation && status.conditions[j].transition == s.now
          && (status.conditions[j].status <==> Acceptable(s, route, ref, routeNs)))
    && status.conditions[0].reason.Verdict? && IsReason(s, route, ref, routeNs, status.conditions[0].reason.reason)
    && status.conditions[1].reason == if Acceptable(s, route, ref, routeNs) then ResolvedRefs else status.conditions[0].reason
  }

  /** A deleted route gets no status, and one without parents neither. */
  lemma NoParentsNoStatus(s: WorldSnapshot, config: ControllerConfig, key: Key, parse: DurationParser)
    requires key in s.httproutes ==> s.httproutes[key].parentRefs.GetOr([]) == []
    ensures var result := HttpRouteResult(s, config, key, parse);
            && result.upserts == [] && result.deletes == [] && result.statusUpdates == []
            && result.requeue == if key in s.httproutes then Some(After(config.requeueAfter)) else None
  {
  }

  // What reconciling a route writes

  /** A parent that accepts the route has its ConfigMap written, in its namespace and under its name. */
  ghost function WriteFor(s: WorldSnapshot, route: HTTPRoute, routeNs: string, parse: DurationParser): ParentRef -> seq<Resource> {
    (ref: ParentRef) =>
      if Acceptable(s, route, ref, routeNs) then
        var gateway := s.gateways[ParentOf(ref, routeNs)];
        [ ConfigMap((ParentOf(ref, routeNs).0, "multiway-config-" + ref.name), OwnerReference(gateway.meta.name, gateway.meta.uid),
                    GatewayConfigOf(gateway, ParentOf(ref, routeNs).0, s, parse)) ]
      else []
  }

  /** Reconciling a route writes for exactly the parents that accept it, in order. */
  lemma RouteWritesAre(s: WorldSnapshot, config: ControllerConfig, key: Key, parse: DurationParser)
    requires key in s.httproutes
    ensures HttpRouteResult(s, config, key, parse).upserts
            == FlatMap(s.httproutes[key].parentRefs.GetOr([]), WriteFor(s, s.httproutes[key], key.0, parse))
  {
    ParentConfigMapsAre(s, s.httproutes[key], s.httproutes[key].parentRefs.GetOr([]), key.0, parse);
  }

  lemma {:induction false} ParentConfigMapsAre(
    s: WorldSnapshot, route: HTTPRoute, refs: seq<ParentRef>, routeNs: string, parse: DurationParser)
    ensures ParentConfigMaps(s, route, refs, routeNs, parse) == FlatMap(refs, WriteFor(s, route, routeNs, parse))
  {
    if refs == [] {
    } else {
      var n := |refs| - 1;
      ParentConfigMapsAre(s, route, refs[..n], routeNs, parse);
      WriteForIs(s, route, refs[n], routeNs, parse);
    }
  }

  lemma WriteForIs(s: WorldSnapshot, route: HTTPRoute, ref: ParentRef, routeNs: string, parse: DurationParser)
    ensures UpsertForParent(s, route, ref, routeNs, parse) == WriteFor(s, route, routeNs, parse)(ref)
  {
    VerdictMeans(s, route, ref, routeNs);
  }
}
