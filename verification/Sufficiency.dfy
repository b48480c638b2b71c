/** Is a narrow snapshot enough?  For routes always; for Gateways unless some certificate could
    be used. */
module Sufficiency {
  import opened Text
  import opened Config
  import opened Ordering
  import opened Kube
  import opened Validate
  import opened Convert
  import opened Reconcile
  import opened Fetcher

  // Routes

  lemma RelevantGrantsSuffice(cluster: WorldSnapshot, narrow: WorldSnapshot, routeNs: string, toNs: string, toGroup: string, toKind: string)
    requires narrow.referenceGrants == RelevantGrants(cluster.referenceGrants, routeNs)
    ensures IsReferenceAllowed(narrow, routeNs, "HTTPRoute", toNs, toGroup, toKind)
            <==> IsReferenceAllowed(cluster, routeNs, "HTTPRoute", toNs, toGroup, toKind)
  {
    forall k | k in cluster.referenceGrants && GrantAllows(cluster.referenceGrants[k], routeNs, "HTTPRoute", toNs, toGroup, toKind)
      ensures k in narrow.referenceGrants
    {
      var grant := cluster.referenceGrants[k];
      var f :| f in grant.from && f == GrantFrom(GATEWAY_GROUP, "HTTPRoute", routeNs);
    }
  }

  lemma BackendVerdictSame(cluster: WorldSnapshot, key: Key, b: BackendRef)
    requires key in cluster.httproutes
    requires RouteUsesBackend(cluster.httproutes[key].rules.GetOr([]), b)
    ensures ValidateBackend(HttpRouteProjection(cluster, key), key.0, b) == ValidateBackend(cluster, key.0, b)
  {
    var narrow := HttpRouteProjection(cluster, key);
    RelevantGrantsSuffice(cluster, narrow, key.0, b.namespace.GetOr(key.0), "", "Service");
    if b.kind.GetOr("Service") == "Service" {
      UsedBackendIsFetched(cluster.httproutes[key].rules.GetOr([]), key.0, b);
    }
  }

  lemma {:induction false} BackendErrorsSame(s: WorldSnapshot, t: WorldSnapshot, routeNs: string, backends: seq<BackendRef>)
    requires forall b :: b in backends ==> ValidateBackend(s, routeNs, b) == ValidateBackend(t, routeNs, b)
    ensures FirstBackendError(s, routeNs, backends) == FirstBackendError(t, routeNs, backends)
  {
    if backends == [] {
    } else {
      BackendErrorsSame(s, t, routeNs, backends[1..]);
    }
  }

  lemma {:induction false} RuleErrorsSame(s: WorldSnapshot, t: WorldSnapshot, routeNs: string, rules: seq<SourceRule>)
    requires forall b :: RouteUsesBackend(rules, b) ==> ValidateBackend(s, routeNs, b) == ValidateBackend(t, routeNs, b)
    ensures FirstRuleError(s, routeNs, rules) == FirstRuleError(t, routeNs, rules)
  {
    if rules == [] {
    } else {
      assert rules[0] in rules;
      forall b | b in rules[0].backendRefs.GetOr([])
        ensures ValidateBackend(s, routeNs, b) == ValidateBackend(t, routeNs, b)
      {
        assert RouteUsesBackend(rules, b);
      }
      BackendErrorsSame(s, t, routeNs, rules[0].backendRefs.GetOr([]));
      forall b | RouteUsesBackend(rules[1..], b)
        ensures RouteUsesBackend(rules, b)
      {
        var r :| r in rules[1..] && b in r.backendRefs.GetOr([]);
        assert r in rules;
      }
      RuleErrorsSame(s, t, routeNs, rules[1..]);
    }
  }

  lemma ParentVerdictSame(cluster: WorldSnapshot, key: Key, ref: ParentRef)
    requires WellKeyed(cluster)
    requires key in cluster.httproutes && ref in cluster.httproutes[key].parentRefs.GetOr([])
    ensures ParentVerdict(HttpRouteProjection(cluster, key), cluster.httproutes[key], ref, key.0)
            == ParentVerdict(cluster, cluster.httproutes[key], ref, key.0)
  {
    var narrow, route := HttpRouteProjection(cluster, key), cluster.httproutes[key];
    forall b | RouteUsesBackend(route.rules.GetOr([]), b)
      ensures ValidateBackend(narrow, key.0, b) == ValidateBackend(cluster, key.0, b)
    {
      BackendVerdictSame(cluster, key, b);
    }
    RuleErrorsSame(narrow, cluster, key.0, route.rules.GetOr([]));
    if IsGatewayParent(ref) {
      var parent := ParentKey(ref, key.0);
      var parents := ParentKeys(route.parentRefs.GetOr([]), key.0);
      assert parent in parents;
      if parent in cluster.gateways {
        var gateway := cluster.gateways[parent];
        assert ("", gateway.className) in ClassKeys(cluster, parents);
        RelevantGrantsSuffice(cluster, narrow, key.0, gateway.meta.namespace.GetOr(""), GATEWAY_GROUP, "Gateway");
      }
    }
  }

  /** For every cluster, the status updates and the requeue computed from the route's narrow
      snapshot are those computed from the whole cluster. */
  lemma HttpRouteSnapshotSuffices(cluster: WorldSnapshot, config: ControllerConfig, key: Key, parse: DurationParser)
    requires WellKeyed(cluster)
    ensures var narrow := HttpRouteResult(HttpRouteProjection(cluster, key), config, key, parse);
            var wide := HttpRouteResult(cluster, config, key, parse);
            narrow.statusUpdates == wide.statusUpdates && narrow.requeue == wide.requeue
  {
    if key in cluster.httproutes {
      var narrow, route := HttpRouteProjection(cluster, key), cluster.httproutes[key];
      var refs := route.parentRefs.GetOr([]);
      forall i | 0 <= i < |refs|
        ensures StatusForParent(narrow, route, refs[i], key.0) == StatusForParent(cluster, route, refs[i], key.0)
      {
        ParentVerdictSame(cluster, key, refs[i]);
      }
      assert ParentStatuses(narrow, route, refs, key.0) == ParentStatuses(cluster, route, refs, key.0);
    }
  }

  // Gateways

  /** Some certificate reference of the Gateway could be used on the whole cluster. */
  ghost predicate SomeCertificateUsable(cluster: WorldSnapshot, key: Key) {
    key in cluster.gateways && SomeUsable(cluster, key.0, cluster.gateways[key].listeners)
  }

  ghost predicate SomeUsable(s: WorldSnapshot, gatewayNs: string, listeners: seq<Listener>) {
    exists l, ref :: l in listeners && ref in CertificateRefs(l) && CertificateUsable(s, gatewayNs, ref)
  }

  /** The Gateway is accepted and its listeners are valid, so that a configuration is built. */
  predicate Configurable(s: WorldSnapshot, key: Key) {
    key in s.gateways && HasAcceptedClass(s, s.gateways[key].className) && ListenersValid(s.gateways[key].listeners)
  }

  lemma {:induction false} InlineCertificatesIff(s: WorldSnapshot, gatewayNs: string, refs: seq<SecretRef>, hostnames: seq<string>)
    ensures InlineCertificates(s, gatewayNs, refs, hostnames) != [] <==> exists ref :: ref in refs && CertificateUsable(s, gatewayNs, ref)
  {
    if refs == [] {
    } else {
      var n := |refs| - 1;
      assert refs == refs[..n] + [refs[n]];
      InlineCertificatesIff(s, gatewayNs, refs[..n], hostnames);
    }
  }

  lemma ListenerConfigSameIff(s: WorldSnapshot, t: WorldSnapshot, gatewayNs: string, l: Listener)
    requires t.secrets == map[]
    ensures ListenerConfigOf(t, gatewayNs)(l) == ListenerConfigOf(s, gatewayNs)(l)
            <==> !exists ref :: ref in CertificateRefs(l) && CertificateUsable(s, gatewayNs, ref)
    ensures (forall ref :: ref in CertificateRefs(l) ==> !CertificateUsable(s, gatewayNs, ref))
            ==> ListenerRefsResolved(t, gatewayNs, l) == ListenerRefsResolved(s, gatewayNs, l)
  {
    var refs := CertificateRefs(l);
    InlineCertificatesIff(s, gatewayNs, refs, Hostnames(l));
    InlineCertificatesIff(t, gatewayNs, refs, Hostnames(l));
    assert forall ref :: ref in refs ==> !CertificateUsable(t, gatewayNs, ref);
  }

  lemma {:induction false} RefsResolvedSame(s: WorldSnapshot, t: WorldSnapshot, gatewayNs: string, listeners: seq<Listener>)
    requires forall l :: l in listeners ==> ListenerRefsResolved(t, gatewayNs, l) == ListenerRefsResolved(s, gatewayNs, l)
    ensures RefsResolved(t, gatewayNs, listeners) == RefsResolved(s, gatewayNs, listeners)
  {
    if listeners == [] {
    } else {
      RefsResolvedSame(s, t, gatewayNs, listeners[..|listeners| - 1]);
    }
  }

  lemma ProjectionKeepsDecisions(cluster: WorldSnapshot, key: Key)
    requires WellKeyed(cluster)
    ensures var narrow := GatewayProjection(cluster, key);
            && (key in narrow.gateways <==> key in cluster.gateways)
            && (key in cluster.gateways ==> narrow.gateways[key] == cluster.gateways[key])
            && (key in cluster.gateways ==>
                  HasAcceptedClass(narrow, cluster.gateways[key].className) == HasAcceptedClass(cluster, cluster.gateways[key].className)
                  && DeriveGatewayAddresses(narrow, cluster.gateways[key], key) == DeriveGatewayAddresses(cluster, cluster.gateways[key], key))
            && RoutesForGateway(narrow, key) == RoutesForGateway(cluster, key)
  {
    NarrowingKeepsRoutes(cluster, GatewayProjection(cluster, key), key);
    if key in cluster.gateways {
      ProjectionKeepsClass(cluster, key);
      ProjectionKeepsAddresses(cluster, key);
    }
  }

  lemma ProjectionKeepsClass(cluster: WorldSnapshot, key: Key)
    requires key in cluster.gateways
    ensures var name := cluster.gateways[key].className;
            HasAcceptedClass(GatewayProjection(cluster, key), name) == HasAcceptedClass(cluster, name)
  {
  }

  lemma ProjectionKeepsAddresses(cluster: WorldSnapshot, key: Key)
    requires key in cluster.gateways
    ensures var gateway := cluster.gateways[key];
            DeriveGatewayAddresses(GatewayProjection(cluster, key), gateway, key) == DeriveGatewayAddresses(cluster, gateway, key)
  {
  }

  lemma {:induction false} ListenersSameIff(s: WorldSnapshot, t: WorldSnapshot, gatewayNs: string, listeners: seq<Listener>)
    requires t.secrets == map[]
    ensures Mapped(listeners, ListenerConfigOf(t, gatewayNs)) == Mapped(listeners, ListenerConfigOf(s, gatewayNs))
            <==> !SomeUsable(s, gatewayNs, listeners)
    ensures !SomeUsable(s, gatewayNs, listeners) ==> RefsResolved(t, gatewayNs, listeners) == RefsResolved(s, gatewayNs, listeners)
  {
    var a, b := Mapped(listeners, ListenerConfigOf(t, gatewayNs)), Mapped(listeners, ListenerConfigOf(s, gatewayNs));
    if SomeUsable(s, gatewayNs, listeners) {
      var l, ref :| l in listeners && ref in CertificateRefs(l) && CertificateUsable(s, gatewayNs, ref);
      ListenerConfigSameIff(s, t, gatewayNs, l);
      var i :| 0 <= i < |listeners| && listeners[i] == l;
      assert a[i] != b[i];
    } else {
      forall l | l in listeners
        ensures ListenerConfigOf(t, gatewayNs)(l) == ListenerConfigOf(s, gatewayNs)(l)
        ensures ListenerRefsResolved(t, gatewayNs, l) == ListenerRefsResolved(s, gatewayNs, l)
      {
        ListenerConfigSameIff(s, t, gatewayNs, l);
      }
      RefsResolvedSame(s, t, gatewayNs, listeners);
    }
  }

  /** The narrow snapshot of a Gateway gives the whole result that the cluster gives - upserts in
      order, status and requeue - if and only if no certificate of a configurable Gateway could
      be used: Secrets and ReferenceGrants are never fetched. */
  lemma GatewaySnapshotSufficesIff(cluster: WorldSnapshot, config: ControllerConfig, key: Key, parse: DurationParser)
    requires WellKeyed(cluster)
    ensures ReconcileGateway(GatewayProjection(cluster, key), config, key, parse) == ReconcileGateway(cluster, config, key, parse)
            <==> !(Configurable(cluster, key) && SomeCertificateUsable(cluster, key))
  {
    var narrow := GatewayProjection(cluster, key);
    ProjectionKeepsDecisions(cluster, key);
    if Configurable(cluster, key) {
      ListenersSameIff(cluster, narrow, key.0, cluster.gateways[key].listeners);
      ConfigurableResultsSameIff(cluster, narrow, config, key, parse);
    } else {
      UnconfigurableResultsSame(cluster, narrow, config, key, parse);
    }
  }

  lemma UnconfigurableResultsSame(s: WorldSnapshot, t: WorldSnapshot, config: ControllerConfig, key: Key, parse: DurationParser)
    requires !Configurable(s, key) && s.now == t.now
    requires key in s.gateways <==> key in t.gateways
    requires key in s.gateways ==>
               s.gateways[key] == t.gateways[key]
               && HasAcceptedClass(s, s.gateways[key].className) == HasAcceptedClass(t, s.gateways[key].className)
    ensures ReconcileGateway(s, config, key, parse) == ReconcileGateway(t, config, key, parse)
  {
  }

  lemma {:induction false} ConfigurableResultsSameIff(s: WorldSnapshot, t: WorldSnapshot, config: ControllerConfig, key: Key, parse: DurationParser)
    requires Configurable(s, key) && Configurable(t, key) && s.gateways[key] == t.gateways[key] && s.now == t.now
    requires s.gateways[key].meta.name == key.1
    requires RoutesForGateway(s, key) == RoutesForGateway(t, key)
    requires DeriveGatewayAddresses(s, s.gateways[key], key) == DeriveGatewayAddresses(t, s.gateways[key], key)
    requires var listeners := s.gateways[key].listeners;
             Mapped(listeners, ListenerConfigOf(s, key.0)) == Mapped(listeners, ListenerConfigOf(t, key.0))
             ==> RefsResolved(s, key.0, listeners) == RefsResolved(t, key.0, listeners)
    ensures var listeners := s.gateways[key].listeners;
            ReconcileGateway(s, config, key, parse) == ReconcileGateway(t, config, key, parse)
            <==> Mapped(listeners, ListenerConfigOf(s, key.0)) == Mapped(listeners, ListenerConfigOf(t, key.0))
  {
    ConfigurableResult(s, config, key, parse);
    ConfigurableResult(t, config, key, parse);
    var gateway := s.gateways[key];
    if Mapped(gateway.listeners, ListenerConfigOf(s, key.0)) == Mapped(gateway.listeners, ListenerConfigOf(t, key.0)) {
      assert ConfigMapOf(gateway, key, s, parse) == ConfigMapOf(gateway, key, t, parse);
    } else {
      assert ConfigMapOf(gateway, key, s, parse).config.listeners != ConfigMapOf(gateway, key, t, parse).config.listeners;
    }
  }

  lemma {:induction false} ConfigurableResult(s: WorldSnapshot, config: ControllerConfig, key: Key, parse: DurationParser)
    requires Configurable(s, key)
    ensures var gateway := s.gateways[key];
            var result := ReconcileGateway(s, config, key, parse);
            && result.upserts != []
            && result.upserts[0] == ConfigMapOf(gateway, key, s, parse)
            && result.upserts[1..] == DataPlaneResources(gateway, key, s, config, parse)[1..]
            && result.statusUpdates == [UpdateGatewayStatus(key, AcceptedStatus(
                 s.now, gateway, DeriveGatewayAddresses(s, gateway, key), |RoutesForGateway(s, key)|, RefsResolved(s, key.0, gateway.listeners)))]
  {
  }

  /** Without certificate references nothing is lost. */
  lemma GatewaySnapshotSuffices(cluster: WorldSnapshot, config: ControllerConfig, key: Key, parse: DurationParser)
    requires WellKeyed(cluster)
    requires key in cluster.gateways ==> forall l :: l in cluster.gateways[key].listeners ==> CertificateRefs(l) == []
    ensures ReconcileGateway(GatewayProjection(cluster, key), config, key, parse) == ReconcileGateway(cluster, config, key, parse)
  {
    GatewaySnapshotSufficesIff(cluster, config, key, parse);
  }
}
