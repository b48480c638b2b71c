/** ReferenceGrants that name their targets.  The Gateway API lets a grant name one resource; the
    snapshot's check reads only the target's group and kind.  Here is where that matters. */
module Grants {
  import opened Text
  import opened Kube
  import opened Validate
  import opened Reconcile

  // The check as the Gateway API defines it

  predicate TargetAllows(t: GrantTo, toGroup: string, toKind: string, name: string) {
    t.group == toGroup && t.kind == toKind && (t.name.None? || t.name.value == name)
  }

  predicate NamedGrantAllows(
    grant: ReferenceGrant, fromNs: string, fromKind: string, toNs: string, toGroup: string, toKind: string, name: string)
  {
    && grant.meta.namespace == Some(toNs)
    && (exists f :: f in grant.from && f == GrantFrom(GATEWAY_GROUP, fromKind, fromNs))
    && (exists t :: t in grant.to && TargetAllows(t, toGroup, toKind, name))
  }

  predicate IsNameAllowed(
    s: WorldSnapshot, fromNs: string, fromKind: string, toNs: string, toGroup: string, toKind: string, name: string)
  {
    exists k :: k in s.referenceGrants && NamedGrantAllows(s.referenceGrants[k], fromNs, fromKind, toNs, toGroup, toKind, name)
  }

  /** Some grant allows the kind, but all targets of that kind in such grants are named otherwise. */
  predicate OnlyOthersAllowed(
    s: WorldSnapshot, fromNs: string, fromKind: string, toNs: string, toGroup: string, toKind: string, name: string)
  {
    && IsReferenceAllowed(s, fromNs, fromKind, toNs, toGroup, toKind)
    && forall k, t ::
         k in s.referenceGrants && GrantAllows(s.referenceGrants[k], fromNs, fromKind, toNs, toGroup, toKind)
         && t in s.referenceGrants[k].to && t.group == toGroup && t.kind == toKind
         ==> t.name.Some? && t.name.value != name
  }

  /** The check for a kind agrees with the check for a name except where only others are allowed. */
  lemma ReferenceNameIff(
    s: WorldSnapshot, fromNs: string, fromKind: string, toNs: string, toGroup: string, toKind: string, name: string)
    ensures IsReferenceAllowed(s, fromNs, fromKind, toNs, toGroup, toKind)
            == IsNameAllowed(s, fromNs, fromKind, toNs, toGroup, toKind, name)
            <==> !OnlyOthersAllowed(s, fromNs, fromKind, toNs, toGroup, toKind, name)
  {
    forall k, t |
      k in s.referenceGrants && GrantAllows(s.referenceGrants[k], fromNs, fromKind, toNs, toGroup, toKind)
      && t in s.referenceGrants[k].to && TargetAllows(t, toGroup, toKind, name)
      ensures IsNameAllowed(s, fromNs, fromKind, toNs, toGroup, toKind, name)
    {
      assert NamedGrantAllows(s.referenceGrants[k], fromNs, fromKind, toNs, toGroup, toKind, name);
    }
    if k :| k in s.referenceGrants && NamedGrantAllows(s.referenceGrants[k], fromNs, fromKind, toNs, toGroup, toKind, name) {
      var t :| t in s.referenceGrants[k].to && TargetAllows(t, toGroup, toKind, name);
      assert GrantAllows(s.referenceGrants[k], fromNs, fromKind, toNs, toGroup, toKind);
    }
  }

  // What rests on it

  predicate BackendValidByName(s: WorldSnapshot, routeNs: string, b: BackendRef) {
    var ns := b.namespace.GetOr(routeNs);
    && b.group.GetOr("") == "" && b.kind.GetOr("Service") == "Service"
    && (ns, b.name) in s.services
    && (ns == routeNs || IsNameAllowed(s, routeNs, "HTTPRoute", ns, "", "Service", b.name))
  }

  /** The backend lies in another namespace, which allows only other Services. */
  predicate BackendNotNamed(s: WorldSnapshot, routeNs: string, b: BackendRef) {
    var ns := b.namespace.GetOr(routeNs);
    ns != routeNs && OnlyOthersAllowed(s, routeNs, "HTTPRoute", ns, "", "Service", b.name)
  }

  /** A backend passes validation although no grant names it exactly when it is an existing Service
      of a namespace that allows only other Services. */
  lemma BackendNameIff(s: WorldSnapshot, routeNs: string, b: BackendRef)
    ensures ValidateBackend(s, routeNs, b).None? == BackendValidByName(s, routeNs, b)
            <==> !(BackendValid(s, routeNs, b) && BackendNotNamed(s, routeNs, b))
  {
    ReferenceNameIff(s, routeNs, "HTTPRoute", b.namespace.GetOr(routeNs), "", "Service", b.name);
  }

  predicate CertificateUsableByName(s: WorldSnapshot, gatewayNs: string, ref: SecretRef) {
    var key := (ref.namespace.GetOr(gatewayNs), ref.name);
    && (key.0 == gatewayNs || IsNameAllowed(s, gatewayNs, "Gateway", key.0, "", "Secret", key.1))
    && key in s.secrets && s.secrets[key].data.Some?
    && s.secrets[key].data.value.certPem.Some? && s.secrets[key].data.value.keyPem.Some?
  }

  /** The same of certificates. */
  lemma CertificateNameIff(s: WorldSnapshot, gatewayNs: string, ref: SecretRef)
    ensures var ns := ref.namespace.GetOr(gatewayNs);
            CertificateUsable(s, gatewayNs, ref) == CertificateUsableByName(s, gatewayNs, ref)
            <==> !(CertificateUsable(s, gatewayNs, ref) && ns != gatewayNs
                   && OnlyOthersAllowed(s, gatewayNs, "Gateway", ns, "", "Secret", ref.name))
  {
    ReferenceNameIff(s, gatewayNs, "Gateway", ref.namespace.GetOr(gatewayNs), "", "Secret", ref.name);
  }

  /** Acceptance by a parent, with every grant read by name. */
  ghost predicate AcceptedByName(s: WorldSnapshot, route: HTTPRoute, ref: ParentRef, routeNs: string) {
    var key := (ref.namespace.GetOr(routeNs), ref.name);
    && IsGatewayParent(ref) && key in s.gateways
    && var gateway := s.gateways[key];
       var matching := FindMatchingListeners(gateway.listeners, ref.sectionName, ref.port);
       var gatewayNs := gateway.meta.namespace.GetOr("");
       && HasAcceptedClass(s, gateway.className)
       && (exists l :: l in gateway.listeners && ListenerMatches(l, ref.sectionName, ref.port))
       && (|| (exists l :: l in matching && ListenerAdmits(l, gatewayNs, routeNs))
           || routeNs == gatewayNs
           || IsNameAllowed(s, routeNs, "HTTPRoute", gatewayNs, GATEWAY_GROUP, "Gateway", ref.name))
       && forall b :: RouteUsesBackend(route.rules.GetOr([]), b) ==> BackendValidByName(s, routeNs, b)
  }

  /** The Gateway is in another namespace, no listener admits the route's, and only other Gateways
      are allowed. */
  predicate GatewayNotNamed(s: WorldSnapshot, gateway: Gateway, ref: ParentRef, routeNs: string) {
    var matching := FindMatchingListeners(gateway.listeners, ref.sectionName, ref.port);
    var gatewayNs := gateway.meta.namespace.GetOr("");
    && (forall l :: l in matching ==> !ListenerAdmits(l, gatewayNs, routeNs))
    && routeNs != gatewayNs
    && OnlyOthersAllowed(s, routeNs, "HTTPRoute", gatewayNs, GATEWAY_GROUP, "Gateway", ref.name)
  }

  /** A parent accepts a route that it should refuse exactly when the grants name another Gateway, or
      other Services than some backend of the route. */
  lemma AcceptanceNameIff(s: WorldSnapshot, route: HTTPRoute, ref: ParentRef, routeNs: string)
    ensures var accepted := ParentVerdict(s, route, ref, routeNs).accepted;
            var key := (ref.namespace.GetOr(routeNs), ref.name);
            accepted == AcceptedByName(s, route, ref, routeNs)
            <==> !(accepted && key in s.gateways
                   && (GatewayNotNamed(s, s.gateways[key], ref, routeNs)
                       || exists b :: RouteUsesBackend(route.rules.GetOr([]), b) && BackendNotNamed(s, routeNs, b)))
  {
    AcceptedIff(s, route, ref, routeNs);
    forall b
      ensures BackendValidByName(s, routeNs, b) <==> BackendValid(s, routeNs, b) && !BackendNotNamed(s, routeNs, b)
    {
      NamedImpliesKind(s, routeNs, "HTTPRoute", b.namespace.GetOr(routeNs), "", "Service", b.name);
    }
    var key := (ref.namespace.GetOr(routeNs), ref.name);
    if key in s.gateways {
      NamedImpliesKind(s, routeNs, "HTTPRoute", s.gateways[key].meta.namespace.GetOr(""), GATEWAY_GROUP, "Gateway", ref.name);
    }
  }

  lemma NamedImpliesKind(
    s: WorldSnapshot, fromNs: string, fromKind: string, toNs: string, toGroup: string, toKind: string, name: string)
    ensures IsNameAllowed(s, fromNs, fromKind, toNs, toGroup, toKind, name)
            <==> IsReferenceAllowed(s, fromNs, fromKind, toNs, toGroup, toKind)
                 && !OnlyOthersAllowed(s, fromNs, fromKind, toNs, toGroup, toKind, name)
  {
    ReferenceNameIff(s, fromNs, fromKind, toNs, toGroup, toKind, name);
    if k :| k in s.referenceGrants && NamedGrantAllows(s.referenceGrants[k], fromNs, fromKind, toNs, toGroup, toKind, name) {
      assert GrantAllows(s.referenceGrants[k], fromNs, fromKind, toNs, toGroup, toKind);
    }
  }

  const OTHER_GRANT := ReferenceGrant(
    Meta("g", Some("b"), None, ""), [GrantFrom(GATEWAY_GROUP, "HTTPRoute", "a")], [GrantTo("", "Service", Some("other"))])

  const OTHER_GRANTED := EmptySnapshot(0).(
    services := map[("b", "mine") := Service(Meta("mine", Some("b"), None, ""), None, None)],
    referenceGrants := map[("b", "g") := OTHER_GRANT])

  /** An input: namespace "b" allows its Service "other", and the Service "mine" beside it passes. */
  lemma GrantForAnotherService()
    ensures var mine := BackendRef(None, None, Some("b"), "mine", None, None);
            WellKeyed(OTHER_GRANTED) && ValidateBackend(OTHER_GRANTED, "a", mine).None? && !BackendValidByName(OTHER_GRANTED, "a", mine)
  {
    assert OTHER_GRANT.from[0] in OTHER_GRANT.from && OTHER_GRANT.to[0] in OTHER_GRANT.to;
    assert GrantAllows(OTHER_GRANTED.referenceGrants[("b", "g")], "a", "HTTPRoute", "b", "", "Service");
  }
}
