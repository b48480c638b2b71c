/** What a parent's verdict on a route means, with every test written out on the objects it is about. */
module Verdicts {
  import opened Text
  import opened Ordering
  import opened Kube
  import opened Validate

  // The tests

  /** A class of this controller that has been accepted is stored under the name. */
  ghost predicate IsOurClass(s: WorldSnapshot, name: string) {
    && ("", name) in s.gatewayClasses
    && s.gatewayClasses[("", name)].controllerName == "io.multiway/gateway-controller"
    && exists c :: c in s.gatewayClasses[("", name)].conditions.GetOr([]) && c.kind == "Accepted" && c.status == "True"
  }

  ghost predicate NamesGateway(ref: ParentRef) {
    && (ref.group == None || ref.group == Some("gateway.networking.k8s.io"))
    && (ref.kind == None || ref.kind == Some("Gateway"))
  }

  ghost predicate ServesHttp(l: Listener) {
    SameText(l.protocol, "HTTP") || SameText(l.protocol, "HTTPS")
  }

  /** The listener serves HTTP and is the one, or one of those, that the reference asks for. */
  ghost predicate Fits(l: Listener, ref: ParentRef) {
    && (ref.sectionName == None || ref.sectionName == Some(l.name))
    && (ref.port == None || ref.port == Some(l.port))
    && ServesHttp(l)
  }

  /** The listener's own policy takes routes of the namespace. */
  ghost predicate Takes(l: Listener, gatewayNs: string, routeNs: string) {
    var policy := if l.allowedRoutes.Some? then l.allowedRoutes.value.namespaces else None;
    var from := if policy.Some? then policy.value.from else None;
    if from == Some(All) then true
    else if from == Some(Selector) && policy.value.selector.Some?
    then exists key :: key in policy.value.selector.value.matchLabels.GetOr(map[])
    else routeNs == gatewayNs
  }

  /** A grant in the target's namespace names the source and the kind of target. */
  ghost predicate Granted(s: WorldSnapshot, fromNs: string, fromKind: string, toNs: string, toGroup: string, toKind: string) {
    exists k, f, t ::
      && k in s.referenceGrants && s.referenceGrants[k].meta.namespace == Some(toNs)
      && f in s.referenceGrants[k].from && t in s.referenceGrants[k].to
      && f.group == "gateway.networking.k8s.io" && f.kind == fromKind && f.namespace == fromNs
      && t.group == toGroup && t.kind == toKind
  }

  ghost predicate Permits(s: WorldSnapshot, gateway: Gateway, ref: ParentRef, routeNs: string) {
    var gatewayNs := gateway.meta.namespace.GetOr("");
    || (exists l :: l in gateway.listeners && Fits(l, ref) && Takes(l, gatewayNs, routeNs))
    || routeNs == gatewayNs
    || Granted(s, routeNs, "HTTPRoute", gatewayNs, "gateway.networking.k8s.io", "Gateway")
  }

  /** What is wrong with a reference to a backend: it is to no core Service, to one that does not exist, or
      to one of another namespace that no grant permits. */
  ghost function Complaint(s: WorldSnapshot, routeNs: string, b: BackendRef): Option<Reason> {
    var ns := if b.namespace.Some? then b.namespace.value else routeNs;
    if (b.group.Some? && b.group.value != "") || (b.kind.Some? && b.kind.value != "Service") then Some(InvalidBackendRef)
    else if (ns, b.name) !in s.services then Some(BackendNotFound)
    else if ns != routeNs && !Granted(s, routeNs, "HTTPRoute", ns, "", "Service") then Some(RefNotPermitted)
    else None
  }

  /** Position `j` of rule `i` holds the first reference that there is a complaint about. */
  ghost predicate FirstComplaint(s: WorldSnapshot, routeNs: string, rules: seq<SourceRule>, i: nat, j: nat) {
    && i < |rules| && j < |rules[i].backendRefs.GetOr([])|
    && Complaint(s, routeNs, rules[i].backendRefs.GetOr([])[j]).Some?
    && (forall m: nat :: m < j ==> Complaint(s, routeNs, rules[i].backendRefs.GetOr([])[m]) == None)
    && (forall k: nat, m: nat :: k < i && m < |rules[k].backendRefs.GetOr([])| ==>
          Complaint(s, routeNs, rules[k].backendRefs.GetOr([])[m]) == None)
  }

  ghost predicate NoComplaint(s: WorldSnapshot, routeNs: string, rules: seq<SourceRule>) {
    forall k: nat, m: nat :: k < |rules| && m < |rules[k].backendRefs.GetOr([])| ==>
      Complaint(s, routeNs, rules[k].backendRefs.GetOr([])[m]) == None
  }

  function ParentOf(ref: ParentRef, routeNs: string): Key {
    (if ref.namespace.Some? then ref.namespace.value else routeNs, ref.name)
  }

  /** All tests together. */
  ghost predicate Acceptable(s: WorldSnapshot, route: HTTPRoute, ref: ParentRef, routeNs: string) {
    && NamesGateway(ref) && ParentOf(ref, routeNs) in s.gateways
    && var gateway := s.gateways[ParentOf(ref, routeNs)];
       && IsOurClass(s, gateway.className)
       && (exists l :: l in gateway.listeners && Fits(l, ref))
       && Permits(s, gateway, ref, routeNs)
       && NoComplaint(s, routeNs, route.rules.GetOr([]))
  }

  /** The reason is that of the first test that fails, in this order. */
  ghost predicate IsReason(s: WorldSnapshot, route: HTTPRoute, ref: ParentRef, routeNs: string, reason: Reason) {
    if !NamesGateway(ref) then reason == InvalidParentRef
    else if ParentOf(ref, routeNs) !in s.gateways then reason == NoMatchingParent
    else
      var gateway := s.gateways[ParentOf(ref, routeNs)];
      if !IsOurClass(s, gateway.className) then reason == NotAllowedByGateway
      else if !exists l :: l in gateway.listeners && Fits(l, ref) then reason == NoMatchingListenerHostname
      else if !Permits(s, gateway, ref, routeNs) then reason == RefNotPermitted
      else if NoComplaint(s, routeNs, route.rules.GetOr([])) then reason == Accepted
      else
        exists i: nat, j: nat ::
          && FirstComplaint(s, routeNs, route.rules.GetOr([]), i, j)
          && Complaint(s, routeNs, route.rules.GetOr([])[i].backendRefs.GetOr([])[j]) == Some(reason)
  }

  // Each is what the validator tests

  lemma UpperIs(s: string, t: string)
    requires forall i :: 0 <= i < |t| ==> 'A' <= t[i] <= 'Z'
    ensures Upper(s) == t <==> SameText(s, t)
  {
    if Upper(s) == t {
      assert |Upper(s)| == |t|;
      assert forall i :: 0 <= i < |s| ==> Upper(s)[i] == t[i];
    }
  }

  lemma ServesHttpIff(l: Listener)
    ensures Upper(l.protocol) == "HTTP" <==> SameText(l.protocol, "HTTP")
    ensures Upper(l.protocol) == "HTTPS" <==> SameText(l.protocol, "HTTPS")
  {
    UpperIs(l.protocol, "HTTP");
    UpperIs(l.protocol, "HTTPS");
  }

  lemma FitsIff(l: Listener, ref: ParentRef)
    ensures ListenerMatches(l, ref.sectionName, ref.port) <==> Fits(l, ref)
  {
    ServesHttpIff(l);
  }

  lemma TakesIff(l: Listener, gatewayNs: string, routeNs: string)
    ensures ListenerAdmits(l, gatewayNs, routeNs) <==> Takes(l, gatewayNs, routeNs)
  {
    ListenerAdmitsIff(l, gatewayNs, routeNs);
  }

  lemma GrantedIff(s: WorldSnapshot, fromNs: string, fromKind: string, toNs: string, toGroup: string, toKind: string)
    ensures IsReferenceAllowed(s, fromNs, fromKind, toNs, toGroup, toKind) <==> Granted(s, fromNs, fromKind, toNs, toGroup, toKind)
  {
    forall k | k in s.referenceGrants && GrantAllows(s.referenceGrants[k], fromNs, fromKind, toNs, toGroup, toKind)
      ensures Granted(s, fromNs, fromKind, toNs, toGroup, toKind)
    {
      var f :| f in s.referenceGrants[k].from && f == GrantFrom(GATEWAY_GROUP, fromKind, fromNs);
      var t :| t in s.referenceGrants[k].to && t.group == toGroup && t.kind == toKind;
    }
    if k, f, t :| && k in s.referenceGrants && s.referenceGrants[k].meta.namespace == Some(toNs)
                  && f in s.referenceGrants[k].from && t in s.referenceGrants[k].to
                  && f.group == "gateway.networking.k8s.io" && f.kind == fromKind && f.namespace == fromNs
                  && t.group == toGroup && t.kind == toKind
    {
      assert f == GrantFrom(GATEWAY_GROUP, fromKind, fromNs);
      assert GrantAllows(s.referenceGrants[k], fromNs, fromKind, toNs, toGroup, toKind);
    }
  }

  lemma ComplaintIs(s: WorldSnapshot, routeNs: string, b: BackendRef)
    ensures ValidateBackend(s, routeNs, b) == Complaint(s, routeNs, b)
  {
    GrantedIff(s, routeNs, "HTTPRoute", b.namespace.GetOr(routeNs), "", "Service");
  }

  lemma PermitsIff(s: WorldSnapshot, gateway: Gateway, ref: ParentRef, routeNs: string)
    ensures var gatewayNs := gateway.meta.namespace.GetOr("");
            NamespacePermitted(s, FindMatchingListeners(gateway.listeners, ref.sectionName, ref.port), gatewayNs, routeNs)
            <==> Permits(s, gateway, ref, routeNs)
  {
    var gatewayNs := gateway.meta.namespace.GetOr("");
    GrantedIff(s, routeNs, "HTTPRoute", gatewayNs, GATEWAY_GROUP, "Gateway");
    forall l
      ensures ListenerMatches(l, ref.sectionName, ref.port) <==> Fits(l, ref)
      ensures ListenerAdmits(l, gatewayNs, routeNs) <==> Takes(l, gatewayNs, routeNs)
    {
      FitsIff(l, ref);
      TakesIff(l, gatewayNs, routeNs);
    }
  }

  lemma {:induction false} BackendErrorIs(s: WorldSnapshot, routeNs: string, backends: seq<BackendRef>) returns (j: nat)
    ensures FirstBackendError(s, routeNs, backends) == if j < |backends| then Complaint(s, routeNs, backends[j]) else None
    ensures j <= |backends| && (j < |backends| ==> Complaint(s, routeNs, backends[j]).Some?)
    ensures forall m: nat :: m < j ==> Complaint(s, routeNs, backends[m]) == None
  {
    if backends == [] {
      j := 0;
    } else {
      ComplaintIs(s, routeNs, backends[0]);
      if Complaint(s, routeNs, backends[0]).Some? {
        j := 0;
      } else {
        var k := BackendErrorIs(s, routeNs, backends[1..]);
        j := k + 1;
        forall m: nat | m < j
          ensures Complaint(s, routeNs, backends[m]) == None
        {
          assert m > 0 ==> backends[m] == backends[1..][m - 1];
        }
      }
    }
  }

  lemma {:induction false} RuleErrorIs(s: WorldSnapshot, routeNs: string, rules: seq<SourceRule>) returns (i: nat, j: nat)
    ensures if FirstRuleError(s, routeNs, rules).None? then NoComplaint(s, routeNs, rules)
            else FirstComplaint(s, routeNs, rules, i, j)
                 && FirstRuleError(s, routeNs, rules) == Complaint(s, routeNs, rules[i].backendRefs.GetOr([])[j])
  {
    if rules == [] {
      i, j := 0, 0;
    } else {
      j := BackendErrorIs(s, routeNs, rules[0].backendRefs.GetOr([]));
      if FirstBackendError(s, routeNs, rules[0].backendRefs.GetOr([])).Some? {
        i := 0;
      } else {
        var k, m := RuleErrorIs(s, routeNs, rules[1..]);
        i, j := k + 1, m;
        LaterComplaint(s, routeNs, rules, k, m);
      }
    }
  }

  lemma LaterComplaint(s: WorldSnapshot, routeNs: string, rules: seq<SourceRule>, k: nat, m: nat)
    requires rules != []
    requires forall j: nat :: j < |rules[0].backendRefs.GetOr([])| ==> Complaint(s, routeNs, rules[0].backendRefs.GetOr([])[j]) == None
    ensures NoComplaint(s, routeNs, rules[1..]) ==> NoComplaint(s, routeNs, rules)
    ensures FirstComplaint(s, routeNs, rules[1..], k, m) ==> FirstComplaint(s, routeNs, rules, k + 1, m)
  {
    assert forall i: nat :: 0 < i < |rules| ==> rules[i] == rules[1..][i - 1];
  }

  /** The verdict on one parent reference carries it, accepts exactly when all tests succeed, and otherwise
      gives the reason of the first that fails; it attaches the listeners that fit. */
  lemma {:induction false} VerdictMeans(s: WorldSnapshot, route: HTTPRoute, ref: ParentRef, routeNs: string)
    ensures var v := ParentVerdict(s, route, ref, routeNs);
            && v.parentRef == ref
            && (v.accepted <==> Acceptable(s, route, ref, routeNs))
            && IsReason(s, route, ref, routeNs, v.reason)
            && v.attachedListeners == if v.accepted then Names(Fitting(s.gateways[ParentOf(ref, routeNs)].listeners, ref)) else []
  {
    var key := ParentOf(ref, routeNs);
    var i, j := RuleErrorIs(s, routeNs, route.rules.GetOr([]));
    if FirstRuleError(s, routeNs, route.rules.GetOr([])).Some? {
      assert !NoComplaint(s, routeNs, route.rules.GetOr([]));
    }
    if key in s.gateways {
      var gateway := s.gateways[key];
      PermitsIff(s, gateway, ref, routeNs);
      MatchingIff(gateway.listeners, ref);
      FittingIs(gateway.listeners, ref);
    }
  }

  /** The listeners that fit, in order. */
  ghost function Fitting(listeners: seq<Listener>, ref: ParentRef): seq<Listener> {
    if listeners == [] then []
    else
      var n := |listeners| - 1;
      Fitting(listeners[..n], ref) + (if Fits(listeners[n], ref) then [listeners[n]] else [])
  }

  lemma {:induction false} FittingIs(listeners: seq<Listener>, ref: ParentRef)
    ensures FindMatchingListeners(listeners, ref.sectionName, ref.port) == Fitting(listeners, ref)
  {
    if listeners == [] {
    } else {
      var n := |listeners| - 1;
      FittingIs(listeners[..n], ref);
      MatchesInOrder(listeners, n, ref.sectionName, ref.port);
      FitsIff(listeners[n], ref);
      assert listeners[..n + 1] == listeners;
    }
  }

  lemma {:induction false} MatchingIff(listeners: seq<Listener>, ref: ParentRef)
    ensures FindMatchingListeners(listeners, ref.sectionName, ref.port) != [] <==> exists l :: l in listeners && Fits(l, ref)
  {
    var matching := FindMatchingListeners(listeners, ref.sectionName, ref.port);
    forall l
      ensures ListenerMatches(l, ref.sectionName, ref.port) <==> Fits(l, ref)
    {
      FitsIff(l, ref);
    }
    if matching != [] {
      assert matching[0] in matching;
    }
  }
}
