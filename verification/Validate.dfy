/** Validation of Gateways and HTTPRoutes against a snapshot. */
module Validate {
  import opened Text
  import opened Kube

  datatype Reason =
    | Accepted
    | InvalidTLS
    | UnsupportedProtocol
    | InvalidPort
    | InvalidParentRef
    | NoMatchingParent
    | NotAllowedByGateway
    | NoMatchingListenerHostname
    | RefNotPermitted
    | InvalidBackendRef
    | BackendNotFound

  function UpperChar(c: char): char {
    if 'a' <= c <= 'z' then (c as int - 32) as char else c
  }

  function Upper(s: string): (r: string)
    ensures |r| == |s|
  {
    seq(|s|, i requires 0 <= i < |s| => UpperChar(s[i]))
  }

  // Gateway classes and listeners

  predicate IsGatewayClassAccepted(gc: GatewayClass) {
    gc.controllerName == CONTROLLER_NAME
    && exists c :: c in gc.conditions.GetOr([]) && c.kind == "Accepted" && c.status == "True"
  }

  predicate HasAcceptedClass(s: WorldSnapshot, className: string) {
    ("", className) in s.gatewayClasses && IsGatewayClassAccepted(s.gatewayClasses[("", className)])
  }

  datatype ListenerResult = ListenerResult(name: string, valid: bool, reason: Reason)

  /** The TLS section is judged before the protocol, and the protocol before the port. */
  function ValidateSingleListener(l: Listener): (r: ListenerResult)
    ensures r.valid <==> ((Upper(l.protocol) == "HTTP" && l.tls.None?) || (Upper(l.protocol) == "HTTPS" && l.tls.Some?))
                         && 0 < l.port <= 65535
    ensures r.name == l.name && (r.valid <==> r.reason == Accepted)
    ensures r.reason == InvalidTLS <==> Upper(l.protocol) == (if l.tls.Some? then "HTTP" else "HTTPS")
    ensures r.reason == UnsupportedProtocol <==> Upper(l.protocol) !in ["HTTP", "HTTPS"]
    ensures !r.valid ==> r.reason in [InvalidTLS, UnsupportedProtocol, InvalidPort]
  {
    var protocol := Upper(l.protocol);
    if protocol == "HTTP" && l.tls.Some? then ListenerResult(l.name, false, InvalidTLS)
    else if protocol == "HTTPS" && l.tls.None? then ListenerResult(l.name, false, InvalidTLS)
    else if protocol != "HTTP" && protocol != "HTTPS" then ListenerResult(l.name, false, UnsupportedProtocol)
    else if l.port <= 0 || l.port > 65535 then ListenerResult(l.name, false, InvalidPort)
    else ListenerResult(l.name, true, Accepted)
  }

  predicate ListenersValid(listeners: seq<Listener>) {
    forall i :: 0 <= i < |listeners| ==> ValidateSingleListener(listeners[i]).valid
  }

  method ValidateListeners(listeners: seq<Listener>) returns (allValid: bool, results: seq<ListenerResult>)
    ensures allValid <==> ListenersValid(listeners)
    ensures |results| == |listeners|
    ensures forall i :: 0 <= i < |listeners| ==> results[i] == ValidateSingleListener(listeners[i])
  {
    allValid, results := true, [];
    for i := 0 to |listeners|
      invariant |results| == i
      invariant forall j :: 0 <= j < i ==> results[j] == ValidateSingleListener(listeners[j])
      invariant allValid <==> forall j :: 0 <= j < i ==> results[j].valid
    {
      var result := ValidateSingleListener(listeners[i]);
      if !result.valid {
        allValid := false;
      }
      results := results + [result];
    }
  }

  // Route namespaces

  datatype AllowedNamespaces =
    | AllNamespaces
    | SameNamespace(namespace: string)
    | SelectedNamespaces(matchLabels: map<string, string>)

  function GetAllowedRouteNamespaces(l: Listener, gatewayNs: string): AllowedNamespaces {
    if l.allowedRoutes.None? || l.allowedRoutes.value.namespaces.None? then SameNamespace(gatewayNs)
    else
      var policy := l.allowedRoutes.value.namespaces.value;
      match policy.from
      case None => SameNamespace(gatewayNs)
      case Some(All) => AllNamespaces
      case Some(Same) => SameNamespace(gatewayNs)
      case Some(Selector) =>
        match policy.selector
        case Some(selector) => SelectedNamespaces(selector.matchLabels.GetOr(map[]))
        case None => SameNamespace(gatewayNs)
  }

  predicate IsNamespaceAllowed(allowed: AllowedNamespaces, namespace: string) {
    match allowed
    case AllNamespaces => true
    case SameNamespace(ns) => namespace == ns
    case SelectedNamespaces(matchLabels) => matchLabels != map[]
  }

  predicate ListenerAdmits(l: Listener, gatewayNs: string, routeNs: string) {
    IsNamespaceAllowed(GetAllowedRouteNamespaces(l, gatewayNs), routeNs)
  }

  /** All namespaces, a selector that has labels, or else the Gateway's own namespace. */
  lemma ListenerAdmitsIff(l: Listener, gatewayNs: string, routeNs: string)
    ensures var policy := if l.allowedRoutes.Some? then l.allowedRoutes.value.namespaces else None;
            var from := if policy.Some? then policy.value.from else None;
            ListenerAdmits(l, gatewayNs, routeNs)
            <==> || from == Some(All)
                 || (from == Some(Selector) && policy.value.selector.Some?
                     && exists key :: key in policy.value.selector.value.matchLabels.GetOr(map[]))
                 || (from != Some(All) && !(from == Some(Selector) && policy.value.selector.Some?) && routeNs == gatewayNs)
  {
    if l.allowedRoutes.Some? && l.allowedRoutes.value.namespaces.Some? && l.allowedRoutes.value.namespaces.value.selector.Some? {
      var labels := l.allowedRoutes.value.namespaces.value.selector.value.matchLabels.GetOr(map[]);
      assert labels != map[] <==> exists key :: key in labels by {
        if labels != map[] {
          assert labels.Keys != {};
        }
      }
    }
  }

  // Parent references

  predicate IsGatewayParent(ref: ParentRef) {
    ref.group.GetOr(GATEWAY_GROUP) == GATEWAY_GROUP && ref.kind.GetOr("Gateway") == "Gateway"
  }

  predicate ListenerMatches(l: Listener, sectionName: Option<string>, port: Option<int>) {
    && (sectionName.Some? ==> l.name == sectionName.value)
    && (port.Some? ==> l.port == port.value)
    && (Upper(l.protocol) == "HTTP" || Upper(l.protocol) == "HTTPS")
  }

  function FindMatchingListeners(listeners: seq<Listener>, sectionName: Option<string>, port: Option<int>): (r: seq<Listener>)
    ensures forall l :: l in r <==> l in listeners && ListenerMatches(l, sectionName, port)
  {
    if listeners == [] then []
    else
      (if ListenerMatches(listeners[0], sectionName, port) then [listeners[0]] else [])
      + FindMatchingListeners(listeners[1..], sectionName, port)
  }

  lemma {:induction false} MatchesConcat(a: seq<Listener>, b: seq<Listener>, sectionName: Option<string>, port: Option<int>)
    ensures FindMatchingListeners(a + b, sectionName, port)
            == FindMatchingListeners(a, sectionName, port) + FindMatchingListeners(b, sectionName, port)
  {
    if a == [] {
      assert a + b == b;
    } else {
      assert (a + b)[1..] == a[1..] + b;
      MatchesConcat(a[1..], b, sectionName, port);
    }
  }

  /** Each matching listener stands directly behind the matches before it, so that the matches keep
      their order and number; a listener that does not match adds nothing. */
  lemma {:induction false} MatchesInOrder(listeners: seq<Listener>, i: nat, sectionName: Option<string>, port: Option<int>)
    requires i < |listeners|
    ensures var before := FindMatchingListeners(listeners[..i], sectionName, port);
            var found := if ListenerMatches(listeners[i], sectionName, port) then [listeners[i]] else [];
            && FindMatchingListeners(listeners[..i + 1], sectionName, port) == before + found
            && before + found <= FindMatchingListeners(listeners, sectionName, port)
  {
    assert listeners[..i + 1] == listeners[..i] + [listeners[i]];
    assert listeners == listeners[..i + 1] + listeners[i + 1..];
    MatchesConcat(listeners[..i], [listeners[i]], sectionName, port);
    MatchesConcat(listeners[..i + 1], listeners[i + 1..], sectionName, port);
    assert [listeners[i]][1..] == [];
  }

  function Names(listeners: seq<Listener>): (names: seq<string>)
    ensures |names| == |listeners|
    ensures forall i :: 0 <= i < |listeners| ==> names[i] == listeners[i].name
  {
    seq(|listeners|, i requires 0 <= i < |listeners| => listeners[i].name)
  }

  /** What is wrong with a backend reference, if anything. */
  function ValidateBackend(s: WorldSnapshot, routeNs: string, b: BackendRef): (error: Option<Reason>)
    ensures error.None? <==> BackendValid(s, routeNs, b)
  {
    var ns := b.namespace.GetOr(routeNs);
    if b.group.GetOr("") != "" || b.kind.GetOr("Service") != "Service" then Some(InvalidBackendRef)
    else if (ns, b.name) !in s.services then Some(BackendNotFound)
    else if ns != routeNs && !IsServiceReferenceAllowed(s, routeNs, ns) then Some(RefNotPermitted)
    else None
  }

  predicate BackendValid(s: WorldSnapshot, routeNs: string, b: BackendRef) {
    var ns := b.namespace.GetOr(routeNs);
    && b.group.GetOr("") == "" && b.kind.GetOr("Service") == "Service"
    && (ns, b.name) in s.services
    && (ns == routeNs || IsServiceReferenceAllowed(s, routeNs, ns))
  }

  datatype ParentRefValidation = ParentRefValidation(
    parentRef: ParentRef,
    accepted: bool,
    reason: Reason,
    attachedListeners: seq<string>)

  function FirstBackendError(s: WorldSnapshot, routeNs: string, backends: seq<BackendRef>): Option<Reason> {
    if backends == [] then None
    else
      var error := ValidateBackend(s, routeNs, backends[0]);
      if error.Some? then error else FirstBackendError(s, routeNs, backends[1..])
  }

  function FirstRuleError(s: WorldSnapshot, routeNs: string, rules: seq<SourceRule>): Option<Reason> {
    if rules == [] then None
    else
      var error := FirstBackendError(s, routeNs, rules[0].backendRefs.GetOr([]));
      if error.Some? then error else FirstRuleError(s, routeNs, rules[1..])
  }

  predicate NamespacePermitted(s: WorldSnapshot, matching: seq<Listener>, gatewayNs: string, routeNs: string) {
    (exists l :: l in matching && ListenerAdmits(l, gatewayNs, routeNs))
    || routeNs == gatewayNs
    || IsGatewayReferenceAllowed(s, routeNs, gatewayNs)
  }

  /** The verdict on one parent reference, checks in the order of the source. */
  function ParentVerdict(s: WorldSnapshot, route: HTTPRoute, ref: ParentRef, routeNs: string): ParentRefValidation {
    var key := (ref.namespace.GetOr(routeNs), ref.name);
    if !IsGatewayParent(ref) then ParentRefValidation(ref, false, InvalidParentRef, [])
    else if key !in s.gateways then ParentRefValidation(ref, false, NoMatchingParent, [])
    else
      var gateway := s.gateways[key];
      var matching := FindMatchingListeners(gateway.listeners, ref.sectionName, ref.port);
      var error := FirstRuleError(s, routeNs, route.rules.GetOr([]));
      if !HasAcceptedClass(s, gateway.className) then ParentRefValidation(ref, false, NotAllowedByGateway, [])
      else if matching == [] then ParentRefValidation(ref, false, NoMatchingListenerHostname, [])
      else if !NamespacePermitted(s, matching, gateway.meta.namespace.GetOr(""), routeNs) then
        ParentRefValidation(ref, false, RefNotPermitted, [])
      else if error.Some? then ParentRefValidation(ref, false, error.value, [])
      else ParentRefValidation(ref, true, Accepted, Names(matching))
  }

  method ValidateParentRef(s: WorldSnapshot, route: HTTPRoute, ref: ParentRef, routeNs: string) returns (v: ParentRefValidation)
    ensures v == ParentVerdict(s, route, ref, routeNs)
  {
    var key := (ref.namespace.GetOr(routeNs), ref.name);
    if !IsGatewayParent(ref) {
      return ParentRefValidation(ref, false, InvalidParentRef, []);
    }
    if key !in s.gateways {
      return ParentRefValidation(ref, false, NoMatchingParent, []);
    }
    var gateway := s.gateways[key];
    if !HasAcceptedClass(s, gateway.className) {
      return ParentRefValidation(ref, false, NotAllowedByGateway, []);
    }
    var matching := FindMatchingListeners(gateway.listeners, ref.sectionName, ref.port);
    if matching == [] {
      return ParentRefValidation(ref, false, NoMatchingListenerHostname, []);
    }
    var gatewayNs := gateway.meta.namespace.GetOr("");
    var allowed := false;
    for i := 0 to |matching|
      invariant !allowed && forall j :: 0 <= j < i ==> !ListenerAdmits(matching[j], gatewayNs, routeNs)
    {
      if ListenerAdmits(matching[i], gatewayNs, routeNs) {
        assert matching[i] in matching;
        allowed := true;
        break;
      }
    }
    if !allowed && routeNs != gatewayNs {
      if !IsGatewayReferenceAllowed(s, routeNs, gatewayNs) {
        return ParentRefValidation(ref, false, RefNotPermitted, []);
      }
    }
    var rules := route.rules.GetOr([]);
    for i := 0 to |rules|
      invariant FirstRuleError(s, routeNs, rules[i..]) == FirstRuleError(s, routeNs, rules)
    {
      var backends := rules[i].backendRefs.GetOr([]);
      assert rules[i..][1..] == rules[i + 1..];
      for j := 0 to |backends|
        invariant FirstBackendError(s, routeNs, backends[j..]) == FirstBackendError(s, routeNs, backends)
      {
        assert backends[j..][1..] == backends[j + 1..];
        var error := ValidateBackend(s, routeNs, backends[j]);
        if error.Some? {
          return ParentRefValidation(ref, false, error.value, []);
        }
      }
    }
    v := ParentRefValidation(ref, true, Accepted, Names(matching));
  }

  lemma {:induction false} NoBackendErrorIff(s: WorldSnapshot, routeNs: string, backends: seq<BackendRef>)
    ensures FirstBackendError(s, routeNs, backends).None? <==> forall b :: b in backends ==> BackendValid(s, routeNs, b)
  {
    if backends == [] {
    } else {
      NoBackendErrorIff(s, routeNs, backends[1..]);
      assert backends == [backends[0]] + backends[1..];
    }
  }

  predicate RouteUsesBackend(rules: seq<SourceRule>, b: BackendRef) {
    exists r :: r in rules && b in r.backendRefs.GetOr([])
  }

  lemma {:induction false} NoRuleErrorIff(s: WorldSnapshot, routeNs: string, rules: seq<SourceRule>)
    ensures FirstRuleError(s, routeNs, rules).None? <==> forall b :: RouteUsesBackend(rules, b) ==> BackendValid(s, routeNs, b)
  {
    if rules == [] {
    } else {
      NoBackendErrorIff(s, routeNs, rules[0].backendRefs.GetOr([]));
      NoRuleErrorIff(s, routeNs, rules[1..]);
      assert rules == [rules[0]] + rules[1..];
      assert forall b :: RouteUsesBackend(rules, b) <==> b in rules[0].backendRefs.GetOr([]) || RouteUsesBackend(rules[1..], b);
    }
  }

  /** A parent accepts a route exactly when it is a Gateway that exists, its class is this controller's
      and accepted, a listener matches, the namespace is permitted, and every backend of every rule is valid. */
  lemma AcceptedIff(s: WorldSnapshot, route: HTTPRoute, ref: ParentRef, routeNs: string)
    ensures var v := ParentVerdict(s, route, ref, routeNs);
            var key := (ref.namespace.GetOr(routeNs), ref.name);
            v.accepted
            <==> && IsGatewayParent(ref)
                 && key in s.gateways
                 && var gateway := s.gateways[key];
                    var matching := FindMatchingListeners(gateway.listeners, ref.sectionName, ref.port);
                    && ("", gateway.className) in s.gatewayClasses
                    && s.gatewayClasses[("", gateway.className)].controllerName == "io.multiway/gateway-controller"
                    && (exists c :: c in s.gatewayClasses[("", gateway.className)].conditions.GetOr([])
                                    && c.kind == "Accepted" && c.status == "True")
                    && (exists l :: l in gateway.listeners && ListenerMatches(l, ref.sectionName, ref.port))
                    && NamespacePermitted(s, matching, gateway.meta.namespace.GetOr(""), routeNs)
                    && forall b :: RouteUsesBackend(route.rules.GetOr([]), b) ==> BackendValid(s, routeNs, b)
  {
    NoRuleErrorIff(s, routeNs, route.rules.GetOr([]));
    var key := (ref.namespace.GetOr(routeNs), ref.name);
    if key in s.gateways {
      var gateway := s.gateways[key];
      var matching := FindMatchingListeners(gateway.listeners, ref.sectionName, ref.port);
      assert matching != [] <==> exists l :: l in gateway.listeners && ListenerMatches(l, ref.sectionName, ref.port) by {
        if matching != [] {
          assert matching[0] in matching;
        }
      }
    }
  }

  ghost predicate SubMap<K, V>(m: map<K, V>, n: map<K, V>) {
    forall k :: k in m ==> k in n && n[k] == m[k]
  }

  /** Adding Services and ReferenceGrants never withdraws an acceptance. */
  lemma AcceptanceIsMonotone(s: WorldSnapshot, t: WorldSnapshot, route: HTTPRoute, ref: ParentRef, routeNs: string)
    requires s.gateways == t.gateways && s.gatewayClasses == t.gatewayClasses
    requires s.services.Keys <= t.services.Keys && SubMap(s.referenceGrants, t.referenceGrants)
    requires ParentVerdict(s, route, ref, routeNs).accepted
    ensures ParentVerdict(t, route, ref, routeNs) == ParentVerdict(s, route, ref, routeNs)
  {
    NoRuleErrorIff(s, routeNs, route.rules.GetOr([]));
    NoRuleErrorIff(t, routeNs, route.rules.GetOr([]));
    GrantsAreMonotone(s, t);
    forall b | RouteUsesBackend(route.rules.GetOr([]), b)
      ensures BackendValid(t, routeNs, b)
    {
      assert BackendValid(s, routeNs, b);
    }
  }

  lemma GrantsAreMonotone(s: WorldSnapshot, t: WorldSnapshot)
    requires SubMap(s.referenceGrants, t.referenceGrants)
    ensures forall fromNs, fromKind, toNs, toGroup, toKind ::
              IsReferenceAllowed(s, fromNs, fromKind, toNs, toGroup, toKind) ==> IsReferenceAllowed(t, fromNs, fromKind, toNs, toGroup, toKind)
  {
  }
}
