/** The functional core: from a snapshot to the effects to perform.  Conditions carry typed
    reasons in place of texts; the JSON in a ConfigMap is the configuration it encodes. */
module Reconcile {
  import opened Text
  import opened Words
  import opened Config
  import opened Ordering
  import opened Kube
  import opened Validate
  import opened Convert
  import opened Ports

  // Effects

  datatype StatusReason =
    | Verdict(reason: Reason)
    | Invalid
    | ListenersNotValid
    | Programmed
    | AddressNotAssigned
    | ResolvedRefs
    | InvalidCertificateRef

  datatype ConditionKind = IsAccepted | IsProgrammed | HasResolvedRefs

  datatype StatusCondition = StatusCondition(
    kind: ConditionKind,
    status: bool,
    observedGeneration: Option<int>,
    transition: int,
    reason: StatusReason)

  datatype ListenerStatus = ListenerStatus(
    name: string,
    attachedRoutes: nat,
    supportsHttpRoutes: bool,
    conditions: seq<StatusCondition>)

  datatype GatewayStatus = GatewayStatus(
    addresses: Option<seq<Address>>,
    conditions: seq<StatusCondition>,
    listeners: seq<ListenerStatus>)

  datatype ParentStatus = ParentStatus(parentRef: ParentRef, conditions: seq<StatusCondition>)

  datatype StatusUpdate =
    | UpdateGatewayStatus(gateway: Key, gatewayStatus: GatewayStatus)
    | UpdateRouteStatus(route: Key, parents: seq<ParentStatus>)

  datatype OwnerReference = OwnerReference(name: string, uid: string)

  datatype Resource =
    | ConfigMap(key: Key, owner: OwnerReference, config: ProxyConfig)
    | ServiceAccount(key: Key, owner: OwnerReference)
    | Role(key: Key, owner: OwnerReference, configMapName: string)
    | RoleBinding(key: Key, owner: OwnerReference, roleName: string, accountName: string)
    | ServiceResource(key: Key, owner: OwnerReference, servicePorts: seq<ServicePort>)
    | Deployment(key: Key, owner: OwnerReference, containerPorts: seq<ContainerPort>, image: string, replicas: int)

  datatype ResourceDelete = ResourceDelete(kind: string, namespace: Option<string>, name: string)

  datatype Requeue = After(seconds: nat) | OnError(seconds: nat) | Never

  datatype ReconcileResult = ReconcileResult(
    upserts: seq<Resource>,
    deletes: seq<ResourceDelete>,
    statusUpdates: seq<StatusUpdate>,
    requeue: Option<Requeue>)

  const NO_EFFECT := ReconcileResult([], [], [], None)

  datatype ControllerConfig = ControllerConfig(image: string, replicas: int, requeueAfter: nat)

  // TLS

  /** The certificate of a reference can be used: the reference is permitted and the Secret holds
      both texts. */
  predicate CertificateUsable(s: WorldSnapshot, gatewayNs: string, ref: SecretRef) {
    var key := (ref.namespace.GetOr(gatewayNs), ref.name);
    && (key.0 == gatewayNs || IsSecretReferenceAllowed(s, gatewayNs, key.0))
    && key in s.secrets && s.secrets[key].data.Some?
    && s.secrets[key].data.value.certPem.Some? && s.secrets[key].data.value.keyPem.Some?
  }

  function InlineCertificates(s: WorldSnapshot, gatewayNs: string, refs: seq<SecretRef>, hostnames: seq<string>): seq<InlineCertificate> {
    if refs == [] then []
    else
      var ref := refs[|refs| - 1];
      var before := InlineCertificates(s, gatewayNs, refs[..|refs| - 1], hostnames);
      if CertificateUsable(s, gatewayNs, ref) then
        var data := s.secrets[(ref.namespace.GetOr(gatewayNs), ref.name)].data.value;
        before + [InlineCertificate(data.certPem.value, data.keyPem.value, hostnames)]
      else before
  }

  function Hostnames(l: Listener): seq<string> {
    if l.hostname.Some? then [l.hostname.value] else []
  }

  function CertificateRefs(l: Listener): seq<SecretRef> {
    if l.tls.Some? then l.tls.value.certificateRefs.GetOr([]) else []
  }

  function ListenerTlsConfig(s: WorldSnapshot, gatewayNs: string, l: Listener): Option<TlsConfig> {
    if l.tls.None? then None
    else Some(TlsConfig(
      if l.tls.value.mode == Some(Passthrough) then Passthrough else Terminate,
      Mapped(CertificateRefs(l), (r: SecretRef) => CertificateRef(r.namespace.GetOr(gatewayNs), r.name)),
      InlineCertificates(s, gatewayNs, CertificateRefs(l), Hostnames(l))))
  }

  predicate ListenerRefsResolved(s: WorldSnapshot, gatewayNs: string, l: Listener) {
    forall ref :: ref in CertificateRefs(l) ==> CertificateUsable(s, gatewayNs, ref)
  }

  method ResolveListenerTls(l: Listener, gatewayNs: string, s: WorldSnapshot) returns (tls: Option<TlsConfig>, allResolved: bool)
    ensures tls == ListenerTlsConfig(s, gatewayNs, l)
    ensures allResolved == ListenerRefsResolved(s, gatewayNs, l)
  {
    if l.tls.None? {
      return None, true;
    }
    var mode := if l.tls.value.mode == Some(Passthrough) then Passthrough else Terminate;
    var refs := l.tls.value.certificateRefs.GetOr([]);
    var certificates: seq<CertificateRef> := [];
    var inlineCertificates: seq<InlineCertificate> := [];
    allResolved := true;
    for i := 0 to |refs|
      invariant |certificates| == i
      invariant forall j :: 0 <= j < i ==> certificates[j] == CertificateRef(refs[j].namespace.GetOr(gatewayNs), refs[j].name)
      invariant inlineCertificates == InlineCertificates(s, gatewayNs, refs[..i], Hostnames(l))
      invariant allResolved <==> forall j :: 0 <= j < i ==> CertificateUsable(s, gatewayNs, refs[j])
    {
      var ns, name := refs[i].namespace.GetOr(gatewayNs), refs[i].name;
      assert refs[..i + 1][..i] == refs[..i];
      certificates := certificates + [CertificateRef(ns, name)];
      if ns != gatewayNs && !IsSecretReferenceAllowed(s, gatewayNs, ns) {
        allResolved := false;
        continue;
      }
      if (ns, name) !in s.secrets {
        allResolved := false;
        continue;
      }
      var data := s.secrets[(ns, name)].data;
      if data.None? {
        allResolved := false;
        continue;
      }
      if data.value.certPem.Some? && data.value.keyPem.Some? {
        inlineCertificates := inlineCertificates + [InlineCertificate(data.value.certPem.value, data.value.keyPem.value, Hostnames(l))];
      } else {
        allResolved := false;
      }
    }
    assert refs[..|refs|] == refs;
    assert certificates == Mapped(refs, (r: SecretRef) => CertificateRef(r.namespace.GetOr(gatewayNs), r.name));
    tls := Some(TlsConfig(mode, certificates, inlineCertificates));
  }

  // The data plane's configuration

  function ListenerConfigOf(s: WorldSnapshot, gatewayNs: string): Listener -> ListenerConfig {
    (l: Listener) => ListenerConfig(
      l.name, AsU16(l.port), if Upper(l.protocol) == "HTTPS" then Https else Http, l.hostname, ListenerTlsConfig(s, gatewayNs, l))
  }

  /** For each listener name, whether its references resolved; a repeated name keeps the last. */
  function RefsResolved(s: WorldSnapshot, gatewayNs: string, listeners: seq<Listener>): map<string, bool> {
    if listeners == [] then map[]
    else
      var l := listeners[|listeners| - 1];
      RefsResolved(s, gatewayNs, listeners[..|listeners| - 1])[l.name := ListenerRefsResolved(s, gatewayNs, l)]
  }

  function GatewayConfigOf(gateway: Gateway, ns: string, s: WorldSnapshot, parse: DurationParser): ProxyConfig {
    ProxyConfig(
      "v1",
      GatewayRef(ns, gateway.meta.name),
      Mapped(gateway.listeners, ListenerConfigOf(s, ns)),
      Mapped(RoutesForGateway(s, (ns, gateway.meta.name)), ConvertedRoute(Names(gateway.listeners), parse)))
  }

  method BuildGatewayConfig(gateway: Gateway, ns: string, s: WorldSnapshot, parse: DurationParser)
    returns (config: ProxyConfig, refsResolved: map<string, bool>)
    ensures config == GatewayConfigOf(gateway, ns, s, parse)
    ensures refsResolved == RefsResolved(s, ns, gateway.listeners)
  {
    var listeners;
    listeners, refsResolved := BuildListeners(gateway.listeners, ns, s);
    var routes := ConvertRoutes(RoutesForGateway(s, (ns, gateway.meta.name)), Names(gateway.listeners), parse);
    config := ProxyConfig("v1", GatewayRef(ns, gateway.meta.name), listeners, routes);
  }

  method BuildListener(l: Listener, ns: string, s: WorldSnapshot) returns (config: ListenerConfig, resolved: bool)
    ensures config == ListenerConfigOf(s, ns)(l)
    ensures resolved == ListenerRefsResolved(s, ns, l)
  {
    var protocol := if Upper(l.protocol) == "HTTPS" then Https else Http;
    var tls;
    tls, resolved := ResolveListenerTls(l, ns, s);
    config := ListenerConfig(l.name, AsU16(l.port), protocol, l.hostname, tls);
  }

  method BuildListeners(sources: seq<Listener>, ns: string, s: WorldSnapshot)
    returns (listeners: seq<ListenerConfig>, refsResolved: map<string, bool>)
    ensures listeners == Mapped(sources, ListenerConfigOf(s, ns))
    ensures refsResolved == RefsResolved(s, ns, sources)
  {
    listeners, refsResolved := [], map[];
    for i := 0 to |sources|
      invariant listeners == Mapped(sources, ListenerConfigOf(s, ns))[..i]
      invariant refsResolved == RefsResolved(s, ns, sources[..i])
    {
      assert sources[..i + 1][..i] == sources[..i];
      var listener, resolved := BuildListener(sources[i], ns, s);
      refsResolved := refsResolved[sources[i].name := resolved];
      listeners := listeners + [listener];
    }
    assert sources[..|sources|] == sources;
  }

  method ConvertRoutes(attached: seq<HTTPRoute>, listeners: seq<string>, parse: DurationParser) returns (routes: seq<RouteConfig>)
    ensures routes == Mapped(attached, ConvertedRoute(listeners, parse))
  {
    routes := [];
    for i := 0 to |attached|
      invariant routes == Mapped(attached, ConvertedRoute(listeners, parse))[..i]
    {
      var route := ConvertHttpRoute(attached[i], listeners, parse);
      routes := routes + [route];
    }
  }

  // Resources

  function ServiceName(gatewayName: string): string { "multiway-dp-" + gatewayName }

  function ConfigMapName(gatewayName: string): string { "multiway-config-" + gatewayName }

  function OwnerOf(gateway: Gateway): OwnerReference {
    OwnerReference(gateway.meta.name, gateway.meta.uid)
  }

  function ConfigMapOf(gateway: Gateway, key: Key, s: WorldSnapshot, parse: DurationParser): Resource {
    ConfigMap((key.0, ConfigMapName(key.1)), OwnerOf(gateway), GatewayConfigOf(gateway, key.0, s, parse))
  }

  function DataPlaneResources(gateway: Gateway, key: Key, s: WorldSnapshot, config: ControllerConfig, parse: DurationParser): seq<Resource> {
    var owner := OwnerOf(gateway);
    var named := (key.0, ServiceName(key.1));
    [ ConfigMapOf(gateway, key, s, parse),
      ServiceAccount(named, owner),
      Role(named, owner, ConfigMapName(key.1)),
      RoleBinding(named, owner, ServiceName(key.1), ServiceName(key.1)),
      ServiceResource(named, owner, ServicePorts(gateway.listeners)),
      Deployment(named, owner, ContainerPorts(gateway.listeners), config.image, config.replicas) ]
  }

  // Status

  function IngressAddresses(ingress: seq<IngressEntry>): seq<Address> {
    if ingress == [] then []
    else
      var e := ingress[0];
      (if e.ip.Some? then [Address(Some("IPAddress"), e.ip.value)]
       else if e.hostname.Some? then [Address(Some("Hostname"), e.hostname.value)]
       else [])
      + IngressAddresses(ingress[1..])
  }

  /** Static addresses, else the load balancer's, else a node's, else the cluster IP. */
  function DeriveGatewayAddresses(s: WorldSnapshot, gateway: Gateway, key: Key): Option<seq<Address>> {
    if gateway.addresses.GetOr([]) != [] then gateway.addresses
    else
      match Lookup(s.services, (key.0, ServiceName(key.1)))
      case None => None
      case Some(service) =>
        var balanced := IngressAddresses(service.ingress.GetOr([]));
        var nodeIP := NodeInternalIP(SortedKeys(s.nodes.Keys), s.nodes);
        if balanced != [] then Some(balanced)
        else if nodeIP.Some? then Some([Address(Some("IPAddress"), nodeIP.value)])
        else if service.clusterIP.Some? && service.clusterIP.value != "" && service.clusterIP.value != "None" then
          Some([Address(Some("IPAddress"), service.clusterIP.value)])
        else None
  }

  function SupportsHttpRoutes(l: Listener): bool {
    Upper(l.protocol) == "HTTP" || Upper(l.protocol) == "HTTPS"
  }

  function RejectedStatus(now: int, gateway: Gateway, reason: StatusReason): GatewayStatus {
    var condition := (kind: ConditionKind, r: StatusReason) => StatusCondition(kind, false, gateway.meta.generation, now, r);
    GatewayStatus(
      None,
      [condition(IsAccepted, reason), condition(IsProgrammed, Invalid)],
      Mapped(gateway.listeners, (l: Listener) => ListenerStatus(
        l.name, 0, SupportsHttpRoutes(l),
        [condition(IsAccepted, reason), condition(HasResolvedRefs, reason), condition(IsProgrammed, Invalid)])))
  }

  function AcceptedStatus(
    now: int, gateway: Gateway, addresses: Option<seq<Address>>, attachedRoutes: nat, refsResolved: map<string, bool>): GatewayStatus
  {
    var condition := (kind: ConditionKind, status: bool, r: StatusReason) =>
      StatusCondition(kind, status, gateway.meta.generation, now, r);
    var programmed := condition(IsProgrammed, addresses.Some?, if addresses.Some? then Programmed else AddressNotAssigned);
    GatewayStatus(
      addresses,
      [condition(IsAccepted, true, Verdict(Accepted)), programmed],
      Mapped(gateway.listeners, (l: Listener) =>
        var resolved := if l.name in refsResolved then refsResolved[l.name] else true;
        ListenerStatus(
          l.name, attachedRoutes, SupportsHttpRoutes(l),
          [ condition(IsAccepted, true, Verdict(Accepted)),
            condition(HasResolvedRefs, resolved, if resolved then ResolvedRefs else InvalidCertificateRef),
            programmed ])))
  }

  // Gateways

  function ReconcileGateway(s: WorldSnapshot, config: ControllerConfig, key: Key, parse: DurationParser): ReconcileResult {
    if key !in s.gateways then NO_EFFECT
    else
      var gateway := s.gateways[key];
      if !HasAcceptedClass(s, gateway.className) then
        NO_EFFECT.(statusUpdates := [UpdateGatewayStatus(key, RejectedStatus(s.now, gateway, Invalid))], requeue := Some(After(30)))
      else if !ListenersValid(gateway.listeners) then
        NO_EFFECT.(statusUpdates := [UpdateGatewayStatus(key, RejectedStatus(s.now, gateway, ListenersNotValid))], requeue := Some(After(30)))
      else
        var status := AcceptedStatus(
          s.now, gateway, DeriveGatewayAddresses(s, gateway, key), |RoutesForGateway(s, key)|, RefsResolved(s, key.0, gateway.listeners));
        ReconcileResult(
          DataPlaneResources(gateway, key, s, config, parse), [], [UpdateGatewayStatus(key, status)], Some(After(config.requeueAfter)))
  }

  // Routes

  function ParentStatusOf(now: int, generation: Option<int>, v: ParentRefValidation): ParentStatus {
    ParentStatus(
      v.parentRef,
      [ StatusCondition(IsAccepted, v.accepted, generation, now, Verdict(v.reason)),
        StatusCondition(HasResolvedRefs, v.accepted, generation, now, if v.accepted then ResolvedRefs else Verdict(v.reason)) ])
  }

  function StatusForParent(s: WorldSnapshot, route: HTTPRoute, ref: ParentRef, routeNs: string): ParentStatus {
    ParentStatusOf(s.now, route.meta.generation, ParentVerdict(s, route, ref, routeNs))
  }

  function ParentStatuses(s: WorldSnapshot, route: HTTPRoute, refs: seq<ParentRef>, routeNs: string): (r: seq<ParentStatus>)
    ensures |r| == |refs|
    ensures forall i :: 0 <= i < |refs| ==> r[i] == StatusForParent(s, route, refs[i], routeNs)
  {
    Mapped(refs, (ref: ParentRef) => StatusForParent(s, route, ref, routeNs))
  }

  /** The parent's ConfigMap, if it accepts the route. */
  function UpsertForParent(s: WorldSnapshot, route: HTTPRoute, ref: ParentRef, routeNs: string, parse: DurationParser): seq<Resource> {
    var key := (ref.namespace.GetOr(routeNs), ref.name);
    if ParentVerdict(s, route, ref, routeNs).accepted && key in s.gateways then [ConfigMapOf(s.gateways[key], key, s, parse)] else []
  }

  function ParentConfigMaps(s: WorldSnapshot, route: HTTPRoute, refs: seq<ParentRef>, routeNs: string, parse: DurationParser): seq<Resource> {
    if refs == [] then []
    else ParentConfigMaps(s, route, refs[..|refs| - 1], routeNs, parse) + UpsertForParent(s, route, refs[|refs| - 1], routeNs, parse)
  }

  function HttpRouteResult(s: WorldSnapshot, config: ControllerConfig, key: Key, parse: DurationParser): ReconcileResult {
    if key !in s.httproutes then NO_EFFECT
    else
      var route := s.httproutes[key];
      var refs := route.parentRefs.GetOr([]);
      if refs == [] then NO_EFFECT.(requeue := Some(After(config.requeueAfter)))
      else ReconcileResult(
        ParentConfigMaps(s, route, refs, key.0, parse), [],
        [UpdateRouteStatus(key, ParentStatuses(s, route, refs, key.0))], Some(After(config.requeueAfter)))
  }

  method ReconcileParent(s: WorldSnapshot, route: HTTPRoute, ref: ParentRef, routeNs: string, parse: DurationParser)
    returns (status: ParentStatus, upserts: seq<Resource>)
    ensures status == StatusForParent(s, route, ref, routeNs)
    ensures upserts == UpsertForParent(s, route, ref, routeNs, parse)
  {
    var validation := ValidateParentRef(s, route, ref, routeNs);
    status := ParentStatusOf(s.now, route.meta.generation, validation);
    upserts := [];
    var parent := (ref.namespace.GetOr(routeNs), ref.name);
    if validation.accepted && parent in s.gateways {
      var gatewayConfig, _ := BuildGatewayConfig(s.gateways[parent], parent.0, s, parse);
      upserts := [ConfigMap((parent.0, ConfigMapName(parent.1)), OwnerOf(s.gateways[parent]), gatewayConfig)];
    }
  }

  lemma {:induction false} ParentConfigMapsStep(s: WorldSnapshot, route: HTTPRoute, refs: seq<ParentRef>, i: nat, routeNs: string, parse: DurationParser)
    requires i < |refs|
    ensures ParentConfigMaps(s, route, refs[..i + 1], routeNs, parse)
            == ParentConfigMaps(s, route, refs[..i], routeNs, parse) + UpsertForParent(s, route, refs[i], routeNs, parse)
  {
    assert refs[..i + 1][..i] == refs[..i];
  }

  method ReconcileParents(s: WorldSnapshot, route: HTTPRoute, refs: seq<ParentRef>, routeNs: string, parse: DurationParser)
    returns (parents: seq<ParentStatus>, upserts: seq<Resource>)
    ensures parents == ParentStatuses(s, route, refs, routeNs)
    ensures upserts == ParentConfigMaps(s, route, refs, routeNs, parse)
  {
    parents, upserts := [], [];
    for i := 0 to |refs|
      invariant parents == ParentStatuses(s, route, refs, routeNs)[..i]
      invariant upserts == ParentConfigMaps(s, route, refs[..i], routeNs, parse)
    {
      ParentConfigMapsStep(s, route, refs, i, routeNs, parse);
      var status, upsert := ReconcileParent(s, route, refs[i], routeNs, parse);
      parents, upserts := parents + [status], upserts + upsert;
    }
    assert refs[..|refs|] == refs;
  }

  method ReconcileHttpRoute(s: WorldSnapshot, config: ControllerConfig, key: Key, parse: DurationParser) returns (result: ReconcileResult)
    ensures result == HttpRouteResult(s, config, key, parse)
  {
    if key !in s.httproutes {
      return NO_EFFECT;
    }
    var route := s.httproutes[key];
    var refs := route.parentRefs.GetOr([]);
    if refs == [] {
      return NO_EFFECT.(requeue := Some(After(config.requeueAfter)));
    }
    var parents, upserts := ReconcileParents(s, route, refs, key.0, parse);
    result := ReconcileResult(upserts, [], [UpdateRouteStatus(key, parents)], Some(After(config.requeueAfter)));
  }
}
