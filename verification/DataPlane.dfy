/** What is built for a Gateway's data plane: its listeners with their certificates, and resources that
    refer to each other and to no other Gateway's. */
module DataPlane {
  import opened Text
  import opened Config
  import opened Ordering
  import opened Kube
  import opened Verdicts
  import Validate
  import Convert
  import Ports
  import Reconcile
  import Sufficiency
  import Executor

  // Certificates

  function SecretKey(gatewayNs: string, ref: SecretRef): Key {
    (if ref.namespace.Some? then ref.namespace.value else gatewayNs, ref.name)
  }

  /** The Secret is the Gateway's namespace's own or granted to it, and holds both texts. */
  ghost predicate IsUsableSecret(s: WorldSnapshot, gatewayNs: string, ref: SecretRef) {
    var key := SecretKey(gatewayNs, ref);
    && (key.0 == gatewayNs || Granted(s, gatewayNs, "Gateway", key.0, "", "Secret"))
    && key in s.secrets && s.secrets[key].data != None
    && s.secrets[key].data.value.certPem != None && s.secrets[key].data.value.keyPem != None
  }

  /** What a reference adds: the texts of its Secret, for the listener's host names. */
  ghost function CertificateOf(s: WorldSnapshot, gatewayNs: string, hostname: Option<string>): SecretRef -> seq<InlineCertificate> {
    (ref: SecretRef) =>
      if IsUsableSecret(s, gatewayNs, ref) then
        var data := s.secrets[SecretKey(gatewayNs, ref)].data.value;
        [InlineCertificate(data.certPem.value, data.keyPem.value, if hostname.Some? then [hostname.value] else [])]
      else []
  }

  lemma UsableIff(s: WorldSnapshot, gatewayNs: string, ref: SecretRef)
    ensures Reconcile.CertificateUsable(s, gatewayNs, ref) <==> IsUsableSecret(s, gatewayNs, ref)
  {
    GrantedIff(s, gatewayNs, "Gateway", SecretKey(gatewayNs, ref).0, "", "Secret");
  }

  lemma {:induction false} InlineCertificatesAre(s: WorldSnapshot, gatewayNs: string, refs: seq<SecretRef>, hostname: Option<string>)
    ensures Reconcile.InlineCertificates(s, gatewayNs, refs, if hostname.Some? then [hostname.value] else [])
            == FlatMap(refs, CertificateOf(s, gatewayNs, hostname))
  {
    if refs == [] {
    } else {
      var n := |refs| - 1;
      InlineCertificatesAre(s, gatewayNs, refs[..n], hostname);
      UsableIff(s, gatewayNs, refs[n]);
    }
  }

  /** A listener's TLS: passed through only if it says so; every reference listed, with the Gateway's namespace
      where it has none; and the texts of those that can be used, in order. */
  lemma ListenerTlsMeans(s: WorldSnapshot, gatewayNs: string, l: Listener)
    ensures var tls := Reconcile.ListenerTlsConfig(s, gatewayNs, l);
            && (tls == None <==> l.tls == None)
            && (l.tls.Some? ==>
                  var refs := l.tls.value.certificateRefs.GetOr([]);
                  && (tls.value.mode == Passthrough <==> l.tls.value.mode == Some(Passthrough))
                  && |tls.value.certificates| == |refs|
                  && (forall i :: 0 <= i < |refs| ==>
                        tls.value.certificates[i] == CertificateRef(SecretKey(gatewayNs, refs[i]).0, refs[i].name))
                  && tls.value.inlineCertificates == FlatMap(refs, CertificateOf(s, gatewayNs, l.hostname)))
    ensures Reconcile.ListenerRefsResolved(s, gatewayNs, l)
            <==> (l.tls.Some? ==> forall ref :: ref in l.tls.value.certificateRefs.GetOr([]) ==> IsUsableSecret(s, gatewayNs, ref))
  {
    if l.tls.Some? {
      var refs := l.tls.value.certificateRefs.GetOr([]);
      InlineCertificatesAre(s, gatewayNs, refs, l.hostname);
      forall ref
        ensures Reconcile.CertificateUsable(s, gatewayNs, ref) <==> IsUsableSecret(s, gatewayNs, ref)
      {
        UsableIff(s, gatewayNs, ref);
      }
    }
  }

  // The listeners of a built Gateway

  ghost predicate IsListenerFor(c: ListenerConfig, l: Listener, s: WorldSnapshot, gatewayNs: string) {
    && c.name == l.name && c.port == l.port && c.hostname == l.hostname
    && (c.protocol == Https <==> SameText(l.protocol, "HTTPS"))
    && c.tls == Reconcile.ListenerTlsConfig(s, gatewayNs, l)
  }

  lemma ListenerForIs(l: Listener, s: WorldSnapshot, gatewayNs: string)
    requires 0 < l.port <= 65535
    ensures IsListenerFor(Reconcile.ListenerConfigOf(s, gatewayNs)(l), l, s, gatewayNs)
  {
    ServesHttpIff(l);
  }

  lemma ConfiguredListeners(gateway: Gateway, gatewayNs: string, s: WorldSnapshot, parse: Convert.DurationParser, i: nat)
    requires i < |gateway.listeners| && 0 < gateway.listeners[i].port <= 65535
    ensures var proxy := Reconcile.GatewayConfigOf(gateway, gatewayNs, s, parse);
            && proxy.gateway == GatewayRef(gatewayNs, gateway.meta.name) && |proxy.listeners| == |gateway.listeners|
            && IsListenerFor(proxy.listeners[i], gateway.listeners[i], s, gatewayNs)
  {
    ListenerForIs(gateway.listeners[i], s, gatewayNs);
  }

  /** The configuration of a built Gateway has its listeners in order, with their own ports. */
  lemma DeployedListeners(s: WorldSnapshot, config: Reconcile.ControllerConfig, key: Key, parse: Convert.DurationParser, i: nat)
    requires Sufficiency.Configurable(s, key) && i < |s.gateways[key].listeners|
    ensures var upserts := Reconcile.ReconcileGateway(s, config, key, parse).upserts;
            && |upserts| > 0 && upserts[0].ConfigMap?
            && upserts[0].config.gateway == GatewayRef(key.0, s.gateways[key].meta.name)
            && |upserts[0].config.listeners| == |s.gateways[key].listeners|
            && IsListenerFor(upserts[0].config.listeners[i], s.gateways[key].listeners[i], s, key.0)
  {
    var gateway := s.gateways[key];
    assert Validate.ValidateSingleListener(gateway.listeners[i]).valid;
    ConfiguredListeners(gateway, key.0, s, parse, i);
    Sufficiency.ConfigurableResult(s, config, key, parse);
  }

  // The resources of a built Gateway

  /** The role is for the Gateway's own ConfigMap, the binding gives that role to its own account, and the
      Gateway owns them all. */
  lemma ResourcesReferToEachOther(s: WorldSnapshot, config: Reconcile.ControllerConfig, key: Key, parse: Convert.DurationParser)
    requires Sufficiency.Configurable(s, key)
    ensures var r := Reconcile.ReconcileGateway(s, config, key, parse).upserts;
            && |r| == 6 && r[0].ConfigMap? && r[1].ServiceAccount? && r[2].Role? && r[3].RoleBinding?
            && r[4].ServiceResource? && r[5].Deployment?
            && (forall i :: 0 <= i < 6 ==>
                  r[i].key.0 == key.0 && r[i].owner == Reconcile.OwnerReference(s.gateways[key].meta.name, s.gateways[key].meta.uid))
            && r[2].configMapName == r[0].key.1 && r[3].roleName == r[2].key.1 && r[3].accountName == r[1].key.1
            && r[4].key == (key.0, "multiway-dp-" + key.1) && r[0].key == (key.0, "multiway-config-" + key.1)
            && r[4].servicePorts == Ports.ServicePorts(s.gateways[key].listeners)
            && r[5].containerPorts == Ports.ContainerPorts(s.gateways[key].listeners)
            && r[5].image == config.image && r[5].replicas == config.replicas
  {
  }

  lemma SamePrefix(prefix: string, a: string, b: string)
    requires prefix + a == prefix + b
    ensures a == b
  {
    assert (prefix + a)[|prefix|..] == a && (prefix + b)[|prefix|..] == b;
  }

  lemma ResourceNames(s: WorldSnapshot, config: Reconcile.ControllerConfig, key: Key, parse: Convert.DurationParser, i: nat)
    requires Sufficiency.Configurable(s, key) && i < |Reconcile.ReconcileGateway(s, config, key, parse).upserts|
    ensures var r := Reconcile.ReconcileGateway(s, config, key, parse).upserts[i];
            r.key == (key.0, if r.ConfigMap? then "multiway-config-" + key.1 else "multiway-dp-" + key.1)
  {
  }

  /** No two Gateways ever write the same object. */
  lemma GatewaysWriteApart(
    s: WorldSnapshot, config: Reconcile.ControllerConfig, key: Key, other: Key, parse: Convert.DurationParser, i: nat, j: nat)
    requires key != other && Sufficiency.Configurable(s, key) && Sufficiency.Configurable(s, other)
    requires i < |Reconcile.ReconcileGateway(s, config, key, parse).upserts|
    requires j < |Reconcile.ReconcileGateway(s, config, other, parse).upserts|
    ensures Executor.Target(Executor.Upsert(Reconcile.ReconcileGateway(s, config, key, parse).upserts[i]))
            != Executor.Target(Executor.Upsert(Reconcile.ReconcileGateway(s, config, other, parse).upserts[j]))
  {
    ResourceNames(s, config, key, parse, i);
    ResourceNames(s, config, other, parse, j);
    var r, q := Reconcile.ReconcileGateway(s, config, key, parse).upserts[i], Reconcile.ReconcileGateway(s, config, other, parse).upserts[j];
    if r.key == q.key && (r.ConfigMap? <==> q.ConfigMap?) {
      SamePrefix(if r.ConfigMap? then "multiway-config-" else "multiway-dp-", key.1, other.1);
    }
  }
}
