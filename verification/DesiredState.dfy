/** The state of the cluster after a result has been executed. */
module DesiredState {
  import opened Text
  import opened Ordering
  import opened Kube
  import opened Convert
  import opened Reconcile
  import opened Sufficiency
  import opened Executor
  import Status

  function EntryOf(op: Op): Option<Entry> {
    match op
    case WriteStatus(UpdateGatewayStatus(_, status)) => Some(GatewayEntry(status))
    case WriteStatus(UpdateRouteStatus(_, parents)) => Some(RouteEntry(parents))
    case Upsert(r) => Some(ObjectEntry(r))
    case Delete(_) => None
  }

  ghost predicate IsLastOn(ops: seq<Op>, i: int) {
    0 <= i < |ops| && Target(ops[i]).Some? && forall j :: i < j < |ops| ==> Target(ops[j]) != Target(ops[i])
  }

  lemma {:induction false} LastCallDecides(store: Store, ops: seq<Op>, i: nat)
    requires IsLastOn(ops, i)
    ensures var key := Target(ops[i]).value;
            (key in RunAll(store, ops) <==> EntryOf(ops[i]).Some?)
            && (key in RunAll(store, ops) ==> Some(RunAll(store, ops)[key]) == EntryOf(ops[i]))
  {
    var n := |ops| - 1;
    if i < n {
      assert IsLastOn(ops[..n], i);
      LastCallDecides(store, ops[..n], i);
    }
  }

  /** After any failed attempts and one clean run, every resource of a configurable Gateway is in
      the cluster as the snapshot asks, and so is its status. */
  lemma {:induction false} DesiredStateReached(store: Store, s: WorldSnapshot, config: ControllerConfig, key: Key, parse: DurationParser)
    requires Configurable(s, key)
    ensures var result := ReconcileGateway(s, config, key, parse);
            var final := RunAll(store, AllOps(result));
            && (forall i :: 0 <= i < |result.upserts| ==> Holds(final, Upsert(result.upserts[i])))
            && (forall i :: 0 <= i < |result.statusUpdates| ==> Holds(final, WriteStatus(result.statusUpdates[i])))
  {
    DataPlaneKinds(s.gateways[key], key, s, config, parse);
    DistinctWritesHold(store, ReconcileGateway(s, config, key, parse));
  }

  lemma {:induction false} DistinctWritesHold(store: Store, result: ReconcileResult)
    requires |result.statusUpdates| == 1 && result.deletes == [] && KindsDiffer(result.upserts)
    ensures var final := RunAll(store, AllOps(result));
            && (forall i :: 0 <= i < |result.upserts| ==> Holds(final, Upsert(result.upserts[i])))
            && Holds(final, WriteStatus(result.statusUpdates[0]))
  {
    var ops := AllOps(result);
    assert ops == [WriteStatus(result.statusUpdates[0])] + Upserts(result);
    forall i | 0 <= i < |result.upserts|
      ensures Holds(RunAll(store, ops), Upsert(result.upserts[i]))
    {
      UpsertIsLast(result.upserts, ops, i);
      LastCallDecides(store, ops, i + 1);
    }
    assert IsLastOn(ops, 0);
    LastCallDecides(store, ops, 0);
  }

  ghost predicate KindsDiffer(resources: seq<Resource>) {
    forall i, j :: 0 <= i < j < |resources| ==> KindOf(resources[i]) != KindOf(resources[j])
  }

  lemma UpsertIsLast(resources: seq<Resource>, ops: seq<Op>, i: nat)
    requires KindsDiffer(resources) && i < |resources| && |ops| == |resources| + 1
    requires forall j :: 0 <= j < |resources| ==> ops[j + 1] == Upsert(resources[j])
    ensures IsLastOn(ops, i + 1)
  {
    assert ops[i + 1] == Upsert(resources[i]);
    forall j | i + 1 < j < |ops|
      ensures Target(ops[j]) != Target(ops[i + 1])
    {
      assert ops[j] == Upsert(resources[j - 1]) && KindOf(resources[i]) != KindOf(resources[j - 1]);
    }
  }

  lemma DataPlaneKinds(gateway: Gateway, key: Key, s: WorldSnapshot, config: ControllerConfig, parse: DurationParser)
    ensures var resources := DataPlaneResources(gateway, key, s, config, parse);
            |resources| == 6 && KindsDiffer(resources)
  {
    var r := DataPlaneResources(gateway, key, s, config, parse);
    SixKindsDiffer(r);
  }

  lemma SixKindsDiffer(r: seq<Resource>)
    requires |r| == 6 && r[0].ConfigMap? && r[1].ServiceAccount? && r[2].Role? && r[3].RoleBinding?
    requires r[4].ServiceResource? && r[5].Deployment?
    ensures KindsDiffer(r)
  {
    var kinds := [ConfigMapKind, ServiceAccountKind, RoleKind, RoleBindingKind, ServiceKind, DeploymentKind];
    assert forall k :: 0 <= k < 6 ==> KindOf(r[k]) == kinds[k];
  }

  ghost predicate Holds(store: Store, op: Op) {
    Target(op).Some? && Target(op).value in store && Some(store[Target(op).value]) == EntryOf(op)
  }

  /** How long until a Gateway is looked at again, after an attempt to carry out its result: five minutes
      when it is gone, 30 seconds when nothing is built for it, otherwise as configured; and 5 seconds when a
      write fails. */
  lemma NextVisit(
    s: WorldSnapshot, config: ControllerConfig, key: Key, parse: DurationParser, attempted: seq<Op>, oracle: Oracle, start: nat, seconds: nat)
    requires var result := ReconcileGateway(s, config, key, parse);
             IsAttempt(result, attempted, oracle, start, seconds)
    ensures var result := ReconcileGateway(s, config, key, parse);
            seconds == if exists i :: start <= i < start + |result.statusUpdates| + |result.upserts| && oracle(i) != Done then 5
                       else if key !in s.gateways then 300
                       else if !Status.IsBuildable(s, key) then 30
                       else config.requeueAfter
  {
    Status.GatewayIsBuiltIff(s, config, key, parse);
    NextAttempt(ReconcileGateway(s, config, key, parse), attempted, oracle, start, seconds);
  }
}
