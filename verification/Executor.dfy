/** Applying effects to the cluster, one API call after another, any of which may fail. */
module Executor {
  import opened Text
  import opened Ordering
  import opened Reconcile

  // The cluster as a store of overwritable entries

  datatype Kind = DeploymentKind | ServiceKind | ConfigMapKind | ServiceAccountKind | RoleKind | RoleBindingKind

  datatype StoreKey = ObjectKey(kind: Kind, namespace: string, name: string) | GatewayStatusKey(key: Key) | RouteStatusKey(key: Key)

  datatype Entry = ObjectEntry(resource: Resource) | GatewayEntry(gateway: GatewayStatus) | RouteEntry(parents: seq<ParentStatus>)

  type Store = map<StoreKey, Entry>

  datatype Op = WriteStatus(update: StatusUpdate) | Upsert(resource: Resource) | Delete(target: ResourceDelete)

  function KindOf(r: Resource): Kind {
    match r
    case ConfigMap(_, _, _) => ConfigMapKind
    case ServiceAccount(_, _) => ServiceAccountKind
    case Role(_, _, _) => RoleKind
    case RoleBinding(_, _, _, _) => RoleBindingKind
    case ServiceResource(_, _, _) => ServiceKind
    case Deployment(_, _, _, _, _) => DeploymentKind
  }

  /** The kinds that can be deleted, by name. */
  function ParseKind(kind: string): Option<Kind> {
    if kind == "Deployment" then Some(DeploymentKind)
    else if kind == "Service" then Some(ServiceKind)
    else if kind == "ConfigMap" then Some(ConfigMapKind)
    else if kind == "ServiceAccount" then Some(ServiceAccountKind)
    else if kind == "Role" then Some(RoleKind)
    else if kind == "RoleBinding" then Some(RoleBindingKind)
    else None
  }

  /** The entry an operation touches: none for a delete without namespace or of an unknown kind. */
  function Target(op: Op): Option<StoreKey> {
    match op
    case WriteStatus(UpdateGatewayStatus(key, _)) => Some(GatewayStatusKey(key))
    case WriteStatus(UpdateRouteStatus(key, _)) => Some(RouteStatusKey(key))
    case Upsert(r) => Some(ObjectKey(KindOf(r), r.key.0, r.key.1))
    case Delete(d) =>
      var kind := ParseKind(d.kind);
      if d.namespace.Some? && kind.Some? then Some(ObjectKey(kind.value, d.namespace.value, d.name)) else None
  }

  function Apply(store: Store, op: Op): Store {
    match op
    case WriteStatus(UpdateGatewayStatus(_, status)) => store[Target(op).value := GatewayEntry(status)]
    case WriteStatus(UpdateRouteStatus(_, parents)) => store[Target(op).value := RouteEntry(parents)]
    case Upsert(r) => store[Target(op).value := ObjectEntry(r)]
    case Delete(d) => if Target(op).Some? then store - {Target(op).value} else store
  }

  function KindName(r: Resource): string {
    match r
    case ConfigMap(_, _, _) => "ConfigMap"
    case ServiceAccount(_, _) => "ServiceAccount"
    case Role(_, _, _) => "Role"
    case RoleBinding(_, _, _, _) => "RoleBinding"
    case ServiceResource(_, _, _) => "Service"
    case Deployment(_, _, _, _, _) => "Deployment"
  }

  /** Deleting by kind, namespace and name removes what a write of such an object has put there, and nothing
      else; without a namespace it does nothing. */
  lemma DeleteUndoesUpsert(store: Store, r: Resource)
    ensures var written := Apply(store, Upsert(r));
            var key := Target(Upsert(r)).value;
            && Target(Upsert(r)).Some? && key in written && written[key] == ObjectEntry(r)
            && (forall k :: k != key ==> (k in written <==> k in store) && (k in store ==> written[k] == store[k]))
            && Apply(written, Delete(ResourceDelete(KindName(r), Some(r.key.0), r.key.1))) == store - {key}
            && Apply(written, Delete(ResourceDelete(KindName(r), None, r.key.1))) == written
  {
    assert ParseKind(KindName(r)) == Some(KindOf(r));
  }

  /** How an API call ends: done, refused without effect, or carried out with its answer lost. */
  datatype Outcome = Done | Refused | AnswerLost

  type Oracle = nat -> Outcome

  function ApplyWith(store: Store, op: Op, outcome: Outcome): Store {
    if outcome == Refused then store else Apply(store, op)
  }

  /** Replays the calls; the call at position `i` meets the fate `oracle(start + i)`. */
  function Replay(store: Store, ops: seq<Op>, oracle: Oracle, start: nat): Store {
    if ops == [] then store
    else
      var n := |ops| - 1;
      ApplyWith(Replay(store, ops[..n], oracle, start), ops[n], oracle(start + n))
  }

  function RunAll(store: Store, ops: seq<Op>): Store {
    if ops == [] then store else Apply(RunAll(store, ops[..|ops| - 1]), ops[|ops| - 1])
  }

  class ClusterApi {
    var store: Store
    var log: seq<Op>

    constructor (initial: Store)
      ensures store == initial && log == []
    {
      store, log := initial, [];
    }

    method Call(op: Op, oracle: Oracle) returns (ok: bool)
      modifies this
      ensures log == old(log) + [op]
      ensures store == ApplyWith(old(store), op, oracle(|old(log)|))
      ensures ok == (oracle(|old(log)|) == Done)
    {
      var outcome := oracle(|log|);
      log := log + [op];
      store := ApplyWith(store, op, outcome);
      ok := outcome == Done;
    }
  }

  // Executing a result

  function StatusWrites(result: ReconcileResult): seq<Op> {
    Mapped(result.statusUpdates, (u: StatusUpdate) => WriteStatus(u))
  }

  function Upserts(result: ReconcileResult): seq<Op> {
    Mapped(result.upserts, (r: Resource) => Upsert(r))
  }

  function Writes(result: ReconcileResult): seq<Op> {
    StatusWrites(result) + Upserts(result)
  }

  function Deletes(result: ReconcileResult): seq<Op> {
    Mapped(result.deletes, (d: ResourceDelete) => Delete(d))
  }

  function AllOps(result: ReconcileResult): seq<Op> {
    Writes(result) + Deletes(result)
  }

  function RequeueSeconds(requeue: Option<Requeue>): nat {
    match requeue
    case Some(After(d)) => d
    case Some(OnError(d)) => d
    case Some(Never) => 3600
    case None => 300
  }

  const RETRY_SECONDS := 5

  ghost predicate AllDone(n: nat, oracle: Oracle, start: nat) {
    forall i: nat :: start <= i < start + n ==> IsDone(oracle, i)
  }

  predicate IsDone(oracle: Oracle, i: nat) {
    oracle(i) == Done
  }

  /** `attempted` is what may be attempted: a prefix of the writes whose last call is the first
      that did not succeed, or all writes, each done, and then all deletes. */
  ghost predicate IsAttempt(result: ReconcileResult, attempted: seq<Op>, oracle: Oracle, start: nat, seconds: nat) {
    var writes := Writes(result);
    if AllDone(|writes|, oracle, start) then attempted == AllOps(result) && seconds == RequeueSeconds(result.requeue)
    else
      && 0 < |attempted| <= |writes| && attempted == writes[..|attempted|]
      && AllDone(|attempted| - 1, oracle, start) && oracle(start + |attempted| - 1) != Done
      && seconds == RETRY_SECONDS
  }

  lemma {:induction false} ReplayStep(store: Store, ops: seq<Op>, i: nat, oracle: Oracle, start: nat)
    requires i < |ops|
    ensures Replay(store, ops[..i + 1], oracle, start) == ApplyWith(Replay(store, ops[..i], oracle, start), ops[i], oracle(start + i))
  {
    assert ops[..i + 1][..i] == ops[..i];
  }

  lemma {:induction false} ReplayConcat(store: Store, a: seq<Op>, b: seq<Op>, oracle: Oracle, start: nat)
    ensures Replay(Replay(store, a, oracle, start), b, oracle, start + |a|) == Replay(store, a + b, oracle, start)
  {
    if b == [] {
      assert a + b == a;
    } else {
      var n := |b| - 1;
      ReplayConcat(store, a, b[..n], oracle, start);
      assert (a + b)[..|a| + n] == a + b[..n];
    }
  }

  /** Makes the calls in order until one fails; `made` of them were made. */
  method CallUntilFailure(api: ClusterApi, ops: seq<Op>, oracle: Oracle) returns (ok: bool, ghost made: nat)
    modifies api
    ensures made <= |ops| && api.log == old(api.log) + ops[..made]
    ensures api.store == Replay(old(api.store), ops[..made], oracle, |old(api.log)|)
    ensures ok ==> made == |ops| && AllDone(made, oracle, |old(api.log)|)
    ensures !ok ==> made > 0 && AllDone(made - 1, oracle, |old(api.log)|) && !IsDone(oracle, |old(api.log)| + made - 1)
  {
    ghost var was, start := api.store, |api.log|;
    made := 0;
    for i := 0 to |ops|
      invariant made == i && api.log == old(api.log) + ops[..i]
      invariant api.store == Replay(was, ops[..i], oracle, start)
      invariant AllDone(i, oracle, start)
    {
      ReplayStep(was, ops, i, oracle, start);
      ok := api.Call(ops[i], oracle);
      made := i + 1;
      if !ok {
        return;
      }
      assert IsDone(oracle, start + i);
    }
    ok := true;
  }

  method CallAll(api: ClusterApi, ops: seq<Op>, oracle: Oracle)
    modifies api
    ensures api.log == old(api.log) + ops
    ensures api.store == Replay(old(api.store), ops, oracle, |old(api.log)|)
  {
    ghost var was, start := api.store, |api.log|;
    for i := 0 to |ops|
      invariant api.log == old(api.log) + ops[..i]
      invariant api.store == Replay(was, ops[..i], oracle, start)
    {
      ReplayStep(was, ops, i, oracle, start);
      var _ := api.Call(ops[i], oracle);
    }
    assert ops[..|ops|] == ops;
  }

  /** First the one list, then the other, stopping at the first failure in either. */
  method CallBothUntilFailure(api: ClusterApi, a: seq<Op>, b: seq<Op>, oracle: Oracle) returns (ok: bool, ghost made: nat)
    modifies api
    ensures made <= |a + b| && api.log == old(api.log) + (a + b)[..made]
    ensures api.store == Replay(old(api.store), (a + b)[..made], oracle, |old(api.log)|)
    ensures ok ==> made == |a + b| && AllDone(made, oracle, |old(api.log)|)
    ensures !ok ==> made > 0 && AllDone(made - 1, oracle, |old(api.log)|) && !IsDone(oracle, |old(api.log)| + made - 1)
  {
    ghost var was, start, log := api.store, |api.log|, api.log;
    ok, made := CallUntilFailure(api, a, oracle);
    if !ok {
      assert (a + b)[..made] == a[..made];
      return;
    }
    assert a[..made] == a;
    ghost var n;
    ok, n := CallUntilFailure(api, b, oracle);
    BothMade(was, log, a, b, n, oracle, start);
    made := |a| + n;
    if ok {
      BothDone(|a|, n, oracle, start);
    } else {
      BothDone(|a|, n - 1, oracle, start);
    }
  }

  lemma BothDone(m: nat, n: nat, oracle: Oracle, start: nat)
    requires AllDone(m, oracle, start) && AllDone(n, oracle, start + m)
    ensures AllDone(m + n, oracle, start)
  {
  }

  lemma BothMade(store: Store, log: seq<Op>, a: seq<Op>, b: seq<Op>, n: nat, oracle: Oracle, start: nat)
    requires n <= |b|
    ensures |a| + n <= |a + b| && log + a + b[..n] == log + (a + b)[..|a| + n]
    ensures Replay(Replay(store, a, oracle, start), b[..n], oracle, start + |a|) == Replay(store, (a + b)[..|a| + n], oracle, start)
  {
    assert (a + b)[..|a| + n] == a + b[..n];
    ReplayConcat(store, a, b[..n], oracle, start);
  }

  /** The writes; then the deletes, whose failures are passed over.  Returns the seconds until the
      next attempt. */
  method Execute(api: ClusterApi, result: ReconcileResult, oracle: Oracle) returns (seconds: nat, ghost attempted: seq<Op>)
    modifies api
    ensures IsAttempt(result, attempted, oracle, |old(api.log)|, seconds)
    ensures api.log == old(api.log) + attempted
    ensures api.store == Replay(old(api.store), attempted, oracle, |old(api.log)|)
  {
    ghost var was, log, start := api.store, api.log, |api.log|;
    var ok, made := CallBothUntilFailure(api, StatusWrites(result), Upserts(result), oracle);
    if !ok {
      attempted := Writes(result)[..made];
      StoppedAt(result, attempted, oracle, start);
      return RETRY_SECONDS, attempted;
    }
    assert Writes(result)[..made] == Writes(result);
    Completed(was, log, result, oracle, start);
    CallAll(api, Deletes(result), oracle);
    attempted, seconds := AllOps(result), RequeueSeconds(result.requeue);
  }

  lemma {:induction false} Completed(store: Store, log: seq<Op>, result: ReconcileResult, oracle: Oracle, start: nat)
    requires AllDone(|Writes(result)|, oracle, start)
    ensures IsAttempt(result, AllOps(result), oracle, start, RequeueSeconds(result.requeue))
    ensures log + Writes(result) + Deletes(result) == log + AllOps(result)
    ensures Replay(Replay(store, Writes(result), oracle, start), Deletes(result), oracle, start + |Writes(result)|)
            == Replay(store, AllOps(result), oracle, start)
  {
    ReplayConcat(store, Writes(result), Deletes(result), oracle, start);
  }

  lemma StoppedAt(result: ReconcileResult, attempted: seq<Op>, oracle: Oracle, start: nat)
    requires 0 < |attempted| <= |Writes(result)| && attempted == Writes(result)[..|attempted|]
    requires AllDone(|attempted| - 1, oracle, start) && !IsDone(oracle, start + |attempted| - 1)
    ensures IsAttempt(result, attempted, oracle, start, RETRY_SECONDS)
  {
  }

  /** When the next attempt is made: 5 seconds after a write that failed; otherwise as the result asks, an
      hour for never and five minutes where it does not say. */
  lemma NextAttempt(result: ReconcileResult, attempted: seq<Op>, oracle: Oracle, start: nat, seconds: nat)
    requires IsAttempt(result, attempted, oracle, start, seconds)
    ensures (exists i :: start <= i < start + |result.statusUpdates| + |result.upserts| && oracle(i) != Done) ==> seconds == 5
    ensures (forall i :: start <= i < start + |result.statusUpdates| + |result.upserts| ==> oracle(i) == Done) ==>
              && (result.requeue == None ==> seconds == 300)
              && (result.requeue == Some(Never) ==> seconds == 3600)
              && (forall d :: result.requeue == Some(After(d)) || result.requeue == Some(OnError(d)) ==> seconds == d)
  {
    var n := |Writes(result)|;
    assert n == |result.statusUpdates| + |result.upserts|;
    if i :| start <= i < start + n && oracle(i) != Done {
      assert !IsDone(oracle, i);
      assert !AllDone(n, oracle, start);
    }
    if forall i :: start <= i < start + n ==> oracle(i) == Done {
      assert AllDone(n, oracle, start);
    }
  }

  // Recovery

  ghost predicate Touches(ops: seq<Op>, key: StoreKey) {
    exists i :: 0 <= i < |ops| && Target(ops[i]) == Some(key)
  }

  ghost predicate SameAt(s: Store, t: Store, key: StoreKey) {
    (key in s <==> key in t) && (key in s ==> s[key] == t[key])
  }

  lemma {:induction false} UntouchedStays(store: Store, ops: seq<Op>, oracle: Oracle, start: nat, key: StoreKey)
    requires !Touches(ops, key)
    ensures SameAt(Replay(store, ops, oracle, start), store, key)
  {
    if ops == [] {
    } else {
      var n := |ops| - 1;
      assert forall i :: 0 <= i < n ==> ops[..n][i] == ops[i];
      UntouchedStays(store, ops[..n], oracle, start, key);
    }
  }

  /** A run decides every entry it touches, and keeps agreement on the others. */
  lemma {:induction false} RunDecidesTouched(s: Store, t: Store, ops: seq<Op>, key: StoreKey)
    requires Touches(ops, key) || SameAt(s, t, key)
    ensures SameAt(RunAll(s, ops), RunAll(t, ops), key)
  {
    if ops == [] {
    } else {
      var n := |ops| - 1;
      if Target(ops[n]) != Some(key) {
        assert Touches(ops, key) ==> Touches(ops[..n], key) by {
          if Touches(ops, key) {
            var i :| 0 <= i < |ops| && Target(ops[i]) == Some(key);
            assert ops[..n][i] == ops[i];
          }
        }
        RunDecidesTouched(s, t, ops[..n], key);
      }
    }
  }

  /** Whatever part of earlier calls took effect, as long as they touch only entries that the new
      operations touch too, a clean run ends where it would have ended without them. */
  lemma {:induction false} CleanRunForgetsEarlierCalls(store: Store, earlier: seq<Op>, oracle: Oracle, start: nat, ops: seq<Op>)
    requires forall key :: Touches(earlier, key) ==> Touches(ops, key)
    ensures RunAll(Replay(store, earlier, oracle, start), ops) == RunAll(store, ops)
  {
    var s, t := Replay(store, earlier, oracle, start), store;
    var a, b := RunAll(s, ops), RunAll(t, ops);
    forall key
      ensures SameAt(a, b, key)
    {
      if !Touches(ops, key) {
        UntouchedStays(store, earlier, oracle, start, key);
      }
      RunDecidesTouched(s, t, ops, key);
    }
    assert forall key :: key in a <==> key in b by {
      forall key
        ensures key in a <==> key in b
      {
        assert SameAt(a, b, key);
      }
    }
    assert forall key :: key in a ==> SameAt(a, b, key);
  }

  lemma PrefixTouches(ops: seq<Op>, n: nat)
    requires n <= |ops|
    ensures forall key :: Touches(ops[..n], key) ==> Touches(ops, key)
  {
    forall key | Touches(ops[..n], key)
      ensures Touches(ops, key)
    {
      var i :| 0 <= i < n && Target(ops[..n][i]) == Some(key);
      assert Target(ops[i]) == Some(key);
    }
  }

  lemma {:induction false} CleanReplay(store: Store, ops: seq<Op>, oracle: Oracle, start: nat)
    requires AllDone(|ops|, oracle, start)
    ensures Replay(store, ops, oracle, start) == RunAll(store, ops)
  {
    if ops == [] {
    } else {
      assert IsDone(oracle, start + |ops| - 1);
      CleanReplay(store, ops[..|ops| - 1], oracle, start);
    }
  }

  /** A process that stops after any `n` of the calls it attempts leaves a state from which a
      clean run reaches the clean result. */
  lemma {:induction false} CrashRecovery(store: Store, result: ReconcileResult, attempted: seq<Op>, n: nat, oracle: Oracle, start: nat, seconds: nat)
    requires IsAttempt(result, attempted, oracle, start, seconds) && n <= |attempted|
    ensures RunAll(Replay(store, attempted[..n], oracle, start), AllOps(result)) == RunAll(store, AllOps(result))
  {
    var ops := AllOps(result);
    assert attempted[..n] == ops[..n];
    PrefixTouches(ops, n);
    CleanRunForgetsEarlierCalls(store, ops[..n], oracle, start, ops);
  }

  /** Any number of attempts that fail anywhere, then one in which every call succeeds: the
      cluster is as after a single clean run. */
  method RetryUntilClean(api: ClusterApi, result: ReconcileResult, failures: nat, faulty: Oracle)
    modifies api
    ensures api.store == RunAll(old(api.store), AllOps(result))
  {
    ghost var ops, goal := AllOps(result), RunAll(api.store, AllOps(result));
    for i := 0 to failures
      invariant RunAll(api.store, ops) == goal
    {
      ghost var before, start := api.store, |api.log|;
      var seconds, attempted := Execute(api, result, faulty);
      CrashRecovery(before, result, attempted, |attempted|, faulty, start, seconds);
      assert attempted[..|attempted|] == attempted;
    }
    ghost var before, start := api.store, |api.log|;
    var clean := (_: nat) => Done;
    var _, attempted := Execute(api, result, clean);
    CleanReplay(before, ops, clean, start);
  }
}
