/** The worker's accept loop with hot reload.  What the world does in each iteration - the
    configuration loaded, which binds succeed, who connects and what comes of it - is the run's input. */
module Worker {
  import opened Text
  import opened Config

  /** A loaded configuration with its identity, the address the source compares. */
  datatype Loaded = Loaded(id: nat, config: ProxyConfig)

  datatype BindOutcome = BindOutcome(bound: bool, tlsBuilt: bool)

  /** What happens at an acceptor in one iteration: a shutdown is seen first, someone connects, the
      TLS handshake succeeds, the pipeline panics on a request of the connection. */
  datatype Arrival = Arrival(shutdown: bool, connected: bool, handshakeOk: bool, panics: bool)

  datatype Tick = Tick(shutdown: bool, loaded: Loaded, binds: seq<BindOutcome>, arrivals: seq<Arrival>)

  /** Everything a worker meets: the first configuration and its binds, then the iterations. */
  datatype Run = Run(first: Loaded, binds: seq<BindOutcome>, ticks: seq<Tick>)

  datatype ListenerState = ListenerState(name: string, port: nat, tls: bool)

  datatype Pipeline = Pipeline(config: ProxyConfig, listenerName: string)

  datatype Fate = ServedBy(pipeline: Pipeline) | PanickedIn(pipeline: Pipeline) | HandshakeFailed | Unserved

  /** A connection accepted in iteration `tick` by acceptor number `index`. */
  datatype Event = Event(tick: nat, index: nat, acceptor: string, fate: Fate)

  datatype Exit = BindFailed | NoListeners | Stopped | Panicked | StillRunning

  function BuildPipelines(config: ProxyConfig): (pipelines: seq<Pipeline>)
    ensures |pipelines| == |config.listeners|
    ensures forall i :: 0 <= i < |pipelines| ==> pipelines[i] == Pipeline(config, config.listeners[i].name)
  {
    Mapped(config.listeners, (l: ListenerConfig) => Pipeline(config, l.name))
  }

  // Missing outcomes are failures, and no one arrives where nothing is said.

  function Outcome(binds: seq<BindOutcome>, i: nat): BindOutcome {
    if i < |binds| then binds[i] else BindOutcome(false, false)
  }

  function ArrivalAt(arrivals: seq<Arrival>, i: nat): Arrival {
    if i < |arrivals| then arrivals[i] else Arrival(false, false, false, false)
  }

  predicate BindsAll(config: ProxyConfig, binds: seq<BindOutcome>) {
    forall i :: 0 <= i < |config.listeners| ==> Outcome(binds, i).bound
  }

  function StateOf(l: ListenerConfig, outcome: BindOutcome): ListenerState {
    ListenerState(l.name, l.port, l.protocol == Https && l.tls.Some? && outcome.tlsBuilt)
  }

  function StatesOf(config: ProxyConfig, binds: seq<BindOutcome>): (states: seq<ListenerState>)
    ensures |states| == |config.listeners|
    ensures forall i :: 0 <= i < |states| ==> states[i] == StateOf(config.listeners[i], Outcome(binds, i))
  {
    seq(|config.listeners|, i requires 0 <= i < |config.listeners| => StateOf(config.listeners[i], Outcome(binds, i)))
  }

  /** One acceptor for each listener, in order; it does TLS where that is configured and could be built. */
  ghost predicate AreAcceptors(states: seq<ListenerState>, config: ProxyConfig, binds: seq<BindOutcome>) {
    && |states| == |config.listeners|
    && forall i :: 0 <= i < |states| ==>
         var l := config.listeners[i];
         && states[i].name == l.name && states[i].port == l.port
         && (states[i].tls <==> l.protocol == Https && l.tls != None && i < |binds| && binds[i].tlsBuilt)
  }

  ghost predicate EachBinds(config: ProxyConfig, binds: seq<BindOutcome>) {
    |config.listeners| <= |binds| && forall i :: 0 <= i < |config.listeners| ==> binds[i].bound
  }

  lemma AcceptorsAre(config: ProxyConfig, binds: seq<BindOutcome>)
    ensures AreAcceptors(StatesOf(config, binds), config, binds)
    ensures BindsAll(config, binds) <==> EachBinds(config, binds)
  {
    if BindsAll(config, binds) {
      forall i | 0 <= i < |config.listeners|
        ensures i < |binds| && binds[i].bound
      {
        assert Outcome(binds, i).bound;
      }
      if |config.listeners| > 0 {
        assert Outcome(binds, |config.listeners| - 1).bound;
      }
    }
    forall i | 0 <= i < |config.listeners|
      ensures StatesOf(config, binds)[i] == StateOf(config.listeners[i], Outcome(binds, i))
    {
    }
  }

  /** All listeners are bound, or none is kept. */
  method BindListeners(config: ProxyConfig, binds: seq<BindOutcome>) returns (states: Option<seq<ListenerState>>)
    ensures states == if BindsAll(config, binds) then Some(StatesOf(config, binds)) else None
    ensures states.Some? <==> EachBinds(config, binds)
    ensures states.Some? ==> AreAcceptors(states.value, config, binds)
  {
    AcceptorsAre(config, binds);
    var bound: seq<ListenerState> := [];
    for i := 0 to |config.listeners|
      invariant forall j :: 0 <= j < i ==> Outcome(binds, j).bound
      invariant bound == StatesOf(config, binds)[..i]
    {
      var l := config.listeners[i];
      if !Outcome(binds, i).bound {
        assert !BindsAll(config, binds);
        return None;
      }
      bound := bound + [ListenerState(l.name, l.port, l.protocol == Https && l.tls.Some? && Outcome(binds, i).tlsBuilt)];
    }
    assert bound == StatesOf(config, binds);
    states := Some(bound);
  }

  // One round over the acceptors

  /** The state in which the acceptors are offered a connection each. */
  datatype Round = Round(tick: nat, states: seq<ListenerState>, pipelines: seq<Pipeline>, arrivals: seq<Arrival>)

  ghost function FateOf(r: Round, i: nat): Fate
    requires i < |r.states|
  {
    if i >= |r.pipelines| then Unserved
    else if r.states[i].tls && !ArrivalAt(r.arrivals, i).handshakeOk then HandshakeFailed
    else if ArrivalAt(r.arrivals, i).panics then PanickedIn(r.pipelines[i])
    else ServedBy(r.pipelines[i])
  }

  /** The events at the acceptors from number `i` on, in order: one for each that gets a connection,
      until a shutdown is seen or a pipeline panics. */
  ghost function EventsFrom(r: Round, i: nat): seq<Event>
    requires i <= |r.states|
    decreases |r.states| - i
  {
    if i == |r.states| || ArrivalAt(r.arrivals, i).shutdown then []
    else if !ArrivalAt(r.arrivals, i).connected then EventsFrom(r, i + 1)
    else [Event(r.tick, i, r.states[i].name, FateOf(r, i))] + if FateOf(r, i).PanickedIn? then [] else EventsFrom(r, i + 1)
  }

  /** Some pipeline panics. */
  ghost predicate RoundPanics(r: Round) {
    exists e :: e in EventsFrom(r, 0) && e.fate.PanickedIn?
  }

  ghost predicate IsEventOf(r: Round, e: Event) {
    e.index < |r.states| && e.acceptor == r.states[e.index].name && e.fate == FateOf(r, e.index)
  }

  lemma {:induction false} EventOfRound(r: Round, i: nat, e: Event)
    requires i <= |r.states| && e in EventsFrom(r, i)
    ensures e.tick == r.tick && IsEventOf(r, e)
    decreases |r.states| - i
  {
    if i < |r.states| && e in EventsFrom(r, i + 1) {
      EventOfRound(r, i + 1, e);
    }
  }

  // The specification of a run, over its loads: number 0 is the first, number n that of iteration n - 1

  function Load(run: Run, n: nat): Loaded
    requires n <= |run.ticks|
  {
    if n == 0 then run.first else run.ticks[n - 1].loaded
  }

  function BindsOf(run: Run, n: nat): seq<BindOutcome>
    requires n <= |run.ticks|
  {
    if n == 0 then run.binds else run.ticks[n - 1].binds
  }

  /** A load is noticed when its identity is not that of the load before. */
  predicate IsNoticed(run: Run, n: nat)
    requires n <= |run.ticks|
  {
    n == 0 || Load(run, n).id != Load(run, n - 1).id
  }

  /** The load whose configuration the pipelines have after load `n`: the last one noticed. */
  function CurrentLoad(run: Run, n: nat): (k: nat)
    requires n <= |run.ticks|
    ensures k <= n
  {
    if IsNoticed(run, n) then n else CurrentLoad(run, n - 1)
  }

  /** The load whose listeners are bound after load `n`: the last one noticed that could be bound. */
  function BoundLoad(run: Run, n: nat): (k: nat)
    requires n <= |run.ticks|
    ensures k <= n
  {
    if n == 0 || (IsNoticed(run, n) && BindsAll(Load(run, n).config, BindsOf(run, n))) then n else BoundLoad(run, n - 1)
  }

  /** The round of iteration `t`, if the run gets there. */
  ghost function RoundAt(run: Run, t: nat): Round
    requires t < |run.ticks|
  {
    var k := BoundLoad(run, t + 1);
    Round(t, StatesOf(Load(run, k).config, BindsOf(run, k)),
          BuildPipelines(Load(run, CurrentLoad(run, t + 1)).config), run.ticks[t].arrivals)
  }

  /** What iteration `t` adds to the log, if the run gets there. */
  ghost function RoundLog(run: Run, t: nat): seq<Event>
    requires t < |run.ticks|
  {
    EventsFrom(RoundAt(run, t), 0)
  }

  ghost function RunEvents(run: Run, n: nat): seq<Event>
    requires n <= |run.ticks|
  {
    if n == 0 then [] else RunEvents(run, n - 1) + RoundLog(run, n - 1)
  }

  /** How iteration `t` ends, if the run gets there. */
  ghost function ExitAt(run: Run, t: nat): Exit
    requires t < |run.ticks|
  {
    if run.ticks[t].shutdown then Stopped
    else if IsNoticed(run, t + 1) && RoundAt(run, t).states == [] then NoListeners
    else if RoundPanics(RoundAt(run, t)) then Panicked
    else StillRunning
  }

  predicate Starts(run: Run) {
    BindsAll(run.first.config, run.binds) && run.first.config.listeners != []
  }

  /** No iteration before number `t` ends the run. */
  ghost predicate GoesOn(run: Run, t: nat)
    requires t <= |run.ticks|
  {
    forall j :: 0 <= j < t ==> ExitAt(run, j) == StillRunning
  }

  /** The run ends with iteration `t`, the first that does not go on, or is past its last one. */
  ghost predicate Ends(run: Run, t: nat, exit: Exit) {
    && t <= |run.ticks|
    && GoesOn(run, t)
    && (if t == |run.ticks| then exit == StillRunning else exit == ExitAt(run, t) && exit != StillRunning)
  }

  lemma OneMoreIteration(run: Run, t: nat, exit: Exit)
    requires t < |run.ticks| && GoesOn(run, t) && exit == ExitAt(run, t)
    ensures if exit == StillRunning then GoesOn(run, t + 1) else Ends(run, t, exit)
    ensures exit != BindFailed && RunEvents(run, t + 1) == RunEvents(run, t) + RoundLog(run, t)
  {
  }

  /** What the log holds of a run that ended. */
  ghost function LogOf(run: Run, last: nat, exit: Exit): seq<Event>
    requires last <= |run.ticks| && (exit == Panicked ==> last < |run.ticks|)
  {
    RunEvents(run, if exit == Panicked then last + 1 else last)
  }

  /** A run has one end. */
  lemma EndIsUnique(run: Run, t: nat, exit: Exit, u: nat, other: Exit)
    requires Ends(run, t, exit) && Ends(run, u, other)
    ensures t == u && exit == other
  {
  }

  // The loop

  function SaturatingSub(a: nat, b: nat): nat {
    if a >= b then a - b else 0
  }

  ghost function Zeros(n: nat): seq<nat> {
    if n == 0 then [] else Zeros(n - 1) + [0]
  }

  /** A count at each loop head, and another where the worker drains: a panic skips that one, and a
      run that is still going has not met it. */
  ghost function CountsOf(last: nat, exit: Exit): nat {
    if exit == Panicked || exit == StillRunning then last + 1 else last + 2
  }

  class WorkerState {
    var listenerStates: seq<ListenerState>
    var pipelines: seq<Pipeline>
    var configId: nat
    var inFlight: nat
    ghost var log: seq<Event>

    /** The state after load `n`. */
    ghost predicate Shows(run: Run, n: nat)
      requires n <= |run.ticks|
      reads this
    {
      var k := BoundLoad(run, n);
      && listenerStates == StatesOf(Load(run, k).config, BindsOf(run, k))
      && pipelines == BuildPipelines(Load(run, CurrentLoad(run, n)).config)
      && configId == Load(run, n).id
    }

    constructor (run: Run, states: seq<ListenerState>)
      requires states == StatesOf(run.first.config, run.binds)
      ensures Shows(run, 0)
      ensures inFlight == 0 && log == []
    {
      listenerStates := states;
      pipelines := BuildPipelines(run.first.config);
      configId := run.first.id;
      inFlight := 0;
      log := [];
    }

    /** Rebuilds after a change of configuration; a failed bind keeps the old acceptors. */
    method CheckConfig(tick: Tick, ghost run: Run, ghost t: nat) returns (changed: bool)
      requires t < |run.ticks| && tick == run.ticks[t] && Shows(run, t)
      modifies this
      ensures changed <==> IsNoticed(run, t + 1)
      ensures Shows(run, t + 1)
      ensures inFlight == old(inFlight) && log == old(log)
    {
      changed := tick.loaded.id != configId;
      if changed {
        var states := BindListeners(tick.loaded.config, tick.binds);
        if states.Some? {
          listenerStates := states.value;
        }
        pipelines := BuildPipelines(tick.loaded.config);
        configId := tick.loaded.id;
      }
    }

    ghost function RoundNow(t: nat, arrivals: seq<Arrival>): Round
      reads this
    {
      Round(t, listenerStates, pipelines, arrivals)
    }

    /** Serves one connection to its end.  A panic leaves it in flight. */
    method Serve(ghost r: Round, i: nat, arrival: Arrival) returns (panicked: bool)
      requires inFlight == 0 && i < |listenerStates|
      requires r == RoundNow(r.tick, r.arrivals) && arrival == ArrivalAt(r.arrivals, i)
      modifies `inFlight, `log
      ensures panicked <==> FateOf(r, i).PanickedIn?
      ensures inFlight == if panicked then 1 else 0
      ensures log == old(log) + [Event(r.tick, i, r.states[i].name, FateOf(r, i))]
    {
      panicked := false;
      log := log + [Event(r.tick, i, listenerStates[i].name, FateOf(r, i))];
      if i < |pipelines| {
        inFlight := inFlight + 1;
        if !listenerStates[i].tls || arrival.handshakeOk {
          if arrival.panics {
            return true;
          }
        }
        inFlight := SaturatingSub(inFlight, 1);
      }
    }

    /** Offers each acceptor one connection, until a shutdown or a panic. */
    method AcceptRound(t: nat, arrivals: seq<Arrival>) returns (panicked: bool)
      requires inFlight == 0
      modifies `inFlight, `log
      ensures panicked <==> RoundPanics(RoundNow(t, arrivals))
      ensures inFlight == if panicked then 1 else 0
      ensures log == old(log) + EventsFrom(RoundNow(t, arrivals), 0)
    {
      ghost var was, r, past := log, RoundNow(t, arrivals), [];
      panicked := false;
      for i := 0 to |listenerStates|
        invariant inFlight == 0 && !panicked
        invariant log == was + past && EventsFrom(r, 0) == past + EventsFrom(r, i)
        invariant forall e :: e in past ==> !e.fate.PanickedIn?
      {
        var arrival := ArrivalAt(arrivals, i);
        if arrival.shutdown {
          return;
        }
        if arrival.connected {
          panicked := Serve(r, i, arrival);
          past := past + [Event(t, i, r.states[i].name, FateOf(r, i))];
          if panicked {
            assert past[|past| - 1] in EventsFrom(r, 0);
            return;
          }
        }
      }
    }

    /** One iteration. */
    method Iterate(run: Run, t: nat) returns (exit: Exit)
      requires t < |run.ticks| && Shows(run, t) && inFlight == 0
      modifies this
      ensures exit == ExitAt(run, t)
      ensures exit == StillRunning ==> Shows(run, t + 1)
      ensures inFlight == if exit == Panicked then 1 else 0
      ensures log == old(log) + if exit == StillRunning || exit == Panicked then RoundLog(run, t) else []
    {
      if run.ticks[t].shutdown {
        return Stopped;
      }
      var changed := CheckConfig(run.ticks[t], run, t);
      assert RoundAt(run, t) == RoundNow(t, run.ticks[t].arrivals);
      if changed && listenerStates == [] {
        return NoListeners;
      }
      var panicked := AcceptRound(t, run.ticks[t].arrivals);
      exit := if panicked then Panicked else StillRunning;
    }

    /** Iterates until the run ends; counts what is in flight at each loop head and, unless it panics,
        once more where it drains. */
    method Work(run: Run) returns (exit: Exit, ghost last: nat, ghost counts: seq<nat>)
      requires Shows(run, 0) && inFlight == 0 && log == []
      modifies this
      ensures Ends(run, last, exit) && exit != BindFailed
      ensures log == LogOf(run, last, exit)
      ensures counts == Zeros(CountsOf(last, exit))
    {
      exit, counts := StillRunning, [];
      var t := 0;
      while t < |run.ticks| && exit == StillRunning
        invariant t <= |run.ticks|
        invariant if exit == StillRunning then Shows(run, t) && GoesOn(run, t) else Ends(run, t, exit) && exit != BindFailed
        invariant inFlight == if exit == Panicked then 1 else 0
        invariant log == RunEvents(run, if exit == Panicked then t + 1 else t)
        invariant counts == Zeros(if exit == StillRunning then t else t + 1)
        decreases |run.ticks| - t, exit == StillRunning
      {
        counts := counts + [inFlight];
        exit := Iterate(run, t);
        OneMoreIteration(run, t, exit);
        t := if exit == StillRunning then t + 1 else t;
      }
      last, counts := t, counts + if exit == Panicked then [] else [inFlight];
    }
  }

  /** A run of the worker: its exit, the iteration it ends with, what became of every connection, and
      the in-flight counts. */
  method WorkerLoop(run: Run) returns (exit: Exit, ghost last: nat, ghost log: seq<Event>, ghost counts: seq<nat>)
    ensures exit == BindFailed <==> !BindsAll(run.first.config, run.binds)
    ensures BindsAll(run.first.config, run.binds) && !Starts(run) ==> exit == NoListeners
    ensures !Starts(run) ==> log == [] && counts == []
    ensures Starts(run) ==> Ends(run, last, exit)
    ensures Starts(run) ==> log == LogOf(run, last, exit)
    ensures Starts(run) ==> counts == Zeros(CountsOf(last, exit))
  {
    exit, log, last, counts := BindFailed, [], 0, [];
    var states := BindListeners(run.first.config, run.binds);
    if states.None? {
      return;
    }
    if states.value == [] {
      exit := NoListeners;
      return;
    }
    var worker := new WorkerState(run, states.value);
    exit, last, counts := worker.Work(run);
    log := worker.log;
  }

  // What follows for every run

  /** Whatever the identities are: the pipelines are those of the last load noticed and so of the
      latest load exactly when both hold the same configuration, and the identities since agree. */
  lemma {:induction false} CurrentLoadIs(run: Run, n: nat)
    requires n <= |run.ticks|
    ensures var k := CurrentLoad(run, n);
            IsNoticed(run, k) && forall j :: k <= j <= n ==> Load(run, j).id == Load(run, n).id
  {
    if IsNoticed(run, n) {
    } else {
      CurrentLoadIs(run, n - 1);
    }
  }

  /** An identity that stays stands for the same configuration. */
  ghost predicate IsSteady(run: Run) {
    forall n :: 1 <= n <= |run.ticks| && !IsNoticed(run, n) ==> Load(run, n).config == Load(run, n - 1).config
  }

  ghost predicate IsUpToDate(run: Run, n: nat)
    requires n <= |run.ticks|
  {
    Load(run, CurrentLoad(run, n)).config == Load(run, n).config
  }

  /** The pipelines of a run always have the configuration of the latest load exactly when no load keeps
      the identity of the one before and changes its configuration. */
  lemma AlwaysUpToDateIff(run: Run)
    ensures (forall n: nat :: n <= |run.ticks| ==> IsUpToDate(run, n)) <==> IsSteady(run)
  {
    if forall n: nat :: n <= |run.ticks| ==> IsUpToDate(run, n) {
      forall n | 1 <= n <= |run.ticks| && !IsNoticed(run, n)
        ensures Load(run, n).config == Load(run, n - 1).config
      {
        assert IsUpToDate(run, n) && IsUpToDate(run, n - 1);
      }
    }
    if IsSteady(run) {
      forall n: nat | n <= |run.ticks|
        ensures IsUpToDate(run, n)
      {
        SteadyIsUpToDate(run, n);
      }
    }
  }

  lemma {:induction false} SteadyIsUpToDate(run: Run, n: nat)
    requires IsSteady(run) && n <= |run.ticks|
    ensures IsUpToDate(run, n)
  {
    if IsNoticed(run, n) {
    } else {
      SteadyIsUpToDate(run, n - 1);
    }
  }

  lemma {:induction false} EventHasRound(run: Run, n: nat, e: Event)
    requires n <= |run.ticks| && e in RunEvents(run, n)
    ensures exists t: nat :: t < n && e in RoundLog(run, t)
  {
    if e in RunEvents(run, n - 1) {
      EventHasRound(run, n - 1, e);
    } else {
      assert e in RoundLog(run, n - 1);
    }
  }

  lemma EventOfRun(run: Run, n: nat, e: Event) returns (r: Round)
    requires n <= |run.ticks| && e in RunEvents(run, n)
    ensures e.tick < n && r == RoundAt(run, e.tick) && IsEventOf(r, e)
  {
    EventHasRound(run, n, e);
    var t: nat :| t < n && e in RoundLog(run, t);
    r := RoundAt(run, t);
    EventOfRound(r, 0, e);
  }

  /** Who served a connection: the acceptor is of the load bound last, the pipeline at the same
      position of the load noticed last. */
  ghost predicate MetBy(run: Run, e: Event, bound: ProxyConfig, current: ProxyConfig) {
    && e.tick < |run.ticks| && e.fate.ServedBy?
    && bound == Load(run, BoundLoad(run, e.tick + 1)).config && current == Load(run, CurrentLoad(run, e.tick + 1)).config
    && e.index < |bound.listeners| && e.acceptor == bound.listeners[e.index].name
    && e.index < |current.listeners| && e.fate.pipeline == Pipeline(current, current.listeners[e.index].name)
  }

  lemma ServedEvent(run: Run, n: nat, e: Event) returns (bound: ProxyConfig, current: ProxyConfig)
    requires n <= |run.ticks| && e in RunEvents(run, n) && e.fate.ServedBy?
    ensures e.tick < n && MetBy(run, e, bound, current)
  {
    var r := EventOfRun(run, n, e);
    assert e.fate.pipeline == r.pipelines[e.index];
    bound, current := Load(run, BoundLoad(run, e.tick + 1)).config, Load(run, CurrentLoad(run, e.tick + 1)).config;
  }

  /** In a steady run every connection is served under the configuration loaded at the top of its
      iteration; and, when the latest bind succeeded, by its own listener's pipeline. */
  lemma {:induction false} ServedByCurrentConfig(run: Run, n: nat, e: Event)
    requires n <= |run.ticks| && IsSteady(run) && e in RunEvents(run, n) && e.fate.ServedBy?
    ensures e.tick < n && e.fate.pipeline.config == run.ticks[e.tick].loaded.config
    ensures BoundLoad(run, e.tick + 1) == CurrentLoad(run, e.tick + 1) ==> e.fate.pipeline.listenerName == e.acceptor
  {
    var bound, current := ServedEvent(run, n, e);
    SteadyIsUpToDate(run, e.tick + 1);
  }

  /** In general a connection is served by its own listener's pipeline exactly when the load bound
      last and the load noticed last name the listener at its position alike. */
  lemma {:induction false} OwnPipelineIff(run: Run, n: nat, e: Event)
    requires n <= |run.ticks| && e in RunEvents(run, n) && e.fate.ServedBy?
    ensures e.tick < n
    ensures var bound, current := Load(run, BoundLoad(run, e.tick + 1)).config, Load(run, CurrentLoad(run, e.tick + 1)).config;
            && e.index < |bound.listeners| && e.index < |current.listeners|
            && (e.fate.pipeline.listenerName == e.acceptor
                <==> bound.listeners[e.index].name == current.listeners[e.index].name)
  {
    var bound, current := ServedEvent(run, n, e);
  }

  /** Load `k` was noticed, and every load since has its identity. */
  ghost predicate IsInUse(run: Run, k: nat, n: nat)
    requires n <= |run.ticks|
  {
    k <= n && IsNoticed(run, k) && forall j :: k <= j <= n ==> Load(run, j).id == Load(run, n).id
  }

  lemma {:induction false} OnlyCurrentIsInUse(run: Run, n: nat)
    requires n <= |run.ticks|
    ensures forall k: nat {:trigger IsInUse(run, k, n)} :: IsInUse(run, k, n) <==> k == CurrentLoad(run, n)
  {
    var c := CurrentLoad(run, n);
    CurrentLoadIs(run, n);
    forall k: nat {:trigger IsInUse(run, k, n)} | IsInUse(run, k, n)
      ensures k == c
    {
      InUseIsLast(run, k, n);
    }
  }

  lemma {:induction false} InUseIsLast(run: Run, k: nat, n: nat)
    requires n <= |run.ticks| && IsInUse(run, k, n)
    ensures k == CurrentLoad(run, n)
  {
    if k == n {
    } else {
      assert Load(run, n).id == Load(run, n - 1).id;
      InUseIsLast(run, k, n - 1);
    }
  }

  /** A load is missed exactly when the configuration in use, that of the first load with its identity,
      is another: an identity used again at once hides a change. */
  lemma {:induction false} LoadIsMissedIff(run: Run, n: nat, e: Event)
    requires n <= |run.ticks| && e in RunEvents(run, n) && e.fate.ServedBy?
    ensures e.tick < n
    ensures e.fate.pipeline.config != Load(run, e.tick + 1).config
            <==> exists k: nat :: IsInUse(run, k, e.tick + 1) && Load(run, k).config != Load(run, e.tick + 1).config
  {
    var bound, current := ServedEvent(run, n, e);
    OnlyCurrentIsInUse(run, e.tick + 1);
    assert IsInUse(run, CurrentLoad(run, e.tick + 1), e.tick + 1);
  }

  /** A run ends by a panic exactly when its log holds one. */
  lemma PanicIsLogged(run: Run, last: nat, exit: Exit)
    requires Ends(run, last, exit)
    ensures exit == Panicked <==> exists e :: e in LogOf(run, last, exit) && e.fate.PanickedIn?
  {
    NoPanicBefore(run, last);
    if exit == Panicked {
      var e :| e in RoundLog(run, last) && e.fate.PanickedIn?;
      assert e in LogOf(run, last, exit);
    }
  }

  lemma {:induction false} NoPanicBefore(run: Run, n: nat)
    requires n <= |run.ticks| && GoesOn(run, n)
    ensures forall e :: e in RunEvents(run, n) ==> !e.fate.PanickedIn?
  {
    if n == 0 {
    } else {
      NoPanicBefore(run, n - 1);
      assert ExitAt(run, n - 1) == StillRunning;
    }
  }

  /** A run ends for want of listeners in the iteration that loads a configuration without any under
      a new identity. */
  lemma NoListenersIff(run: Run, t: nat)
    requires Starts(run) && t < |run.ticks| && GoesOn(run, t)
    ensures ExitAt(run, t) == NoListeners
            <==> !run.ticks[t].shutdown && IsNoticed(run, t + 1) && run.ticks[t].loaded.config.listeners == []
  {
    BoundIsNotEmpty(run, t);
  }

  lemma {:induction false} BoundIsNotEmpty(run: Run, t: nat)
    requires Starts(run) && t <= |run.ticks| && GoesOn(run, t)
    ensures Load(run, BoundLoad(run, t)).config.listeners != []
  {
    if t == 0 {
    } else {
      BoundIsNotEmpty(run, t - 1);
      assert ExitAt(run, t - 1) == StillRunning;
    }
  }

  // What becomes of a connection

  /** The acceptor does TLS: its listener, in the load bound last, is for HTTPS and has a TLS section, from
      which an acceptor could be built when it was bound. */
  ghost predicate DoesTls(run: Run, t: nat, i: nat)
    requires t < |run.ticks| && i < |Load(run, BoundLoad(run, t + 1)).config.listeners|
  {
    var k := BoundLoad(run, t + 1);
    var l := Load(run, k).config.listeners[i];
    && l.protocol == Https && l.tls != None
    && i < |BindsOf(run, k)| && BindsOf(run, k)[i].tlsBuilt
  }

  ghost predicate HandshakeFails(run: Run, t: nat, i: nat)
    requires t < |run.ticks|
  {
    i >= |run.ticks[t].arrivals| || !run.ticks[t].arrivals[i].handshakeOk
  }

  ghost predicate PipelinePanics(run: Run, t: nat, i: nat)
    requires t < |run.ticks|
  {
    i < |run.ticks[t].arrivals| && run.ticks[t].arrivals[i].panics
  }

  /** The fate of every connection of every run.  It is dropped exactly when the load noticed last has no
      listener at its position; its handshake fails exactly when its acceptor does TLS and that goes wrong;
      and otherwise the pipeline at its position takes it, in the clear only where the acceptor does none. */
  lemma {:induction false} ConnectionFateIs(run: Run, n: nat, e: Event)
    requires n <= |run.ticks| && e in RunEvents(run, n)
    ensures e.tick < n && e.index < |Load(run, BoundLoad(run, e.tick + 1)).config.listeners|
    ensures var current := Load(run, CurrentLoad(run, e.tick + 1)).config;
            var taken := e.index < |current.listeners|;
            var fails := DoesTls(run, e.tick, e.index) && HandshakeFails(run, e.tick, e.index);
            && (e.fate == Unserved <==> !taken)
            && (e.fate == HandshakeFailed <==> taken && fails)
            && (e.fate.PanickedIn? <==> taken && !fails && PipelinePanics(run, e.tick, e.index))
            && (e.fate.ServedBy? <==> taken && !fails && !PipelinePanics(run, e.tick, e.index))
            && (e.fate.ServedBy? || e.fate.PanickedIn? ==>
                  e.fate.pipeline == Pipeline(current, current.listeners[e.index].name))
  {
    var r := EventOfRun(run, n, e);
    AcceptorIs(run, e.tick, e.index);
    ArrivalIs(run, e.tick, e.index);
    var current := Load(run, CurrentLoad(run, e.tick + 1)).config;
    assert |r.pipelines| == |current.listeners|;
    assert e.index < |r.pipelines| ==> r.pipelines[e.index] == Pipeline(current, current.listeners[e.index].name);
  }

  lemma {:induction false} AcceptorIs(run: Run, t: nat, i: nat)
    requires t < |run.ticks| && i < |RoundAt(run, t).states|
    ensures i < |Load(run, BoundLoad(run, t + 1)).config.listeners|
    ensures RoundAt(run, t).states[i].tls <==> DoesTls(run, t, i)
  {
    var k := BoundLoad(run, t + 1);
    var states := StatesOf(Load(run, k).config, BindsOf(run, k));
    assert states[i] == StateOf(Load(run, k).config.listeners[i], Outcome(BindsOf(run, k), i));
  }

  lemma ArrivalIs(run: Run, t: nat, i: nat)
    requires t < |run.ticks|
    ensures ArrivalAt(run.ticks[t].arrivals, i).handshakeOk <==> !HandshakeFails(run, t, i)
    ensures ArrivalAt(run.ticks[t].arrivals, i).panics <==> PipelinePanics(run, t, i)
  {
  }

  // An input that misroutes

  const PLAIN := ListenerConfig("plain", 80, Http, None, None)
  const ADMIN := ListenerConfig("admin", 81, Http, None, None)

  /** The worker binds "plain"; then "admin" is loaded in its place but cannot be bound; then a
      connection comes in. */
  const FAILED_REBIND := Run(
    Loaded(1, ProxyConfig("v1", GatewayRef("ns", "gw"), [PLAIN], [])),
    [BindOutcome(true, false)],
    [ Tick(false, Loaded(1, ProxyConfig("v1", GatewayRef("ns", "gw"), [PLAIN], [])), [BindOutcome(true, false)],
           []),
      Tick(false, Loaded(2, ProxyConfig("v1", GatewayRef("ns", "gw"), [ADMIN], [])), [BindOutcome(false, false)],
           [Arrival(false, true, false, false)])])

  /** It is accepted for "plain" and served as "admin". */
  lemma FailedRebindMisroutes()
    ensures Starts(FAILED_REBIND) && Ends(FAILED_REBIND, 2, StillRunning) && IsSteady(FAILED_REBIND)
    ensures RunEvents(FAILED_REBIND, 2)
            == [Event(1, 0, "plain", ServedBy(Pipeline(FAILED_REBIND.ticks[1].loaded.config, "admin")))]
  {
    var run := FAILED_REBIND;
    assert BoundLoad(run, 1) == 0 && CurrentLoad(run, 1) == 0;
    assert BoundLoad(run, 2) == 0 && CurrentLoad(run, 2) == 2 by {
      assert !BindsAll(Load(run, 2).config, BindsOf(run, 2)) by {
        assert !Outcome(BindsOf(run, 2), 0).bound;
      }
    }
    var r, q := RoundAt(run, 0), RoundAt(run, 1);
    assert |r.states| == 1 && |q.states| == 1;
    assert EventsFrom(r, 1) == EventsFrom(r, 0) == [];
    assert EventsFrom(q, 1) == [] && EventsFrom(q, 0) == [Event(1, 0, "plain", FateOf(q, 0))];
    assert RunEvents(run, 1) == RunEvents(run, 0) + RoundLog(run, 0) == [];
    assert RunEvents(run, 2) == RunEvents(run, 1) + RoundLog(run, 1);
    assert ExitAt(run, 0) == StillRunning && ExitAt(run, 1) == StillRunning;
  }

  // An input that hides a load

  /** The worker starts with "plain"; then another configuration, with "admin" in its place, is loaded
      under the same identity; then a connection comes in. */
  const REUSED_IDENTITY := Run(
    Loaded(1, ProxyConfig("v1", GatewayRef("ns", "gw"), [PLAIN], [])),
    [BindOutcome(true, false)],
    [ Tick(false, Loaded(1, ProxyConfig("v1", GatewayRef("ns", "gw"), [ADMIN], [])), [BindOutcome(true, false)],
           [Arrival(false, true, false, false)])])

  /** It is served under the first configuration: the second is never used. */
  lemma ReusedIdentityHidesLoad()
    ensures Starts(REUSED_IDENTITY) && Ends(REUSED_IDENTITY, 1, StillRunning)
    ensures RunEvents(REUSED_IDENTITY, 1)
            == [Event(0, 0, "plain", ServedBy(Pipeline(REUSED_IDENTITY.first.config, "plain")))]
    ensures REUSED_IDENTITY.first.config != REUSED_IDENTITY.ticks[0].loaded.config
  {
    var run := REUSED_IDENTITY;
    assert BoundLoad(run, 1) == 0 && CurrentLoad(run, 1) == 0;
    var r := RoundAt(run, 0);
    assert |r.states| == 1;
    assert EventsFrom(r, 1) == [] && EventsFrom(r, 0) == [Event(0, 0, "plain", FateOf(r, 0))];
    assert RunEvents(run, 1) == RunEvents(run, 0) + RoundLog(run, 0);
    assert ExitAt(run, 0) == StillRunning;
    assert PLAIN.name != ADMIN.name;
    assert [PLAIN][0] != [ADMIN][0];
  }

  // An HTTPS listener

  const SECURE := ListenerConfig("secure", 443, Https, None, Some(TlsConfig(Terminate, [], [])))

  /** A listener with TLS, and a connection whose handshake fails. */
  const BAD_HANDSHAKE := Run(
    Loaded(1, ProxyConfig("v1", GatewayRef("ns", "gw"), [SECURE], [])),
    [BindOutcome(true, true)],
    [ Tick(false, Loaded(1, ProxyConfig("v1", GatewayRef("ns", "gw"), [SECURE], [])), [], [Arrival(false, true, false, false)])])

  /** It is not served in the clear. */
  lemma BadHandshakeIsNotServed()
    ensures Starts(BAD_HANDSHAKE) && Ends(BAD_HANDSHAKE, 1, StillRunning)
    ensures RunEvents(BAD_HANDSHAKE, 1) == [Event(0, 0, "secure", HandshakeFailed)]
  {
    var run := BAD_HANDSHAKE;
    assert BoundLoad(run, 1) == 0 && CurrentLoad(run, 1) == 0;
    var r := RoundAt(run, 0);
    assert |r.states| == 1 && r.states[0].tls;
    assert EventsFrom(r, 1) == [] && EventsFrom(r, 0) == [Event(0, 0, "secure", FateOf(r, 0))];
    assert RunEvents(run, 1) == RunEvents(run, 0) + RoundLog(run, 0);
    assert ExitAt(run, 0) == StillRunning;
  }
}
