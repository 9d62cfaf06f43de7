/** Whole runs: any sequence of registrations and start calls from an empty
    registry. */
module StarterSystem {
  import opened Common
  import opened ThreadGraph
  import opened Starter
  import opened StarterRuns

  /** `graph` is what name lookup sees, `entries` is the array in registration order. */
  datatype System = System(graph: Graph, world: World, entries: seq<Entry>)

  datatype Op =
    | Register(name: string, offered: seq<Option<string>>, initReturn: int, hasSem: bool,
               signalArrives: bool, autoStart: bool)
    | StartOne(name: string)
    | StartAuto

  ghost predicate WellFormed(s: System) {
    s.world.states.Keys == s.graph.Keys && Known(s.graph, s.entries)
  }

  /** A descriptor in the given state takes the next slot. `found` says whether
      lookup finds it: then its name stands for it, with these dependencies. A
      descriptor that is already in the registry may come again. */
  ghost function Appended(s: System, name: string, t: Thread, state: ThreadState, autoStart: bool, found: bool):
      (s': System)
    requires WellFormed(s) && (!found ==> name in s.graph)
    ensures WellFormed(s')
  {
    if |s.entries| >= MAX_THREADS then s
    else if found then
      System(s.graph[name := t], SetState(s.world, name, state), s.entries + [Entry(name, autoStart, None)])
    else s.(entries := s.entries + [Entry(name, autoStart, Some(state))])
  }

  /** A new descriptor in state Initial: the first registration of a name wins, and
      later ones only take up a slot. */
  ghost function Registered(s: System, name: string, t: Thread, autoStart: bool): (s': System)
    requires WellFormed(s)
    ensures WellFormed(s')
  {
    Appended(s, name, t, Initial, autoStart, name !in s.graph)
  }

  ghost function Apply(s: System, op: Op): (s': System)
    requires WellFormed(s)
    ensures WellFormed(s')
  {
    match op
    case Register(name, offered, initReturn, hasSem, signalArrives, autoStart) =>
      Registered(s, name, Thread(StoredDeps(offered), initReturn, hasSem, signalArrives), autoStart)
    case StartOne(name) => s.(world := Start(s.graph, s.world, [], name).world)
    case StartAuto => s.(world := StartAll(s.graph, s.world, [], s.entries).world)
  }

  ghost function Run(s: System, ops: seq<Op>): (s': System)
    requires WellFormed(s)
    ensures WellFormed(s')
    decreases |ops|
  {
    if ops == [] then s else Run(Apply(s, ops[0]), ops[1..])
  }

  const EMPTY := System(map[], World(map[], [], 0), [])

  ghost predicate SystemInv(s: System) {
    && WellFormed(s) && Inv(s.graph, s.world) && LogInv(s.graph, s.world) && Bounded(s.graph)
    && |s.entries| <= MAX_THREADS
  }

  /** `s'` is later than `s`: lookups give the same thread, settled threads stay
      settled, and the log has only grown. */
  ghost predicate Later(s: System, s': System) {
    && WellFormed(s) && WellFormed(s')
    && (forall n | n in s.graph :: n in s'.graph && s'.graph[n] == s.graph[n])
    && (forall n | n in s.graph && Settled(s.world.states[n]) :: s'.world.states[n] == s.world.states[n])
    && s.world.log <= s'.world.log
    && s.entries <= s'.entries
  }

  lemma RegisterKeepsInv(s: System, name: string, t: Thread, autoStart: bool)
    requires SystemInv(s) && name !in s.graph && |s.entries| < MAX_THREADS
    ensures var s' := Registered(s, name, t, autoStart);
            Inv(s'.graph, s'.world)
  {
    var s' := Registered(s, name, t, autoStart);
    var g, g', w, w' := s.graph, s'.graph, s.world, s'.world;
    forall n | n in g' && w'.states[n] != Initial ensures n in g && DepsReady(g, w, n) && DepsReady(g', w', n) {
      assert n != name;
      assert DepsReady(g, w, n);
    }
    forall n | n in g && Startable(g, n) ensures Startable(g', n) {
      var k: nat :| n in Level(g, k);
      LevelGrows(g, g', k);
    }
  }

  lemma RegisterKeepsLog(s: System, name: string, t: Thread, autoStart: bool)
    requires SystemInv(s) && name !in s.graph && |s.entries| < MAX_THREADS
    ensures var s' := Registered(s, name, t, autoStart);
            LogInv(s'.graph, s'.world)
  {
    var s' := Registered(s, name, t, autoStart);
    forall i | 0 <= i < |s.world.log| ensures EventInOrder(s'.graph, s.world.log, i) {
      assert EventInOrder(s.graph, s.world.log, i);
    }
    LoggedIsKnown(s.graph, s.world.log, name);
    TakeFollowsInit(s.graph, s.world.log, name);
  }

  lemma LoggedIsKnown(g: Graph, log: seq<Event>, n: string)
    requires forall i | 0 <= i < |log| :: EventInOrder(g, log, i)
    ensures Init(n) in log ==> n in g
  {
    if Init(n) in log {
      var i :| 0 <= i < |log| && log[i] == Init(n);
      assert EventInOrder(g, log, i);
    }
  }

  lemma RegisterKeeps(s: System, name: string, t: Thread, autoStart: bool)
    requires SystemInv(s) && |t.deps| <= MAX_DEPENDENCIES
    ensures var s' := Registered(s, name, t, autoStart);
            SystemInv(s') && Later(s, s')
  {
    if name !in s.graph && |s.entries| < MAX_THREADS {
      RegisterKeepsInv(s, name, t, autoStart);
      RegisterKeepsLog(s, name, t, autoStart);
    }
  }

  lemma ApplyKeeps(s: System, op: Op)
    requires SystemInv(s)
    ensures SystemInv(Apply(s, op)) && Later(s, Apply(s, op))
  {
    match op
    case Register(name, offered, initReturn, hasSem, signalArrives, autoStart) =>
      RegisterKeeps(s, name, Thread(StoredDeps(offered), initReturn, hasSem, signalArrives), autoStart);
    case StartOne(name) =>
      StartKeeps(s.graph, s.world, [], name);
      StartLogs(s.graph, s.world, [], name);
      StartFrame(s.graph, s.world, [], name);
    case StartAuto =>
      StartAllKeeps(s.graph, s.world, [], s.entries);
  }

  lemma {:induction false} RunKeeps(s: System, ops: seq<Op>)
    requires SystemInv(s)
    ensures SystemInv(Run(s, ops)) && Later(s, Run(s, ops))
    decreases |ops|
  {
    if ops != [] {
      ApplyKeeps(s, ops[0]);
      RunKeeps(Apply(s, ops[0]), ops[1..]);
    }
  }

  /** From an empty registry, every run ends in a state that satisfies the
      invariant. */
  lemma EveryRunIsSound(ops: seq<Op>)
    ensures SystemInv(Run(EMPTY, ops))
  {
    RunKeeps(EMPTY, ops);
  }

  /** Blame: a thread that cannot get its dependencies up is left Initial. It is
      Failed only when all of them are Ready and its own outcome was bad. */
  lemma BlameIsAccurate(ops: seq<Op>, n: string)
    requires n in Run(EMPTY, ops).graph
    ensures var s := Run(EMPTY, ops);
            && s.world.states[n] != Running
            && (!DepsReady(s.graph, s.world, n) ==> s.world.states[n] == Initial)
            && (s.world.states[n] == Failed ==>
                  DepsReady(s.graph, s.world, n) && !s.graph[n].Healthy())
  {
    EveryRunIsSound(ops);
  }

  /** A start that returned 0 has made its thread Ready for good: in every later
      state it is still Ready and its dependency check still passes. */
  lemma ReadyForever(before: seq<Op>, n: string, after: seq<Op>)
    requires var s := Run(EMPTY, before);
             Start(s.graph, s.world, [], n).ret == 0
    ensures var s := Run(Apply(Run(EMPTY, before), StartOne(n)), after);
            && n in s.graph
            && s.world.states[n] == Ready
            && CheckDependencies(s.graph, s.world, n)
  {
    var s := Run(EMPTY, before);
    EveryRunIsSound(before);
    StartKeeps(s.graph, s.world, [], n);
    ApplyKeeps(s, StartOne(n));
    RunKeeps(Apply(s, StartOne(n)), after);
    var s' := Run(Apply(s, StartOne(n)), after);
    assert DepsReady(s'.graph, s'.world, n);
  }

  /** What the answer of check_thread_dependencies says: the thread is registered,
      and each of its dependencies has been initialised, with success. */
  lemma CheckMeansStarted(ops: seq<Op>, n: string)
    ensures var s := Run(EMPTY, ops);
            CheckDependencies(s.graph, s.world, n) <==>
            n in s.graph && forall d | d in s.graph[n].deps ::
              d in s.graph && Init(d) in s.world.log && s.graph[d].Healthy()
  {
    EveryRunIsSound(ops);
    var s := Run(EMPTY, ops);
    forall d | d in s.graph
      ensures s.world.states[d] == Ready <==> Init(d) in s.world.log && s.graph[d].Healthy()
    {
      assert Init(d) in s.world.log <==> Settled(s.world.states[d]);
    }
  }

  /** wait_for_dependency_ready only ever takes its first branch: in every world
      that satisfies the invariant, so also in the middle of a recursion, after a
      dependency's start has returned 0 the wait returns 0 at once and does not
      touch a semaphore. */
  lemma WaitIsImmediate(g: Graph, w: World, stack: seq<string>, n: string)
    requires Inv(g, w) && Start(g, w, stack, n).ret == 0
    ensures var w' := Start(g, w, stack, n).world;
            n in g && Wait(g, w', n) == Outcome(w', 0)
  {
    StartKeeps(g, w, stack, n);
  }
}
