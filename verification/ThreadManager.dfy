/** The thread dependency manager as the program keeps it: a fixed registry of
    pointers to descriptors that are updated in place, and one call stack shared
    by the recursion. Every method is proved against the specification in
    modules Starter and StarterSystem. */
module ThreadManager {
  import opened Common
  import opened ThreadGraph
  import opened Starter
  import opened StarterSystem

  /** What a caller offers: nothing, when the count is not positive or the list
      is a null pointer. */
  function Offered(deps: Option<seq<Option<string>>>, depCount: int): seq<Option<string>>
    requires deps.Some? ==> depCount <= |deps.value|
  {
    if depCount > 0 && deps.Some? then deps.value[..depCount] else []
  }

  /** `r` is what a registration with these dependencies keeps: the names offered,
      from the first one on, until there are no more, or one is missing or empty, or
      eight are kept. */
  ghost predicate Keeps(deps: Option<seq<Option<string>>>, depCount: int, r: seq<string>) {
    var offered := if deps.None? || depCount <= 0 then 0 else depCount;
    && |r| <= offered && |r| <= 8
    && (forall i | 0 <= i < |r| :: i < |deps.value| && deps.value[i] == Some(r[i]) && r[i] != "")
    && (|r| == offered || |r| == 8 ||
          (|r| < |deps.value| && (deps.value[|r|] == None || deps.value[|r|] == Some(""))))
  }

  /** The stored dependencies are the only list with the stated properties. */
  lemma StoredDepsUnique(offered: seq<Option<string>>, r: seq<string>)
    requires |r| <= MAX_DEPENDENCIES && |r| <= |offered|
    requires forall i | 0 <= i < |r| :: Starter.Valid(offered[i]) && offered[i].value == r[i]
    requires |r| == MAX_DEPENDENCIES || |r| == |offered| || !Starter.Valid(offered[|r|])
    ensures r == StoredDeps(offered)
  {
  }

  /** A thread descriptor. `initReturn` and `signalArrives` stand for what
      init_func returns and for whether the ready semaphore is given in time.
      The eight dependency slots are part of the structure itself, so they are a
      value here: no other descriptor can share them. */
  class Descriptor {
    const name: string
    const initReturn: int
    const hasSem: bool
    const signalArrives: bool
    const autoStart: bool
    var dependencies: seq<string>
    var dependencyCount: nat
    var state: ThreadState

    /** Model field: what the manager knows of this thread. */
    ghost var view: Thread

    constructor (name: string, initReturn: int, hasSem: bool, signalArrives: bool, autoStart: bool)
      ensures this.name == name && this.autoStart == autoStart
      ensures this.initReturn == initReturn && this.hasSem == hasSem && this.signalArrives == signalArrives
      ensures state == Initial && dependencyCount == 0
      ensures Valid()
    {
      this.name, this.autoStart := name, autoStart;
      this.initReturn, this.hasSem, this.signalArrives := initReturn, hasSem, signalArrives;
      dependencies := seq(MAX_DEPENDENCIES, _ => "");
      dependencyCount, state := 0, Initial;
      view := Thread([], initReturn, hasSem, signalArrives);
    }

    ghost predicate Valid()
      reads this`dependencies, this`dependencyCount, this`view
    {
      && |view.deps| == dependencyCount <= |dependencies| == MAX_DEPENDENCIES
      && (forall i | 0 <= i < dependencyCount :: dependencies[i] == view.deps[i])
      && view == Thread(view.deps, initReturn, hasSem, signalArrives)
    }

    /** Keeps what is usable of the dependencies offered at registration. */
    method StoreDependencies(deps: Option<seq<Option<string>>>, depCount: int)
      requires Valid() && (deps.Some? ==> depCount <= |deps.value|)
      modifies this`dependencyCount, this`dependencies, this`view
      ensures Valid() && view.deps == StoredDeps(Offered(deps, depCount)) && Keeps(deps, depCount, view.deps)
    {
      dependencyCount := 0;
      if depCount > 0 && deps.Some? {
        var validDeps := 0;
        var i := 0;
        while i < depCount && i < MAX_DEPENDENCIES
          invariant |dependencies| == MAX_DEPENDENCIES && view == old(view)
          invariant 0 <= i <= depCount && i <= MAX_DEPENDENCIES && validDeps == i
          invariant forall j | 0 <= j < i ::
                      deps.value[j] == Some(dependencies[j]) && dependencies[j] != ""
        {
          if deps.value[i].None? || deps.value[i].value == "" {
            break;
          }
          dependencies := dependencies[validDeps := deps.value[i].value];
          validDeps := validDeps + 1;
          i := i + 1;
        }
        dependencyCount := validDeps;
      }
      StoredDepsUnique(Offered(deps, depCount), dependencies[..dependencyCount]);
      view := view.(deps := dependencies[..dependencyCount]);
    }
  }

  /** `position` gives the first index of each name in the registry. */
  ghost predicate Indexed(threads: seq<Descriptor>, position: map<string, nat>) {
    && (forall i {:trigger threads[i]} | 0 <= i < |threads| ::
          threads[i].name in position && position[threads[i].name] <= i)
    && (forall n {:trigger position[n]} | n in position :: position[n] < |threads| && threads[position[n]].name == n)
  }

  lemma IndexedName(threads: seq<Descriptor>, position: map<string, nat>, n: string)
    requires Indexed(threads, position)
    ensures n in position ==> exists i :: 0 <= i < |threads| && threads[i].name == n
  {
    if n in position {
      assert threads[position[n]].name == n;
    }
  }

  /** The descriptor that a lookup of `n` finds. */
  ghost function Lookup(threads: seq<Descriptor>, position: map<string, nat>, n: string): Descriptor
    requires Indexed(threads, position) && n in position
  {
    threads[position[n]]
  }

  ghost predicate Found(threads: seq<Descriptor>, position: map<string, nat>, d: Descriptor)
    requires Indexed(threads, position)
  {
    d.name in position && Lookup(threads, position, d.name) == d
  }

  function Called(w: World): World {
    w.(calls := w.calls + 1)
  }

  /** What a start does once its thread is on the call stack. */
  ghost function Visit(g: Graph, w: World, stack: seq<string>, n: string): Outcome
    requires w.states.Keys == g.Keys
  {
    if n !in g then Outcome(w, -1)
    else match w.states[n]
      case Ready => Outcome(w, 0)
      case Running => Outcome(w, 0)
      case Failed => Outcome(w, -1)
      case Initial =>
        var o := StartDeps(g, w, stack, g[n].deps);
        if o.ret != 0 then o else Launch(g, o.world, n)
  }

  lemma StartIsVisit(g: Graph, w: World, stack: seq<string>, n: string)
    requires w.states.Keys == g.Keys
    ensures Start(g, w, stack, n) ==
            if n in stack || |stack| >= MAX_CALL_STACK_DEPTH then Outcome(Called(w), -1)
            else Visit(g, Called(w), stack + [n], n)
  {
  }

  /** One dependency: start it, find it, wait for it. */
  ghost function StartDep(g: Graph, w: World, stack: seq<string>, d: string): (o: Outcome)
    requires w.states.Keys == g.Keys
    ensures o.world.states.Keys == g.Keys
  {
    var o := Start(g, w, stack, d);
    if o.ret != 0 then o
    else if d !in g then Outcome(o.world, -1)
    else Wait(g, o.world, d)
  }

  lemma StartDepsStep(g: Graph, w: World, stack: seq<string>, deps: seq<string>, i: nat)
    requires w.states.Keys == g.Keys && i < |deps|
    ensures var o := StartDep(g, w, stack, deps[i]);
            StartDeps(g, w, stack, deps[i..]) ==
            if o.ret != 0 then o else StartDeps(g, o.world, stack, deps[i + 1..])
  {
    assert deps[i..][0] == deps[i] && deps[i..][1..] == deps[i + 1..];
  }

  function Plus(n: nat, t: Tally): Tally {
    Tally(t.world, n + t.failed)
  }

  /** What start_all_auto_threads does about one descriptor. */
  ghost function StartEntry(g: Graph, w: World, stack: seq<string>, e: Entry): (t: Tally)
    requires w.states.Keys == g.Keys && e.name in g
    ensures t.world.states.Keys == g.Keys
  {
    if e.autoStart && StateOf(w, e) == Initial then
      var o := Start(g, w, stack, e.name);
      Tally(o.world, if o.ret != 0 then 1 else 0)
    else Tally(w, 0)
  }

  lemma StartAllStep(g: Graph, w: World, stack: seq<string>, es: seq<Entry>, i: nat)
    requires w.states.Keys == g.Keys && Known(g, es) && i < |es|
    ensures var t := StartEntry(g, w, stack, es[i]);
            StartAll(g, w, stack, es[i..]) == Plus(t.failed, StartAll(g, t.world, stack, es[i + 1..]))
  {
    assert es[i..][0] == es[i] && es[i..][1..] == es[i + 1..];
  }

  /** A loop over the descriptors has come to the i-th one with so many failures. */
  ghost predicate Progress(g: Graph, w0: World, w: World, stack: seq<string>, es: seq<Entry>, i: nat, failed: nat) {
    && w0.states.Keys == w.states.Keys == g.Keys && Known(g, es) && i <= |es|
    && StartAll(g, w0, stack, es) == Plus(failed, StartAll(g, w, stack, es[i..]))
  }

  lemma ProgressStart(g: Graph, w: World, stack: seq<string>, es: seq<Entry>)
    requires w.states.Keys == g.Keys && Known(g, es)
    ensures Progress(g, w, w, stack, es, 0, 0)
  {
    assert es[0..] == es;
  }

  lemma ProgressStep(g: Graph, w0: World, w: World, w': World, stack: seq<string>, es: seq<Entry>, i: nat,
                     failed: nat, more: nat)
    requires Progress(g, w0, w, stack, es, i, failed) && i < |es|
    requires StartEntry(g, w, stack, es[i]) == Tally(w', more)
    ensures Progress(g, w0, w', stack, es, i + 1, failed + more)
  {
    StartAllStep(g, w, stack, es, i);
  }

  lemma ProgressEnd(g: Graph, w0: World, w: World, stack: seq<string>, es: seq<Entry>, failed: nat)
    requires Progress(g, w0, w, stack, es, |es|, failed)
    ensures StartAll(g, w0, stack, es) == Tally(w, failed)
  {
  }

  /** A loop over the dependencies has come to the i-th one without a failure. */
  ghost predicate DepsProgress(g: Graph, w0: World, w: World, stack: seq<string>, deps: seq<string>, i: nat) {
    && w0.states.Keys == w.states.Keys == g.Keys && i <= |deps|
    && StartDeps(g, w0, stack, deps) == StartDeps(g, w, stack, deps[i..])
  }

  lemma DepsProgressStart(g: Graph, w: World, stack: seq<string>, deps: seq<string>)
    requires w.states.Keys == g.Keys
    ensures DepsProgress(g, w, w, stack, deps, 0)
  {
    assert deps[0..] == deps;
  }

  lemma DepsProgressStep(g: Graph, w0: World, w: World, stack: seq<string>, deps: seq<string>, i: nat)
    requires DepsProgress(g, w0, w, stack, deps, i) && i < |deps|
    ensures var o := StartDep(g, w, stack, deps[i]);
            if o.ret == 0 then DepsProgress(g, w0, o.world, stack, deps, i + 1)
            else StartDeps(g, w0, stack, deps) == o
  {
    StartDepsStep(g, w, stack, deps, i);
  }

  lemma DepsProgressEnd(g: Graph, w0: World, w: World, stack: seq<string>, deps: seq<string>)
    requires DepsProgress(g, w0, w, stack, deps, |deps|)
    ensures StartDeps(g, w0, stack, deps) == Outcome(w, 0)
  {
  }

  /** Where lookup finds each name when `d` comes last. */
  function PlacesWith(threads: seq<Descriptor>, position: map<string, nat>, d: Descriptor): map<string, nat> {
    if d.name in position then position else position[d.name := |threads|]
  }

  /** A new last descriptor changes no lookup of a name that is in use. */
  lemma IndexedAppend(threads: seq<Descriptor>, position: map<string, nat>, d: Descriptor)
    requires Indexed(threads, position)
    ensures Indexed(threads + [d], PlacesWith(threads, position, d))
  {
  }

  lemma LookupAppend(threads: seq<Descriptor>, position: map<string, nat>, d: Descriptor, n: string)
    requires Indexed(threads, position) && Indexed(threads + [d], PlacesWith(threads, position, d))
    requires n in position || n == d.name
    ensures Lookup(threads + [d], PlacesWith(threads, position, d), n)
         == if n in position then Lookup(threads, position, n) else d
  {
  }

  /** `d` is the descriptor that a lookup of its name finds, if it is registered or
      about to be. */
  ghost predicate IsFirst(threads: seq<Descriptor>, position: map<string, nat>, d: Descriptor)
    requires Indexed(threads, position)
  {
    d.name in position ==> Lookup(threads, position, d.name) == d
  }

  class Manager {
    const registered: array<Descriptor?>
    var count: nat
    const callStack: array<string>
    var depth: nat

    /** Model fields: the registry as a list and as a set, the first index of each name in it,
        the abstract system, and the call stack as a list. */
    ghost var threads: seq<Descriptor>
    ghost var descriptors: set<Descriptor>
    ghost var position: map<string, nat>
    ghost var graph: Graph
    ghost var world: World
    ghost var entries: seq<Entry>
    ghost var stack: seq<string>

    ghost predicate ValidStack()
      reads this`stack, this`depth, callStack
    {
      && callStack.Length == MAX_CALL_STACK_DEPTH
      && |stack| == depth <= MAX_CALL_STACK_DEPTH
      && forall i | 0 <= i < depth :: callStack[i] == stack[i]
    }

    ghost predicate ValidRegistry()
      reads this`count, this`threads, this`position, registered
    {
      && registered.Length == MAX_THREADS && count == |threads| <= MAX_THREADS
      && (forall i {:trigger registered[i]} | 0 <= i < count :: registered[i] == threads[i])
      && Indexed(threads, position)
    }

    /** The abstract system says what the descriptors hold. A descriptor that is
        not found by name is hidden behind an earlier one. */
    ghost predicate Abstracts()
      requires Indexed(threads, position)
      reads this`threads, this`position, this`graph, this`world, this`descriptors, descriptors
    {
      && graph.Keys == world.states.Keys == position.Keys
      && (forall i | 0 <= i < |threads| :: threads[i] in descriptors)
      && (forall d {:trigger d.Valid()} | d in descriptors :: d.Valid())
      && (forall n {:trigger Lookup(threads, position, n)} | n in position ::
            graph[n] == Lookup(threads, position, n).view &&
            world.states[n] == Lookup(threads, position, n).state)
    }

    /** For the lookups in `list`, the graph and the states `w` say what the
        descriptors hold, but for `desc` itself, whose name may be missing in them. */
    ghost predicate LookupsHold(list: seq<Descriptor>, places: map<string, nat>, desc: Descriptor, w: World)
      requires Indexed(list, places)
      reads this`graph, this`descriptors, descriptors, list
    {
      && graph.Keys == w.states.Keys && places.Keys + {desc.name} == graph.Keys + {desc.name}
      && (forall i | 0 <= i < |list| :: list[i] in descriptors)
      && (forall d {:trigger d.Valid()} | d in descriptors :: d.Valid())
      && (forall n {:trigger Lookup(list, places, n)} | n in places && Lookup(list, places, n) != desc ::
            && n in graph && w.states[n] == Lookup(list, places, n).state
            && graph[n] == Lookup(list, places, n).view)
    }

    ghost predicate AbstractsOthers(desc: Descriptor, w: World)
      requires Indexed(threads, position)
      reads this`threads, this`position, this`graph, this`descriptors, descriptors, threads
    {
      LookupsHold(threads, position, desc, w)
    }

    ghost predicate Listed()
      requires Indexed(threads, position)
      reads this`threads, this`position, this`entries, this`descriptors, descriptors
    {
      && |entries| == |threads|
      && (forall i {:trigger entries[i]} | 0 <= i < |threads| && threads[i] in descriptors ::
            entries[i] == Entry(threads[i].name, threads[i].autoStart,
              if Found(threads, position, threads[i]) then None else Some(threads[i].state)))
    }

    ghost predicate Valid()
      reads this, registered, callStack, descriptors
    {
      ValidStack() && ValidRegistry() && Abstracts() && Listed()
    }

    /** What the abstract system says of a descriptor that lookup finds. */
    lemma Holds(desc: Descriptor)
      requires Valid() && Found(threads, position, desc)
      ensures desc in descriptors && desc.Valid()
      ensures graph[desc.name] == desc.view && world.states[desc.name] == desc.state
    {
      assert Lookup(threads, position, desc.name) == desc;
    }

    constructor ()
      ensures Valid() && stack == []
      ensures System(graph, world, entries) == EMPTY
      ensures fresh(registered) && fresh(callStack)
    {
      registered := new Descriptor?[MAX_THREADS](_ => null);
      callStack := new string[MAX_CALL_STACK_DEPTH](_ => "");
      count, depth := 0, 0;
      threads, descriptors, position, stack := [], {}, map[], [];
      graph, world, entries := map[], EMPTY.world, [];
    }

    method FindThreadDescriptor(name: string) returns (result: Descriptor?)
      requires ValidRegistry()
      ensures result == if name in position then Lookup(threads, position, name) else null
    {
      var i := 0;
      while i < count
        invariant 0 <= i <= count
        invariant forall j | 0 <= j < i :: threads[j].name != name
      {
        if registered[i].name == name {
          assert registered[position[name]].name == name && threads[i].name == name;
          return registered[i];
        }
        i := i + 1;
      }
      IndexedName(threads, position, name);
      return null;
    }

    method IsCircularDependency(threadName: string) returns (found: bool)
      requires ValidStack()
      ensures found <==> threadName in stack
    {
      for i := 0 to depth
        invariant threadName !in stack[..i]
      {
        if callStack[i] == threadName {
          return true;
        }
      }
      return false;
    }

    method PushCallStack(threadName: string) returns (ok: bool)
      requires Valid()
      modifies callStack, this`depth, this`stack
      ensures Valid()
      ensures ok <==> |old(stack)| < MAX_CALL_STACK_DEPTH
      ensures stack == if ok then old(stack) + [threadName] else old(stack)
    {
      if depth >= MAX_CALL_STACK_DEPTH {
        return false;
      }
      callStack[depth] := threadName;
      depth := depth + 1;
      stack := stack + [threadName];
      return true;
    }

    method PopCallStack()
      requires Valid()
      modifies this`depth, this`stack
      ensures Valid()
      ensures stack == if old(stack) == [] then [] else old(stack)[..|old(stack)| - 1]
    {
      if depth > 0 {
        depth := depth - 1;
        stack := stack[..depth];
      }
    }

    // ---- starting ----

    /** Writing the state of a descriptor that lookup finds changes its entry in
        the state map and nothing else. */
    method SetThreadState(desc: Descriptor, s: ThreadState)
      requires Valid() && Found(threads, position, desc)
      modifies desc`state, this`world
      ensures Valid() && world == SetState(old(world), desc.name, s)
    {
      ghost var before := world;
      desc.state := s;
      world := SetState(world, desc.name, s);
      StateWritten(desc, before);
    }

    /** After the write: all lookups but that of `desc` were right before. */
    lemma StateWritten(desc: Descriptor, before: World)
      requires Indexed(threads, position) && Found(threads, position, desc)
      requires AbstractsOthers(desc, before) && desc.name in graph
      requires graph[desc.name] == desc.view && world == SetState(before, desc.name, desc.state)
      ensures Abstracts()
    {
    }

    method WaitForDependencyReady(depDesc: Descriptor) returns (ret: int)
      requires Valid() && Found(threads, position, depDesc)
      modifies this`world
      ensures Valid() && Outcome(world, ret) == Wait(graph, old(world), depDesc.name)
    {
      Holds(depDesc);
      if depDesc.state == Ready {
        return 0;
      }
      if depDesc.state == Running {
        if depDesc.hasSem {
          world := Log(world, Take(depDesc.name));
          if depDesc.signalArrives {
            return 0;
          } else {
            return -1;
          }
        } else {
          return 0;
        }
      } else {
        return -1;
      }
    }

    /** The launch of a thread whose dependencies are up. */
    method LaunchThread(desc: Descriptor) returns (ret: int)
      requires Valid() && Found(threads, position, desc)
      modifies this`world, desc`state
      ensures Valid() && Outcome(world, ret) == Launch(graph, old(world), desc.name)
    {
      Holds(desc);
      world := Log(world, Init(desc.name));
      ret := desc.initReturn;
      if ret == 0 {
        SetThreadState(desc, Running);
        ret := AwaitReady(desc);
      } else {
        SetThreadState(desc, Failed);
      }
    }

    /** The wait for a launched thread's ready signal. */
    method AwaitReady(desc: Descriptor) returns (ret: int)
      requires Valid() && Found(threads, position, desc)
      modifies this`world, desc`state
      ensures Valid()
      ensures ret == if desc.hasSem && !desc.signalArrives then -1 else 0
      ensures world == SetState(if desc.hasSem then Log(old(world), Take(desc.name)) else old(world),
                                desc.name, if ret == 0 then Ready else Failed)
    {
      if desc.hasSem {
        world := Log(world, Take(desc.name));
        if desc.signalArrives {
          SetThreadState(desc, Ready);
          return 0;
        } else {
          SetThreadState(desc, Failed);
          return -1;
        }
      } else {
        SetThreadState(desc, Ready);
        return 0;
      }
    }

    method StartThreadWithDependencies(threadName: Option<string>) returns (ret: int)
      requires Valid()
      modifies this`depth, this`stack, this`world, callStack, descriptors`state
      ensures Valid() && stack == old(stack)
      ensures threadName.None? ==> ret == -1 && world == old(world)
      ensures threadName.Some? ==>
                Outcome(world, ret) == Start(graph, old(world), old(stack), threadName.value)
      decreases MAX_CALL_STACK_DEPTH - depth, 0
    {
      if threadName.None? {
        return -1;
      }
      var name := threadName.value;
      StartIsVisit(graph, world, stack, name);
      world := Called(world);
      var circular := IsCircularDependency(name);
      if circular {
        return -1;
      }
      var pushed := PushCallStack(name);
      if !pushed {
        return -1;
      }
      ret := VisitThread(name);
      PopCallStack();
    }

    /** The part of a start between the push and the pop. */
    method VisitThread(name: string) returns (ret: int)
      requires Valid()
      modifies this`depth, this`stack, this`world, callStack, descriptors`state
      ensures Valid() && stack == old(stack)
      ensures Outcome(world, ret) == Visit(graph, old(world), stack, name)
      decreases MAX_CALL_STACK_DEPTH - depth, 2
    {
      var desc := FindThreadDescriptor(name);
      if desc == null {
        return -1;
      }
      Holds(desc);
      if desc.state == Ready || desc.state == Running {
        return 0;
      }
      if desc.state == Failed {
        return -1;
      }
      ret := StartDependencies(desc);
      if ret == 0 {
        ret := LaunchThread(desc);
      }
    }

    /** The loop over a thread's dependencies. */
    method StartDependencies(desc: Descriptor) returns (ret: int)
      requires Valid() && Found(threads, position, desc)
      modifies this`depth, this`stack, this`world, callStack, descriptors`state
      ensures Valid() && stack == old(stack)
      ensures Outcome(world, ret) == StartDeps(graph, old(world), stack, graph[desc.name].deps)
      decreases MAX_CALL_STACK_DEPTH - depth, 1, 1
    {
      Holds(desc);
      ghost var deps := graph[desc.name].deps;
      ghost var first := world;
      DepsProgressStart(graph, first, stack, deps);
      var i := 0;
      while i < desc.dependencyCount
        invariant 0 <= i <= desc.dependencyCount && Valid() && stack == old(stack)
        invariant desc.dependencyCount == |deps| && desc.Valid() && desc.view.deps == deps
        invariant DepsProgress(graph, first, world, stack, deps, i)
      {
        ret := StartRound(desc.dependencies[i], first, deps, i);
        if ret != 0 {
          return;
        }
        i := i + 1;
      }
      DepsProgressEnd(graph, first, world, stack, deps);
      return 0;
    }

    /** One round of that loop, with `first` the world before the loop. */
    method StartRound(depName: string, ghost first: World, ghost deps: seq<string>, ghost i: nat) returns (ret: int)
      requires Valid() && i < |deps| && depName == deps[i]
      requires DepsProgress(graph, first, world, stack, deps, i)
      modifies this`depth, this`stack, this`world, callStack, descriptors`state
      ensures Valid() && stack == old(stack)
      ensures ret == 0 ==> DepsProgress(graph, first, world, stack, deps, i + 1)
      ensures ret != 0 ==> Outcome(world, ret) == StartDeps(graph, first, stack, deps)
      decreases MAX_CALL_STACK_DEPTH - depth, 1, 0, 1
    {
      DepsProgressStep(graph, first, world, stack, deps, i);
      ret := StartDependency(depName);
    }

    /** The start of one dependency, and the wait for it. */
    method StartDependency(depName: string) returns (ret: int)
      requires Valid()
      modifies this`depth, this`stack, this`world, callStack, descriptors`state
      ensures Valid() && stack == old(stack)
      ensures Outcome(world, ret) == StartDep(graph, old(world), stack, depName)
      decreases MAX_CALL_STACK_DEPTH - depth, 1, 0, 0
    {
      ret := StartThreadWithDependencies(Some(depName));
      if ret != 0 {
        return;
      }
      var depDesc := FindThreadDescriptor(depName);
      if depDesc == null {
        return -1;
      }
      ret := WaitForDependencyReady(depDesc);
    }

    /** What start_all_auto_threads reads of the i-th descriptor. */
    lemma EntryHolds(i: nat)
      requires Valid() && i < count
      ensures registered[i] == threads[i] && threads[i] in descriptors
      ensures entries[i].name == threads[i].name && entries[i].name in world.states
      ensures entries[i].autoStart == threads[i].autoStart && StateOf(world, entries[i]) == threads[i].state
    {
      var d := threads[i];
      assert registered[i] == d;
      if Found(threads, position, d) {
        Holds(d);
      }
    }

    lemma EntriesKnown()
      requires Valid()
      ensures Known(graph, entries) && WellFormed(System(graph, world, entries))
    {
      forall e | e in entries ensures e.name in graph {
        var i :| 0 <= i < |entries| && entries[i] == e;
        EntryHolds(i);
      }
    }

    method StartAllAutoThreads() returns (failedCount: nat)
      requires Valid()
      modifies this`depth, this`stack, this`world, callStack, descriptors`state
      ensures Valid() && stack == old(stack) && Known(graph, entries)
      ensures Tally(world, failedCount) == StartAll(graph, old(world), stack, entries)
    {
      EntriesKnown();
      failedCount := 0;
      var i := 0;
      ProgressStart(graph, world, stack, entries);
      while i < count
        invariant 0 <= i <= count == |entries| && Valid() && stack == old(stack)
        invariant Progress(graph, old(world), world, stack, entries, i, failedCount)
      {
        failedCount := StartIfAuto(i, failedCount, old(world));
        i := i + 1;
      }
      ProgressEnd(graph, old(world), world, stack, entries, failedCount);
    }

    /** One round of that loop. */
    method StartIfAuto(i: nat, failedBefore: nat, ghost first: World) returns (failedCount: nat)
      requires Valid() && i < count == |entries|
      requires Progress(graph, first, world, stack, entries, i, failedBefore)
      modifies this`depth, this`stack, this`world, callStack, descriptors`state
      ensures Valid() && stack == old(stack)
      ensures Progress(graph, first, world, stack, entries, i + 1, failedCount)
    {
      ghost var before := world;
      failedCount := failedBefore;
      EntryHolds(i);
      if registered[i].autoStart && registered[i].state == Initial {
        var ret := StartThreadWithDependencies(Some(registered[i].name));
        if ret != 0 {
          failedCount := failedCount + 1;
        }
      }
      ProgressStep(graph, first, before, world, stack, entries, i, failedBefore, failedCount - failedBefore);
    }

    method CheckThreadDependencies(threadName: string) returns (ok: bool)
      requires Valid()
      ensures ok <==> CheckDependencies(graph, world, threadName)
    {
      var desc := FindThreadDescriptor(threadName);
      if desc == null {
        return false;
      }
      Holds(desc);
      var i := 0;
      while i < desc.dependencyCount
        invariant 0 <= i <= desc.dependencyCount
        invariant forall j | 0 <= j < i ::
                    desc.view.deps[j] in graph && world.states[desc.view.deps[j]] == Ready
      {
        var depDesc := FindThreadDescriptor(desc.dependencies[i]);
        if depDesc == null {
          return false;
        }
        Holds(depDesc);
        if depDesc.state != Ready {
          return false;
        }
        i := i + 1;
      }
      return true;
    }

    // ---- registration ----

    /** A full registry is left alone, and so is the descriptor. Otherwise the
        descriptor keeps what is usable of the dependencies offered and takes the
        next slot, whether it is new or not and whatever its state is. For a new one
        in state Initial this is the registration that module StarterSystem speaks of. */
    method RegisterThreadDescriptor(desc: Descriptor, deps: Option<seq<Option<string>>>, depCount: int)
      requires Valid() && desc.Valid()
      requires deps.Some? ==> depCount <= |deps.value|
      modifies this`count, this`threads, this`descriptors, this`position, this`graph, this`world, this`entries
      modifies registered, desc`dependencyCount, desc`dependencies, desc`view
      ensures Valid()
      ensures threads == if old(count) < MAX_THREADS then old(threads) + [desc] else old(threads)
      ensures desc.view == if old(count) < MAX_THREADS
                           then old(desc.view).(deps := StoredDeps(Offered(deps, depCount))) else old(desc.view)
      ensures old(count) < MAX_THREADS ==> Keeps(deps, depCount, desc.view.deps)
      ensures position == if old(count) < MAX_THREADS && desc.name !in old(position)
                          then old(position)[desc.name := old(count)] else old(position)
      ensures WellFormed(old(System(graph, world, entries))) && old(graph.Keys == position.Keys)
      ensures System(graph, world, entries) ==
              Appended(old(System(graph, world, entries)), desc.name, desc.view, desc.state, desc.autoStart,
                       old(IsFirst(threads, position, desc)))
      ensures desc !in old(descriptors) && desc.state == Initial ==>
                System(graph, world, entries) ==
                Registered(old(System(graph, world, entries)), desc.name,
                           old(desc.view).(deps := StoredDeps(Offered(deps, depCount))), desc.autoStart)
    {
      EntriesKnown();
      NewIsFirst(desc);
      ghost var first := IsFirst(threads, position, desc);
      if count < MAX_THREADS {
        desc.StoreDependencies(deps, depCount);
        AppendRegistered(desc, first);
      }
    }

    /** A new descriptor is found exactly when its name is unused. */
    lemma NewIsFirst(desc: Descriptor)
      requires Valid()
      ensures desc !in descriptors ==> (IsFirst(threads, position, desc) <==> desc.name !in graph)
    {
      if desc.name in position {
        assert Lookup(threads, position, desc.name) in descriptors;
      }
    }

    /** Takes the next slot for a descriptor; `first` says whether lookup then finds it. */
    method AppendRegistered(desc: Descriptor, ghost first: bool)
      requires ValidStack() && ValidRegistry() && AbstractsOthers(desc, world) && Listed()
      requires graph.Keys == position.Keys
      requires count < MAX_THREADS && desc.Valid() && first == IsFirst(threads, position, desc)
      modifies this`count, this`threads, this`descriptors, this`position, this`graph, this`world, this`entries
      modifies registered
      ensures Valid()
      ensures threads == old(threads) + [desc]
      ensures position == PlacesWith(old(threads), old(position), desc)
      ensures first ==> graph == old(graph)[desc.name := desc.view]
      ensures first ==> world == SetState(old(world), desc.name, desc.state)
      ensures !first ==> graph == old(graph) && world == old(world)
      ensures entries == old(entries) + [Entry(desc.name, desc.autoStart,
                           if first then None else Some(desc.state))]
    {
      TakeListedSlot(desc, first);
      AddToGraph(desc, first);
    }

    /** The name of a descriptor just added stands for it, if it is the first. */
    ghost method AddToGraph(desc: Descriptor, first: bool)
      requires Indexed(threads, position) && AbstractsOthers(desc, world)
      requires desc.name in position && (first <==> Found(threads, position, desc))
      modifies this`graph, this`world
      ensures Abstracts()
      ensures first ==> graph == old(graph)[desc.name := desc.view]
      ensures first ==> world == SetState(old(world), desc.name, desc.state)
      ensures !first ==> graph == old(graph) && world == old(world)
    {
      if first {
        graph := graph[desc.name := desc.view];
        world := SetState(world, desc.name, desc.state);
      } else {
        assert Lookup(threads, position, desc.name) != desc;
      }
    }

    method TakeListedSlot(desc: Descriptor, ghost first: bool)
      requires ValidRegistry() && AbstractsOthers(desc, world) && Listed()
      requires count < MAX_THREADS && desc.Valid() && first == IsFirst(threads, position, desc)
      modifies this`count, this`threads, this`descriptors, this`position, this`entries, registered
      ensures ValidRegistry() && AbstractsOthers(desc, world) && Listed()
      ensures desc.name in position && (first <==> Found(threads, position, desc))
      ensures threads == old(threads) + [desc]
      ensures position == PlacesWith(old(threads), old(position), desc)
      ensures entries == old(entries) + [Entry(desc.name, desc.autoStart,
                           if first then None else Some(desc.state))]
    {
      TakeSlot(desc, first);
      AddEntry(desc);
    }

    method TakeSlot(desc: Descriptor, ghost first: bool)
      requires ValidRegistry() && AbstractsOthers(desc, world)
      requires count < MAX_THREADS && desc.Valid() && first == IsFirst(threads, position, desc)
      modifies this`count, this`threads, this`descriptors, this`position, registered
      ensures ValidRegistry() && AbstractsOthers(desc, world)
      ensures desc.name in position && (first <==> Found(threads, position, desc))
      ensures threads == old(threads) + [desc] && descriptors == old(descriptors) + {desc}
      ensures position == PlacesWith(old(threads), old(position), desc)
      ensures forall n | n in old(position) :: Lookup(threads, position, n) == Lookup(old(threads), old(position), n)
    {
      ghost var before, places := threads, position;
      FillSlot(desc);
      descriptors := descriptors + {desc};
      assert LookupsHold(before, places, desc, world);
      LookupsAppend(before, places, desc, world);
      forall n | n in places || n == desc.name
        ensures Lookup(threads, position, n) == if n in places then Lookup(before, places, n) else desc
      {
        LookupAppend(before, places, desc, n);
      }
    }

    lemma LookupsAppend(list: seq<Descriptor>, places: map<string, nat>, desc: Descriptor, w: World)
      requires Indexed(list, places) && Indexed(list + [desc], PlacesWith(list, places, desc))
      requires LookupsHold(list, places, desc, w) && desc in descriptors
      ensures LookupsHold(list + [desc], PlacesWith(list, places, desc), desc, w)
    {
      forall n | n in places || n == desc.name
        ensures Lookup(list + [desc], PlacesWith(list, places, desc), n)
             == if n in places then Lookup(list, places, n) else desc
      {
        LookupAppend(list, places, desc, n);
      }
    }

    method FillSlot(desc: Descriptor)
      requires ValidRegistry() && count < MAX_THREADS
      modifies this`count, this`threads, this`position, registered
      ensures ValidRegistry()
      ensures threads == old(threads) + [desc] && position == PlacesWith(old(threads), old(position), desc)
    {
      IndexedAppend(threads, position, desc);
      registered[count] := desc;
      count := count + 1;
      position := PlacesWith(threads, position, desc);
      threads := threads + [desc];
    }

    /** The entry of a descriptor just added at the end. */
    ghost method AddEntry(desc: Descriptor)
      requires Indexed(threads, position) && |threads| > 0 && threads[|threads| - 1] == desc
      requires |entries| == |threads| - 1
      requires forall i {:trigger entries[i]} | 0 <= i < |entries| && threads[i] in descriptors ::
                 entries[i] == Entry(threads[i].name, threads[i].autoStart,
                   if Found(threads, position, threads[i]) then None else Some(threads[i].state))
      modifies this`entries
      ensures Listed()
      ensures entries == old(entries) + [Entry(desc.name, desc.autoStart,
                           if Found(threads, position, desc) then None else Some(desc.state))]
    {
      entries := entries + [Entry(desc.name, desc.autoStart,
                   if Found(threads, position, desc) then None else Some(desc.state))];
    }
  }
}
