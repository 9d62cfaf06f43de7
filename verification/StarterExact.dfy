/** Exactly when a start succeeds, from any state the manager can be in. */
module StarterExact {
  import opened ThreadGraph
  import opened Starter

  /** The call-stack room that bringing up `n` takes when the threads in `ready`
      are up: dependencies are taken in order, each one leaves everything below
      it up, and even a ready thread needs one slot while it is looked at. This
      depends on the graph alone. */
  ghost predicate Fits(g: Graph, ready: set<string>, n: string, room: nat)
    decreases room, 0
  {
    room > 0 && (n in ready || (n in g && FitsAll(g, ready, g[n].deps, room - 1)))
  }

  ghost predicate FitsAll(g: Graph, ready: set<string>, deps: seq<string>, room: nat)
    decreases room, |deps|
  {
    deps == [] ||
    (Fits(g, ready, deps[0], room) && FitsAll(g, ready + Below(g, deps[0]), deps[1..], room))
  }

  /** Chains of at most `room` names always fit, whatever is up already. */
  lemma {:induction false} LevelFits(g: Graph, ready: set<string>, n: string, room: nat)
    requires n in Level(g, room)
    ensures Fits(g, ready, n, room)
    decreases room, 0
  {
    if n !in ready {
      LevelFitsAll(g, ready, g[n].deps, room - 1);
    }
  }

  lemma {:induction false} LevelFitsAll(g: Graph, ready: set<string>, deps: seq<string>, room: nat)
    requires forall d | d in deps :: d in Level(g, room)
    ensures FitsAll(g, ready, deps, room)
    decreases room, |deps|
  {
    if deps != [] {
      LevelFits(g, ready, deps[0], room);
      LevelFitsAll(g, ready + Below(g, deps[0]), deps[1..], room);
    }
  }

  /** With more threads up already, the way down takes no more room. */
  lemma {:induction false} FitsMonotone(g: Graph, a: set<string>, b: set<string>, n: string, room: nat)
    requires a <= b && Fits(g, a, n, room)
    ensures Fits(g, b, n, room)
    decreases room, 0
  {
    if n !in b {
      FitsAllMonotone(g, a, b, g[n].deps, room - 1);
    }
  }

  lemma {:induction false} FitsAllMonotone(g: Graph, a: set<string>, b: set<string>, deps: seq<string>, room: nat)
    requires a <= b && FitsAll(g, a, deps, room)
    ensures FitsAll(g, b, deps, room)
    decreases room, |deps|
  {
    if deps != [] {
      FitsMonotone(g, a, b, deps[0], room);
      FitsAllMonotone(g, a + Below(g, deps[0]), b + Below(g, deps[0]), deps[1..], room);
    }
  }

  /** A successful start brings up exactly what its thread depends on, directly
      or not, and nothing else. */
  lemma StartBringsUp(g: Graph, w: World, stack: seq<string>, n: string)
    requires Inv(g, w) && Start(g, w, stack, n).ret == 0
    ensures ReadySet(g, Start(g, w, stack, n).world) == ReadySet(g, w) + Below(g, n)
  {
    var w' := Start(g, w, stack, n).world;
    StartKeeps(g, w, stack, n);
    StartFrame(g, w, stack, n);
    forall m | m in ReadySet(g, w') && m !in ReadySet(g, w) ensures m in Below(g, n) {
      StartTouches(g, w, stack, n, m);
    }
    forall m | m in Below(g, n) ensures m in ReadySet(g, w') {
      var p :| IsPath(g, p) && p[0] == n && p[|p| - 1] == m;
      PathStays(g, ReadySet(g, w'), p);
    }
  }

  lemma {:induction false} StartFits(g: Graph, w: World, stack: seq<string>, n: string, k: nat)
    requires Inv(g, w) && |stack| <= MAX_CALL_STACK_DEPTH
    requires n in Level(g, k) && forall s | s in stack :: s !in Level(g, k)
    ensures Start(g, w, stack, n).ret == 0
       <==> Fits(g, ReadySet(g, w), n, MAX_CALL_STACK_DEPTH - |stack|)
    decreases Room(stack), 0, k
  {
    assert Startable(g, n);
    StartableIsClosed(g, n);
    if n in Level(g, k - 1) {
      LevelStep(g, k - 1);
      StartFits(g, w, stack, n, k - 1);
    } else if |stack| < MAX_CALL_STACK_DEPTH && w.states[n] == Initial {
      var w1 := w.(calls := w.calls + 1);
      CallKeeps(g, w, w.calls + 1);
      LevelStep(g, k - 1);
      DepsFit(g, w1, stack + [n], g[n].deps, k - 1);
      assert ReadySet(g, w1) == ReadySet(g, w);
      HealthySucceeds(g, w1, stack, n);
    }
  }

  /** With its dependencies up, a healthy thread does not fail. */
  lemma HealthySucceeds(g: Graph, w: World, stack: seq<string>, n: string)
    requires Inv(g, w) && n in g && w.states[n] == Initial && g[n].Healthy()
    ensures var o := StartDeps(g, w, stack + [n], g[n].deps);
            o.ret == 0 ==> Launch(g, o.world, n).ret == 0
  {
    var o := StartDeps(g, w, stack + [n], g[n].deps);
    if o.ret == 0 {
      DepsKeep(g, w, stack + [n], g[n].deps);
      DepsChange(g, w, stack + [n], g[n].deps, n);
      assert n in stack + [n];
      LaunchKeeps(g, o.world, n);
    }
  }

  lemma {:induction false} DepsFit(g: Graph, w: World, stack: seq<string>, deps: seq<string>, k: nat)
    requires Inv(g, w) && |stack| <= MAX_CALL_STACK_DEPTH
    requires forall d | d in deps :: d in Level(g, k)
    requires forall s | s in stack :: s !in Level(g, k)
    ensures StartDeps(g, w, stack, deps).ret == 0
       <==> FitsAll(g, ReadySet(g, w), deps, MAX_CALL_STACK_DEPTH - |stack|)
    decreases Room(stack), 1, |deps|
  {
    if deps != [] {
      StartFits(g, w, stack, deps[0], k);
      var o := Start(g, w, stack, deps[0]);
      if o.ret == 0 {
        StartKeeps(g, w, stack, deps[0]);
        StartBringsUp(g, w, stack, deps[0]);
        DepsFit(g, o.world, stack, deps[1..], k);
      }
    }
  }

  /** The exact success condition of start_thread_with_dependencies: the thread
      is in the least set the start rule allows, and the way down to it fits the
      call stack of 32 names. */
  lemma StartSucceedsIff(g: Graph, w: World, n: string)
    requires Inv(g, w)
    ensures Start(g, w, [], n).ret == 0
       <==> Startable(g, n) && Fits(g, ReadySet(g, w), n, MAX_CALL_STACK_DEPTH)
  {
    StartKeeps(g, w, [], n);
    if Startable(g, n) {
      var k: nat :| n in Level(g, k);
      StartFits(g, w, [], n, k);
    }
  }
}
