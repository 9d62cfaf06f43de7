/** What one run of the recursive starter does to the thread states: the
    specification that the manager's methods are proved against, and what every
    run of it keeps. */
module Starter {
  import opened Common
  import opened ThreadGraph

  const MAX_THREADS: nat := 64
  const MAX_DEPENDENCIES: nat := 8
  const MAX_CALL_STACK_DEPTH: nat := 32

  datatype ThreadState = Initial | Running | Ready | Failed

  /** The observable calls: a thread's init_func, and a wait on its ready semaphore. */
  datatype Event = Init(name: string) | Take(name: string)

  /** `calls` counts the calls of start_thread_with_dependencies. */
  datatype World = World(states: map<string, ThreadState>, log: seq<Event>, calls: nat)

  datatype Outcome = Outcome(world: World, ret: int)

  function SetState(w: World, n: string, s: ThreadState): World {
    w.(states := w.states[n := s])
  }

  function Log(w: World, e: Event): World {
    w.(log := w.log + [e])
  }

  /** wait_for_dependency_ready */
  function Wait(g: Graph, w: World, n: string): Outcome
    requires w.states.Keys == g.Keys && n in g
  {
    match w.states[n]
    case Ready => Outcome(w, 0)
    case Running =>
      if g[n].hasSem then Outcome(Log(w, Take(n)), if g[n].signalArrives then 0 else -1)
      else Outcome(w, 0)
    case Failed => Outcome(w, -1)
    case Initial => Outcome(w, -1)
  }

  /** Calls init_func and drives the thread to Ready or Failed. */
  function Launch(g: Graph, w: World, n: string): Outcome
    requires w.states.Keys == g.Keys && n in g
  {
    var t, w1 := g[n], Log(w, Init(n));
    if t.initReturn != 0 then Outcome(SetState(w1, n, Failed), t.initReturn)
    else
      var w2 := SetState(w1, n, Running);
      if !t.hasSem then Outcome(SetState(w2, n, Ready), 0)
      else
        var w3 := Log(w2, Take(n));
        if t.signalArrives then Outcome(SetState(w3, n, Ready), 0)
        else Outcome(SetState(w3, n, Failed), -1)
  }

  function Room(stack: seq<string>): nat {
    if |stack| < MAX_CALL_STACK_DEPTH then MAX_CALL_STACK_DEPTH - |stack| else 0
  }

  /** start_thread_with_dependencies */
  function Start(g: Graph, w: World, stack: seq<string>, n: string): (o: Outcome)
    requires w.states.Keys == g.Keys
    ensures o.world.states.Keys == g.Keys
    decreases Room(stack), 0
  {
    var w1 := w.(calls := w.calls + 1);
    if n in stack then Outcome(w1, -1)
    else if |stack| >= MAX_CALL_STACK_DEPTH then Outcome(w1, -1)
    else if n !in g then Outcome(w1, -1)
    else match w.states[n]
      case Ready => Outcome(w1, 0)
      case Running => Outcome(w1, 0)
      case Failed => Outcome(w1, -1)
      case Initial =>
        var o := StartDeps(g, w1, stack + [n], g[n].deps);
        if o.ret != 0 then o else Launch(g, o.world, n)
  }

  /** The loop over the dependencies: the first one that fails ends it. */
  function StartDeps(g: Graph, w: World, stack: seq<string>, deps: seq<string>): (o: Outcome)
    requires w.states.Keys == g.Keys
    ensures o.world.states.Keys == g.Keys
    decreases Room(stack), |deps|
  {
    if deps == [] then Outcome(w, 0)
    else
      var o := Start(g, w, stack, deps[0]);
      if o.ret != 0 then o
      else if deps[0] !in g then Outcome(o.world, -1)
      else
        var v := Wait(g, o.world, deps[0]);
        if v.ret != 0 then v else StartDeps(g, v.world, stack, deps[1..])
  }

  /** One registered descriptor as start_all_auto_threads sees it. A descriptor
      that find_thread_descriptor never returns, because another one with its
      name was registered before it, has a state of its own: `shadow`. */
  datatype Entry = Entry(name: string, autoStart: bool, shadow: Option<ThreadState>)

  datatype Tally = Tally(world: World, failed: nat)

  function StateOf(w: World, e: Entry): ThreadState
    requires e.name in w.states
  {
    if e.shadow.Some? then e.shadow.value else w.states[e.name]
  }

  ghost predicate Known(g: Graph, es: seq<Entry>) {
    forall e | e in es :: e.name in g
  }

  /** start_all_auto_threads */
  ghost function StartAll(g: Graph, w: World, stack: seq<string>, es: seq<Entry>): (t: Tally)
    requires w.states.Keys == g.Keys && Known(g, es)
    ensures t.world.states.Keys == g.Keys
    decreases |es|
  {
    if es == [] then Tally(w, 0)
    else if es[0].autoStart && StateOf(w, es[0]) == Initial then
      var o := Start(g, w, stack, es[0].name);
      var rest := StartAll(g, o.world, stack, es[1..]);
      Tally(rest.world, rest.failed + if o.ret != 0 then 1 else 0)
    else
      StartAll(g, w, stack, es[1..])
  }

  /** check_thread_dependencies */
  ghost predicate CheckDependencies(g: Graph, w: World, n: string)
    requires w.states.Keys == g.Keys
  {
    n in g && forall d | d in g[n].deps :: d in g && w.states[d] == Ready
  }

  ghost predicate Valid(d: Option<string>) {
    d.Some? && d.value != ""
  }

  /** The dependencies a registration keeps: it stops at the first missing or
      empty name, and after eight. */
  ghost function StoredDeps(offered: seq<Option<string>>): (r: seq<string>)
    ensures |r| <= MAX_DEPENDENCIES && |r| <= |offered|
    ensures forall i | 0 <= i < |r| :: Valid(offered[i]) && offered[i].value == r[i]
    ensures |r| == MAX_DEPENDENCIES || |r| == |offered| || !Valid(offered[|r|])
  {
    var k := ValidCount(offered, 0);
    seq(k, i requires 0 <= i < k => offered[i].value)
  }

  ghost function ValidCount(offered: seq<Option<string>>, from: nat): (k: nat)
    requires from <= |offered| && from <= MAX_DEPENDENCIES
    ensures from <= k <= |offered| && k <= MAX_DEPENDENCIES
    ensures forall i | from <= i < k :: Valid(offered[i])
    ensures k == MAX_DEPENDENCIES || k == |offered| || !Valid(offered[k])
    decreases |offered| - from
  {
    if from == MAX_DEPENDENCIES || from == |offered| || !Valid(offered[from]) then from
    else ValidCount(offered, from + 1)
  }

  // ---- frame: what a recursive start can touch at all ----

  ghost predicate Settled(s: ThreadState) {
    s == Ready || s == Failed
  }

  /** `w'` is a later world: no state but Initial is ever left, states only move
      to Ready or Failed, and the log only grows. */
  ghost predicate Evolves(g: Graph, w: World, w': World) {
    && w.states.Keys == w'.states.Keys == g.Keys
    && (forall n | n in g && w'.states[n] != w.states[n] ::
          w.states[n] == Initial && Settled(w'.states[n]))
    && w.log <= w'.log
    && w.calls <= w'.calls
  }

  lemma EvolvesTransitive(g: Graph, a: World, b: World, c: World)
    requires Evolves(g, a, b) && Evolves(g, b, c)
    ensures Evolves(g, a, c)
  {
    forall n | n in g && c.states[n] != a.states[n]
      ensures a.states[n] == Initial && Settled(c.states[n])
    {
      if b.states[n] == a.states[n] { assert c.states[n] != b.states[n]; }
    }
  }

  lemma LaunchFrame(g: Graph, w: World, n: string)
    requires w.states.Keys == g.Keys && n in g && w.states[n] == Initial
    ensures var w' := Launch(g, w, n).world;
            && Evolves(g, w, w')
            && forall m | m in g && m != n :: w'.states[m] == w.states[m]
  {
  }

  /** A change of one thread's state: it was Initial, it is settled now, and it is
      not on the call stack. */
  ghost predicate MayBecome(stack: seq<string>, m: string, a: ThreadState, b: ThreadState) {
    b != a ==> a == Initial && Settled(b) && m !in stack
  }

  lemma {:induction false} StartChanges(g: Graph, w: World, stack: seq<string>, n: string, m: string)
    requires w.states.Keys == g.Keys && m in g
    ensures MayBecome(stack, m, w.states[m], Start(g, w, stack, n).world.states[m])
    decreases Room(stack), 0
  {
    if n !in stack && |stack| < MAX_CALL_STACK_DEPTH && n in g && w.states[n] == Initial {
      var w1 := w.(calls := w.calls + 1);
      DepsChange(g, w1, stack + [n], g[n].deps, m);
    }
  }

  lemma {:induction false} DepsChange(g: Graph, w: World, stack: seq<string>, deps: seq<string>, m: string)
    requires w.states.Keys == g.Keys && m in g
    ensures MayBecome(stack, m, w.states[m], StartDeps(g, w, stack, deps).world.states[m])
    decreases Room(stack), |deps|
  {
    if deps != [] {
      StartChanges(g, w, stack, deps[0], m);
      var o := Start(g, w, stack, deps[0]);
      if o.ret == 0 && deps[0] in g {
        var v := Wait(g, o.world, deps[0]);
        if v.ret == 0 {
          DepsChange(g, v.world, stack, deps[1..], m);
        }
      }
    }
  }

  ghost predicate Grows(w: World, w': World) {
    w.log <= w'.log && w.calls <= w'.calls
  }

  lemma {:induction false} StartGrows(g: Graph, w: World, stack: seq<string>, n: string)
    requires w.states.Keys == g.Keys
    ensures Grows(w, Start(g, w, stack, n).world)
    decreases Room(stack), 0
  {
    if n !in stack && |stack| < MAX_CALL_STACK_DEPTH && n in g && w.states[n] == Initial {
      DepsGrow(g, w.(calls := w.calls + 1), stack + [n], g[n].deps);
    }
  }

  lemma {:induction false} DepsGrow(g: Graph, w: World, stack: seq<string>, deps: seq<string>)
    requires w.states.Keys == g.Keys
    ensures Grows(w, StartDeps(g, w, stack, deps).world)
    decreases Room(stack), |deps|
  {
    if deps != [] {
      StartGrows(g, w, stack, deps[0]);
      var o := Start(g, w, stack, deps[0]);
      if o.ret == 0 && deps[0] in g {
        var v := Wait(g, o.world, deps[0]);
        if v.ret == 0 {
          DepsGrow(g, v.world, stack, deps[1..]);
        }
      }
    }
  }

  /** A start leaves every thread named on the call stack as it is, and only
      ever moves a thread on from Initial. */
  lemma StartFrame(g: Graph, w: World, stack: seq<string>, n: string)
    requires w.states.Keys == g.Keys
    ensures var w' := Start(g, w, stack, n).world;
            && Evolves(g, w, w')
            && (forall s | s in stack && s in g :: w'.states[s] == w.states[s])
  {
    StartGrows(g, w, stack, n);
    var w' := Start(g, w, stack, n).world;
    forall m | m in g ensures MayBecome(stack, m, w.states[m], w'.states[m]) {
      StartChanges(g, w, stack, n, m);
    }
  }

  lemma DepsFrame(g: Graph, w: World, stack: seq<string>, deps: seq<string>)
    requires w.states.Keys == g.Keys
    ensures var w' := StartDeps(g, w, stack, deps).world;
            && Evolves(g, w, w')
            && (forall s | s in stack && s in g :: w'.states[s] == w.states[s])
  {
    DepsGrow(g, w, stack, deps);
    var w' := StartDeps(g, w, stack, deps).world;
    forall m | m in g ensures MayBecome(stack, m, w.states[m], w'.states[m]) {
      DepsChange(g, w, stack, deps, m);
    }
  }

  ghost predicate ReachedFrom(g: Graph, deps: seq<string>, m: string) {
    exists d :: d in deps && Reaches(g, d, m)
  }

  lemma ReachedFromDeps(g: Graph, n: string, m: string)
    requires n in g && ReachedFrom(g, g[n].deps, m)
    ensures Reaches(g, n, m)
  {
    var d :| d in g[n].deps && Reaches(g, d, m);
    ReachesThrough(g, n, d, m);
  }

  /** A start only touches what its argument reaches. */
  lemma {:induction false} StartTouches(g: Graph, w: World, stack: seq<string>, n: string, m: string)
    requires w.states.Keys == g.Keys && m in g
    requires Start(g, w, stack, n).world.states[m] != w.states[m]
    ensures Reaches(g, n, m)
    decreases Room(stack), 0
  {
    if m == n {
      ReachesSelf(g, n);
    } else {
      var w1 := w.(calls := w.calls + 1);
      var o := StartDeps(g, w1, stack + [n], g[n].deps);
      assert o.world.states[m] != w1.states[m];
      DepsTouch(g, w1, stack + [n], g[n].deps, m);
      ReachedFromDeps(g, n, m);
    }
  }

  lemma {:induction false} DepsTouch(g: Graph, w: World, stack: seq<string>, deps: seq<string>, m: string)
    requires w.states.Keys == g.Keys && m in g
    requires StartDeps(g, w, stack, deps).world.states[m] != w.states[m]
    ensures ReachedFrom(g, deps, m)
    decreases Room(stack), |deps|
  {
    var o := Start(g, w, stack, deps[0]);
    if o.world.states[m] != w.states[m] {
      StartTouches(g, w, stack, deps[0], m);
    } else {
      var v := Wait(g, o.world, deps[0]);
      DepsTouch(g, v.world, stack, deps[1..], m);
    }
  }

  /** One level of the recursion: the dependencies first, then the thread. */
  lemma OwnStep(g: Graph, w: World, stack: seq<string>, n: string)
    requires w.states.Keys == g.Keys
    requires n in g && n !in stack && |stack| < MAX_CALL_STACK_DEPTH && w.states[n] == Initial
    ensures var o := StartDeps(g, w.(calls := w.calls + 1), stack + [n], g[n].deps);
            Start(g, w, stack, n) == if o.ret != 0 then o else Launch(g, o.world, n)
  {
  }

  // ---- the invariant of every run ----

  ghost predicate DepsReady(g: Graph, w: World, n: string)
    requires w.states.Keys == g.Keys && n in g
  {
    forall d | d in g[n].deps :: d in g && w.states[d] == Ready
  }

  /** Between calls: nobody is Running; a Ready thread is healthy, startable and
      stands on Ready dependencies; a Failed thread is itself to blame. */
  ghost predicate Inv(g: Graph, w: World) {
    && w.states.Keys == g.Keys
    && (forall n | n in g :: w.states[n] != Running)
    && (forall n | n in g && w.states[n] == Ready ::
          g[n].Healthy() && Startable(g, n) && DepsReady(g, w, n))
    && (forall n | n in g && w.states[n] == Failed ::
          !g[n].Healthy() && DepsReady(g, w, n))
  }

  ghost function ReadySet(g: Graph, w: World): set<string>
    requires w.states.Keys == g.Keys
  {
    set n | n in g && w.states[n] == Ready
  }

  ghost predicate SameFailed(g: Graph, w: World, w': World)
    requires w.states.Keys == w'.states.Keys == g.Keys
  {
    forall n | n in g :: w'.states[n] == Failed <==> w.states[n] == Failed
  }

  /** One launch on Ready dependencies keeps the invariant. */
  lemma LaunchKeeps(g: Graph, w: World, n: string)
    requires Inv(g, w) && n in g && w.states[n] == Initial && DepsReady(g, w, n)
    ensures var o := Launch(g, w, n);
            && Inv(g, o.world)
            && (o.ret == 0 <==> g[n].Healthy())
            && o.world.states == w.states[n := if g[n].Healthy() then Ready else Failed]
  {
    StartableIsClosed(g, n);
    var w' := Launch(g, w, n).world;
    assert w'.states == w.states[n := if g[n].Healthy() then Ready else Failed];
    forall m | m in g && DepsReady(g, w, m) ensures DepsReady(g, w', m) {}
  }

  /** Counting a call changes nothing that the invariant speaks of. */
  lemma CallKeeps(g: Graph, w: World, calls: nat)
    requires Inv(g, w)
    ensures Inv(g, w.(calls := calls))
  {
    forall m | m in g && DepsReady(g, w, m) ensures DepsReady(g, w.(calls := calls), m) {}
  }

  /** Every start keeps the invariant, and it returns 0 only when its thread is
      Ready. */
  lemma {:induction false} StartKeeps(g: Graph, w: World, stack: seq<string>, n: string)
    requires Inv(g, w)
    ensures var o := Start(g, w, stack, n);
            && Inv(g, o.world)
            && (o.ret == 0 ==> n in g && o.world.states[n] == Ready)
    decreases Room(stack), 0
  {
    var w1 := w.(calls := w.calls + 1);
    CallKeeps(g, w, w.calls + 1);
    if n !in stack && |stack| < MAX_CALL_STACK_DEPTH && n in g && w.states[n] == Initial {
      DepsKeep(g, w1, stack + [n], g[n].deps);
      DepsChange(g, w1, stack + [n], g[n].deps, n);
      var o := StartDeps(g, w1, stack + [n], g[n].deps);
      if o.ret == 0 {
        LaunchKeeps(g, o.world, n);
      }
    }
  }

  lemma {:induction false} DepsKeep(g: Graph, w: World, stack: seq<string>, deps: seq<string>)
    requires Inv(g, w)
    ensures var o := StartDeps(g, w, stack, deps);
            && Inv(g, o.world)
            && (o.ret == 0 ==> forall d | d in deps :: d in g && o.world.states[d] == Ready)
    decreases Room(stack), |deps|
  {
    if deps != [] {
      StartKeeps(g, w, stack, deps[0]);
      var o := Start(g, w, stack, deps[0]);
      if o.ret == 0 {
        DepsKeep(g, o.world, stack, deps[1..]);
        DepsFrame(g, o.world, stack, deps[1..]);
      }
    }
  }

  /** The first failure ends a start, so one that returns 0 has made nobody fail. */
  lemma {:induction false} StartMakesNoneFail(g: Graph, w: World, stack: seq<string>, n: string, m: string)
    requires w.states.Keys == g.Keys && m in g && Start(g, w, stack, n).ret == 0
    ensures Start(g, w, stack, n).world.states[m] == Failed <==> w.states[m] == Failed
    decreases Room(stack), 0
  {
    if w.states[n] == Initial {
      var w1 := w.(calls := w.calls + 1);
      DepsMakeNoneFail(g, w1, stack + [n], g[n].deps, m);
      DepsChange(g, w1, stack + [n], g[n].deps, n);
    }
  }

  lemma {:induction false} DepsMakeNoneFail(g: Graph, w: World, stack: seq<string>, deps: seq<string>, m: string)
    requires w.states.Keys == g.Keys && m in g && StartDeps(g, w, stack, deps).ret == 0
    ensures StartDeps(g, w, stack, deps).world.states[m] == Failed <==> w.states[m] == Failed
    decreases Room(stack), |deps|
  {
    if deps != [] {
      StartMakesNoneFail(g, w, stack, deps[0], m);
      var o := Start(g, w, stack, deps[0]);
      DepsMakeNoneFail(g, Wait(g, o.world, deps[0]).world, stack, deps[1..], m);
    }
  }

  lemma SuccessMakesNoneFail(g: Graph, w: World, stack: seq<string>, n: string)
    requires w.states.Keys == g.Keys && Start(g, w, stack, n).ret == 0
    ensures SameFailed(g, w, Start(g, w, stack, n).world)
  {
    forall m | m in g
      ensures Start(g, w, stack, n).world.states[m] == Failed <==> w.states[m] == Failed
    {
      StartMakesNoneFail(g, w, stack, n, m);
    }
  }
}
