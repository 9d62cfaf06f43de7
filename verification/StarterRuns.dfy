/** What holds over every run of the manager: initialisation order, the amount of
    work, the meaning of the failure count, and independence of the
    registration order. */
module StarterRuns {
  import opened Common
  import opened ThreadGraph
  import opened Starter
  import opened StarterExact

  // ---- initialisation order ----

  /** No call is ever repeated; init_func has run for exactly the threads that are
      Ready or Failed; it ran only after that of every dependency; and the ready
      semaphore of a thread that has one is taken once if init_func returned 0, by
      its own starter, right after init_func. */
  ghost predicate LogInv(g: Graph, w: World)
    requires w.states.Keys == g.Keys
  {
    && (forall i, j | 0 <= i < j < |w.log| :: w.log[i] != w.log[j])
    && (forall n | n in g :: Init(n) in w.log <==> Settled(w.states[n]))
    && (forall n | n in g :: Take(n) in w.log <==>
          Settled(w.states[n]) && g[n].initReturn == 0 && g[n].hasSem)
    && (forall i | 0 <= i < |w.log| :: EventInOrder(g, w.log, i))
  }

  ghost predicate EventInOrder(g: Graph, log: seq<Event>, i: nat)
    requires i < |log|
  {
    var n := log[i].name;
    n in g &&
    match log[i]
    case Init(_) => forall d | d in g[n].deps :: Init(d) in log[..i]
    case Take(_) => g[n].hasSem && i > 0 && log[i - 1] == Init(n)
  }

  lemma AppendInOrder(g: Graph, log: seq<Event>, e: Event)
    requires forall i | 0 <= i < |log| :: EventInOrder(g, log, i)
    requires EventInOrder(g, log + [e], |log|)
    ensures forall i | 0 <= i < |log + [e]| :: EventInOrder(g, log + [e], i)
  {
    forall i | 0 <= i < |log| ensures EventInOrder(g, log + [e], i) {
      assert (log + [e])[..i] == log[..i];
      assert EventInOrder(g, log, i);
    }
  }

  lemma TakeFollowsInit(g: Graph, log: seq<Event>, n: string)
    requires forall i | 0 <= i < |log| :: EventInOrder(g, log, i)
    ensures Take(n) in log ==> Init(n) in log
  {
    if Take(n) in log {
      var i :| 0 <= i < |log| && log[i] == Take(n);
      assert EventInOrder(g, log, i);
    }
  }

  lemma LaunchLogs(g: Graph, w: World, n: string)
    requires Inv(g, w) && LogInv(g, w) && n in g && w.states[n] == Initial && DepsReady(g, w, n)
    ensures LogInv(g, Launch(g, w, n).world)
  {
    var log1 := w.log + [Init(n)];
    assert log1[..|w.log|] == w.log;
    AppendInOrder(g, w.log, Init(n));
    var log2 := log1 + [Take(n)];
    TakeFollowsInit(g, w.log, n);
    if g[n].hasSem {
      AppendInOrder(g, log1, Take(n));
    }
    var w' := Launch(g, w, n).world;
    assert w'.log == if g[n].initReturn == 0 && g[n].hasSem then log2 else log1;
  }

  lemma CallLogs(g: Graph, w: World, calls: nat)
    requires Inv(g, w) && LogInv(g, w)
    ensures Inv(g, w.(calls := calls)) && LogInv(g, w.(calls := calls))
  {
    CallKeeps(g, w, calls);
  }

  lemma {:induction false} StartLogs(g: Graph, w: World, stack: seq<string>, n: string)
    requires Inv(g, w) && LogInv(g, w)
    ensures LogInv(g, Start(g, w, stack, n).world)
    decreases Room(stack), 0
  {
    var w1 := w.(calls := w.calls + 1);
    CallLogs(g, w, w.calls + 1);
    if n !in stack && |stack| < MAX_CALL_STACK_DEPTH && n in g && w.states[n] == Initial {
      DepsLog(g, w1, stack + [n], g[n].deps);
      OwnStep(g, w, stack, n);
      if StartDeps(g, w1, stack + [n], g[n].deps).ret == 0 {
        OwnLaunchLogs(g, w1, stack, n);
      }
    } else {
      assert Start(g, w, stack, n).world == w1;
    }
  }

  lemma OwnLaunchLogs(g: Graph, w: World, stack: seq<string>, n: string)
    requires Inv(g, w) && n in g && w.states[n] == Initial
    requires var o := StartDeps(g, w, stack + [n], g[n].deps);
             o.ret == 0 && LogInv(g, o.world)
    ensures LogInv(g, Launch(g, StartDeps(g, w, stack + [n], g[n].deps).world, n).world)
  {
    DepsKeep(g, w, stack + [n], g[n].deps);
    DepsChange(g, w, stack + [n], g[n].deps, n);
    LaunchLogs(g, StartDeps(g, w, stack + [n], g[n].deps).world, n);
  }

  lemma {:induction false} DepsLog(g: Graph, w: World, stack: seq<string>, deps: seq<string>)
    requires Inv(g, w) && LogInv(g, w)
    ensures LogInv(g, StartDeps(g, w, stack, deps).world)
    decreases Room(stack), |deps|
  {
    if deps != [] {
      StartLogs(g, w, stack, deps[0]);
      StartKeeps(g, w, stack, deps[0]);
      var o := Start(g, w, stack, deps[0]);
      if o.ret == 0 {
        DepsLog(g, o.world, stack, deps[1..]);
      }
    }
  }

  // ---- return codes ----

  /** `m` has failed on the way from `w` to `w'`. */
  ghost predicate Failing(g: Graph, w: World, w': World, m: string)
    requires w.states.Keys == w'.states.Keys == g.Keys
  {
    m in g && w.states[m] != Failed && w'.states[m] == Failed
  }

  /** The code that stands for the failure of one thread: what its init_func
      returned, or -1 when its signal has not come. */
  function Cause(t: Thread): int {
    if t.initReturn != 0 then t.initReturn else -1
  }

  /** A start during which a thread fails returns the cause of that failure. */
  lemma {:induction false} StartReturnsCause(g: Graph, w: World, stack: seq<string>, n: string, m: string)
    requires w.states.Keys == g.Keys && Failing(g, w, Start(g, w, stack, n).world, m)
    ensures Start(g, w, stack, n).ret == Cause(g[m])
    decreases Room(stack), 0
  {
    var w1 := w.(calls := w.calls + 1);
    var o := StartDeps(g, w1, stack + [n], g[n].deps);
    if o.ret != 0 {
      DepsReturnCause(g, w1, stack + [n], g[n].deps, m);
    } else {
      DepsMakeNoneFail(g, w1, stack + [n], g[n].deps, m);
    }
  }

  lemma {:induction false} DepsReturnCause(g: Graph, w: World, stack: seq<string>, deps: seq<string>, m: string)
    requires w.states.Keys == g.Keys && Failing(g, w, StartDeps(g, w, stack, deps).world, m)
    ensures StartDeps(g, w, stack, deps).ret == Cause(g[m])
    decreases Room(stack), |deps|
  {
    var o := Start(g, w, stack, deps[0]);
    if o.world.states[m] == Failed {
      StartReturnsCause(g, w, stack, deps[0], m);
    } else {
      DepsReturnCause(g, Wait(g, o.world, deps[0]).world, stack, deps[1..], m);
    }
  }

  /** Any other code than 0 and -1 is that of a thread that has failed. */
  lemma {:induction false} StartFailing(g: Graph, w: World, stack: seq<string>, n: string) returns (m: string)
    requires w.states.Keys == g.Keys && Start(g, w, stack, n).ret !in {0, -1}
    ensures Failing(g, w, Start(g, w, stack, n).world, m) && Reaches(g, n, m)
    decreases Room(stack), 0
  {
    var w1 := w.(calls := w.calls + 1);
    var o := StartDeps(g, w1, stack + [n], g[n].deps);
    if o.ret == 0 {
      m := n;
      ReachesSelf(g, n);
      DepsChange(g, w1, stack + [n], g[n].deps, n);
    } else {
      m := DepsFailing(g, w1, stack + [n], g[n].deps);
      ReachedFromDeps(g, n, m);
    }
  }

  lemma {:induction false} DepsFailing(g: Graph, w: World, stack: seq<string>, deps: seq<string>) returns (m: string)
    requires w.states.Keys == g.Keys && StartDeps(g, w, stack, deps).ret !in {0, -1}
    ensures Failing(g, w, StartDeps(g, w, stack, deps).world, m) && ReachedFrom(g, deps, m)
    decreases Room(stack), |deps|
  {
    var o := Start(g, w, stack, deps[0]);
    if o.ret != 0 {
      m := StartFailing(g, w, stack, deps[0]);
    } else {
      m := DepsFailing(g, Wait(g, o.world, deps[0]).world, stack, deps[1..]);
      StartMakesNoneFail(g, w, stack, deps[0], m);
      var d :| d in deps[1..] && Reaches(g, d, m);
      assert d in deps;
    }
  }

  /** What a start returns: the cause, when a thread fails during it, and then it is
      one that its argument depends on; otherwise 0 or -1. */
  lemma StartReturnCode(g: Graph, w: World, stack: seq<string>, n: string)
    requires w.states.Keys == g.Keys
    ensures var o := Start(g, w, stack, n);
            && (forall m | Failing(g, w, o.world, m) :: o.ret == Cause(g[m]) && Reaches(g, n, m))
            && ((forall m :: !Failing(g, w, o.world, m)) ==> o.ret in {0, -1})
  {
    var o := Start(g, w, stack, n);
    forall m | Failing(g, w, o.world, m) ensures o.ret == Cause(g[m]) && Reaches(g, n, m) {
      StartReturnsCause(g, w, stack, n, m);
      StartTouches(g, w, stack, n, m);
    }
    if o.ret !in {0, -1} {
      var m := StartFailing(g, w, stack, n);
    }
  }

  /** What a wait does, by the state of the thread waited for. */
  lemma WaitMeans(g: Graph, w: World, n: string)
    requires w.states.Keys == g.Keys && n in g
    ensures var o := Wait(g, w, n);
            && o.ret in {0, -1}
            && (o.ret == 0 <==> w.states[n] == Ready ||
                                (w.states[n] == Running && (g[n].hasSem ==> g[n].signalArrives)))
            && o.world.states == w.states
            && o.world.log == if w.states[n] == Running && g[n].hasSem then w.log + [Take(n)] else w.log
  {
  }

  /** No thread on a dependency cycle is ever initialised. */
  lemma CycleNeverInitialised(g: Graph, w: World, p: seq<string>)
    requires Inv(g, w) && LogInv(g, w)
    requires IsPath(g, p) && |p| > 1 && p[0] == p[|p| - 1]
    ensures Init(p[0]) !in w.log && w.states[p[0]] == Initial
  {
    var n := p[0];
    assert n in g && p[1] in g[n].deps;
    if Startable(g, n) {
      var k: nat :| n in Level(g, k);
      CycleNotInLevel(g, p, k);
    }
    if w.states[n] == Failed {
      assert p[1] in g && w.states[p[1]] == Ready;
      var ready := ReadySet(g, w);
      forall m | m in g && m in ready ensures forall d | d in g[m].deps :: d in ready {
        assert DepsReady(g, w, m);
      }
      assert p[1..][0] == p[1];
      PathStays(g, ready, p[1..]);
    }
  }

  // ---- amount of work ----

  ghost predicate Bounded(g: Graph) {
    forall n | n in g :: |g[n].deps| <= MAX_DEPENDENCIES
  }

  ghost function Gained(g: Graph, w: World, w': World): int
    requires w.states.Keys == w'.states.Keys == g.Keys
  {
    |ReadySet(g, w')| - |ReadySet(g, w)|
  }

  /** On every graph, cyclic or not, a start makes at most eight calls for each
      thread it brings up and for each name of the one chain on which it fails. */
  lemma {:induction false} StartWork(g: Graph, w: World, stack: seq<string>, n: string)
    requires w.states.Keys == g.Keys && Bounded(g)
    ensures var o := Start(g, w, stack, n);
            && Gained(g, w, o.world) >= 0
            && o.world.calls - w.calls
               <= 1 + MAX_DEPENDENCIES * (Gained(g, w, o.world) + if o.ret == 0 then 0 else Room(stack))
    decreases Room(stack), 0
  {
    var w1 := w.(calls := w.calls + 1);
    assert ReadySet(g, w1) == ReadySet(g, w);
    if n !in stack && |stack| < MAX_CALL_STACK_DEPTH && n in g && w.states[n] == Initial {
      DepsWork(g, w1, stack + [n], g[n].deps);
      DepsChange(g, w1, stack + [n], g[n].deps, n);
      var o := StartDeps(g, w1, stack + [n], g[n].deps);
      if o.ret == 0 {
        assert n in stack + [n];
        LaunchGain(g, o.world, n);
      }
    }
  }

  lemma LaunchGain(g: Graph, w: World, n: string)
    requires w.states.Keys == g.Keys && n in g && w.states[n] == Initial
    ensures var o := Launch(g, w, n);
            && o.world.calls == w.calls
            && Gained(g, w, o.world) == if o.ret == 0 then 1 else 0
  {
    var o := Launch(g, w, n);
    if o.ret == 0 {
      assert ReadySet(g, o.world) == ReadySet(g, w) + {n};
    } else {
      assert ReadySet(g, o.world) == ReadySet(g, w);
    }
  }

  lemma {:induction false} DepsWork(g: Graph, w: World, stack: seq<string>, deps: seq<string>)
    requires w.states.Keys == g.Keys && Bounded(g)
    ensures var o := StartDeps(g, w, stack, deps);
            && Gained(g, w, o.world) >= 0
            && o.world.calls - w.calls
               <= |deps| + MAX_DEPENDENCIES * (Gained(g, w, o.world) + if o.ret == 0 then 0 else Room(stack))
    decreases Room(stack), |deps|
  {
    if deps != [] {
      StartWork(g, w, stack, deps[0]);
      var o := Start(g, w, stack, deps[0]);
      if o.ret == 0 && deps[0] in g {
        var v := Wait(g, o.world, deps[0]);
        assert ReadySet(g, v.world) == ReadySet(g, o.world);
        if v.ret == 0 {
          DepsWork(g, v.world, stack, deps[1..]);
        }
      }
    }
  }

  /** The whole start-up is linear in the size of the registry. */
  lemma {:induction false} StartAllWork(g: Graph, w: World, es: seq<Entry>)
    requires w.states.Keys == g.Keys && Bounded(g) && Known(g, es)
    ensures var t := StartAll(g, w, [], es);
            && Gained(g, w, t.world) >= 0
            && t.world.calls - w.calls
               <= |es| + MAX_DEPENDENCIES * (Gained(g, w, t.world) + MAX_CALL_STACK_DEPTH * t.failed)
    decreases |es|
  {
    if es != [] {
      if es[0].autoStart && StateOf(w, es[0]) == Initial {
        StartWork(g, w, [], es[0].name);
        StartAllWork(g, Start(g, w, [], es[0].name).world, es[1..]);
      } else {
        StartAllWork(g, w, es[1..]);
      }
    }
  }

  // ---- start_all_auto_threads ----

  lemma {:induction false} StartAllKeeps(g: Graph, w: World, stack: seq<string>, es: seq<Entry>)
    requires Inv(g, w) && Known(g, es)
    ensures var t := StartAll(g, w, stack, es);
            Inv(g, t.world) && Evolves(g, w, t.world) && (LogInv(g, w) ==> LogInv(g, t.world))
    decreases |es|
  {
    if es != [] {
      if es[0].autoStart && StateOf(w, es[0]) == Initial {
        var w1 := Start(g, w, stack, es[0].name).world;
        StartKeeps(g, w, stack, es[0].name);
        StartFrame(g, w, stack, es[0].name);
        if LogInv(g, w) { StartLogs(g, w, stack, es[0].name); }
        StartAllKeeps(g, w1, stack, es[1..]);
        EvolvesTransitive(g, w, w1, StartAll(g, w1, stack, es[1..]).world);
      } else {
        StartAllKeeps(g, w, stack, es[1..]);
      }
    }
  }

  /** The i-th descriptor is attempted, after those before it, and fails. */
  ghost predicate FailsAt(g: Graph, w: World, es: seq<Entry>, i: nat)
    requires w.states.Keys == g.Keys && Known(g, es) && i < |es|
  {
    var before := StartAll(g, w, [], es[..i]).world;
    es[i].autoStart && StateOf(before, es[i]) == Initial && Start(g, before, [], es[i].name).ret != 0
  }

  ghost function FailedAttempts(g: Graph, w: World, es: seq<Entry>): set<nat>
    requires w.states.Keys == g.Keys && Known(g, es)
  {
    set i: nat | i < |es| && FailsAt(g, w, es, i)
  }

  /** One more descriptor at the end. */
  lemma {:induction false} StartAllLast(g: Graph, w: World, es: seq<Entry>, e: Entry)
    requires w.states.Keys == g.Keys && Known(g, es + [e]) && Known(g, es) && e.name in g
    ensures var t := StartAll(g, w, [], es);
            StartAll(g, w, [], es + [e]) ==
            if e.autoStart && StateOf(t.world, e) == Initial then
              var o := Start(g, t.world, [], e.name);
              Tally(o.world, t.failed + if o.ret != 0 then 1 else 0)
            else t
    decreases |es|
  {
    if es == [] {
      assert es + [e] == [e] && [e][1..] == [];
    } else {
      assert (es + [e])[0] == es[0] && (es + [e])[1..] == es[1..] + [e];
      var w1 := if es[0].autoStart && StateOf(w, es[0]) == Initial then Start(g, w, [], es[0].name).world else w;
      StartAllLast(g, w1, es[1..], e);
    }
  }

  lemma FailsAtPrefix(g: Graph, w: World, init: seq<Entry>, e: Entry, i: nat)
    requires w.states.Keys == g.Keys && Known(g, init) && Known(g, init + [e]) && i < |init|
    ensures FailsAt(g, w, init + [e], i) <==> FailsAt(g, w, init, i)
  {
    assert (init + [e])[..i] == init[..i] && (init + [e])[i] == init[i];
  }

  lemma AttemptIff(g: Graph, w: World, init: seq<Entry>, e: Entry, i: nat)
    requires w.states.Keys == g.Keys && Known(g, init) && Known(g, init + [e])
    ensures i in FailedAttempts(g, w, init + [e]) <==>
            i in FailedAttempts(g, w, init) || (i == |init| && FailsAt(g, w, init + [e], i))
  {
    if i < |init| { FailsAtPrefix(g, w, init, e, i); }
  }

  lemma OneMore(before: set<nat>, all: set<nat>, k: nat, more: bool)
    requires k !in before && forall i: nat :: i in all <==> i in before || (i == k && more)
    ensures |all| == |before| + if more then 1 else 0
  {
    assert all == if more then before + {k} else before;
  }

  lemma AttemptsLast(g: Graph, w: World, init: seq<Entry>, e: Entry)
    requires w.states.Keys == g.Keys && Known(g, init) && Known(g, init + [e])
    ensures var all := FailedAttempts(g, w, init + [e]);
            |all| == |FailedAttempts(g, w, init)| + if FailsAt(g, w, init + [e], |init|) then 1 else 0
  {
    var before, all := FailedAttempts(g, w, init), FailedAttempts(g, w, init + [e]);
    var more := FailsAt(g, w, init + [e], |init|);
    forall i: nat ensures i in all <==> i in before || (i == |init| && more) {
      AttemptIff(g, w, init, e, i);
    }
    OneMore(before, all, |init|, more);
  }

  /** The failure count is the number of attempts that return another code than 0. */
  lemma {:induction false} FailuresCounted(g: Graph, w: World, es: seq<Entry>)
    requires w.states.Keys == g.Keys && Known(g, es)
    ensures StartAll(g, w, [], es).failed == |FailedAttempts(g, w, es)|
    decreases |es|
  {
    if es != [] {
      var k := |es| - 1;
      var init := es[..k];
      assert es == init + [es[k]];
      FailuresCounted(g, w, init);
      StartAllLast(g, w, init, es[k]);
      AttemptsLast(g, w, init, es[k]);
    } else {
      assert FailedAttempts(g, w, es) == {};
    }
  }

  /** The threads that start_all_auto_threads is asked for. */
  ghost predicate Wanted(es: seq<Entry>, n: string) {
    Entry(n, true, None) in es
  }

  /** No startable thread asked for has a dependency chain of more than 32 names
      (LevelIsChainBound says what the level means). */
  ghost predicate Shallow(g: Graph, es: seq<Entry>) {
    forall e | e in es && e.autoStart && Startable(g, e.name) :: e.name in Level(g, MAX_CALL_STACK_DEPTH)
  }

  /** Completeness: when chains have at most 32 names, start-up brings up exactly
      the auto-start threads in the least set that the start rule allows. */
  lemma {:induction false} StartAllReachesLeastSet(g: Graph, w: World, es: seq<Entry>)
    requires Inv(g, w) && Known(g, es) && Shallow(g, es)
    ensures forall n | Wanted(es, n) ::
              StartAll(g, w, [], es).world.states[n] == Ready <==> Startable(g, n)
    decreases |es|
  {
    var final := StartAll(g, w, [], es).world;
    StartAllKeeps(g, w, [], es);
    if es != [] {
      var e := es[0];
      var w1 := if e.autoStart && StateOf(w, e) == Initial then Start(g, w, [], e.name).world else w;
      StartKeeps(g, w, [], e.name);
      StartSucceedsIff(g, w, e.name);
      if e.autoStart && Startable(g, e.name) {
        LevelFits(g, ReadySet(g, w), e.name, MAX_CALL_STACK_DEPTH);
      }
      StartAllReachesLeastSet(g, w1, es[1..]);
      StartAllKeeps(g, w1, [], es[1..]);
      forall n | Wanted(es, n) ensures final.states[n] == Ready <==> Startable(g, n) {
        if !Wanted(es[1..], n) {
          assert e == Entry(n, true, None);
          if Startable(g, n) { StartableIsClosed(g, n); }
        }
      }
    }
  }

  /** Hence the order of registration does not matter. */
  lemma StartOrderIrrelevant(g: Graph, w: World, es1: seq<Entry>, es2: seq<Entry>, n: string)
    requires Inv(g, w) && Known(g, es1) && Known(g, es2) && Shallow(g, es1) && Shallow(g, es2)
    requires Wanted(es1, n) && Wanted(es2, n)
    ensures StartAll(g, w, [], es1).world.states[n] == Ready
       <==> StartAll(g, w, [], es2).world.states[n] == Ready
  {
    StartAllReachesLeastSet(g, w, es1);
    StartAllReachesLeastSet(g, w, es2);
  }
}
