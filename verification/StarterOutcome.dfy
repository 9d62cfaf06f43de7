/** What the failure count of start_all_auto_threads means, and what happens when
    a dependency chain is longer than the call stack. */
module StarterOutcome {
  import opened Common
  import opened ThreadGraph
  import opened Starter
  import opened StarterExact
  import opened StarterRuns

  ghost function FailedSet(g: Graph, w: World): set<string>
    requires w.states.Keys == g.Keys
  {
    set n | n in g && w.states[n] == Failed
  }

  /** A descriptor whose state at its turn is Initial, when `ready` are up and
      `failed` have failed. */
  ghost predicate Attempted(ready: set<string>, failed: set<string>, e: Entry) {
    e.autoStart && if e.shadow.Some? then e.shadow.value == Initial
                   else e.name !in ready && e.name !in failed
  }

  /** Every attempt succeeds, in registration order, each one with the threads
      already up that the attempts before it have left up. */
  ghost predicate AllSucceed(g: Graph, ready: set<string>, failed: set<string>, es: seq<Entry>)
    decreases |es|
  {
    es == [] ||
    if Attempted(ready, failed, es[0]) then
      && Startable(g, es[0].name)
      && Fits(g, ready, es[0].name, MAX_CALL_STACK_DEPTH)
      && AllSucceed(g, ready + Below(g, es[0].name), failed, es[1..])
    else AllSucceed(g, ready, failed, es[1..])
  }

  /** Exactly when start_all_auto_threads returns 0. */
  lemma {:induction false} ZeroFailuresIff(g: Graph, w: World, es: seq<Entry>)
    requires Inv(g, w) && Known(g, es)
    ensures StartAll(g, w, [], es).failed == 0 <==> AllSucceed(g, ReadySet(g, w), FailedSet(g, w), es)
    decreases |es|
  {
    if es != [] {
      var e := es[0];
      if e.autoStart && StateOf(w, e) == Initial {
        var o := Start(g, w, [], e.name);
        StartSucceedsIff(g, w, e.name);
        StartKeeps(g, w, [], e.name);
        if o.ret == 0 {
          StartBringsUp(g, w, [], e.name);
          SuccessMakesNoneFail(g, w, [], e.name);
          assert FailedSet(g, o.world) == FailedSet(g, w);
          ZeroFailuresIff(g, o.world, es[1..]);
        }
      } else {
        ZeroFailuresIff(g, w, es[1..]);
      }
    }
  }

  /** When it returns 0, a descriptor asked for is Ready unless it had failed
      before, or is hidden behind an earlier one of its name. */
  lemma {:induction false} ZeroFailuresMeans(g: Graph, w: World, es: seq<Entry>)
    requires Inv(g, w) && Known(g, es)
    requires StartAll(g, w, [], es).failed == 0
    ensures var final := StartAll(g, w, [], es).world;
            forall e | e in es && e.autoStart ::
              StateOf(final, e) == Ready <==>
              if e.shadow.Some? then e.shadow.value == Ready else w.states[e.name] != Failed
    decreases |es|
  {
    if es != [] {
      var e := es[0];
      StartAllKeeps(g, w, [], es);
      if e.autoStart && StateOf(w, e) == Initial {
        var o := Start(g, w, [], e.name);
        StartKeeps(g, w, [], e.name);
        SuccessMakesNoneFail(g, w, [], e.name);
        ZeroFailuresMeans(g, o.world, es[1..]);
        StartAllKeeps(g, o.world, [], es[1..]);
      } else {
        ZeroFailuresMeans(g, w, es[1..]);
      }
    }
  }

  /** The failure count is meaningful: with distinct names and nothing failed
      before, 0 means that every auto-start thread is Ready; and when chains have
      at most 32 names, every auto-start thread being Ready means 0. */
  lemma FailureCountIsMeaningful(g: Graph, w: World, es: seq<Entry>)
    requires Inv(g, w) && Known(g, es) && FailedSet(g, w) == {}
    requires forall e | e in es :: e.shadow.None?
    ensures var t := StartAll(g, w, [], es);
            var allReady := forall e | e in es && e.autoStart :: StateOf(t.world, e) == Ready;
            (t.failed == 0 ==> allReady) && (Shallow(g, es) && allReady ==> t.failed == 0)
  {
    var t := StartAll(g, w, [], es);
    if t.failed == 0 {
      ZeroFailuresMeans(g, w, es);
      assert forall n | n in g :: w.states[n] == Failed ==> n in FailedSet(g, w);
    }
    if Shallow(g, es) && forall e | e in es && e.autoStart :: StateOf(t.world, e) == Ready {
      StartAllReachesLeastSet(g, w, es);
      forall e | e in es && e.autoStart ensures Startable(g, e.name) {
        assert e == Entry(e.name, true, None) && Wanted(es, e.name);
      }
      ShallowSucceeds(g, ReadySet(g, w), FailedSet(g, w), es);
      ZeroFailuresIff(g, w, es);
    }
  }

  lemma {:induction false} ShallowSucceeds(g: Graph, ready: set<string>, failed: set<string>, es: seq<Entry>)
    requires Shallow(g, es) && forall e | e in es && e.autoStart :: Startable(g, e.name)
    ensures AllSucceed(g, ready, failed, es)
    decreases |es|
  {
    if es != [] {
      if Attempted(ready, failed, es[0]) {
        LevelFits(g, ready, es[0].name, MAX_CALL_STACK_DEPTH);
        ShallowSucceeds(g, ready + Below(g, es[0].name), failed, es[1..]);
      } else {
        ShallowSucceeds(g, ready, failed, es[1..]);
      }
    }
  }

  // ---- every order of the same descriptors ----

  /** `e` can be brought up by itself, with only the threads in `ready` up. */
  ghost predicate Fine(g: Graph, ready: set<string>, e: Entry) {
    Startable(g, e.name) && Fits(g, ready, e.name, MAX_CALL_STACK_DEPTH)
  }

  lemma {:induction false} AllFineSucceed(g: Graph, up: set<string>, ready: set<string>, failed: set<string>,
                                          es: seq<Entry>)
    requires up <= ready && forall e | e in es && Attempted(up, failed, e) :: Fine(g, up, e)
    ensures AllSucceed(g, ready, failed, es)
    decreases |es|
  {
    if es != [] {
      if Attempted(ready, failed, es[0]) {
        assert es[0] in es && Attempted(up, failed, es[0]);
        assert Fine(g, up, es[0]);
        FitsMonotone(g, up, ready, es[0].name, MAX_CALL_STACK_DEPTH);
        AllFineSucceed(g, up, ready + Below(g, es[0].name), failed, es[1..]);
      } else {
        AllFineSucceed(g, up, ready, failed, es[1..]);
      }
    }
  }

  lemma SameKnown(g: Graph, es: seq<Entry>, es': seq<Entry>)
    requires Known(g, es) && multiset(es) == multiset(es')
    ensures Known(g, es') && forall e :: e in es' <==> e in es
  {
    SameMembers(es, es');
  }

  /** A start-up of the same descriptors has no failure, in whatever order it goes
      through them. */
  ghost predicate EveryListSucceeds(g: Graph, w: World, es: seq<Entry>)
    requires w.states.Keys == g.Keys
  {
    forall es' | multiset(es') == multiset(es) && Known(g, es') :: StartAll(g, w, [], es').failed == 0
  }

  /** This is so exactly when every descriptor that is to be started could be
      started first. */
  lemma EveryListSucceedsIff(g: Graph, w: World, es: seq<Entry>)
    requires Inv(g, w) && Known(g, es)
    ensures EveryListSucceeds(g, w, es) <==>
            forall e | e in es && Attempted(ReadySet(g, w), FailedSet(g, w), e) :: Fine(g, ReadySet(g, w), e)
  {
    var ready, failed := ReadySet(g, w), FailedSet(g, w);
    if forall e | e in es && Attempted(ready, failed, e) :: Fine(g, ready, e) {
      forall es' | multiset(es') == multiset(es) && Known(g, es') ensures StartAll(g, w, [], es').failed == 0 {
        SameKnown(g, es, es');
        AllFineSucceed(g, ready, ready, failed, es');
        ZeroFailuresIff(g, w, es');
      }
    } else {
      var i :| 0 <= i < |es| && Attempted(ready, failed, es[i]) && !Fine(g, ready, es[i]);
      var es' := BroughtForward(es, i);
      SameKnown(g, es, es');
      ZeroFailuresIff(g, w, es');
      assert StartAll(g, w, [], es').failed != 0;
    }
  }

  // ---- what start-up leaves alone, and how the order can decide ----

  /** Start-up changes only what a descriptor in the list depends on. */
  lemma {:induction false} StartAllTouches(g: Graph, w: World, es: seq<Entry>, m: string)
    requires w.states.Keys == g.Keys && Known(g, es) && m in g
    requires StartAll(g, w, [], es).world.states[m] != w.states[m]
    ensures exists e :: e in es && Reaches(g, e.name, m)
    decreases |es|
  {
    var e := es[0];
    var w1 := if e.autoStart && StateOf(w, e) == Initial then Start(g, w, [], e.name).world else w;
    if w1.states[m] != w.states[m] {
      StartTouches(g, w, [], e.name, m);
    } else {
      StartAllTouches(g, w1, es[1..], m);
      var e' :| e' in es[1..] && Reaches(g, e'.name, m);
      assert e' in es;
    }
  }

  /** A start that fails at the outermost call leaves its own thread not Ready. */
  lemma FailedStartNotReady(g: Graph, w: World, n: string)
    requires Inv(g, w) && n in g && Start(g, w, [], n).ret != 0
    ensures Start(g, w, [], n).world.states[n] != Ready
  {
    if w.states[n] == Initial {
      var w1 := w.(calls := w.calls + 1);
      DepsFrame(g, w1, [n], g[n].deps);
      assert [] + [n] == [n] && n in [n];
    }
  }

  function Both(first: string, second: string): seq<Entry> {
    [Entry(first, true, None), Entry(second, true, None)]
  }

  lemma StartOne(g: Graph, w: World, n: string)
    requires w.states.Keys == g.Keys && n in g
    ensures var t := StartAll(g, w, [], [Entry(n, true, None)]);
            if w.states[n] == Initial then
              t == Tally(Start(g, w, [], n).world, if Start(g, w, [], n).ret == 0 then 0 else 1)
            else t == Tally(w, 0)
  {
    assert [Entry(n, true, None)][1..] == [];
    var w1 := Start(g, w, [], n).world;
    assert StartAll(g, w1, [], []) == Tally(w1, 0);
    assert StartAll(g, w, [], []) == Tally(w, 0);
  }

  lemma StartBoth(g: Graph, w: World, a: string, b: string)
    requires w.states.Keys == g.Keys && a in g && b in g && w.states[a] == Initial
    ensures var o := Start(g, w, [], a);
            var t := StartAll(g, w, [], Both(a, b));
            var rest := StartAll(g, o.world, [], [Entry(b, true, None)]);
            t == Tally(rest.world, rest.failed + if o.ret == 0 then 0 else 1)
  {
    assert Both(a, b)[1..] == [Entry(b, true, None)];
  }

  /** Two startable threads, `a` on top of `b`. When the way down from `a` does
      not fit the call stack but that from `b` does, the order decides. */
  lemma OrderDecides(g: Graph, w: World, a: string, b: string)
    requires Inv(g, w) && ReadySet(g, w) == {} && FailedSet(g, w) == {}
    requires a in g && b in g && g[a].deps == [b] && !Reaches(g, b, a)
    requires Startable(g, a) && !Fits(g, {}, a, MAX_CALL_STACK_DEPTH)
    requires Startable(g, b) && Fits(g, {}, b, MAX_CALL_STACK_DEPTH)
    ensures StartAll(g, w, [], Both(a, b)).world.states[a] != Ready
    ensures StartAll(g, w, [], Both(b, a)).world.states[a] == Ready
    ensures StartAll(g, w, [], Both(b, a)).failed == 0
  {
    assert w.states[a] == Initial && w.states[b] == Initial by {
      assert a !in ReadySet(g, w) && a !in FailedSet(g, w);
      assert b !in ReadySet(g, w) && b !in FailedSet(g, w);
    }
    StartBoth(g, w, a, b);
    StartBoth(g, w, b, a);
    StartOne(g, Start(g, w, [], a).world, b);
    StartOne(g, Start(g, w, [], b).world, a);
    DeepFirst(g, w, a, b);
    ShallowFirst(g, w, a, b);
  }

  lemma DeepFirst(g: Graph, w: World, a: string, b: string)
    requires Inv(g, w) && a in g && b in g && !Reaches(g, b, a)
    requires !Fits(g, ReadySet(g, w), a, MAX_CALL_STACK_DEPTH)
    ensures var o := Start(g, w, [], a);
            && o.world.states[a] != Ready
            && Start(g, o.world, [], b).world.states[a] != Ready
  {
    StartSucceedsIff(g, w, a);
    FailedStartNotReady(g, w, a);
    var o := Start(g, w, [], a);
    if Start(g, o.world, [], b).world.states[a] == Ready {
      StartTouches(g, o.world, [], b, a);
    }
  }

  lemma ShallowFirst(g: Graph, w: World, a: string, b: string)
    requires Inv(g, w) && a in g && g[a].deps == [b] && !Reaches(g, b, a)
    requires Startable(g, a) && Startable(g, b) && w.states[a] == Initial
    requires Fits(g, ReadySet(g, w), b, MAX_CALL_STACK_DEPTH)
    ensures var o := Start(g, w, [], b);
            && o.ret == 0
            && o.world.states[a] == Initial
            && Start(g, o.world, [], a).ret == 0
            && Start(g, o.world, [], a).world.states[a] == Ready
  {
    StartSucceedsIff(g, w, b);
    StartKeeps(g, w, [], b);
    var o := Start(g, w, [], b);
    if o.world.states[a] != w.states[a] {
      StartTouches(g, w, [], b, a);
    }
    var ready := ReadySet(g, o.world);
    assert Fits(g, ready, b, MAX_CALL_STACK_DEPTH - 1);
    assert FitsAll(g, ready, [b], MAX_CALL_STACK_DEPTH - 1);
    StartSucceedsIff(g, o.world, a);
    StartKeeps(g, o.world, [], a);
  }
}
