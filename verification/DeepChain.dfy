/** A chain of threads, each one depending on the one before it: registered from the
    bottom up it always starts; from the top down it does exactly when it has no
    more names than the call stack has room for. */
module DeepChain {
  import opened Common
  import opened ThreadGraph
  import opened Starter
  import opened StarterExact
  import opened StarterOutcome
  import opened StarterSystem
  import opened RegistrationOrder

  /** One printable character for each thread. */
  function Name(i: nat): string
    requires i <= MAX_THREADS
  {
    [(48 + i) as char]
  }

  lemma NamesDiffer(i: nat, j: nat)
    requires i <= MAX_THREADS && j <= MAX_THREADS
    ensures Name(i) == Name(j) <==> i == j
  {
    if Name(i) == Name(j) {
      assert Name(i)[0] == Name(j)[0];
    }
  }

  /** A healthy thread with a ready semaphore. */
  function Link(i: nat): Thread
    requires 1 <= i <= MAX_THREADS
  {
    Thread(if i == 1 then [] else [Name(i - 1)], 0, true, true)
  }

  ghost predicate IsChain(g: Graph, length: nat)
    requires length <= MAX_THREADS
  {
    forall i | 1 <= i <= length :: IsLink(g, i)
  }

  ghost predicate IsLink(g: Graph, i: int)
    requires 1 <= i <= MAX_THREADS
  {
    Name(i) in g && g[Name(i)] == Link(i)
  }

  lemma {:induction false} ChainLevel(g: Graph, length: nat, i: nat, k: nat)
    requires length <= MAX_THREADS && IsChain(g, length) && 1 <= i <= length
    ensures Name(i) in Level(g, k) <==> i <= k
  {
    assert IsLink(g, i);
    if k > 0 && i > 1 {
      ChainLevel(g, length, i - 1, k - 1);
      assert Name(i - 1) in g[Name(i)].deps;
    }
  }

  lemma {:induction false} ChainFits(g: Graph, length: nat, i: nat, room: nat)
    requires length <= MAX_THREADS && IsChain(g, length) && 1 <= i <= length
    ensures Fits(g, {}, Name(i), room) <==> i <= room
  {
    assert IsLink(g, i);
    if room > 0 && i > 1 {
      ChainFits(g, length, i - 1, room - 1);
      assert FitsAll(g, {}, [Name(i - 1)], room - 1) == Fits(g, {}, Name(i - 1), room - 1);
    }
  }

  lemma ChainReachesDown(g: Graph, length: nat, i: nat, j: nat)
    requires length <= MAX_THREADS && IsChain(g, length) && 1 <= i < j <= length
    ensures !Reaches(g, Name(i), Name(j))
  {
    if Reaches(g, Name(i), Name(j)) {
      var p :| IsPath(g, p) && p[0] == Name(i) && p[|p| - 1] == Name(j);
      ChainLevel(g, length, i, i);
      PathDescends(g, p, i);
      LevelMonotone(g, i - (|p| - 1), i);
      ChainLevel(g, length, j, i);
    }
  }

  /** The next thread up takes two slots when the one below it is ready. */
  lemma NextFits(g: Graph, length: nat, i: nat, ready: set<string>)
    requires length <= MAX_THREADS && IsChain(g, length) && 1 <= i <= length
    requires i > 1 ==> Name(i - 1) in ready
    ensures Startable(g, Name(i)) && Fits(g, ready, Name(i), MAX_CALL_STACK_DEPTH)
  {
    ChainLevel(g, length, i, i);
    assert IsLink(g, i);
    if i > 1 {
      var room := MAX_CALL_STACK_DEPTH - 1;
      assert Fits(g, ready, Name(i - 1), room);
      assert FitsAll(g, ready, [Name(i - 1)], room);
    }
  }

  // ---- registering the chain ----

  function RegisterLink(i: nat): Op
    requires 1 <= i <= MAX_THREADS
  {
    Register(Name(i), if i == 1 then [] else [Some(Name(i - 1))], 0, true, true, true)
  }

  /** From the bottom up. */
  function Ascending(k: nat): (ops: seq<Op>)
    requires k <= MAX_THREADS
    ensures |ops| == k && forall i | 0 <= i < k :: ops[i] == RegisterLink(i + 1)
  {
    if k == 0 then [] else Ascending(k - 1) + [RegisterLink(k)]
  }

  /** From the top down. */
  function Descending(k: nat): (ops: seq<Op>)
    requires k <= MAX_THREADS
    ensures |ops| == k && forall i | 0 <= i < k :: ops[i] == RegisterLink(k - i)
  {
    if k == 0 then [] else [RegisterLink(k)] + Descending(k - 1)
  }

  lemma {:induction false} SameLinks(k: nat)
    requires k <= MAX_THREADS
    ensures multiset(Ascending(k)) == multiset(Descending(k))
  {
    if k > 0 {
      SameLinks(k - 1);
    }
  }

  lemma BothRegister(k: nat)
    requires k <= MAX_THREADS
    ensures Registrations(Ascending(k)) && Registrations(Descending(k))
  {
    forall i, j | 0 <= i < j < k
      ensures Ascending(k)[i].name != Ascending(k)[j].name && Descending(k)[i].name != Descending(k)[j].name
    {
      LinksDiffer(i + 1, j + 1);
      LinksDiffer(k - i, k - j);
    }
  }

  lemma LinksDiffer(i: nat, j: nat)
    requires 1 <= i <= MAX_THREADS && 1 <= j <= MAX_THREADS && i != j
    ensures RegisterLink(i).name != RegisterLink(j).name
  {
    NamesDiffer(i, j);
  }

  lemma LinkIsRegistered(i: nat)
    requires 1 <= i <= MAX_THREADS
    ensures ThreadOf(RegisterLink(i)) == Link(i)
  {
    var deps := StoredDeps(RegisterLink(i).offered);
    assert deps == Link(i).deps;
  }

  /** What the manager then knows: the same for both orders, and nothing started. */
  lemma ChainRegistered(k: nat)
    requires k <= MAX_THREADS
    ensures var s1, s2 := Run(EMPTY, Ascending(k)), Run(EMPTY, Descending(k));
            && IsChain(s1.graph, k) && s1.graph == s2.graph && s1.world == s2.world
            && ReadySet(s1.graph, s1.world) == {} && FailedSet(s1.graph, s1.world) == {}
            && FromBottom(s1.entries, k, k) && FromTop(s2.entries, k)
  {
    var up, down := Ascending(k), Descending(k);
    var s1, s2 := Run(EMPTY, up), Run(EMPTY, down);
    BothRegister(k);
    RegistersAll(up);
    RegistersAll(down);
    SameLinks(k);
    forall op ensures op in up <==> op in down {
      assert op in multiset(up) <==> op in multiset(down);
    }
    SameSystem(s1, s2, up, down);
    forall i | 1 <= i <= k ensures IsLink(s1.graph, i) {
      assert Held(s1, i - 1, up[i - 1]);
      LinkIsRegistered(i);
    }
    forall i | 0 <= i < k ensures s1.entries[i] == Asked(i + 1) && s2.entries[i] == Asked(k - i) {
      assert Held(s1, i, up[i]) && Held(s2, i, down[i]);
    }
  }

  // ---- starting it ----

  function Asked(i: nat): Entry
    requires i <= MAX_THREADS
  {
    Entry(Name(i), true, None)
  }

  /** The last `n` threads of the chain, from the bottom up. */
  ghost predicate FromBottom(es: seq<Entry>, length: nat, n: nat)
    requires length <= MAX_THREADS
  {
    |es| == n <= length && forall i | 0 <= i < n :: es[i] == Asked(length - n + 1 + i)
  }

  /** The first `n` threads of the chain, from the top down. */
  ghost predicate FromTop(es: seq<Entry>, n: nat)
    requires n <= MAX_THREADS
  {
    |es| == n && forall i | 0 <= i < n :: es[i] == Asked(n - i)
  }

  lemma KnownFromBottom(g: Graph, length: nat, n: nat, es: seq<Entry>)
    requires length <= MAX_THREADS && IsChain(g, length) && FromBottom(es, length, n)
    ensures Known(g, es)
  {
    forall e | e in es ensures e.name in g {
      var i :| 0 <= i < |es| && es[i] == e;
      assert es[i] == Asked(length - n + 1 + i) && IsLink(g, length - n + 1 + i);
    }
  }

  lemma KnownFromTop(g: Graph, length: nat, n: nat, es: seq<Entry>)
    requires n <= length <= MAX_THREADS && IsChain(g, length) && FromTop(es, n)
    ensures Known(g, es)
  {
    forall e | e in es ensures e.name in g {
      var i :| 0 <= i < |es| && es[i] == e;
      assert es[i] == Asked(n - i) && IsLink(g, n - i);
    }
  }

  lemma FromBottomRest(es: seq<Entry>, length: nat, n: nat)
    requires 0 < n <= length <= MAX_THREADS && FromBottom(es, length, n)
    ensures es[0] == Asked(length - n + 1) && FromBottom(es[1..], length, n - 1)
  {
    forall i | 0 <= i < n - 1 ensures es[1..][i] == Asked(length - (n - 1) + 1 + i) {
      assert es[i + 1] == Asked(length - n + 1 + i + 1);
    }
  }

  lemma FromTopRest(es: seq<Entry>, n: nat)
    requires 0 < n <= MAX_THREADS && FromTop(es, n)
    ensures es[0] == Asked(n) && FromTop(es[1..], n - 1)
  {
    forall i | 0 <= i < n - 1 ensures es[1..][i] == Asked(n - 1 - i) {
      assert es[i + 1] == Asked(n - (i + 1));
    }
  }

  lemma {:induction false} AscendingSucceeds(g: Graph, length: nat, n: nat, ready: set<string>, es: seq<Entry>)
    requires length <= MAX_THREADS && IsChain(g, length) && FromBottom(es, length, n)
    requires n < length ==> Name(length - n) in ready
    ensures AllSucceed(g, ready, {}, es)
    decreases n
  {
    if n > 0 {
      var i := length - n + 1;
      FromBottomRest(es, length, n);
      NextFits(g, length, i, ready);
      ReachesSelf(g, Name(i));
      assert IsLink(g, i) && Name(i) in Below(g, Name(i));
      var ready' := if Attempted(ready, {}, es[0]) then ready + Below(g, Name(i)) else ready;
      AscendingSucceeds(g, length, n - 1, ready', es[1..]);
    }
  }

  lemma BottomFirst(g: Graph, w: World, length: nat, es: seq<Entry>)
    requires Inv(g, w) && 1 <= length <= MAX_THREADS && IsChain(g, length)
    requires ReadySet(g, w) == {} && FailedSet(g, w) == {} && FromBottom(es, length, length)
    ensures Known(g, es) && Name(length) in g
    ensures StartAll(g, w, [], es).world.states[Name(length)] == Ready
  {
    KnownFromBottom(g, length, length, es);
    AscendingSucceeds(g, length, length, {}, es);
    ZeroFailuresIff(g, w, es);
    ZeroFailuresMeans(g, w, es);
    assert es[length - 1] == Asked(length) && IsLink(g, length);
    assert es[length - 1] in es;
    assert Name(length) !in FailedSet(g, w);
  }

  /** Asked for first, the top of the chain is brought up exactly when the chain
      fits the call stack. */
  lemma TopAlone(g: Graph, w: World, length: nat)
    requires Inv(g, w) && 1 <= length <= MAX_THREADS && IsChain(g, length)
    requires ReadySet(g, w) == {} && FailedSet(g, w) == {}
    ensures Name(length) in g && w.states[Name(length)] == Initial
    ensures Start(g, w, [], Name(length)).world.states[Name(length)]
         == if length <= MAX_CALL_STACK_DEPTH then Ready else Initial
  {
    var top := Name(length);
    assert IsLink(g, length);
    assert w.states[top] == Initial by {
      assert top !in ReadySet(g, w) && top !in FailedSet(g, w);
    }
    ChainLevel(g, length, length, length);
    ChainFits(g, length, length, MAX_CALL_STACK_DEPTH);
    StartSucceedsIff(g, w, top);
    StartKeeps(g, w, [], top);
    if Start(g, w, [], top).ret != 0 { FailedStartNotReady(g, w, top); }
  }

  /** What is started after it does not change that. */
  lemma RestLeavesTop(g: Graph, w: World, length: nat, es: seq<Entry>)
    requires w.states.Keys == g.Keys && 1 <= length <= MAX_THREADS && IsChain(g, length)
    requires FromTop(es, length - 1)
    ensures Known(g, es) && Name(length) in g
    ensures StartAll(g, w, [], es).world.states[Name(length)] == w.states[Name(length)]
  {
    assert IsLink(g, length);
    KnownFromTop(g, length, length - 1, es);
    if StartAll(g, w, [], es).world.states[Name(length)] != w.states[Name(length)] {
      StartAllTouches(g, w, es, Name(length));
      var e :| e in es && Reaches(g, e.name, Name(length));
      var i :| 0 <= i < |es| && es[i] == e;
      assert es[i] == Asked(length - 1 - i);
      ChainReachesDown(g, length, length - 1 - i, length);
    }
  }

  lemma TopFirst(g: Graph, w: World, length: nat, es: seq<Entry>)
    requires Inv(g, w) && 1 <= length <= MAX_THREADS && IsChain(g, length)
    requires ReadySet(g, w) == {} && FailedSet(g, w) == {} && FromTop(es, length)
    ensures Known(g, es) && Name(length) in g
    ensures StartAll(g, w, [], es).world.states[Name(length)]
         == if length <= MAX_CALL_STACK_DEPTH then Ready else Initial
  {
    KnownFromTop(g, length, length, es);
    FromTopRest(es, length);
    TopAlone(g, w, length);
    RestLeavesTop(g, Start(g, w, [], Name(length)).world, length, es[1..]);
  }

  lemma StartAutoIs(s: System)
    requires WellFormed(s)
    ensures Apply(s, StartAuto).world == StartAll(s.graph, s.world, [], s.entries).world
  {
  }

  lemma AscendingOutcome(k: nat)
    requires 1 <= k <= MAX_THREADS
    ensures var s := Run(EMPTY, Ascending(k));
            Name(k) in s.graph && Startable(s.graph, Name(k)) && Apply(s, StartAuto).world.states[Name(k)] == Ready
  {
    var s := Run(EMPTY, Ascending(k));
    ChainRegistered(k);
    RunInv(Ascending(k));
    ChainLevel(s.graph, k, k, k);
    BottomFirst(s.graph, s.world, k, s.entries);
    StartAutoIs(s);
  }

  lemma DescendingOutcome(k: nat)
    requires 1 <= k <= MAX_THREADS
    ensures var s := Run(EMPTY, Descending(k));
            && Name(k) in s.graph
            && Apply(s, StartAuto).world.states[Name(k)] == if k <= MAX_CALL_STACK_DEPTH then Ready else Initial
  {
    var s := Run(EMPTY, Descending(k));
    ChainRegistered(k);
    RunInv(Descending(k));
    TopFirst(s.graph, s.world, k, s.entries);
    StartAutoIs(s);
  }

  /** The order of registration decides over a chain exactly when it has more than
      32 names: bottom up all is well; top down its top thread is left behind,
      although nothing is wrong with any thread. */
  lemma OrderMattersIff(k: nat)
    requires 1 <= k <= MAX_THREADS
    ensures multiset(Ascending(k)) == multiset(Descending(k))
    ensures Registrations(Ascending(k)) && Registrations(Descending(k))
    ensures var up, down := Run(EMPTY, Ascending(k)), Run(EMPTY, Descending(k));
            && Name(k) in up.graph && Name(k) in down.graph && Startable(up.graph, Name(k))
            && Apply(up, StartAuto).world.states[Name(k)] == Ready
            && Apply(down, StartAuto).world.states[Name(k)]
               == if k <= MAX_CALL_STACK_DEPTH then Ready else Initial
  {
    BothRegister(k);
    SameLinks(k);
    AscendingOutcome(k);
    DescendingOutcome(k);
  }
}
