/** Registering the same descriptors in another order and starting them up leaves
    every thread in the same state. */
module RegistrationOrder {
  import opened Common
  import opened ThreadGraph
  import opened Starter
  import opened StarterConfluence
  import opened StarterOutcome
  import opened StarterSystem

  ghost predicate AllRegister(ops: seq<Op>) {
    forall i | 0 <= i < |ops| :: ops[i].Register?
  }

  /** At most 64 registrations, under distinct names. */
  ghost predicate Registrations(ops: seq<Op>) {
    && |ops| <= MAX_THREADS && AllRegister(ops)
    && (forall i, j | 0 <= i < j < |ops| :: ops[i].name != ops[j].name)
  }

  ghost function ThreadOf(op: Op): Thread
    requires op.Register?
  {
    Thread(StoredDeps(op.offered), op.initReturn, op.hasSem, op.signalArrives)
  }

  function EntryOf(op: Op): Entry
    requires op.Register?
  {
    Entry(op.name, op.autoStart, None)
  }

  /** `s` holds what `ops` have registered, and nothing has been started. */
  ghost predicate Holds(s: System, ops: seq<Op>)
    requires AllRegister(ops)
  {
    && WellFormed(s) && s.world.log == [] && s.world.calls == 0
    && |s.entries| == |ops|
    && (forall i | 0 <= i < |ops| :: Held(s, i, ops[i]))
    && (forall n | n in s.graph :: Named(ops, n) && s.world.states[n] == Initial)
  }

  /** The i-th descriptor is the one that `op` has registered, and lookup finds it. */
  ghost predicate Held(s: System, i: nat, op: Op)
    requires op.Register?
  {
    && i < |s.entries| && s.entries[i] == EntryOf(op)
    && op.name in s.graph && s.graph[op.name] == ThreadOf(op)
  }

  ghost predicate Named(ops: seq<Op>, n: string)
    requires AllRegister(ops)
  {
    exists i :: 0 <= i < |ops| && ops[i].name == n
  }

  lemma NameIsNew(ops: seq<Op>, op: Op)
    requires Registrations(ops + [op]) && Registrations(ops)
    ensures op.Register? && !Named(ops, op.name)
  {
    var all := ops + [op];
    assert op == all[|ops|];
    forall i | 0 <= i < |ops| ensures ops[i].name != op.name {
      assert ops[i] == all[i] && all[i].name != all[|ops|].name;
    }
  }

  lemma NamesAppend(ops: seq<Op>, op: Op, n: string)
    requires AllRegister(ops + [op]) && AllRegister(ops)
    ensures op.Register? && (Named(ops + [op], n) <==> Named(ops, n) || n == op.name)
  {
    var all := ops + [op];
    assert all[|ops|] == op;
    assert forall i | 0 <= i < |ops| :: all[i] == ops[i];
    if Named(ops, n) {
      var i :| 0 <= i < |ops| && ops[i].name == n;
      assert all[i].name == n;
    }
  }

  lemma RegisterFresh(s: System, op: Op)
    requires WellFormed(s) && op.Register? && op.name !in s.graph && |s.entries| < MAX_THREADS
    ensures Apply(s, op) == System(s.graph[op.name := ThreadOf(op)], SetState(s.world, op.name, Initial),
                                   s.entries + [EntryOf(op)])
  {
  }

  lemma HoldsExtended(s: System, s': System, ops: seq<Op>, op: Op)
    requires AllRegister(ops + [op]) && AllRegister(ops) && op.Register? && Holds(s, ops)
    requires s' == System(s.graph[op.name := ThreadOf(op)], SetState(s.world, op.name, Initial),
                          s.entries + [EntryOf(op)])
    requires !Named(ops, op.name) && WellFormed(s')
    ensures Holds(s', ops + [op])
  {
    assert op.name !in s.graph;
    forall i | 0 <= i < |ops| ensures Held(s', i, ops[i]) {
      assert Held(s, i, ops[i]);
    }
    forall n ensures Named(ops + [op], n) <==> Named(ops, n) || n == op.name {
      NamesAppend(ops, op, n);
    }
  }

  lemma HoldsOneMore(s: System, ops: seq<Op>, op: Op)
    requires AllRegister(ops + [op]) && AllRegister(ops) && op.Register? && Holds(s, ops)
    requires |ops| < MAX_THREADS && !Named(ops, op.name)
    ensures Holds(Apply(s, op), ops + [op])
  {
    assert op.name !in s.graph;
    RegisterFresh(s, op);
    HoldsExtended(s, Apply(s, op), ops, op);
  }

  lemma {:induction false} RunRegisters(s: System, done: seq<Op>, ops: seq<Op>)
    requires Registrations(done + ops) && Registrations(done) && Holds(s, done)
    ensures Holds(Run(s, ops), done + ops)
    decreases |ops|
  {
    if ops == [] {
      assert done + ops == done;
    } else {
      var done' := done + [ops[0]];
      assert done' + ops[1..] == done + ops;
      assert done' == (done + ops)[..|done| + 1];
      NameIsNew(done, ops[0]);
      HoldsOneMore(s, done, ops[0]);
      RunRegisters(Apply(s, ops[0]), done', ops[1..]);
    }
  }

  lemma RegistersAll(ops: seq<Op>)
    requires Registrations(ops)
    ensures Holds(Run(EMPTY, ops), ops)
  {
    assert [] + ops == ops;
    RunRegisters(EMPTY, [], ops);
  }

  /** The same operations give the same graph and the same descriptors. */
  lemma SameSystem(s1: System, s2: System, ops1: seq<Op>, ops2: seq<Op>)
    requires AllRegister(ops1) && AllRegister(ops2) && Holds(s1, ops1) && Holds(s2, ops2)
    requires forall op :: op in ops1 <==> op in ops2
    ensures s1.graph == s2.graph && s1.world == s2.world
    ensures forall e :: e in s1.entries <==> e in s2.entries
  {
    SameNames(s1, s2, ops1, ops2);
    SameNames(s2, s1, ops2, ops1);
    EntriesContained(s1, s2, ops1, ops2);
    EntriesContained(s2, s1, ops2, ops1);
    SameMaps(s1, s2);
  }

  lemma SameMaps(s1: System, s2: System)
    requires WellFormed(s1) && WellFormed(s2)
    requires s1.world.log == s2.world.log && s1.world.calls == s2.world.calls
    requires forall n | n in s1.graph :: InBoth(s1, s2, n)
    requires forall n | n in s2.graph :: InBoth(s2, s1, n)
    ensures s1.graph == s2.graph && s1.world == s2.world
  {
    assert forall n | n in s1.graph :: InBoth(s1, s2, n) && n in s2.graph;
    assert forall n | n in s2.graph :: InBoth(s2, s1, n) && n in s1.graph;
    assert s1.graph == s2.graph;
    assert s1.world.states == s2.world.states;
  }

  ghost predicate InBoth(s1: System, s2: System, n: string)
    requires WellFormed(s1) && WellFormed(s2)
  {
    n in s1.graph && n in s2.graph && s1.graph[n] == s2.graph[n] && s1.world.states[n] == s2.world.states[n]
  }

  lemma SameNames(s1: System, s2: System, ops1: seq<Op>, ops2: seq<Op>)
    requires AllRegister(ops1) && AllRegister(ops2) && Holds(s1, ops1) && Holds(s2, ops2)
    requires forall op | op in ops1 :: op in ops2
    ensures forall n | n in s1.graph :: InBoth(s1, s2, n)
  {
    forall n | n in s1.graph ensures InBoth(s1, s2, n) {
      var i := PlaceOf(s1, ops1, n);
      HeldByBoth(s1, s2, ops1, ops2, i);
    }
  }

  lemma PlaceOf(s: System, ops: seq<Op>, n: string) returns (i: nat)
    requires AllRegister(ops) && Holds(s, ops) && n in s.graph
    ensures i < |ops| && ops[i].name == n
  {
    assert Named(ops, n);
    i :| i < |ops| && ops[i].name == n;
  }

  lemma EntriesContained(s1: System, s2: System, ops1: seq<Op>, ops2: seq<Op>)
    requires AllRegister(ops1) && AllRegister(ops2) && Holds(s1, ops1) && Holds(s2, ops2)
    requires forall op | op in ops1 :: op in ops2
    ensures forall e | e in s1.entries :: e in s2.entries
  {
    forall e | e in s1.entries ensures e in s2.entries {
      var i :| 0 <= i < |ops1| && s1.entries[i] == e;
      HeldByBoth(s1, s2, ops1, ops2, i);
    }
  }

  lemma HeldByBoth(s1: System, s2: System, ops1: seq<Op>, ops2: seq<Op>, i: nat)
    requires AllRegister(ops1) && AllRegister(ops2) && Holds(s1, ops1) && Holds(s2, ops2)
    requires i < |ops1| && ops1[i] in ops2
    ensures s1.entries[i] in s2.entries
    ensures var n := ops1[i].name;
            && n in s1.graph && n in s2.graph && s2.graph[n] == s1.graph[n]
            && s2.world.states[n] == s1.world.states[n] == Initial
  {
    var j :| 0 <= j < |ops2| && ops2[j] == ops1[i];
    assert Held(s1, i, ops1[i]) && Held(s2, j, ops2[j]);
  }

  /** Another order of the same registrations consists of registrations, too. */
  lemma PermutedRegistrations(ops1: seq<Op>, ops2: seq<Op>)
    requires Registrations(ops1) && multiset(ops1) == multiset(ops2)
    ensures Registrations(ops2) && forall op :: op in ops1 <==> op in ops2
  {
    SameMembers(ops1, ops2);
    assert NoDuplicates(ops1);
    PermutedNoDuplicates(ops1, ops2);
    forall i | 0 <= i < |ops2| ensures ops2[i].Register? {
      assert ops2[i] in ops1;
    }
    forall i, j | 0 <= i < j < |ops2| ensures ops2[i].name != ops2[j].name {
      assert ops2[i] in ops1 && ops2[j] in ops1;
      var k :| 0 <= k < |ops1| && ops1[k] == ops2[i];
      var m :| 0 <= m < |ops1| && ops1[m] == ops2[j];
      assert ops2[i] != ops2[j];
    }
  }

  lemma SameAfterRegistration(ops1: seq<Op>, ops2: seq<Op>)
    requires Registrations(ops1) && multiset(ops1) == multiset(ops2)
    ensures var s1, s2 := Run(EMPTY, ops1), Run(EMPTY, ops2);
            && s1.graph == s2.graph && s1.world == s2.world && forall e :: e in s1.entries <==> e in s2.entries
  {
    PermutedRegistrations(ops1, ops2);
    RegistersAll(ops1);
    RegistersAll(ops2);
    SameSystem(Run(EMPTY, ops1), Run(EMPTY, ops2), ops1, ops2);
  }

  /** Confluence: any two orders of the same registrations, followed by start-up,
      leave every thread in the same state, which is also the one that the
      dependency graph alone determines. */
  lemma RegistrationOrderIrrelevant(ops1: seq<Op>, ops2: seq<Op>)
    requires Registrations(ops1) && multiset(ops1) == multiset(ops2)
    requires var s := Run(EMPTY, ops1);
             AllHaveRoom(s.graph, Asked(s.world, s.entries))
    ensures var s, t1, t2 := Run(EMPTY, ops1), Apply(Run(EMPTY, ops1), StartAuto), Apply(Run(EMPTY, ops2), StartAuto);
            && t1.graph == t2.graph == s.graph
            && t1.world.states == t2.world.states
            && (forall n | n in s.graph ::
                  t1.world.states[n] == FinalState(s.graph, s.world, Asked(s.world, s.entries), n))
  {
    var s1, s2 := Run(EMPTY, ops1), Run(EMPTY, ops2);
    SameAfterRegistration(ops1, ops2);
    RunInv(ops1);
    OrderNeverMatters(s1.graph, s1.world, s1.entries, s2.entries);
    forall n | n in s1.graph
      ensures Apply(s1, StartAuto).world.states[n] == FinalState(s1.graph, s1.world, Asked(s1.world, s1.entries), n)
    {
      StartAllOutcome(s1.graph, s1.world, s1.entries, n);
    }
  }

  lemma RunInv(ops: seq<Op>)
    ensures Inv(Run(EMPTY, ops).graph, Run(EMPTY, ops).world)
  {
    EveryRunIsSound(ops);
  }

  // ---- start-up without failures in every order ----

  /** What start_all_auto_threads returns. */
  ghost function Failures(s: System): nat
    requires WellFormed(s)
  {
    StartAll(s.graph, s.world, [], s.entries).failed
  }

  /** Can be brought up by itself. */
  ghost predicate FineFirst(g: Graph, op: Op)
    requires op.Register?
  {
    op.autoStart ==> Fine(g, {}, EntryOf(op))
  }

  lemma FineFirstIff(s: System, ops: seq<Op>, i: nat)
    requires AllRegister(ops) && Holds(s, ops) && i < |ops|
    ensures FineFirst(s.graph, ops[i]) <==>
            (Attempted(ReadySet(s.graph, s.world), FailedSet(s.graph, s.world), s.entries[i]) ==>
               Fine(s.graph, ReadySet(s.graph, s.world), s.entries[i]))
  {
    assert Held(s, i, ops[i]);
    NothingStarted(s, ops);
  }

  lemma NothingStarted(s: System, ops: seq<Op>)
    requires AllRegister(ops) && Holds(s, ops)
    ensures ReadySet(s.graph, s.world) == {} && FailedSet(s.graph, s.world) == {}
  {
  }

  lemma EntriesFine(s: System, ops: seq<Op>)
    requires AllRegister(ops) && Holds(s, ops) && forall i | 0 <= i < |ops| :: FineFirst(s.graph, ops[i])
    ensures var ready, failed := ReadySet(s.graph, s.world), FailedSet(s.graph, s.world);
            forall e | e in s.entries && Attempted(ready, failed, e) :: Fine(s.graph, ready, e)
  {
    var ready, failed := ReadySet(s.graph, s.world), FailedSet(s.graph, s.world);
    forall e | e in s.entries && Attempted(ready, failed, e) ensures Fine(s.graph, ready, e) {
      var i :| 0 <= i < |ops| && s.entries[i] == e;
      FineFirstIff(s, ops, i);
    }
  }

  /** One order: when all could start first, none fails. */
  lemma NoneFails(ops: seq<Op>)
    requires Registrations(ops) && forall i | 0 <= i < |ops| :: FineFirst(Run(EMPTY, ops).graph, ops[i])
    ensures Failures(Run(EMPTY, ops)) == 0
  {
    var s := Run(EMPTY, ops);
    var ready, failed := ReadySet(s.graph, s.world), FailedSet(s.graph, s.world);
    RegistersAll(ops);
    RunInv(ops);
    EntriesFine(s, ops);
    AllFineSucceed(s.graph, ready, ready, failed, s.entries);
    ZeroFailuresIff(s.graph, s.world, s.entries);
  }

  /** When the first one could not, it fails. */
  lemma FirstFails(ops: seq<Op>)
    requires Registrations(ops) && ops != [] && !FineFirst(Run(EMPTY, ops).graph, ops[0])
    ensures Failures(Run(EMPTY, ops)) != 0
  {
    var s := Run(EMPTY, ops);
    RegistersAll(ops);
    RunInv(ops);
    FineFirstIff(s, ops, 0);
    ZeroFailuresIff(s.graph, s.world, s.entries);
  }

  /** Start-up returns 0 for every order of the same registrations exactly when
      every auto-start thread could be started first. */
  lemma EveryOrderSucceedsIff(ops: seq<Op>)
    requires Registrations(ops)
    ensures (forall ops' | multiset(ops') == multiset(ops) :: Failures(Run(EMPTY, ops')) == 0) <==>
            forall i | 0 <= i < |ops| :: FineFirst(Run(EMPTY, ops).graph, ops[i])
  {
    var g := Run(EMPTY, ops).graph;
    if forall i | 0 <= i < |ops| :: FineFirst(g, ops[i]) {
      forall ops' | multiset(ops') == multiset(ops) ensures Failures(Run(EMPTY, ops')) == 0 {
        PermutedRegistrations(ops, ops');
        SameAfterRegistration(ops, ops');
        forall i | 0 <= i < |ops'| ensures FineFirst(g, ops'[i]) {
          assert ops'[i] in ops;
        }
        NoneFails(ops');
      }
    } else {
      var i :| 0 <= i < |ops| && !FineFirst(g, ops[i]);
      var ops' := BroughtForward(ops, i);
      PermutedRegistrations(ops, ops');
      SameAfterRegistration(ops, ops');
      FirstFails(ops');
      assert Failures(Run(EMPTY, ops')) != 0;
    }
  }
}
