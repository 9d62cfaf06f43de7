/** The final state of every thread after start-up, as a function of the graph and
    of the set of threads asked for: nothing depends on the registration order. */
module StarterConfluence {
  import opened ThreadGraph
  import opened Starter
  import opened StarterExact
  import opened StarterRuns

  // ---- which threads a start looks at ----

  /** A start of `y` goes on to its dependency `d`: all dependencies before it can
      be brought up. */
  ghost predicate Visits(g: Graph, y: string, d: string) {
    y in g && exists i :: VisitsAt(g, y, i) && g[y].deps[i] == d
  }

  ghost predicate VisitsAt(g: Graph, y: string, i: int)
    requires y in g
  {
    0 <= i < |g[y].deps| && forall j | 0 <= j < i :: Startable(g, g[y].deps[j])
  }

  ghost predicate IsTrail(g: Graph, p: seq<string>) {
    |p| > 0 && forall i | 0 <= i < |p| - 1 :: Visits(g, p[i], p[i + 1])
  }

  ghost predicate Simple(p: seq<string>) {
    forall i, j | 0 <= i < j < |p| :: p[i] != p[j]
  }

  ghost predicate Avoids(p: seq<string>, stack: seq<string>) {
    forall x | x in p :: x !in stack
  }

  ghost predicate TrailFromTo(g: Graph, p: seq<string>, n: string, m: string) {
    IsTrail(g, p) && p[0] == n && p[|p| - 1] == m
  }

  ghost predicate DepsStartable(g: Graph, n: string)
    requires n in g
  {
    forall d | d in g[n].deps :: Startable(g, d)
  }

  /** Can be brought up but for its own init_func or signal. */
  ghost predicate SelfFailing(g: Graph, m: string) {
    m in g && !g[m].Healthy() && DepsStartable(g, m)
  }

  /** `m` is in the state that a complete start leaves it in. */
  ghost predicate Done(g: Graph, w: World, m: string)
    requires w.states.Keys == g.Keys
  {
    m in g ==>
      (Startable(g, m) ==> w.states[m] == Ready) && (SelfFailing(g, m) ==> w.states[m] == Failed)
  }

  /** Every simple trail from `n` that stays off the call stack fits on it. */
  ghost predicate HasRoom(g: Graph, stack: seq<string>, n: string) {
    forall p | IsTrail(g, p) && p[0] == n && Simple(p) && Avoids(p, stack) ::
      |stack| + |p| <= MAX_CALL_STACK_DEPTH
  }

  // ---- trails ----

  lemma TrailStart(g: Graph, p: seq<string>)
    requires IsTrail(g, p) && |p| > 1
    ensures p[0] in g && Visits(g, p[0], p[1])
  {
  }

  lemma TrailTail(g: Graph, p: seq<string>, i: nat)
    requires IsTrail(g, p) && i < |p|
    ensures IsTrail(g, p[i..]) && p[i..][0] == p[i] && p[i..][|p| - i - 1] == p[|p| - 1]
  {
    var q := p[i..];
    forall j | 0 <= j < |q| - 1 ensures Visits(g, q[j], q[j + 1]) {
      assert Visits(g, p[i + j], p[i + j + 1]);
    }
  }

  lemma TrailCons(g: Graph, n: string, p: seq<string>)
    requires IsTrail(g, p) && Visits(g, n, p[0])
    ensures IsTrail(g, [n] + p)
  {
    var q := [n] + p;
    forall i | 0 <= i < |q| - 1 ensures Visits(g, q[i], q[i + 1]) {
      if i > 0 { assert q[i] == p[i - 1] && q[i + 1] == p[i]; }
    }
  }

  /** A thread whose dependencies are all startable looks at each of them. */
  lemma VisitsAll(g: Graph, n: string, k: nat)
    requires n in g && DepsStartable(g, n) && k < |g[n].deps|
    ensures VisitsAt(g, n, k) && Visits(g, n, g[n].deps[k]) && Startable(g, g[n].deps[k])
  {
  }

  lemma VisitsDep(g: Graph, n: string, d: string)
    requires n in g && DepsStartable(g, n) && d in g[n].deps
    ensures Visits(g, n, d)
  {
    var k :| 0 <= k < |g[n].deps| && g[n].deps[k] == d;
    VisitsAll(g, n, k);
  }

  // ---- paths and cycles ----

  lemma TrailIsPath(g: Graph, p: seq<string>)
    requires IsTrail(g, p)
    ensures IsPath(g, p)
  {
    forall i | 0 <= i < |p| - 1 ensures p[i] in g && p[i + 1] in g[p[i]].deps {
      assert Visits(g, p[i], p[i + 1]);
    }
  }

  lemma JoinPaths(g: Graph, p: seq<string>, q: seq<string>)
    requires IsPath(g, p) && IsPath(g, q) && p[|p| - 1] in g && q[0] in g[p[|p| - 1]].deps
    ensures IsPath(g, p + q)
  {
    var r := p + q;
    forall i | 0 <= i < |r| - 1 ensures r[i] in g && r[i + 1] in g[r[i]].deps {
      if i < |p| - 1 {
        assert r[i] == p[i] && r[i + 1] == p[i + 1];
      } else if i == |p| - 1 {
        assert r[i] == p[i] && r[i + 1] == q[0];
      } else {
        assert r[i] == q[i - |p|] && r[i + 1] == q[i - |p| + 1];
      }
    }
  }

  /** A thread from which a dependency path leads back to itself. */
  lemma CycleUnstartable(g: Graph, a: string, b: string, c: string)
    requires Reaches(g, a, b) && b in g && c in g[b].deps && Reaches(g, c, a)
    ensures !Startable(g, a)
  {
    var p :| IsPath(g, p) && p[0] == a && p[|p| - 1] == b;
    var q :| IsPath(g, q) && q[0] == c && q[|q| - 1] == a;
    JoinPaths(g, p, q);
    var r := p + q;
    assert r[0] == a && r[|r| - 1] == q[|q| - 1];
    forall k: nat ensures a !in Level(g, k) {
      CycleNotInLevel(g, r, k);
    }
  }

  lemma ReachesOneMore(g: Graph, s: string, n: string, d: string)
    requires Reaches(g, s, n) && n in g && d in g[n].deps
    ensures Reaches(g, s, d)
  {
    var p :| IsPath(g, p) && p[0] == s && p[|p| - 1] == n;
    assert IsPath(g, [d]);
    JoinPaths(g, p, [d]);
    var q := p + [d];
    assert q[0] == s && q[|q| - 1] == d;
  }

  /** Parts of a path. */
  lemma SubPath(g: Graph, p: seq<string>, i: nat, j: nat)
    requires IsPath(g, p) && i <= j < |p|
    ensures IsPath(g, p[i..j + 1]) && Reaches(g, p[i], p[j])
  {
    var q := p[i..j + 1];
    forall k | 0 <= k < |q| - 1 ensures q[k] in g && q[k + 1] in g[q[k]].deps {
      assert q[k] == p[i + k] && q[k + 1] == p[i + k + 1];
    }
    assert q[0] == p[i] && q[|q| - 1] == p[j];
  }

  /** Everything on a path from a startable thread is startable. */
  lemma {:induction false} PathStartable(g: Graph, p: seq<string>, i: nat)
    requires IsPath(g, p) && Startable(g, p[0]) && i < |p|
    ensures Startable(g, p[i])
  {
    if i > 0 {
      PathStartable(g, p, i - 1);
      assert p[i - 1] in g && p[i] in g[p[i - 1]].deps;
      StartableIsClosed(g, p[i - 1]);
    }
  }

  /** A path from a startable thread is a simple trail. */
  lemma PathIsSimpleTrail(g: Graph, p: seq<string>)
    requires IsPath(g, p) && Startable(g, p[0])
    ensures IsTrail(g, p) && Simple(p)
  {
    forall i | 0 <= i < |p| - 1 ensures Visits(g, p[i], p[i + 1]) {
      PathStartable(g, p, i);
      StartableIsClosed(g, p[i]);
      VisitsDep(g, p[i], p[i + 1]);
    }
    forall i, j | 0 <= i < j < |p| ensures p[i] != p[j] {
      SubPath(g, p, i, j - 1);
      PathStartable(g, p, i);
      ReachesSelf(g, p[j]);
      if p[i] == p[j] {
        CycleUnstartable(g, p[i], p[j - 1], p[j]);
      }
    }
  }

  // ---- startable threads are brought up ----

  /** Every name on the call stack depends on `n`. */
  ghost predicate Linked(g: Graph, stack: seq<string>, n: string) {
    forall s | s in stack :: Reaches(g, s, n)
  }

  lemma LinkedStep(g: Graph, stack: seq<string>, n: string, d: string)
    requires Linked(g, stack, n) && n in g && d in g[n].deps
    ensures Linked(g, stack + [n], d)
  {
    ReachesSelf(g, n);
    forall s | s in stack + [n] ensures Reaches(g, s, d) {
      ReachesOneMore(g, s, n, d);
    }
  }

  /** A startable dependency of the last name is not on the stack. */
  lemma StartableOffStack(g: Graph, stack: seq<string>, n: string, d: string)
    requires Linked(g, stack, n) && n in g && d in g[n].deps && Startable(g, d)
    ensures d !in stack + [n]
  {
    ReachesSelf(g, d);
    ReachesSelf(g, n);
    if d in stack + [n] {
      CycleUnstartable(g, d, n, d);
    }
  }

  /** What a startable thread depends on is not on the stack either. */
  lemma PathOffStack(g: Graph, stack: seq<string>, n: string, p: seq<string>)
    requires Linked(g, stack, n) && n !in stack && Startable(g, n) && IsPath(g, p) && p[0] == n
    ensures Avoids(p, stack)
  {
    forall x | x in p ensures x !in stack {
      var i :| 0 <= i < |p| && p[i] == x;
      SubPath(g, p, 0, i);
      if x in stack && i > 0 {
        SubPath(g, p, 0, i - 1);
        CycleUnstartableBack(g, n, p, i);
      }
    }
  }

  lemma CycleUnstartableBack(g: Graph, n: string, p: seq<string>, i: nat)
    requires IsPath(g, p) && p[0] == n && 0 < i < |p| && Reaches(g, p[i], n)
    ensures !Startable(g, n)
  {
    SubPath(g, p, 0, i - 1);
    assert p[i - 1] in g && p[i] in g[p[i - 1]].deps;
    CycleUnstartable(g, n, p[i - 1], p[i]);
  }

  lemma {:induction false} LeastLevel(g: Graph, n: string, bound: nat) returns (k: nat)
    requires n in Level(g, bound)
    ensures n in Level(g, k) && k > 0 && n !in Level(g, k - 1)
    decreases bound
  {
    if n in Level(g, bound - 1) {
      k := LeastLevel(g, n, bound - 1);
    } else {
      k := bound;
    }
  }

  lemma StackAboveLevel(g: Graph, stack: seq<string>, n: string, k: nat)
    requires Linked(g, stack, n) && n !in stack && k > 0 && n !in Level(g, k - 1)
    ensures forall s | s in stack :: s !in Level(g, k)
  {
    forall s | s in stack ensures s !in Level(g, k) {
      var p :| IsPath(g, p) && p[0] == s && p[|p| - 1] == n;
      if s in Level(g, k) {
        PathDescends(g, p, k);
        LevelMonotone(g, k - (|p| - 1), k - 1);
      }
    }
  }

  lemma RoomIsLevel(g: Graph, stack: seq<string>, n: string)
    requires Startable(g, n) && Linked(g, stack, n) && n !in stack && HasRoom(g, stack, n)
    ensures |stack| < MAX_CALL_STACK_DEPTH && n in Level(g, MAX_CALL_STACK_DEPTH - |stack|)
  {
    forall p | IsPath(g, p) && p[0] == n ensures |stack| + |p| <= MAX_CALL_STACK_DEPTH {
      PathIsSimpleTrail(g, p);
      PathOffStack(g, stack, n, p);
    }
    assert IsPath(g, [n]);
    LevelIsChainBound(g, n, MAX_CALL_STACK_DEPTH - |stack|);
  }

  lemma StartableSucceeds(g: Graph, w: World, stack: seq<string>, n: string)
    requires Inv(g, w) && Startable(g, n) && Linked(g, stack, n) && n !in stack && HasRoom(g, stack, n)
    ensures |stack| < MAX_CALL_STACK_DEPTH && Start(g, w, stack, n).ret == 0
  {
    RoomIsLevel(g, stack, n);
    LevelSucceeds(g, w, stack, n);
  }

  lemma LevelSucceeds(g: Graph, w: World, stack: seq<string>, n: string)
    requires Inv(g, w) && Linked(g, stack, n) && n !in stack && |stack| < MAX_CALL_STACK_DEPTH
    requires n in Level(g, MAX_CALL_STACK_DEPTH - |stack|)
    ensures Start(g, w, stack, n).ret == 0
  {
    var room := MAX_CALL_STACK_DEPTH - |stack|;
    LevelFits(g, ReadySet(g, w), n, room);
    var k := LeastLevel(g, n, room);
    StackAboveLevel(g, stack, n, k);
    StartFits(g, w, stack, n, k);
  }

  // ---- completeness: all that a start looks at is done afterwards ----

  lemma DoneStays(g: Graph, w: World, w': World, m: string)
    requires Evolves(g, w, w') && Done(g, w, m)
    ensures Done(g, w', m)
  {
  }

  /** The part of a trail behind the last occurrence of its first name. */
  lemma {:induction false} LastLeg(g: Graph, p: seq<string>, n: string) returns (q: seq<string>)
    requires IsTrail(g, p) && p[0] == n && p[|p| - 1] != n
    ensures IsTrail(g, q) && Visits(g, n, q[0]) && n !in q && q[|q| - 1] == p[|p| - 1]
    ensures forall x | x in q :: x in p
    decreases |p|
  {
    TrailTail(g, p, 1);
    q := p[1..];
    if n in q {
      var i :| 0 <= i < |q| && q[i] == n;
      TrailTail(g, q, i);
      q := LastLeg(g, q[i..], n);
    } else {
      TrailStart(g, p);
    }
  }

  /** The room for a dependency, from the room for the thread. */
  lemma RoomBelow(g: Graph, stack: seq<string>, n: string, d: string)
    requires HasRoom(g, stack, n) && n !in stack && Visits(g, n, d)
    ensures HasRoom(g, stack + [n], d)
  {
    forall p | IsTrail(g, p) && p[0] == d && Simple(p) && Avoids(p, stack + [n])
      ensures |stack + [n]| + |p| <= MAX_CALL_STACK_DEPTH
    {
      var q := [n] + p;
      TrailCons(g, n, p);
      assert n in stack + [n] && n !in p;
      assert IsTrail(g, q) && q[0] == n && Simple(q) && Avoids(q, stack);
    }
  }

  lemma ReadyIsDone(g: Graph, w: World, p: seq<string>)
    requires Inv(g, w) && IsTrail(g, p) && p[0] in g && w.states[p[0]] == Ready
    ensures Done(g, w, p[|p| - 1])
  {
    TrailIsPath(g, p);
    PathStays(g, ReadySet(g, w), p);
    StartableIsClosed(g, p[|p| - 1]);
  }

  lemma FailedIsDone(g: Graph, w: World, p: seq<string>)
    requires Inv(g, w) && IsTrail(g, p) && p[0] in g && w.states[p[0]] == Failed
    ensures Done(g, w, p[|p| - 1])
  {
    StartableIsClosed(g, p[0]);
    if |p| > 1 {
      TrailStart(g, p);
      TrailTail(g, p, 1);
      ReadyIsDone(g, w, p[1..]);
    }
  }

  lemma {:induction false} StartCompletes(g: Graph, w: World, stack: seq<string>, n: string, p: seq<string>)
    requires Inv(g, w) && Linked(g, stack, n) && HasRoom(g, stack, n)
    requires IsTrail(g, p) && p[0] == n && Avoids(p, stack)
    ensures Done(g, Start(g, w, stack, n).world, p[|p| - 1])
    decreases Room(stack), 0
  {
    var m := p[|p| - 1];
    assert n in p;
    assert |stack| + |[n]| <= MAX_CALL_STACK_DEPTH by { assert IsTrail(g, [n]) && Simple([n]) && Avoids([n], stack); }
    var w1 := w.(calls := w.calls + 1);
    CallKeeps(g, w, w.calls + 1);
    if |p| > 1 { TrailStart(g, p); }
    if n !in g {
    } else if w.states[n] == Ready {
      ReadyIsDone(g, w1, p);
    } else if w.states[n] == Failed {
      FailedIsDone(g, w1, p);
    } else if m == n {
      OwnTurn(g, w, stack, n);
    } else {
      var q := LastLeg(g, p, n);
      var i :| VisitsAt(g, n, i) && g[n].deps[i] == q[0];
      assert g[n].deps[0..] == g[n].deps;
      DepsComplete(g, w1, stack, n, 0, i, q);
      DoneWithDeps(g, w, stack, n, m);
    }
  }

  lemma DoneWithDeps(g: Graph, w: World, stack: seq<string>, n: string, m: string)
    requires Inv(g, w) && n in g && n !in stack && |stack| < MAX_CALL_STACK_DEPTH
    requires w.states[n] == Initial
    requires Done(g, StartDeps(g, w.(calls := w.calls + 1), stack + [n], g[n].deps).world, m)
    ensures Done(g, Start(g, w, stack, n).world, m)
  {
    var w1 := w.(calls := w.calls + 1);
    var o := StartDeps(g, w1, stack + [n], g[n].deps);
    OwnStep(g, w, stack, n);
    if o.ret == 0 {
      DepsChange(g, w1, stack + [n], g[n].deps, n);
      LaunchFrame(g, o.world, n);
      DoneStays(g, o.world, Launch(g, o.world, n).world, m);
    }
  }

  /** A thread whose dependencies can all be brought up gets its own turn. */
  lemma OwnLaunch(g: Graph, w: World, stack: seq<string>, n: string)
    requires Inv(g, w) && Linked(g, stack, n) && HasRoom(g, stack, n)
    requires n in g && n !in stack && |stack| < MAX_CALL_STACK_DEPTH && w.states[n] == Initial
    requires DepsStartable(g, n)
    ensures Start(g, w, stack, n).world.states[n] == if g[n].Healthy() then Ready else Failed
  {
    var w1 := w.(calls := w.calls + 1);
    CallKeeps(g, w, w.calls + 1);
    assert g[n].deps[0..] == g[n].deps;
    DepsSucceed(g, w1, stack, n, 0);
    OwnStep(g, w, stack, n);
    DepsBroughtUp(g, w1, stack, n);
    LaunchKeeps(g, StartDeps(g, w1, stack + [n], g[n].deps).world, n);
  }

  lemma DepsBroughtUp(g: Graph, w: World, stack: seq<string>, n: string)
    requires Inv(g, w) && n in g && StartDeps(g, w, stack + [n], g[n].deps).ret == 0
    ensures var w' := StartDeps(g, w, stack + [n], g[n].deps).world;
            Inv(g, w') && DepsReady(g, w', n) && w'.states[n] == w.states[n]
  {
    DepsKeep(g, w, stack + [n], g[n].deps);
    DepsChange(g, w, stack + [n], g[n].deps, n);
  }

  lemma OwnTurn(g: Graph, w: World, stack: seq<string>, n: string)
    requires Inv(g, w) && Linked(g, stack, n) && HasRoom(g, stack, n)
    requires n in g && n !in stack && |stack| < MAX_CALL_STACK_DEPTH && w.states[n] == Initial
    ensures Done(g, Start(g, w, stack, n).world, n)
  {
    StartableIsClosed(g, n);
    if DepsStartable(g, n) {
      OwnLaunch(g, w, stack, n);
    }
  }

  lemma DependencySucceeds(g: Graph, w: World, stack: seq<string>, n: string, k: nat)
    requires Inv(g, w) && Linked(g, stack, n) && HasRoom(g, stack, n) && n !in stack
    requires n in g && VisitsAt(g, n, k) && Startable(g, g[n].deps[k])
    ensures Start(g, w, stack + [n], g[n].deps[k]).ret == 0
  {
    var d := g[n].deps[k];
    assert Visits(g, n, d);
    LinkedStep(g, stack, n, d);
    StartableOffStack(g, stack, n, d);
    RoomBelow(g, stack, n, d);
    StartableSucceeds(g, w, stack + [n], d);
  }

  /** One turn of the loop over the dependencies. */
  lemma DepsFrom(g: Graph, w: World, stack: seq<string>, n: string, k: nat)
    requires Inv(g, w) && n in g && k < |g[n].deps|
    ensures var o := Start(g, w, stack, g[n].deps[k]);
            && Inv(g, o.world)
            && StartDeps(g, w, stack, g[n].deps[k..])
            == if o.ret != 0 then o else StartDeps(g, o.world, stack, g[n].deps[k + 1..])
  {
    var deps := g[n].deps;
    assert deps[k..][0] == deps[k] && deps[k..][1..] == deps[k + 1..];
    StartKeeps(g, w, stack, deps[k]);
  }

  lemma GoodTurn(g: Graph, w: World, stack: seq<string>, n: string, k: nat)
    requires Inv(g, w) && Linked(g, stack, n) && HasRoom(g, stack, n) && n !in stack
    requires n in g && k < |g[n].deps| && DepsStartable(g, n)
    ensures var w' := Start(g, w, stack + [n], g[n].deps[k]).world;
            && Inv(g, w')
            && StartDeps(g, w, stack + [n], g[n].deps[k..])
            == StartDeps(g, w', stack + [n], g[n].deps[k + 1..])
  {
    DepsFrom(g, w, stack + [n], n, k);
    VisitsAll(g, n, k);
    DependencySucceeds(g, w, stack, n, k);
  }

  lemma {:induction false} DepsSucceed(g: Graph, w: World, stack: seq<string>, n: string, k: nat)
    requires Inv(g, w) && Linked(g, stack, n) && HasRoom(g, stack, n) && n !in stack
    requires n in g && k <= |g[n].deps| && DepsStartable(g, n)
    ensures StartDeps(g, w, stack + [n], g[n].deps[k..]).ret == 0
    decreases |g[n].deps| - k
  {
    if k < |g[n].deps| {
      GoodTurn(g, w, stack, n, k);
      DepsSucceed(g, Start(g, w, stack + [n], g[n].deps[k]).world, stack, n, k + 1);
    }
  }

  lemma {:induction false} DepsComplete(g: Graph, w: World, stack: seq<string>, n: string,
                                        k: nat, i: nat, q: seq<string>)
    requires Inv(g, w) && Linked(g, stack, n) && HasRoom(g, stack, n) && n !in stack
    requires |stack| < MAX_CALL_STACK_DEPTH
    requires n in g && VisitsAt(g, n, i) && k <= i
    requires IsTrail(g, q) && q[0] == g[n].deps[i] && Avoids(q, stack + [n])
    ensures Done(g, StartDeps(g, w, stack + [n], g[n].deps[k..]).world, q[|q| - 1])
    decreases Room(stack + [n]), i - k + 1, 1
  {
    if k == i {
      LastDepCompletes(g, w, stack, n, k, q);
    } else {
      VisitsEarlier(g, n, k, i);
      DepsFrom(g, w, stack + [n], n, k);
      DependencySucceeds(g, w, stack, n, k);
      DepsComplete(g, Start(g, w, stack + [n], g[n].deps[k]).world, stack, n, k + 1, i, q);
    }
  }

  lemma {:induction false} LastDepCompletes(g: Graph, w: World, stack: seq<string>, n: string, k: nat, q: seq<string>)
    requires Inv(g, w) && Linked(g, stack, n) && HasRoom(g, stack, n) && n !in stack
    requires |stack| < MAX_CALL_STACK_DEPTH
    requires n in g && VisitsAt(g, n, k)
    requires IsTrail(g, q) && q[0] == g[n].deps[k] && Avoids(q, stack + [n])
    ensures Done(g, StartDeps(g, w, stack + [n], g[n].deps[k..]).world, q[|q| - 1])
    decreases Room(stack + [n]), 1, 0
  {
    var d := g[n].deps[k];
    var o := Start(g, w, stack + [n], d);
    DepsFrom(g, w, stack + [n], n, k);
    assert Visits(g, n, d);
    LinkedStep(g, stack, n, d);
    RoomBelow(g, stack, n, d);
    StartCompletes(g, w, stack + [n], d, q);
    DoneThroughDeps(g, o.world, stack + [n], g[n].deps[k + 1..], q[|q| - 1]);
  }

  lemma DoneThroughDeps(g: Graph, w: World, stack: seq<string>, deps: seq<string>, m: string)
    requires w.states.Keys == g.Keys && Done(g, w, m)
    ensures Done(g, StartDeps(g, w, stack, deps).world, m)
  {
    DepsFrame(g, w, stack, deps);
    DoneStays(g, w, StartDeps(g, w, stack, deps).world, m);
  }

  lemma VisitsEarlier(g: Graph, n: string, k: nat, i: nat)
    requires n in g && VisitsAt(g, n, i) && k < i
    ensures VisitsAt(g, n, k) && Startable(g, g[n].deps[k])
  {
  }

  // ---- soundness: a start changes nothing that it does not look at ----

  lemma {:induction false} ChangeHasTrail(g: Graph, w: World, stack: seq<string>, n: string, m: string)
    returns (p: seq<string>)
    requires Inv(g, w) && m in g && Start(g, w, stack, n).world.states[m] != w.states[m]
    ensures TrailFromTo(g, p, n, m)
    decreases Room(stack), 0
  {
    if m == n {
      p := [n];
    } else {
      var w1 := w.(calls := w.calls + 1);
      CallKeeps(g, w, w.calls + 1);
      assert g[n].deps[0..] == g[n].deps;
      var q := DepsChangeHasTrail(g, w1, stack + [n], n, 0, m);
      TrailCons(g, n, q);
      p := [n] + q;
    }
  }

  lemma VisitsNext(g: Graph, w: World, stack: seq<string>, n: string, k: nat)
    requires Inv(g, w) && n in g && VisitsAt(g, n, k) && Start(g, w, stack, g[n].deps[k]).ret == 0
    ensures k + 1 < |g[n].deps| ==> VisitsAt(g, n, k + 1)
  {
    StartKeeps(g, w, stack, g[n].deps[k]);
    assert Startable(g, g[n].deps[k]);
  }

  lemma {:induction false} DepsChangeHasTrail(g: Graph, w: World, stack: seq<string>, n: string, k: nat, m: string)
    returns (q: seq<string>)
    requires Inv(g, w) && m in g && n in g && k <= |g[n].deps|
    requires k < |g[n].deps| ==> VisitsAt(g, n, k)
    requires StartDeps(g, w, stack, g[n].deps[k..]).world.states[m] != w.states[m]
    ensures IsTrail(g, q) && Visits(g, n, q[0]) && q[|q| - 1] == m
    decreases Room(stack), |g[n].deps| - k
  {
    var deps := g[n].deps;
    DepsFrom(g, w, stack, n, k);
    var o := Start(g, w, stack, deps[k]);
    assert Visits(g, n, deps[k]);
    if o.world.states[m] != w.states[m] {
      q := ChangeHasTrail(g, w, stack, deps[k], m);
    } else {
      VisitsNext(g, w, stack, n, k);
      q := DepsChangeHasTrail(g, o.world, stack, n, k + 1, m);
    }
  }

  // ---- start-up as a whole ----

  /** The threads that start-up is to bring up: descriptors with auto_start whose
      state is Initial. */
  ghost function Asked(w: World, es: seq<Entry>): set<string>
    requires forall e | e in es :: e.name in w.states
  {
    set e | e in es && e.autoStart && StateOf(w, e) == Initial :: e.name
  }

  ghost predicate LookedAt(g: Graph, asked: set<string>, m: string) {
    exists n, p :: n in asked && TrailFromTo(g, p, n, m)
  }

  /** The state of a thread after start-up. */
  ghost function FinalState(g: Graph, w: World, asked: set<string>, m: string): ThreadState
    requires m in w.states
  {
    if w.states[m] != Initial || !LookedAt(g, asked, m) then w.states[m]
    else if Startable(g, m) then Ready
    else if SelfFailing(g, m) then Failed
    else Initial
  }

  /** No simple trail from a thread asked for has more than 32 names. */
  ghost predicate AllHaveRoom(g: Graph, asked: set<string>) {
    forall n | n in asked :: HasRoom(g, [], n)
  }

  /** It is enough that no dependency chain without repeated names has more. */
  lemma ShortChainsHaveRoom(g: Graph, n: string)
    requires forall p | IsPath(g, p) && p[0] == n && Simple(p) :: |p| <= MAX_CALL_STACK_DEPTH
    ensures HasRoom(g, [], n)
  {
    forall p | IsTrail(g, p) && p[0] == n && Simple(p) ensures |p| <= MAX_CALL_STACK_DEPTH {
      TrailIsPath(g, p);
    }
  }

  lemma {:induction false} StartAllCompletes(g: Graph, w: World, es: seq<Entry>, asked: set<string>,
                                             e: Entry, p: seq<string>)
    requires Inv(g, w) && Known(g, es) && e in es && e.autoStart && AllHaveRoom(g, asked)
    requires e.name in asked && IsTrail(g, p) && p[0] == e.name
    requires e.shadow.Some? ==> e.shadow.value == Initial
    ensures Done(g, StartAll(g, w, [], es).world, p[|p| - 1])
    decreases |es|
  {
    var m := p[|p| - 1];
    var e0 := es[0];
    var started := e0.autoStart && StateOf(w, e0) == Initial;
    var w1 := if started then Start(g, w, [], e0.name).world else w;
    if started { StartKeeps(g, w, [], e0.name); }
    if e0 == e {
      if started {
        StartCompletes(g, w, [], e.name, p);
      } else if w.states[e.name] == Ready {
        ReadyIsDone(g, w, p);
      } else {
        FailedIsDone(g, w, p);
      }
      StartAllKeeps(g, w1, [], es[1..]);
      DoneStays(g, w1, StartAll(g, w1, [], es[1..]).world, m);
    } else {
      StartAllCompletes(g, w1, es[1..], asked, e, p);
    }
  }

  lemma {:induction false} StartAllChangeHasTrail(g: Graph, w: World, es: seq<Entry>, m: string)
    requires Inv(g, w) && Known(g, es) && m in g
    requires StartAll(g, w, [], es).world.states[m] != w.states[m]
    ensures LookedAt(g, Asked(w, es), m)
    decreases |es|
  {
    var e := es[0];
    if e.autoStart && StateOf(w, e) == Initial {
      var w1 := Start(g, w, [], e.name).world;
      if w1.states[m] != w.states[m] {
        var p := ChangeHasTrail(g, w, [], e.name, m);
        assert e.name in Asked(w, es) && TrailFromTo(g, p, e.name, m);
      } else {
        StartKeeps(g, w, [], e.name);
        StartFrame(g, w, [], e.name);
        StartAllChangeHasTrail(g, w1, es[1..], m);
        assert Asked(w1, es[1..]) <= Asked(w, es);
      }
    } else {
      StartAllChangeHasTrail(g, w, es[1..], m);
      assert Asked(w, es[1..]) <= Asked(w, es);
    }
  }

  /** The exact outcome of start-up: the state of every single thread, asked for
      or not, ready, failed or left alone. */
  lemma StartAllOutcome(g: Graph, w: World, es: seq<Entry>, m: string)
    requires Inv(g, w) && Known(g, es) && m in g && AllHaveRoom(g, Asked(w, es))
    ensures StartAll(g, w, [], es).world.states[m] == FinalState(g, w, Asked(w, es), m)
  {
    var final := StartAll(g, w, [], es).world;
    var asked := Asked(w, es);
    StartAllKeeps(g, w, [], es);
    if w.states[m] == Initial && LookedAt(g, asked, m) {
      var n, p :| n in asked && TrailFromTo(g, p, n, m);
      var e :| e in es && e.autoStart && StateOf(w, e) == Initial && e.name == n;
      StartAllCompletes(g, w, es, asked, e, p);
      StartableIsClosed(g, m);
      assert final.states[m] == Failed ==> SelfFailing(g, m);
    } else if final.states[m] != w.states[m] {
      StartAllChangeHasTrail(g, w, es, m);
    }
  }

  /** Hence the order in which the same descriptors are gone through does not
      matter to any thread. */
  lemma OrderNeverMatters(g: Graph, w: World, es1: seq<Entry>, es2: seq<Entry>)
    requires Inv(g, w) && Known(g, es1) && forall e :: e in es1 <==> e in es2
    requires AllHaveRoom(g, Asked(w, es1))
    ensures Known(g, es2)
    ensures StartAll(g, w, [], es1).world.states == StartAll(g, w, [], es2).world.states
  {
    assert Asked(w, es1) == Asked(w, es2);
    forall m | m in g
      ensures StartAll(g, w, [], es1).world.states[m] == StartAll(g, w, [], es2).world.states[m]
    {
      StartAllOutcome(g, w, es1, m);
      StartAllOutcome(g, w, es2, m);
    }
  }
}
