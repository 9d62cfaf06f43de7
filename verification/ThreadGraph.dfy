/** The dependency graph of the thread manager: threads by name, and the least
    set of threads that can ever be brought up. */
module ThreadGraph {

  /** What the manager knows of one thread. The two outcomes that belong to the
      environment are fixed per thread: what init_func returns, and whether the
      ready semaphore (if there is one) is given in time. */
  datatype Thread = Thread(deps: seq<string>, initReturn: int, hasSem: bool, signalArrives: bool) {
    predicate Healthy() {
      initReturn == 0 && (hasSem ==> signalArrives)
    }
  }

  type Graph = map<string, Thread>

  /** `s` contains every healthy registered thread whose dependencies it contains. */
  ghost predicate Closed(g: Graph, s: set<string>) {
    forall n | n in g :: g[n].Healthy() && (forall d | d in g[n].deps :: d in s) ==> n in s
  }

  /** The threads that can be brought up with dependency chains of at most k names. */
  ghost function Level(g: Graph, k: nat): set<string> {
    if k == 0 then {}
    else set n | n in g && g[n].Healthy() && (forall d | d in g[n].deps :: d in Level(g, k - 1))
  }

  ghost predicate Startable(g: Graph, n: string) {
    exists k: nat :: n in Level(g, k)
  }

  lemma {:induction false} LevelStep(g: Graph, k: nat)
    ensures Level(g, k) <= Level(g, k + 1)
  {
    if k > 0 {
      LevelStep(g, k - 1);
    }
  }

  lemma {:induction false} LevelMonotone(g: Graph, j: nat, k: nat)
    requires j <= k
    ensures Level(g, j) <= Level(g, k)
    decreases k - j
  {
    if j < k {
      LevelStep(g, j);
      LevelMonotone(g, j + 1, k);
    }
  }

  /** One level holds all of a finite list of startable names. */
  lemma {:induction false} CommonLevel(g: Graph, names: seq<string>) returns (k: nat)
    requires forall d | d in names :: Startable(g, d)
    ensures forall d | d in names :: d in Level(g, k)
  {
    if names == [] {
      k := 0;
    } else {
      var i := CommonLevel(g, names[1..]);
      assert Startable(g, names[0]);
      var j: nat :| names[0] in Level(g, j);
      k := if i < j then j else i;
      LevelMonotone(g, i, k);
      LevelMonotone(g, j, k);
    }
  }

  /** Startable is closed under the start rule: it is a fixed point. */
  lemma StartableIsClosed(g: Graph, n: string)
    requires n in g
    ensures Startable(g, n) <==> g[n].Healthy() && (forall d | d in g[n].deps :: Startable(g, d))
  {
    if Startable(g, n) {
      var k: nat :| n in Level(g, k);
      assert k > 0 && forall d | d in g[n].deps :: d in Level(g, k - 1);
    }
    if g[n].Healthy() && (forall d | d in g[n].deps :: Startable(g, d)) {
      var k := CommonLevel(g, g[n].deps);
      assert n in Level(g, k + 1);
    }
  }

  lemma {:induction false} LevelInClosed(g: Graph, s: set<string>, k: nat)
    requires Closed(g, s)
    ensures Level(g, k) <= s
  {
    if k > 0 {
      LevelInClosed(g, s, k - 1);
    }
  }

  /** ... and it is the least one: every closed set contains it. */
  lemma StartableIsLeast(g: Graph, s: set<string>, n: string)
    requires Closed(g, s) && Startable(g, n)
    ensures n in s
  {
    var k: nat :| n in Level(g, k);
    LevelInClosed(g, s, k);
  }

  /** Registering another thread under an unused name keeps what was startable. */
  lemma {:induction false} LevelGrows(g: Graph, g': Graph, k: nat)
    requires forall n | n in g :: n in g' && g'[n] == g[n]
    ensures Level(g, k) <= Level(g', k)
  {
    if k > 0 {
      LevelGrows(g, g', k - 1);
    }
  }

  // ---- dependency paths ----

  ghost predicate IsPath(g: Graph, p: seq<string>) {
    && |p| > 0
    && forall i | 0 <= i < |p| - 1 :: p[i] in g && p[i + 1] in g[p[i]].deps
  }

  ghost predicate Reaches(g: Graph, n: string, m: string) {
    exists p :: IsPath(g, p) && p[0] == n && p[|p| - 1] == m
  }

  /** The registered names reachable from n, n included. */
  ghost function Below(g: Graph, n: string): set<string> {
    set m | m in g && Reaches(g, n, m)
  }

  lemma ReachesSelf(g: Graph, n: string)
    ensures Reaches(g, n, n)
  {
    assert IsPath(g, [n]);
  }

  lemma ReachesThrough(g: Graph, n: string, d: string, m: string)
    requires n in g && d in g[n].deps && Reaches(g, d, m)
    ensures Reaches(g, n, m)
  {
    var p :| IsPath(g, p) && p[0] == d && p[|p| - 1] == m;
    var q := [n] + p;
    assert IsPath(g, q);
    assert q[0] == n && q[|q| - 1] == m;
  }

  /** A set closed under dependencies contains all that its members reach. */
  lemma {:induction false} PathStays(g: Graph, s: set<string>, p: seq<string>)
    requires IsPath(g, p) && p[0] in s
    requires forall n | n in g && n in s :: forall d | d in g[n].deps :: d in s
    ensures p[|p| - 1] in s
  {
    if |p| > 1 {
      assert p[1..][0] == p[1];
      PathStays(g, s, p[1..]);
    }
  }

  /** Along a path each step goes down a level. */
  lemma {:induction false} PathDescends(g: Graph, p: seq<string>, k: nat)
    requires IsPath(g, p) && p[0] in Level(g, k)
    ensures |p| <= k && p[|p| - 1] in Level(g, k - (|p| - 1))
  {
    if |p| > 1 {
      assert p[1] in g[p[0]].deps;
      assert p[1..][0] == p[1];
      PathDescends(g, p[1..], k - 1);
    }
  }

  lemma {:induction false} LongPath(g: Graph, n: string, k: nat) returns (p: seq<string>)
    requires Startable(g, n) && n !in Level(g, k)
    ensures IsPath(g, p) && p[0] == n && |p| == k + 1
    decreases k
  {
    if k == 0 {
      p := [n];
    } else {
      var j: nat :| n in Level(g, j);
      assert j > 0;
      var d :| d in g[n].deps && d !in Level(g, k - 1);
      assert d in Level(g, j - 1);
      var q := LongPath(g, d, k - 1);
      p := [n] + q;
    }
  }

  /** A level is a bound on chains: a startable thread lies in level k exactly
      when no dependency chain from it has more than k names. */
  lemma LevelIsChainBound(g: Graph, n: string, k: nat)
    requires Startable(g, n)
    ensures n in Level(g, k) <==> forall p | IsPath(g, p) && p[0] == n :: |p| <= k
  {
    if n in Level(g, k) {
      forall p | IsPath(g, p) && p[0] == n ensures |p| <= k {
        PathDescends(g, p, k);
      }
    } else {
      var p := LongPath(g, n, k);
      assert IsPath(g, p) && p[0] == n && |p| > k;
    }
  }

  lemma {:induction false} CycleNotInLevel(g: Graph, p: seq<string>, k: nat)
    requires IsPath(g, p) && |p| > 1 && p[0] == p[|p| - 1]
    ensures p[0] !in Level(g, k)
  {
    if p[0] in Level(g, k) {
      PathDescends(g, p, k);
      CycleNotInLevel(g, p, k - (|p| - 1));
    }
  }
}
