/** The recursive delete: a directory is scanned slot by slot; each subdirectory
    is deleted with the handle closed, and then the scan starts again. */
module RecursiveDelete {
  import opened Common
  import opened FileTree
  import opened Volume

  /** The size of the path buffer. */
  const BUFFER: nat := 1024

  /** What snprintf leaves in the buffer. */
  function Truncate(s: string): string {
    if |s| < BUFFER then s else s[..BUFFER - 1]
  }

  function FullPath(path: string, name: string): string {
    Truncate(path + "/" + name)
  }

  /** The characters that a relative path takes, each name behind a '/'. */
  function TextLength(p: Path): nat {
    if p == [] then 0 else 1 + |p[0]| + TextLength(p[1..])
  }

  /** The length of the text of a place at or below `path`. */
  ghost function Length(path: string, q: Path): nat
    requires Split(path) <= q
  {
    |path| + TextLength(q[|Split(path)|..])
  }

  /** Every path below `path` fits in the buffer. */
  ghost predicate Fits(nodes: Nodes, path: string) {
    forall q | q in nodes && Split(path) < q :: Length(path, q) < BUFFER
  }

  /** From `a` to `b` nothing below `path` has gone whose text does not fit in the
      buffer. */
  ghost predicate LongStay(a: Nodes, b: Nodes, path: string) {
    forall q | q in a && Split(path) < q && Length(path, q) >= BUFFER :: q in b
  }

  /** Where a scan of `path` does its work: in the directory itself, or, when its
      own path does not fit in the buffer, where the beginning of it leads. */
  function Root(path: string): Path {
    Split(Truncate(path))
  }

  // ---- recursion without end ----

  ghost predicate HasSubdirectory(nodes: Nodes, q: Path) {
    exists n :: IsSubdirectory(nodes, q, n)
  }

  ghost predicate IsSubdirectory(nodes: Nodes, q: Path, n: string) {
    IsDirectory(nodes, q) && IsDirectory(nodes, q + [n])
  }

  /** The text leaves no room for a child's name, so that for a subdirectory the
      recursion begins at Root, and there it finds a subdirectory again. */
  ghost predicate Stuck(nodes: Nodes, path: string) {
    HasSubdirectory(nodes, Split(path)) && RootIsParent(nodes, path)
  }

  ghost predicate RootIsParent(nodes: Nodes, path: string) {
    |path| >= BUFFER - 2 && HasSubdirectory(nodes, Root(path))
  }

  /** No directory that the recursion may come to is stuck. */
  ghost predicate NoLoop(nodes: Nodes, path: string) {
    if |path| >= BUFFER - 2 then !Stuck(nodes, path)
    else forall q | Split(path) <= q && HasSubdirectory(nodes, q) ::
           Length(path, q) < BUFFER - 2 || Length(path, q) >= BUFFER
  }

  /** How many calls, one in the other, are enough then. */
  ghost function Need(nodes: Nodes, path: string): nat {
    if |path| < BUFFER - 2 then Size(nodes, Split(path)) + 2
    else if HasSubdirectory(nodes, Split(path)) then 2 else 1
  }

  /** The buffer holds the child's path exactly when there is room for it. Without
      room, a path of 1023 characters is its own child. */
  lemma FullPathIff(path: string, name: string)
    requires IsName(name)
    ensures FullPath(path, name) == path + "/" + name <==> |path| + 1 + |name| < BUFFER
    ensures |path| == BUFFER - 1 ==> FullPath(path, name) == path
  {
    var s := path + "/" + name;
    assert |s| == |path| + 1 + |name|;
    if |path| == BUFFER - 1 {
      assert s[..BUFFER - 1] == path;
    }
  }

  /** What the buffer leaves of a child's name. */
  function Cut(path: string, name: string): string
    requires |path| < BUFFER - 2
  {
    if |path| + 1 + |name| < BUFFER then name else name[..BUFFER - 2 - |path|]
  }

  /** The buffer holds the path of a child, though maybe not of the one meant, or,
      when two characters or less are left, leads to Root. */
  lemma ChildText(path: string, name: string)
    requires IsName(name)
    ensures |FullPath(path, name)| < BUFFER
    ensures |path| >= BUFFER - 2 ==>
              |FullPath(path, name)| == BUFFER - 1 && Split(FullPath(path, name)) == Root(path)
    ensures |path| < BUFFER ==> Root(path) == Split(path)
    ensures |path| < BUFFER - 2 ==>
              var m := Cut(path, name);
              && IsName(m) && m <= name
              && FullPath(path, name) == path + "/" + m
              && Split(FullPath(path, name)) == Split(path) + [m]
  {
    var s := path + "/" + name;
    if |path| < BUFFER - 2 {
      var m := Cut(path, name);
      assert FullPath(path, name) == path + "/" + m;
      SplitJoin(path, m);
    } else if |path| == BUFFER - 2 {
      assert FullPath(path, name) == path + "/";
      SlashIsNothing(path);
    } else {
      assert s[..BUFFER - 1] == path[..BUFFER - 1];
      assert |path| == BUFFER - 1 ==> path[..BUFFER - 1] == path;
    }
  }

  lemma SlashIsNothing(path: string)
    ensures Split(path + "/") == Split(path)
  {
    var t := path + "/";
    LastSlashUnique(t, |t|);
    assert t[..|t| - 1] == path;
  }

  /** The directory is its own child exactly when its text has 1022 or 1023
      characters. */
  lemma SelfChildIff(path: string, name: string)
    requires |path| < BUFFER && IsName(name)
    ensures Split(FullPath(path, name)) == Split(path) <==> |path| >= BUFFER - 2
  {
    ChildText(path, name);
  }

  /** A path that is too long itself has one child, whatever the name: its own
      beginning. */
  lemma LongPathForgetsName(path: string, name: string)
    requires |path| >= BUFFER - 1
    ensures FullPath(path, name) == path[..BUFFER - 1]
  {
    assert (path + "/" + name)[..BUFFER - 1] == path[..BUFFER - 1];
  }

  lemma RootNotBelow(path: string)
    ensures !(Split(path) < Root(path))
    ensures |path| < BUFFER ==> Root(path) == Split(path)
  {
    if |path| >= BUFFER {
      PrefixHasNoMoreNames(path, BUFFER - 1);
    }
  }

  lemma SelfLength(path: string)
    ensures Length(path, Split(path)) == |path|
  {
  }

  /** Below a child, text lengths from the child and from the directory agree. */
  lemma SameLength(path: string, m: string, q: Path)
    requires IsName(m) && Split(path) + [m] <= q
    ensures Split(path + "/" + m) == Split(path) + [m] && Split(path) <= q
    ensures Length(path + "/" + m, q) == Length(path, q)
  {
    SplitJoin(path, m);
    LengthBelow(Split(path), m, q);
  }

  lemma NoLoopBelow(nodes: Nodes, path: string, m: string)
    requires |path| < BUFFER - 2 && NoLoop(nodes, path) && IsName(m) && |path + "/" + m| < BUFFER
    ensures NoLoop(nodes, path + "/" + m)
  {
    var t := path + "/" + m;
    SplitJoin(path, m);
    forall q | Split(t) <= q && HasSubdirectory(nodes, q)
      ensures Length(t, q) < BUFFER - 2 || Length(t, q) >= BUFFER
    {
      SameLength(path, m, q);
    }
    assert Length(t, Split(t)) == |t|;
  }

  lemma NoLoopShrinks(a: Nodes, b: Nodes, path: string)
    requires NoLoop(a, path) && Shrinks(a, b)
    ensures NoLoop(b, path) && Need(b, path) <= Need(a, path)
  {
    SizeShrinks(a, b, Split(path));
    forall q | HasSubdirectory(b, q) ensures HasSubdirectory(a, q) {
      SubdirectoryShrinks(a, b, q);
    }
  }

  lemma SubdirectoryShrinks(a: Nodes, b: Nodes, q: Path)
    requires Shrinks(a, b)
    ensures HasSubdirectory(b, q) ==> HasSubdirectory(a, q)
  {
    if n :| IsSubdirectory(b, q, n) {
      assert NodeShrinks(a[q], b[q]) && NodeShrinks(a[q + [n]], b[q + [n]]);
      assert IsSubdirectory(a, q, n);
    }
  }

  lemma LongStayBelow(a: Nodes, b: Nodes, path: string, m: string)
    requires IsName(m) && Clears(a, b, Split(path) + [m]) && LongStay(a, b, path + "/" + m)
    requires |path + "/" + m| < BUFFER
    ensures LongStay(a, b, path)
  {
    var d := Split(path) + [m];
    SplitJoin(path, m);
    forall q | q in a && Split(path) < q && Length(path, q) >= BUFFER ensures q in b {
      if d <= q {
        SameLength(path, m, q);
        SelfLength(path + "/" + m);
      }
    }
  }

  /** The deletion of one node has nothing to do with what is below it. */
  lemma LongStayUnlink(a: Nodes, path: string)
    requires WellFormed(a) && Split(path) != [] && IsLeaf(a, Split(path))
    ensures Parent(Split(path)) in a && a[Parent(Split(path))].Dir?
    ensures LongStay(a, Remove(a, Split(path)), path)
  {
    RemoveKeepsWellFormed(a, Split(path));
    forall q | q in a && Split(path) <= q ensures q == Split(path) {
      NothingBelow(a, Split(path), q);
    }
  }

  lemma LongStayTwice(a: Nodes, b: Nodes, c: Nodes, path: string)
    requires LongStay(a, b, path) && LongStay(b, c, path)
    ensures LongStay(a, c, path)
  {
  }

  lemma NotEmpty(nodes: Nodes, p: Path, q: Path)
    requires q in nodes && p <= q
    ensures Subtree(nodes, p) != {}
  {
    assert q in Subtree(nodes, p);
  }

  /** When the subtree is gone, everything in it did fit. */
  lemma GoneDidFit(a: Nodes, b: Nodes, path: string)
    requires LongStay(a, b, path) && Subtree(b, Split(path)) == {}
    ensures Fits(a, path)
  {
    forall q | q in a && Split(path) < q ensures Length(path, q) < BUFFER {
      if Length(path, q) >= BUFFER {
        NotEmpty(b, Split(path), q);
      }
    }
  }

  /** Below a text of 1023 characters nothing fits. */
  lemma NothingFitsBelow(path: string, q: Path)
    requires |path| == BUFFER - 1 && Split(path) < q
    ensures Length(path, q) >= BUFFER
  {
    assert q[|Split(path)|..] != [];
  }

  lemma FitsChild(nodes: Nodes, path: string, name: string)
    requires Fits(nodes, path) && IsName(name) && Split(path) + [name] in nodes
    ensures |path| < BUFFER - 2 && Cut(path, name) == name
    ensures Fits(nodes, path + "/" + name)
  {
    var d := Split(path) + [name];
    SplitJoin(path, name);
    LengthBelow(Split(path), name, d);
    assert Split(path) < d && Length(path, d) < BUFFER;
    forall q | q in nodes && d < q ensures Length(path + "/" + name, q) < BUFFER {
      SameLength(path, name, q);
    }
  }

  lemma LengthBelow(p: Path, name: string, q: Path)
    requires p + [name] <= q
    ensures p <= q && TextLength(q[|p|..]) == 1 + |name| + TextLength(q[|p| + 1..])
  {
    var d := p + [name];
    assert p == d[..|p|] == q[..|p|] && q[|p|] == d[|p|] == name;
    assert q[|p|..][0] == name && q[|p|..][1..] == q[|p| + 1..];
  }

  lemma FitsShrinks(a: Nodes, b: Nodes, path: string)
    requires Fits(a, path) && Shrinks(a, b)
    ensures Fits(b, path)
  {
  }

  ghost predicate IsDirectory(nodes: Nodes, p: Path) {
    p in nodes && nodes[p].Dir?
  }

  /** The number of nodes at and below `p`. */
  ghost function Size(nodes: Nodes, p: Path): nat {
    |Subtree(nodes, p)|
  }

  lemma SmallerSet<T>(a: set<T>, b: set<T>)
    requires a <= b
    ensures |a| <= |b| && (a != b ==> |a| < |b|)
  {
    assert b == a + (b - a);
  }

  lemma SizeShrinks(a: Nodes, b: Nodes, p: Path)
    requires Shrinks(a, b)
    ensures Size(b, p) <= Size(a, p)
  {
    SmallerSet(Subtree(b, p), Subtree(a, p));
  }

  lemma SizeOfChild(nodes: Nodes, p: Path, n: string)
    requires p in nodes
    ensures Size(nodes, p + [n]) < Size(nodes, p)
  {
    var d := p + [n];
    forall q | q in nodes && d <= q ensures p <= q { assert p == d[..|p|] == q[..|p|]; }
    assert p in Subtree(nodes, p) && p !in Subtree(nodes, d);
    SmallerSet(Subtree(nodes, d), Subtree(nodes, p));
  }

  /** From `a` to `b` only nodes at or below `p` have been deleted. */
  ghost predicate Clears(a: Nodes, b: Nodes, p: Path) {
    WellFormed(b) && Shrinks(a, b) && OnlyBelow(a, b, p)
  }

  lemma ClearsNothing(a: Nodes, p: Path)
    requires WellFormed(a)
    ensures Clears(a, a, p)
  {
  }

  lemma ClearsTwice(a: Nodes, b: Nodes, c: Nodes, p: Path)
    requires Clears(a, b, p) && Clears(b, c, p)
    ensures Clears(a, c, p)
  {
    ShrinksTransitive(a, b, c);
  }

  /** A step below a child of `p`, seen from `p`. */
  lemma ChildStep(a: Nodes, b: Nodes, p: Path, n: string)
    requires Clears(a, b, p + [n]) && IsDirectory(a, p)
    ensures Clears(a, b, p) && IsDirectory(b, p)
    ensures |b[p].slots| == |a[p].slots| && Size(b, p) <= Size(a, p)
  {
    var d := p + [n];
    assert Parent(d) == p && !(d <= p) && Last(d) == n;
    assert p in b && NodeShrinks(a[p], b[p]);
    SizeShrinks(a, b, p);
    forall q | !(p <= q) ensures (q in b <==> q in a) && (q in b ==> b[q] == a[q]) {
      assert !(d <= q) && q != Parent(d);
    }
  }

  lemma ChildGone(a: Nodes, b: Nodes, p: Path, n: string)
    requires Clears(a, b, p + [n]) && IsDirectory(a, p)
    requires p + [n] in a && Subtree(b, p + [n]) == {}
    ensures IsDirectory(b, p) && b[p].slots == Punch(a[p].slots, n) && Size(b, p) < Size(a, p)
  {
    var d := p + [n];
    assert Parent(d) == p && !(d <= p) && Last(d) == n;
    assert d !in b by { assert d !in Subtree(b, d); }
    assert d in Subtree(a, p) && d !in Subtree(b, p);
    SmallerSet(Subtree(b, p), Subtree(a, p));
  }

  lemma UnlinkClears(a: Nodes, p: Path)
    requires WellFormed(a) && p != [] && IsLeaf(a, p)
    ensures Parent(p) in a && a[Parent(p)].Dir?
    ensures Clears(a, Remove(a, p), p) && Subtree(Remove(a, p), p) == {}
  {
    RemoveKeepsWellFormed(a, p);
    RemoveOnlyBelow(a, p);
  }

  /** Deletions by a scan of `path`. */
  ghost predicate Scans(a: Nodes, b: Nodes, path: string) {
    Clears(a, b, Root(path)) && LongStay(a, b, path) && LongStay(a, b, Truncate(path))
  }

  lemma ScansNothing(a: Nodes, path: string)
    requires WellFormed(a)
    ensures Scans(a, a, path)
  {
  }

  lemma ScansTwice(a: Nodes, b: Nodes, c: Nodes, path: string)
    requires Scans(a, b, path) && Scans(b, c, path)
    ensures Scans(a, c, path)
  {
    ClearsTwice(a, b, c, Root(path));
  }

  /** A step at a child of `path`, with `m` for its name in the buffer. */
  lemma ScansChild(a: Nodes, b: Nodes, path: string, m: string)
    requires |path| < BUFFER - 2 && IsName(m) && |path + "/" + m| < BUFFER && IsDirectory(a, Split(path))
    requires Clears(a, b, Split(path) + [m]) && LongStay(a, b, path + "/" + m)
    ensures Scans(a, b, path) && IsDirectory(b, Split(path))
    ensures |b[Split(path)].slots| == |a[Split(path)].slots|
  {
    ChildStep(a, b, Split(path), m);
    LongStayBelow(a, b, path, m);
  }

  /** A step at Root, when the buffer has no room for a name: `n` and the directory
      it is in stay. */
  lemma ScansRoot(a: Nodes, b: Nodes, path: string, t: string, n: string)
    requires |path| >= BUFFER - 2 && |t| == BUFFER - 1 && Split(t) == Root(path)
    requires Clears(a, b, Root(path)) && LongStay(a, b, t)
    requires IsDirectory(a, Split(path)) && Split(path) + [n] in a
    ensures Scans(a, b, path) && IsDirectory(b, Split(path))
    ensures |b[Split(path)].slots| == |a[Split(path)].slots|
  {
    var p, d := Split(path), Split(path) + [n];
    RootNotBelow(path);
    forall q | q in a && q != Root(path) ensures q in b {
      OnlyRootGoes(a, b, t, q);
    }
    assert p < d && d != Root(path);
    assert Parent(d) == p && ParentLists(b, d);
    assert NodeShrinks(a[p], b[p]);
  }

  lemma OnlyRootGoes(a: Nodes, b: Nodes, t: string, q: Path)
    requires |t| == BUFFER - 1 && Clears(a, b, Split(t)) && LongStay(a, b, t)
    requires q in a && q != Split(t)
    ensures q in b
  {
    if Split(t) <= q {
      NothingFitsBelow(t, q);
    }
  }

  lemma FewerNodes(a: Nodes, b: Nodes)
    requires Shrinks(a, b)
    ensures |b| <= |a| && (a.Keys != b.Keys ==> |b| < |a|)
  {
    assert b.Keys <= a.Keys;
    SmallerSet(b.Keys, a.Keys);
  }

  lemma GoneIsFewer(a: Nodes, b: Nodes, p: Path)
    requires Shrinks(a, b) && p in a && Subtree(b, p) == {}
    ensures |b| < |a|
  {
    assert p !in b by { if p in b { NotEmpty(b, p, p); } }
    FewerNodes(a, b);
  }

  /** What is in use among the first `k` slots is only "." and "..". */
  ghost predicate Scanned(slots: seq<Slot>, k: nat) {
    k <= |slots| && forall i | 0 <= i < k :: slots[i].Entry? ==> IsDot(slots[i].name)
  }

  lemma ScannedMore(slots: seq<Slot>, k: nat, n: string)
    requires Scanned(slots, k)
    requires NextEntry(slots, k) < |slots| && slots[NextEntry(slots, k)].name == n
    ensures Scanned(Punch(slots, n), NextEntry(slots, k) + 1)
    ensures IsDot(n) ==> Scanned(slots, NextEntry(slots, k) + 1)
  {
  }

  lemma ScannedAll(slots: seq<Slot>, k: nat)
    requires Scanned(slots, k) && NextEntry(slots, k) == |slots|
    ensures NoChild(slots)
  {
    forall s | s in slots ensures s.Hole? || IsDot(s.name) {
      var i :| 0 <= i < |slots| && slots[i] == s;
    }
  }

  /** What is left in use among the first `k` slots has been handed to unlink. */
  ghost predicate Attempted(slots: seq<Slot>, k: nat, path: string, calls: seq<string>) {
    k <= |slots| && forall i | 0 <= i < k && slots[i].Entry? && !IsDot(slots[i].name) ::
      FullPath(path, slots[i].name) in calls
  }

  /** Attempts last, while slots become holes and further calls are made. */
  lemma AttemptedLater(a: seq<Slot>, b: seq<Slot>, k: nat, path: string, calls: seq<string>, more: seq<string>)
    requires Attempted(a, k, path, calls) && calls <= more && |a| == |b|
    requires forall i | 0 <= i < |a| :: b[i] == a[i] || b[i] == Hole
    ensures Attempted(b, k, path, more)
  {
    assert forall c | c in calls :: c in more;
  }

  ghost predicate Tried(nodes: Nodes, path: string, k: nat, calls: seq<string>) {
    IsDirectory(nodes, Split(path)) && Attempted(nodes[Split(path)].slots, k, path, calls)
  }

  lemma TriedLater(a: Nodes, b: Nodes, path: string, k: nat, calls: seq<string>, more: seq<string>)
    requires Tried(a, path, k, calls) && calls <= more && Shrinks(a, b) && IsDirectory(b, Split(path))
    ensures Tried(b, path, k, more)
  {
    assert NodeShrinks(a[Split(path)], b[Split(path)]);
    AttemptedLater(a[Split(path)].slots, b[Split(path)].slots, k, path, calls, more);
  }

  /** A read from `pos` on has given this name, and goes on at `next`. */
  ghost predicate ReadAt(slots: seq<Slot>, pos: nat, name: string, next: nat) {
    && pos <= |slots| && NextEntry(slots, pos) < |slots| && slots[NextEntry(slots, pos)].name == name
    && next == NextEntry(slots, pos) + 1
  }

  /** A file entry has been handed to unlink; the scan goes on behind it. */
  lemma TriedFile(a: Nodes, b: Nodes, path: string, k: nat, calls: seq<string>, more: seq<string>)
    requires Tried(a, path, k, calls) && Shrinks(a, b) && IsDirectory(b, Split(path))
    requires var slots := a[Split(path)].slots;
             var i := NextEntry(slots, k);
             i < |slots| && more == calls + [FullPath(path, slots[i].name)]
    ensures Tried(b, path, NextEntry(a[Split(path)].slots, k) + 1, more)
  {
    var slots := a[Split(path)].slots;
    TriedLater(a, a, path, k, calls, more);
    assert more[|calls|] == FullPath(path, slots[NextEntry(slots, k)].name);
    AttemptedNext(slots, k, path, more);
    TriedLater(a, b, path, NextEntry(slots, k) + 1, more, more);
  }

  lemma AttemptedNext(slots: seq<Slot>, k: nat, path: string, calls: seq<string>)
    requires Attempted(slots, k, path, calls)
    ensures var i := NextEntry(slots, k);
            if i == |slots| then Attempted(slots, |slots|, path, calls)
            else IsDot(slots[i].name) || FullPath(path, slots[i].name) in calls ==>
                   Attempted(slots, i + 1, path, calls)
  {
  }

  // ---- the recursion that does not end ----

  ghost predicate IsSubEntry(nodes: Nodes, p: Path, s: Slot) {
    s.Entry? && !IsDot(s.name) && IsDirectory(nodes, p + [s.name])
  }

  /** Stuck, with a subdirectory that the scan has not come to yet. */
  ghost predicate StuckAt(nodes: Nodes, path: string, pos: nat) {
    && RootIsParent(nodes, path) && IsDirectory(nodes, Split(path))
    && exists i :: pos <= i < |nodes[Split(path)].slots| &&
         IsSubEntry(nodes, Split(path), nodes[Split(path)].slots[i])
  }

  lemma StuckFromStart(nodes: Nodes, path: string)
    requires WellFormed(nodes) && Stuck(nodes, path)
    ensures StuckAt(nodes, path, 0)
  {
    var n :| IsSubdirectory(nodes, Split(path), n);
    assert ParentLists(nodes, Split(path) + [n]);
    var i :| 0 <= i < |nodes[Split(path)].slots| && nodes[Split(path)].slots[i] == Entry(n);
    assert IsSubEntry(nodes, Split(path), nodes[Split(path)].slots[i]);
  }

  /** The scan always finds an entry, and it is a subdirectory or there is still one
      behind it. */
  lemma StuckNext(nodes: Nodes, path: string, pos: nat)
    requires StuckAt(nodes, path, pos) && pos <= |nodes[Split(path)].slots|
    ensures var slots := nodes[Split(path)].slots;
            var i := NextEntry(slots, pos);
            i < |slots| && (IsSubEntry(nodes, Split(path), slots[i]) || StuckAt(nodes, path, i + 1))
  {
    var slots := nodes[Split(path)].slots;
    var k :| pos <= k < |slots| && IsSubEntry(nodes, Split(path), slots[k]);
    assert slots[k].Entry?;
  }

  /** Nothing can be unlinked by way of the buffer, and the recursive call is stuck
      again. */
  lemma StuckAgain(nodes: Nodes, path: string, t: string)
    requires RootIsParent(nodes, path) && WellFormed(nodes)
    requires |t| == BUFFER - 1 && Split(t) == Root(path)
    ensures UnlinkResult(nodes, Split(t)) != 0 && Stuck(nodes, t)
  {
    var n :| IsSubdirectory(nodes, Root(path), n);
    if IsLeaf(nodes, Root(path)) {
      NothingBelow(nodes, Root(path), Root(path) + [n]);
    }
  }

  // ---- the procedure ----

  /** What a call of FsRmRf may delete: what is at or below `path`; and, when `path`
      does not fit in the buffer, before that the one node that its beginning
      leads to. Nothing below `path` goes whose text does not fit. */
  ghost predicate Deletes(a: Nodes, b: Nodes, path: string) {
    && WellFormed(b) && LongStay(a, b, path)
    && if |path| < BUFFER then Clears(a, b, Split(path))
       else exists m :: Scans(a, m, path) && Clears(m, b, Split(path))
  }

  lemma ScanThenUnlink(a: Nodes, m: Nodes, b: Nodes, path: string)
    requires Scans(a, m, path) && Clears(m, b, Split(path)) && LongStay(m, b, path)
    ensures Deletes(a, b, path)
  {
    LongStayTwice(a, m, b, path);
    if |path| < BUFFER {
      RootNotBelow(path);
      ClearsTwice(a, m, b, Split(path));
    }
  }

  /** Deletes the directory `path` and all that is in it, if the stack has room for
      `depth` calls of it, one in the other; `ended` says whether it had.

      No return leaves a directory handle open, and one free handle is enough for
      any depth. What may go is said by Deletes, for every path. The return code 0
      means that the whole subtree is gone; on a device that does not fail it is
      returned exactly for an existing directory other than the root in which every
      path fits. Where no directory is stuck, the depth needed is at most the
      number of nodes plus two; where this one is, no depth is enough. */
  method FsRmRf(fs: Mounted, path: string, depth: nat, ghost p: Path) returns (ended: bool, ret: int)
    requires WellFormed(fs.nodes) && p == Split(path)
    modifies fs`nodes, fs`tick, fs`open, fs`trace
    ensures Deletes(old(fs.nodes), fs.nodes, path) && Shrinks(old(fs.nodes), fs.nodes)
    ensures fs.open == old(fs.open) && old(fs.trace).unlinks <= fs.trace.unlinks
    ensures ended ==> ret == fs.trace.last
    ensures ended && fs.faults(old(fs.tick)) == 0 && old(fs.open) < fs.handles &&
            IsDirectory(old(fs.nodes), p) && NoChild(old(fs.nodes)[p].slots) ==>
              fs.trace.unlinks == old(fs.trace).unlinks + [path]
    ensures ended && fs.faults(old(fs.tick)) == 0 && old(fs.open) < fs.handles &&
            IsDirectory(old(fs.nodes), p) && !HasSubdirectory(old(fs.nodes), p) ==>
              |fs.trace.unlinks| > |old(fs.trace).unlinks| && fs.trace.unlinks[|fs.trace.unlinks| - 1] == path
    ensures ended && ret == 0 ==>
              Subtree(fs.nodes, p) == {} && IsDirectory(old(fs.nodes), p) && Fits(old(fs.nodes), path)
    ensures NoLoop(old(fs.nodes), path) && Need(old(fs.nodes), path) <= depth ==> ended
    ensures fs.Quiet() && old(fs.open) < fs.handles && ended ==>
              (ret == 0 <==> p != [] && IsDirectory(old(fs.nodes), p) && Fits(old(fs.nodes), path))
    ensures fs.Quiet() && old(fs.open) < fs.handles && Stuck(old(fs.nodes), path) ==> !ended
    decreases depth, 4
  {
    ghost var before := fs.nodes;
    ended, ret := depth > 0, 0;
    ScansNothing(before, path);
    ClearsNothing(before, p);
    ScanThenUnlink(before, before, before, path);
    if !ended {
      return;
    }
    var dir;
    ret, dir := fs.Opendir(path);
    if ret != 0 {
      return;
    }
    var next;
    next, ret := ScanAll(fs, path, depth, dir, p);
    assert old(fs.trace).unlinks <= fs.trace.unlinks;
    ended := !next.Endless?;
    if next.Done? {
      fs.Closedir();
      ret := UnlinkAt(fs, path, p, before);
    } else {
      ClearsNothing(fs.nodes, p);
      ScanThenUnlink(before, fs.nodes, fs.nodes, path);
    }
  }

  /** The loop over the entries. */
  method ScanAll(fs: Mounted, path: string, depth: nat, first: Handle, ghost p: Path) returns (next: Scan, ret: int)
    requires WellFormed(fs.nodes) && p == Split(path) && fs.open > 0 && depth > 0
    requires IsDirectory(fs.nodes, p) && first == Handle(p, 0)
    modifies fs`nodes, fs`tick, fs`open, fs`trace
    ensures !next.More? && Scans(old(fs.nodes), fs.nodes, path) && IsDirectory(fs.nodes, p)
    ensures fs.open == OpenAfter(next, old(fs.open)) && old(fs.trace).unlinks <= fs.trace.unlinks
    ensures next.Stopped? ==> ret != 0 && ret == fs.trace.last
    ensures next.Done? && ret == 0 ==>
              Tried(fs.nodes, path, |fs.nodes[p].slots|, fs.trace.unlinks[|old(fs.trace).unlinks|..])
    ensures NoChild(old(fs.nodes)[p].slots) ==> next.Done? && fs.trace.unlinks == old(fs.trace).unlinks
    ensures !HasSubdirectory(old(fs.nodes), p) ==> next.Done?
    ensures NoLoop(old(fs.nodes), path) && Need(old(fs.nodes), path) <= depth ==> !next.Endless?
    ensures fs.Quiet() && old(fs.open) <= fs.handles && !next.Endless? && Fits(old(fs.nodes), path) ==>
              next.Done? && NoChild(fs.nodes[p].slots)
    ensures fs.Quiet() && old(fs.open) <= fs.handles && Stuck(old(fs.nodes), path) ==> next.Endless?
    decreases depth, 3
  {
    ghost var before := fs.nodes;
    next, ret := More, 0;
    var dir := first;
    ScansNothing(before, path);
    ghost var openBefore, base := fs.open, |fs.trace.unlinks|;
    ghost var plain := !HasSubdirectory(before, p);
    ghost var ends := NoLoop(before, path) && Need(before, path) <= depth;
    ghost var works := fs.Quiet() && fs.open <= fs.handles && Fits(before, path);
    ghost var stuck := fs.Quiet() && fs.open <= fs.handles && Stuck(before, path);
    if stuck { StuckFromStart(before, path); }
    while next.More?
      invariant Scans(before, fs.nodes, path) && IsDirectory(fs.nodes, p)
      invariant fs.open == OpenAfter(next, openBefore)
      invariant next.Stopped? ==> ret != 0 && ret == fs.trace.last
      invariant old(fs.trace).unlinks <= fs.trace.unlinks
      invariant TriedSoFar(next, ret, fs.nodes, path, dir.pos, fs.trace.unlinks[base..])
      invariant NoChild(before[p].slots) ==>
                  (next.More? || next.Done?) && fs.nodes == before && |fs.trace.unlinks| == base
      invariant plain ==> next.More? || next.Done?
      invariant dir.path == p && dir.pos <= |fs.nodes[p].slots|
      invariant ends ==> !next.Endless?
      invariant works ==> ScanState(next, fs.nodes[p].slots, dir.pos)
      invariant stuck ==> next.Endless? || (next.More? && StuckAt(fs.nodes, path, dir.pos))
      decreases |fs.nodes|, |fs.nodes[p].slots| - dir.pos, next.More?
    {
      ghost var mid := fs.nodes;
      if plain { SubdirectoryShrinks(before, mid, p); }
      if ends { NoLoopShrinks(before, mid, path); }
      if works { FitsShrinks(before, mid, path); }
      next, ret, dir := ScanStep(fs, path, depth, dir, p, base);
      ScansTwice(before, mid, fs.nodes, path);
    }
  }

  /** A scan that goes on has tried what is behind it; one that has come to the end,
      everything. */
  ghost predicate TriedSoFar(next: Scan, ret: int, nodes: Nodes, path: string, pos: nat, calls: seq<string>) {
    match next
    case More => Tried(nodes, path, pos, calls)
    case Done => ret == 0 ==>
                   IsDirectory(nodes, Split(path)) && Tried(nodes, path, |nodes[Split(path)].slots|, calls)
    case _ => true
  }

  /** The last step: the directory itself, after a scan that began with `before`. */
  method UnlinkAt(fs: Mounted, path: string, ghost p: Path, ghost before: Nodes) returns (ret: int)
    requires Scans(before, fs.nodes, path) && p == Split(path)
    modifies fs`nodes, fs`tick, fs`trace
    ensures Deletes(before, fs.nodes, path) && Shrinks(before, fs.nodes)
    ensures fs.trace == Trace(ret, old(fs.trace).unlinks + [path])
    ensures ret == 0 ==> Subtree(fs.nodes, p) == {} && Fits(before, path)
    ensures fs.Quiet() ==> (ret == 0 <==> UnlinkResult(old(fs.nodes), p) == 0)
  {
    ghost var scanned := fs.nodes;
    ret := fs.Unlink(path);
    if ret == 0 {
      UnlinkClears(scanned, p);
      LongStayUnlink(scanned, path);
    } else {
      ClearsNothing(scanned, p);
    }
    ScanThenUnlink(before, scanned, fs.nodes, path);
    ShrinksTransitive(before, scanned, fs.nodes);
    if ret == 0 {
      GoneDidFit(before, fs.nodes, path);
    }
  }

  /** How a scan goes on: with the next entry; not at all because there is none or
      the read failed; or not at all and with the handle already closed, because of
      an error, or because the recursion has not ended. */
  datatype Scan = More | Done | Stopped | Endless

  /** The number of open handles, from that before. */
  function OpenAfter(end: Scan, before: nat): int {
    if end.Stopped? || end.Endless? then before - 1 else before
  }

  /** On a device that does not fail and with paths that fit: what is behind the
      scan is gone, and it ends with everything gone. */
  ghost predicate ScanState(end: Scan, slots: seq<Slot>, pos: nat) {
    match end
    case More => Scanned(slots, pos)
    case Done => NoChild(slots)
    case Stopped => false
    case Endless => true
  }

  /** Reads one entry and deals with it. */
  method ScanStep(fs: Mounted, path: string, depth: nat, dir: Handle, ghost p: Path, ghost base: nat)
    returns (next: Scan, ret: int, dir': Handle)
    requires WellFormed(fs.nodes) && p == Split(path) && fs.open > 0 && depth > 0
    requires IsDirectory(fs.nodes, p) && dir.path == p && dir.pos <= |fs.nodes[p].slots|
    requires base <= |fs.trace.unlinks|
    modifies fs`nodes, fs`tick, fs`open, fs`trace
    ensures Scans(old(fs.nodes), fs.nodes, path) && IsDirectory(fs.nodes, p)
    ensures fs.open == OpenAfter(next, old(fs.open)) && old(fs.trace).unlinks <= fs.trace.unlinks
    ensures next.Stopped? ==> ret != 0 && ret == fs.trace.last
    ensures Tried(old(fs.nodes), path, dir.pos, old(fs.trace).unlinks[base..]) ==>
              TriedSoFar(next, ret, fs.nodes, path, dir'.pos, fs.trace.unlinks[base..])
    ensures NoChild(old(fs.nodes)[p].slots) ==>
              (next.More? || next.Done?) && fs.nodes == old(fs.nodes) && fs.trace.unlinks == old(fs.trace).unlinks
    ensures !HasSubdirectory(old(fs.nodes), p) ==> next.More? || next.Done?
    ensures dir'.path == p && dir'.pos <= |fs.nodes[p].slots| == |old(fs.nodes)[p].slots|
    ensures |fs.nodes| <= |old(fs.nodes)|
    ensures |fs.nodes| < |old(fs.nodes)| ||
            (if next.More? then dir.pos < dir'.pos else dir' == dir)
    ensures NoLoop(old(fs.nodes), path) && Need(old(fs.nodes), path) <= depth ==> !next.Endless?
    ensures fs.Quiet() && old(fs.open) <= fs.handles && Fits(old(fs.nodes), path) &&
            Scanned(old(fs.nodes)[p].slots, dir.pos) ==>
              ScanState(next, fs.nodes[p].slots, dir'.pos)
    ensures fs.Quiet() && old(fs.open) <= fs.handles && StuckAt(old(fs.nodes), path, dir.pos) ==>
              next.Endless? || (next.More? && StuckAt(fs.nodes, path, dir'.pos))
    decreases depth, 2
  {
    ScansNothing(fs.nodes, path);
    var entry;
    ret, entry, dir' := ReadEntry(fs, path, dir, p, fs.trace.unlinks[base..]);
    if ret != 0 || entry.None? {
      return Done, ret, dir;
    }
    if IsDot(entry.value.name) {
      return More, ret, dir';
    }
    assert entry.value.isDir ==> IsSubdirectory(fs.nodes, p, entry.value.name);
    next, ret, dir' := RemoveEntry(fs, path, depth, dir', entry.value, p, dir.pos, base);
    if !next.More? {
      dir' := dir;
    }
  }

  /** The read of an entry, and what it says about what is behind the scan and ahead
      of it. */
  method ReadEntry(fs: Mounted, path: string, dir: Handle, ghost p: Path, ghost calls: seq<string>)
    returns (ret: int, entry: Option<DirEntry>, dir': Handle)
    requires p == Split(path) && fs.open > 0
    requires IsDirectory(fs.nodes, p) && dir.path == p && dir.pos <= |fs.nodes[p].slots|
    modifies fs`tick, fs`trace
    ensures fs.trace == Trace(ret, old(fs.trace).unlinks)
    ensures ret == 0 && entry.Some? ==>
              && dir'.path == p && dir.pos < dir'.pos <= |fs.nodes[p].slots|
              && ReadAt(fs.nodes[p].slots, dir.pos, entry.value.name, dir'.pos)
              && Lists(fs.nodes[p].slots, entry.value.name)
              && (!IsDot(entry.value.name) ==>
                    entry.value.isDir == IsDirectory(fs.nodes, p + [entry.value.name]))
    ensures ret != 0 ==> entry.None?
    ensures Scanned(fs.nodes[p].slots, dir.pos) && ret == 0 ==>
              match entry
              case None => NoChild(fs.nodes[p].slots)
              case Some(e) => Scanned(if IsDot(e.name) then fs.nodes[p].slots else Punch(fs.nodes[p].slots, e.name),
                                      dir'.pos)
    ensures Tried(fs.nodes, path, dir.pos, calls) && ret == 0 ==>
              if entry == None then Tried(fs.nodes, path, |fs.nodes[p].slots|, calls)
              else IsDot(entry.value.name) ==> Tried(fs.nodes, path, dir'.pos, calls)
    ensures fs.Quiet() ==> ret == 0
    ensures fs.Quiet() && StuckAt(fs.nodes, path, dir.pos) ==>
              entry.Some? && ((!IsDot(entry.value.name) && entry.value.isDir) || StuckAt(fs.nodes, path, dir'.pos))
  {
    ghost var slots := fs.nodes[p].slots;
    ret, entry, dir' := fs.Readdir(dir);
    if Tried(fs.nodes, path, dir.pos, calls) { AttemptedNext(slots, dir.pos, path, calls); }
    if StuckAt(fs.nodes, path, dir.pos) { StuckNext(fs.nodes, path, dir.pos); }
    if ret == 0 && entry.Some? {
      ListedAt(slots, NextEntry(slots, dir.pos));
    }
    if Scanned(slots, dir.pos) && ret == 0 {
      if entry.None? {
        ScannedAll(slots, dir.pos);
      } else {
        ScannedMore(slots, dir.pos, entry.value.name);
      }
    }
  }

  lemma ListedAt(slots: seq<Slot>, i: nat)
    requires i < |slots| && slots[i].Entry?
    ensures Lists(slots, slots[i].name)
  {
  }

  /** What the scan does about one entry: a subdirectory is deleted with the
      handle closed and the scan starts again, a file is unlinked. When the entry's
      path does not fit in the buffer, this happens to another one. */
  method RemoveEntry(fs: Mounted, path: string, depth: nat, dir: Handle, entry: DirEntry, ghost p: Path,
                     ghost pos: nat, ghost base: nat)
    returns (next: Scan, ret: int, dir': Handle)
    requires WellFormed(fs.nodes) && p == Split(path) && fs.open > 0 && depth > 0
    requires IsDirectory(fs.nodes, p) && dir.path == p
    requires Lists(fs.nodes[p].slots, entry.name) && !IsDot(entry.name)
    requires entry.isDir == IsDirectory(fs.nodes, p + [entry.name])
    requires ReadAt(fs.nodes[p].slots, pos, entry.name, dir.pos) && base <= |fs.trace.unlinks|
    modifies fs`nodes, fs`tick, fs`open, fs`trace
    ensures next != Done && (!entry.isDir ==> next.More?)
    ensures Scans(old(fs.nodes), fs.nodes, path) && IsDirectory(fs.nodes, p)
    ensures |fs.nodes[p].slots| == |old(fs.nodes)[p].slots| && |fs.nodes| <= |old(fs.nodes)|
    ensures fs.open == OpenAfter(next, old(fs.open)) && old(fs.trace).unlinks <= fs.trace.unlinks
    ensures next.Stopped? ==> ret != 0 && ret == fs.trace.last
    ensures Tried(old(fs.nodes), path, pos, old(fs.trace).unlinks[base..]) && next.More? ==>
              Tried(fs.nodes, path, dir'.pos, fs.trace.unlinks[base..])
    ensures next.More? && !entry.isDir ==> dir' == dir
    ensures next.More? && entry.isDir ==> dir' == Handle(p, 0) && |fs.nodes| < |old(fs.nodes)|
    ensures NoLoop(old(fs.nodes), path) && Need(old(fs.nodes), path) <= depth ==> !next.Endless?
    ensures fs.Quiet() && old(fs.open) <= fs.handles && Fits(old(fs.nodes), path) && !next.Endless? ==>
              next.More? && fs.nodes[p].slots == Punch(old(fs.nodes)[p].slots, entry.name)
    ensures fs.Quiet() && old(fs.open) <= fs.handles && RootIsParent(old(fs.nodes), path) ==>
              if entry.isDir then next.Endless? else next.More? && fs.nodes == old(fs.nodes)
    decreases depth, 1
  {
    ghost var before, calls := fs.nodes, fs.trace.unlinks[base..];
    next, dir' := More, dir;
    var fullPath := FullPath(path, entry.name);
    EntryIsNode(fs.nodes, p, entry.name);
    if entry.isDir {
      fs.Closedir();
      var ended;
      ended, ret := DeleteSubdirectory(fs, path, depth, fullPath, entry.name, p);
      if !ended {
        next := Endless;
        return;
      }
      if ret != 0 {
        next := Stopped;
        return;
      }
      ret, dir' := fs.Opendir(path);
      if ret != 0 {
        next := Stopped;
      }
    } else {
      ret := UnlinkEntry(fs, path, fullPath, entry.name, p);
      if Tried(before, path, pos, calls) {
        TriedFile(before, fs.nodes, path, pos, calls, fs.trace.unlinks[base..]);
      }
    }
  }

  /** The case of a subdirectory. */
  method DeleteSubdirectory(fs: Mounted, path: string, depth: nat, fullPath: string, name: string, ghost p: Path)
    returns (ended: bool, ret: int)
    requires WellFormed(fs.nodes) && p == Split(path) && depth > 0
    requires IsDirectory(fs.nodes, p) && IsDirectory(fs.nodes, p + [name]) && IsName(name)
    requires fullPath == FullPath(path, name)
    modifies fs`nodes, fs`tick, fs`open, fs`trace
    ensures Scans(old(fs.nodes), fs.nodes, path) && IsDirectory(fs.nodes, p)
    ensures |fs.nodes[p].slots| == |old(fs.nodes)[p].slots| && |fs.nodes| <= |old(fs.nodes)|
    ensures fs.open == old(fs.open) && old(fs.trace).unlinks <= fs.trace.unlinks
    ensures ended ==> ret == fs.trace.last
    ensures ended && ret == 0 ==> |fs.nodes| < |old(fs.nodes)|
    ensures NoLoop(old(fs.nodes), path) && Need(old(fs.nodes), path) <= depth ==> ended
    ensures fs.Quiet() && old(fs.open) < fs.handles && Fits(old(fs.nodes), path) && ended ==>
              ret == 0 && fs.nodes[p].slots == Punch(old(fs.nodes)[p].slots, name)
    ensures fs.Quiet() && old(fs.open) < fs.handles && RootIsParent(old(fs.nodes), path) ==> !ended
    decreases depth, 0
  {
    ghost var before := fs.nodes;
    ghost var c := Split(fullPath);
    ChildText(path, name);
    if Fits(before, path) { FitsChild(before, path, name); }
    if NoLoop(before, path) { NoLoopChild(before, path, name); }
    if RootIsParent(before, path) { StuckAgain(before, path, fullPath); }
    ended, ret := FsRmRf(fs, fullPath, depth - 1, c);
    FewerNodes(before, fs.nodes);
    if ended && ret == 0 { GoneIsFewer(before, fs.nodes, c); }
    if |path| < BUFFER - 2 {
      ScansChild(before, fs.nodes, path, Cut(path, name));
      if ended && ret == 0 { ChildGone(before, fs.nodes, p, Cut(path, name)); }
    } else {
      ScansRoot(before, fs.nodes, path, fullPath, name);
    }
  }

  /** The recursive call for a subdirectory ends when the call for its parent is to
      end, and needs one call less. */
  lemma NoLoopChild(nodes: Nodes, path: string, name: string)
    requires NoLoop(nodes, path) && IsName(name) && IsSubdirectory(nodes, Split(path), name)
    ensures NoLoop(nodes, FullPath(path, name)) && Need(nodes, FullPath(path, name)) < Need(nodes, path)
  {
    ChildText(path, name);
    assert HasSubdirectory(nodes, Split(path));
    if |path| < BUFFER - 2 {
      NoLoopBelow(nodes, path, Cut(path, name));
      SizeOfChild(nodes, Split(path), Cut(path, name));
    }
  }

  /** The case of a file. */
  method UnlinkEntry(fs: Mounted, path: string, fullPath: string, name: string, ghost p: Path) returns (ret: int)
    requires WellFormed(fs.nodes) && p == Split(path)
    requires IsDirectory(fs.nodes, p) && p + [name] in fs.nodes && IsName(name)
    requires fullPath == FullPath(path, name)
    modifies fs`nodes, fs`tick, fs`trace
    ensures Scans(old(fs.nodes), fs.nodes, path) && IsDirectory(fs.nodes, p)
    ensures |fs.nodes[p].slots| == |old(fs.nodes)[p].slots| && |fs.nodes| <= |old(fs.nodes)|
    ensures fs.trace == Trace(ret, old(fs.trace).unlinks + [fullPath])
    ensures fs.Quiet() && Fits(old(fs.nodes), path) && IsLeaf(old(fs.nodes), p + [name]) ==>
              fs.nodes[p].slots == Punch(old(fs.nodes)[p].slots, name)
    ensures RootIsParent(old(fs.nodes), path) ==> fs.nodes == old(fs.nodes)
  {
    ghost var before := fs.nodes;
    ghost var c := Split(fullPath);
    ChildText(path, name);
    if Fits(before, path) { FitsChild(before, path, name); }
    if RootIsParent(before, path) { StuckAgain(before, path, fullPath); }
    ret := fs.Unlink(fullPath);
    if ret != 0 {
      ScansNothing(before, path);
    } else {
      UnlinkClears(before, c);
      LongStayUnlink(before, fullPath);
      FewerNodes(before, fs.nodes);
      if |path| < BUFFER - 2 {
        ScansChild(before, fs.nodes, path, Cut(path, name));
        ChildGone(before, fs.nodes, p, Cut(path, name));
      } else {
        ScansRoot(before, fs.nodes, path, fullPath, name);
      }
    }
  }

  lemma EntryIsNode(nodes: Nodes, p: Path, n: string)
    requires WellFormed(nodes) && IsDirectory(nodes, p) && Lists(nodes[p].slots, n) && !IsDot(n)
    ensures p + [n] in nodes && IsName(n)
  {
    assert ParentLists(nodes, p + [n]);
  }
}
