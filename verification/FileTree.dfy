/** A file system as a tree of named entries. A directory is a row of slots, as on
    FAT: deleting an entry leaves a hole and moves nothing. */
module FileTree {

  /** A place in the tree: the names on the way down from the root. */
  type Path = seq<string>

  datatype Slot = Hole | Entry(name: string)
  datatype Node = File | Dir(slots: seq<Slot>)
  type Nodes = map<Path, Node>

  /** The names of a text path, empty ones left out. */
  function Split(text: string): Path
    decreases |text|
  {
    var i := LastSlash(text, |text|);
    var init := if i == 0 then [] else Split(text[..i - 1]);
    if text[i..] == "" then init else init + [text[i..]]
  }

  /** One more than the index of the last '/' before `k`; 0 when there is none. */
  function LastSlash(text: string, k: nat): (i: nat)
    requires k <= |text|
    ensures i <= k && (i > 0 ==> text[i - 1] == '/')
    ensures forall j | i <= j < k :: text[j] != '/'
  {
    if k == 0 then 0 else if text[k - 1] == '/' then k else LastSlash(text, k - 1)
  }

  predicate IsName(n: string) {
    n != "" && '/' !in n
  }

  predicate IsDot(n: string) {
    n == "." || n == ".."
  }

  lemma LastSlashUnique(text: string, i: nat)
    requires i <= |text| && (i > 0 ==> text[i - 1] == '/')
    requires forall j | i <= j < |text| :: text[j] != '/'
    ensures LastSlash(text, |text|) == i
  {
  }

  /** Joining a name to a text path goes one step down. */
  lemma SplitJoin(text: string, n: string)
    requires IsName(n)
    ensures Split(text + "/" + n) == Split(text) + [n]
  {
    var t := text + "/" + n;
    assert t[|text| + 1..] == n && t[..|text|] == text;
    forall j | |text| + 1 <= j < |t| ensures t[j] != '/' {
      assert t[j] == n[j - |text| - 1];
    }
    LastSlashUnique(t, |text| + 1);
  }

  /** A prefix of a text path has no more names. */
  lemma {:induction false} PrefixHasNoMoreNames(text: string, k: nat)
    requires k <= |text|
    ensures |Split(text[..k])| <= |Split(text)|
    decreases |text|
  {
    if k == |text| {
      assert text[..k] == text;
    } else {
      var init := text[..|text| - 1];
      assert init[..k] == text[..k];
      PrefixHasNoMoreNames(init, k);
      OneCharacterMore(text);
    }
  }

  lemma OneCharacterMore(text: string)
    requires text != ""
    ensures |Split(text[..|text| - 1])| <= |Split(text)|
  {
    var init := text[..|text| - 1];
    var i := LastSlash(text, |text|);
    if text[|text| - 1] == '/' {
      LastSlashUnique(text, |text|);
    } else {
      LastSlashUnique(init, i);
      assert i > 0 ==> init[..i - 1] == text[..i - 1];
    }
  }

  function Last(p: Path): string
    requires p != []
  {
    p[|p| - 1]
  }

  function Parent(p: Path): Path
    requires p != []
  {
    p[..|p| - 1]
  }

  predicate Lists(slots: seq<Slot>, n: string) {
    Entry(n) in slots
  }

  /** Nothing but holes and dot entries. */
  predicate NoChild(slots: seq<Slot>) {
    forall s | s in slots :: s.Hole? || IsDot(s.name)
  }

  ghost predicate ParentLists(nodes: Nodes, p: Path)
    requires p != []
  {
    && IsName(Last(p)) && !IsDot(Last(p))
    && Parent(p) in nodes && nodes[Parent(p)].Dir? && Lists(nodes[Parent(p)].slots, Last(p))
  }

  /** Every node but the root is listed in a directory, and every listed name but
      "." and ".." has a node. */
  ghost predicate WellFormed(nodes: Nodes) {
    && (forall p {:trigger ParentLists(nodes, p)} | p in nodes && p != [] :: ParentLists(nodes, p))
    && (forall p, n {:trigger Lists(nodes[p].slots, n)}
          | p in nodes && nodes[p].Dir? && Lists(nodes[p].slots, n) && !IsDot(n) :: p + [n] in nodes)
  }

  /** The nodes at and below a place. */
  ghost function Subtree(nodes: Nodes, p: Path): set<Path> {
    set q | q in nodes && p <= q
  }

  lemma {:induction false} AncestorExists(nodes: Nodes, q: Path, k: nat)
    requires WellFormed(nodes) && q in nodes && k <= |q|
    ensures q[..k] in nodes
    decreases |q|
  {
    if k == |q| {
      assert q[..k] == q;
    } else {
      assert ParentLists(nodes, q);
      assert Parent(q)[..k] == q[..k];
      AncestorExists(nodes, Parent(q), k);
    }
  }

  /** On the way down to a node there is a listed child. */
  lemma ChildOnTheWay(nodes: Nodes, p: Path, q: Path)
    requires WellFormed(nodes) && q in nodes && p <= q && p != q
    ensures p in nodes && nodes[p].Dir? && !NoChild(nodes[p].slots)
  {
    var r := q[..|p| + 1];
    AncestorExists(nodes, q, |p| + 1);
    assert Parent(r) == p;
    assert ParentLists(nodes, r);
  }

  /** A directory without children has nothing below it. */
  lemma NothingBelow(nodes: Nodes, p: Path, q: Path)
    requires WellFormed(nodes) && IsLeaf(nodes, p)
    requires q in nodes && p <= q
    ensures q == p
  {
    if q != p {
      ChildOnTheWay(nodes, p, q);
    }
  }

  // ---- deletion ----

  function Punch(slots: seq<Slot>, n: string): seq<Slot> {
    seq(|slots|, i requires 0 <= i < |slots| => if slots[i] == Entry(n) then Hole else slots[i])
  }

  /** Takes one node out and leaves a hole where it was listed. */
  function Remove(nodes: Nodes, p: Path): Nodes
    requires p != [] && Parent(p) in nodes && nodes[Parent(p)].Dir?
  {
    (nodes - {p})[Parent(p) := Dir(Punch(nodes[Parent(p)].slots, Last(p)))]
  }

  predicate IsLeaf(nodes: Nodes, p: Path) {
    p in nodes && (nodes[p].Dir? ==> NoChild(nodes[p].slots))
  }

  lemma PunchLists(slots: seq<Slot>, n: string, m: string)
    ensures Lists(Punch(slots, n), m) <==> Lists(slots, m) && m != n
  {
    if Lists(slots, m) && m != n {
      var i :| 0 <= i < |slots| && slots[i] == Entry(m);
      assert Punch(slots, n)[i] == Entry(m);
    }
  }

  lemma RemoveKeepsListed(nodes: Nodes, p: Path, q: Path)
    requires WellFormed(nodes) && p != [] && IsLeaf(nodes, p) && ParentLists(nodes, p)
    requires q in nodes && !(p <= q) && q != []
    ensures ParentLists(Remove(nodes, p), q)
  {
    assert ParentLists(nodes, q);
    var up := Parent(q);
    Siblings(p, q);
    if up == Parent(p) {
      PunchLists(nodes[up].slots, Last(p), Last(q));
      assert Remove(nodes, p)[up].slots == Punch(nodes[up].slots, Last(p));
    } else {
      assert Remove(nodes, p)[up] == nodes[up];
    }
  }

  lemma Siblings(p: Path, q: Path)
    requires p != [] && q != [] && !(p <= q)
    ensures Parent(q) != p && (Parent(q) == Parent(p) ==> Last(q) != Last(p))
  {
    assert q == Parent(q) + [Last(q)] && p == Parent(p) + [Last(p)];
  }

  lemma RemoveKeepsChild(nodes: Nodes, p: Path, q: Path, n: string)
    requires WellFormed(nodes) && p != [] && IsLeaf(nodes, p) && ParentLists(nodes, p)
    requires var nodes' := Remove(nodes, p);
             q in nodes' && nodes'[q].Dir? && Lists(nodes'[q].slots, n) && !IsDot(n)
    ensures q + [n] in Remove(nodes, p)
  {
    var d := q + [n];
    assert Parent(d) == q && Last(d) == n;
    if q == Parent(p) {
      PunchLists(nodes[q].slots, Last(p), n);
    }
  }

  lemma RemoveKeepsWellFormed(nodes: Nodes, p: Path)
    requires WellFormed(nodes) && p != [] && IsLeaf(nodes, p)
    ensures Parent(p) in nodes && nodes[Parent(p)].Dir? && WellFormed(Remove(nodes, p))
  {
    assert ParentLists(nodes, p);
    var nodes' := Remove(nodes, p);
    forall q | q in nodes' && q != [] ensures ParentLists(nodes', q) {
      if p <= q {
        NothingBelow(nodes, p, q);
      } else {
        RemoveKeepsListed(nodes, p, q);
      }
    }
    forall q, n | q in nodes' && nodes'[q].Dir? && Lists(nodes'[q].slots, n) && !IsDot(n)
      ensures q + [n] in nodes'
    {
      RemoveKeepsChild(nodes, p, q, n);
    }
  }

  /** Nothing outside the subtree at `p` has changed, but for the hole where `p`
      was listed if it is gone. */
  ghost predicate OnlyBelow(old_: Nodes, new_: Nodes, p: Path) {
    forall q | !(p <= q) ::
      && (q in new_ <==> q in old_)
      && (q in new_ ==>
            new_[q] == if p != [] && q == Parent(p) && p in old_ && p !in new_ && old_[q].Dir?
                       then Dir(Punch(old_[q].slots, Last(p))) else old_[q])
  }

  /** Deletions only: no node is new, files stay files, and a directory keeps its
      slots where they are, some of them turned into holes. */
  ghost predicate Shrinks(old_: Nodes, new_: Nodes) {
    forall q | q in new_ :: q in old_ && NodeShrinks(old_[q], new_[q])
  }

  predicate NodeShrinks(a: Node, b: Node) {
    match a
    case File => b.File?
    case Dir(slots) =>
      b.Dir? && |b.slots| == |slots| &&
      forall i | 0 <= i < |slots| :: b.slots[i] == slots[i] || b.slots[i] == Hole
  }

  lemma ShrinksTransitive(a: Nodes, b: Nodes, c: Nodes)
    requires Shrinks(a, b) && Shrinks(b, c)
    ensures Shrinks(a, c)
  {
    forall q | q in c ensures q in a && NodeShrinks(a[q], c[q]) {
      assert q in b && NodeShrinks(a[q], b[q]) && NodeShrinks(b[q], c[q]);
    }
  }

  lemma RemoveOnlyBelow(nodes: Nodes, p: Path)
    requires WellFormed(nodes) && p != [] && IsLeaf(nodes, p)
    ensures Parent(p) in nodes && nodes[Parent(p)].Dir?
    ensures OnlyBelow(nodes, Remove(nodes, p), p) && Shrinks(nodes, Remove(nodes, p))
    ensures Subtree(Remove(nodes, p), p) == {}
  {
    assert ParentLists(nodes, p);
    forall q | q in nodes && p <= q ensures q == p {
      NothingBelow(nodes, p, q);
    }
    assert !(p <= Parent(p));
  }
}
