/** The creation of a directory with all the directories above it, by cutting the
    path at each '/' in a scratch buffer. */
module DirectoryCreation {
  import opened Common
  import opened FileTree
  import opened Volume

  // ---- which directories are made ----

  /** The first ':' from `from` on, or the length. */
  function FindColon(s: string, from: nat): (i: nat)
    requires from <= |s|
    ensures from <= i <= |s| && (i < |s| ==> s[i] == ':')
    ensures forall j | from <= j < i :: s[j] != ':'
    decreases |s| - from
  {
    if from == |s| || s[from] == ':' then from else FindColon(s, from + 1)
  }

  /** Where cutting starts: behind the first character, or behind a mount prefix
      "/xxx:/". */
  function StartIndex(s: string): nat {
    if s == "" || s[0] != '/' then 1
    else
      var colon := FindColon(s, 1);
      if colon + 1 < |s| && s[colon + 1] == '/' then colon + 2 else 1
  }

  /** The prefixes that end before a '/' from `from` on, in increasing length. */
  function Cuts(s: string, from: nat): seq<string>
    decreases |s| - from
  {
    if from >= |s| then []
    else if s[from] == '/' then [s[..from]] + Cuts(s, from + 1)
    else Cuts(s, from + 1)
  }

  function Targets(s: string, from: nat): seq<string> {
    Cuts(s, from) + [s]
  }

  /** The cuts are exactly the prefixes before a '/' from `from` on. */
  lemma {:induction false} CutsAreThePrefixes(s: string, from: nat, t: string)
    ensures t in Cuts(s, from) <==> from <= |t| < |s| && s[|t|] == '/' && t == s[..|t|]
    decreases |s| - from
  {
    if from < |s| {
      CutsAreThePrefixes(s, from + 1, t);
    }
  }

  /** ... and they come in increasing length. */
  lemma {:induction false} CutsIncrease(s: string, from: nat, i: nat, j: nat)
    requires i < j < |Cuts(s, from)|
    ensures from <= |Cuts(s, from)[i]| < |Cuts(s, from)[j]| < |s|
    decreases |s| - from
  {
    if from < |s| && s[from] == '/' {
      if i == 0 {
        CutsAreThePrefixes(s, from + 1, Cuts(s, from + 1)[j - 1]);
      } else {
        CutsIncrease(s, from + 1, i - 1, j - 1);
      }
    } else {
      CutsIncrease(s, from + 1, i, j);
    }
  }

  /** The state that the calls of fs_mkdir work on, with the calls issued and the result
      of the last one. */
  datatype Disk = Disk(nodes: Nodes, tick: nat, issued: seq<string>, last: int)

  function MkdirOn(faults: nat -> Fault, d: Disk, t: string): (Disk, int) {
    var ret := if faults(d.tick) != 0 then faults(d.tick) else MkdirResult(d.nodes, Split(t));
    (Disk(if ret == 0 then AddDir(d.nodes, Split(t)) else d.nodes, d.tick + 1, d.issued + [t], ret), ret)
  }

  predicate Fails(ret: int) {
    ret < 0 && ret != -EEXIST
  }

  /** Makes the targets in order and stops at the first failure; a directory that
      exists is none. */
  function MakeAll(faults: nat -> Fault, d: Disk, ts: seq<string>): (r: (Disk, int))
    decreases |ts|
  {
    if ts == [] then (d, 0)
    else
      var (d1, ret) := MkdirOn(faults, d, ts[0]);
      if Fails(ret) then (d1, ret) else MakeAll(faults, d1, ts[1..])
  }

  // ---- what is there afterwards ----

  lemma MkdirMakes(faults: nat -> Fault, d: Disk, t: string)
    ensures var (d', ret) := MkdirOn(faults, d, t);
            && d.nodes.Keys <= d'.nodes.Keys <= d.nodes.Keys + {Split(t)}
            && (!Fails(ret) ==> Split(t) in d'.nodes)
            && (Fails(ret) ==> d'.nodes == d.nodes)
            && (Split(t) in d.nodes ==> d'.nodes == d.nodes)
  {
    assert Split(t) != [] ==> Parent(Split(t)) != Split(t);
  }

  /** The calls issued are the targets up to the first failure. All the ones before
      it exist afterwards, and nothing else is new; on success all of them exist. The
      code of a failure is that of the call that has failed. */
  lemma {:induction false} MakeAllMakes(faults: nat -> Fault, d: Disk, ts: seq<string>)
    ensures var (d', ret) := MakeAll(faults, d, ts);
            && (ret == 0 || (Fails(ret) && ret == d'.last))
            && exists k: nat :: k <= |ts| && Made(d, d', ts, ret, k)
    decreases |ts|
  {
    if ts != [] {
      var (d1, ret1) := MkdirOn(faults, d, ts[0]);
      MkdirMakes(faults, d, ts[0]);
      var (d', ret) := MakeAll(faults, d, ts);
      if Fails(ret1) {
        assert Made(d, d', ts, ret, 0);
      } else {
        MakeAllMakes(faults, d1, ts[1..]);
        var k: nat :| k <= |ts| - 1 && Made(d1, d', ts[1..], ret, k);
        MadeOneMore(d, d1, d', ts, ret, k);
      }
    } else {
      assert Made(d, d, ts, 0, 0);
    }
  }

  /** The first `k` targets have been made, and the next one has failed if `ret`
      is not 0. */
  ghost predicate Made(d: Disk, d': Disk, ts: seq<string>, ret: int, k: nat)
    requires k <= |ts|
  {
    && (ret == 0 ==> k == |ts|) && (ret != 0 ==> k < |ts|)
    && d'.issued == d.issued + ts[..if ret == 0 then k else k + 1]
    && (forall i | 0 <= i < k :: Split(ts[i]) in d'.nodes)
    && d.nodes.Keys <= d'.nodes.Keys
    && (forall p | p in d'.nodes && p !in d.nodes :: exists i :: 0 <= i < k && p == Split(ts[i]))
  }

  lemma MadeOneMore(d: Disk, d1: Disk, d': Disk, ts: seq<string>, ret: int, k: nat)
    requires k < |ts| && Made(d1, d', ts[1..], ret, k)
    requires d1.issued == d.issued + [ts[0]] && Split(ts[0]) in d1.nodes
    requires d.nodes.Keys <= d1.nodes.Keys <= d.nodes.Keys + {Split(ts[0])}
    ensures Made(d, d', ts, ret, k + 1)
  {
    var rest := ts[1..];
    assert forall i | 0 <= i < |rest| :: rest[i] == ts[i + 1];
    IssuedOneMore(d.issued, ts, if ret == 0 then k else k + 1);
    forall i | 0 <= i < k + 1 ensures Split(ts[i]) in d'.nodes {
      if i > 0 { assert Split(rest[i - 1]) in d'.nodes; }
    }
    forall p | p in d'.nodes && p !in d.nodes ensures exists i :: 0 <= i < k + 1 && p == Split(ts[i]) {
      if p !in d1.nodes {
        var i :| 0 <= i < k && p == Split(rest[i]);
        assert p == Split(ts[i + 1]);
      }
    }
  }

  lemma IssuedOneMore(issued: seq<string>, ts: seq<string>, m: nat)
    requires m < |ts|
    ensures issued + [ts[0]] + ts[1..][..m] == issued + ts[..m + 1]
  {
    assert ts[..m + 1] == [ts[0]] + ts[1..][..m];
  }

  /** When all of them exist already, nothing changes, whatever fails. */
  lemma {:induction false} MakeAllAgain(faults: nat -> Fault, d: Disk, ts: seq<string>)
    requires forall t | t in ts :: Split(t) in d.nodes
    ensures MakeAll(faults, d, ts).0.nodes == d.nodes
    ensures (forall k :: faults(k) == 0) ==> MakeAll(faults, d, ts).1 == 0
    decreases |ts|
  {
    if ts != [] {
      MkdirMakes(faults, d, ts[0]);
      MakeAllAgain(faults, MkdirOn(faults, d, ts[0]).0, ts[1..]);
    }
  }

  // ---- when it succeeds ----

  /** Each target is the one before it, or lies directly in it. */
  ghost predicate Chain(ts: seq<string>) {
    forall i | 0 <= i < |ts| - 1 :: OneDown(Split(ts[i]), Split(ts[i + 1]))
  }

  predicate OneDown(p: Path, q: Path) {
    q == p || (q != [] && Parent(q) == p)
  }

  predicate Creatable(nodes: Nodes, p: Path) {
    p in nodes || MkdirResult(nodes, p) == 0
  }

  /** The step from one target to the next can be taken: it is none, or the first
      is not a file and the name is a proper one. */
  predicate Passable(nodes: Nodes, p: Path, q: Path) {
    q == p || (!(p in nodes && nodes[p].File?) && q != [] && !IsDot(Last(q)))
  }

  lemma AddDirKeepsWellFormed(nodes: Nodes, p: Path)
    requires WellFormed(nodes) && MkdirResult(nodes, p) == 0 && IsName(Last(p))
    ensures WellFormed(AddDir(nodes, p))
  {
    var nodes' := AddDir(nodes, p);
    var up, n := Parent(p), Last(p);
    var slots := nodes[up].slots;
    assert p == up + [n] && up != p;
    forall m ensures Lists(slots + [Entry(n)], m) <==> Lists(slots, m) || m == n {}
    forall q | q in nodes' && q != [] ensures ParentLists(nodes', q) {
      if q != p {
        assert ParentLists(nodes, q);
      }
    }
    forall q, m | q in nodes' && nodes'[q].Dir? && Lists(nodes'[q].slots, m) && !IsDot(m)
      ensures q + [m] in nodes'
    {
      if q == up && m != n {
        assert Lists(nodes[up].slots, m);
      } else if q != up && q != p {
        assert nodes'[q] == nodes[q];
      }
    }
  }

  lemma {:induction false} SplitNames(s: string, n: string)
    requires n in Split(s)
    ensures IsName(n)
    decreases |s|
  {
    var i := LastSlash(s, |s|);
    var last := s[i..];
    assert forall j | 0 <= j < |last| :: last[j] == s[i + j] != '/';
    if i > 0 && n in Split(s[..i - 1]) {
      SplitNames(s[..i - 1], n);
    } else {
      assert n == last;
    }
  }

  /** One call on a device that does not fail. */
  lemma QuietMkdir(faults: nat -> Fault, d: Disk, t: string)
    requires WellFormed(d.nodes) && forall k :: faults(k) == 0
    ensures var (d', ret) := MkdirOn(faults, d, t);
            && WellFormed(d'.nodes)
            && (!Fails(ret) <==> Creatable(d.nodes, Split(t)))
            && SameFiles(d.nodes, d'.nodes)
  {
    var p := Split(t);
    if MkdirResult(d.nodes, p) == 0 {
      assert Last(p) in p;
      SplitNames(t, Last(p));
      AddDirKeepsWellFormed(d.nodes, p);
    }
  }

  /** Once a target exists, the next one can be made exactly when the step to it
      can be taken. */
  lemma NextCreatable(nodes: Nodes, p: Path, q: Path)
    requires WellFormed(nodes) && p in nodes && OneDown(p, q)
    ensures Creatable(nodes, q) <==> Passable(nodes, p, q)
  {
    if q != p && q in nodes {
      assert ParentLists(nodes, q);
    }
  }

  /** All steps from one target to the next can be taken. */
  ghost predicate AllPassable(nodes: Nodes, ts: seq<string>)
    decreases |ts|
  {
    |ts| < 2 || (Passable(nodes, Split(ts[0]), Split(ts[1])) && AllPassable(nodes, ts[1..]))
  }

  ghost predicate SameFiles(a: Nodes, b: Nodes) {
    forall p :: p in a && a[p].File? <==> p in b && b[p].File?
  }

  lemma {:induction false} AllPassableSame(a: Nodes, b: Nodes, ts: seq<string>)
    requires SameFiles(a, b)
    ensures AllPassable(a, ts) <==> AllPassable(b, ts)
    decreases |ts|
  {
    if |ts| >= 2 {
      AllPassableSame(a, b, ts[1..]);
    }
  }

  lemma ChainTail(ts: seq<string>)
    requires Chain(ts) && |ts| >= 2
    ensures OneDown(Split(ts[0]), Split(ts[1])) && Chain(ts[1..])
  {
    assert forall i | 0 <= i < |ts| - 1 :: ts[1..][i] == ts[i + 1];
  }

  /** On a device that does not fail, all targets are made exactly when the first
      one can be and no target above another one is a file or has a dot name. */
  lemma {:induction false} QuietSuccessIff(faults: nat -> Fault, d: Disk, ts: seq<string>)
    requires WellFormed(d.nodes) && (forall k :: faults(k) == 0) && ts != [] && Chain(ts)
    ensures MakeAll(faults, d, ts).1 == 0 <==>
            Creatable(d.nodes, Split(ts[0])) && AllPassable(d.nodes, ts)
    decreases |ts|
  {
    QuietMkdir(faults, d, ts[0]);
    MkdirMakes(faults, d, ts[0]);
    var (d1, ret) := MkdirOn(faults, d, ts[0]);
    if !Fails(ret) && |ts| >= 2 {
      ChainTail(ts);
      QuietSuccessIff(faults, d1, ts[1..]);
      NextCreatable(d1.nodes, Split(ts[0]), Split(ts[1]));
      AllPassableSame(d.nodes, d1.nodes, ts);
    }
  }

  // ---- the targets of a path form a chain ----

  /** The prefix up to the next '/', seen from the one up to this '/'. */
  lemma CutStep(s: string, i: nat, j: nat)
    requires i < j <= |s| && s[i] == '/' && forall k | i < k < j :: s[k] != '/'
    ensures OneDown(Split(s[..i]), Split(s[..j]))
  {
    var t := s[..j];
    LastSlashUnique(t, i + 1);
    assert t[..i] == s[..i];
    assert Split(t) == if t[i + 1..] == "" then Split(s[..i]) else Split(s[..i]) + [t[i + 1..]];
  }

  /** The first target from `from` on ends at the next '/' or at the end. */
  lemma {:induction false} FirstTarget(s: string, from: nat) returns (j: nat)
    requires from <= |s|
    ensures from <= j <= |s| && Targets(s, from)[0] == s[..j]
    ensures forall k | from <= k < j :: s[k] != '/'
    decreases |s| - from
  {
    if from == |s| {
      j := from;
      assert s[..j] == s;
    } else if s[from] == '/' {
      j := from;
    } else {
      j := FirstTarget(s, from + 1);
    }
  }

  lemma {:induction false} TargetsFormChain(s: string, from: nat)
    requires from <= |s|
    ensures Chain(Targets(s, from))
    decreases |s| - from
  {
    if from < |s| {
      TargetsFormChain(s, from + 1);
      if s[from] == '/' {
        var rest := Targets(s, from + 1);
        var j := FirstTarget(s, from + 1);
        CutStep(s, from, j);
        assert Targets(s, from) == [s[..from]] + rest;
        forall i | 0 <= i < |rest| ensures OneDown(Split(([s[..from]] + rest)[i]), Split(([s[..from]] + rest)[i + 1])) {
          if i > 0 { assert OneDown(Split(rest[i - 1]), Split(rest[i])); }
        }
      }
    }
  }

  // ---- the scratch buffer ----

  /** The C string at the start of a buffer. */
  function CString(buf: seq<char>): (s: string)
    ensures |s| <= |buf| && s == buf[..|s|] && '\0' !in s
    ensures |s| == |buf| || buf[|s|] == '\0'
  {
    if buf == [] || buf[0] == '\0' then []
    else
      var rest := CString(buf[1..]);
      [buf[0]] + rest
  }

  lemma {:induction false} CStringUnique(buf: seq<char>, s: string)
    requires |s| < |buf| && s == buf[..|s|] && '\0' !in s && buf[|s|] == '\0'
    ensures CString(buf) == s
  {
    if s != "" {
      assert s[0] == buf[0] && s[1..] == buf[1..][..|s| - 1];
      CStringUnique(buf[1..], s[1..]);
    }
  }

  /** The buffer holds `s` and zeros behind it. */
  ghost predicate Holds(buf: array<char>, s: string)
    reads buf
  {
    && |s| < buf.Length && '\0' !in s
    && (forall i | 0 <= i < |s| :: buf[i] == s[i])
    && (forall i | |s| <= i < buf.Length :: buf[i] == '\0')
  }

  /** strncpy with a terminating zero. */
  method CopyPath(path: string, buf: array<char>)
    requires buf.Length > 0 && '\0' !in path
    modifies buf
    ensures Holds(buf, if |path| < buf.Length then path else path[..buf.Length - 1])
  {
    var i := 0;
    while i < buf.Length
      invariant 0 <= i <= buf.Length
      invariant forall j | 0 <= j < i :: buf[j] == if j < |path| && j < buf.Length - 1 then path[j] else '\0'
    {
      buf[i] := if i < |path| && i < buf.Length - 1 then path[i] else '\0';
      i := i + 1;
    }
  }

  method FindStart(buf: array<char>, ghost s: string) returns (start: nat)
    requires Holds(buf, s)
    ensures start == StartIndex(s)
  {
    start := 1;
    if buf[0] == '/' {
      var colon := 1;
      while buf[colon] != '\0' && buf[colon] != ':'
        invariant 1 <= colon <= |s|
        invariant FindColon(s, colon) == FindColon(s, 1)
        decreases |s| - colon
      {
        colon := colon + 1;
      }
      if buf[colon] == ':' && buf[colon + 1] == '/' {
        start := colon + 2;
      }
    }
  }

  /** The path that the buffer can hold. */
  function Kept(path: string, size: nat): string
    requires size > 0
  {
    if |path| < size then path else path[..size - 1]
  }

  ghost function DiskOf(fs: Mounted): Disk
    reads fs
  {
    Disk(fs.nodes, fs.tick, fs.mkdirs, fs.trace.last)
  }

  /** What MkdirDir does with a path: nothing for an empty one and for a bare mount
      point; otherwise it makes the targets of as much of it as the buffer holds. */
  ghost function MkdirOutcome(faults: nat -> Fault, d: Disk, path: string, pathMax: nat): (Disk, int)
    requires pathMax > 0
  {
    var s := Kept(path, pathMax);
    if path == "" then (d, -EINVAL)
    else if StartIndex(s) >= |s| then (d, 0)
    else MakeAll(faults, d, Targets(s, StartIndex(s)))
  }

  /** Makes the directory `path` and all directories above it from the mount point
      on. The calls of fs_mkdir are those of MakeAll on the targets of the path, as
      far as it fits in the buffer. */
  method MkdirDir(fs: Mounted, path: Option<string>, pathMax: nat) returns (ret: int)
    requires pathMax > 0 && (path.Some? ==> '\0' !in path.value)
    modifies fs`nodes, fs`tick, fs`mkdirs, fs`trace
    ensures path == None ==> ret == -EINVAL && DiskOf(fs) == old(DiskOf(fs))
    ensures path.Some? ==> (DiskOf(fs), ret) == MkdirOutcome(fs.faults, old(DiskOf(fs)), path.value, pathMax)
  {
    if path.None? || path.value == "" {
      return -EINVAL;
    }
    var tmp := new char[pathMax];
    CopyPath(path.value, tmp);
    ghost var s := Kept(path.value, pathMax);
    var start := FindStart(tmp, s);
    CStringUnique(tmp[..], s);
    if start >= |CString(tmp[..])| {
      return 0;
    }
    ret := CutAndMake(fs, tmp, start, s);
  }

  /** The loop over the buffer, and the last call on the path as it was given. */
  method CutAndMake(fs: Mounted, tmp: array<char>, start: nat, ghost s: string) returns (ret: int)
    requires Holds(tmp, s) && start <= |s|
    modifies fs`nodes, fs`tick, fs`mkdirs, fs`trace, tmp
    ensures (DiskOf(fs), ret) == MakeAll(fs.faults, old(DiskOf(fs)), Targets(s, start))
  {
    var p := start;
    while tmp[p] != '\0'
      invariant start <= p <= |s| && Holds(tmp, s)
      invariant MakeAll(fs.faults, old(DiskOf(fs)), Targets(s, start))
             == MakeAll(fs.faults, DiskOf(fs), Targets(s, p))
      decreases |s| - p
    {
      TargetsStep(fs.faults, DiskOf(fs), s, p);
      if tmp[p] == '/' {
        ret := MakePrefix(fs, tmp, p, s);
        if Fails(ret) {
          return;
        }
      }
      p := p + 1;
    }
    ret := MakeLast(fs, tmp, s);
  }

  /** The call on the whole path. */
  method MakeLast(fs: Mounted, tmp: array<char>, ghost s: string) returns (ret: int)
    requires Holds(tmp, s)
    modifies fs`nodes, fs`tick, fs`mkdirs, fs`trace
    ensures (DiskOf(fs), ret) == MakeAll(fs.faults, old(DiskOf(fs)), Targets(s, |s|))
  {
    TargetsStep(fs.faults, DiskOf(fs), s, |s|);
    CStringUnique(tmp[..], s);
    ret := fs.Mkdir(CString(tmp[..]));
    if Fails(ret) {
      return;
    }
    return 0;
  }

  /** The '/' is overwritten for one call and put back. */
  method MakePrefix(fs: Mounted, tmp: array<char>, p: nat, ghost s: string) returns (ret: int)
    requires Holds(tmp, s) && p < |s| && s[p] == '/'
    modifies fs`nodes, fs`tick, fs`mkdirs, fs`trace, tmp
    ensures (DiskOf(fs), ret) == MkdirOn(fs.faults, old(DiskOf(fs)), s[..p])
    ensures !Fails(ret) ==> Holds(tmp, s)
  {
    tmp[p] := '\0';
    CStringUnique(tmp[..], s[..p]);
    ret := fs.Mkdir(CString(tmp[..]));
    if Fails(ret) {
      return;
    }
    tmp[p] := '/';
  }

  /** What the targets from one position on are, and what making them does. */
  lemma TargetsStep(faults: nat -> Fault, d: Disk, s: string, p: nat)
    requires p <= |s|
    ensures p < |s| && s[p] != '/' ==> Targets(s, p) == Targets(s, p + 1)
    ensures p < |s| && s[p] == '/' ==>
              var (d1, ret) := MkdirOn(faults, d, s[..p]);
              MakeAll(faults, d, Targets(s, p)) ==
              if Fails(ret) then (d1, ret) else MakeAll(faults, d1, Targets(s, p + 1))
    ensures p == |s| ==>
              var (d1, ret) := MkdirOn(faults, d, s);
              MakeAll(faults, d, Targets(s, p)) == if Fails(ret) then (d1, ret) else (d1, 0)
  {
    if p == |s| {
      assert Targets(s, p) == [s] && [s][1..] == [];
    } else if s[p] == '/' {
      assert Targets(s, p) == [s[..p]] + Targets(s, p + 1);
    }
  }

  // ---- what the call means ----

  // ---- the calls, in terms of the text alone ----

  /** `calls` are the prefixes of `s` that end before a '/' from `from` on, in
      increasing length, and then `s` itself. */
  ghost predicate ArePrefixes(calls: seq<string>, s: string, from: nat) {
    && calls != [] && calls[|calls| - 1] == s
    && (forall i, j | 0 <= i < j < |calls| :: |calls[i]| < |calls[j]|)
    && (forall t :: t in calls <==> t == s || (from <= |t| < |s| && s[|t|] == '/' && t == s[..|t|]))
  }

  /** From where on a path is cut: behind its first character, or, when it begins
      with '/' and its first ':' after that is followed by '/', behind that. */
  ghost predicate CutFrom(s: string, from: nat) {
    if s != "" && s[0] == '/' && exists c :: MountEnds(s, c) then MountEnds(s, from - 2) else from == 1
  }

  ghost predicate MountEnds(s: string, c: int) {
    && 1 <= c && c + 1 < |s| && s[c] == ':' && s[c + 1] == '/'
    && forall j | 1 <= j < c :: s[j] != ':'
  }

  lemma StartIndexIs(s: string)
    ensures CutFrom(s, StartIndex(s))
    ensures forall from: nat | CutFrom(s, from) :: from == StartIndex(s)
  {
    if s != "" && s[0] == '/' {
      var colon := FindColon(s, 1);
      forall c | MountEnds(s, c) ensures c == colon {
      }
      assert colon + 1 < |s| && s[colon + 1] == '/' ==> MountEnds(s, colon);
    }
  }

  lemma TargetsArePrefixes(s: string, from: nat)
    ensures ArePrefixes(Targets(s, from), s, from)
  {
    var ts := Targets(s, from);
    forall t ensures t in ts <==> t == s || (from <= |t| < |s| && s[|t|] == '/' && t == s[..|t|]) {
      CutsAreThePrefixes(s, from, t);
    }
    forall i, j | 0 <= i < j < |ts| ensures |ts[i]| < |ts[j]| {
      if j < |ts| - 1 {
        CutsIncrease(s, from, i, j);
      } else {
        CutsAreThePrefixes(s, from, ts[i]);
        assert ts[i] in Cuts(s, from);
      }
    }
  }

  lemma EmptyPathIsInvalid(faults: nat -> Fault, d: Disk, pathMax: nat)
    requires pathMax > 0
    ensures MkdirOutcome(faults, d, "", pathMax) == (d, -EINVAL)
  {
  }

  /** What is called for a path that is not empty: as much of it as fits in the
      buffer is cut, and the calls are made up to the first one that fails; its
      code is returned. There is no call when nothing follows the mount prefix. */
  lemma CallsArePrefixes(faults: nat -> Fault, d: Disk, path: string, pathMax: nat, from: nat)
    requires path != "" && pathMax > 0
    requires CutFrom(if |path| < pathMax then path else path[..pathMax - 1], from)
    ensures var s := if |path| < pathMax then path else path[..pathMax - 1];
            var (d', ret) := MkdirOutcome(faults, d, path, pathMax);
            if from >= |s| then d' == d && ret == 0
            else exists calls, k: nat ::
                   && ArePrefixes(calls, s, from) && k <= |calls|
                   && d'.issued == d.issued + calls[..k]
                   && if ret == 0 then k == |calls| else k > 0 && ret < 0 && ret != -EEXIST && ret == d'.last
  {
    var s := Kept(path, pathMax);
    StartIndexIs(s);
    if from < |s| {
      var ts := Targets(s, from);
      TargetsArePrefixes(s, from);
      MakeAllMakes(faults, d, ts);
      var (d', ret) := MakeAll(faults, d, ts);
      var k: nat :| k <= |ts| && Made(d, d', ts, ret, k);
      var issued := if ret == 0 then k else k + 1;
      assert ArePrefixes(ts, s, from) && d'.issued == d.issued + ts[..issued];
    }
  }

  /** When it returns 0, the directory asked for exists exactly if it existed
      before, or there was something to make behind the mount prefix and nothing
      but '/' has been cut off the path. All the directories on the way exist too,
      and a second call changes nothing. */
  lemma SuccessMeansExists(faults: nat -> Fault, d: Disk, path: string, pathMax: nat)
    requires pathMax > 0 && MkdirOutcome(faults, d, path, pathMax).1 == 0
    ensures var s := Kept(path, pathMax);
            var d' := MkdirOutcome(faults, d, path, pathMax).0;
            && (Split(path) in d'.nodes <==>
                  Split(path) in d.nodes || (StartIndex(s) < |s| && OnlySlashes(path, |s|)))
            && (StartIndex(s) < |s| ==>
                  && (forall t | t in Targets(s, StartIndex(s)) :: Split(t) in d'.nodes)
                  && d'.issued == d.issued + Targets(s, StartIndex(s)))
            && MkdirOutcome(faults, d', path, pathMax).0.nodes == d'.nodes
  {
    var s := Kept(path, pathMax);
    if StartIndex(s) < |s| {
      var ts := Targets(s, StartIndex(s));
      AllMade(faults, d, ts);
      MadeIff(faults, d, path, s, StartIndex(s));
      MakeAllAgain(faults, MakeAll(faults, d, ts).0, ts);
    }
  }

  /** What a path has come into being by making the targets of its prefix `s`. */
  lemma MadeIff(faults: nat -> Fault, d: Disk, path: string, s: string, from: nat)
    requires s <= path && MakeAll(faults, d, Targets(s, from)).1 == 0
    ensures Split(path) in MakeAll(faults, d, Targets(s, from)).0.nodes <==>
            Split(path) in d.nodes || OnlySlashes(path, |s|)
  {
    var ts := Targets(s, from);
    var d' := MakeAll(faults, d, ts).0;
    AllMade(faults, d, ts);
    SplitPrefixIff(path, |s|);
    assert path[..|s|] == s == ts[|ts| - 1];
    assert Split(ts[|ts| - 1]) in d'.nodes;
    if Split(path) in d'.nodes && Split(path) !in d.nodes {
      var i :| 0 <= i < |ts| && Split(path) == Split(ts[i]);
      TargetSplitsAsPath(path, s, from, ts[i]);
    }
  }

  lemma TargetSplitsAsPath(path: string, s: string, from: nat, t: string)
    requires s <= path && t in Targets(s, from) && Split(path) == Split(t)
    ensures OnlySlashes(path, |s|)
  {
    TargetIsPrefix(s, from, t);
    assert path[..|t|] == t;
    SplitPrefixIff(path, |t|);
  }

  lemma TargetIsPrefix(s: string, from: nat, t: string)
    requires t in Targets(s, from)
    ensures t <= s
  {
    if t != s {
      CutsAreThePrefixes(s, from, t);
    }
  }

  lemma AllMade(faults: nat -> Fault, d: Disk, ts: seq<string>)
    requires MakeAll(faults, d, ts).1 == 0
    ensures var d' := MakeAll(faults, d, ts).0;
            && d'.issued == d.issued + ts
            && (forall i | 0 <= i < |ts| :: Split(ts[i]) in d'.nodes)
            && d.nodes.Keys <= d'.nodes.Keys
            && (forall p | p in d'.nodes && p !in d.nodes :: exists i :: 0 <= i < |ts| && p == Split(ts[i]))
  {
    var d' := MakeAll(faults, d, ts).0;
    MakeAllMakes(faults, d, ts);
    var k: nat :| k <= |ts| && Made(d, d', ts, 0, k);
    assert ts[..|ts|] == ts;
  }

  /** On a device that does not fail it returns 0 exactly for a path that is not
      empty and for which there is nothing to make, or the first directory to make
      exists or can be made and no directory above another one is a file or has a dot
      name. */
  lemma ReturnsZeroIff(faults: nat -> Fault, d: Disk, path: string, pathMax: nat)
    requires pathMax > 0 && WellFormed(d.nodes) && forall k :: faults(k) == 0
    ensures var s := Kept(path, pathMax);
            var ts := Targets(s, StartIndex(s));
            MkdirOutcome(faults, d, path, pathMax).1 == 0 <==>
            path != "" && (StartIndex(s) >= |s| || (Creatable(d.nodes, Split(ts[0])) && AllPassable(d.nodes, ts)))
  {
    var s := Kept(path, pathMax);
    if StartIndex(s) < |s| {
      TargetsFormChain(s, StartIndex(s));
      QuietSuccessIff(faults, d, Targets(s, StartIndex(s)));
    }
  }

  // ---- what is cut off ----

  ghost predicate OnlySlashes(s: string, from: nat) {
    forall i | from <= i < |s| :: s[i] == '/'
  }

  /** The number of characters that are not separators. */
  function Letters(s: string): nat {
    if s == "" then 0 else Letters(s[..|s| - 1]) + if s[|s| - 1] == '/' then 0 else 1
  }

  function NameLengths(p: Path): nat {
    if p == [] then 0 else NameLengths(Parent(p)) + |Last(p)|
  }

  lemma {:induction false} LettersAfter(s: string, i: nat)
    requires i <= |s|
    ensures Letters(s[..i]) <= Letters(s)
    ensures Letters(s) == Letters(s[..i]) <==> OnlySlashes(s, i)
    ensures (forall j | i <= j < |s| :: s[j] != '/') ==> Letters(s) == Letters(s[..i]) + |s| - i
    decreases |s|
  {
    if i == |s| {
      assert s[..i] == s;
    } else {
      var init := s[..|s| - 1];
      assert init[..i] == s[..i];
      LettersAfter(init, i);
      assert OnlySlashes(s, i) <==> OnlySlashes(init, i) && s[|s| - 1] == '/';
    }
  }

  lemma {:induction false} SplitLetters(s: string)
    ensures NameLengths(Split(s)) == Letters(s)
    decreases |s|
  {
    var i := LastSlash(s, |s|);
    LettersAfter(s, i);
    if i > 0 {
      SplitLetters(s[..i - 1]);
      assert s[..i][..i - 1] == s[..i - 1];
    }
    var init := if i == 0 then [] else Split(s[..i - 1]);
    assert Parent(init + [s[i..]]) == init;
  }

  lemma SlashAtEnd(s: string)
    requires s != "" && s[|s| - 1] == '/'
    ensures Split(s) == Split(s[..|s| - 1])
  {
    LastSlashUnique(s, |s|);
  }

  lemma {:induction false} SlashesAtEnd(s: string, i: nat)
    requires i <= |s| && OnlySlashes(s, i)
    ensures Split(s) == Split(s[..i])
    decreases |s|
  {
    if i == |s| {
      assert s[..i] == s;
    } else {
      var init := s[..|s| - 1];
      SlashAtEnd(s);
      SlashesAtEnd(init, i);
      assert init[..i] == s[..i];
    }
  }

  /** A prefix names the same place exactly when only separators are missing. */
  lemma SplitPrefixIff(s: string, i: nat)
    requires i <= |s|
    ensures Split(s[..i]) == Split(s) <==> OnlySlashes(s, i)
  {
    if OnlySlashes(s, i) {
      SlashesAtEnd(s, i);
    } else {
      SplitLetters(s);
      SplitLetters(s[..i]);
      LettersAfter(s, i);
    }
  }

  function Word(k: nat): string {
    seq(k, _ => 'd')
  }

  /** One name that does not fit. */
  function LongPath(pathMax: nat): string {
    "/" + Word(pathMax)
  }

  /** Whatever the size of the buffer, there is a path that is reported as made
      although it is not. */
  lemma LongPathIsCutOff(faults: nat -> Fault, d: Disk, pathMax: nat)
    requires pathMax >= 3 && d.nodes == map[[] := Dir([])] && faults(d.tick) == 0
    ensures var (d', ret) := MkdirOutcome(faults, d, LongPath(pathMax), pathMax);
            ret == 0 && Split(LongPath(pathMax)) !in d'.nodes
  {
    var s := "/" + Word(pathMax - 2);
    assert LongPath(pathMax)[..pathMax - 1] == s;
    NoColon(s);
    NoCuts(s, 1);
    OneName(pathMax - 2);
    OneName(pathMax);
    assert Kept(LongPath(pathMax), pathMax) == s && Targets(s, 1) == [s];
    MakesShortPath(faults, d, s, Word(pathMax - 2));
    assert !OnlySlashes(LongPath(pathMax), |s|) by { assert LongPath(pathMax)[|s|] == 'd'; }
    SuccessMeansExists(faults, d, LongPath(pathMax), pathMax);
  }

  lemma NoColon(s: string)
    requires |s| > 1 && s[0] == '/' && forall i | 0 < i < |s| :: s[i] == 'd'
    ensures StartIndex(s) == 1
  {
  }

  lemma {:induction false} NoCuts(s: string, from: nat)
    requires forall i | from <= i < |s| :: s[i] == 'd'
    ensures Cuts(s, from) == []
    decreases |s| - from
  {
    if from < |s| {
      NoCuts(s, from + 1);
    }
  }

  lemma OneName(k: nat)
    requires k > 0
    ensures Split("/" + Word(k)) == [Word(k)]
  {
    SplitJoin("", Word(k));
    assert "" + "/" + Word(k) == "/" + Word(k);
  }

  lemma MakesShortPath(faults: nat -> Fault, d: Disk, s: string, n: string)
    requires d.nodes == map[[] := Dir([])] && faults(d.tick) == 0
    requires Split(s) == [n] && !IsDot(n)
    ensures MakeAll(faults, d, [s]).1 == 0
  {
    assert [s][1..] == [];
    assert Parent([n]) == [];
  }
}
