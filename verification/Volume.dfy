/** The file system calls that the directory algorithms use, on a mounted tree.
    Any call may fail: `faults` says which ones do, and with what error. */
module Volume {
  import opened Common
  import opened FileTree

  const ENOENT: int := 2
  const EEXIST: int := 17
  const ENOTDIR: int := 20
  const EINVAL: int := 22
  const ENFILE: int := 23
  const ENOTEMPTY: int := 90

  /** 0 for a call that does not fail of itself. A device never reports EEXIST. */
  type Fault = x: int | x <= 0 && x != -17

  datatype Handle = Handle(path: Path, pos: nat)
  datatype DirEntry = DirEntry(name: string, isDir: bool)

  /** The first slot from `pos` on that is in use. */
  function NextEntry(slots: seq<Slot>, pos: nat): (i: nat)
    requires pos <= |slots|
    ensures pos <= i <= |slots| && (i < |slots| ==> slots[i].Entry?)
    ensures forall j | pos <= j < i :: slots[j].Hole?
    decreases |slots| - pos
  {
    if pos == |slots| || slots[pos].Entry? then pos else NextEntry(slots, pos + 1)
  }

  /** fs_unlink on a working device: 0, or why not. */
  function UnlinkResult(nodes: Nodes, p: Path): int {
    if p == [] then -EINVAL
    else if p !in nodes then -ENOENT
    else if !IsLeaf(nodes, p) then -ENOTEMPTY
    else 0
  }

  /** fs_mkdir on a working device: 0, or why not. */
  function MkdirResult(nodes: Nodes, p: Path): int {
    if p in nodes then -EEXIST
    else if p == [] || Parent(p) !in nodes || !nodes[Parent(p)].Dir? then -ENOENT
    else if IsDot(Last(p)) then -EINVAL
    else 0
  }

  /** A new, empty directory takes a slot at the end of its parent. */
  function AddDir(nodes: Nodes, p: Path): Nodes
    requires MkdirResult(nodes, p) == 0
  {
    nodes[Parent(p) := Dir(nodes[Parent(p)].slots + [Entry(Last(p))])][p := Dir([])]
  }

  /** What has been asked of a volume: the result of the last call that has one, and
      the texts of all unlink calls. */
  datatype Trace = Trace(last: int, unlinks: seq<string>)

  class Mounted {
    const faults: nat -> Fault
    var nodes: Nodes
    var tick: nat
    /** How many directory handles there are, and how many are open. */
    const handles: nat
    var open: nat
    ghost var mkdirs: seq<string>
    ghost var trace: Trace

    constructor (faults: nat -> Fault, nodes: Nodes, handles: nat)
      ensures this.faults == faults && this.nodes == nodes && this.handles == handles
      ensures tick == 0 && open == 0 && mkdirs == []
    {
      this.faults, this.nodes, this.handles := faults, nodes, handles;
      tick, open, mkdirs := 0, 0, [];
      trace := Trace(0, []);
    }

    /** The device itself never fails. */
    ghost predicate Quiet() {
      forall k :: faults(k) == 0
    }

    method NextFault() returns (f: Fault)
      modifies this`tick
      ensures f == faults(old(tick)) && tick == old(tick) + 1 && (Quiet() ==> f == 0)
    {
      f := faults(tick);
      tick := tick + 1;
    }

    method Opendir(text: string) returns (ret: int, h: Handle)
      modifies this`tick, this`open, this`trace
      ensures h == Handle(Split(text), 0) && trace == old(trace).(last := ret)
      ensures ret == 0 ==> Split(text) in nodes && nodes[Split(text)].Dir?
      ensures faults(old(tick)) == 0 && old(open) < handles && Split(text) in nodes && nodes[Split(text)].Dir? ==>
                ret == 0
      ensures open == if ret == 0 then old(open) + 1 else old(open)
    {
      var p := Split(text);
      h := Handle(p, 0);
      ret := NextFault();
      if ret == 0 {
        if p !in nodes {
          ret := -ENOENT;
        } else if nodes[p].File? {
          ret := -ENOTDIR;
        } else if open >= handles {
          ret := -ENFILE;
        } else {
          open := open + 1;
        }
      }
      trace := trace.(last := ret);
    }

    method Closedir()
      requires open > 0
      modifies this`open
      ensures open == old(open) - 1
    {
      open := open - 1;
    }

    method Readdir(h: Handle) returns (ret: int, entry: Option<DirEntry>, h': Handle)
      requires open > 0 && h.path in nodes && nodes[h.path].Dir? && h.pos <= |nodes[h.path].slots|
      modifies this`tick, this`trace
      ensures trace == old(trace).(last := ret)
      ensures Quiet() ==> ret == 0
      ensures ret != 0 ==> entry == None && h' == h
      ensures ret == 0 ==>
                var slots := nodes[h.path].slots;
                var i := NextEntry(slots, h.pos);
                if i == |slots| then entry == None && h' == h.(pos := i)
                else
                  var n := slots[i].name;
                  && h' == h.(pos := i + 1)
                  && entry == Some(DirEntry(n, IsDot(n) || (h.path + [n] in nodes && nodes[h.path + [n]].Dir?)))
    {
      ret := NextFault();
      entry, h' := None, h;
      if ret == 0 {
        var slots := nodes[h.path].slots;
        var i := NextEntry(slots, h.pos);
        if i == |slots| {
          h' := h.(pos := i);
        } else {
          var n := slots[i].name;
          entry := Some(DirEntry(n, IsDot(n) || (h.path + [n] in nodes && nodes[h.path + [n]].Dir?)));
          h' := h.(pos := i + 1);
        }
      }
      trace := trace.(last := ret);
    }

    method Unlink(text: string) returns (ret: int)
      requires WellFormed(nodes)
      modifies this`tick, this`nodes, this`trace
      ensures trace == old(trace).(last := ret, unlinks := old(trace).unlinks + [text])
      ensures WellFormed(nodes)
      ensures ret == 0 ==>
                && UnlinkResult(old(nodes), Split(text)) == 0
                && ParentLists(old(nodes), Split(text)) && nodes == Remove(old(nodes), Split(text))
      ensures ret != 0 ==> nodes == old(nodes)
      ensures Quiet() ==> ret == UnlinkResult(old(nodes), Split(text))
    {
      var p := Split(text);
      ret := NextFault();
      if ret == 0 {
        ret := UnlinkResult(nodes, p);
        if ret == 0 {
          RemoveKeepsWellFormed(nodes, p);
          nodes := Remove(nodes, p);
        }
      }
      trace := trace.(last := ret, unlinks := trace.unlinks + [text]);
    }

    method Mkdir(text: string) returns (ret: int)
      modifies this`tick, this`nodes, this`mkdirs, this`trace
      ensures trace == old(trace).(last := ret)
      ensures mkdirs == old(mkdirs) + [text] && tick == old(tick) + 1
      ensures ret == if faults(old(tick)) != 0 then faults(old(tick)) else MkdirResult(old(nodes), Split(text))
      ensures nodes == if ret == 0 then AddDir(old(nodes), Split(text)) else old(nodes)
    {
      mkdirs := mkdirs + [text];
      var p := Split(text);
      ret := NextFault();
      if ret == 0 {
        ret := MkdirResult(nodes, p);
        if ret == 0 {
          nodes := AddDir(nodes, p);
        }
      }
      trace := trace.(last := ret);
    }
  }
}
