/** The hand-off of shell commands from any number of producers to one worker,
    through a queue of depth one. Every step of a producer or of the worker is an
    action, and a run is any interleaving of actions. */
module ShellWorker {
  import opened Common

  type Pid = nat
  type Session = nat
  type Tool = nat
  type Addr = nat

  /** The two programs share the protocol. The i2c tools may leave through
      longjmp, are followed by a forced release of the bus device, and clear the
      session last; busctl clears the session before it frees. */
  datatype Kind = I2cTools | Busctl

  /** Who is to free a live block. */
  datatype Owner = Producer(pid: Pid) | Queue | Worker

  /** An accepted command: its place in the order of acceptance, its session, the
      tool to call and the number of arguments. busctl has one tool only. */
  datatype Job = Job(id: nat, sh: Session, tool: Tool, argc: nat)

  /** The queue element: an argv block and the strings it points to. */
  datatype Cmd = Cmd(job: Job, argv: Addr, args: seq<Addr>)

  datatype ProducerState =
    | Idle
    | Copying(sh: Session, tool: Tool, argc: nat, argv: Addr, copied: seq<Addr>)
    | Unwinding(code: int, argv: Addr, left: seq<Addr>)

  datatype WorkerState =
    | Waiting
    | Got(cmd: Cmd)
    | Running(cmd: Cmd)
    | Returned(cmd: Cmd)
    | Freeing(cmd: Cmd, left: seq<Addr>)
    | Freed(cmd: Cmd)

  /** `heap` holds the live blocks; `bad` counts frees of a block that is not live
      or belongs to somebody else. */
  datatype State = State(kind: Kind, heap: map<Addr, Owner>, bad: nat, allocs: nat, frees: nat,
                         producers: map<Pid, ProducerState>, queue: seq<Cmd>, worker: WorkerState,
                         shell: Option<Session>, deviceOpen: bool,
                         accepted: seq<Job>, started: seq<Job>, retired: seq<Job>)

  datatype Action =
    | Malloc(p: Pid, sh: Session, tool: Tool, argc: nat, addr: Option<Addr>)
    | Strdup(p: Pid, addr: Option<Addr>)
    | Put(p: Pid)
    | Unwind(p: Pid)
    | Get
    | StartTool
    | ToolPermutes(args: seq<Addr>)
    | ToolOpensDevice
    | ToolReturns
    | ToolExits
    | AfterTool
    | WorkerFrees
    | ClearShell

  const ENOMEM: int := 12
  const EBUSY: int := 16

  function Init(kind: Kind): State {
    State(kind, map[], 0, 0, 0, map[], [], Waiting, None, false, [], [], [])
  }

  function At(s: State, p: Pid): ProducerState {
    if p in s.producers then s.producers[p] else Idle
  }

  predicate Enabled(s: State, a: Action) {
    match a
    case Malloc(p, _, _, _, addr) => At(s, p).Idle? && (addr.Some? ==> addr.value !in s.heap)
    case Strdup(p, addr) =>
      && At(s, p).Copying? && |At(s, p).copied| < At(s, p).argc
      && (addr.Some? ==> addr.value !in s.heap)
    case Put(p) => At(s, p).Copying? && |At(s, p).copied| == At(s, p).argc
    case Unwind(p) => At(s, p).Unwinding?
    case Get => s.worker.Waiting? && s.queue != []
    case StartTool => s.worker.Got?
    case ToolPermutes(args) => s.worker.Running? && multiset(args) == multiset(s.worker.cmd.args)
    case ToolOpensDevice => s.worker.Running? && s.kind.I2cTools?
    case ToolReturns => s.worker.Running?
    case ToolExits => s.worker.Running? && s.kind.I2cTools?
    case AfterTool => s.worker.Returned?
    case WorkerFrees => s.worker.Freeing?
    case ClearShell => s.worker.Freed?
  }

  function Alloc(s: State, b: Addr, o: Owner): State {
    s.(heap := s.heap[b := o], allocs := s.allocs + 1)
  }

  function Free(s: State, b: Addr, o: Owner): State {
    if b in s.heap && s.heap[b] == o then s.(heap := s.heap - {b}, frees := s.frees + 1)
    else s.(bad := s.bad + 1)
  }

  /** Hands all blocks of one owner over to another. */
  function Transfer(s: State, from: Owner, to: Owner): State {
    s.(heap := map b | b in s.heap :: if s.heap[b] == from then to else s.heap[b])
  }

  function SetProducer(s: State, p: Pid, ps: ProducerState): State {
    s.(producers := s.producers[p := ps])
  }

  function Retire(s: State): State
    requires !s.worker.Waiting?
  {
    s.(worker := Waiting, retired := s.retired + [s.worker.cmd.job])
  }

  function Step(s: State, a: Action): State
    requires Enabled(s, a)
  {
    match a
    case Malloc(p, sh, tool, argc, addr) =>
      if addr.None? then s
      else SetProducer(Alloc(s, addr.value, Producer(p)), p, Copying(sh, tool, argc, addr.value, []))
    case Strdup(p, addr) =>
      var ps := At(s, p);
      if addr.None? then SetProducer(s, p, Unwinding(-ENOMEM, ps.argv, ps.copied))
      else SetProducer(Alloc(s, addr.value, Producer(p)), p, ps.(copied := ps.copied + [addr.value]))
    case Put(p) =>
      var ps := At(s, p);
      if s.queue == [] then
        var job := Job(|s.accepted|, ps.sh, ps.tool, ps.argc);
        SetProducer(Transfer(s, Producer(p), Queue), p, Idle)
          .(queue := [Cmd(job, ps.argv, ps.copied)], accepted := s.accepted + [job])
      else SetProducer(s, p, Unwinding(-EBUSY, ps.argv, ps.copied))
    case Unwind(p) =>
      var ps := At(s, p);
      if ps.left != [] then
        SetProducer(Free(s, ps.left[0], Producer(p)), p, Unwinding(ps.code, ps.argv, ps.left[1..]))
      else SetProducer(Free(s, ps.argv, Producer(p)), p, Idle)
    case Get => Transfer(s, Queue, Worker).(queue := [], worker := Got(s.queue[0]))
    case StartTool =>
      var cmd := s.worker.cmd;
      s.(worker := Running(cmd), shell := Some(cmd.job.sh), started := s.started + [cmd.job])
    case ToolPermutes(args) => s.(worker := Running(s.worker.cmd.(args := args)))
    case ToolOpensDevice => s.(deviceOpen := true)
    case ToolReturns => s.(worker := Returned(s.worker.cmd))
    case ToolExits => s.(worker := Returned(s.worker.cmd))
    case AfterTool =>
      var s1 := s.(worker := Freeing(s.worker.cmd, s.worker.cmd.args));
      if s.kind.I2cTools? then s1.(deviceOpen := false) else s1.(shell := None)
    case WorkerFrees =>
      var cmd, left := s.worker.cmd, s.worker.left;
      if left != [] then Free(s, left[0], Worker).(worker := Freeing(cmd, left[1..]))
      else
        var s1 := Free(s, cmd.argv, Worker);
        if s.kind.I2cTools? then s1.(worker := Freed(cmd)) else Retire(s1)
    case ClearShell => Retire(s.(shell := None))
  }

  // ---- ownership ----

  /** `bs` lists each live block of `o` exactly once, and nothing else. */
  ghost predicate Owns(heap: map<Addr, Owner>, o: Owner, bs: seq<Addr>) {
    && NoDuplicates(bs)
    && (forall b | b in bs :: b in heap && heap[b] == o)
    && (forall b | b in heap && heap[b] == o :: b in bs)
  }

  function HeldByProducer(ps: ProducerState): seq<Addr> {
    match ps
    case Idle => []
    case Copying(_, _, _, argv, copied) => copied + [argv]
    case Unwinding(_, argv, left) => left + [argv]
  }

  function HeldByQueue(q: seq<Cmd>): seq<Addr> {
    if q == [] then [] else q[0].args + [q[0].argv]
  }

  function HeldByWorker(w: WorkerState): seq<Addr> {
    match w
    case Waiting => []
    case Freed(_) => []
    case Freeing(cmd, left) => left + [cmd.argv]
    case Got(cmd) => cmd.args + [cmd.argv]
    case Running(cmd) => cmd.args + [cmd.argv]
    case Returned(cmd) => cmd.args + [cmd.argv]
  }

  /** Every live block has exactly one holder, who will free it. */
  ghost predicate HeapInv(s: State) {
    && s.bad == 0 && s.allocs == s.frees + |s.heap|
    && (forall p :: Owns(s.heap, Producer(p), HeldByProducer(At(s, p))))
    && Owns(s.heap, Queue, HeldByQueue(s.queue))
    && Owns(s.heap, Worker, HeldByWorker(s.worker))
  }

  lemma AllocKeepsOther(heap: map<Addr, Owner>, b: Addr, o: Owner, o': Owner, bs: seq<Addr>)
    requires b !in heap && o != o' && Owns(heap, o', bs)
    ensures Owns(heap[b := o], o', bs)
  {
  }

  lemma AllocExtends(heap: map<Addr, Owner>, b: Addr, o: Owner, bs: seq<Addr>, bs': seq<Addr>)
    requires b !in heap && Owns(heap, o, bs) && NoDuplicates(bs')
    requires forall x :: x in bs' <==> x in bs || x == b
    ensures Owns(heap[b := o], o, bs')
  {
  }

  lemma FreeKeepsOther(heap: map<Addr, Owner>, b: Addr, o: Owner, o': Owner, bs: seq<Addr>)
    requires b in heap && heap[b] == o && o != o' && Owns(heap, o', bs)
    ensures Owns(heap - {b}, o', bs)
  {
  }

  lemma FreeFirst(heap: map<Addr, Owner>, o: Owner, bs: seq<Addr>)
    requires bs != [] && Owns(heap, o, bs)
    ensures bs[0] in heap && heap[bs[0]] == o && Owns(heap - {bs[0]}, o, bs[1..])
  {
    assert forall b | b in bs && b != bs[0] :: b in bs[1..];
    assert forall b | b in bs[1..] :: b in bs;
  }

  lemma TransferMoves(s: State, from: Owner, to: Owner, bs: seq<Addr>)
    requires from != to && Owns(s.heap, from, bs) && Owns(s.heap, to, [])
    ensures var heap := Transfer(s, from, to).heap;
            && Owns(heap, from, []) && Owns(heap, to, bs) && heap.Keys == s.heap.Keys && |heap| == |s.heap|
            && (forall o, cs | o != from && o != to && Owns(s.heap, o, cs) :: Owns(heap, o, cs))
  {
    var heap := Transfer(s, from, to).heap;
    assert heap.Keys == s.heap.Keys;
    assert |heap| == |heap.Keys|;
  }

  lemma Permuted(heap: map<Addr, Owner>, o: Owner, bs: seq<Addr>, cs: seq<Addr>)
    requires Owns(heap, o, bs) && multiset(bs) == multiset(cs)
    ensures Owns(heap, o, cs)
  {
    SameMembers(bs, cs);
    PermutedNoDuplicates(bs, cs);
  }

  // ---- every step keeps the ownership invariant ----

  /** What a step on one producer's blocks leaves to show. */
  ghost predicate OthersKept(s: State, s': State, p: Pid) {
    && s'.queue == s.queue && s'.worker == s.worker
    && (forall q | q != p :: At(s', q) == At(s, q))
    && (forall o, bs | o != Producer(p) && Owns(s.heap, o, bs) :: Owns(s'.heap, o, bs))
  }

  lemma ProducerStep(s: State, s': State, p: Pid)
    requires HeapInv(s) && OthersKept(s, s', p)
    requires s'.bad == 0 && s'.allocs == s'.frees + |s'.heap|
    requires Owns(s'.heap, Producer(p), HeldByProducer(At(s', p)))
    ensures HeapInv(s')
  {
    forall q ensures Owns(s'.heap, Producer(q), HeldByProducer(At(s', q))) {
      assert Owns(s.heap, Producer(q), HeldByProducer(At(s, q)));
    }
  }

  lemma AllocStep(s: State, p: Pid, b: Addr, ps: ProducerState)
    requires HeapInv(s) && b !in s.heap && NoDuplicates(HeldByProducer(ps))
    requires forall x :: x in HeldByProducer(ps) <==> x in HeldByProducer(At(s, p)) || x == b
    ensures HeapInv(SetProducer(Alloc(s, b, Producer(p)), p, ps))
  {
    var s' := SetProducer(Alloc(s, b, Producer(p)), p, ps);
    assert s'.heap.Keys == s.heap.Keys + {b} && |s'.heap| == |s'.heap.Keys| == |s.heap| + 1;
    assert Owns(s.heap, Producer(p), HeldByProducer(At(s, p)));
    AllocExtends(s.heap, b, Producer(p), HeldByProducer(At(s, p)), HeldByProducer(ps));
    forall o, bs | o != Producer(p) && Owns(s.heap, o, bs) ensures Owns(s'.heap, o, bs) {
      AllocKeepsOther(s.heap, b, Producer(p), o, bs);
    }
    ProducerStep(s, s', p);
  }

  lemma FreeCounts(s: State, b: Addr, o: Owner)
    requires s.bad == 0 && s.allocs == s.frees + |s.heap| && b in s.heap && s.heap[b] == o
    ensures var s' := Free(s, b, o);
            s'.bad == 0 && s'.allocs == s'.frees + |s'.heap| && s'.heap == s.heap - {b}
  {
    var heap := s.heap - {b};
    assert heap.Keys == s.heap.Keys - {b} && |heap| == |heap.Keys| && |s.heap| == |s.heap.Keys|;
  }

  /** The next block in line is freed by its producer. */
  lemma UnwindStep(s: State, p: Pid, ps: ProducerState)
    requires HeapInv(s) && HeldByProducer(At(s, p)) != []
    requires HeldByProducer(ps) == HeldByProducer(At(s, p))[1..]
    ensures HeapInv(SetProducer(Free(s, HeldByProducer(At(s, p))[0], Producer(p)), p, ps))
  {
    var bs := HeldByProducer(At(s, p));
    assert Owns(s.heap, Producer(p), bs);
    FreeFirst(s.heap, Producer(p), bs);
    FreeCounts(s, bs[0], Producer(p));
    var s' := SetProducer(Free(s, bs[0], Producer(p)), p, ps);
    forall o, cs | o != Producer(p) && Owns(s.heap, o, cs) ensures Owns(s'.heap, o, cs) {
      FreeKeepsOther(s.heap, bs[0], Producer(p), o, cs);
    }
    ProducerStep(s, s', p);
  }

  lemma StrdupKeeps(s: State, p: Pid, addr: Option<Addr>)
    requires HeapInv(s) && Enabled(s, Strdup(p, addr))
    ensures HeapInv(Step(s, Strdup(p, addr)))
  {
    var ps := At(s, p);
    assert Owns(s.heap, Producer(p), HeldByProducer(ps));
    if addr.Some? {
      var bs, bs' := ps.copied + [ps.argv], ps.copied + [addr.value] + [ps.argv];
      assert NoDuplicates(bs') by {
        assert addr.value !in bs;
        forall i, j | 0 <= i < j < |bs'| ensures bs'[i] != bs'[j] {
          InsertedDiffers(ps.copied, addr.value, ps.argv, i, j);
        }
      }
      AllocStep(s, p, addr.value, ps.(copied := ps.copied + [addr.value]));
    } else {
      ProducerStep(s, Step(s, Strdup(p, addr)), p);
    }
  }

  lemma InsertedDiffers(bs: seq<Addr>, b: Addr, last: Addr, i: nat, j: nat)
    requires NoDuplicates(bs + [last]) && b !in bs + [last] && i < j < |bs| + 2
    ensures (bs + [b] + [last])[i] != (bs + [b] + [last])[j]
  {
    var cs := bs + [last];
    assert cs[|bs|] == last;
    assert forall k | 0 <= k < |bs| :: cs[k] == bs[k];
    assert b != last;
    if j == |bs| { assert bs[i] in bs && bs[i] in cs; }
  }

  lemma MallocKeeps(s: State, p: Pid, sh: Session, tool: Tool, argc: nat, addr: Option<Addr>)
    requires HeapInv(s) && Enabled(s, Malloc(p, sh, tool, argc, addr))
    ensures HeapInv(Step(s, Malloc(p, sh, tool, argc, addr)))
  {
    if addr.Some? {
      AllocStep(s, p, addr.value, Copying(sh, tool, argc, addr.value, []));
    }
  }

  lemma PermuteKeeps(s: State, args: seq<Addr>)
    requires HeapInv(s) && Enabled(s, ToolPermutes(args))
    ensures HeapInv(Step(s, ToolPermutes(args)))
  {
    Permuted(s.heap, Worker, s.worker.cmd.args + [s.worker.cmd.argv], args + [s.worker.cmd.argv]);
    WorkerReorders(s, Step(s, ToolPermutes(args)));
  }

  lemma UnwindKeeps(s: State, p: Pid)
    requires HeapInv(s) && At(s, p).Unwinding?
    ensures HeapInv(Step(s, Unwind(p)))
  {
    var ps := At(s, p);
    var bs := HeldByProducer(ps);
    if ps.left != [] {
      assert bs[1..] == ps.left[1..] + [ps.argv] && bs[0] == ps.left[0];
      assert Step(s, Unwind(p)) ==
             SetProducer(Free(s, bs[0], Producer(p)), p, Unwinding(ps.code, ps.argv, ps.left[1..]));
      UnwindStep(s, p, Unwinding(ps.code, ps.argv, ps.left[1..]));
    } else {
      assert bs == [ps.argv] && bs[1..] == [];
      UnwindStep(s, p, Idle);
    }
  }

  lemma PutKeeps(s: State, p: Pid)
    requires HeapInv(s) && Enabled(s, Put(p))
    ensures HeapInv(Step(s, Put(p)))
  {
    var s' := Step(s, Put(p));
    var ps := At(s, p);
    assert Owns(s.heap, Producer(p), HeldByProducer(ps));
    if s.queue == [] {
      TransferMoves(s, Producer(p), Queue, HeldByProducer(ps));
      assert HeldByQueue(s'.queue) == HeldByProducer(ps);
      forall q ensures Owns(s'.heap, Producer(q), HeldByProducer(At(s', q))) {
        assert Owns(s.heap, Producer(q), HeldByProducer(At(s, q)));
      }
    } else {
      ProducerStep(s, s', p);
    }
  }

  lemma GetKeeps(s: State)
    requires HeapInv(s) && |s.queue| <= 1 && Enabled(s, Get)
    ensures HeapInv(Step(s, Get))
  {
    var s' := Step(s, Get);
    TransferMoves(s, Queue, Worker, HeldByQueue(s.queue));
    forall q ensures Owns(s'.heap, Producer(q), HeldByProducer(At(s', q))) {
      assert Owns(s.heap, Producer(q), HeldByProducer(At(s, q)));
    }
  }

  /** A step that changes at most the order of the worker's blocks. */
  lemma WorkerReorders(s: State, s': State)
    requires HeapInv(s) && s'.heap == s.heap && s'.bad == s.bad && s'.allocs == s.allocs && s'.frees == s.frees
    requires s'.producers == s.producers && s'.queue == s.queue
    requires Owns(s.heap, Worker, HeldByWorker(s'.worker))
    ensures HeapInv(s')
  {
    forall q ensures Owns(s'.heap, Producer(q), HeldByProducer(At(s', q))) {
      assert Owns(s.heap, Producer(q), HeldByProducer(At(s, q)));
    }
  }

  lemma WorkerFreesKeeps(s: State)
    requires HeapInv(s) && Enabled(s, WorkerFrees)
    ensures HeapInv(Step(s, WorkerFrees))
  {
    var s' := Step(s, WorkerFrees);
    var cmd, left := s.worker.cmd, s.worker.left;
    var bs := HeldByWorker(s.worker);
    assert bs[1..] == if left != [] then left[1..] + [cmd.argv] else [];
    FreeFirst(s.heap, Worker, bs);
    FreeCounts(s, bs[0], Worker);
    forall o, cs | o != Worker && Owns(s.heap, o, cs) ensures Owns(s'.heap, o, cs) {
      FreeKeepsOther(s.heap, bs[0], Worker, o, cs);
    }
    forall q ensures Owns(s'.heap, Producer(q), HeldByProducer(At(s', q))) {
      assert Owns(s.heap, Producer(q), HeldByProducer(At(s, q)));
    }
  }

  lemma StepKeepsHeap(s: State, a: Action)
    requires HeapInv(s) && |s.queue| <= 1 && Enabled(s, a)
    ensures HeapInv(Step(s, a))
  {
    match a
    case Malloc(p, sh, tool, argc, addr) => MallocKeeps(s, p, sh, tool, argc, addr);
    case Strdup(p, addr) => StrdupKeeps(s, p, addr);
    case Put(p) => PutKeeps(s, p);
    case Unwind(p) => UnwindKeeps(s, p);
    case Get => GetKeeps(s);
    case ToolPermutes(args) => PermuteKeeps(s, args);
    case WorkerFrees => WorkerFreesKeeps(s);
    case _ => WorkerReorders(s, Step(s, a));
  }

  // ---- order of execution and session ----

  ghost function InWorker(w: WorkerState): seq<Job> {
    if w.Waiting? then [] else [w.cmd.job]
  }

  ghost function InQueue(q: seq<Cmd>): seq<Job> {
    if q == [] then [] else [q[0].job]
  }

  ghost function ShellOf(kind: Kind, w: WorkerState): Option<Session> {
    match w
    case Waiting => None
    case Got(_) => None
    case Running(cmd) => Some(cmd.job.sh)
    case Returned(cmd) => Some(cmd.job.sh)
    case Freeing(cmd, _) => if kind.I2cTools? then Some(cmd.job.sh) else None
    case Freed(cmd) => Some(cmd.job.sh)
  }

  ghost predicate OrderInv(s: State) {
    && |s.queue| <= 1
    && s.accepted == s.retired + InWorker(s.worker) + InQueue(s.queue)
    && s.started == s.retired + (if s.worker.Got? then [] else InWorker(s.worker))
    && (forall i | 0 <= i < |s.accepted| :: s.accepted[i].id == i)
    && s.shell == ShellOf(s.kind, s.worker)
    && (s.worker.Freed? ==> s.kind.I2cTools?)
    && (s.deviceOpen ==> s.kind.I2cTools? && (s.worker.Running? || s.worker.Returned?))
  }

  lemma PutKeepsOrder(s: State, p: Pid)
    requires OrderInv(s) && Enabled(s, Put(p))
    ensures OrderInv(Step(s, Put(p)))
  {
    var s' := Step(s, Put(p));
    if s.queue == [] {
      assert s'.accepted == s.retired + InWorker(s.worker) + [s'.queue[0].job];
    }
  }

  lemma ProducerKeepsOrder(s: State, a: Action)
    requires OrderInv(s) && Enabled(s, a) && (a.Malloc? || a.Strdup? || a.Unwind?)
    ensures OrderInv(Step(s, a))
  {
  }

  lemma WorkerKeepsOrder(s: State, a: Action)
    requires OrderInv(s) && Enabled(s, a) && (a.Get? || a.StartTool?)
    ensures OrderInv(Step(s, a))
  {
  }

  lemma FreeingKeepsOrder(s: State, a: Action)
    requires OrderInv(s) && Enabled(s, a) && a.WorkerFrees?
    ensures OrderInv(Step(s, a))
  {
  }

  lemma ClearingKeepsOrder(s: State, a: Action)
    requires OrderInv(s) && Enabled(s, a) && a.ClearShell?
    ensures OrderInv(Step(s, a))
  {
  }

  lemma ToolKeepsOrder(s: State, a: Action)
    requires OrderInv(s) && Enabled(s, a)
    requires a.ToolPermutes? || a.ToolOpensDevice? || a.ToolReturns? || a.ToolExits? || a.AfterTool?
    ensures OrderInv(Step(s, a))
  {
  }

  lemma StepKeepsOrder(s: State, a: Action)
    requires OrderInv(s) && Enabled(s, a)
    ensures OrderInv(Step(s, a)) && Step(s, a).kind == s.kind
  {
    if a.Put? {
      PutKeepsOrder(s, a.p);
    } else if a.Malloc? || a.Strdup? || a.Unwind? {
      ProducerKeepsOrder(s, a);
    } else if a.Get? || a.StartTool? {
      WorkerKeepsOrder(s, a);
    } else if a.WorkerFrees? {
      FreeingKeepsOrder(s, a);
    } else if a.ClearShell? {
      ClearingKeepsOrder(s, a);
    } else {
      ToolKeepsOrder(s, a);
    }
  }

  // ---- runs ----

  ghost predicate Inv(s: State) {
    HeapInv(s) && OrderInv(s)
  }

  lemma StepKeeps(s: State, a: Action)
    requires Inv(s) && Enabled(s, a)
    ensures Inv(Step(s, a)) && Step(s, a).kind == s.kind
  {
    StepKeepsHeap(s, a);
    StepKeepsOrder(s, a);
  }

  ghost predicate Possible(s: State, actions: seq<Action>)
    decreases |actions|
  {
    actions == [] || (Enabled(s, actions[0]) && Possible(Step(s, actions[0]), actions[1..]))
  }

  ghost function Run(s: State, actions: seq<Action>): State
    requires Possible(s, actions)
    decreases |actions|
  {
    if actions == [] then s else Run(Step(s, actions[0]), actions[1..])
  }

  lemma {:induction false} RunKeeps(s: State, actions: seq<Action>)
    requires Possible(s, actions) && Inv(s)
    ensures Inv(Run(s, actions)) && Run(s, actions).kind == s.kind
    decreases |actions|
  {
    if actions != [] {
      StepKeeps(s, actions[0]);
      RunKeeps(Step(s, actions[0]), actions[1..]);
    }
  }

  lemma Reached(kind: Kind, actions: seq<Action>)
    requires Possible(Init(kind), actions)
    ensures Inv(Run(Init(kind), actions)) && Run(Init(kind), actions).kind == kind
  {
    RunKeeps(Init(kind), actions);
  }

  /** Ownership: whatever the interleaving, no block is freed twice or by somebody
      it does not belong to, every live block is still in the hands of exactly one
      producer, the queue or the worker, and once all of them are done nothing is
      left: what was allocated has been freed. */
  lemma EveryBlockFreedOnce(kind: Kind, actions: seq<Action>)
    requires Possible(Init(kind), actions)
    ensures var s := Run(Init(kind), actions);
            && s.bad == 0
            && s.allocs - s.frees == |s.heap|
            && (forall b | b in s.heap :: b in HeldBy(s, s.heap[b]))
            && ((forall p :: At(s, p).Idle?) && s.queue == [] && s.worker.Waiting? ==>
                  s.heap == map[] && s.allocs == s.frees)
  {
    Reached(kind, actions);
    NothingLost(Run(Init(kind), actions));
  }

  function HeldBy(s: State, o: Owner): seq<Addr> {
    match o
    case Producer(p) => HeldByProducer(At(s, p))
    case Queue => HeldByQueue(s.queue)
    case Worker => HeldByWorker(s.worker)
  }

  lemma NothingLost(s: State)
    requires HeapInv(s)
    ensures forall b | b in s.heap :: b in HeldBy(s, s.heap[b])
    ensures (forall p :: At(s, p).Idle?) && s.queue == [] && s.worker.Waiting? ==>
              s.heap == map[] && s.allocs == s.frees
  {
    forall b | b in s.heap ensures b in HeldBy(s, s.heap[b]) {
      assert Owns(s.heap, s.heap[b], HeldBy(s, s.heap[b]));
    }
    if (forall p :: At(s, p).Idle?) && s.queue == [] && s.worker.Waiting? {
      assert forall o :: HeldBy(s, o) == [];
      assert s.heap == map[];
    }
  }

  /** Serial execution: commands start and retire one at a time in the order in
      which they were accepted, and at most two accepted ones are unretired. */
  lemma SerialInOrder(kind: Kind, actions: seq<Action>)
    requires Possible(Init(kind), actions)
    ensures var s := Run(Init(kind), actions);
            && s.retired <= s.started <= s.accepted
            && |s.started| <= |s.retired| + 1
            && |s.accepted| <= |s.retired| + 2
            && (forall i | 0 <= i < |s.accepted| :: s.accepted[i].id == i)
  {
    Reached(kind, actions);
    InOrder(Run(Init(kind), actions));
  }

  lemma InOrder(s: State)
    requires OrderInv(s)
    ensures s.retired <= s.started <= s.accepted
    ensures |s.started| <= |s.retired| + 1 && |s.accepted| <= |s.retired| + 2
    ensures !s.worker.Waiting? ==>
              |s.retired| < |s.accepted| && s.accepted[|s.retired|] == s.worker.cmd.job
  {
    assert s.retired + [] == s.retired;
  }

  /** Session routing: while a tool runs the global shell is that of its own
      command, which is the oldest accepted one not retired; while the worker
      waits it is null; and a tool starts with no device left open by another. */
  lemma SessionRouting(kind: Kind, actions: seq<Action>)
    requires Possible(Init(kind), actions)
    ensures var s := Run(Init(kind), actions);
            && (s.worker.Waiting? ==> s.shell == None)
            && (s.worker.Running? ==>
                  && s.shell == Some(s.worker.cmd.job.sh)
                  && |s.retired| < |s.accepted| && s.accepted[|s.retired|] == s.worker.cmd.job)
            && (Enabled(s, StartTool) ==> !s.deviceOpen)
  {
    Reached(kind, actions);
    InOrder(Run(Init(kind), actions));
  }

  /** A producer is refused exactly when a command is waiting in the queue. The
      worker being busy is neither needed nor enough. */
  lemma RefusedIff(s: State, p: Pid)
    requires OrderInv(s) && Enabled(s, Put(p))
    ensures var s' := Step(s, Put(p));
            && (s'.accepted == s.accepted <==> |s.accepted| == |s.retired| + |InWorker(s.worker)| + 1)
            && (s'.accepted == s.accepted ==> At(s', p) == Unwinding(-EBUSY, At(s, p).argv, At(s, p).copied))
            && (s'.accepted != s.accepted ==>
                  s'.queue[0].args == At(s, p).copied && s'.queue[0].job.sh == At(s, p).sh && At(s', p).Idle?)
  {
    assert s.queue == [] <==> InQueue(s.queue) == [];
  }

  lemma {:induction false} OneMoreStep(s: State, actions: seq<Action>, a: Action)
    requires Possible(s, actions) && Enabled(Run(s, actions), a)
    ensures Possible(s, actions + [a]) && Run(s, actions + [a]) == Step(Run(s, actions), a)
    decreases |actions|
  {
    if actions == [] {
      assert [a][1..] == [];
    } else {
      assert (actions + [a])[1..] == actions[1..] + [a];
      OneMoreStep(Step(s, actions[0]), actions[1..], a);
    }
  }

  /** The first command of a run: copied and accepted. */
  lemma FirstCommand(kind: Kind, p: Pid, sh: Session, b: Addr) returns (actions: seq<Action>)
    ensures Possible(Init(kind), actions)
    ensures var s := Run(Init(kind), actions);
            && s.worker.Waiting? && s.queue == [Cmd(Job(0, sh, 0, 0), b, [])] && s.accepted == [Job(0, sh, 0, 0)]
            && s.heap == map[b := Queue] && s.producers == map[p := Idle]
  {
    OneMoreStep(Init(kind), [], Malloc(p, sh, 0, 0, Some(b)));
    actions := [] + [Malloc(p, sh, 0, 0, Some(b))];
    OneMoreStep(Init(kind), actions, Put(p));
    actions := actions + [Put(p)];
  }

  /** That the worker is busy is not enough for a refusal: a run to a state in which
      a tool is running and the next command is accepted. */
  lemma BusyWorkerAccepts(kind: Kind, p: Pid, q: Pid, sh1: Session, sh2: Session, b1: Addr, b2: Addr)
    returns (actions: seq<Action>)
    requires b1 != b2
    ensures Possible(Init(kind), actions)
    ensures var s := Run(Init(kind), actions);
            && s.worker.Running? && Enabled(s, Put(q))
            && Step(s, Put(q)).accepted == s.accepted + [Job(1, sh2, 0, 0)]
  {
    actions := FirstCommand(kind, p, sh1, b1);
    OneMoreStep(Init(kind), actions, Get);
    actions := actions + [Get];
    OneMoreStep(Init(kind), actions, StartTool);
    actions := actions + [StartTool];
    OneMoreStep(Init(kind), actions, Malloc(q, sh2, 0, 0, Some(b2)));
    actions := actions + [Malloc(q, sh2, 0, 0, Some(b2))];
  }

  /** Nor is it needed: a run to a state in which the worker waits and the next
      command is refused. */
  lemma WaitingWorkerRefuses(kind: Kind, p: Pid, q: Pid, sh1: Session, sh2: Session, b1: Addr, b2: Addr)
    returns (actions: seq<Action>)
    requires b1 != b2
    ensures Possible(Init(kind), actions)
    ensures var s := Run(Init(kind), actions);
            && s.worker.Waiting? && Enabled(s, Put(q))
            && Step(s, Put(q)).accepted == s.accepted && At(Step(s, Put(q)), q).Unwinding?
  {
    actions := FirstCommand(kind, p, sh1, b1);
    OneMoreStep(Init(kind), actions, Malloc(q, sh2, 0, 0, Some(b2)));
    actions := actions + [Malloc(q, sh2, 0, 0, Some(b2))];
  }

  /** How many steps of its own the worker has left for the command in hand. */
  ghost function WorkLeft(kind: Kind, w: WorkerState): nat {
    match w
    case Waiting => 0
    case Got(cmd) => |cmd.args| + 6
    case Running(cmd) => |cmd.args| + 5
    case Returned(cmd) => |cmd.args| + 4
    case Freeing(_, left) => |left| + 2
    case Freed(_) => 1
  }

  predicate IsWorkerAction(a: Action) {
    a.Get? || a.StartTool? || a.ToolReturns? || a.AfterTool? || a.WorkerFrees? || a.ClearShell?
  }

  /** What the worker does next when its tool just returns. */
  function NextAction(w: WorkerState): Action {
    match w
    case Waiting => Get
    case Got(_) => StartTool
    case Running(_) => ToolReturns
    case Returned(_) => AfterTool
    case Freeing(_, _) => WorkerFrees
    case Freed(_) => ClearShell
  }

  /** With a command in hand or in the queue the worker always has a move that takes
      the next command or brings the one in hand closer to being retired. */
  lemma WorkerMakesProgress(s: State)
    requires OrderInv(s) && (!s.worker.Waiting? || s.queue != [])
    ensures var a := NextAction(s.worker);
            && IsWorkerAction(a) && Enabled(s, a)
            && Step(s, a).producers == s.producers && Step(s, a).accepted == s.accepted
            && if a.Get? then Step(s, a).queue == []
               else Step(s, a).queue == s.queue &&
                    WorkLeft(s.kind, Step(s, a).worker) < WorkLeft(s.kind, s.worker)
  {
  }

  /** `s'` is where the worker gets by itself: all accepted commands are retired. */
  ghost predicate Drained(s: State, s': State) {
    && s'.worker.Waiting? && s'.queue == []
    && s'.producers == s.producers && s'.accepted == s.accepted && s'.retired == s.accepted
  }

  lemma {:induction false} WorkerDrains(s: State) returns (actions: seq<Action>)
    requires OrderInv(s)
    ensures Possible(s, actions) && (forall a | a in actions :: IsWorkerAction(a))
    ensures Drained(s, Run(s, actions))
    decreases |s.queue|, WorkLeft(s.kind, s.worker)
  {
    if s.worker.Waiting? && s.queue == [] {
      actions := [];
    } else {
      var a := NextAction(s.worker);
      WorkerMakesProgress(s);
      StepKeepsOrder(s, a);
      var rest := WorkerDrains(Step(s, a));
      actions := [a] + rest;
      assert actions[1..] == rest;
    }
  }

  /** Nothing is ever stuck: from every reachable state the worker can by itself
      retire all accepted commands, and then, if no producer is at work, no block is
      left. */
  lemma AlwaysDrains(kind: Kind, actions: seq<Action>) returns (more: seq<Action>)
    requires Possible(Init(kind), actions)
    ensures var s := Run(Init(kind), actions);
            && Possible(s, more) && (forall a | a in more :: IsWorkerAction(a))
            && Drained(s, Run(s, more))
            && ((forall p :: At(s, p).Idle?) ==> Run(s, more).heap == map[])
  {
    var s := Run(Init(kind), actions);
    Reached(kind, actions);
    more := WorkerDrains(s);
    RunKeeps(s, more);
    NothingLost(Run(s, more));
  }
}
