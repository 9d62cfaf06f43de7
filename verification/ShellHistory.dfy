/** What a tool is given, and what a producer's caller is told, in terms of the
    actions of the run alone. */
module ShellHistory {
  import opened Common
  import opened ShellWorker

  // ---- the last action of a run ----

  lemma {:induction false} SplitLast(s: State, actions: seq<Action>, a: Action)
    requires Possible(s, actions + [a])
    ensures Possible(s, actions) && Enabled(Run(s, actions), a)
    ensures Run(s, actions + [a]) == Step(Run(s, actions), a)
    decreases |actions|
  {
    var all := actions + [a];
    if actions == [] {
      assert all == [a] && [a][1..] == [];
    } else {
      assert all[0] == actions[0] && all[1..] == actions[1..] + [a];
      SplitLast(Step(s, actions[0]), actions[1..], a);
    }
  }

  // ---- what a producer has done for its command ----

  predicate IsOf(a: Action, p: Pid) {
    match a
    case Malloc(q, _, _, _, _) => q == p
    case Strdup(q, _) => q == p
    case Put(q) => q == p
    case _ => false
  }

  /** The actions of a producer from its last successful Malloc on, without the
      frees after a failure. */
  function Since(actions: seq<Action>, p: Pid): seq<Action> {
    if actions == [] then []
    else
      var a := actions[|actions| - 1];
      var before := Since(actions[..|actions| - 1], p);
      if !IsOf(a, p) then before
      else if a.Malloc? && a.addr.Some? then [a]
      else before + [a]
  }

  function Copies(p: Pid, args: seq<Addr>): seq<Action> {
    seq(|args|, i requires 0 <= i < |args| => Strdup(p, Some(args[i])))
  }

  /** The command that a producer has put together: the session, the tool and the
      number of arguments are those of its Malloc, whose block is the argv block,
      and the arguments are the blocks of its copies, in that order. */
  ghost predicate IsCommand(since: seq<Action>, p: Pid, c: Cmd) {
    && since == [Malloc(p, c.job.sh, c.job.tool, c.job.argc, Some(c.argv))] + Copies(p, c.args)
    && |c.args| == c.job.argc
  }

  /** What a producer's state says of its actions. */
  ghost predicate Remembers(since: seq<Action>, p: Pid, ps: ProducerState) {
    match ps
    case Idle => true
    case Copying(sh, tool, argc, argv, copied) =>
      since == [Malloc(p, sh, tool, argc, Some(argv))] + Copies(p, copied) && |copied| <= argc
    case Unwinding(code, _, _) =>
      since != [] &&
      match since[|since| - 1]
      case Put(_) => code == -EBUSY
      case Strdup(_, addr) => addr.None? && code == -ENOMEM
      case _ => false
  }

  lemma SinceLast(actions: seq<Action>, a: Action, p: Pid)
    ensures Since(actions + [a], p) ==
            if !IsOf(a, p) then Since(actions, p)
            else if a.Malloc? && a.addr.Some? then [a]
            else Since(actions, p) + [a]
  {
    assert (actions + [a])[..|actions|] == actions;
  }

  lemma CopiesLast(p: Pid, args: seq<Addr>, b: Addr)
    ensures Copies(p, args + [b]) == Copies(p, args) + [Strdup(p, Some(b))]
  {
  }

  /** An action that is not the producer's own changes nothing it remembers. */
  lemma OtherRemembers(s: State, a: Action, p: Pid)
    requires Enabled(s, a) && !IsOf(a, p) && !(a.Unwind? && a.p == p)
    ensures At(Step(s, a), p) == At(s, p)
  {
  }

  lemma MallocRemembers(s: State, since: seq<Action>, a: Action, p: Pid)
    requires Enabled(s, a) && a.Malloc? && a.p == p && Remembers(since, p, At(s, p))
    ensures Remembers(if a.addr.Some? then [a] else since + [a], p, At(Step(s, a), p))
  {
    assert Copies(p, []) == [];
  }

  lemma StrdupRemembers(s: State, since: seq<Action>, a: Action, p: Pid)
    requires Enabled(s, a) && a.Strdup? && a.p == p && Remembers(since, p, At(s, p))
    ensures Remembers(since + [a], p, At(Step(s, a), p))
  {
    if a.addr.Some? {
      CopiesLast(p, At(s, p).copied, a.addr.value);
    }
  }

  lemma PutRemembers(s: State, since: seq<Action>, a: Action, p: Pid)
    requires Enabled(s, a) && a.Put? && a.p == p
    ensures Remembers(since + [a], p, At(Step(s, a), p))
  {
  }

  lemma UnwindRemembers(s: State, since: seq<Action>, p: Pid)
    requires At(s, p).Unwinding? && Remembers(since, p, At(s, p))
    ensures Remembers(since, p, At(Step(s, Unwind(p)), p))
  {
  }

  lemma StepRemembers(s: State, actions: seq<Action>, a: Action, p: Pid)
    requires Enabled(s, a) && Remembers(Since(actions, p), p, At(s, p))
    ensures Remembers(Since(actions + [a], p), p, At(Step(s, a), p))
  {
    SinceLast(actions, a, p);
    if a.Malloc? && a.p == p {
      MallocRemembers(s, Since(actions, p), a, p);
    } else if a.Strdup? && a.p == p {
      StrdupRemembers(s, Since(actions, p), a, p);
    } else if a.Put? && a.p == p {
      PutRemembers(s, Since(actions, p), a, p);
    } else if a.Unwind? && a.p == p {
      UnwindRemembers(s, Since(actions, p), p);
    } else {
      OtherRemembers(s, a, p);
    }
  }

  lemma {:induction false} RunRemembers(kind: Kind, actions: seq<Action>, p: Pid)
    requires Possible(Init(kind), actions)
    ensures Remembers(Since(actions, p), p, At(Run(Init(kind), actions), p))
    decreases |actions|
  {
    if actions != [] {
      var init, a := actions[..|actions| - 1], actions[|actions| - 1];
      assert actions == init + [a];
      SplitLast(Init(kind), init, a);
      RunRemembers(kind, init, p);
      StepRemembers(Run(Init(kind), init), init, a, p);
    }
  }

  // ---- accepted commands ----

  /** The k-th action is the acceptance of the i-th command, and `c` is what its
      producer has put together until then. */
  ghost predicate AcceptedBy(kind: Kind, actions: seq<Action>, k: nat, p: Pid, i: nat, c: Cmd) {
    && k < |actions| && actions[k] == Put(p) && Possible(Init(kind), actions[..k])
    && |Run(Init(kind), actions[..k]).accepted| == i && Run(Init(kind), actions[..k]).queue == []
    && IsCommand(Since(actions[..k], p), p, c) && c.job.id == i
  }

  ghost predicate AcceptedAs(kind: Kind, actions: seq<Action>, i: nat, c: Cmd) {
    exists k: nat, p :: AcceptedBy(kind, actions, k, p, i, c)
  }

  lemma AcceptedStays(kind: Kind, actions: seq<Action>, a: Action, i: nat, c: Cmd)
    requires AcceptedAs(kind, actions, i, c)
    ensures AcceptedAs(kind, actions + [a], i, c)
  {
    var k: nat, p :| AcceptedBy(kind, actions, k, p, i, c);
    assert (actions + [a])[..k] == actions[..k];
    assert AcceptedBy(kind, actions + [a], k, p, i, c);
  }

  /** What is put into the queue is what the producer has put together. */
  lemma PutAccepts(kind: Kind, actions: seq<Action>, p: Pid)
    requires Possible(Init(kind), actions) && Enabled(Run(Init(kind), actions), Put(p))
    requires Run(Init(kind), actions).queue == []
    ensures var s := Run(Init(kind), actions);
            AcceptedAs(kind, actions + [Put(p)], |s.accepted|, Step(s, Put(p)).queue[0])
  {
    var s := Run(Init(kind), actions);
    var all := actions + [Put(p)];
    RunRemembers(kind, actions, p);
    assert all[..|actions|] == actions;
    assert AcceptedBy(kind, all, |actions|, p, |s.accepted|, Step(s, Put(p)).queue[0]);
  }

  /** The same command, but for the order of its arguments, which the tool may
      change. */
  ghost predicate SameButOrder(c: Cmd, d: Cmd) {
    c.job == d.job && c.argv == d.argv && multiset(c.args) == multiset(d.args)
  }

  ghost predicate Traced(kind: Kind, actions: seq<Action>, s: State) {
    && (s.queue != [] ==> |s.accepted| > 0 && AcceptedAs(kind, actions, |s.accepted| - 1, s.queue[0]))
    && WorkerTraced(kind, actions, s)
  }

  ghost predicate TracedButOrder(kind: Kind, actions: seq<Action>, i: nat, c: Cmd) {
    exists d :: AcceptedAs(kind, actions, i, d) && SameButOrder(c, d)
  }

  lemma TracedStays(kind: Kind, actions: seq<Action>, a: Action, i: nat, c: Cmd, c': Cmd)
    requires TracedButOrder(kind, actions, i, c) && SameButOrder(c', c)
    ensures TracedButOrder(kind, actions + [a], i, c')
  {
    var d :| AcceptedAs(kind, actions, i, d) && SameButOrder(c, d);
    AcceptedStays(kind, actions, a, i, d);
    assert SameButOrder(c', d);
  }

  lemma GotStays(kind: Kind, actions: seq<Action>, a: Action, i: nat, c: Cmd)
    requires AcceptedAs(kind, actions, i, c)
    ensures AcceptedAs(kind, actions + [a], i, c) && TracedButOrder(kind, actions + [a], i, c)
  {
    AcceptedStays(kind, actions, a, i, c);
    assert SameButOrder(c, c);
  }

  /** The commands in hand, and what has been accepted and retired, are as before or
      as after a step of the worker. */
  ghost predicate CommandKept(s: State, s': State) {
    && s'.queue == s.queue && s'.accepted == s.accepted
    && (!s'.worker.Waiting? ==>
          && !s.worker.Waiting? && s'.retired == s.retired
          && SameButOrder(s'.worker.cmd, s.worker.cmd)
          && (s.worker.Got? ==> s'.worker.cmd == s.worker.cmd)
          && (s'.worker.Got? ==> s.worker.Got?))
  }

  lemma ProducerKeepsCommand(s: State, a: Action)
    requires Enabled(s, a) && (a.Malloc? || a.Strdup? || a.Unwind?)
    ensures CommandKept(s, Step(s, a))
  {
  }

  lemma WorkerKeepsCommand(s: State, a: Action)
    requires Enabled(s, a) && (a.WorkerFrees? || a.AfterTool? || a.ClearShell? || a.StartTool?)
    ensures CommandKept(s, Step(s, a))
  {
  }

  lemma ToolLeavesCommand(s: State, a: Action)
    requires Enabled(s, a) && (a.ToolPermutes? || a.ToolOpensDevice? || a.ToolReturns? || a.ToolExits?)
    ensures CommandKept(s, Step(s, a))
  {
  }

  /** What an action other than Get and Put does to the commands in hand. */
  lemma CommandStays(s: State, a: Action)
    requires Enabled(s, a) && !a.Get? && !a.Put?
    ensures CommandKept(s, Step(s, a))
  {
    if a.Malloc? || a.Strdup? || a.Unwind? {
      ProducerKeepsCommand(s, a);
    } else if a.ToolPermutes? || a.ToolOpensDevice? || a.ToolReturns? || a.ToolExits? {
      ToolLeavesCommand(s, a);
    } else {
      WorkerKeepsCommand(s, a);
    }
  }

  ghost predicate WorkerTraced(kind: Kind, actions: seq<Action>, s: State) {
    match s.worker
    case Waiting => true
    case Got(cmd) => AcceptedAs(kind, actions, |s.retired|, cmd)
    case Running(cmd) => TracedButOrder(kind, actions, |s.retired|, cmd)
    case Returned(cmd) => TracedButOrder(kind, actions, |s.retired|, cmd)
    case Freeing(cmd, _) => TracedButOrder(kind, actions, |s.retired|, cmd)
    case Freed(cmd) => TracedButOrder(kind, actions, |s.retired|, cmd)
  }

  lemma WorkerStaysTraced(kind: Kind, actions: seq<Action>, a: Action, s: State, s': State)
    requires WorkerTraced(kind, actions, s) && !s'.worker.Waiting? && !s.worker.Waiting?
    requires s'.retired == s.retired && SameButOrder(s'.worker.cmd, s.worker.cmd)
    requires s.worker.Got? ==> s'.worker.cmd == s.worker.cmd
    requires s'.worker.Got? ==> s.worker.Got?
    ensures WorkerTraced(kind, actions + [a], s')
  {
    if s.worker.Got? {
      GotStays(kind, actions, a, |s.retired|, s.worker.cmd);
    } else {
      TracedStays(kind, actions, a, |s.retired|, s.worker.cmd, s'.worker.cmd);
    }
  }

  /** An action that takes nothing from the queue and puts nothing into it. */
  lemma OthersTraced(kind: Kind, actions: seq<Action>, a: Action)
    requires Possible(Init(kind), actions) && Enabled(Run(Init(kind), actions), a)
    requires Traced(kind, actions, Run(Init(kind), actions)) && !a.Get? && !a.Put?
    ensures Traced(kind, actions + [a], Step(Run(Init(kind), actions), a))
  {
    var s := Run(Init(kind), actions);
    CommandStays(s, a);
    if s.queue != [] { AcceptedStays(kind, actions, a, |s.accepted| - 1, s.queue[0]); }
    if !Step(s, a).worker.Waiting? { WorkerStaysTraced(kind, actions, a, s, Step(s, a)); }
  }

  lemma PutTraced(kind: Kind, actions: seq<Action>, p: Pid)
    requires Possible(Init(kind), actions) && Enabled(Run(Init(kind), actions), Put(p))
    requires Traced(kind, actions, Run(Init(kind), actions))
    ensures Traced(kind, actions + [Put(p)], Step(Run(Init(kind), actions), Put(p)))
  {
    var s := Run(Init(kind), actions);
    if s.queue == [] {
      PutAccepts(kind, actions, p);
    } else {
      AcceptedStays(kind, actions, Put(p), |s.accepted| - 1, s.queue[0]);
    }
    if !s.worker.Waiting? { WorkerStaysTraced(kind, actions, Put(p), s, Step(s, Put(p))); }
  }

  lemma OneIsWaiting(kind: Kind, actions: seq<Action>)
    requires Possible(Init(kind), actions)
    ensures var s := Run(Init(kind), actions);
            s.worker.Waiting? && s.queue != [] ==> |s.accepted| == |s.retired| + 1
  {
    Reached(kind, actions);
  }

  lemma GetTraced(kind: Kind, actions: seq<Action>)
    requires Possible(Init(kind), actions) && Enabled(Run(Init(kind), actions), Get)
    requires Traced(kind, actions, Run(Init(kind), actions))
    ensures Traced(kind, actions + [Get], Step(Run(Init(kind), actions), Get))
  {
    var s := Run(Init(kind), actions);
    OneIsWaiting(kind, actions);
    AcceptedStays(kind, actions, Get, |s.accepted| - 1, s.queue[0]);
  }

  lemma {:induction false} RunTraced(kind: Kind, actions: seq<Action>)
    requires Possible(Init(kind), actions)
    ensures Traced(kind, actions, Run(Init(kind), actions))
    decreases |actions|
  {
    if actions != [] {
      var init, a := actions[..|actions| - 1], actions[|actions| - 1];
      assert actions == init + [a];
      SplitLast(Init(kind), init, a);
      RunTraced(kind, init);
      if a.Put? {
        PutTraced(kind, init, a.p);
      } else if a.Get? {
        GetTraced(kind, init);
      } else {
        OthersTraced(kind, init, a);
      }
    }
  }

  /** Delivery: the command that a tool is started with is the next one in the order
      of acceptance, exactly as its producer has put it together: for the session,
      with the tool and the number of arguments of its Malloc, and with the copies
      made since then, all of them, in that order. */
  lemma ToolGetsCommand(kind: Kind, actions: seq<Action>)
    requires Possible(Init(kind), actions) && Enabled(Run(Init(kind), actions), StartTool)
    ensures var s := Run(Init(kind), actions);
            var s' := Step(s, StartTool);
            && s'.worker.Running? && AcceptedAs(kind, actions, |s.started|, s'.worker.cmd)
            && s'.started == s.started + [s'.worker.cmd.job] && s'.shell == Some(s'.worker.cmd.job.sh)
  {
    RunTraced(kind, actions);
    Reached(kind, actions);
  }

  /** While it runs it may change the order of the arguments, and nothing else. */
  lemma ToolKeepsCommand(kind: Kind, actions: seq<Action>)
    requires Possible(Init(kind), actions) && Run(Init(kind), actions).worker.Running?
    ensures var s := Run(Init(kind), actions);
            TracedButOrder(kind, actions, |s.retired|, s.worker.cmd)
  {
    RunTraced(kind, actions);
  }

  // ---- what the caller is told ----

  /** What i2c_tool_enqueue or cmd_busctl returns with an action, if it returns. */
  function Answer(s: State, a: Action): Option<int>
    requires Enabled(s, a)
  {
    match a
    case Malloc(_, _, _, _, addr) => if addr.None? then Some(-ENOMEM) else None
    case Put(_) => if s.queue == [] then Some(0) else None
    case Unwind(p) => if At(s, p).left == [] then Some(At(s, p).code) else None
    case _ => None
  }

  /** A caller is told 0 exactly when its command has been accepted; that the program
      is busy exactly when its command has been refused; and that memory is short
      exactly when an allocation for it has failed. It is told so when nothing of the
      command is left with the producer. */
  lemma AnswerIsRight(kind: Kind, actions: seq<Action>, a: Action)
    requires Possible(Init(kind), actions) && Enabled(Run(Init(kind), actions), a)
    ensures var s := Run(Init(kind), actions);
            var answer := Answer(s, a);
            && (answer == Some(0) <==> a.Put? && |Step(s, a).accepted| > |s.accepted|)
            && (a.Unwind? && answer.Some? ==>
                  var since := Since(actions, a.p);
                  && since != []
                  && match since[|since| - 1]
                     case Put(_) => answer == Some(-EBUSY)
                     case Strdup(_, addr) => addr.None? && answer == Some(-ENOMEM)
                     case _ => false)
            && (a.Malloc? ==> answer == if a.addr.None? then Some(-ENOMEM) else None)
            && (answer.Some? && !a.Malloc? ==> (a.Put? || a.Unwind?) && At(Step(s, a), a.p).Idle?)
  {
    if a.Unwind? {
      RunRemembers(kind, actions, a.p);
    }
  }
}
