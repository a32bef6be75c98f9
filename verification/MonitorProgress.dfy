/** Nothing hangs: some task can always go on, and every task comes to its end. */
module MonitorProgress {
  import opened Models
  import opened AlertProtocol
  import opened Monitor
  import opened MonitorLocks
  import opened MonitorPermits
  import opened MonitorShares
  import opened MonitorRuns

  /** Steps in which the network, the store and the notifier just answer. */
  predicate Ordinary(step: TaskStep) {
    !step.Abort? && (step.Continue? ==> step.move in {Save, Send, Mark})
  }

  function Rank(pc: Pc): nat {
    match pc
    case Requested => MAX_POSTS + 7
    case Queued => MAX_POSTS + 6
    case WantsPermit => MAX_POSTS + 5
    case Requesting => MAX_POSTS + 4
    case LoadingState(_) => MAX_POSTS + 3
    case SavingState => MAX_POSTS + 2
    case SendingAlert(_, more) => more + 2
    case SavingMark => 1
    case RemovalRequested => 3
    case RemovalQueued => 2
    case Removing => 1
    case Done => 0
  }

  function Work(tasks: seq<Task>): nat {
    if tasks == [] then 0 else Work(tasks[..|tasks|-1]) + Rank(tasks[|tasks|-1].pc)
  }

  lemma {:induction false} WorkUpdate(tasks: seq<Task>, t: nat, task: Task)
    requires t < |tasks|
    ensures Work(tasks[t := task]) == Work(tasks) - Rank(tasks[t].pc) + Rank(task.pc)
  {
    var n := |tasks| - 1;
    if t < n {
      WorkUpdate(tasks[..n], t, task);
      assert tasks[t := task][..n] == tasks[..n][t := task];
    } else {
      assert tasks[t := task][..n] == tasks[..n];
    }
  }

  lemma {:induction false} NoWorkMeansDone(tasks: seq<Task>)
    requires Work(tasks) == 0
    ensures forall t :: 0 <= t < |tasks| ==> tasks[t].pc == Done
  {
    if tasks == [] {
    } else {
      NoWorkMeansDone(tasks[..|tasks|-1]);
      forall t | 0 <= t < |tasks| ensures tasks[t].pc == Done {
        if t < |tasks| - 1 {
          assert tasks[t] == tasks[..|tasks|-1][t];
        }
      }
    }
  }

  lemma {:induction false} WorkMeansSomeoneIsNotDone(tasks: seq<Task>)
    requires Work(tasks) > 0
    ensures exists t: nat :: t < |tasks| && tasks[t].pc != Done
  {
    var n := |tasks| - 1;
    if tasks[n].pc == Done {
      WorkMeansSomeoneIsNotDone(tasks[..n]);
      var t: nat :| t < n && tasks[..n][t].pc != Done;
      assert tasks[t].pc != Done;
    }
  }

  lemma LandingLowersRank(s: System, t: nat, m: Move)
    requires t < |s.tasks| && StepEnabled(s, t, Continue(m))
    ensures Rank(Moved(s, t, m).tasks[t].pc) < Rank(s.tasks[t].pc)
  {
  }

  /** Every step of a task, ordinary or not, brings it closer to its end and moves no other task. */
  lemma StepLowersWork(s: System, t: nat, step: TaskStep)
    requires t < |s.tasks| && StepEnabled(s, t, step)
    ensures Work(Stepped(s, t, step).tasks) < Work(s.tasks)
  {
    StepIsLocal(s, t, step);
    var r := Stepped(s, t, step);
    assert r.tasks == s.tasks[t := r.tasks[t]];
    WorkUpdate(s.tasks, t, r.tasks[t]);
    StepLowersRank(s, t, step);
  }

  lemma RespondingLowersRank(s: System, t: nat, result: CheckResult)
    requires t < |s.tasks| && StepEnabled(s, t, Respond(result))
    ensures Rank(Responded(s, t, result).tasks[t].pc) < Rank(s.tasks[t].pc)
  {
  }

  lemma AcquiringLowersRank(s: System, t: nat)
    requires t < |s.tasks| && StepEnabled(s, t, Acquire)
    ensures Rank(Acquired(s, t).tasks[t].pc) < Rank(s.tasks[t].pc)
  {
  }

  lemma StepLowersRank(s: System, t: nat, step: TaskStep)
    requires t < |s.tasks| && StepEnabled(s, t, step)
    ensures Rank(Stepped(s, t, step).tasks[t].pc) < Rank(s.tasks[t].pc)
  {
    match step
    case Continue(m) => LandingLowersRank(s, t, m);
    case Respond(result) => RespondingLowersRank(s, t, result);
    case Acquire => AcquiringLowersRank(s, t);
    case _ =>
  }

  // --- deadlock freedom ----------------------------------------------------------------------

  ghost predicate CanGoOn(s: System, t: nat) {
    t < |s.tasks| && exists step :: Ordinary(step) && StepEnabled(s, t, step)
  }

  lemma HolderGoesOn(s: System, t: nat)
    requires SystemInv(s) && t < |s.tasks| && Holds(s.tasks[t]) && s.tasks[t].pc != WantsPermit
    ensures CanGoOn(s, t)
  {
    var pc := s.tasks[t].pc;
    assert TaskOk(s, s.tasks[t]);
    var step := match pc
      case Requesting => Respond(CheckResult(SUCCESS, 0, "", None, None, None))
      case LoadingState(_) => FinishLoad
      case SavingState => Continue(Save)
      case SendingAlert(_, _) => Continue(Send)
      case SavingMark => Continue(Mark)
      case _ => FinishRemoval;
    assert CellOf(s, s.tasks[t].service.name).mem.Some?;
    assert Ordinary(step) && StepEnabled(s, t, step);
  }

  /**
   * The permit is only asked for inside a lock and its user waits for nothing, so whoever waits,
   * waits for someone who can go on.
   */
  lemma SomeTaskGoesOn(s: System)
    requires SystemInv(s) && Work(s.tasks) > 0
    ensures exists t: nat :: CanGoOn(s, t)
  {
    WorkMeansSomeoneIsNotDone(s.tasks);
    var t: nat :| t < |s.tasks| && s.tasks[t].pc != Done;
    if Waits(s.tasks[t]) {
      WaiterIsNotStuck(s, t);
    } else if s.tasks[t].pc == WantsPermit {
      PermitSeekerIsNotStuck(s, t);
    } else if Holds(s.tasks[t]) {
      HolderGoesOn(s, t);
    } else {
      assert Ordinary(Enqueue) && StepEnabled(s, t, Enqueue);
      assert CanGoOn(s, t);
    }
  }

  lemma PermitSeekerIsNotStuck(s: System, t: nat)
    requires SystemInv(s) && t < |s.tasks| && s.tasks[t].pc == WantsPermit
    ensures exists u: nat :: CanGoOn(s, u)
  {
    if s.permits > 0 {
      assert Ordinary(TakePermit) && StepEnabled(s, t, TakePermit);
      assert CanGoOn(s, t);
    } else {
      SomeInProgress(s.tasks);
      var u: nat :| u < |s.tasks| && s.tasks[u].pc == Requesting;
      HolderGoesOn(s, u);
    }
  }

  lemma WaiterIsNotStuck(s: System, t: nat)
    requires SystemInv(s) && t < |s.tasks| && Waits(s.tasks[t])
    ensures exists u: nat :: CanGoOn(s, u)
  {
    if s.tasks[t].lock !in s.held {
      assert Ordinary(Acquire) && StepEnabled(s, t, Acquire);
      assert CanGoOn(s, t);
    } else {
      var u: nat :| HoldsLock(s, s.tasks[t].lock, u);
      if s.tasks[u].pc == WantsPermit {
        PermitSeekerIsNotStuck(s, u);
      } else {
        HolderGoesOn(s, u);
      }
    }
  }

  // --- failures ------------------------------------------------------------------------------

  /** Only the task's own lock and permit are given back, and nothing but its own cell may change. */
  ghost predicate EndsAlone(s: System, r: System, t: nat)
    requires t < |s.tasks|
  {
    var task := s.tasks[t];
    && r.tasks == WithPc(s.tasks, t, Done)
    && r.held == (if Holds(task) then s.held - {task.lock} else s.held)
    && r.permits == s.permits + (if task.pc == Requesting then 1 else 0)
    && r.(tasks := s.tasks, held := s.held, permits := s.permits, cells := s.cells) == s
    && (forall n :: n != task.service.name ==> CellOf(r, n) == CellOf(s, n))
  }

  /** Without its effect, or with it: the state is stored, the message has arrived. */
  predicate Raised(c: Cell, d: Cell, pc: Pc, effective: bool) {
    && d.mem == c.mem
    && d.row == (if effective && pc in {SavingState, SavingMark} then c.mem else c.row)
    && (effective && pc.SendingAlert? ==> c.mem.Some? && d.log == c.log + [AlertFor(c, pc.kind)])
    && (!effective || !(pc.SendingAlert? || pc == SavingState || pc == SavingMark) ==> d.log == c.log)
  }

  lemma AbortEndsAlone(s: System, t: nat)
    requires t < |s.tasks| && StepEnabled(s, t, Abort)
    ensures EndsAlone(s, Stepped(s, t, Abort), t) && Stepped(s, t, Abort).cells == s.cells
  {
  }

  lemma LandingEndsAlone(s: System, t: nat, q: Protocol)
    requires t < |s.tasks| && Holds(s.tasks[t]) && s.tasks[t].pc != Requesting && q.phase == Idle
    ensures EndsAlone(s, Landed(s, t, q), t) && CellOf(Landed(s, t, q), s.tasks[t].service.name) == q.cell
  {
  }

  function Raising(pc: Pc, effective: bool): TaskStep {
    match pc
    case SavingState => Continue(SaveRaises(effective))
    case SendingAlert(_, _) => Continue(SendRaises(effective))
    case SavingMark => Continue(MarkRaises(effective))
    case _ => Abort
  }

  lemma RaisedMove(name: string, p: Protocol, m: Move, pc: Pc, effective: bool) returns (q: Protocol)
    requires p.cell.mem.Some? && Raising(pc, effective) == Continue(m)
    requires pc == SavingState ==> p.phase.Saving?
    requires pc.SendingAlert? ==> p.phase == Sending(pc.kind, pc.more)
    requires pc == SavingMark ==> p.phase == Marking
    ensures IsCheckMove(m) && Can(p, m) && q == Do(name, p, m)
    ensures q.phase == Idle && Raised(p.cell, q.cell, pc, effective)
  {
    q := Do(name, p, m);
  }

  lemma HolderHasState(s: System, t: nat)
    requires SystemInv(s) && t < |s.tasks| && Holds(s.tasks[t])
    ensures CellOf(s, s.tasks[t].service.name).mem.Some?
  {
    assert TaskOk(s, s.tasks[t]);
  }

  /** Every await of a check or removal may raise, with or without its effect, and that ends the task alone. */
  lemma EveryAwaitMayRaise(s: System, t: nat, effective: bool) returns (step: TaskStep)
    requires SystemInv(s) && t < |s.tasks| && s.tasks[t].pc != Done
    ensures StepEnabled(s, t, step) && EndsAlone(s, Stepped(s, t, step), t)
    ensures var name := s.tasks[t].service.name;
            Raised(CellOf(s, name), CellOf(Stepped(s, t, step), name), s.tasks[t].pc, effective)
  {
    var task := s.tasks[t];
    step := Raising(task.pc, effective);
    if step.Continue? {
      assert TaskOk(s, task);
      HolderHasState(s, t);
      var q := RaisedMove(task.service.name, ShareOfTask(s, t), step.move, task.pc, effective);
      LandingEndsAlone(s, t, q);
    } else {
      AbortEndsAlone(s, t);
    }
  }

  // --- termination ---------------------------------------------------------------------------

  predicate TaskStepsOnly(run: seq<Action>) {
    forall a :: a in run ==> a.TaskAction?
  }

  /** However the steps are scheduled and whatever fails, a finite set of tasks takes finitely many. */
  lemma {:induction false} TasksTakeFinitelyManySteps(s: System, run: seq<Action>)
    requires Runs(s, run) && TaskStepsOnly(run)
    ensures |run| + Work(Final(s, run).tasks) <= Work(s.tasks)
    decreases |run|
  {
    if run == [] {
    } else {
      assert run[0] in run;
      StepLowersWork(s, run[0].t, run[0].step);
      assert forall a :: a in run[1..] ==> a in run;
      TasksTakeFinitelyManySteps(Next(s, run[0]), run[1..]);
    }
  }

  ghost predicate Completes(s: System, run: seq<Action>) {
    Runs(s, run) && TaskStepsOnly(run) && (forall a :: a in run ==> Ordinary(a.step)) &&
    forall t :: 0 <= t < |Final(s, run).tasks| ==> Final(s, run).tasks[t].pc == Done
  }

  /** From every reachable state all requested checks and removals can run to their end. */
  lemma {:induction false} EveryTaskCanFinish(s: System)
    requires SystemInv(s)
    ensures exists run :: Completes(s, run)
    decreases Work(s.tasks)
  {
    if Work(s.tasks) == 0 {
      NoWorkMeansDone(s.tasks);
      assert Completes(s, []);
    } else {
      SomeTaskGoesOn(s);
      var t: nat :| CanGoOn(s, t);
      var step :| Ordinary(step) && StepEnabled(s, t, step);
      var a := TaskAction(t, step);
      StepLowersWork(s, t, step);
      ActionKeepsSystemInv(s, a);
      EveryTaskCanFinish(Next(s, a));
      var rest :| Completes(Next(s, a), rest);
      CompletesEarlier(s, a, rest);
    }
  }

  /** Whatever was cancelled or raised on the way, a run that cannot go on has finished every task. */
  lemma StuckRunsAreDone(s: System, run: seq<Action>)
    requires SystemInv(s) && Runs(s, run) && forall t: nat :: !CanGoOn(Final(s, run), t)
    ensures forall t :: 0 <= t < |Final(s, run).tasks| ==> Final(s, run).tasks[t].pc == Done
  {
    RunKeepsSystemInv(s, run);
    var r := Final(s, run);
    if Work(r.tasks) > 0 {
      SomeTaskGoesOn(r);
    }
    NoWorkMeansDone(r.tasks);
  }

  lemma CompletesEarlier(s: System, a: Action, rest: seq<Action>)
    requires a.TaskAction? && Enabled(s, a) && Ordinary(a.step) && Completes(Next(s, a), rest)
    ensures Completes(s, [a] + rest)
  {
    var run := [a] + rest;
    assert run[1..] == rest;
    assert Final(s, run) == Final(Next(s, a), rest);
  }
}
