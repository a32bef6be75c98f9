/** A check that is requested while nothing else goes on: the concurrent system does exactly the sequential check. */
module MonitorSolo {
  import opened Models
  import opened StateMachine
  import opened AlertProtocol
  import opened Solo
  import opened Monitor
  import opened MonitorLocks
  import opened MonitorPermits
  import opened MonitorShares
  import opened MonitorRuns

  predicate Quiet(s: System) {
    forall t :: 0 <= t < |s.tasks| ==> s.tasks[t].pc == Done
  }

  function TargetOf(v: Service): Target {
    Target(v.name, v.url, v.enabled, v.th)
  }

  // --- runs, one action at a time ------------------------------------------------------------

  /** What goes wrong in a run: restarts, steps that raise or are cancelled, and posts that are made again. */
  datatype Mishaps = Mishaps(restarts: nat, raised: nat, reposted: nat)

  const NONE := Mishaps(0, 0, 0)

  predicate Raises(step: TaskStep) {
    step.Abort? || (step.Continue? && (step.move.SaveRaises? || step.move.SendRaises? || step.move.MarkRaises?))
  }

  function WithAction(w: Mishaps, a: Action): Mishaps {
    if a.Restart? then w.(restarts := w.restarts + 1)
    else if a.TaskAction? && Raises(a.step) then w.(raised := w.raised + 1)
    else if a.TaskAction? && a.step.Continue? && a.step.move.PostAgain? then w.(reposted := w.reposted + 1)
    else w
  }

  function MishapsIn(run: seq<Action>): Mishaps {
    if run == [] then NONE else WithAction(MishapsIn(run[..|run|-1]), run[|run|-1])
  }

  /** A run with exactly these mishaps goes from `s` to `r`. */
  ghost predicate Leads(s: System, r: System, w: Mishaps) {
    exists run :: Runs(s, run) && Final(s, run) == r && MishapsIn(run) == w
  }

  lemma LeadsToItself(s: System)
    ensures Leads(s, s, NONE)
  {
    assert Runs(s, []) && Final(s, []) == s && MishapsIn([]) == NONE;
  }

  lemma {:induction false} RunsOnAtTheEnd(s: System, run: seq<Action>, a: Action)
    requires Runs(s, run) && Enabled(Final(s, run), a) && Orderly(Final(s, run), a)
    ensures Runs(s, run + [a]) && Final(s, run + [a]) == Next(Final(s, run), a)
    decreases |run|
  {
    if run == [] {
      assert [] + [a] == [a] && [a][1..] == [];
      assert Runs(Next(s, a), []) && Final(Next(s, a), []) == Next(s, a);
    } else {
      RunsOnAtTheEnd(Next(s, run[0]), run[1..], a);
      assert (run + [a])[1..] == run[1..] + [a];
    }
  }

  lemma LeadsOn(s: System, r: System, w: Mishaps, a: Action)
    requires Leads(s, r, w) && Enabled(r, a) && Orderly(r, a)
    ensures Leads(s, Next(r, a), WithAction(w, a))
  {
    var run :| Runs(s, run) && Final(s, run) == r && MishapsIn(run) == w;
    RunsOnAtTheEnd(s, run, a);
    assert (run + [a])[..|run|] == run;
    assert MishapsIn(run + [a]) == WithAction(w, a);
  }

  lemma LeadsKeepsSystemInv(s: System, r: System, w: Mishaps)
    requires SystemInv(s) && Leads(s, r, w)
    ensures SystemInv(r)
  {
    var run :| Runs(s, run) && Final(s, run) == r && MishapsIn(run) == w;
    RunKeepsSystemInv(s, run);
  }

  // --- where such a check is -----------------------------------------------------------------

  /** `r` is `s` with one more task, for `v`, at `pc`; the cell of `v` is `c`, and no other cell has changed. */
  ghost predicate Underway(s: System, r: System, v: Service, pc: Pc, c: Cell) {
    && |r.tasks| == |s.tasks| + 1 && r.tasks[..|s.tasks|] == s.tasks
    && r.tasks[|s.tasks|].service == v && r.tasks[|s.tasks|].pc == pc
    && CellOf(r, v.name) == c && (forall n :: n != v.name ==> CellOf(r, n) == CellOf(s, n))
    && SameRegistry(s, r)
  }

  /** Some run from `o` by way of `s`, where the check was requested, is there. */
  ghost predicate Reaches(o: System, w: Mishaps, s: System, r: System, v: Service, pc: Pc, c: Cell) {
    Leads(o, r, w) && Underway(s, r, v, pc, c)
  }

  // --- its steps -----------------------------------------------------------------------------

  lemma ByMove(o: System, w: Mishaps, s: System, r: System, v: Service, pc: Pc, c: Cell, m: Move) returns (r': System)
    requires Reaches(o, w, s, r, v, pc, c) && IsCheckMove(m)
    requires Can(Protocol(PhaseOfTask(Task(v, 0, pc)), c), m)
    ensures var q := Do(v.name, Protocol(PhaseOfTask(Task(v, 0, pc)), c), m);
            Reaches(o, WithAction(w, TaskAction(|s.tasks|, Continue(m))), s, r', v, PcOf(q.phase), q.cell)
  {
    var t, q := |s.tasks|, Do(v.name, Protocol(PhaseOfTask(Task(v, 0, pc)), c), m);
    r' := Landed(r, t, q);
    Landing(s, r, v, pc, c, q);
    assert Next(r, TaskAction(t, Continue(m))) == r';
    LeadsOn(o, r, w, TaskAction(t, Continue(m)));
  }

  lemma Landing(s: System, r: System, v: Service, pc: Pc, c: Cell, q: Protocol)
    requires Underway(s, r, v, pc, c)
    ensures Underway(s, Landed(r, |s.tasks|, q), v, PcOf(q.phase), q.cell)
  {
    LandingIsLocal(r, |s.tasks|, q);
    LandingKeepsRegistry(r, |s.tasks|, q);
  }

  lemma Answering(s: System, r: System, v: Service, c: Cell, result: CheckResult)
    requires Underway(s, r, v, Requesting, c)
    ensures var q := Responded(r, |s.tasks|, result);
            if c.mem.Some? && c.mem.value.url == v.url
            then Underway(s, q, v, SavingState, WithCheck(c, v.name, v.url, result, v.th))
            else Underway(s, q, v, LoadingState(result), c)
  {
    RespondKeepsRegistry(r, |s.tasks|, result);
    RespondIsLocal(r, |s.tasks|, result);
  }

  lemma LoadFinishes(o: System, w: Mishaps, s: System, r: System, v: Service, c: Cell, result: CheckResult)
    returns (r': System)
    requires Reaches(o, w, s, r, v, LoadingState(result), c)
    ensures Reaches(o, w, s, r', v, SavingState, WithCheck(c, v.name, v.url, result, v.th))
  {
    r' := WithResult(r, |s.tasks|, result);
    assert Next(r, TaskAction(|s.tasks|, FinishLoad)) == r';
    LeadsOn(o, r, w, TaskAction(|s.tasks|, FinishLoad));
  }

  lemma ServerAnswers(o: System, w: Mishaps, s: System, r: System, v: Service, c: Cell, result: CheckResult)
    returns (r': System)
    requires Reaches(o, w, s, r, v, Requesting, c)
    ensures Reaches(o, w, s, r', v, SavingState, WithCheck(c, v.name, v.url, result, v.th))
  {
    r' := Responded(r, |s.tasks|, result);
    Answering(s, r, v, c, result);
    assert Next(r, TaskAction(|s.tasks|, Respond(result))) == r';
    LeadsOn(o, r, w, TaskAction(|s.tasks|, Respond(result)));
    if !(c.mem.Some? && c.mem.value.url == v.url) {
      r' := LoadFinishes(o, w, s, r', v, c, result);
    }
  }

  lemma LockIsTaken(o: System, w: Mishaps, s: System, r: System, v: Service, c: Cell) returns (r': System)
    requires Reaches(o, w, s, r, v, Queued, c) && r.held == {} && Registered(r, v.name)
    ensures Reaches(o, w, s, r', v, WantsPermit, c) && r'.permits == r.permits
  {
    r' := Acquired(r, |s.tasks|);
    assert Next(r, TaskAction(|s.tasks|, Acquire)) == r';
    LeadsOn(o, r, w, TaskAction(|s.tasks|, Acquire));
  }

  lemma PermitIsTaken(o: System, w: Mishaps, s: System, r: System, v: Service, c: Cell) returns (r': System)
    requires Reaches(o, w, s, r, v, WantsPermit, c) && r.permits > 0
    ensures Reaches(o, w, s, r', v, Requesting, c)
  {
    r' := Next(r, TaskAction(|s.tasks|, TakePermit));
    LeadsOn(o, r, w, TaskAction(|s.tasks|, TakePermit));
  }

  lemma QuietMeansFree(s: System)
    requires SystemInv(s) && Quiet(s)
    ensures s.held == {} && s.permits > 0
  {
    assert forall l: nat, t: nat :: !HoldsLock(s, l, t);
    assert forall l :: l !in s.held;
    NothingInProgress(s.tasks);
  }

  lemma {:induction false} NothingInProgress(tasks: seq<Task>)
    requires forall t :: 0 <= t < |tasks| ==> tasks[t].pc == Done
    ensures InProgress(tasks) == 0
  {
    if tasks == [] {
    } else {
      NothingInProgress(tasks[..|tasks|-1]);
    }
  }

  /** A run from `o` has come to `s`, where nothing goes on and `v` is registered. */
  ghost predicate FromQuiet(o: System, w: Mishaps, s: System, v: Service) {
    SystemInv(o) && Leads(o, s, w) && SystemInv(s) && Quiet(s) && Lookup(s, v.name) == Some(v)
  }

  lemma CheckIsRequested(o: System, w: Mishaps, s: System, v: Service) returns (r: System)
    requires FromQuiet(o, w, s, v)
    ensures Reaches(o, w, s, r, v, Requested, CellOf(s, v.name)) && r.permits == s.permits && r.held == s.held
  {
    r := s.(tasks := s.tasks + [Task(v, 0, Requested)]);
    assert Next(s, RequestCheck(v.name)) == r;
    LeadsOn(o, s, w, RequestCheck(v.name));
  }

  lemma CheckIsQueued(o: System, w: Mishaps, s: System, r: System, v: Service, c: Cell) returns (r': System)
    requires Reaches(o, w, s, r, v, Requested, c)
    ensures Reaches(o, w, s, r', v, Queued, c) && r'.permits == r.permits && r'.held == r.held
  {
    r' := Enqueued(r, |s.tasks|);
    assert Next(r, TaskAction(|s.tasks|, Enqueue)) == r';
    LeadsOn(o, r, w, TaskAction(|s.tasks|, Enqueue));
  }

  /** From a quiet system a check of any registered service gets, with any result, to its first save. */
  lemma CheckIsApplied(o: System, w: Mishaps, s: System, v: Service, result: CheckResult) returns (r: System)
    requires FromQuiet(o, w, s, v)
    ensures Reaches(o, w, s, r, v, SavingState, WithCheck(CellOf(s, v.name), v.name, v.url, result, v.th))
  {
    QuietMeansFree(s);
    r := CheckIsRequested(o, w, s, v);
    r := CheckIsQueued(o, w, s, r, v, CellOf(s, v.name));
    r := LockIsTaken(o, w, s, r, v, CellOf(s, v.name));
    r := PermitIsTaken(o, w, s, r, v, CellOf(s, v.name));
    r := ServerAnswers(o, w, s, r, v, CellOf(s, v.name), result);
  }

  lemma StateIsSaved(o: System, w: Mishaps, s: System, r: System, v: Service, c: Cell) returns (r': System)
    requires Reaches(o, w, s, r, v, SavingState, c) && c.mem.Some?
    ensures var q := Do(v.name, Protocol(Saving(v.enabled), c), Save);
            Reaches(o, w, s, r', v, PcOf(q.phase), q.cell)
  {
    r' := ByMove(o, w, s, r, v, SavingState, c, Save);
  }

  lemma MarkIsSaved(o: System, w: Mishaps, s: System, r: System, v: Service, c: Cell) returns (r': System)
    requires Reaches(o, w, s, r, v, SavingMark, c) && c.mem.Some?
    ensures Reaches(o, w, s, r', v, Done, Do(v.name, Protocol(Marking, c), Mark).cell)
  {
    r' := ByMove(o, w, s, r, v, SavingMark, c, Mark);
  }

  lemma SendIsRefused(o: System, w: Mishaps, s: System, r: System, v: Service, q: Protocol, arrived: bool)
    returns (r': System)
    requires q.phase.Sending? && q.cell.mem.Some? && Reaches(o, w, s, r, v, PcOf(q.phase), q.cell)
    ensures Reaches(o, w.(raised := w.raised + 1), s, r', v, Done, Do(v.name, q, SendRaises(arrived)).cell)
  {
    r' := ByMove(o, w, s, r, v, PcOf(q.phase), q.cell, SendRaises(arrived));
  }

  lemma SavedIsSave(c: Cell, v: Service, result: CheckResult)
    ensures Saved(c, TargetOf(v), result) ==
            Do(v.name, Protocol(Saving(v.enabled), WithCheck(c, v.name, v.url, result, v.th)), Save)
  {
  }

  lemma CheckIsSaved(o: System, w: Mishaps, s: System, v: Service, result: CheckResult) returns (r: System)
    requires FromQuiet(o, w, s, v)
    ensures var q := Saved(CellOf(s, v.name), TargetOf(v), result);
            Reaches(o, w, s, r, v, PcOf(q.phase), q.cell)
  {
    r := CheckIsApplied(o, w, s, v, result);
    SavedIsSave(CellOf(s, v.name), v, result);
    r := StateIsSaved(o, w, s, r, v, WithCheck(CellOf(s, v.name), v.name, v.url, result, v.th));
  }

  /** Where a message is pending, the same check gets as far as having sent it. */
  lemma CheckIsSent(o: System, w: Mishaps, s: System, v: Service, result: CheckResult) returns (r: System)
    requires FromQuiet(o, w, s, v)
    requires Saved(CellOf(s, v.name), TargetOf(v), result).phase.Sending?
    ensures var q := Do(v.name, Saved(CellOf(s, v.name), TargetOf(v), result), Send);
            Reaches(o, w, s, r, v, SavingMark, q.cell)
  {
    r := CheckIsSaved(o, w, s, v, result);
    r := MessageGoesOut(o, w, s, r, v, Saved(CellOf(s, v.name), TargetOf(v), result));
  }

  lemma MessageGoesOut(o: System, w: Mishaps, s: System, r: System, v: Service, q: Protocol) returns (r': System)
    requires q.phase.Sending? && q.cell.mem.Some? && Reaches(o, w, s, r, v, PcOf(q.phase), q.cell)
    ensures Reaches(o, w, s, r', v, SavingMark, Do(v.name, q, Send).cell)
  {
    r' := ByMove(o, w, s, r, v, PcOf(q.phase), q.cell, Send);
  }

  // --- the whole check -----------------------------------------------------------------------

  /** `r` is quiet again, with the same services, `c` as the cell of this name and every other cell as in `s`. */
  ghost predicate DoneWith(s: System, r: System, name: string, c: Cell) {
    && Quiet(r) && SameRegistry(s, r) && CellOf(r, name) == c
    && forall n :: n != name ==> CellOf(r, n) == CellOf(s, n)
  }

  lemma QuietAgain(s: System, r: System, v: Service, c: Cell)
    requires Quiet(s) && Underway(s, r, v, Done, c)
    ensures DoneWith(s, r, v.name, c)
  {
    forall t | 0 <= t < |r.tasks| ensures r.tasks[t].pc == Done {
      if t < |s.tasks| {
        assert r.tasks[t] == r.tasks[..|s.tasks|][t];
      }
    }
  }

  /**
   * While nothing else goes on, a registered service can be checked with any result and any fate of the
   * message; that run leaves exactly what the sequential check leaves, and touches no other service.
   */
  lemma QuietSystemDoesTheSoloCheck(o: System, w: Mishaps, s: System, v: Service, result: CheckResult,
                                    delivery: Delivery)
    returns (r: System)
    requires FromQuiet(o, w, s, v)
    ensures Leads(o, r, WithFate(w, Saved(CellOf(s, v.name), TargetOf(v), result), delivery)) && SystemInv(r)
    ensures DoneWith(s, r, v.name, SoloCheck(CellOf(s, v.name), TargetOf(v), result, delivery).cell)
  {
    var q := Saved(CellOf(s, v.name), TargetOf(v), result);
    r := CheckIsSaved(o, w, s, v, result);
    if q.phase.Sending? {
      r := MessageEnds(o, w, s, r, v, q, delivery);
    }
    QuietAgain(s, r, v, SoloCheck(CellOf(s, v.name), TargetOf(v), result, delivery).cell);
    LeadsKeepsSystemInv(o, r, WithFate(w, q, delivery));
  }

  /** Only a message that is not sent without an error counts. */
  function WithFate(w: Mishaps, q: Protocol, delivery: Delivery): Mishaps {
    if q.phase.Sending? && delivery.Refused? then w.(raised := w.raised + 1) else w
  }

  lemma MessageEnds(o: System, w: Mishaps, s: System, r: System, v: Service, q: Protocol, delivery: Delivery)
    returns (r': System)
    requires q.phase.Sending? && q.cell.mem.Some? && Reaches(o, w, s, r, v, PcOf(q.phase), q.cell)
    ensures Reaches(o, WithFate(w, q, delivery), s, r', v, Done,
                    match delivery
                    case Delivered => Do(v.name, Do(v.name, q, Send), Mark).cell
                    case Refused(arrived) => Do(v.name, q, SendRaises(arrived)).cell)
  {
    match delivery
    case Delivered =>
      r' := MessageGoesOut(o, w, s, r, v, q);
      r' := MarkIsSaved(o, w, s, r', v, Do(v.name, q, Send).cell);
    case Refused(arrived) =>
      r' := SendIsRefused(o, w, s, r, v, q, arrived);
  }

  /** The log of this name gained one alert of this kind, and nothing is pending any more. */
  predicate Announced(before: seq<Alert>, after: Cell, kind: AlertKind) {
    && |after.log| == |before| + 1 && after.log[..|before|] == before && after.log[|before|].kind == kind
    && after.mem.Some? && after.row == after.mem && PendingAlert(after.mem.value) == None
  }

  /** Whatever failed before, one more check with a working notifier delivers what its result leaves pending. */
  lemma NextCheckDeliversWhatIsPending(o: System, w: Mishaps, s: System, v: Service, result: CheckResult,
                                       kind: AlertKind)
    returns (r: System)
    requires FromQuiet(o, w, s, v) && v.enabled
    requires PendingAlert(WithCheck(CellOf(s, v.name), v.name, v.url, result, v.th).mem.value) == Some(kind)
    ensures Leads(o, r, w) && Quiet(r) && Announced(LogFor(CellOf(s, v.name), v.url), CellOf(r, v.name), kind)
  {
    var c := CellOf(s, v.name);
    r := QuietSystemDoesTheSoloCheck(o, w, s, v, result, Delivered);
    SoloCheckEndsIn(c, TargetOf(v), result, Delivered);
    SoloCheckTells(c, TargetOf(v), result);
  }

  // --- a removal with nothing in between -----------------------------------------------------

  /** `r` is `s` with one more task, a removal of this name, at `pc`. */
  predicate RemovalAt(s: System, r: System, name: string, pc: Pc) {
    && |r.tasks| == |s.tasks| + 1 && r.tasks[..|s.tasks|] == s.tasks
    && r.tasks[|s.tasks|].service.name == name && r.tasks[|s.tasks|].pc == pc
    && r.cells == s.cells && SameRegistry(s, r)
  }

  lemma RemovalIsRequested(o: System, w: Mishaps, s: System, name: string) returns (r: System)
    requires Leads(o, s, w)
    ensures Leads(o, r, w) && RemovalAt(s, r, name, RemovalRequested) && r.held == s.held
  {
    r := Next(s, RequestRemoval(name));
    LeadsOn(o, s, w, RequestRemoval(name));
  }

  lemma RemovalIsQueued(o: System, w: Mishaps, s: System, r: System, name: string) returns (r': System)
    requires Leads(o, r, w) && RemovalAt(s, r, name, RemovalRequested)
    ensures Leads(o, r', w) && RemovalAt(s, r', name, RemovalQueued) && r'.held == r.held
  {
    r' := Enqueued(r, |s.tasks|);
    assert Next(r, TaskAction(|s.tasks|, Enqueue)) == r';
    LeadsOn(o, r, w, TaskAction(|s.tasks|, Enqueue));
  }

  lemma RemovalIsAdmitted(o: System, w: Mishaps, s: System, r: System, name: string) returns (r': System)
    requires Leads(o, r, w) && RemovalAt(s, r, name, RemovalQueued) && r.held == {}
    requires name in s.telegram && name !in s.config
    ensures Leads(o, r', w) && RemovalAt(s, r', name, Removing)
  {
    r' := Acquired(r, |s.tasks|);
    assert Next(r, TaskAction(|s.tasks|, Acquire)) == r';
    LeadsOn(o, r, w, TaskAction(|s.tasks|, Acquire));
  }

  lemma RemovalIsPastTheLock(o: System, w: Mishaps, s: System, v: Service) returns (r: System)
    requires FromQuiet(o, w, s, v) && v.name in s.telegram && v.name !in s.config
    ensures Leads(o, r, w) && RemovalAt(s, r, v.name, Removing)
  {
    QuietMeansFree(s);
    r := RemovalIsRequested(o, w, s, v.name);
    r := RemovalIsQueued(o, w, s, r, v.name);
    r := RemovalIsAdmitted(o, w, s, r, v.name);
  }

  lemma RemovedIs(s: System, q: System, name: string)
    requires RemovalAt(s, q, name, Removing) && Quiet(s)
    ensures var r := Removed(q, |s.tasks|);
            && Quiet(r) && r.telegram == s.telegram - {name} && r.table == s.table - {name} && r.config == s.config
            && CellOf(r, name) == EMPTY && forall n :: n != name ==> CellOf(r, n) == CellOf(s, n)
  {
    var r := Removed(q, |s.tasks|);
    forall t | 0 <= t < |r.tasks| ensures r.tasks[t].pc == Done {
      if t < |s.tasks| {
        assert r.tasks[t] == q.tasks[..|s.tasks|][t];
      }
    }
  }

  /** While nothing else goes on, a service added from Telegram can be removed: all of it is gone, and nothing else. */
  lemma QuietSystemRemoves(o: System, w: Mishaps, s: System, v: Service) returns (r: System)
    requires FromQuiet(o, w, s, v) && v.name in s.telegram && v.name !in s.config
    ensures Leads(o, r, w) && Quiet(r)
    ensures r.telegram == s.telegram - {v.name} && r.table == s.table - {v.name} && r.config == s.config
    ensures CellOf(r, v.name) == EMPTY && forall n :: n != v.name ==> CellOf(r, n) == CellOf(s, n)
  {
    var q := RemovalIsPastTheLock(o, w, s, v);
    r := Removed(q, |s.tasks|);
    RemovedIs(s, q, v.name);
    assert Next(q, TaskAction(|s.tasks|, FinishRemoval)) == r;
    LeadsOn(o, q, w, TaskAction(|s.tasks|, FinishRemoval));
  }
}
