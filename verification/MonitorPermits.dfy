/** The semaphore that bounds concurrent HTTP requests. */
module MonitorPermits {
  import opened Models
  import opened AlertProtocol
  import opened Monitor

  /** HTTP requests in progress. */
  function InProgress(tasks: seq<Task>): nat {
    if tasks == [] then 0 else InProgress(tasks[..|tasks|-1]) + if tasks[|tasks|-1].pc == Requesting then 1 else 0
  }

  lemma {:induction false} InProgressUpdate(tasks: seq<Task>, t: nat, task: Task)
    requires t < |tasks|
    ensures InProgress(tasks[t := task]) ==
            InProgress(tasks) - (if tasks[t].pc == Requesting then 1 else 0) + (if task.pc == Requesting then 1 else 0)
  {
    var n := |tasks| - 1;
    if t < n {
      InProgressUpdate(tasks[..n], t, task);
      assert tasks[t := task][..n] == tasks[..n][t := task];
    } else {
      assert tasks[t := task][..n] == tasks[..n];
    }
  }

  lemma {:induction false} SomeInProgress(tasks: seq<Task>)
    requires InProgress(tasks) > 0
    ensures exists t: nat :: t < |tasks| && tasks[t].pc == Requesting
  {
    var n := |tasks| - 1;
    if tasks[n].pc != Requesting {
      SomeInProgress(tasks[..n]);
      var t: nat :| t < n && tasks[..n][t].pc == Requesting;
      assert tasks[t].pc == Requesting;
    }
  }

  /** Every permit is either free or used by exactly one request in progress. */
  predicate PermitsCounted(s: System) {
    s.capacity >= 1 && s.permits + InProgress(s.tasks) == s.capacity
  }

  lemma PermitsFollowTask(s: System, r: System, t: nat)
    requires PermitsCounted(s) && t < |s.tasks| == |r.tasks| && r.capacity == s.capacity
    requires r.tasks == s.tasks[t := r.tasks[t]]
    requires r.permits == s.permits + (if s.tasks[t].pc == Requesting then 1 else 0)
                                    - (if r.tasks[t].pc == Requesting then 1 else 0)
    ensures PermitsCounted(r)
  {
    InProgressUpdate(s.tasks, t, r.tasks[t]);
  }

  lemma LandingKeepsPermits(s: System, t: nat, q: Protocol)
    requires PermitsCounted(s) && t < |s.tasks| && s.tasks[t].pc != Requesting
    ensures PermitsCounted(Landed(s, t, q))
  {
    PermitsFollowTask(s, Landed(s, t, q), t);
  }

  lemma RespondKeepsPermits(s: System, t: nat, result: CheckResult)
    requires PermitsCounted(s) && t < |s.tasks| && StepEnabled(s, t, Respond(result))
    ensures PermitsCounted(Responded(s, t, result))
  {
    PermitsFollowTask(s, Responded(s, t, result), t);
  }

  lemma AbortKeepsPermits(s: System, t: nat)
    requires PermitsCounted(s) && t < |s.tasks| && StepEnabled(s, t, Abort)
    ensures PermitsCounted(Aborted(s, t))
  {
    PermitsFollowTask(s, Aborted(s, t), t);
  }

  lemma StepKeepsPermits(s: System, t: nat, step: TaskStep)
    requires PermitsCounted(s) && t < |s.tasks| && StepEnabled(s, t, step)
    ensures PermitsCounted(Stepped(s, t, step))
  {
    match step
    case Enqueue => PermitsFollowTask(s, Enqueued(s, t), t);
    case Acquire => PermitsFollowTask(s, Acquired(s, t), t);
    case TakePermit => PermitsFollowTask(s, Stepped(s, t, step), t);
    case Respond(result) => RespondKeepsPermits(s, t, result);
    case FinishLoad => PermitsFollowTask(s, Stepped(s, t, step), t);
    case FinishRemoval => PermitsFollowTask(s, Removed(s, t), t);
    case Abort => AbortKeepsPermits(s, t);
    case Continue(m) => LandingKeepsPermits(s, t, Do(s.tasks[t].service.name, ShareOfTask(s, t), m));
  }

  lemma ActionKeepsPermits(s: System, a: Action)
    requires PermitsCounted(s) && Enabled(s, a)
    ensures PermitsCounted(Next(s, a))
  {
    match a
    case RequestCheck(name) => assert Next(s, a).tasks[..|s.tasks|] == s.tasks;
    case RequestRemoval(name) => assert Next(s, a).tasks[..|s.tasks|] == s.tasks;
    case TaskAction(t, step) => StepKeepsPermits(s, t, step);
    case Add(_) =>
    case SetEnabled(_, _) =>
    case Restart(_, _, _, _) =>
  }
}
