/** The per-name locks and the shared permits: what every action keeps. */
module MonitorLocks {
  import opened Models
  import opened StateMachine
  import opened AlertProtocol
  import opened Monitor

  predicate Started(t: Task) {
    Waits(t) || Holds(t)
  }

  predicate LocksDistinct(s: System) {
    && (forall n :: n in s.locks ==> s.locks[n] < s.nextLock)
    && (forall m, n :: m in s.locks && n in s.locks && s.locks[m] == s.locks[n] ==> m == n)
  }

  predicate UsesCurrentLock(s: System, t: Task) {
    t.service.name in s.locks && s.locks[t.service.name] == t.lock
  }

  /**
   * A task's lock object never belongs to another name. Past its lock, a task works on a registered
   * name under that name's current lock object; a task waiting for a registered name waits for that too.
   */
  predicate TaskOk(s: System, t: Task) {
    && (Started(t) ==> t.lock < s.nextLock &&
                       forall n :: n in s.locks && s.locks[n] == t.lock ==> n == t.service.name)
    && (Holds(t) ==> t.lock in s.held && Registered(s, t.service.name) && UsesCurrentLock(s, t))
    && (Waits(t) && Registered(s, t.service.name) ==> UsesCurrentLock(s, t))
    && (t.pc == Removing ==> t.service.name !in s.config)
  }

  predicate TasksOk(s: System) {
    forall t: nat :: t < |s.tasks| ==> TaskOk(s, s.tasks[t])
  }

  predicate HoldsLock(s: System, l: nat, t: nat) {
    t < |s.tasks| && Holds(s.tasks[t]) && s.tasks[t].lock == l
  }

  ghost predicate Exclusive(s: System) {
    forall l: nat, t: nat, u: nat :: HoldsLock(s, l, t) && HoldsLock(s, l, u) ==> t == u
  }

  ghost predicate HeldByTasks(s: System) {
    forall l :: l in s.held ==> exists t: nat :: HoldsLock(s, l, t)
  }

  ghost predicate Locks(s: System) {
    LocksDistinct(s) && TasksOk(s) && Exclusive(s) && HeldByTasks(s)
  }

  /** At most one check or removal per service name is past the lock. */
  lemma OneHolderPerName(s: System, name: string, t: nat, u: nat)
    requires Locks(s) && HolderOf(s, name, t) && HolderOf(s, name, u)
    ensures t == u
  {
    assert TaskOk(s, s.tasks[t]) && TaskOk(s, s.tasks[u]);
    assert HoldsLock(s, s.locks[name], t) && HoldsLock(s, s.locks[name], u);
  }

  // --- shapes of steps -----------------------------------------------------------------------

  /** Only task `t` moved on, and only its lock may have changed hands. */
  predicate OnlyTask(s: System, r: System, t: nat) {
    && t < |s.tasks| == |r.tasks|
    && r.tasks[t].service == s.tasks[t].service
    && forall u: nat :: u < |s.tasks| && u != t ==> r.tasks[u] == s.tasks[u]
  }

  predicate SameLocks(s: System, r: System) {
    r.config == s.config && r.telegram.Keys == s.telegram.Keys && r.locks == s.locks && r.nextLock == s.nextLock
  }

  lemma HoldersElsewhere(s: System, r: System, t: nat)
    requires Exclusive(s) && HeldByTasks(s) && OnlyTask(s, r, t)
    requires Holds(r.tasks[t]) ==>
               if Holds(s.tasks[t]) then r.tasks[t].lock == s.tasks[t].lock
               else forall u: nat :: !HoldsLock(s, r.tasks[t].lock, u)
    requires forall l :: l in r.held ==>
               (l in s.held && (HoldsLock(s, l, t) ==> HoldsLock(r, l, t))) || HoldsLock(r, l, t)
    ensures Exclusive(r) && HeldByTasks(r)
  {
    assert forall l: nat, u: nat :: u != t ==> HoldsLock(r, l, u) == HoldsLock(s, l, u);
    forall l: nat, u: nat | HoldsLock(r, l, u) && HoldsLock(r, l, t) ensures u == t {
      if u != t {
        assert HoldsLock(s, l, u) && Holds(s.tasks[t]);
        assert HoldsLock(s, l, t);
      }
    }
    forall l | l in r.held ensures exists u: nat :: HoldsLock(r, l, u) {
      if !HoldsLock(r, l, t) {
        var u: nat :| HoldsLock(s, l, u);
        assert HoldsLock(r, l, u);
      }
    }
  }

  lemma StayingKeepsLocks(s: System, r: System, t: nat)
    requires Locks(s) && OnlyTask(s, r, t) && SameLocks(s, r) && r.held == s.held && r.tasks[t].lock == s.tasks[t].lock
    requires Holds(s.tasks[t]) == Holds(r.tasks[t]) && (Waits(r.tasks[t]) ==> Waits(s.tasks[t]))
    requires r.tasks[t].pc == Removing ==> s.tasks[t].pc == Removing
    ensures Locks(r)
  {
    HoldersElsewhere(s, r, t);
    forall u: nat | u < |r.tasks| ensures TaskOk(r, r.tasks[u]) {
      assert TaskOk(s, s.tasks[u]);
    }
  }

  lemma TakingKeepsLocks(s: System, r: System, t: nat)
    requires Locks(s) && OnlyTask(s, r, t) && SameLocks(s, r) && r.tasks[t].lock == s.tasks[t].lock
    requires r.held == s.held + {s.tasks[t].lock} && s.tasks[t].lock !in s.held
    requires Waits(s.tasks[t]) && Holds(r.tasks[t]) && Registered(s, s.tasks[t].service.name)
    requires r.tasks[t].pc == Removing ==> s.tasks[t].service.name !in s.config
    ensures Locks(r)
  {
    forall u: nat ensures !HoldsLock(s, r.tasks[t].lock, u) {
    }
    HoldersElsewhere(s, r, t);
    forall u: nat | u < |r.tasks| ensures TaskOk(r, r.tasks[u]) {
      assert TaskOk(s, s.tasks[u]);
    }
  }

  lemma AcquiringKeepsLocks(s: System, t: nat)
    requires Locks(s) && t < |s.tasks| && StepEnabled(s, t, Acquire)
    ensures Locks(Acquired(s, t))
  {
    if Holds(Acquired(s, t).tasks[t]) {
      TakingKeepsLocks(s, Acquired(s, t), t);
    } else {
      StayingKeepsLocks(s, Acquired(s, t), t);
    }
  }

  lemma ReleasingKeepsLocks(s: System, r: System, t: nat)
    requires Locks(s) && OnlyTask(s, r, t) && SameLocks(s, r) && r.held == s.held - {s.tasks[t].lock}
    requires Holds(s.tasks[t]) && r.tasks[t].pc == Done
    ensures Locks(r)
  {
    HoldersElsewhere(s, r, t);
    forall u: nat | u < |r.tasks| ensures TaskOk(r, r.tasks[u]) {
      assert TaskOk(s, s.tasks[u]);
      assert Holds(s.tasks[u]) ==> HoldsLock(s, s.tasks[u].lock, u);
      assert HoldsLock(s, s.tasks[t].lock, t);
    }
  }

  lemma EnqueuingKeepsLocks(s: System, t: nat)
    requires Locks(s) && t < |s.tasks| && StepEnabled(s, t, Enqueue)
    ensures Locks(Enqueued(s, t))
  {
    var r := Enqueued(s, t);
    HoldersElsewhere(s, r, t);
    forall u: nat | u < |r.tasks| ensures TaskOk(r, r.tasks[u]) {
      assert TaskOk(s, s.tasks[u]);
    }
  }

  lemma RemovingKeepsLocks(s: System, t: nat)
    requires Locks(s) && t < |s.tasks| && StepEnabled(s, t, FinishRemoval)
    ensures Locks(Removed(s, t))
  {
    var r := Removed(s, t);
    var name := s.tasks[t].service.name;
    HoldersElsewhere(s, r, t);
    assert TaskOk(s, s.tasks[t]);
    forall u: nat | u < |r.tasks| ensures TaskOk(r, r.tasks[u]) {
      assert TaskOk(s, s.tasks[u]);
      if u != t && Holds(s.tasks[u]) {
        if s.tasks[u].service.name == name {
          OneHolderPerName(s, name, t, u);
        }
        assert HoldsLock(s, s.tasks[u].lock, u) && HoldsLock(s, s.tasks[t].lock, t);
      }
    }
  }

  lemma RequestingKeepsLocks(s: System, task: Task)
    requires Locks(s) && !Started(task)
    ensures Locks(s.(tasks := s.tasks + [task]))
  {
    var r := s.(tasks := s.tasks + [task]);
    assert forall l: nat, u: nat :: HoldsLock(r, l, u) == HoldsLock(s, l, u);
    forall l | l in r.held ensures exists u: nat :: HoldsLock(r, l, u) {
      var u: nat :| HoldsLock(s, l, u);
      assert HoldsLock(r, l, u);
    }
    forall u: nat | u < |s.tasks| ensures TaskOk(r, r.tasks[u]) {
      assert TaskOk(s, s.tasks[u]);
    }
  }

  /** A name may only join the registry while every task waiting for it uses its current lock object. */
  lemma JoiningKeepsLocks(s: System, r: System)
    requires Locks(s) && r.tasks == s.tasks && r.locks == s.locks && r.held == s.held && r.nextLock == s.nextLock
    requires r.config == s.config && forall n :: Registered(s, n) ==> Registered(r, n)
    requires forall n, t: nat :: Registered(r, n) && !Registered(s, n) ==> !StaleWaiter(s, n, t)
    ensures Locks(r)
  {
    assert forall l: nat, u: nat :: HoldsLock(r, l, u) == HoldsLock(s, l, u);
    forall l | l in r.held ensures exists u: nat :: HoldsLock(r, l, u) {
      var u: nat :| HoldsLock(s, l, u);
      assert HoldsLock(r, l, u);
    }
    forall t: nat | t < |r.tasks| ensures TaskOk(r, r.tasks[t]) {
      assert TaskOk(s, s.tasks[t]);
      if Waits(r.tasks[t]) && !Registered(s, r.tasks[t].service.name) && Registered(r, r.tasks[t].service.name) {
        assert !StaleWaiter(s, r.tasks[t].service.name, t);
      }
    }
  }

  lemma LandingKeepsLocks(s: System, t: nat, q: Protocol)
    requires Locks(s) && t < |s.tasks| && Holds(s.tasks[t])
    ensures Locks(Landed(s, t, q))
  {
    if PcOf(q.phase) == Done {
      ReleasingKeepsLocks(s, Landed(s, t, q), t);
    } else {
      StayingKeepsLocks(s, Landed(s, t, q), t);
    }
  }

  lemma RespondingKeepsLocks(s: System, t: nat, result: CheckResult)
    requires Locks(s) && t < |s.tasks| && StepEnabled(s, t, Respond(result))
    ensures Locks(Responded(s, t, result))
  {
    StayingKeepsLocks(s, Responded(s, t, result), t);
  }

  lemma AbortKeepsLocks(s: System, t: nat)
    requires Locks(s) && t < |s.tasks| && StepEnabled(s, t, Abort)
    ensures Locks(Aborted(s, t))
  {
    if Holds(s.tasks[t]) {
      ReleasingKeepsLocks(s, Aborted(s, t), t);
    } else {
      StayingKeepsLocks(s, Aborted(s, t), t);
    }
  }

  lemma StepKeepsLocks(s: System, t: nat, step: TaskStep)
    requires Locks(s) && t < |s.tasks| && StepEnabled(s, t, step)
    ensures Locks(Stepped(s, t, step))
  {
    match step
    case Enqueue => EnqueuingKeepsLocks(s, t);
    case Acquire => AcquiringKeepsLocks(s, t);
    case TakePermit => StayingKeepsLocks(s, Stepped(s, t, step), t);
    case Respond(result) => RespondingKeepsLocks(s, t, result);
    case FinishLoad => StayingKeepsLocks(s, Stepped(s, t, step), t);
    case FinishRemoval => RemovingKeepsLocks(s, t);
    case Abort => AbortKeepsLocks(s, t);
    case Continue(m) => LandingKeepsLocks(s, t, Do(s.tasks[t].service.name, ShareOfTask(s, t), m));
  }

  lemma ActionKeepsLocks(s: System, a: Action)
    requires Locks(s) && Enabled(s, a) && Orderly(s, a)
    ensures Locks(Next(s, a))
  {
    match a
    case RequestCheck(name) => RequestingKeepsLocks(s, Task(Lookup(s, name).value, 0, Requested));
    case RequestRemoval(name) =>
      RequestingKeepsLocks(s, Task(Service(name, "", false, Thresholds(1, 1)), 0, RemovalRequested));
    case TaskAction(t, step) => StepKeepsLocks(s, t, step);
    case Add(service) => JoiningKeepsLocks(s, Added(s, service));
    case SetEnabled(name, enabled) => JoiningKeepsLocks(s, Toggled(s, name, enabled));
    case Restart(_, _, _, _) =>
  }
}
