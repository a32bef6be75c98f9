/** Every action of the whole system is, for each name, one move of the alert protocol or none. */
module MonitorShares {
  import opened Models
  import opened StateMachine
  import opened AlertProtocol
  import opened AlertTally
  import opened Monitor
  import opened MonitorLocks
  import opened MonitorPermits

  predicate RegistryMatchesTable(s: System) {
    && (forall n :: n in s.config ==> s.config[n].name == n)
    && (forall n :: n in s.telegram ==> s.telegram[n].name == n)
    && s.telegram.Keys == s.table.Keys - s.config.Keys
    && (forall n :: n in s.telegram ==>
          s.telegram[n].url == s.table[n].url && s.telegram[n].enabled == s.table[n].enabled)
  }

  /** There is an in-memory state for exactly the registered names. */
  ghost predicate StatesMatchRegistry(s: System) {
    forall n :: CellOf(s, n).mem.Some? <==> Registered(s, n)
  }

  ghost predicate SharesTrue(s: System) {
    forall n :: Inv(n, Share(s, n)) && Tally(Share(s, n))
  }

  ghost predicate SystemInv(s: System) {
    Locks(s) && PermitsCounted(s) && RegistryMatchesTable(s) && StatesMatchRegistry(s) && SharesTrue(s)
  }

  // --- the phase of a name -------------------------------------------------------------------

  ghost predicate OneHolderEach(s: System) {
    forall n, t: nat, u: nat :: HolderOf(s, n, t) && HolderOf(s, n, u) ==> t == u
  }

  lemma LocksGiveOneHolderEach(s: System)
    requires Locks(s)
    ensures OneHolderEach(s)
  {
    forall n, t: nat, u: nat | HolderOf(s, n, t) && HolderOf(s, n, u) ensures t == u {
      OneHolderPerName(s, n, t, u);
    }
  }

  lemma PhaseOfHolder(s: System, name: string, t: nat)
    requires OneHolderEach(s) && HolderOf(s, name, t)
    ensures PhaseOf(s, name) == PhaseOfTask(s.tasks[t])
  {
  }

  lemma UnregisteredIsIdle(s: System, name: string)
    requires Locks(s) && !Registered(s, name)
    ensures PhaseOf(s, name) == Idle
  {
    forall t: nat ensures !HolderOf(s, name, t) {
    }
  }

  lemma SameHoldersSamePhase(s: System, r: System, name: string)
    requires OneHolderEach(s) && OneHolderEach(r)
    requires forall u: nat :: HolderOf(r, name, u) == HolderOf(s, name, u)
    requires forall u: nat :: HolderOf(s, name, u) ==> r.tasks[u] == s.tasks[u]
    ensures PhaseOf(r, name) == PhaseOf(s, name)
  {
    if u: nat :| HolderOf(s, name, u) {
      PhaseOfHolder(s, name, u);
      PhaseOfHolder(r, name, u);
    }
  }

  /** One task's step moves the phase of its own name as it moves. */
  lemma PhaseFollowsTask(s: System, r: System, t: nat, name: string)
    requires OneHolderEach(s) && OneHolderEach(r) && OnlyTask(s, r, t) && name == s.tasks[t].service.name
    ensures Holds(s.tasks[t]) || Holds(r.tasks[t]) ==>
              PhaseOf(s, name) == PhaseOfTask(s.tasks[t]) && PhaseOf(r, name) == PhaseOfTask(r.tasks[t])
    ensures !Holds(s.tasks[t]) && !Holds(r.tasks[t]) ==> PhaseOf(r, name) == PhaseOf(s, name)
  {
    assert forall u: nat :: u != t ==> HolderOf(r, name, u) == HolderOf(s, name, u);
    if Holds(s.tasks[t]) || Holds(r.tasks[t]) {
      assert HolderOf(s, name, t) || HolderOf(r, name, t);
      if Holds(s.tasks[t]) {
        PhaseOfHolder(s, name, t);
      }
      if Holds(r.tasks[t]) {
        PhaseOfHolder(r, name, t);
      }
    } else {
      SameHoldersSamePhase(s, r, name);
    }
  }

  lemma PhaseElsewhere(s: System, r: System, t: nat, name: string)
    requires OneHolderEach(s) && OneHolderEach(r) && OnlyTask(s, r, t) && name != s.tasks[t].service.name
    ensures PhaseOf(r, name) == PhaseOf(s, name)
  {
    assert forall u: nat :: HolderOf(r, name, u) == HolderOf(s, name, u);
    SameHoldersSamePhase(s, r, name);
  }

  // --- refinement ----------------------------------------------------------------------------

  function StepMove(s: System, t: nat, step: TaskStep): Option<Move>
    requires t < |s.tasks| && StepEnabled(s, t, step)
  {
    var v := s.tasks[t].service;
    match step
    case Acquire => if Holds(Acquired(s, t).tasks[t]) then Some(Enter) else None
    case Respond(result) =>
      if Responded(s, t, result).tasks[t].pc == SavingState then Some(Apply(v.url, result, v.th, v.enabled)) else None
    case FinishLoad => Some(Apply(v.url, s.tasks[t].pc.result, v.th, v.enabled))
    case FinishRemoval => Some(Delete)
    case Abort => if Holds(s.tasks[t]) then Some(Leave) else None
    case Continue(m) => Some(m)
    case _ => None
  }

  /** The move an action makes on the share of one name. */
  ghost function MoveFor(s: System, a: Action, name: string): Option<Move>
    requires Enabled(s, a)
  {
    match a
    case TaskAction(t, step) => if s.tasks[t].service.name == name then StepMove(s, t, step) else None
    case Add(service) => if service.name == name then Some(Load(service.url)) else None
    case Restart(config, th, capacity, delivered) =>
      Some(CrashOf(Reborn(s, config, th, capacity), name, name in delivered))
    case _ => None
  }

  ghost predicate IsMove(name: string, p: Protocol, q: Protocol, m: Option<Move>) {
    match m
    case None => q == p
    case Some(move) => Can(p, move) && q == Do(name, p, move)
  }

  /** A step touches one task and the cell of that task's name. */
  ghost predicate Local(s: System, r: System, t: nat) {
    OnlyTask(s, r, t) && forall n :: n != s.tasks[t].service.name ==> CellOf(r, n) == CellOf(s, n)
  }

  lemma LandingIsLocal(s: System, t: nat, q: Protocol)
    requires t < |s.tasks|
    ensures Local(s, Landed(s, t, q), t)
  {
  }

  lemma RespondIsLocal(s: System, t: nat, result: CheckResult)
    requires t < |s.tasks|
    ensures Local(s, Responded(s, t, result), t)
  {
  }

  lemma AbortIsLocal(s: System, t: nat)
    requires t < |s.tasks|
    ensures Local(s, Aborted(s, t), t)
  {
  }

  lemma StepIsLocal(s: System, t: nat, step: TaskStep)
    requires t < |s.tasks| && StepEnabled(s, t, step)
    ensures Local(s, Stepped(s, t, step), t)
  {
    match step
    case Respond(result) => RespondIsLocal(s, t, result);
    case Abort => AbortIsLocal(s, t);
    case Continue(m) => LandingIsLocal(s, t, Do(s.tasks[t].service.name, ShareOfTask(s, t), m));
    case Enqueue =>
    case Acquire =>
    case TakePermit =>
    case FinishLoad =>
    case FinishRemoval =>
  }

  lemma WaitingOnShare(s: System, t: nat, step: TaskStep)
    requires OneHolderEach(s) && t < |s.tasks| && StepEnabled(s, t, step) && OneHolderEach(Stepped(s, t, step))
    requires step.Enqueue? || step.TakePermit?
    ensures var name := s.tasks[t].service.name; Share(Stepped(s, t, step), name) == Share(s, name)
  {
    PhaseFollowsTask(s, Stepped(s, t, step), t, s.tasks[t].service.name);
  }

  lemma AcquireOnShare(s: System, t: nat)
    requires OneHolderEach(s) && t < |s.tasks| && StepEnabled(s, t, Acquire) && OneHolderEach(Acquired(s, t))
    ensures var name := s.tasks[t].service.name;
            IsMove(name, Share(s, name), Share(Acquired(s, t), name), StepMove(s, t, Acquire))
  {
    PhaseFollowsTask(s, Acquired(s, t), t, s.tasks[t].service.name);
  }

  lemma AbortOnShare(s: System, t: nat)
    requires OneHolderEach(s) && t < |s.tasks| && StepEnabled(s, t, Abort) && OneHolderEach(Aborted(s, t))
    ensures var name := s.tasks[t].service.name;
            IsMove(name, Share(s, name), Share(Aborted(s, t), name), StepMove(s, t, Abort))
  {
    PhaseFollowsTask(s, Aborted(s, t), t, s.tasks[t].service.name);
  }

  lemma RespondOnShare(s: System, t: nat, result: CheckResult)
    requires OneHolderEach(s) && t < |s.tasks| && StepEnabled(s, t, Respond(result))
    requires OneHolderEach(Responded(s, t, result))
    ensures var name := s.tasks[t].service.name;
            IsMove(name, Share(s, name), Share(Responded(s, t, result), name), StepMove(s, t, Respond(result)))
  {
    PhaseFollowsTask(s, Responded(s, t, result), t, s.tasks[t].service.name);
  }

  lemma LoadOnShare(s: System, t: nat)
    requires OneHolderEach(s) && t < |s.tasks| && StepEnabled(s, t, FinishLoad)
    requires OneHolderEach(Stepped(s, t, FinishLoad))
    ensures var name := s.tasks[t].service.name;
            IsMove(name, Share(s, name), Share(Stepped(s, t, FinishLoad), name), StepMove(s, t, FinishLoad))
  {
    PhaseFollowsTask(s, Stepped(s, t, FinishLoad), t, s.tasks[t].service.name);
  }

  lemma RemovalOnShare(s: System, t: nat)
    requires OneHolderEach(s) && t < |s.tasks| && StepEnabled(s, t, FinishRemoval) && OneHolderEach(Removed(s, t))
    ensures var name := s.tasks[t].service.name;
            IsMove(name, Share(s, name), Share(Removed(s, t), name), Some(Delete))
  {
    PhaseFollowsTask(s, Removed(s, t), t, s.tasks[t].service.name);
  }

  /** The phases a check move can lead to. */
  predicate Lands(q: Protocol) {
    q.phase == Idle || q.phase == Marking || q.phase.Sending?
  }

  lemma LandingOnShare(s: System, t: nat, q: Protocol)
    requires OneHolderEach(s) && t < |s.tasks| && Holds(s.tasks[t]) && Lands(q) && OneHolderEach(Landed(s, t, q))
    ensures var name := s.tasks[t].service.name;
            Share(s, name) == ShareOfTask(s, t) && Share(Landed(s, t, q), name) == q
  {
    PhaseFollowsTask(s, Landed(s, t, q), t, s.tasks[t].service.name);
  }

  lemma StepOnShare(s: System, t: nat, step: TaskStep, name: string)
    requires Locks(s) && t < |s.tasks| && StepEnabled(s, t, step)
    ensures s.tasks[t].service.name == name ==>
              IsMove(name, Share(s, name), Share(Stepped(s, t, step), name), StepMove(s, t, step))
    ensures s.tasks[t].service.name != name ==> Share(Stepped(s, t, step), name) == Share(s, name)
  {
    StepKeepsLocks(s, t, step);
    LocksGiveOneHolderEach(s);
    LocksGiveOneHolderEach(Stepped(s, t, step));
    if s.tasks[t].service.name != name {
      StepIsLocal(s, t, step);
      PhaseElsewhere(s, Stepped(s, t, step), t, name);
    } else {
      OwnStepOnShare(s, t, step);
    }
  }

  lemma OwnStepOnShare(s: System, t: nat, step: TaskStep)
    requires OneHolderEach(s) && t < |s.tasks| && StepEnabled(s, t, step) && OneHolderEach(Stepped(s, t, step))
    ensures var name := s.tasks[t].service.name;
            IsMove(name, Share(s, name), Share(Stepped(s, t, step), name), StepMove(s, t, step))
  {
    match step
    case Acquire => AcquireOnShare(s, t);
    case Respond(result) => RespondOnShare(s, t, result);
    case FinishLoad => LoadOnShare(s, t);
    case FinishRemoval => RemovalOnShare(s, t);
    case Abort => AbortOnShare(s, t);
    case Continue(m) => LandingOnShare(s, t, Do(s.tasks[t].service.name, ShareOfTask(s, t), m));
    case Enqueue => WaitingOnShare(s, t, step);
    case TakePermit => WaitingOnShare(s, t, step);
  }

  lemma RequestOnShare(s: System, task: Task, name: string)
    requires Locks(s) && !Started(task)
    ensures Share(s.(tasks := s.tasks + [task]), name) == Share(s, name)
  {
    var r := s.(tasks := s.tasks + [task]);
    RequestingKeepsLocks(s, task);
    LocksGiveOneHolderEach(s);
    LocksGiveOneHolderEach(r);
    SameHoldersSamePhase(s, r, name);
  }

  lemma SameTasksSamePhase(s: System, r: System, name: string)
    requires Locks(s) && Locks(r) && r.tasks == s.tasks
    ensures PhaseOf(r, name) == PhaseOf(s, name)
  {
    LocksGiveOneHolderEach(s);
    LocksGiveOneHolderEach(r);
    SameHoldersSamePhase(s, r, name);
  }

  lemma RestartOnShare(s: System, config: map<string, Service>, th: Thresholds, capacity: nat,
                       delivered: set<string>, name: string)
    requires Locks(s) && StatesMatchRegistry(s) && OnlyInFlight(s, delivered)
    ensures var b := Reborn(s, config, th, capacity);
            IsMove(name, Share(s, name), Share(Restarted(s, b, delivered), name),
                   Some(CrashOf(b, name, name in delivered)))
  {
    var b := Reborn(s, config, th, capacity);
    var r := Restarted(s, b, delivered);
    if name !in r.cells {
      assert CellOf(s, name) == EMPTY;
      UnregisteredIsIdle(s, name);
    }
  }

  lemma ActionIsMoveOnEachShare(s: System, a: Action, name: string)
    requires Locks(s) && StatesMatchRegistry(s) && Enabled(s, a) && Orderly(s, a)
    ensures IsMove(name, Share(s, name), Share(Next(s, a), name), MoveFor(s, a, name))
  {
    match a
    case RequestCheck(n) => RequestOnShare(s, Task(Lookup(s, n).value, 0, Requested), name);
    case RequestRemoval(n) =>
      RequestOnShare(s, Task(Service(n, "", false, Thresholds(1, 1)), 0, RemovalRequested), name);
    case TaskAction(t, step) => StepOnShare(s, t, step, name);
    case Add(service) =>
      ActionKeepsLocks(s, a);
      UnregisteredIsIdle(s, service.name);
      SameTasksSamePhase(s, Added(s, service), name);
    case SetEnabled(n, enabled) =>
      ActionKeepsLocks(s, a);
      SameTasksSamePhase(s, Toggled(s, n, enabled), name);
    case Restart(config, th, capacity, delivered) => RestartOnShare(s, config, th, capacity, delivered, name);
  }
}
