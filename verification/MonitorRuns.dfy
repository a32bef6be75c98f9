/** What every reachable state of the monitor satisfies, whatever its surroundings do. */
module MonitorRuns {
  import opened Models
  import opened StateMachine
  import opened AlertProtocol
  import opened AlertTally
  import opened Monitor
  import opened MonitorLocks
  import opened MonitorPermits
  import opened MonitorShares

  predicate WellNamed(config: map<string, Service>) {
    forall n :: n in config ==> config[n].name == n
  }

  lemma InitHasSystemInv(config: map<string, Service>, capacity: nat)
    requires WellNamed(config) && capacity >= 1
    ensures SystemInv(Init(config, capacity))
  {
    var s := Init(config, capacity);
    forall n ensures Inv(n, Share(s, n)) && Tally(Share(s, n)) {
      assert Inv(n, Protocol(Idle, EMPTY));
      if n in config {
        StateKeepsInv(n, Protocol(Idle, EMPTY), config[n].url);
      }
    }
  }

  predicate SameRegistry(s: System, r: System) {
    r.config == s.config && r.telegram == s.telegram && r.table == s.table
  }

  lemma LandingKeepsRegistry(s: System, t: nat, q: Protocol)
    requires t < |s.tasks|
    ensures SameRegistry(s, Landed(s, t, q))
  {
  }

  lemma RespondKeepsRegistry(s: System, t: nat, result: CheckResult)
    requires t < |s.tasks|
    ensures SameRegistry(s, Responded(s, t, result))
  {
  }

  lemma AbortKeepsRegistry(s: System, t: nat)
    requires t < |s.tasks|
    ensures SameRegistry(s, Aborted(s, t)) && SameRegistry(s, Acquired(s, t))
  {
  }

  lemma OnlyRemovalTouchesRegistry(s: System, t: nat, step: TaskStep)
    requires t < |s.tasks| && StepEnabled(s, t, step) && !step.FinishRemoval?
    ensures SameRegistry(s, Stepped(s, t, step))
  {
    match step
    case Respond(result) => RespondKeepsRegistry(s, t, result);
    case Continue(m) => LandingKeepsRegistry(s, t, Do(s.tasks[t].service.name, ShareOfTask(s, t), m));
    case Acquire => AbortKeepsRegistry(s, t);
    case Abort => AbortKeepsRegistry(s, t);
    case Enqueue =>
    case TakePermit =>
    case FinishLoad =>
  }

  lemma RemovalKeepsRegistry(s: System, t: nat)
    requires RegistryMatchesTable(s) && t < |s.tasks| && s.tasks[t].service.name !in s.config
    ensures RegistryMatchesTable(Removed(s, t))
  {
  }

  lemma EditsKeepRegistry(s: System, a: Action)
    requires RegistryMatchesTable(s) && Enabled(s, a) && (a.Add? || a.SetEnabled?)
    ensures RegistryMatchesTable(Next(s, a))
  {
  }

  lemma RebornMatchesTable(s: System, config: map<string, Service>, th: Thresholds, capacity: nat)
    requires WellNamed(config)
    ensures RegistryMatchesTable(Reborn(s, config, th, capacity))
  {
  }

  lemma ActionKeepsRegistry(s: System, a: Action)
    requires RegistryMatchesTable(s) && Locks(s) && Enabled(s, a)
    ensures RegistryMatchesTable(Next(s, a))
  {
    match a
    case TaskAction(t, step) =>
      if step.FinishRemoval? {
        assert TaskOk(s, s.tasks[t]);
        RemovalKeepsRegistry(s, t);
      } else {
        OnlyRemovalTouchesRegistry(s, t, step);
      }
    case Restart(config, th, capacity, delivered) => RebornMatchesTable(s, config, th, capacity);
    case Add(_) => EditsKeepRegistry(s, a);
    case SetEnabled(_, _) => EditsKeepRegistry(s, a);
    case _ =>
  }

  lemma MoveOnMem(name: string, p: Protocol, m: Move)
    requires Can(p, m) && !m.Delete? && !m.Crash?
    ensures Do(name, p, m).cell.mem.Some? == (p.cell.mem.Some? || m.Apply? || m.Load?)
  {
  }

  lemma StepKeepsStates(s: System, t: nat, step: TaskStep, n: string)
    requires Locks(s) && StatesMatchRegistry(s) && t < |s.tasks| && StepEnabled(s, t, step)
    ensures CellOf(Stepped(s, t, step), n).mem.Some? <==> Registered(Stepped(s, t, step), n)
  {
    StepOnShare(s, t, step, n);
    assert TaskOk(s, s.tasks[t]);
    if !step.FinishRemoval? {
      OnlyRemovalTouchesRegistry(s, t, step);
      if n == s.tasks[t].service.name && StepMove(s, t, step).Some? {
        MoveOnMem(n, Share(s, n), StepMove(s, t, step).value);
      }
    }
  }

  lemma RestartKeepsStates(s: System, a: Action, n: string)
    requires a.Restart? && Enabled(s, a)
    ensures CellOf(Next(s, a), n).mem.Some? <==> Registered(Next(s, a), n)
  {
  }

  lemma AddKeepsStates(s: System, service: Service, n: string)
    requires StatesMatchRegistry(s)
    ensures CellOf(Added(s, service), n).mem.Some? <==> Registered(Added(s, service), n)
  {
    assert CellOf(s, n).mem.Some? <==> Registered(s, n);
  }

  lemma ActionKeepsStates(s: System, a: Action, n: string)
    requires Locks(s) && StatesMatchRegistry(s) && Enabled(s, a)
    ensures CellOf(Next(s, a), n).mem.Some? <==> Registered(Next(s, a), n)
  {
    match a
    case TaskAction(t, step) => StepKeepsStates(s, t, step, n);
    case Restart(_, _, _, _) => RestartKeepsStates(s, a, n);
    case Add(service) => AddKeepsStates(s, service, n);
    case _ => assert CellOf(s, n).mem.Some? <==> Registered(s, n);
  }

  lemma ActionKeepsShare(s: System, a: Action, n: string)
    requires SystemInv(s) && Enabled(s, a) && Orderly(s, a)
    ensures Inv(n, Share(Next(s, a), n)) && Tally(Share(Next(s, a), n))
  {
    ActionIsMoveOnEachShare(s, a, n);
    assert Inv(n, Share(s, n)) && Tally(Share(s, n));
    match MoveFor(s, a, n)
    case None =>
    case Some(m) =>
      MoveKeepsInv(n, Share(s, n), m);
      MoveKeepsTally(n, Share(s, n), m);
  }

  lemma ActionKeepsSystemInv(s: System, a: Action)
    requires SystemInv(s) && Enabled(s, a) && Orderly(s, a)
    ensures SystemInv(Next(s, a))
  {
    ActionKeepsLocks(s, a);
    ActionKeepsPermits(s, a);
    ActionKeepsRegistry(s, a);
    forall n ensures CellOf(Next(s, a), n).mem.Some? <==> Registered(Next(s, a), n) {
      ActionKeepsStates(s, a, n);
    }
    forall n ensures Inv(n, Share(Next(s, a), n)) && Tally(Share(Next(s, a), n)) {
      ActionKeepsShare(s, a, n);
    }
  }

  lemma {:induction false} RunKeepsSystemInv(s: System, run: seq<Action>)
    requires SystemInv(s) && Runs(s, run)
    ensures SystemInv(Final(s, run))
    decreases |run|
  {
    if run == [] {
    } else {
      ActionKeepsSystemInv(s, run[0]);
      RunKeepsSystemInv(Next(s, run[0]), run[1..]);
    }
  }
}
