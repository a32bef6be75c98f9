/** The promises of the whole monitor, over every run with any interleaving, failures and restarts. */
module MonitorGuarantees {
  import opened Models
  import opened StateMachine
  import opened Hysteresis
  import Reading
  import opened Outages
  import opened AlertProtocol
  import opened AlertTally
  import opened AlertGuarantees
  import opened Monitor
  import opened MonitorLocks
  import opened MonitorPermits
  import opened MonitorShares
  import opened MonitorRuns

  ghost function LogOf(s: System, name: string): seq<Alert> {
    CellOf(s, name).log
  }

  /**
   * The alerts delivered for a service begin with DOWN and repeat a kind at most once per fault: per
   * copy delivered whose answer or whose mark was lost. Without a fault they strictly alternate, and what is
   * stored as `notified_status` (outside the moment between delivery and its save) is what was delivered last.
   */
  lemma AlertsInEveryRun(config: map<string, Service>, capacity: nat, run: seq<Action>, name: string)
    requires WellNamed(config) && capacity >= 1 && Runs(Init(config, capacity), run)
    ensures var s := Final(Init(config, capacity), run);
            var c := CellOf(s, name);
            && (c.log != [] ==> c.log[0].kind == DownAlert)
            && Repeats(c.log) <= c.faults
            && (c.faults == 0 ==> Alternates(c.log))
            && (c.faults == 0 && c.row.Some? && PhaseOf(s, name) != Marking ==> InSync(c.row.value, c.log))
            && (c.faults == 0 && MemIsStoredIncarnation(c) ==> InSync(c.mem.value, c.log))
  {
    var s0 := Init(config, capacity);
    InitHasSystemInv(config, capacity);
    RunKeepsSystemInv(s0, run);
    assert Inv(name, Share(Final(s0, run), name));
    NoRepeatIsAlternation(LogOf(Final(s0, run), name));
  }

  /** Every RECOVERED message carries a downtime, and it is that of the outage it ended. */
  lemma DowntimesInEveryRun(config: map<string, Service>, capacity: nat, run: seq<Action>, name: string, a: Alert)
    requires WellNamed(config) && capacity >= 1 && Runs(Init(config, capacity), run)
    requires a in LogOf(Final(Init(config, capacity), run), name) && a.kind == RecoveredAlert
    ensures var c := CellOf(Final(Init(config, capacity), run), name);
            c.row.Some? && ReportsLastOutage(Fresh(name, c.row.value.url), a.at, a.downtime)
  {
    var s0 := Init(config, capacity);
    InitHasSystemInv(config, capacity);
    RunKeepsSystemInv(s0, run);
    RecoveriesReportTheirOutage(name, Share(Final(s0, run), name), a);
  }

  /** What is pending is exactly what contradicts the last message, exactly while it is remembered right. */
  lemma PendingInEveryRun(config: map<string, Service>, capacity: nat, run: seq<Action>, name: string)
    requires WellNamed(config) && capacity >= 1 && Runs(Init(config, capacity), run)
    ensures var c := CellOf(Final(Init(config, capacity), run), name);
            && (c.row.Some? ==> (PendingIsRight(c.row.value, c.log) <==> InSync(c.row.value, c.log)))
            && (MemIsStoredIncarnation(c) ==> (PendingIsRight(c.mem.value, c.log) <==> InSync(c.mem.value, c.log)))
  {
    var s0 := Init(config, capacity);
    InitHasSystemInv(config, capacity);
    RunKeepsSystemInv(s0, run);
    PendingIsWhatTheUserDoesNotKnow(name, Share(Final(s0, run), name));
  }

  /** No action of the run is a fault for this name. */
  ghost predicate Faultless(s: System, run: seq<Action>, name: string)
    requires Runs(s, run)
    decreases |run|
  {
    run == [] || (NoFault(s, run[0], name) && Faultless(Next(s, run[0]), run[1..], name))
  }

  ghost predicate NoFault(s: System, a: Action, name: string)
    requires Enabled(s, a)
  {
    var m := MoveFor(s, a, name);
    m.Some? ==> !IsFault(Share(s, name), m.value)
  }

  lemma ActionStaysInStep(s: System, a: Action, name: string)
    requires SystemInv(s) && Enabled(s, a) && Orderly(s, a) && NoFault(s, a, name) && !InDebt(Share(s, name))
    ensures !InDebt(Share(Next(s, a), name))
    ensures Repeats(LogOf(Next(s, a), name)) <= Repeats(LogOf(s, name))
  {
    ActionIsMoveOnEachShare(s, a, name);
    assert Inv(name, Share(s, name));
    var m := MoveFor(s, a, name);
    if m.Some? {
      OnlyFaultsLoseStep(name, Share(s, name), m.value);
      RepeatsAreOutOfStep(name, Share(s, name), m.value);
    }
  }

  /** Faults are forgiven: once memory and store are in step again, only a new fault can cause a repeat. */
  lemma {:induction false} InStepUntilTheNextFault(s: System, run: seq<Action>, name: string)
    requires SystemInv(s) && Runs(s, run) && Faultless(s, run, name) && !InDebt(Share(s, name))
    ensures !InDebt(Share(Final(s, run), name))
    ensures Repeats(LogOf(Final(s, run), name)) <= Repeats(LogOf(s, name))
    decreases |run|
  {
    if run == [] {
    } else {
      ActionStaysInStep(s, run[0], name);
      ActionKeepsSystemInv(s, run[0]);
      InStepUntilTheNextFault(Next(s, run[0]), run[1..], name);
    }
  }

  /** All along the run nothing new is delivered, and the row is that of the same incarnation. */
  ghost predicate NothingDelivered(s: System, run: seq<Action>, name: string, url: string, log: seq<Alert>)
    requires Runs(s, run)
    decreases |run|
  {
    && RowIsFor(CellOf(s, name), url) && LogOf(s, name) == log
    && (run == [] || NothingDelivered(Next(s, run[0]), run[1..], name, url, log))
  }

  ghost predicate InStep(s: System, name: string) {
    !InDebt(Share(s, name)) && PhaseOf(s, name) != Marking
  }

  lemma UndeliveringActionStaysInStep(s: System, a: Action, name: string, url: string)
    requires SystemInv(s) && Enabled(s, a) && Orderly(s, a) && InStep(s, name) && RowIsFor(CellOf(s, name), url)
    ensures RowIsFor(CellOf(Next(s, a), name), url) && LogOf(Next(s, a), name) == LogOf(s, name) ==>
              InStep(Next(s, a), name)
  {
    ActionIsMoveOnEachShare(s, a, name);
    assert Inv(name, Share(s, name));
    var m := MoveFor(s, a, name);
    if m.Some? && RowIsFor(CellOf(Next(s, a), name), url) && LogOf(Next(s, a), name) == LogOf(s, name) {
      UndeliveringMoveStaysInStep(name, Share(s, name), m.value);
    }
  }

  lemma {:induction false} UndeliveringRunStaysInStep(s: System, run: seq<Action>, name: string, url: string)
    requires SystemInv(s) && Runs(s, run) && InStep(s, name) && NothingDelivered(s, run, name, url, LogOf(s, name))
    ensures InStep(Final(s, run), name) && RowIsFor(CellOf(Final(s, run), name), url)
    ensures LogOf(Final(s, run), name) == LogOf(s, name)
    decreases |run|
  {
    if run == [] {
    } else {
      UndeliveringActionStaysInStep(s, run[0], name, url);
      ActionKeepsSystemInv(s, run[0]);
      UndeliveringRunStaysInStep(Next(s, run[0]), run[1..], name, url);
    }
  }

  /** All along the run no send for this name returns, and the row is that of the same incarnation. */
  ghost predicate NothingSent(s: System, run: seq<Action>, name: string, url: string)
    requires Runs(s, run)
    decreases |run|
  {
    && RowIsFor(CellOf(s, name), url)
    && (run == [] || (MoveFor(s, run[0], name) != Some(Send) && NothingSent(Next(s, run[0]), run[1..], name, url)))
  }

  lemma ActionStaysLevel(s: System, a: Action, name: string, url: string)
    requires SystemInv(s) && Enabled(s, a) && Orderly(s, a) && MoveFor(s, a, name) != Some(Send)
    requires Level(Share(s, name)) && RowIsFor(CellOf(s, name), url)
    ensures RowIsFor(CellOf(Next(s, a), name), url) ==>
              Level(Share(Next(s, a), name)) &&
              SameKnowledge(CellOf(s, name).row.value, CellOf(Next(s, a), name).row.value)
  {
    ActionIsMoveOnEachShare(s, a, name);
    assert Inv(name, Share(s, name));
    var m := MoveFor(s, a, name);
    if m.Some? && RowIsFor(CellOf(Next(s, a), name), url) {
      PendingSurvives(name, Share(s, name), m.value);
    }
  }

  lemma {:induction false} RunStaysLevel(s: System, run: seq<Action>, name: string, url: string)
    requires SystemInv(s) && Runs(s, run) && Level(Share(s, name)) && NothingSent(s, run, name, url)
    ensures Level(Share(Final(s, run), name)) && RowIsFor(CellOf(Final(s, run), name), url)
    ensures SameKnowledge(CellOf(s, name).row.value, CellOf(Final(s, run), name).row.value)
    decreases |run|
  {
    if run == [] {
    } else {
      ActionStaysLevel(s, run[0], name, url);
      ActionKeepsSystemInv(s, run[0]);
      RunStaysLevel(Next(s, run[0]), run[1..], name, url);
    }
  }

  /**
   * No lost alert: until a send returns, whatever fails, arrives unacknowledged, is ignored, crashes or
   * restarts, the stored row leaves pending what the first one would in the new status; so does memory.
   */
  lemma PendingSurvivesEveryRun(s: System, run: seq<Action>, name: string, url: string)
    requires SystemInv(s) && Runs(s, run) && Level(Share(s, name)) && NothingSent(s, run, name, url)
    ensures var row, d := CellOf(s, name).row.value, CellOf(Final(s, run), name);
            && d.row.Some? && PendingAlert(d.row.value) == PendingAlert(row.(status := d.row.value.status))
            && (MemIsStoredIncarnation(d) ==>
                  PendingAlert(d.mem.value) == PendingAlert(row.(status := d.mem.value.status)))
  {
    RunStaysLevel(s, run, name, url);
    var row, d := CellOf(s, name).row.value, CellOf(Final(s, run), name);
    KnowledgeDecides(row, d.row.value);
    if MemIsStoredIncarnation(d) {
      KnowledgeDecides(row, d.mem.value);
    }
  }

  /** With fixed thresholds, k delivered DOWN alerts took at least k * failure failed checks. */
  lemma AlertsCostChecksInEveryRun(config: map<string, Service>, capacity: nat, run: seq<Action>, name: string,
                                   th: Thresholds)
    requires WellNamed(config) && capacity >= 1 && Runs(Init(config, capacity), run)
    requires th.failure >= 1 && th.recovery >= 1
    ensures var s := Final(Init(config, capacity), run);
            var c := CellOf(s, name);
            c.faults == 0 && c.row.Some? && PhaseOf(s, name) != Marking && Reading.Uses(c.rowHist, th) ==>
              Failures(c.rowHist) >= DownsDelivered(c.log) * th.failure &&
              Successes(c.rowHist) >= (DownsDelivered(c.log) - 1) * th.recovery
  {
    var s0 := Init(config, capacity);
    InitHasSystemInv(config, capacity);
    RunKeepsSystemInv(s0, run);
    var s := Final(s0, run);
    var c := CellOf(s, name);
    if c.faults == 0 && c.row.Some? && PhaseOf(s, name) != Marking && Reading.Uses(c.rowHist, th) {
      DeliveredAlertsArePaidFor(name, Share(s, name), th);
    }
  }

  /** At most one task per name is past its lock, and at most `capacity` HTTP requests are in progress. */
  lemma ExclusionInEveryRun(config: map<string, Service>, capacity: nat, run: seq<Action>)
    requires WellNamed(config) && capacity >= 1 && Runs(Init(config, capacity), run)
    ensures var s := Final(Init(config, capacity), run);
            OneHolderEach(s) && InProgress(s.tasks) <= s.capacity
  {
    InitHasSystemInv(config, capacity);
    RunKeepsSystemInv(Init(config, capacity), run);
    LocksGiveOneHolderEach(Final(Init(config, capacity), run));
  }

  /** While nobody holds its lock, and unless its last save raised, memory is what the store would give back. */
  lemma MemoryMatchesStoreInEveryRun(config: map<string, Service>, capacity: nat, run: seq<Action>, name: string)
    requires WellNamed(config) && capacity >= 1 && Runs(Init(config, capacity), run)
    ensures var s := Final(Init(config, capacity), run);
            (forall t: nat :: !HolderOf(s, name, t)) && !CellOf(s, name).dirty ==> MemMatchesRow(name, CellOf(s, name))
  {
    InitHasSystemInv(config, capacity);
    RunKeepsSystemInv(Init(config, capacity), run);
    assert Inv(name, Share(Final(Init(config, capacity), run), name));
  }

  /** The new registry monitors the name at the URL its state is for, or neither knows the name. */
  predicate SameTarget(r: System, name: string, mem: Option<State>) {
    match mem
    case None => !Registered(r, name)
    case Some(state) => Registered(r, name) && Lookup(r, name).value.url == state.url
  }

  lemma IdleCrashChangesNothing(name: string, p: Protocol, url: Option<string>)
    requires PhaseTrue(name, p) && p.phase == Idle && !p.cell.dirty
    requires url == match p.cell.mem case None => None case Some(state) => Some(state.url)
    ensures var d := Do(name, p, Crash(false, url)).cell;
            d.mem == p.cell.mem && d.row == p.cell.row && d.log == p.cell.log && d.faults == p.cell.faults
  {
  }

  /** Then restarting with the same services changes nothing about that name. */
  lemma RestartIsInvisible(s: System, config: map<string, Service>, th: Thresholds, capacity: nat, name: string)
    requires SystemInv(s) && Enabled(s, Restart(config, th, capacity, {}))
    requires (forall t: nat :: !HolderOf(s, name, t)) && !CellOf(s, name).dirty
    requires SameTarget(Reborn(s, config, th, capacity), name, CellOf(s, name).mem)
    ensures var c, d := CellOf(s, name), CellOf(Next(s, Restart(config, th, capacity, {})), name);
            d.mem == c.mem && d.row == c.row && d.log == c.log && d.faults == c.faults
  {
    RestartOnShare(s, config, th, capacity, {}, name);
    assert Inv(name, Share(s, name));
    IdleCrashChangesNothing(name, Share(s, name), CrashOf(Reborn(s, config, th, capacity), name, false).monitored);
  }

  lemma CrashKeepsRowAndLog(name: string, p: Protocol, delivered: bool, url: Option<string>)
    requires Can(p, Crash(delivered, url))
    ensures var d := Do(name, p, Crash(delivered, url)).cell;
            d.row == p.cell.row && d.log == p.cell.log + if delivered then [AlertFor(p.cell, p.phase.kind)] else []
  {
  }

  /** The process may die at any moment: rows stay as they are, and any message on its way may have arrived. */
  lemma RestartKeepsRows(s: System, config: map<string, Service>, th: Thresholds, capacity: nat,
                         arrived: set<string>, name: string)
    requires SystemInv(s) && WellNamed(config) && capacity >= 1
    requires forall n :: n in arrived ==> exists t: nat :: HolderOf(s, n, t) && s.tasks[t].pc.SendingAlert?
    ensures Enabled(s, Restart(config, th, capacity, arrived))
    ensures var r := Next(s, Restart(config, th, capacity, arrived));
            var c, d := CellOf(s, name), CellOf(r, name);
            && r.table == s.table && d.row == c.row
            && (name in arrived ==> PhaseOf(s, name).Sending? && c.mem.Some?)
            && d.log == c.log + if name in arrived then [AlertFor(c, PhaseOf(s, name).kind)] else []
  {
    forall n | n in arrived ensures InFlight(s, n) {
      var t: nat :| HolderOf(s, n, t) && s.tasks[t].pc.SendingAlert?;
      SenderIsInFlight(s, n, t);
    }
    RestartOnShare(s, config, th, capacity, arrived, name);
    var delivered := name in arrived;
    CrashKeepsRowAndLog(name, Share(s, name), delivered,
                        CrashOf(Reborn(s, config, th, capacity), name, delivered).monitored);
  }

  lemma SenderIsInFlight(s: System, name: string, t: nat)
    requires SystemInv(s) && HolderOf(s, name, t) && s.tasks[t].pc.SendingAlert?
    ensures InFlight(s, name)
  {
    LocksGiveOneHolderEach(s);
    PhaseOfHolder(s, name, t);
    assert Inv(name, Share(s, name));
  }

  // --- removal -------------------------------------------------------------------------------

  /** Nothing about this name is left in the registry, the two tables or memory. */
  predicate Gone(s: System, name: string) {
    !Registered(s, name) && name !in s.table && CellOf(s, name).row == None && CellOf(s, name).mem == None
  }

  predicate Revives(a: Action, name: string) {
    (a.Add? && a.service.name == name) || (a.Restart? && name in a.config)
  }

  lemma RemovalIsComplete(s: System, t: nat)
    requires SystemInv(s) && t < |s.tasks| && StepEnabled(s, t, FinishRemoval)
    ensures Gone(Removed(s, t), s.tasks[t].service.name)
  {
    assert TaskOk(s, s.tasks[t]);
  }

  lemma PhaseOfTaskHere(s: System, t: nat)
    requires Locks(s) && t < |s.tasks| && Holds(s.tasks[t])
    ensures PhaseOf(s, s.tasks[t].service.name) != Idle
  {
    LocksGiveOneHolderEach(s);
    PhaseOfHolder(s, s.tasks[t].service.name, t);
  }

  lemma StepLeavesGoneAlone(s: System, t: nat, step: TaskStep, name: string)
    requires Locks(s) && t < |s.tasks| && StepEnabled(s, t, step) && Gone(s, name)
    ensures Gone(Stepped(s, t, step), name)
  {
    StepOnShare(s, t, step, name);
    UnregisteredIsIdle(s, name);
    if Holds(s.tasks[t]) {
      PhaseOfTaskHere(s, t);
    }
    if !step.FinishRemoval? {
      OnlyRemovalTouchesRegistry(s, t, step);
    }
  }

  lemma RestartLeavesGoneAlone(s: System, a: Action, name: string)
    requires SystemInv(s) && a.Restart? && Enabled(s, a) && Gone(s, name) && name !in a.config
    ensures Gone(Next(s, a), name)
  {
    UnregisteredIsIdle(s, name);
    RestartOnShare(s, a.config, a.th, a.capacity, a.delivered, name);
  }

  lemma AddLeavesGoneAlone(s: System, service: Service, name: string)
    requires Gone(s, name) && service.name != name
    ensures Gone(Added(s, service), name)
  {
  }

  lemma GoneIsLeftAlone(s: System, a: Action, name: string)
    requires SystemInv(s) && Enabled(s, a) && Orderly(s, a) && Gone(s, name) && !Revives(a, name)
    ensures Gone(Next(s, a), name)
  {
    match a
    case TaskAction(t, step) => StepLeavesGoneAlone(s, t, step, name);
    case Restart(_, _, _, _) => RestartLeavesGoneAlone(s, a, name);
    case Add(service) => AddLeavesGoneAlone(s, service, name);
    case RequestCheck(_) =>
    case RequestRemoval(_) =>
    case SetEnabled(_, _) =>
  }

  /** No resurrection: whatever was running or queued, a removed name is never written again. */
  lemma {:induction false} RemovedStaysRemoved(s: System, run: seq<Action>, name: string)
    requires SystemInv(s) && Runs(s, run) && Gone(s, name)
    requires forall a :: a in run ==> !Revives(a, name)
    ensures Gone(Final(s, run), name)
    decreases |run|
  {
    if run == [] {
    } else {
      assert run[0] in run;
      GoneIsLeftAlone(s, run[0], name);
      ActionKeepsSystemInv(s, run[0]);
      RemovedStaysRemoved(Next(s, run[0]), run[1..], name);
    }
  }
}
