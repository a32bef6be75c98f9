/**
 * The monitor as a transition system: any number of checks and removals run concurrently over shared
 * memory and tables, and the process may die and restart between any two steps. An action is the code
 * between two awaits of one task, or something the surroundings do.
 */
module Monitor {
  import opened Models
  import opened StateMachine
  import opened AlertProtocol

  /** A service as the registry describes it: what a check takes along when it is requested. */
  datatype Service = Service(name: string, url: string, enabled: bool, th: Thresholds)

  /** A row of the table of services added from Telegram. */
  datatype Record = Record(url: string, enabled: bool)

  datatype Pc =
    | Requested
    | Queued
    | WantsPermit
    | Requesting
    | LoadingState(result: CheckResult)
    | SavingState
    | SendingAlert(kind: AlertKind, more: nat)
    | SavingMark
    | RemovalRequested
    | RemovalQueued
    | Removing
    | Done

  /** `lock` is the lock object a task found in `locks`; meaningful once it is queued. */
  datatype Task = Task(service: Service, lock: nat, pc: Pc)

  datatype System = System(
    config: map<string, Service>,
    telegram: map<string, Service>,
    table: map<string, Record>,
    cells: map<string, Cell>,
    locks: map<string, nat>,
    held: set<nat>,
    nextLock: nat,
    permits: nat,
    capacity: nat,
    tasks: seq<Task>)

  /** What one task does between two awaits. */
  datatype TaskStep =
    | Enqueue
    | Acquire
    | TakePermit
    | Respond(result: CheckResult)
    | FinishLoad
    | FinishRemoval
    | Abort
    | Continue(move: Move)

  datatype Action =
    | RequestCheck(name: string)
    | RequestRemoval(name: string)
    | TaskAction(t: nat, step: TaskStep)
    | Add(service: Service)
    | SetEnabled(name: string, enabled: bool)
    | Restart(config: map<string, Service>, th: Thresholds, capacity: nat, delivered: set<string>)

  // --- reading the system --------------------------------------------------------------------

  function Lookup(s: System, name: string): Option<Service> {
    if name in s.config then Some(s.config[name])
    else if name in s.telegram then Some(s.telegram[name])
    else None
  }

  predicate Registered(s: System, name: string) {
    name in s.config || name in s.telegram
  }

  function CellOf(s: System, name: string): Cell {
    if name in s.cells then s.cells[name] else EMPTY
  }

  /** Which part of the alert protocol a task is in; `Idle` unless it holds its lock. */
  function PhaseOfTask(t: Task): Phase {
    match t.pc
    case WantsPermit => Entered
    case Requesting => Entered
    case LoadingState(_) => Entered
    case Removing => Entered
    case SavingState => Saving(t.service.enabled)
    case SendingAlert(kind, more) => Sending(kind, more)
    case SavingMark => Marking
    case _ => Idle
  }

  predicate Holds(t: Task) {
    PhaseOfTask(t) != Idle
  }

  predicate Waits(t: Task) {
    t.pc == Queued || t.pc == RemovalQueued
  }

  predicate HolderOf(s: System, name: string, t: nat) {
    t < |s.tasks| && s.tasks[t].service.name == name && Holds(s.tasks[t])
  }

  ghost function PhaseOf(s: System, name: string): Phase {
    if t: nat :| HolderOf(s, name, t) then PhaseOfTask(s.tasks[t]) else Idle
  }

  /** One name's share of the system: a state of the alert protocol. */
  ghost function Share(s: System, name: string): Protocol {
    Protocol(PhaseOf(s, name), CellOf(s, name))
  }

  // --- steps ---------------------------------------------------------------------------------

  function WithPc(tasks: seq<Task>, t: nat, pc: Pc): (r: seq<Task>)
    requires t < |tasks|
    ensures |r| == |tasks| && r[t] == tasks[t].(pc := pc)
  {
    tasks[t := tasks[t].(pc := pc)]
  }

  function SetPc(s: System, t: nat, pc: Pc): System
    requires t < |s.tasks|
  {
    s.(tasks := WithPc(s.tasks, t, pc))
  }

  function SetCell(s: System, name: string, c: Cell): System {
    s.(cells := s.cells[name := c])
  }

  /** `locks[name]`: the lock object of this name, created on first use. */
  function Enqueued(s: System, t: nat): (r: System)
    requires t < |s.tasks|
    ensures |r.tasks| == |s.tasks|
  {
    var task := s.tasks[t];
    var isNew := task.service.name !in s.locks;
    var lock := if isNew then s.nextLock else s.locks[task.service.name];
    s.(locks := s.locks[task.service.name := lock],
    nextLock := if isNew then s.nextLock + 1 else s.nextLock,
    tasks := s.tasks[t := Task(task.service, lock, if task.pc == RemovalRequested then RemovalQueued else Queued)])
  }

  /** A check of a removed service and a refused removal end once they have looked the name up. */
  function AcquiredPc(s: System, t: nat): Pc
    requires t < |s.tasks|
  {
    var name := s.tasks[t].service.name;
    if s.tasks[t].pc == RemovalQueued then if name in s.telegram && name !in s.config then Removing else Done
    else if Registered(s, name) then WantsPermit else Done
  }

  /** Takes the lock, and keeps it unless that is the end. */
  function Acquired(s: System, t: nat): (r: System)
    requires t < |s.tasks|
    ensures r.tasks == WithPc(s.tasks, t, AcquiredPc(s, t))
  {
    var pc := AcquiredPc(s, t);
    s.(tasks := WithPc(s.tasks, t, pc), held := if pc == Done then s.held else s.held + {s.tasks[t].lock})
  }

  function WithResult(s: System, t: nat, result: CheckResult): (r: System)
    requires t < |s.tasks|
    ensures r.tasks == WithPc(s.tasks, t, SavingState)
  {
    var v := s.tasks[t].service;
    SetPc(SetCell(s, v.name, WithCheck(CellOf(s, v.name), v.name, v.url, result, v.th)), t, SavingState)
  }

  /** The state is loaded first, unless memory has it. */
  function AnsweredPc(s: System, t: nat, result: CheckResult): Pc
    requires t < |s.tasks|
  {
    var mem := CellOf(s, s.tasks[t].service.name).mem;
    if mem.Some? && mem.value.url == s.tasks[t].service.url then SavingState else LoadingState(result)
  }

  function Responded(s: System, t: nat, result: CheckResult): (r: System)
    requires t < |s.tasks|
    ensures r.tasks == WithPc(s.tasks, t, AnsweredPc(s, t, result))
  {
    var v, pc := s.tasks[t].service, AnsweredPc(s, t, result);
    s.(permits := s.permits + 1, tasks := WithPc(s.tasks, t, pc),
    cells := if pc == SavingState
             then s.cells[v.name := WithCheck(CellOf(s, v.name), v.name, v.url, result, v.th)] else s.cells)
  }

  /** From the first save on, a check is the alert protocol itself. */
  predicate IsCheckMove(m: Move) {
    m.Save? || m.SaveRaises? || m.PostAgain? || m.Send? || m.SendRaises? || m.Mark? || m.MarkRaises?
  }

  function ShareOfTask(s: System, t: nat): Protocol
    requires t < |s.tasks|
  {
    Protocol(PhaseOfTask(s.tasks[t]), CellOf(s, s.tasks[t].service.name))
  }

  function PcOf(phase: Phase): Pc {
    match phase
    case Sending(kind, more) => SendingAlert(kind, more)
    case Marking => SavingMark
    case _ => Done
  }

  /** A task goes where its protocol goes: on to the next await, or out of the lock. */
  function Landed(s: System, t: nat, q: Protocol): (r: System)
    requires t < |s.tasks|
    ensures r.tasks == WithPc(s.tasks, t, PcOf(q.phase))
  {
    var pc := PcOf(q.phase);
    s.(cells := s.cells[s.tasks[t].service.name := q.cell], tasks := WithPc(s.tasks, t, pc),
    held := if pc == Done then s.held - {s.tasks[t].lock} else s.held)
  }

  function Moved(s: System, t: nat, m: Move): (r: System)
    requires t < |s.tasks| && Can(ShareOfTask(s, t), m)
    ensures r.tasks == WithPc(s.tasks, t, PcOf(Do(s.tasks[t].service.name, ShareOfTask(s, t), m).phase))
  {
    Landed(s, t, Do(s.tasks[t].service.name, ShareOfTask(s, t), m))
  }

  /** The row, the registry entry, the in-memory state and the lock object go together. */
  function Removed(s: System, t: nat): (r: System)
    requires t < |s.tasks|
    ensures r.tasks == WithPc(s.tasks, t, Done)
  {
    var name := s.tasks[t].service.name;
    s.(cells := s.cells[name := EMPTY], tasks := WithPc(s.tasks, t, Done), held := s.held - {s.tasks[t].lock},
    telegram := s.telegram - {name}, table := s.table - {name}, locks := s.locks - {name})
  }

  function Aborted(s: System, t: nat): (r: System)
    requires t < |s.tasks|
    ensures r.tasks == WithPc(s.tasks, t, Done)
  {
    s.(tasks := WithPc(s.tasks, t, Done),
    held := if Holds(s.tasks[t]) then s.held - {s.tasks[t].lock} else s.held,
    permits := if s.tasks[t].pc == Requesting then s.permits + 1 else s.permits)
  }

  function Added(s: System, service: Service): System {
    SetCell(s, service.name, WithState(CellOf(s, service.name), service.name, service.url)).(
    telegram := s.telegram[service.name := service],
    table := s.table[service.name := Record(service.url, service.enabled)])
  }

  function Toggled(s: System, name: string, enabled: bool): System
    requires name in s.telegram && name in s.table
  {
    s.(telegram := s.telegram[name := s.telegram[name].(enabled := enabled)],
    table := s.table[name := s.table[name].(enabled := enabled)])
  }

  function FromTable(table: map<string, Record>, config: map<string, Service>, th: Thresholds): map<string, Service> {
    map n | n in table.Keys - config.Keys :: Service(n, table[n].url, table[n].enabled, th)
  }

  /** An alert of this name is on its way: it may have been delivered without anyone knowing yet. */
  ghost predicate InFlight(s: System, name: string) {
    PhaseOf(s, name).Sending? && CellOf(s, name).mem.Some?
  }

  ghost predicate OnlyInFlight(s: System, names: set<string>) {
    forall n :: n in names ==> InFlight(s, n)
  }

  ghost function CellAfterRestart(s: System, r: System, name: string, delivered: bool): Cell
    requires delivered ==> InFlight(s, name)
  {
    Do(name, Share(s, name), CrashOf(r, name, delivered)).cell
  }

  function CrashOf(r: System, name: string, delivered: bool): Move {
    Crash(delivered, match Lookup(r, name) case None => None case Some(v) => Some(v.url))
  }

  /** The new process before any state is loaded: the tables survive, the registry is read again. */
  function Reborn(s: System, config: map<string, Service>, th: Thresholds, capacity: nat): System {
    System(config, FromTable(s.table, config, th), s.table, map[], map[], {}, 0, capacity, capacity, [])
  }

  ghost function Restarted(s: System, r: System, delivered: set<string>): System
    requires OnlyInFlight(s, delivered)
  {
    var names := s.cells.Keys + r.config.Keys + r.telegram.Keys;
    r.(cells := map n | n in names :: CellAfterRestart(s, r, n, n in delivered))
  }

  predicate StepEnabled(s: System, t: nat, step: TaskStep)
    requires t < |s.tasks|
  {
    var task := s.tasks[t];
    match step
    case Enqueue => task.pc == Requested || task.pc == RemovalRequested
    case Acquire => Waits(task) && task.lock !in s.held
    case TakePermit => task.pc == WantsPermit && s.permits > 0
    case Respond(_) => task.pc == Requesting
    case FinishLoad => task.pc.LoadingState?
    case FinishRemoval => task.pc == Removing
    case Abort => task.pc != Done && PhaseOfTask(task) in {Idle, Entered}
    case Continue(m) => IsCheckMove(m) && Can(ShareOfTask(s, t), m)
  }

  function Stepped(s: System, t: nat, step: TaskStep): (r: System)
    requires t < |s.tasks| && StepEnabled(s, t, step)
    ensures |r.tasks| == |s.tasks|
  {
    match step
    case Enqueue => Enqueued(s, t)
    case Acquire => Acquired(s, t)
    case TakePermit => SetPc(s, t, Requesting).(permits := s.permits - 1)
    case Respond(result) => Responded(s, t, result)
    case FinishLoad => WithResult(s, t, s.tasks[t].pc.result)
    case FinishRemoval => Removed(s, t)
    case Abort => Aborted(s, t)
    case Continue(m) => Moved(s, t, m)
  }

  ghost predicate Enabled(s: System, a: Action) {
    match a
    case RequestCheck(name) => Registered(s, name)
    case RequestRemoval(name) => true
    case TaskAction(t, step) => t < |s.tasks| && StepEnabled(s, t, step)
    case Add(service) => !Registered(s, service.name)
    case SetEnabled(name, _) => name in s.telegram && name in s.table
    case Restart(config, _, capacity, delivered) =>
      capacity >= 1 && (forall n :: n in config ==> config[n].name == n) && OnlyInFlight(s, delivered)
  }

  ghost function Next(s: System, a: Action): System
    requires Enabled(s, a)
  {
    match a
    case RequestCheck(name) => s.(tasks := s.tasks + [Task(Lookup(s, name).value, 0, Requested)])
    case RequestRemoval(name) =>
      s.(tasks := s.tasks + [Task(Service(name, "", false, Thresholds(1, 1)), 0, RemovalRequested)])
    case TaskAction(t, step) => Stepped(s, t, step)
    case Add(service) => Added(s, service)
    case SetEnabled(name, enabled) => Toggled(s, name, enabled)
    case Restart(config, th, capacity, delivered) =>
      Restarted(s, Reborn(s, config, th, capacity), delivered)
  }

  /** A task of this name still queues for a lock object that removal has discarded. */
  predicate StaleWaiter(s: System, name: string, t: nat) {
    t < |s.tasks| && s.tasks[t].service.name == name && Waits(s.tasks[t]) &&
    !(name in s.locks && s.locks[name] == s.tasks[t].lock)
  }

  /** The one assumption about the surroundings: no name is added again while such a task waits. */
  ghost predicate Orderly(s: System, a: Action) {
    a.Add? ==> forall t: nat :: !StaleWaiter(s, a.service.name, t)
  }

  ghost predicate Runs(s: System, run: seq<Action>)
    decreases |run|
  {
    run == [] || (Enabled(s, run[0]) && Orderly(s, run[0]) && Runs(Next(s, run[0]), run[1..]))
  }

  ghost function Final(s: System, run: seq<Action>): System
    requires Runs(s, run)
    decreases |run|
  {
    if run == [] then s else Final(Next(s, run[0]), run[1..])
  }

  /** First start on an empty database. */
  function Init(config: map<string, Service>, capacity: nat): System {
    System(config, map[], map[], map n | n in config :: WithState(EMPTY, n, config[n].url),
           map[], {}, 0, capacity, capacity, [])
  }
}
