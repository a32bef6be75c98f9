/**
 * The life of one service name: its in-memory state, its stored row, the alerts delivered so far,
 * and the check that currently holds its lock. A move ends where the source awaits.
 */
module AlertProtocol {
  import opened Models
  import opened StateMachine
  import opened History

  /** A delivered message; `at` is the history of the state it was sent for. */
  datatype Alert = Alert(kind: AlertKind, downtime: Option<nat>, at: seq<Event>)

  /**
   * `mem` and `row` are what the program has; the rest observes it. `log`, `faults` and the histories
   * belong to the stored incarnation (name and checked URL) and start over when the row is deleted or
   * overwritten for another URL. `dirty` says that the last save of this state raised without effect.
   */
  datatype Cell = Cell(
    mem: Option<State>, row: Option<State>,
    log: seq<Alert>, faults: nat,
    memHist: seq<Event>, rowHist: seq<Event>, dirty: bool)

  const EMPTY := Cell(None, None, [], 0, [], [], false)

  /** What the holder of the name's lock is doing; while sending, `more` posts are allowed after the current one. */
  datatype Phase = Idle | Entered | Saving(enabled: bool) | Sending(kind: AlertKind, more: nat) | Marking

  /** How often the client posts one message at most. */
  const MAX_POSTS := 3

  datatype Protocol = Protocol(phase: Phase, cell: Cell)

  // --- the effects of one move on the cell ---------------------------------------------------

  predicate RowIsFor(c: Cell, url: string) {
    c.row.Some? && c.row.value.url == url
  }

  /** What the store returns for this name and URL. */
  function Stored(row: Option<State>, name: string, url: string): State {
    if row.Some? && row.value.url == url then row.value else Fresh(name, url)
  }

  function WithState(c: Cell, name: string, url: string): (d: Cell)
    ensures d.mem.Some? && d.mem.value.url == url
  {
    if c.mem.Some? && c.mem.value.url == url then c
    else c.(mem := Some(Stored(c.row, name, url)),
            memHist := if RowIsFor(c, url) then c.rowHist else [],
            dirty := false)
  }

  function WithCheck(c: Cell, name: string, url: string, result: CheckResult, th: Thresholds): (d: Cell)
    ensures d.mem.Some?
  {
    var d := WithState(c, name, url);
    d.(mem := Some(Applied(d.mem.value, result, th)), memHist := d.memHist + [Checked(result, th)])
  }

  function WithSave(c: Cell): Cell
    requires c.mem.Some?
  {
    var d := c.(row := c.mem, rowHist := c.memHist, dirty := false);
    if RowIsFor(c, c.mem.value.url) then d else d.(log := [], faults := 0)
  }

  function AlertFor(c: Cell, kind: AlertKind): Alert
    requires c.mem.Some?
  {
    Alert(kind, if kind == RecoveredAlert then Downtime(c.mem.value) else None, c.memHist)
  }

  function WithDelivery(c: Cell, kind: AlertKind): Cell
    requires c.mem.Some?
  {
    c.(log := c.log + [AlertFor(c, kind)])
  }

  function WithMark(c: Cell, kind: AlertKind): Cell
    requires c.mem.Some?
  {
    c.(mem := Some(Notified(c.mem.value, kind)), memHist := c.memHist + [Told(kind)])
  }

  function WithFault(c: Cell): Cell {
    c.(faults := c.faults + 1)
  }

  /** The process is gone; on restart the state is loaded if the name is still monitored, at `url`. */
  function WithRestart(c: Cell, name: string, url: Option<string>): Cell {
    var d := c.(mem := None, memHist := [], dirty := false);
    if url.Some? then WithState(d, name, url.value) else d
  }

  // --- moves ---------------------------------------------------------------------------------

  datatype Move =
    | Enter
    | Leave
    | Apply(url: string, result: CheckResult, th: Thresholds, enabled: bool)
    | Save
    | SaveRaises(committed: bool)
    | PostAgain(accepted: bool)
    | Send
    | SendRaises(delivered: bool)
    | Mark
    | MarkRaises(committed: bool)
    | Load(url: string)
    | Delete
    | Crash(delivered: bool, monitored: Option<string>)

  predicate Can(p: Protocol, m: Move) {
    match m
    case Enter => p.phase == Idle
    case Leave => p.phase == Entered
    case Apply(_, _, _, _) => p.phase == Entered
    case Save => p.phase.Saving? && p.cell.mem.Some?
    case SaveRaises(_) => p.phase.Saving? && p.cell.mem.Some?
    case PostAgain(_) => p.phase.Sending? && p.phase.more > 0 && p.cell.mem.Some?
    case Send => p.phase.Sending? && p.cell.mem.Some?
    case SendRaises(_) => p.phase.Sending? && p.cell.mem.Some?
    case Mark => p.phase == Marking && p.cell.mem.Some?
    case MarkRaises(_) => p.phase == Marking && p.cell.mem.Some?
    case Load(_) => p.phase == Idle
    case Delete => p.phase == Entered
    case Crash(delivered, _) => delivered ==> p.phase.Sending? && p.cell.mem.Some?
  }

  function Do(name: string, p: Protocol, m: Move): Protocol
    requires Can(p, m)
  {
    var c := p.cell;
    match m
    case Enter => Protocol(Entered, c)
    case Leave => Protocol(Idle, c)
    case Apply(url, result, th, enabled) => Protocol(Saving(enabled), WithCheck(c, name, url, result, th))
    case Save =>
      var kind := PendingAlert(c.mem.value);
      Protocol(if p.phase.enabled && kind.Some? then Sending(kind.value, MAX_POSTS - 1) else Idle, WithSave(c))
    case SaveRaises(committed) =>
      Protocol(Idle, if committed then WithSave(c) else c.(dirty := true))
    case PostAgain(accepted) =>
      Protocol(Sending(p.phase.kind, p.phase.more - 1),
               if accepted then WithFault(WithDelivery(c, p.phase.kind)) else c)
    case Send => Protocol(Marking, WithMark(WithDelivery(c, p.phase.kind), p.phase.kind))
    case SendRaises(delivered) =>
      Protocol(Idle, if delivered then WithFault(WithDelivery(c, p.phase.kind)) else c)
    case Mark => Protocol(Idle, WithSave(c))
    case MarkRaises(committed) =>
      Protocol(Idle, if committed then WithSave(c) else WithFault(c.(dirty := true)))
    case Load(url) => Protocol(Idle, WithState(c, name, url))
    case Delete => Protocol(Idle, EMPTY)
    case Crash(delivered, url) =>
      var d := if delivered then WithFault(WithDelivery(c, p.phase.kind))
               else if p.phase == Marking then WithFault(c) else c;
      Protocol(Idle, WithRestart(d, name, url))
  }

  /** A message reached the user, but that is not what is remembered: its answer or its mark was lost. */
  predicate IsFault(p: Protocol, m: Move) {
    || (m.PostAgain? && m.accepted)
    || (m.SendRaises? && m.delivered)
    || (m.MarkRaises? && !m.committed)
    || (m.Crash? && (m.delivered || p.phase == Marking))
  }

  /** The move brings a message to the user. */
  predicate Delivers(m: Move) {
    m.Send? || (m.PostAgain? && m.accepted) || ((m.SendRaises? || m.Crash?) && m.delivered)
  }

  // --- what every reachable protocol state satisfies -----------------------------------------

  predicate LastIsDown(log: seq<Alert>) {
    log != [] && log[|log|-1].kind == DownAlert
  }

  /** Adjacent alerts of the same kind. */
  function Repeats(log: seq<Alert>): nat {
    if |log| < 2 then 0
    else Repeats(log[..|log|-1]) + if log[|log|-1].kind == log[|log|-2].kind then 1 else 0
  }

  predicate Recorded(name: string, s: Option<State>, h: seq<Event>) {
    match s
    case None => h == []
    case Some(t) =>
      t.name == name && t == After(Fresh(name, t.url), h) && Honest(Fresh(name, t.url), h)
  }

  predicate AlertTrue(name: string, url: string, a: Alert) {
    var s := After(Fresh(name, url), a.at);
    && Honest(Fresh(name, url), a.at)
    && PendingAlert(s) == Some(a.kind)
    && a.downtime == if a.kind == RecoveredAlert then Downtime(s) else None
  }

  /** `s` says the user knows of an outage exactly when the last delivered alert was DOWN. */
  predicate InSync(s: State, log: seq<Alert>) {
    (s.notifiedStatus == Some(DOWN)) == LastIsDown(log)
  }

  predicate MemIsStoredIncarnation(c: Cell) {
    c.mem.Some? && RowIsFor(c, c.mem.value.url)
  }

  predicate HistoriesTrue(name: string, c: Cell) {
    && Recorded(name, c.mem, c.memHist)
    && Recorded(name, c.row, c.rowHist)
    && (c.row.None? ==> c.log == [] && c.faults == 0)
    && (c.row.Some? ==> forall a :: a in c.log ==> AlertTrue(name, c.row.value.url, a))
  }

  predicate OpensWithDown(c: Cell) {
    && (c.log != [] ==> c.log[0].kind == DownAlert)
    && (c.row.Some? && c.row.value.notifiedStatus == Some(DOWN) ==> c.log != [])
    && (MemIsStoredIncarnation(c) && c.mem.value.notifiedStatus == Some(DOWN) ==> c.log != [])
    && (c.mem.Some? && !MemIsStoredIncarnation(c) ==> c.mem.value.notifiedStatus == None)
  }

  /** One repeat still to come, because what is remembered is out of step with what was delivered. */
  predicate InDebt(p: Protocol) {
    var c := p.cell;
    || (p.phase != Marking && c.row.Some? && !InSync(c.row.value, c.log))
    || (MemIsStoredIncarnation(c) && !InSync(c.mem.value, c.log))
  }

  predicate WithinBudget(p: Protocol) {
    Repeats(p.cell.log) + (if InDebt(p) then 1 else 0) <= p.cell.faults
  }

  /** Nothing would change if the state were loaded again. */
  predicate MemMatchesRow(name: string, c: Cell) {
    c.mem.Some? ==> c.mem.value == Stored(c.row, name, c.mem.value.url)
  }

  predicate PhaseTrue(name: string, p: Protocol) {
    var c := p.cell;
    match p.phase
    case Idle => !c.dirty ==> MemMatchesRow(name, c)
    case Entered => !c.dirty ==> MemMatchesRow(name, c)
    case Saving(_) => c.mem.Some?
    case Sending(kind, _) =>
      !c.dirty && c.mem.Some? && c.row == c.mem && c.rowHist == c.memHist && PendingAlert(c.mem.value) == Some(kind)
    case Marking =>
      c.mem.Some? && c.row.Some? && c.log != [] &&
      var kind := c.log[|c.log|-1].kind;
      c.mem.value == Notified(c.row.value, kind) && PendingAlert(c.row.value) == Some(kind) &&
      c.memHist == c.rowHist + [Told(kind)]
  }

  predicate Inv(name: string, p: Protocol) {
    HistoriesTrue(name, p.cell) && OpensWithDown(p.cell) && WithinBudget(p) && PhaseTrue(name, p)
  }

  // --- each effect keeps it ------------------------------------------------------------------

  lemma RepeatsAppend(log: seq<Alert>, a: Alert)
    ensures Repeats(log + [a]) == Repeats(log) + if log != [] && log[|log|-1].kind == a.kind then 1 else 0
  {
    assert (log + [a])[..|log|] == log;
  }

  lemma StateKeepsInv(name: string, p: Protocol, url: string)
    requires Inv(name, p) && p.phase in {Idle, Entered}
    ensures Inv(name, p.(cell := WithState(p.cell, name, url)))
  {
  }

  lemma CheckIsRecorded(name: string, c: Cell, result: CheckResult, th: Thresholds)
    requires Recorded(name, c.mem, c.memHist) && c.mem.Some?
    ensures Recorded(name, Some(Applied(c.mem.value, result, th)), c.memHist + [Checked(result, th)])
    ensures Applied(c.mem.value, result, th).url == c.mem.value.url
  {
    var s := Fresh(name, c.mem.value.url);
    AfterAppend(s, c.memHist, Checked(result, th));
    HonestAppend(s, c.memHist, Checked(result, th));
    AfterKeepsIdentity(s, c.memHist);
  }

  lemma CheckKeepsInv(name: string, p: Protocol, url: string, result: CheckResult, th: Thresholds, enabled: bool)
    requires Inv(name, p) && p.phase == Entered
    ensures Inv(name, Protocol(Saving(enabled), WithCheck(p.cell, name, url, result, th)))
  {
    StateKeepsInv(name, p, url);
    CheckIsRecorded(name, WithState(p.cell, name, url), result, th);
  }

  lemma SaveKeepsInv(name: string, p: Protocol, after: Phase)
    requires Inv(name, p) && p.cell.mem.Some? && (p.phase.Saving? || p.phase == Marking)
    requires after == Idle || (after.Sending? && PendingAlert(p.cell.mem.value) == Some(after.kind))
    ensures Inv(name, Protocol(after, WithSave(p.cell)))
  {
  }

  lemma DeliveryIsTrue(name: string, p: Protocol)
    requires Inv(name, p) && p.phase.Sending?
    ensures var c := WithDelivery(p.cell, p.phase.kind);
            && (forall a :: a in c.log ==> AlertTrue(name, c.row.value.url, a))
            && c.log[0].kind == DownAlert
            && Repeats(c.log) == Repeats(p.cell.log) + if InDebt(p) then 1 else 0
  {
    RepeatsAppend(p.cell.log, AlertFor(p.cell, p.phase.kind));
  }

  lemma SendKeepsInv(name: string, p: Protocol)
    requires Inv(name, p) && p.phase.Sending?
    ensures Inv(name, Do(name, p, Send))
  {
    DeliveryIsTrue(name, p);
    var c, kind := p.cell, p.phase.kind;
    var s := Fresh(name, c.mem.value.url);
    AfterAppend(s, c.memHist, Told(kind));
    HonestAppend(s, c.memHist, Told(kind));
  }

  lemma UnmarkedDeliveryKeepsInv(name: string, p: Protocol, after: Phase)
    requires Inv(name, p) && p.phase.Sending? && (after == Idle || (after.Sending? && after.kind == p.phase.kind))
    ensures Inv(name, Protocol(after, WithFault(WithDelivery(p.cell, p.phase.kind))))
  {
    DeliveryIsTrue(name, p);
  }

  lemma LostMarkKeepsInv(name: string, p: Protocol)
    requires Inv(name, p) && p.phase == Marking
    ensures Inv(name, Protocol(Idle, WithFault(p.cell.(dirty := true))))
  {
  }

  lemma RestartKeepsInv(name: string, p: Protocol, url: Option<string>)
    requires Inv(name, p) && p.phase != Marking
    ensures Inv(name, Protocol(Idle, WithRestart(p.cell, name, url)))
  {
    var d := p.cell.(mem := None, memHist := [], dirty := false);
    assert Inv(name, Protocol(Idle, d));
    if url.Some? {
      StateKeepsInv(name, Protocol(Idle, d), url.value);
    }
  }

  lemma CrashKeepsInv(name: string, p: Protocol, delivered: bool, url: Option<string>)
    requires Inv(name, p) && Can(p, Crash(delivered, url))
    ensures Inv(name, Do(name, p, Crash(delivered, url)))
  {
    if delivered {
      UnmarkedDeliveryKeepsInv(name, p, Idle);
      RestartKeepsInv(name, Protocol(Idle, WithFault(WithDelivery(p.cell, p.phase.kind))), url);
    } else if p.phase == Marking {
      LostMarkKeepsInv(name, p);
      RestartKeepsInv(name, Protocol(Idle, WithFault(p.cell.(dirty := true))), url);
    } else {
      RestartKeepsInv(name, p, url);
    }
  }

  lemma MoveKeepsInv(name: string, p: Protocol, m: Move)
    requires Inv(name, p) && Can(p, m)
    ensures Inv(name, Do(name, p, m))
  {
    match m
    case Apply(url, result, th, enabled) => CheckKeepsInv(name, p, url, result, th, enabled);
    case Save => SaveKeepsInv(name, p, Do(name, p, m).phase);
    case SaveRaises(committed) => if committed { SaveKeepsInv(name, p, Idle); }
    case Send => SendKeepsInv(name, p);
    case PostAgain(accepted) => if accepted { UnmarkedDeliveryKeepsInv(name, p, Do(name, p, m).phase); }
    case SendRaises(delivered) => if delivered { UnmarkedDeliveryKeepsInv(name, p, Idle); }
    case Mark => SaveKeepsInv(name, p, Idle);
    case MarkRaises(committed) =>
      if committed { SaveKeepsInv(name, p, Idle); } else { LostMarkKeepsInv(name, p); }
    case Load(url) => StateKeepsInv(name, p, url);
    case Crash(delivered, url) => CrashKeepsInv(name, p, delivered, url);
    case _ =>
  }
}
