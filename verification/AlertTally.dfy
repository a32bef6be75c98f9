/** Without a fault, the delivered alerts are exactly the ones the histories record. */
module AlertTally {
  import opened Models
  import opened StateMachine
  import opened History
  import opened Hysteresis
  import Reading
  import opened AlertProtocol

  function DownsDelivered(log: seq<Alert>): nat {
    if log == [] then 0
    else DownsDelivered(log[..|log|-1]) + if log[|log|-1].kind == DownAlert then 1 else 0
  }

  lemma TallyAppend(log: seq<Alert>, a: Alert, h: seq<Event>)
    ensures DownsDelivered(log + [a]) == DownsDelivered(log) + if a.kind == DownAlert then 1 else 0
    ensures DownAlerts(h + [Told(a.kind)]) == DownAlerts(h) + if a.kind == DownAlert then 1 else 0
  {
    assert (log + [a])[..|log|] == log;
    assert (h + [Told(a.kind)])[..|h|] == h;
  }

  lemma CheckedIsNoAlert(h: seq<Event>, result: CheckResult, th: Thresholds)
    ensures DownAlerts(h + [Checked(result, th)]) == DownAlerts(h)
  {
    assert (h + [Checked(result, th)])[..|h|] == h;
  }

  predicate Tally(p: Protocol) {
    var c := p.cell;
    && (c.mem.Some? && !MemIsStoredIncarnation(c) ==> DownAlerts(c.memHist) == 0)
    && (c.faults == 0 && MemIsStoredIncarnation(c) ==> DownAlerts(c.memHist) == DownsDelivered(c.log))
    && (c.faults == 0 && c.row.Some? && p.phase != Marking ==> DownAlerts(c.rowHist) == DownsDelivered(c.log))
  }

  lemma SaveKeepsTally(p: Protocol, after: Phase)
    requires Tally(p) && p.cell.mem.Some? && after != Marking
    ensures Tally(Protocol(after, WithSave(p.cell)))
  {
  }

  lemma StateKeepsTally(name: string, p: Protocol, url: string)
    requires Tally(p) && p.phase != Marking
    ensures Tally(p.(cell := WithState(p.cell, name, url)))
  {
  }

  lemma RestartKeepsTally(name: string, p: Protocol, url: Option<string>)
    requires Tally(p) && (p.phase != Marking || p.cell.faults > 0)
    ensures Tally(Protocol(Idle, WithRestart(p.cell, name, url)))
  {
  }

  lemma CheckKeepsTally(name: string, p: Protocol, url: string, result: CheckResult, th: Thresholds, after: Phase)
    requires Tally(p) && p.phase != Marking
    ensures Tally(Protocol(after, WithCheck(p.cell, name, url, result, th)))
  {
    StateKeepsTally(name, p, url);
    CheckedIsNoAlert(WithState(p.cell, name, url).memHist, result, th);
  }

  lemma SendKeepsTally(name: string, p: Protocol)
    requires Inv(name, p) && Tally(p) && Can(p, Send)
    ensures Tally(Do(name, p, Send))
  {
    var c := WithDelivery(p.cell, p.phase.kind);
    TallyAppend(p.cell.log, c.log[|p.cell.log|], p.cell.memHist);
  }

  lemma MoveKeepsTally(name: string, p: Protocol, m: Move)
    requires Inv(name, p) && Tally(p) && Can(p, m)
    ensures Tally(Do(name, p, m))
  {
    match m
    case Apply(url, result, th, enabled) => CheckKeepsTally(name, p, url, result, th, Saving(enabled));
    case Save => SaveKeepsTally(p, Do(name, p, m).phase);
    case SaveRaises(committed) => if committed { SaveKeepsTally(p, Idle); }
    case Send => SendKeepsTally(name, p);
    case Mark => SaveKeepsTally(p, Idle);
    case MarkRaises(committed) => if committed { SaveKeepsTally(p, Idle); }
    case Load(url) => StateKeepsTally(name, p, url);
    case Crash(delivered, url) =>
      var d := if delivered then WithFault(WithDelivery(p.cell, p.phase.kind))
               else if p.phase == Marking then WithFault(p.cell) else p.cell;
      RestartKeepsTally(name, p.(cell := d), url);
    case _ =>
  }

  /** In a fault-free incarnation with fixed thresholds, k delivered DOWN alerts took k * failure failed checks. */
  lemma DeliveredAlertsArePaidFor(name: string, p: Protocol, th: Thresholds)
    requires Inv(name, p) && Tally(p) && p.cell.row.Some? && p.cell.faults == 0 && p.phase != Marking
    requires Reading.Uses(p.cell.rowHist, th) && th.failure >= 1 && th.recovery >= 1
    ensures Failures(p.cell.rowHist) >= DownsDelivered(p.cell.log) * th.failure
    ensures Successes(p.cell.rowHist) >= (DownsDelivered(p.cell.log) - 1) * th.recovery
  {
    AlertsArePaidFor(Fresh(name, p.cell.row.value.url), p.cell.rowHist, th);
  }
}
