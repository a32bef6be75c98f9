/** A check with nothing in between, as moves of the alert protocol. */
module Solo {
  import opened Models
  import opened StateMachine
  import opened AlertProtocol

  /** What becomes of a message: sent, or an error although it may have arrived. */
  datatype Delivery = Delivered | Refused(arrived: bool)

  /** What a check is about. */
  datatype Target = Target(name: string, url: string, enabled: bool, th: Thresholds)

  /** The moves that an uninterrupted check makes once it has its lock and its result. */
  function SoloCheck(c: Cell, v: Target, result: CheckResult, delivery: Delivery): Protocol {
    var q := Saved(c, v, result);
    if q.phase == Idle then q
    else match delivery
      case Delivered => Do(v.name, Do(v.name, q, Send), Mark)
      case Refused(arrived) => Do(v.name, q, SendRaises(arrived))
  }

  /** Up to the first save. */
  function Saved(c: Cell, v: Target, result: CheckResult): (q: Protocol)
    ensures q.phase == Idle || (q.phase.Sending? && q.cell.mem.Some?)
  {
    Do(v.name, Do(v.name, Protocol(Entered, c), Apply(v.url, result, v.th, v.enabled)), Save)
  }

  /** What memory and store hold after it: the checked state, marked if its alert was sent. */
  function SoloState(c: Cell, v: Target, result: CheckResult, delivery: Delivery): State {
    var s := WithCheck(c, v.name, v.url, result, v.th).mem.value;
    if v.enabled && delivery == Delivered && PendingAlert(s).Some? then Notified(s, PendingAlert(s).value) else s
  }

  lemma SoloCheckEndsIn(c: Cell, v: Target, result: CheckResult, delivery: Delivery)
    ensures var p, s := SoloCheck(c, v, result, delivery), SoloState(c, v, result, delivery);
            p.phase == Idle && p.cell.mem == Some(s) && p.cell.row == Some(s)
    ensures v.enabled && delivery == Delivered ==> PendingAlert(SoloState(c, v, result, delivery)) == None
  {
    var q := Saved(c, v, result);
    assert q.cell.mem == q.cell.row == WithCheck(c, v.name, v.url, result, v.th).mem;
    if q.phase != Idle && delivery == Delivered {
      var q' := Do(v.name, q, Send);
      assert q'.cell.mem == Some(SoloState(c, v, result, delivery));
      assert Do(v.name, q', Mark).cell.row == q'.cell.mem;
    }
  }

  /** The log that counts for a check of this URL: it starts over with a new incarnation. */
  function LogFor(c: Cell, url: string): seq<Alert> {
    if RowIsFor(c, url) then c.log else []
  }

  /** If the send works, the log gains the alert the checked state calls for, and nothing else. */
  lemma SoloCheckTells(c: Cell, v: Target, result: CheckResult)
    requires v.enabled
    ensures var kind := PendingAlert(WithCheck(c, v.name, v.url, result, v.th).mem.value);
            var log, before := SoloCheck(c, v, result, Delivered).cell.log, LogFor(c, v.url);
            if kind == None then log == before
            else Saved(c, v, result).cell.mem.Some? && log == before + [AlertFor(Saved(c, v, result).cell, kind.value)]
  {
    var q := Saved(c, v, result);
    assert q.cell.log == LogFor(c, v.url);
  }
}
