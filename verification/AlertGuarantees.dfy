/** What the alert protocol promises the user, and exactly when it does not keep it. */
module AlertGuarantees {
  import opened Models
  import opened StateMachine
  import opened History
  import opened Outages
  import opened AlertProtocol
  import opened Solo

  function Expected(i: nat): AlertKind {
    if i % 2 == 0 then DownAlert else RecoveredAlert
  }

  /** DOWN, RECOVERED, DOWN, RECOVERED, ... */
  predicate Alternates(log: seq<Alert>) {
    forall i :: 0 <= i < |log| ==> log[i].kind == Expected(i)
  }

  lemma {:induction false} NoRepeatIsAlternation(log: seq<Alert>)
    requires log != [] ==> log[0].kind == DownAlert
    ensures Repeats(log) == 0 <==> Alternates(log)
  {
    if |log| < 2 {
    } else {
      var g, last := log[..|log|-1], |log| - 1;
      NoRepeatIsAlternation(g);
      assert forall i :: 0 <= i < last ==> log[i] == g[i];
      assert Alternates(g) ==> log[last - 1].kind == Expected(last - 1) != Expected(last);
      assert Alternates(log) == (Alternates(g) && log[last].kind == Expected(last));
    }
  }

  /** Every RECOVERED alert ever delivered reports the outage it ended. */
  lemma RecoveriesReportTheirOutage(name: string, p: Protocol, a: Alert)
    requires Inv(name, p) && a in p.cell.log && a.kind == RecoveredAlert
    ensures p.cell.row.Some?
    ensures ReportsLastOutage(Fresh(name, p.cell.row.value.url), a.at, a.downtime)
  {
    RecoveredReportsLastOutage(Fresh(name, p.cell.row.value.url), a.at);
  }

  lemma {:induction false} KnownStatusStaysKnown(s: State, h: seq<Event>)
    requires s == Fresh(s.name, s.url) && Honest(s, h)
    ensures After(s, h).status == UNKNOWN ==> After(s, h).notifiedStatus == None
  {
    if h == [] {
    } else {
      KnownStatusStaysKnown(s, h[..|h|-1]);
    }
  }

  /** An alert is pending exactly if the last message the user got contradicts the status. */
  predicate PendingIsRight(s: State, log: seq<Alert>) {
    PendingAlert(s) == None <==> (s.status == DOWN) == LastIsDown(log)
  }

  lemma PendingIsRightWhenInSync(s: State, log: seq<Alert>)
    requires s.status == UNKNOWN ==> s.notifiedStatus == None
    ensures PendingIsRight(s, log) <==> InSync(s, log)
  {
  }

  /** In memory and in the store, `notified_status` in step with the messages is exactly what it takes. */
  lemma PendingIsWhatTheUserDoesNotKnow(name: string, p: Protocol)
    requires Inv(name, p)
    ensures MemIsStoredIncarnation(p.cell) ==>
              (PendingIsRight(p.cell.mem.value, p.cell.log) <==> InSync(p.cell.mem.value, p.cell.log))
    ensures p.cell.row.Some? ==>
              (PendingIsRight(p.cell.row.value, p.cell.log) <==> InSync(p.cell.row.value, p.cell.log))
  {
    var c := p.cell;
    if MemIsStoredIncarnation(c) {
      KnownStatusStaysKnown(Fresh(name, c.mem.value.url), c.memHist);
      PendingIsRightWhenInSync(c.mem.value, c.log);
    }
    if c.row.Some? {
      KnownStatusStaysKnown(Fresh(name, c.row.value.url), c.rowHist);
      PendingIsRightWhenInSync(c.row.value, c.log);
    }
  }

  // --- losing and regaining step -------------------------------------------------------------

  /** What is remembered falls out of step with what was delivered exactly by a fault. */
  lemma OnlyFaultsLoseStep(name: string, p: Protocol, m: Move)
    requires Inv(name, p) && Can(p, m) && !InDebt(p)
    ensures InDebt(Do(name, p, m)) <==> IsFault(p, m)
  {
    if IsFault(p, m) {
      FaultLeavesUnmarkedRow(name, p, m);
    } else if m.Apply? {
      CheckStaysInStep(name, p, m.url, m.result, m.th, m.enabled);
    } else if m.Load? {
      StateStaysInStep(name, p, m.url);
    } else if m.Crash? {
      RestartStaysInStep(name, p, m.monitored);
    } else if m.Send? {
      SendRegainsStep(name, p);
    } else {
      OtherMovesStayInStep(name, p, m);
    }
  }

  lemma OtherMovesStayInStep(name: string, p: Protocol, m: Move)
    requires Inv(name, p) && Can(p, m) && !InDebt(p) && !IsFault(p, m)
    requires !m.Apply? && !m.Load? && !m.Crash? && !m.Send?
    ensures !InDebt(Do(name, p, m))
  {
  }

  lemma CheckStaysInStep(name: string, p: Protocol, url: string, result: CheckResult, th: Thresholds, enabled: bool)
    requires !InDebt(p) && p.phase != Marking
    ensures !InDebt(Protocol(Saving(enabled), WithCheck(p.cell, name, url, result, th)))
  {
    StateStaysInStep(name, p, url);
  }

  lemma StateStaysInStep(name: string, p: Protocol, url: string)
    requires !InDebt(p) && p.phase != Marking
    ensures !InDebt(p.(cell := WithState(p.cell, name, url)))
  {
  }

  lemma RestartStaysInStep(name: string, p: Protocol, url: Option<string>)
    requires !InDebt(p) && p.phase != Marking
    ensures !InDebt(Protocol(Idle, WithRestart(p.cell, name, url)))
  {
  }

  /** A fault leaves the row as it was: it calls for the very message that was delivered last. */
  predicate Unmarked(c: Cell) {
    c.row.Some? && c.log != [] && PendingAlert(c.row.value) == Some(c.log[|c.log|-1].kind)
  }

  lemma UnmarkedIsOutOfStep(c: Cell)
    requires Unmarked(c)
    ensures !InSync(c.row.value, c.log)
  {
  }

  lemma DeliveryIsUnmarked(name: string, p: Protocol)
    requires Inv(name, p) && (p.phase == Marking || p.phase.Sending?)
    ensures p.phase == Marking ==> Unmarked(p.cell)
    ensures p.phase.Sending? ==> Unmarked(WithDelivery(p.cell, p.phase.kind))
  {
  }

  lemma RestartKeepsRowAndLog(c: Cell, name: string, url: Option<string>)
    ensures WithRestart(c, name, url).row == c.row && WithRestart(c, name, url).log == c.log
  {
  }

  lemma CrashKeepsRowAndLog(name: string, p: Protocol, m: Move)
    requires Can(p, m) && m.Crash?
    ensures var q := Do(name, p, m);
            q.phase == Idle && q.cell.row == p.cell.row &&
            q.cell.log == if m.delivered then WithDelivery(p.cell, p.phase.kind).log else p.cell.log
  {
    RestartKeepsRowAndLog(p.cell, name, m.monitored);
  }

  lemma FaultLeavesUnmarkedRow(name: string, p: Protocol, m: Move)
    requires Inv(name, p) && Can(p, m) && IsFault(p, m)
    ensures var q := Do(name, p, m);
            q.cell.row == p.cell.row && Unmarked(q.cell) && !InSync(q.cell.row.value, q.cell.log) && q.phase != Marking
  {
    DeliveryIsUnmarked(name, p);
    if m.Crash? {
      CrashKeepsRowAndLog(name, p, m);
    }
    UnmarkedIsOutOfStep(Do(name, p, m).cell);
  }

  /** A marked delivery puts everything in step again, at the price of one repeat if it was out of step. */
  lemma SendRegainsStep(name: string, p: Protocol)
    requires Inv(name, p) && Can(p, Send)
    ensures var q := Do(name, p, Send);
            && !InDebt(q) && !InDebt(Do(name, q, Mark))
            && Repeats(q.cell.log) == Repeats(p.cell.log) + if InDebt(p) then 1 else 0
  {
    DeliveryIsTrue(name, p);
    SendKeepsInv(name, p);
  }

  /** A message repeats the one before exactly if it is delivered out of step. */
  lemma RepeatsAreOutOfStep(name: string, p: Protocol, m: Move)
    requires Inv(name, p) && Can(p, m)
    ensures Repeats(Do(name, p, m).cell.log) > Repeats(p.cell.log) <==> InDebt(p) && Delivers(m)
  {
    if Delivers(m) {
      DeliveryIsTrue(name, p);
    } else if m.Delete? {
    } else {
      LogOnlyGrowsByDelivery(name, p, m);
    }
  }

  lemma LogOnlyGrowsByDelivery(name: string, p: Protocol, m: Move)
    requires Inv(name, p) && Can(p, m) && !Delivers(m)
    ensures Do(name, p, m).cell.log == p.cell.log || Do(name, p, m).cell.log == []
  {
  }

  /** A post whose answer is lost repeats the message within one send: no error is raised and nothing crashes. */
  lemma LostAnswerRepeatsTheAlert(name: string, p: Protocol)
    requires Inv(name, p) && Can(p, PostAgain(true))
    ensures var q := Do(name, Do(name, p, PostAgain(true)), Send);
            q.phase == Marking && !InDebt(q) &&
            Repeats(q.cell.log) == Repeats(p.cell.log) + (if InDebt(p) then 1 else 0) + 1
  {
    var r := Do(name, p, PostAgain(true));
    DeliveryIsTrue(name, p);
    MoveKeepsInv(name, p, PostAgain(true));
    FaultLeavesUnmarkedRow(name, p, PostAgain(true));
    SendRegainsStep(name, r);
  }

  /** A check with alerts enabled that runs to its end leaves nothing pending, in memory or stored. */
  lemma FinishedCheckLeavesNothingPending(name: string, p: Protocol, m: Move)
    requires Inv(name, p) && Can(p, m)
    requires m == Mark || (m == Save && p.phase.enabled && Do(name, p, m).phase == Idle)
    ensures var c := Do(name, p, m).cell;
            c.mem.Some? && c.row == c.mem && PendingAlert(c.mem.value) == None
  {
  }

  /** Memory and store agree on whether the user knows of an outage: no sent message waits for its mark. */
  predicate Level(p: Protocol) {
    && p.phase != Marking && p.cell.row.Some?
    && (MemIsStoredIncarnation(p.cell) ==>
          (p.cell.mem.value.notifiedStatus == Some(DOWN)) == (p.cell.row.value.notifiedStatus == Some(DOWN)))
  }

  /**
   * Only a send that returns clears what is pending: failed ones, even if their message arrived, ignored and
   * abandoned checks, raised saves and crashes leave pending what the old row would leave pending in the new
   * status. So an alert stays pending while its status lasts, and an outage that ends undelivered leaves nothing.
   */
  lemma PendingSurvives(name: string, p: Protocol, m: Move)
    requires Inv(name, p) && Can(p, m) && Level(p) && !m.Send?
    requires RowIsFor(Do(name, p, m).cell, p.cell.row.value.url)
    ensures var q := Do(name, p, m);
            && Level(q) && SameKnowledge(p.cell.row.value, q.cell.row.value)
            && PendingAlert(q.cell.row.value) == PendingAlert(p.cell.row.value.(status := q.cell.row.value.status))
  {
    var q := Do(name, p, m);
    LevelIsKept(name, p, m);
    KnowledgeDecides(p.cell.row.value, q.cell.row.value);
  }

  predicate SameKnowledge(s: State, t: State) {
    (t.notifiedStatus == Some(DOWN)) == (s.notifiedStatus == Some(DOWN))
  }

  lemma KnowledgeDecides(s: State, t: State)
    requires SameKnowledge(s, t)
    ensures PendingAlert(t) == PendingAlert(s.(status := t.status))
  {
  }

  lemma LevelIsKept(name: string, p: Protocol, m: Move)
    requires Inv(name, p) && Can(p, m) && Level(p) && !m.Send?
    requires RowIsFor(Do(name, p, m).cell, p.cell.row.value.url)
    ensures Level(Do(name, p, m)) && SameKnowledge(p.cell.row.value, Do(name, p, m).cell.row.value)
  {
    if m.Crash? {
      SavesAndCrashesLevel(name, p, m);
      CrashKeepsRowAndLog(name, p, m);
    }
  }

  /** A sent message waits for its mark no longer than to the next save that takes effect, or to the next crash. */
  lemma SavesAndCrashesLevel(name: string, p: Protocol, m: Move)
    requires Inv(name, p) && Can(p, m) && Do(name, p, m).cell.row.Some?
    requires m == Save || m == Mark || m.Crash? || ((m.SaveRaises? || m.MarkRaises?) && m.committed)
    ensures Level(Do(name, p, m))
  {
  }

  /** While nothing is delivered, what is in step stays in step. */
  lemma UndeliveringMoveStaysInStep(name: string, p: Protocol, m: Move)
    requires Inv(name, p) && Can(p, m) && !InDebt(p) && p.phase != Marking
    requires Do(name, p, m).cell.log == p.cell.log
    ensures !InDebt(Do(name, p, m)) && Do(name, p, m).phase != Marking
  {
    UndeliveredIsNoFault(name, p, m);
    OnlyFaultsLoseStep(name, p, m);
  }

  lemma UndeliveredIsNoFault(name: string, p: Protocol, m: Move)
    requires Can(p, m) && p.phase != Marking && Do(name, p, m).cell.log == p.cell.log
    ensures !IsFault(p, m) && !m.Send?
  {
  }

  // --- what becomes of an unmarked delivery --------------------------------------------------

  /** A restart forgets what the user was told exactly when it falls between a delivery and its saved mark. */
  lemma CrashWindowIsExact(name: string, p: Protocol, delivered: bool, monitored: Option<string>)
    requires Inv(name, p) && !InDebt(p) && Can(p, Crash(delivered, monitored)) && p.cell.row.Some?
    ensures var q := Do(name, p, Crash(delivered, monitored));
            q.cell.row == p.cell.row &&
            (InSync(q.cell.row.value, q.cell.log) <==> !delivered && p.phase != Marking)
  {
    if delivered || p.phase == Marking {
      FaultLeavesUnmarkedRow(name, p, Crash(delivered, monitored));
    }
  }

  /** The last message the user got agrees with the status. */
  predicate Informed(c: Cell) {
    c.mem.Some? && (c.mem.value.status == DOWN) == LastIsDown(c.log)
  }

  /**
   * After an undisturbed check with a working notifier the user is informed exactly if memory was in
   * step, or the last message happens to agree with the new status; and then, out of step, he is told
   * twice exactly if something was pending. So a lost mark becomes a repeat or a silence, never neither.
   */
  lemma CheckInformsExactly(c: Cell, v: Target, result: CheckResult)
    requires Inv(v.name, Protocol(Entered, c)) && v.enabled
    ensures var s := WithState(c, v.name, v.url).mem.value;
            var t, log := Applied(s, result, v.th), LogFor(c, v.url);
            var d := SoloCheck(c, v, result, Delivered).cell;
            && (Informed(d) <==> InSync(s, log) || (t.status == DOWN) == LastIsDown(log))
            && Repeats(d.log) == Repeats(log) + (if !InSync(s, log) && PendingAlert(t).Some? then 1 else 0)
            && (!InSync(s, log) ==> (Informed(d) <==> Repeats(d.log) == Repeats(log) + 1))
  {
    var s := WithState(c, v.name, v.url).mem.value;
    var q := Saved(c, v, result);
    SavedIs(c, v, result);
    SavedKeepsInv(c, v, result);
    PendingIsRightWhenInSync(q.cell.mem.value, q.cell.log);
    if q.phase.Sending? {
      InDebtWhileSending(q);
      SentIs(v.name, q);
    }
  }

  /** At its first save a check has stored the checked state, and goes on to send exactly what is pending. */
  lemma SavedIs(c: Cell, v: Target, result: CheckResult)
    requires Inv(v.name, Protocol(Entered, c)) && v.enabled
    ensures var s := WithState(c, v.name, v.url).mem.value;
            var t, q := Applied(s, result, v.th), Saved(c, v, result);
            && q.cell.mem == q.cell.row == Some(t) && q.cell.log == LogFor(c, v.url)
            && q.phase == (if PendingAlert(t) == None then Idle else Sending(PendingAlert(t).value, MAX_POSTS - 1))
            && t.notifiedStatus == s.notifiedStatus && (t.status == UNKNOWN ==> t.notifiedStatus == None)
  {
    StateKeepsInv(v.name, Protocol(Entered, c), v.url);
    KnownAfterCheck(v.name, WithState(c, v.name, v.url), result, v.th);
  }

  lemma SavedKeepsInv(c: Cell, v: Target, result: CheckResult)
    requires Inv(v.name, Protocol(Entered, c))
    ensures Inv(v.name, Saved(c, v, result))
  {
    var p, m := Protocol(Entered, c), Apply(v.url, result, v.th, v.enabled);
    MoveKeepsInv(v.name, p, m);
    MoveKeepsInv(v.name, Do(v.name, p, m), Save);
  }

  lemma SentInforms(name: string, q: Protocol)
    requires q.phase.Sending? && q.cell.mem.Some? && q.cell.row == q.cell.mem
    requires PendingAlert(q.cell.mem.value) == Some(q.phase.kind)
    ensures Informed(Do(name, Do(name, q, Send), Mark).cell)
  {
  }

  lemma SentIs(name: string, q: Protocol)
    requires Inv(name, q) && q.phase.Sending?
    ensures var d := Do(name, Do(name, q, Send), Mark).cell;
            Informed(d) && Repeats(d.log) == Repeats(q.cell.log) + if InDebt(q) then 1 else 0
  {
    SentInforms(name, q);
    SendRegainsStep(name, q);
  }

  lemma InDebtWhileSending(q: Protocol)
    requires q.phase.Sending? && q.cell.mem.Some? && q.cell.row == q.cell.mem
    ensures InDebt(q) <==> !InSync(q.cell.mem.value, q.cell.log)
  {
  }

  lemma KnownAfterCheck(name: string, c: Cell, result: CheckResult, th: Thresholds)
    requires Recorded(name, c.mem, c.memHist) && c.mem.Some?
    ensures var t := Applied(c.mem.value, result, th);
            t.notifiedStatus == c.mem.value.notifiedStatus && (t.status == UNKNOWN ==> t.notifiedStatus == None)
  {
    KnownStatusStaysKnown(Fresh(name, c.mem.value.url), c.memHist);
  }

  /** The next check of the same service after an unmarked delivery, up to its save. */
  function NextSave(name: string, p: Protocol, url: string, result: CheckResult, th: Thresholds): Protocol
    requires p.phase == Idle
  {
    Saved(p.cell, Target(name, url, true, th), result)
  }

  /** The message was delivered, its mark is lost, and the lock is free again. */
  predicate LosesMark(p: Protocol, m: Move) {
    IsFault(p, m) && (m.SendRaises? || (m.Crash? && p.cell.row.Some? && m.monitored == Some(p.cell.row.value.url)))
  }

  /**
   * Contrary to README.md:73 and README.md:15: the next check either leaves the status alone, and the
   * message is sent a second time, or changes it, and then the user is left with the wrong message and
   * nothing is pending. Which of the two depends on nothing else, and there is no third way.
   */
  lemma LostMarkRepeatsOrSilences(name: string, p: Protocol, m: Move, result: CheckResult, th: Thresholds)
    requires Inv(name, p) && Can(p, m) && LosesMark(p, m)
    ensures p.cell.row.Some?
    ensures var r, row := Do(name, p, m), p.cell.row.value;
            r.phase == Idle && r.cell.log != [] &&
            var q, kind := NextSave(name, r, row.url, result, th), r.cell.log[|r.cell.log|-1].kind;
            if Applied(row, result, th).status == row.status
            then q.phase == Sending(kind, MAX_POSTS - 1) && q.cell.mem.Some? &&
                 Repeats(Do(name, q, Send).cell.log) == Repeats(r.cell.log) + 1
            else q.phase == Idle && q.cell.mem.Some? && PendingAlert(q.cell.mem.value) == None && !Informed(q.cell)
  {
    FaultLeavesUnmarkedRow(name, p, m);
    MoveKeepsInv(name, p, m);
    var r := Do(name, p, m);
    UnmarkedRowRepeatsOrSilences(name, r, p.cell.row.value.url, result, th);
  }

  lemma UnmarkedRowRepeatsOrSilences(name: string, r: Protocol, url: string, result: CheckResult, th: Thresholds)
    requires Inv(name, r) && r.phase == Idle && Unmarked(r.cell) && RowIsFor(r.cell, url) && MemMatchesRow(name, r.cell)
    ensures var q, kind, row := NextSave(name, r, url, result, th), r.cell.log[|r.cell.log|-1].kind, r.cell.row.value;
            q.cell.log == r.cell.log && q.cell.mem.Some? &&
            if Applied(row, result, th).status == row.status
            then q.phase == Sending(kind, MAX_POSTS - 1) &&
                 Repeats(Do(name, q, Send).cell.log) == Repeats(r.cell.log) + 1
            else q.phase == Idle && PendingAlert(q.cell.mem.value) == None && !Informed(q.cell)
  {
    var q := NextSave(name, r, url, result, th);
    SavedIs(r.cell, Target(name, url, true, th), result);
    SavedKeepsInv(r.cell, Target(name, url, true, th), result);
    UnmarkedStateRepeatsOrSilences(r.cell.row.value, q.cell.mem.value, r.cell.log);
    if q.phase.Sending? {
      InDebtWhileSending(q);
      SendRegainsStep(name, q);
    }
  }

  /** From a row that calls for the last message, only a change of status avoids sending it again. */
  lemma UnmarkedStateRepeatsOrSilences(s: State, t: State, log: seq<Alert>)
    requires log != [] && PendingAlert(s) == Some(log[|log|-1].kind) && t.notifiedStatus == s.notifiedStatus
    requires t.status == UNKNOWN ==> t.notifiedStatus == None
    ensures !InSync(t, log)
    ensures t.status == s.status ==> PendingAlert(t) == PendingAlert(s)
    ensures t.status != s.status ==> PendingAlert(t) == None && (t.status == DOWN) != LastIsDown(log)
  {
  }

  // --- a mark whose save raises --------------------------------------------------------------

  /** Memory still knows: the next check of this service stores the mark, and nothing is sent again or lost. */
  lemma RaisedMarkIsStoredLater(p: Protocol, v: Target, result: CheckResult)
    requires Inv(v.name, p) && Can(p, MarkRaises(false)) && v.enabled && v.url == p.cell.mem.value.url
    ensures var r := Do(v.name, p, MarkRaises(false)).cell;
            var q, d := Saved(r, v, result), SoloCheck(r, v, result, Delivered).cell;
            && q.cell.row.Some? && InSync(q.cell.row.value, q.cell.log) && q.cell.log == r.log
            && Informed(d) && Repeats(d.log) == Repeats(r.log)
  {
    var r := Do(v.name, p, MarkRaises(false));
    MoveKeepsInv(v.name, p, MarkRaises(false));
    SavedIs(r.cell, v, result);
    CheckInformsExactly(r.cell, v, result);
  }

  /** Only a restart before that save makes it a lost mark like the others. */
  lemma RaisedMarkThenCrash(name: string, p: Protocol)
    requires Inv(name, p) && Can(p, MarkRaises(false)) && p.cell.row.Some?
    ensures var url := p.cell.row.value.url;
            var r := Do(name, Do(name, p, MarkRaises(false)), Crash(false, Some(url)));
            Inv(name, r) && r.phase == Idle && Unmarked(r.cell) && RowIsFor(r.cell, url) && MemMatchesRow(name, r.cell)
  {
    var q, url := Do(name, p, MarkRaises(false)), p.cell.row.value.url;
    FaultLeavesUnmarkedRow(name, p, MarkRaises(false));
    MoveKeepsInv(name, p, MarkRaises(false));
    MoveKeepsInv(name, q, Crash(false, Some(url)));
    CrashKeepsRowAndLog(name, q, Crash(false, Some(url)));
  }
}
