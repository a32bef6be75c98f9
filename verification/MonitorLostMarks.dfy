/** Runs of the whole monitor, from its first start, in which a restart costs a duplicate or an alert. */
module MonitorLostMarks {
  import opened Models
  import opened StateMachine
  import opened AlertProtocol
  import opened Solo
  import opened Monitor
  import opened MonitorLocks
  import opened MonitorShares
  import opened MonitorRuns
  import opened MonitorSolo

  /** An enabled service of the config file, with thresholds as the config demands. */
  predicate Monitored(config: map<string, Service>, v: Service) {
    WellNamed(config) && v.name in config && config[v.name] == v && v.enabled && v.th.failure >= 1
  }

  /** Still up as far as the monitor knows, after `k` failed checks in a row. */
  predicate Failing(c: Cell, url: string, k: nat) {
    && c.mem.Some? && c.mem.value.url == url && c.mem.value.status == UNKNOWN && c.mem.value.failureCount == k
    && c.mem.value.notifiedStatus == None && c.log == []
  }

  /** The service is DOWN, the user has been told once, and neither memory nor store knows. */
  predicate ToldUnmarked(c: Cell, url: string) {
    && c.mem.Some? && c.row == c.mem && c.mem.value.url == url && c.mem.value.status == DOWN
    && c.mem.value.notifiedStatus == None && |c.log| == 1 && c.log[0].kind == DownAlert
  }

  const ONE_RESTART := Mishaps(1, 0, 0)
  const ONE_RAISED := Mishaps(0, 1, 0)
  const ONE_REPOSTED := Mishaps(0, 0, 1)

  const FAILED := CheckResult(FAILURE, 0, "", None, None, None)
  const SUCCEEDED := CheckResult(SUCCESS, 0, "", None, None, None)

  lemma StartIsQuiet(config: map<string, Service>, capacity: nat, v: Service)
    requires Monitored(config, v) && capacity >= 1
    ensures var s := Init(config, capacity); FromQuiet(s, NONE, s, v) && Failing(CellOf(s, v.name), v.url, 0)
  {
    InitHasSystemInv(config, capacity);
    LeadsToItself(Init(config, capacity));
  }

  lemma OneMoreFailure(c: Cell, v: Target, k: nat)
    requires Failing(c, v.url, k) && k + 1 < v.th.failure
    ensures Failing(SoloCheck(c, v, FAILED, Delivered).cell, v.url, k + 1)
  {
  }

  lemma {:induction false} FailuresAddUp(config: map<string, Service>, capacity: nat, v: Service, k: nat)
    returns (s: System)
    requires Monitored(config, v) && capacity >= 1 && k < v.th.failure
    ensures FromQuiet(Init(config, capacity), NONE, s, v) && s.config == config && Failing(CellOf(s, v.name), v.url, k)
  {
    if k == 0 {
      StartIsQuiet(config, capacity, v);
      s := Init(config, capacity);
    } else {
      var r := FailuresAddUp(config, capacity, v, k - 1);
      OneMoreFailure(CellOf(r, v.name), TargetOf(v), k - 1);
      s := QuietSystemDoesTheSoloCheck(Init(config, capacity), NONE, r, v, FAILED, Delivered);
    }
  }

  lemma LastFailure(c: Cell, v: Target)
    requires v.th.failure >= 1 && Failing(c, v.url, v.th.failure - 1) && v.enabled
    ensures var q := Saved(c, v, FAILED);
            q.phase.Sending? && ToldUnmarked(Do(v.name, Do(v.name, q, Send), Crash(false, Some(v.url))).cell, v.url)
  {
  }

  lemma SavingMarkIsMarking(s: System, r: System, v: Service, c: Cell)
    requires Locks(r) && Underway(s, r, v, SavingMark, c)
    ensures Share(r, v.name) == Protocol(Marking, c)
  {
    LocksGiveOneHolderEach(r);
    PhaseOfHolder(r, v.name, |s.tasks|);
  }

  lemma RestartedIs(r: System, v: Service, th: Thresholds)
    requires SystemInv(r) && WellNamed(r.config) && v.name in r.config && r.config[v.name] == v
    ensures var a := Restart(r.config, th, 1, {});
            && Enabled(r, a) && Orderly(r, a) && Quiet(Next(r, a)) && Lookup(Next(r, a), v.name) == Some(v)
            && CellOf(Next(r, a), v.name) == Do(v.name, Share(r, v.name), Crash(false, Some(v.url))).cell
  {
    RestartOnShare(r, r.config, th, 1, {}, v.name);
  }

  lemma RestartOnce(o: System, r: System, v: Service, th: Thresholds) returns (r': System)
    requires SystemInv(o) && SystemInv(r) && Leads(o, r, NONE)
    requires WellNamed(r.config) && v.name in r.config && r.config[v.name] == v
    ensures FromQuiet(o, ONE_RESTART, r', v)
    ensures CellOf(r', v.name) == Do(v.name, Share(r, v.name), Crash(false, Some(v.url))).cell
  {
    RestartedIs(r, v, th);
    r' := Next(r, Restart(r.config, th, 1, {}));
    LeadsOn(o, r, NONE, Restart(r.config, th, 1, {}));
    LeadsKeepsSystemInv(o, r', ONE_RESTART);
  }

  lemma RestartWhileMarking(o: System, s: System, r: System, v: Service, c: Cell, th: Thresholds) returns (r': System)
    requires SystemInv(o) && Reaches(o, NONE, s, r, v, SavingMark, c) && WellNamed(r.config)
    requires v.name in r.config && r.config[v.name] == v
    ensures FromQuiet(o, ONE_RESTART, r', v)
    ensures CellOf(r', v.name) == Do(v.name, Protocol(Marking, c), Crash(false, Some(v.url))).cell
  {
    LeadsKeepsSystemInv(o, r, NONE);
    SavingMarkIsMarking(s, r, v, c);
    r' := RestartOnce(o, r, v, th);
  }

  /**
   * One restart, right after the message is out, and nothing else going wrong: the store no longer knows what
   * the user was told.
   */
  lemma RestartForgetsAnAlert(config: map<string, Service>, capacity: nat, v: Service) returns (s: System)
    requires Monitored(config, v) && capacity >= 1
    ensures FromQuiet(Init(config, capacity), ONE_RESTART, s, v) && ToldUnmarked(CellOf(s, v.name), v.url)
  {
    var o := Init(config, capacity);
    var r := FailuresAddUp(config, capacity, v, v.th.failure - 1);
    var c := CellOf(r, v.name);
    LastFailure(c, TargetOf(v));
    var r' := CheckIsSent(o, NONE, r, v, FAILED);
    s := RestartWhileMarking(o, r, r', v, Do(v.name, Saved(c, TargetOf(v), FAILED), Send).cell, v.th);
  }

  /** The user was told DOWN twice in a row. */
  predicate ToldTwice(c: Cell) {
    |c.log| == 2 && c.log[0].kind == c.log[1].kind == DownAlert
  }

  /** The service is up again, "down" is the last thing the user heard, and nothing is pending. */
  predicate RecoveryLost(c: Cell) {
    && c.mem.Some? && c.row == c.mem && c.mem.value.status == UP && LastIsDown(c.log)
    && PendingAlert(c.mem.value) == None
  }

  /** Contrary to README.md:73: for every monitored service one restart can be all it takes to tell it twice. */
  lemma RestartCanDuplicate(config: map<string, Service>, capacity: nat, v: Service) returns (r: System)
    requires Monitored(config, v) && capacity >= 1
    ensures Leads(Init(config, capacity), r, ONE_RESTART) && ToldTwice(CellOf(r, v.name))
  {
    var s := RestartForgetsAnAlert(config, capacity, v);
    r := QuietSystemDoesTheSoloCheck(Init(config, capacity), ONE_RESTART, s, v, FAILED, Delivered);
    ToldAgain(CellOf(s, v.name), TargetOf(v));
  }

  lemma ToldAgain(c: Cell, v: Target)
    requires ToldUnmarked(c, v.url) && v.enabled
    ensures ToldTwice(SoloCheck(c, v, FAILED, Delivered).cell)
  {
    SoloCheckTells(c, v, FAILED);
  }

  /** Contrary to README.md:15: with a recovery threshold of 1, one restart can be all it takes to lose an alert. */
  lemma RestartCanLoseARecovery(config: map<string, Service>, capacity: nat, v: Service) returns (r: System)
    requires Monitored(config, v) && capacity >= 1 && v.th.recovery == 1
    ensures Leads(Init(config, capacity), r, ONE_RESTART) && Quiet(r) && RecoveryLost(CellOf(r, v.name))
  {
    var s := RestartForgetsAnAlert(config, capacity, v);
    r := QuietSystemDoesTheSoloCheck(Init(config, capacity), ONE_RESTART, s, v, SUCCEEDED, Delivered);
    RecoveryIsSilent(CellOf(s, v.name), TargetOf(v));
  }

  lemma RecoveryIsSilent(c: Cell, v: Target)
    requires ToldUnmarked(c, v.url) && v.enabled && v.th.recovery == 1
    ensures RecoveryLost(SoloCheck(c, v, SUCCEEDED, Delivered).cell)
    ensures Saved(c, v, SUCCEEDED).phase == Idle
  {
  }

  /** The same without a crash: one send raises although its message arrives. */
  lemma RaisedSendCanLoseARecovery(config: map<string, Service>, capacity: nat, v: Service) returns (r: System)
    requires Monitored(config, v) && capacity >= 1 && v.th.recovery == 1
    ensures Leads(Init(config, capacity), r, ONE_RAISED) && Quiet(r) && RecoveryLost(CellOf(r, v.name))
  {
    var o := Init(config, capacity);
    var s := FailuresAddUp(config, capacity, v, v.th.failure - 1);
    LastFailure(CellOf(s, v.name), TargetOf(v));
    RaisedIsUnmarked(CellOf(s, v.name), TargetOf(v));
    r := QuietSystemDoesTheSoloCheck(o, NONE, s, v, FAILED, Refused(true));
    RecoveryIsSilent(CellOf(r, v.name), TargetOf(v));
    r := QuietSystemDoesTheSoloCheck(o, ONE_RAISED, r, v, SUCCEEDED, Delivered);
  }

  lemma RaisedIsUnmarked(c: Cell, v: Target)
    requires v.th.failure >= 1 && Failing(c, v.url, v.th.failure - 1) && v.enabled
    ensures ToldUnmarked(SoloCheck(c, v, FAILED, Refused(true)).cell, v.url)
  {
  }

  /** And twice without any crash or raised error: the answer to one post is lost, and it is posted again. */
  lemma LostAnswerCanDuplicate(config: map<string, Service>, capacity: nat, v: Service) returns (r: System)
    requires Monitored(config, v) && capacity >= 1
    ensures Leads(Init(config, capacity), r, ONE_REPOSTED) && ToldTwice(CellOf(r, v.name))
  {
    var o := Init(config, capacity);
    var s := FailuresAddUp(config, capacity, v, v.th.failure - 1);
    FirstAlert(CellOf(s, v.name), TargetOf(v));
    r := CheckIsSaved(o, NONE, s, v, FAILED);
    r := PostedTwice(o, s, r, v, Saved(CellOf(s, v.name), TargetOf(v), FAILED));
  }

  lemma PostedTwice(o: System, s: System, r: System, v: Service, q: Protocol) returns (r': System)
    requires q.phase.Sending? && q.phase.more > 0 && q.cell.mem.Some?
    requires Reaches(o, NONE, s, r, v, PcOf(q.phase), q.cell)
    ensures Leads(o, r', ONE_REPOSTED)
    ensures var log, kind := CellOf(r', v.name).log, q.phase.kind;
            |log| == |q.cell.log| + 2 && log[|q.cell.log|].kind == log[|q.cell.log| + 1].kind == kind
  {
    var q' := Do(v.name, q, PostAgain(true));
    r' := ByMove(o, NONE, s, r, v, PcOf(q.phase), q.cell, PostAgain(true));
    r' := MessageGoesOut(o, ONE_REPOSTED, s, r', v, q');
    assert Do(v.name, q', Send).cell.log ==
           q.cell.log + [AlertFor(q.cell, q.phase.kind), AlertFor(q'.cell, q.phase.kind)];
  }

  lemma FirstAlert(c: Cell, v: Target)
    requires v.th.failure >= 1 && Failing(c, v.url, v.th.failure - 1) && v.enabled
    ensures var q := Saved(c, v, FAILED);
            q.phase == Sending(DownAlert, MAX_POSTS - 1) && q.cell.mem.Some? && q.cell.log == []
  {
  }
}
