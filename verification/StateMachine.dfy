/** The UP/DOWN machine with hysteresis, and the decision which alert the user still has to get. */
module StateMachine {
  import opened Models

  datatype Thresholds = Thresholds(failure: nat, recovery: nat)

  datatype AlertKind = DownAlert | RecoveredAlert

  class ServiceState {
    const name: string
    const url: string
    var status: Status
    var statusSince: Option<Time>
    var failureCount: nat
    var recoveryCount: nat
    var failingSince: Option<Time>
    var downSince: Option<Time>
    var lastCheck: Option<Time>
    var lastSuccess: Option<Time>
    var lastFailure: Option<Time>
    var lastError: Option<string>
    var lastStatusCode: Option<int>
    var responseTime: Option<real>
    var notifiedStatus: Option<Status>

    constructor (s: State)
      ensures View() == s
    {
      name, url, status, statusSince := s.name, s.url, s.status, s.statusSince;
      failureCount, recoveryCount := s.failureCount, s.recoveryCount;
      failingSince, downSince := s.failingSince, s.downSince;
      lastCheck, lastSuccess, lastFailure := s.lastCheck, s.lastSuccess, s.lastFailure;
      lastError, lastStatusCode, responseTime := s.lastError, s.lastStatusCode, s.responseTime;
      notifiedStatus := s.notifiedStatus;
    }

    function View(): (s: State)
      reads this
      ensures s.name == name && s.url == url
    {
      State(name, url, status, statusSince, failureCount, recoveryCount, failingSince, downSince,
            lastCheck, lastSuccess, lastFailure, lastError, lastStatusCode, responseTime, notifiedStatus)
    }
  }

  // --- what the two mutators compute ---------------------------------------------------------

  function Succeeded(s: State, r: CheckResult, th: Thresholds): State {
    var up := s.status == UNKNOWN || (s.status == DOWN && s.recoveryCount + 1 >= th.recovery);
    s.(lastCheck := Some(r.checkedAt), lastStatusCode := r.statusCode, responseTime := r.responseTime,
    lastSuccess := Some(r.checkedAt), failureCount := 0, failingSince := None,
    recoveryCount := s.recoveryCount + 1,
    status := if up then UP else s.status,
    statusSince := if up then Some(r.checkedAt) else s.statusSince)
  }

  function Failed(s: State, r: CheckResult, th: Thresholds): State {
    var since := if s.failingSince.None? then Some(r.checkedAt) else s.failingSince;
    var down := s.status != DOWN && s.failureCount + 1 >= th.failure;
    s.(lastCheck := Some(r.checkedAt), lastStatusCode := r.statusCode, responseTime := r.responseTime,
    lastFailure := Some(r.checkedAt), lastError := r.error, recoveryCount := 0,
    failureCount := s.failureCount + 1, failingSince := since,
    downSince := if down then since else s.downSince,
    status := if down then DOWN else s.status,
    statusSince := if down then Some(r.checkedAt) else s.statusSince)
  }

  function Applied(s: State, r: CheckResult, th: Thresholds): State {
    match r.outcome
    case IGNORED => s.(lastCheck := Some(r.checkedAt))
    case SUCCESS => Succeeded(s, r, th)
    case FAILURE => Failed(s, r, th)
  }

  function Notified(s: State, kind: AlertKind): State {
    match kind
    case DownAlert => s.(notifiedStatus := Some(DOWN))
    case RecoveredAlert => s.(notifiedStatus := Some(UP), downSince := None)
  }

  // --- the mutators and the two queries ------------------------------------------------------

  /** Updates `state` in place; the result is the new status exactly when the status changed. */
  method ApplyCheck(state: ServiceState, result: CheckResult, th: Thresholds) returns (changed: Option<Status>)
    modifies state
    ensures state.View() == Applied(old(state.View()), result, th)
    ensures changed == if state.status == old(state.status) then None else Some(state.status)
  {
    if result.outcome == IGNORED {
      state.lastCheck := Some(result.checkedAt);
      return None;
    }
    ghost var before := state.View();
    state.lastCheck, state.lastStatusCode, state.responseTime :=
      Some(result.checkedAt), result.statusCode, result.responseTime;
    ghost var touched := before.(lastCheck := Some(result.checkedAt),
    lastStatusCode := result.statusCode, responseTime := result.responseTime);
    assert state.View() == touched;
    if result.outcome == SUCCESS {
      changed := CountSuccess(state, result.checkedAt, th);
    } else {
      changed := CountFailure(state, result.checkedAt, result.error, th);
    }
    if changed.Some? {
      state.status := changed.value;
      state.statusSince := Some(result.checkedAt);
    }
  }

  method CountSuccess(state: ServiceState, at: Time, th: Thresholds) returns (changed: Option<Status>)
    modifies state
    ensures var s := old(state.View());
            && state.View() == s.(lastSuccess := Some(at), failureCount := 0, failingSince := None,
               recoveryCount := s.recoveryCount + 1)
            && changed == if s.status == UNKNOWN || (s.status == DOWN && s.recoveryCount + 1 >= th.recovery)
                          then Some(UP) else None
  {
    state.lastSuccess := Some(at);
    state.failureCount := 0;
    state.failingSince := None;
    state.recoveryCount := state.recoveryCount + 1;
    changed := None;
    if state.status == UNKNOWN || (state.status == DOWN && state.recoveryCount >= th.recovery) {
      changed := Some(UP);
    }
  }

  method CountFailure(state: ServiceState, at: Time, error: Option<string>, th: Thresholds)
    returns (changed: Option<Status>)
    modifies state
    ensures var s := old(state.View());
            var since := if s.failingSince.None? then Some(at) else s.failingSince;
            var down := s.status != DOWN && s.failureCount + 1 >= th.failure;
            && changed == (if down then Some(DOWN) else None)
            && state.View() == s.(lastFailure := Some(at), lastError := error, recoveryCount := 0,
               failureCount := s.failureCount + 1, failingSince := since,
               downSince := if down then since else s.downSince)
  {
    state.lastFailure := Some(at);
    state.lastError := error;
    state.recoveryCount := 0;
    state.failureCount := state.failureCount + 1;
    changed := None;
    if state.failingSince == None {
      state.failingSince := Some(at);
    }
    if state.status != DOWN && state.failureCount >= th.failure {
      changed := Some(DOWN);
      state.downSince := state.failingSince;
    }
  }

  method MarkNotified(state: ServiceState, kind: AlertKind)
    modifies state
    ensures state.View() == Notified(old(state.View()), kind)
  {
    if kind == DownAlert {
      state.notifiedStatus := Some(DOWN);
    } else {
      state.notifiedStatus := Some(UP);
      state.downSince := None;
    }
  }

  /** The alert the user has not received yet for the current status. */
  function PendingAlert(s: State): Option<AlertKind> {
    if s.status == DOWN && s.notifiedStatus != Some(DOWN) then Some(DownAlert)
    else if s.status == UP && s.notifiedStatus == Some(DOWN) then Some(RecoveredAlert)
    else None
  }

  /** Outage duration: from the first failed check to recovery, or to `until`. */
  function Downtime(s: State, until: Option<Time> := None): Option<nat> {
    var end := if until.Some? then until else s.statusSince;
    if s.downSince.None? || end.None? then None
    else if end.value < s.downSince.value then Some(0)
    else Some(end.value - s.downSince.value)
  }
}
