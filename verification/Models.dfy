/** Values shared by the whole model: options, check results, and one service's persistent state. */
module Models {

  datatype Option<+T> = None | Some(value: T)

  /** Microseconds since an epoch: the resolution of the source's timestamps. */
  type Time = int

  datatype Status = UNKNOWN | UP | DOWN

  datatype Outcome = SUCCESS | IGNORED | FAILURE

  datatype CheckResult = CheckResult(
    outcome: Outcome,
    checkedAt: Time,
    url: string,
    statusCode: Option<int>,
    responseTime: Option<real>,
    error: Option<string>)

  /** The value of a `ServiceState` object, and of one row of the table that stores it. */
  datatype State = State(
    name: string,
    url: string,
    status: Status,
    statusSince: Option<Time>,
    failureCount: nat,
    recoveryCount: nat,
    failingSince: Option<Time>,
    downSince: Option<Time>,
    lastCheck: Option<Time>,
    lastSuccess: Option<Time>,
    lastFailure: Option<Time>,
    lastError: Option<string>,
    lastStatusCode: Option<int>,
    responseTime: Option<real>,
    notifiedStatus: Option<Status>)

  /** The state of a service nothing is known about. */
  function Fresh(name: string, url: string): State {
    State(name, url, UNKNOWN, None, 0, 0, None, None, None, None, None, None, None, None, None)
  }

  function Pow2(n: nat): (p: nat)
    ensures p >= 1
  {
    if n == 0 then 1 else 2 * Pow2(n - 1)
  }

  lemma {:induction false} SubsetIsSmaller<T>(a: set<T>, b: set<T>)
    requires a <= b
    ensures |a| <= |b|
  {
    if a == {} {
    } else {
      var x :| x in a;
      SubsetIsSmaller(a - {x}, b - {x});
    }
  }
}
