/** How many checks an outage and its alert cost. */
module Hysteresis {
  import opened Models
  import opened StateMachine
  import opened History
  import opened Reading

  function Failures(h: seq<Event>): nat {
    if h == [] then 0 else Failures(h[..|h|-1]) + if IsFailure(h[|h|-1]) then 1 else 0
  }

  function Successes(h: seq<Event>): nat {
    if h == [] then 0 else Successes(h[..|h|-1]) + if IsSuccess(h[|h|-1]) then 1 else 0
  }

  /** Transitions to DOWN. */
  function Falls(s: State, h: seq<Event>): nat {
    if h == [] then 0
    else Falls(s, h[..|h|-1]) +
         if After(s, h[..|h|-1]).status != DOWN && After(s, h).status == DOWN then 1 else 0
  }

  /** DOWN alerts the user was told. */
  function DownAlerts(h: seq<Event>): nat {
    if h == [] then 0 else DownAlerts(h[..|h|-1]) + if h[|h|-1] == Told(DownAlert) then 1 else 0
  }

  lemma MulStep(n: nat, k: nat)
    ensures (n + 1) * k == n * k + k
  {
  }

  lemma MulMonotone(m: int, n: int, k: nat)
    requires m <= n
    ensures m * k <= n * k
  {
  }

  /** Every fall is paid for with its own `failure` failed and, but for the first, `recovery` successful checks. */
  predicate Paid(s: State, h: seq<Event>, th: Thresholds) {
    var t, n := After(s, h), Falls(s, h);
    && (t.status == DOWN ==> n >= 1)
    && (t.status == UNKNOWN ==> n == 0)
    && Failures(h) >= n * th.failure + (if t.status == DOWN then 0 else t.failureCount)
    && Successes(h) >= (if t.status == DOWN then (n - 1) * th.recovery + t.recoveryCount else n * th.recovery)
  }

  lemma PaidAfterSuccess(s: State, h: seq<Event>, th: Thresholds)
    requires h != [] && IsSuccess(h[|h|-1]) && h[|h|-1].th == th && Paid(s, h[..|h|-1], th) && th.recovery >= 1
    ensures Paid(s, h, th)
  {
    var n := Falls(s, h[..|h|-1]);
    assert Falls(s, h) == n;
    if n >= 1 {
      MulStep(n - 1, th.recovery);
    }
  }

  lemma PaidAfterFailure(s: State, h: seq<Event>, th: Thresholds)
    requires h != [] && IsFailure(h[|h|-1]) && h[|h|-1].th == th && Paid(s, h[..|h|-1], th) && th.failure >= 1
    ensures Paid(s, h, th)
  {
    var n := Falls(s, h[..|h|-1]);
    MulStep(n, th.failure);
  }

  lemma PaidAfterOther(s: State, h: seq<Event>, th: Thresholds)
    requires h != [] && !IsSuccess(h[|h|-1]) && !IsFailure(h[|h|-1]) && Paid(s, h[..|h|-1], th)
    ensures Paid(s, h, th)
  {
  }

  lemma {:induction false} FallsArePaidFor(s: State, h: seq<Event>, th: Thresholds)
    requires s == Fresh(s.name, s.url) && Uses(h, th) && th.failure >= 1 && th.recovery >= 1
    ensures Paid(s, h, th)
  {
    if h == [] {
    } else {
      var e := h[|h|-1];
      FallsArePaidFor(s, h[..|h|-1], th);
      assert e in h;
      if IsSuccess(e) {
        PaidAfterSuccess(s, h, th);
      } else if IsFailure(e) {
        PaidAfterFailure(s, h, th);
      } else {
        PaidAfterOther(s, h, th);
      }
    }
  }

  lemma {:induction false} AlertsFollowFalls(s: State, h: seq<Event>)
    requires s == Fresh(s.name, s.url) && Honest(s, h)
    ensures var t := After(s, h);
            DownAlerts(h) + (if PendingAlert(t) == Some(DownAlert) then 1 else 0) <= Falls(s, h)
  {
    if h == [] {
    } else {
      AlertsFollowFalls(s, h[..|h|-1]);
    }
  }

  /** The k-th DOWN alert needs at least k * failure failed and (k - 1) * recovery successful checks. */
  lemma AlertsArePaidFor(s: State, h: seq<Event>, th: Thresholds)
    requires s == Fresh(s.name, s.url) && Honest(s, h) && Uses(h, th) && th.failure >= 1 && th.recovery >= 1
    ensures Failures(h) >= DownAlerts(h) * th.failure
    ensures Successes(h) >= (DownAlerts(h) - 1) * th.recovery
  {
    var k: int, n: int := DownAlerts(h), Falls(s, h);
    AlertsFollowFalls(s, h);
    FallsArePaidFor(s, h, th);
    MulMonotone(k, n, th.failure);
    MulMonotone(k - 1, n - 1, th.recovery);
    MulMonotone(n - 1, n, th.recovery);
  }
}
