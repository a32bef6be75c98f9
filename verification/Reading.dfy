/** The incremental machine against a declarative reading of the same history. */
module Reading {
  import opened Models
  import opened StateMachine
  import opened History

  /** Conclusive verdicts only, `true` for a success. */
  function Verdicts(h: seq<Event>): seq<bool> {
    if h == [] then []
    else if IsSuccess(h[|h|-1]) then Verdicts(h[..|h|-1]) + [true]
    else if IsFailure(h[|h|-1]) then Verdicts(h[..|h|-1]) + [false]
    else Verdicts(h[..|h|-1])
  }

  predicate All(v: seq<bool>, b: bool, i: int, j: int)
    requires 0 <= i && j <= |v|
  {
    forall k :: i <= k < j ==> v[k] == b
  }

  /** `v` ends in a run of exactly `n` times `b`. */
  predicate EndsInRun(v: seq<bool>, b: bool, n: nat) {
    n <= |v| && All(v, b, |v| - n, |v|) && (n < |v| ==> v[|v|-n-1] != b)
  }

  /** `r` successes in a row stand at index `q`. */
  predicate SuccessesAt(v: seq<bool>, r: nat, q: nat) {
    q + r <= |v| && All(v, true, q, q + r)
  }

  /** The first `p` verdicts end in `f` failures, and no `r` successes in a row follow. */
  ghost predicate DownSincePrefix(v: seq<bool>, f: nat, r: nat, p: nat) {
    f <= p <= |v| && All(v, false, p - f, p) &&
    forall q: nat :: p <= q ==> !SuccessesAt(v, r, q)
  }

  ghost predicate ReadsDown(v: seq<bool>, f: nat, r: nat) {
    exists p: nat :: DownSincePrefix(v, f, r, p)
  }

  predicate ReadsUnknown(v: seq<bool>, f: nat) {
    All(v, false, 0, |v|) && |v| < f
  }

  ghost function Reading(v: seq<bool>, f: nat, r: nat): Status {
    if ReadsDown(v, f, r) then DOWN else if ReadsUnknown(v, f) then UNKNOWN else UP
  }

  predicate Uses(h: seq<Event>, th: Thresholds) {
    forall e :: e in h && e.Checked? ==> e.th == th
  }

  lemma AppendKeeps(v: seq<bool>, x: bool, b: bool, i: nat, j: nat)
    requires j <= |v|
    ensures All(v + [x], b, i, j) == All(v, b, i, j)
  {
    assert forall k :: i <= k < j ==> (v + [x])[k] == v[k];
  }

  /** One more verdict only adds one more window in which `r` successes could end the outage. */
  lemma PrefixAfterAppend(v: seq<bool>, x: bool, f: nat, r: nat, p: nat)
    requires f <= p <= |v| && 1 <= r
    ensures DownSincePrefix(v + [x], f, r, p) ==
            (DownSincePrefix(v, f, r, p) && (p + r <= |v| + 1 ==> !All(v + [x], true, |v| + 1 - r, |v| + 1)))
  {
    AppendKeeps(v, x, false, p - f, p);
    forall q: nat | q + r <= |v| ensures SuccessesAt(v + [x], r, q) == SuccessesAt(v, r, q) {
      AppendKeeps(v, x, true, q, q + r);
    }
    assert p + r <= |v| + 1 ==> SuccessesAt(v + [x], r, |v| + 1 - r) == All(v + [x], true, |v| + 1 - r, |v| + 1);
  }

  lemma RunAfterAppend(v: seq<bool>, x: bool, n: nat, m: nat)
    requires EndsInRun(v, x, n)
    ensures EndsInRun(v + [x], x, n + 1) && EndsInRun(v + [x], !x, 0)
    ensures 1 <= m <= |v| + 1 ==> (All(v + [x], x, |v| + 1 - m, |v| + 1) == (m <= n + 1))
    ensures 1 <= m <= |v| + 1 ==> !All(v + [x], !x, |v| + 1 - m, |v| + 1)
  {
    var w := v + [x];
    assert w[|v|] == x;
    assert forall k :: 0 <= k < |v| ==> w[k] == v[k];
    if n + 1 < m <= |v| + 1 {
      assert w[|v| - n - 1] != x;
    }
  }

  lemma ReadingAfterFailure(v: seq<bool>, f: nat, r: nat, n: nat)
    requires f >= 1 && r >= 1 && EndsInRun(v, false, n)
    ensures ReadsDown(v + [false], f, r) == (ReadsDown(v, f, r) || n + 1 >= f)
  {
    var w := v + [false];
    RunAfterAppend(v, false, n, f);
    RunAfterAppend(v, false, n, r);
    forall p: nat | f <= p <= |v| ensures DownSincePrefix(w, f, r, p) == DownSincePrefix(v, f, r, p) {
      PrefixAfterAppend(v, false, f, r, p);
    }
    assert DownSincePrefix(w, f, r, |w|) == (n + 1 >= f);
  }

  lemma ReadingAfterSuccess(v: seq<bool>, f: nat, r: nat, n: nat)
    requires f >= 1 && r >= 1 && EndsInRun(v, true, n)
    ensures ReadsDown(v + [true], f, r) == (ReadsDown(v, f, r) && n + 1 < r)
  {
    var w := v + [true];
    RunAfterAppend(v, true, n, f);
    RunAfterAppend(v, true, n, r);
    forall p: nat | f <= p <= |v|
      ensures DownSincePrefix(w, f, r, p) == (DownSincePrefix(v, f, r, p) && n + 1 < r)
    {
      PrefixAfterAppend(v, true, f, r, p);
      if r <= n + 1 && p + r > |v| + 1 {
        // the run of successes reaches back past `p`, where a failure should stand
        assert w[p - 1] == v[p - 1] == true;
      }
      if n + 1 < r && p + r <= |v| + 1 {
        assert !All(w, true, |v| + 1 - r, |v| + 1);
      }
    }
    assert !DownSincePrefix(w, f, r, |w|);
  }

  /** What the machine shows of a history is what the verdicts read. */
  ghost predicate Reads(t: State, v: seq<bool>, th: Thresholds) {
    && t.status == Reading(v, th.failure, th.recovery)
    && EndsInRun(v, false, t.failureCount) && EndsInRun(v, true, t.recoveryCount)
  }

  lemma SuccessKeepsReading(t: State, v: seq<bool>, result: CheckResult, th: Thresholds)
    requires Reads(t, v, th) && result.outcome == SUCCESS && th.failure >= 1 && th.recovery >= 1
    ensures Reads(Applied(t, result, th), v + [true], th)
  {
    ReadingAfterSuccess(v, th.failure, th.recovery, t.recoveryCount);
    RunAfterAppend(v, true, t.recoveryCount, 1);
  }

  lemma FailureKeepsReading(t: State, v: seq<bool>, result: CheckResult, th: Thresholds)
    requires Reads(t, v, th) && result.outcome == FAILURE && th.failure >= 1 && th.recovery >= 1
    ensures Reads(Applied(t, result, th), v + [false], th)
  {
    ReadingAfterFailure(v, th.failure, th.recovery, t.failureCount);
    RunAfterAppend(v, false, t.failureCount, 1);
    UnknownMeansOnlyFailures(v, th.failure, t.failureCount);
    UnknownMeansOnlyFailures(v + [false], th.failure, t.failureCount + 1);
  }

  /** The incremental machine is the declarative reading of the conclusive history. */
  lemma {:induction false} MachineReadsHistory(s: State, h: seq<Event>, th: Thresholds)
    requires s == Fresh(s.name, s.url) && Uses(h, th) && th.failure >= 1 && th.recovery >= 1
    ensures After(s, h).status == Reading(Verdicts(h), th.failure, th.recovery)
    ensures EndsInRun(Verdicts(h), false, After(s, h).failureCount)
    ensures EndsInRun(Verdicts(h), true, After(s, h).recoveryCount)
  {
    if h == [] {
    } else {
      var g, e := h[..|h|-1], h[|h|-1];
      MachineReadsHistory(s, g, th);
      assert e in h;
      if IsSuccess(e) {
        SuccessKeepsReading(After(s, g), Verdicts(g), e.result, th);
      } else if IsFailure(e) {
        FailureKeepsReading(After(s, g), Verdicts(g), e.result, th);
      }
    }
  }

  lemma UnknownMeansOnlyFailures(v: seq<bool>, f: nat, n: nat)
    requires EndsInRun(v, false, n)
    ensures ReadsUnknown(v, f) == (n == |v| && n < f)
  {
  }
}
