/** How long the requests of one check cycle take when `m` permits are handed out in order of arrival. */
module Permits {
  import opened Models

  /** Which of the first `k` requests hold a permit at time `t`. */
  function Busy(starts: seq<real>, ends: seq<real>, k: nat, t: real): set<nat>
    requires k <= |starts| && k <= |ends|
  {
    set j: nat | j < k && starts[j] <= t < ends[j]
  }

  /**
   * A request waits only while all permits are held by earlier ones, and none takes longer than `limit`;
   * handing over a permit takes no time.
   */
  ghost predicate Prompt(m: nat, limit: real, starts: seq<real>, ends: seq<real>) {
    && |starts| == |ends|
    && (forall k :: 0 <= k < |starts| ==> starts[k] <= ends[k] <= starts[k] + limit)
    && (forall k: nat, t: real :: k < |starts| && 0.0 <= t < starts[k] ==> |Busy(starts, ends, k, t)| >= m)
  }

  /** At most `m` requests hold a permit at any time. */
  ghost predicate Capped(m: nat, starts: seq<real>, ends: seq<real>) {
    |starts| == |ends| && forall t: real :: |Busy(starts, ends, |starts|, t)| <= m
  }

  /** No request is made before the cycle starts, and each takes the whole limit. */
  predicate AllFull(limit: real, starts: seq<real>, ends: seq<real>) {
    |starts| == |ends| && forall k :: 0 <= k < |starts| ==> starts[k] >= 0.0 && ends[k] == starts[k] + limit
  }

  lemma {:induction false} SetOfInterval(s: set<nat>, lo: nat, hi: nat)
    requires lo <= hi && forall j :: j in s ==> lo <= j < hi
    ensures |s| <= hi - lo
    decreases hi
  {
    if lo == hi {
      assert s == {};
    } else {
      SetOfInterval(s - {hi - 1}, lo, hi - 1);
    }
  }

  /** `n` permits' worth of requests, and `n` limits, as sums. */
  function Requests(n: nat, m: nat): nat {
    if n == 0 then 0 else Requests(n - 1, m) + m
  }

  function Limits(n: nat, limit: real): real {
    if n == 0 then 0.0 else Limits(n - 1, limit) + limit
  }

  lemma {:induction false} RequestsAreProduct(n: nat, m: nat)
    ensures Requests(n, m) == n * m
  {
    if n == 0 {
    } else {
      RequestsAreProduct(n - 1, m);
      assert (n - 1) * m + m == n * m;
    }
  }

  lemma {:induction false} LimitsAreProduct(n: nat, limit: real)
    ensures Limits(n, limit) == n as real * limit
  {
    if n == 0 {
    } else {
      LimitsAreProduct(n - 1, limit);
      assert (n - 1) as real * limit + limit == n as real * limit;
    }
  }

  lemma {:induction false} LimitsAreNonNegative(n: nat, limit: real)
    requires limit > 0.0
    ensures Limits(n, limit) >= 0.0
  {
    if n == 0 {
    } else {
      LimitsAreNonNegative(n - 1, limit);
    }
  }

  /** A request that still waits after `q` limits would need `m` earlier requests out of fewer than `m`. */
  lemma {:induction false} StartsInRound(m: nat, limit: real, starts: seq<real>, ends: seq<real>, k: nat, q: nat)
    requires limit > 0.0 && Prompt(m, limit, starts, ends) && k < |starts| && k < Requests(q + 1, m)
    ensures starts[k] <= Limits(q, limit)
    decreases k, q
  {
    LimitsAreNonNegative(q, limit);
    if k < Requests(q, m) {
      StartsInRound(m, limit, starts, ends, k, q - 1);
    } else if starts[k] > Limits(q, limit) {
      var busy := Busy(starts, ends, k, Limits(q, limit));
      forall j | j in busy ensures j >= Requests(q, m) {
        if j < Requests(q, m) {
          StartsInRound(m, limit, starts, ends, j, q - 1);
        }
      }
      SetOfInterval(busy, Requests(q, m), k);
    }
  }

  /** Request `k` starts within `k / m` limits. */
  lemma StartsInTime(m: nat, limit: real, starts: seq<real>, ends: seq<real>, k: nat)
    requires m > 0 && limit > 0.0 && Prompt(m, limit, starts, ends) && k < |starts|
    ensures starts[k] <= (k / m) as real * limit
  {
    RequestsAreProduct(k / m, m);
    LimitsAreProduct(k / m, limit);
    StartsInRound(m, limit, starts, ends, k, k / m);
  }

  function CeilDiv(n: nat, m: nat): nat
    requires m > 0
  {
    if n == 0 then 0 else (n - 1) / m + 1
  }

  lemma FewerRounds(n: nat, m: nat)
    requires m > 0 && n > 0
    ensures n <= Requests(CeilDiv(n, m), m)
  {
    RequestsAreProduct((n - 1) / m, m);
  }

  /** All requests of a cycle end within `ceil(n / m)` limits. */
  lemma CycleEndsInTime(m: nat, limit: real, starts: seq<real>, ends: seq<real>, k: nat)
    requires m > 0 && limit > 0.0 && Prompt(m, limit, starts, ends) && k < |starts|
    ensures ends[k] <= CeilDiv(|starts|, m) as real * limit
  {
    var c := CeilDiv(|starts|, m);
    FewerRounds(|starts|, m);
    StartsInRound(m, limit, starts, ends, k, c - 1);
    LimitsAreProduct(c, limit);
  }

  // --- the bound is attained -----------------------------------------------------------------

  /** The requests that start in the last `q` limits before `last`. */
  function Recent(starts: seq<real>, last: real, limit: real, q: nat): set<nat> {
    set k: nat | k < |starts| && last - Limits(q, limit) < starts[k] <= last
  }

  /** Each limit before `last` has room for `m` full requests. */
  lemma {:induction false} RecentAreFew(m: nat, limit: real, starts: seq<real>, ends: seq<real>, last: real, q: nat)
    requires limit > 0.0 && Capped(m, starts, ends) && AllFull(limit, starts, ends)
    ensures |Recent(starts, last, limit, q)| <= Requests(q, m)
  {
    if q == 0 {
      assert Recent(starts, last, limit, 0) == {};
    } else {
      var before, busy := Recent(starts, last, limit, q - 1), Busy(starts, ends, |starts|, last - Limits(q - 1, limit));
      RecentAreFew(m, limit, starts, ends, last, q - 1);
      forall k | k in Recent(starts, last, limit, q) ensures k in before + busy {
      }
      SubsetIsSmaller(Recent(starts, last, limit, q), before + busy);
      UnionIsFewer(before, busy);
    }
  }

  lemma UnionIsFewer(a: set<nat>, b: set<nat>)
    ensures |a + b| <= |a| + |b|
  {
    assert a + b == a + (b - a);
    SubsetIsSmaller(b - a, b);
  }

  lemma {:induction false} LastOf(starts: seq<real>) returns (last: nat)
    requires starts != []
    ensures last < |starts| && forall k :: 0 <= k < |starts| ==> starts[k] <= starts[last]
  {
    last := 0;
    if |starts| > 1 {
      var n := |starts| - 1;
      last := LastOf(starts[..n]);
      assert forall k :: 0 <= k < n ==> starts[k] == starts[..n][k];
      if starts[n] > starts[last] {
        last := n;
      }
    }
  }

  lemma {:induction false} IntervalIn(lo: nat, m: nat, s: set<nat>)
    requires forall j: nat :: lo <= j < lo + m ==> j in s
    ensures |s| >= m
  {
    if m == 0 {
    } else {
      IntervalIn(lo, m - 1, s - {lo + m - 1});
    }
  }

  /** However the permits are handed out, full requests need `ceil(n / m)` limits. */
  lemma NoCycleIsFaster(m: nat, limit: real, starts: seq<real>, ends: seq<real>) returns (k: nat)
    requires m > 0 && limit > 0.0 && starts != [] && Capped(m, starts, ends) && AllFull(limit, starts, ends)
    ensures k < |starts| && ends[k] >= CeilDiv(|starts|, m) as real * limit
  {
    var c := CeilDiv(|starts|, m);
    k := LastOf(starts);
    LimitsAreProduct(c, limit);
    if starts[k] < Limits(c - 1, limit) {
      var all := Recent(starts, starts[k], limit, c - 1);
      RecentAreFew(m, limit, starts, ends, starts[k], c - 1);
      IntervalIn(0, |starts|, all);
      RequestsBelow(|starts|, m);
    }
  }

  lemma RequestsBelow(n: nat, m: nat)
    requires m > 0 && n > 0
    ensures Requests(CeilDiv(n, m) - 1, m) < n
  {
    RequestsAreProduct((n - 1) / m, m);
  }

  /** In which batch of `m` request `k` is. */
  function Batch(k: nat, m: nat): nat
    requires m > 0
  {
    if k < m then 0 else 1 + Batch(k - m, m)
  }

  lemma {:induction false} BatchIs(k: nat, m: nat, i: nat)
    requires m > 0 && Requests(i, m) <= k < Requests(i + 1, m)
    ensures Batch(k, m) == i
    decreases i
  {
    if i == 0 {
    } else {
      RequestsShift(i, m);
      BatchIs(k - m, m, i - 1);
    }
  }

  lemma {:induction false} RequestsShift(i: nat, m: nat)
    ensures Requests(i, m) <= Requests(i + 1, m) == Requests(i, m) + m
    ensures i > 0 ==> Requests(i, m) >= m
  {
    if i == 0 {
    } else {
      RequestsShift(i - 1, m);
    }
  }

  lemma {:induction false} BatchHolds(k: nat, m: nat)
    requires m > 0
    ensures Requests(Batch(k, m), m) <= k < Requests(Batch(k, m) + 1, m)
    decreases k
  {
    if k < m {
    } else {
      BatchHolds(k - m, m);
    }
  }

  /** Every request takes the whole limit, so they go in batches of `m`. */
  function FullStarts(n: nat, m: nat, limit: real): seq<real>
    requires m > 0
  {
    seq(n, k requires 0 <= k < n => Limits(Batch(k, m), limit))
  }

  function FullEnds(n: nat, m: nat, limit: real): seq<real>
    requires m > 0
  {
    seq(n, k requires 0 <= k < n => Limits(Batch(k, m) + 1, limit))
  }

  lemma {:induction false} LimitOf(t: real, limit: real, q: nat) returns (i: nat)
    requires 0.0 <= t < Limits(q, limit) && limit > 0.0
    ensures i < q && Limits(i, limit) <= t < Limits(i + 1, limit)
  {
    if t >= Limits(q - 1, limit) {
      i := q - 1;
    } else {
      i := LimitOf(t, limit, q - 1);
    }
  }

  lemma {:induction false} RequestsGrow(i: nat, q: nat, m: nat)
    requires i <= q
    ensures Requests(i, m) <= Requests(q, m)
  {
    if i == q {
    } else {
      RequestsGrow(i, q - 1, m);
    }
  }

  lemma FullHolds(n: nat, m: nat, limit: real, k: nat, t: real, i: nat, j: nat)
    requires m > 0 && j < k < n && Requests(i, m) <= j < Requests(i + 1, m)
    requires Limits(i, limit) <= t < Limits(i + 1, limit)
    ensures j in Busy(FullStarts(n, m, limit), FullEnds(n, m, limit), k, t)
  {
    BatchIs(j, m, i);
  }

  lemma FullIsBusy(n: nat, m: nat, limit: real, k: nat, t: real)
    requires m > 0 && limit > 0.0 && k < n && 0.0 <= t < Limits(Batch(k, m), limit)
    ensures |Busy(FullStarts(n, m, limit), FullEnds(n, m, limit), k, t)| >= m
  {
    var busy := Busy(FullStarts(n, m, limit), FullEnds(n, m, limit), k, t);
    var i := LimitOf(t, limit, Batch(k, m));
    BatchHolds(k, m);
    RequestsGrow(i + 1, Batch(k, m), m);
    RequestsShift(i, m);
    forall j: nat | Requests(i, m) <= j < Requests(i, m) + m ensures j in busy {
      FullHolds(n, m, limit, k, t, i, j);
    }
    IntervalIn(Requests(i, m), m, busy);
  }

  lemma FullIsPrompt(n: nat, m: nat, limit: real)
    requires m > 0 && limit > 0.0
    ensures Prompt(m, limit, FullStarts(n, m, limit), FullEnds(n, m, limit))
  {
    forall k: nat, t: real | k < n && 0.0 <= t < Limits(Batch(k, m), limit)
      ensures |Busy(FullStarts(n, m, limit), FullEnds(n, m, limit), k, t)| >= m
    {
      FullIsBusy(n, m, limit, k, t);
    }
  }

  lemma {:induction false} LimitsGrow(i: nat, q: nat, limit: real)
    requires i <= q && limit > 0.0
    ensures Limits(i, limit) <= Limits(q, limit)
  {
    if i == q {
    } else {
      LimitsGrow(i, q - 1, limit);
    }
  }

  lemma OneBatchAtATime(i: nat, j: nat, limit: real, t: real)
    requires limit > 0.0
    requires Limits(i, limit) <= t < Limits(i + 1, limit) && Limits(j, limit) <= t < Limits(j + 1, limit)
    ensures i == j
  {
    if i < j {
      LimitsGrow(i + 1, j, limit);
    } else if j < i {
      LimitsGrow(j + 1, i, limit);
    }
  }

  lemma FullIsCapped(n: nat, m: nat, limit: real)
    requires m > 0 && limit > 0.0
    ensures Capped(m, FullStarts(n, m, limit), FullEnds(n, m, limit))
  {
    forall t: real ensures |Busy(FullStarts(n, m, limit), FullEnds(n, m, limit), n, t)| <= m {
      FullBusyIsOneBatch(n, m, limit, t);
    }
  }

  lemma FullBusyIsOneBatch(n: nat, m: nat, limit: real, t: real)
    requires m > 0 && limit > 0.0
    ensures |Busy(FullStarts(n, m, limit), FullEnds(n, m, limit), n, t)| <= m
  {
    var busy := Busy(FullStarts(n, m, limit), FullEnds(n, m, limit), n, t);
    if busy != {} {
      var i :| i in busy;
      var batch := Batch(i, m);
      forall j | j in busy ensures Requests(batch, m) <= j < Requests(batch, m) + m {
        OneBatchAtATime(batch, Batch(j, m), limit, t);
        BatchHolds(j, m);
        RequestsShift(batch, m);
      }
      SetOfInterval(busy, Requests(batch, m), Requests(batch, m) + m);
    }
  }

  lemma LastBatch(n: nat, m: nat)
    requires n > 0 && m > 0
    ensures Batch(n - 1, m) + 1 == CeilDiv(n, m)
  {
    RequestsAreProduct((n - 1) / m, m);
    BatchIs(n - 1, m, (n - 1) / m);
  }

  lemma FullIsAllFull(n: nat, m: nat, limit: real)
    requires m > 0 && limit > 0.0
    ensures AllFull(limit, FullStarts(n, m, limit), FullEnds(n, m, limit))
  {
    forall k: nat | k < n ensures Limits(Batch(k, m), limit) >= 0.0 {
      LimitsAreNonNegative(Batch(k, m), limit);
    }
  }

  /** And in order of arrival they need no more: a prompt cycle of full requests takes exactly that. */
  lemma BoundIsAttained(n: nat, m: nat, limit: real) returns (starts: seq<real>, ends: seq<real>)
    requires n > 0 && m > 0 && limit > 0.0
    ensures |starts| == n && |ends| == n
    ensures Prompt(m, limit, starts, ends) && Capped(m, starts, ends) && AllFull(limit, starts, ends)
    ensures ends[n - 1] == CeilDiv(n, m) as real * limit
  {
    starts, ends := FullStarts(n, m, limit), FullEnds(n, m, limit);
    assert |ends| == n;
    FullIsPrompt(n, m, limit);
    FullIsCapped(n, m, limit);
    FullIsAllFull(n, m, limit);
    FullEnd(n, m, limit);
    LimitsAreProduct(CeilDiv(n, m), limit);
  }

  lemma FullEnd(n: nat, m: nat, limit: real)
    requires n > 0 && m > 0
    ensures FullEnds(n, m, limit)[n - 1] == Limits(CeilDiv(n, m), limit)
  {
    LastBatch(n, m);
  }
}
