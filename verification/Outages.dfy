/** Which outage a pending RECOVERED alert reports, and how long it lasted. */
module Outages {
  import opened Models
  import opened StateMachine
  import opened History

  predicate NoSuccess(h: seq<Event>, i: nat, j: nat)
    requires j <= |h|
  {
    forall k :: i <= k < j ==> !IsSuccess(h[k])
  }

  /** `q` is the first failure of the unbroken streak seen in the first `n` events. */
  predicate StreakStart(h: seq<Event>, n: nat, q: nat) {
    q < n <= |h| && IsFailure(h[q]) && NoSuccess(h, q, n) &&
    forall j: nat :: j < q && IsFailure(h[j]) ==> !NoSuccess(h, j, q)
  }

  function StatusAt(s: State, h: seq<Event>, k: nat): Status
    requires k <= |h|
  {
    After(s, h[..k]).status
  }

  predicate Stays(s: State, h: seq<Event>, i: nat, j: nat, status: Status) {
    j <= |h| && forall k: nat :: i <= k <= j ==> StatusAt(s, h, k) == status
  }

  /** Event `p` turned the service DOWN, and the streak that did it began with failure `q`. */
  predicate Fell(s: State, h: seq<Event>, q: nat, p: nat) {
    p < |h| && StreakStart(h, p + 1, q) && StatusAt(s, h, p) != DOWN && StatusAt(s, h, p + 1) == DOWN
  }

  /** The current outage: it began with failure `q`, turned the service DOWN at `p`, and is not over. */
  predicate Ongoing(s: State, h: seq<Event>, q: nat, p: nat) {
    Fell(s, h, q, p) && Stays(s, h, p + 1, |h|, DOWN)
  }

  /** The last outage: it began with failure `q`, turned the service DOWN at `p`, and success `r` ended it. */
  predicate Ended(s: State, h: seq<Event>, q: nat, p: nat, r: nat) {
    Fell(s, h, q, p) && p < r < |h| && IsSuccess(h[r]) &&
    Stays(s, h, p + 1, r, DOWN) && Stays(s, h, r + 1, |h|, UP)
  }

  function TimeOf(e: Event): Time
    requires e.Checked?
  {
    e.result.checkedAt
  }

  ghost predicate StreakKnown(s: State, h: seq<Event>) {
    match After(s, h).failingSince
    case None => forall j: nat :: j < |h| && IsFailure(h[j]) ==> !NoSuccess(h, j, |h|)
    case Some(t) => exists q: nat :: StreakStart(h, |h|, q) && t == TimeOf(h[q])
  }

  ghost predicate OngoingKnown(s: State, h: seq<Event>, t: Time) {
    exists q: nat, p: nat :: Ongoing(s, h, q, p) && t == TimeOf(h[q])
  }

  ghost predicate EndedKnown(s: State, h: seq<Event>, t: Time, u: Time) {
    exists q: nat, p: nat, r: nat :: Ended(s, h, q, p, r) && t == TimeOf(h[q]) && u == TimeOf(h[r])
  }

  ghost predicate OutageKnown(s: State, h: seq<Event>) {
    var t := After(s, h);
    && (t.status == UNKNOWN ==> t.downSince == None)
    && (t.status == DOWN ==> t.downSince.Some? && OngoingKnown(s, h, t.downSince.value))
    && (t.status == UP && t.downSince.Some? ==>
          t.statusSince.Some? && EndedKnown(s, h, t.downSince.value, t.statusSince.value))
    && (t.notifiedStatus == Some(DOWN) ==> t.downSince.Some?)
  }

  lemma StreakExtends(h: seq<Event>, e: Event, n: nat, q: nat)
    requires n <= |h|
    ensures StreakStart(h + [e], n, q) == StreakStart(h, n, q)
    ensures forall j: nat :: NoSuccess(h + [e], j, n) == NoSuccess(h, j, n)
  {
    var g := h + [e];
    assert forall k :: 0 <= k < |h| ==> g[k] == h[k];
    forall j: nat, m: nat | m <= |h| ensures NoSuccess(g, j, m) == NoSuccess(h, j, m) {
      if NoSuccess(g, j, m) {
        assert forall k :: j <= k < m ==> g[k] == h[k];
      }
    }
  }

  lemma FellExtends(s: State, h: seq<Event>, e: Event, q: nat, p: nat)
    requires Fell(s, h, q, p)
    ensures Fell(s, h + [e], q, p)
  {
    StreakExtends(h, e, p + 1, q);
    assert (h + [e])[..p] == h[..p];
    assert (h + [e])[..p+1] == h[..p+1];
  }

  lemma StaysExtends(s: State, h: seq<Event>, e: Event, i: nat, j: nat, status: Status)
    requires Stays(s, h, i, j, status)
    ensures Stays(s, h + [e], i, j, status)
    ensures j == |h| && After(s, h + [e]).status == status ==> Stays(s, h + [e], i, j + 1, status)
  {
    var g := h + [e];
    forall k: nat | i <= k <= j ensures StatusAt(s, g, k) == status {
      assert g[..k] == h[..k];
      assert StatusAt(s, h, k) == status;
    }
    assert g[..|h|+1] == g;
  }

  lemma StreakStep(s: State, h: seq<Event>, e: Event)
    requires StreakKnown(s, h)
    ensures StreakKnown(s, h + [e])
  {
    var g := h + [e];
    AfterAppend(s, h, e);
    assert forall k :: 0 <= k < |h| ==> g[k] == h[k];
    forall j: nat | j < |h| ensures NoSuccess(g, j, |g|) == (NoSuccess(h, j, |h|) && !IsSuccess(e)) {
      StreakExtends(h, e, |h|, j);
      assert g[|h|] == e;
    }
    if IsFailure(e) && After(s, h).failingSince.None? {
      forall j: nat | j < |h| && IsFailure(g[j]) ensures !NoSuccess(g, j, |h|) {
        StreakExtends(h, e, |h|, j);
      }
      assert StreakStart(g, |g|, |h|);
    } else if !IsSuccess(e) && After(s, h).failingSince.Some? {
      var q: nat :| StreakStart(h, |h|, q) && After(s, h).failingSince.value == TimeOf(h[q]);
      StreakExtends(h, e, |h|, q);
      assert StreakStart(g, |g|, q);
    }
  }

  lemma FallStep(s: State, h: seq<Event>, e: Event)
    requires StreakKnown(s, h + [e])
    requires After(s, h).status != DOWN && After(s, h + [e]).status == DOWN
    ensures OutageKnown(s, h + [e])
  {
    var g := h + [e];
    AfterAppend(s, h, e);
    var q: nat :| StreakStart(g, |g|, q) && After(s, g).failingSince.value == TimeOf(g[q]);
    assert g[..|h|] == h && g[..|g|] == g;
    assert Ongoing(s, g, q, |h|);
  }

  lemma OutageEnds(s: State, h: seq<Event>, e: Event, q: nat, p: nat)
    requires Ongoing(s, h, q, p) && IsSuccess(e) && After(s, h + [e]).status == UP
    ensures Ended(s, h + [e], q, p, |h|)
  {
    var g := h + [e];
    FellExtends(s, h, e, q, p);
    StaysExtends(s, h, e, p + 1, |h|, DOWN);
    assert g[..|g|] == g && g[|h|] == e;
  }

  lemma OngoingEnds(s: State, h: seq<Event>, e: Event, t: Time)
    requires OngoingKnown(s, h, t) && IsSuccess(e) && After(s, h + [e]).status == UP
    ensures EndedKnown(s, h + [e], t, TimeOf(e))
  {
    var q: nat, p: nat :| Ongoing(s, h, q, p) && t == TimeOf(h[q]);
    OutageEnds(s, h, e, q, p);
    assert (h + [e])[|h|] == e && (h + [e])[q] == h[q];
  }

  lemma RecoveryStep(s: State, h: seq<Event>, e: Event)
    requires OutageKnown(s, h)
    requires After(s, h).status == DOWN && After(s, h + [e]).status == UP
    ensures OutageKnown(s, h + [e])
  {
    AfterAppend(s, h, e);
    OngoingEnds(s, h, e, After(s, h).downSince.value);
  }

  lemma OngoingExtends(s: State, h: seq<Event>, e: Event, t: Time)
    requires OngoingKnown(s, h, t) && After(s, h + [e]).status == DOWN
    ensures OngoingKnown(s, h + [e], t)
  {
    var q: nat, p: nat :| Ongoing(s, h, q, p) && t == TimeOf(h[q]);
    FellExtends(s, h, e, q, p);
    StaysExtends(s, h, e, p + 1, |h|, DOWN);
    assert Ongoing(s, h + [e], q, p);
  }

  lemma EndedExtends(s: State, h: seq<Event>, e: Event, t: Time, u: Time)
    requires EndedKnown(s, h, t, u) && After(s, h + [e]).status == UP
    ensures EndedKnown(s, h + [e], t, u)
  {
    var q: nat, p: nat, r: nat :| Ended(s, h, q, p, r) && t == TimeOf(h[q]) && u == TimeOf(h[r]);
    FellExtends(s, h, e, q, p);
    StaysExtends(s, h, e, p + 1, r, DOWN);
    StaysExtends(s, h, e, r + 1, |h|, UP);
    assert Ended(s, h + [e], q, p, r);
  }

  lemma SteadyStep(s: State, h: seq<Event>, e: Event)
    requires OutageKnown(s, h)
    requires After(s, h).status == After(s, h + [e]).status
    requires e.Told? ==> PendingAlert(After(s, h)) == Some(e.kind)
    ensures OutageKnown(s, h + [e])
  {
    var t := After(s, h);
    AfterAppend(s, h, e);
    if t.status == DOWN {
      OngoingExtends(s, h, e, t.downSince.value);
    } else if t.status == UP && t.downSince.Some? {
      EndedExtends(s, h, e, t.downSince.value, t.statusSince.value);
    }
  }

  lemma {:induction false} OutagesAreKnown(s: State, h: seq<Event>)
    requires s == Fresh(s.name, s.url) && Honest(s, h)
    ensures StreakKnown(s, h) && OutageKnown(s, h)
  {
    if h == [] {
    } else {
      var g, e := h[..|h|-1], h[|h|-1];
      assert g + [e] == h;
      OutagesAreKnown(s, g);
      StreakStep(s, g, e);
      AfterAppend(s, g, e);
      if After(s, g).status == After(s, h).status {
        SteadyStep(s, g, e);
      } else if After(s, h).status == DOWN {
        FallStep(s, g, e);
      } else if After(s, g).status == DOWN {
        RecoveryStep(s, g, e);
      }
    }
  }

  /**
   * The downtime a RECOVERED alert reports is real: it runs from the first failure of the streak
   * that last turned the service DOWN to the success that ended that outage.
   */
  ghost predicate ReportsLastOutage(s: State, h: seq<Event>, downtime: Option<nat>) {
    exists q: nat, p: nat, r: nat ::
      Ended(s, h, q, p, r) &&
      downtime == Some(if TimeOf(h[r]) < TimeOf(h[q]) then 0 else TimeOf(h[r]) - TimeOf(h[q]))
  }

  lemma EndedReports(s: State, h: seq<Event>, t: Time, u: Time)
    requires EndedKnown(s, h, t, u)
    ensures ReportsLastOutage(s, h, Some(if u < t then 0 else u - t))
  {
    var q: nat, p: nat, r: nat :| Ended(s, h, q, p, r) && t == TimeOf(h[q]) && u == TimeOf(h[r]);
  }

  lemma RecoveredReportsLastOutage(s: State, h: seq<Event>)
    requires s == Fresh(s.name, s.url) && Honest(s, h)
    requires PendingAlert(After(s, h)) == Some(RecoveredAlert)
    ensures ReportsLastOutage(s, h, Downtime(After(s, h)))
  {
    OutagesAreKnown(s, h);
    var t := After(s, h);
    EndedReports(s, h, t.downSince.value, t.statusSince.value);
  }
}
