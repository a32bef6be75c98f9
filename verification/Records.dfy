/** What every field of a state records: read off the history, without stepping through it. */
module Records {
  import opened Models
  import opened StateMachine
  import opened History
  import opened Outages

  /** Which checks a field is about. */
  datatype Sort = Any | Conclusive | Successful | Failing

  predicate Matches(e: Event, sort: Sort) {
    e.Checked? &&
    match sort
    case Any => true
    case Conclusive => e.result.outcome != IGNORED
    case Successful => e.result.outcome == SUCCESS
    case Failing => e.result.outcome == FAILURE
  }

  /** The last check of this sort. */
  function Last(h: seq<Event>, sort: Sort): Option<CheckResult> {
    if h == [] then None
    else if Matches(h[|h|-1], sort) then Some(h[|h|-1].result)
    else Last(h[..|h|-1], sort)
  }

  predicate IsLast(h: seq<Event>, sort: Sort, i: nat) {
    i < |h| && Matches(h[i], sort) && forall j :: i < j < |h| ==> !Matches(h[j], sort)
  }

  lemma {:induction false} LastIsLast(h: seq<Event>, sort: Sort)
    ensures Last(h, sort) == None <==> forall j :: 0 <= j < |h| ==> !Matches(h[j], sort)
    ensures Last(h, sort).Some? ==> exists i: nat :: IsLast(h, sort, i) && Last(h, sort) == Some(h[i].result)
  {
    if h == [] {
    } else if Matches(h[|h|-1], sort) {
      assert IsLast(h, sort, |h| - 1);
    } else {
      var g := h[..|h|-1];
      LastIsLast(g, sort);
      assert forall j :: 0 <= j < |g| ==> g[j] == h[j];
      if i: nat :| IsLast(g, sort, i) && Last(g, sort) == Some(g[i].result) {
        assert IsLast(h, sort, i);
      }
    }
  }

  function At(r: Option<CheckResult>): Option<Time> {
    match r case None => None case Some(result) => Some(result.checkedAt)
  }

  /** Event `p` changed the status, and none has since. */
  predicate LastChange(s: State, h: seq<Event>, p: nat) {
    && p < |h| && h[p].Checked? && StatusAt(s, h, p) != StatusAt(s, h, p + 1)
    && Stays(s, h, p + 1, |h|, StatusAt(s, h, |h|))
  }

  ghost predicate StatusSinceIs(s: State, h: seq<Event>, since: Option<Time>) {
    match since
    case None => Stays(s, h, 0, |h|, UNKNOWN)
    case Some(t) => exists p: nat :: LastChange(s, h, p) && t == TimeOf(h[p])
  }

  /** The last thing the user was told. */
  function LastTold(h: seq<Event>): Option<Status> {
    if h == [] then None
    else if h[|h|-1].Told? then Some(if h[|h|-1].kind == DownAlert then DOWN else UP)
    else LastTold(h[..|h|-1])
  }

  /** Event `p` turned the service DOWN, and the user has not been told of a recovery since. */
  predicate FellUntold(s: State, h: seq<Event>, p: nat) {
    && p < |h| && StatusAt(s, h, p) != DOWN && StatusAt(s, h, p + 1) == DOWN
    && forall j :: p < j < |h| ==> h[j] != Told(RecoveredAlert)
  }

  ghost predicate OutageRemembered(s: State, h: seq<Event>) {
    exists p: nat :: FellUntold(s, h, p)
  }

  // --- the fields of the last checks ---------------------------------------------------------

  predicate LastChecksTrue(t: State, h: seq<Event>) {
    && t.lastCheck == At(Last(h, Any))
    && t.lastSuccess == At(Last(h, Successful))
    && t.lastFailure == At(Last(h, Failing))
    && t.lastError == (match Last(h, Failing) case None => None case Some(r) => r.error)
    && t.lastStatusCode == (match Last(h, Conclusive) case None => None case Some(r) => r.statusCode)
    && t.responseTime == (match Last(h, Conclusive) case None => None case Some(r) => r.responseTime)
    && t.notifiedStatus == LastTold(h)
  }

  lemma LastAfter(h: seq<Event>, e: Event, sort: Sort)
    ensures Last(h + [e], sort) == if Matches(e, sort) then Some(e.result) else Last(h, sort)
  {
    assert (h + [e])[..|h|] == h;
  }

  lemma LastChecksAfter(t: State, h: seq<Event>, e: Event)
    requires LastChecksTrue(t, h)
    ensures LastChecksTrue(Step(t, e), h + [e])
  {
    LastAfter(h, e, Any);
    LastAfter(h, e, Conclusive);
    LastAfter(h, e, Successful);
    LastAfter(h, e, Failing);
    assert (h + [e])[..|h|] == h;
  }

  /** The fields about the last checks are those of the last check of its sort; the user knows what he was told last. */
  lemma {:induction false} LastChecksAreRecorded(s: State, h: seq<Event>)
    requires s == Fresh(s.name, s.url)
    ensures LastChecksTrue(After(s, h), h)
  {
    if h == [] {
    } else {
      var g, e := h[..|h|-1], h[|h|-1];
      LastChecksAreRecorded(s, g);
      LastChecksAfter(After(s, g), g, e);
      assert h == g + [e];
    }
  }

  // --- since when ----------------------------------------------------------------------------

  lemma StatusAtAppend(s: State, h: seq<Event>, e: Event)
    ensures forall k: nat :: k <= |h| ==> StatusAt(s, h + [e], k) == StatusAt(s, h, k)
    ensures StatusAt(s, h + [e], |h| + 1) == Step(After(s, h), e).status
  {
    AfterAppend(s, h, e);
    assert (h + [e])[..|h| + 1] == h + [e];
    forall k: nat | k <= |h| ensures StatusAt(s, h + [e], k) == StatusAt(s, h, k) {
      assert (h + [e])[..k] == h[..k];
    }
  }

  lemma ChangeIsLast(s: State, h: seq<Event>, e: Event)
    requires e.Checked? && Step(After(s, h), e).status != After(s, h).status
    ensures StatusSinceIs(s, h + [e], Some(TimeOf(e)))
  {
    var g := h + [e];
    StatusAtAppend(s, h, e);
    assert h[..|h|] == h && g[|h|] == e;
    assert Stays(s, g, |g|, |g|, StatusAt(s, g, |g|));
    assert LastChange(s, g, |h|);
  }

  lemma ChangeStaysLast(s: State, h: seq<Event>, e: Event, p: nat)
    requires LastChange(s, h, p) && After(s, h + [e]).status == After(s, h).status
    ensures LastChange(s, h + [e], p)
  {
    StatusAtAppend(s, h, e);
    assert h[..|h|] == h && (h + [e])[..|h| + 1] == h + [e];
    StaysExtends(s, h, e, p + 1, |h|, StatusAt(s, h, |h|));
  }

  lemma SinceStays(s: State, h: seq<Event>, e: Event, since: Option<Time>)
    requires StatusSinceIs(s, h, since) && After(s, h + [e]).status == After(s, h).status
    ensures StatusSinceIs(s, h + [e], since)
  {
    if since == None {
      assert h[..|h|] == h;
      assert StatusAt(s, h, |h|) == UNKNOWN;
      StaysExtends(s, h, e, 0, |h|, UNKNOWN);
    } else {
      var p: nat :| LastChange(s, h, p) && since.value == TimeOf(h[p]);
      ChangeStaysLast(s, h, e, p);
      assert (h + [e])[p] == h[p];
    }
  }

  lemma SinceOfStep(t: State, e: Event)
    ensures Step(t, e).status == t.status ==> Step(t, e).statusSince == t.statusSince
    ensures Step(t, e).status != t.status ==> e.Checked? && Step(t, e).statusSince == Some(TimeOf(e))
  {
  }

  /** `status_since` is the time of the check that last changed the status, and nothing before there was one. */
  lemma {:induction false} StatusSinceIsTheLastChange(s: State, h: seq<Event>)
    requires s == Fresh(s.name, s.url)
    ensures StatusSinceIs(s, h, After(s, h).statusSince)
  {
    if h == [] {
    } else {
      var g, e := h[..|h|-1], h[|h|-1];
      StatusSinceIsTheLastChange(s, g);
      assert h == g + [e];
      AfterAppend(s, g, e);
      SinceOfStep(After(s, g), e);
      if Step(After(s, g), e).status != After(s, g).status {
        ChangeIsLast(s, g, e);
      } else {
        SinceStays(s, g, e, After(s, g).statusSince);
      }
    }
  }

  lemma RememberedAfter(s: State, h: seq<Event>, e: Event)
    ensures OutageRemembered(s, h + [e]) <==>
              (After(s, h).status != DOWN && Step(After(s, h), e).status == DOWN) ||
              (OutageRemembered(s, h) && e != Told(RecoveredAlert))
  {
    var g := h + [e];
    StatusAtAppend(s, h, e);
    assert h[..|h|] == h;
    if After(s, h).status != DOWN && Step(After(s, h), e).status == DOWN {
      assert FellUntold(s, g, |h|);
    }
    if p: nat :| FellUntold(s, h, p) {
      assert e != Told(RecoveredAlert) ==> FellUntold(s, g, p);
    }
    if p: nat :| FellUntold(s, g, p) {
      assert g[|h|] == e;
      assert p < |h| ==> FellUntold(s, h, p) by {
        assert forall j :: 0 <= j < |h| ==> g[j] == h[j];
      }
    }
  }

  /** A streak of failures always has a beginning. */
  lemma {:induction false} StreakIsDated(s: State, h: seq<Event>)
    requires s == Fresh(s.name, s.url)
    ensures After(s, h).failureCount > 0 <==> After(s, h).failingSince.Some?
  {
    if h == [] {
    } else {
      StreakIsDated(s, h[..|h|-1]);
    }
  }

  lemma RememberedByState(t: State, e: Event)
    requires t.failureCount > 0 <==> t.failingSince.Some?
    ensures Step(t, e).downSince.Some? <==>
              (t.status != DOWN && Step(t, e).status == DOWN) || (t.downSince.Some? && e != Told(RecoveredAlert))
  {
  }

  /** `down_since` is kept exactly from a fall until the user is told of the recovery. */
  lemma {:induction false} OutageIsRememberedUntilTold(s: State, h: seq<Event>)
    requires s == Fresh(s.name, s.url)
    ensures After(s, h).downSince.Some? <==> OutageRemembered(s, h)
  {
    if h == [] {
    } else {
      var g, e := h[..|h|-1], h[|h|-1];
      OutageIsRememberedUntilTold(s, g);
      StreakIsDated(s, g);
      RememberedByState(After(s, g), e);
      RememberedAfter(s, g, e);
      assert h == g + [e];
    }
  }

  // --- the whole state -----------------------------------------------------------------------

  /** How long an ongoing outage has lasted is counted from the first failure of the streak that caused it. */
  lemma OngoingOutageIsTimed(s: State, h: seq<Event>, now: Time)
    requires s == Fresh(s.name, s.url) && Honest(s, h) && After(s, h).status == DOWN
    ensures exists q: nat, p: nat :: Ongoing(s, h, q, p) &&
              Downtime(After(s, h), Some(now)) == Some(if now < TimeOf(h[q]) then 0 else now - TimeOf(h[q]))
  {
    OutagesAreKnown(s, h);
    OngoingIsTimed(s, h, After(s, h), now);
  }

  lemma OngoingIsTimed(s: State, h: seq<Event>, t: State, now: Time)
    requires t.downSince.Some? && OngoingKnown(s, h, t.downSince.value)
    ensures exists q: nat, p: nat :: Ongoing(s, h, q, p) &&
              Downtime(t, Some(now)) == Some(if now < TimeOf(h[q]) then 0 else now - TimeOf(h[q]))
  {
    var q: nat, p: nat :| Ongoing(s, h, q, p) && t.downSince.value == TimeOf(h[q]);
  }

  /** Being told is knowing: the user then knows the status the message was about. */
  lemma ToldIsKnown(s: State, kind: AlertKind)
    requires PendingAlert(s) == Some(kind)
    ensures Notified(s, kind).notifiedStatus == Some(s.status) && PendingAlert(Notified(s, kind)) == None
    ensures Notified(s, kind) == s.(notifiedStatus := Some(s.status), downSince := Notified(s, kind).downSince)
    ensures Notified(s, kind).downSince == if s.status == DOWN then s.downSince else None
  {
  }
}
