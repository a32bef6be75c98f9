/** What a state says about the checks and notifications that led to it. */
module History {
  import opened Models
  import opened StateMachine

  datatype Event = Checked(result: CheckResult, th: Thresholds) | Told(kind: AlertKind)

  predicate IsSuccess(e: Event) { e.Checked? && e.result.outcome == SUCCESS }
  predicate IsFailure(e: Event) { e.Checked? && e.result.outcome == FAILURE }
  predicate IsIgnored(e: Event) { e.Checked? && e.result.outcome == IGNORED }

  function Step(s: State, e: Event): State {
    match e
    case Checked(result, th) => Applied(s, result, th)
    case Told(kind) => Notified(s, kind)
  }

  function After(s: State, h: seq<Event>): State {
    if h == [] then s else Step(After(s, h[..|h|-1]), h[|h|-1])
  }

  lemma AfterAppend(s: State, h: seq<Event>, e: Event)
    ensures After(s, h + [e]) == Step(After(s, h), e)
  {
    assert (h + [e])[..|h|] == h;
  }

  /** The user is only ever told what is pending at that moment. */
  predicate Honest(s: State, h: seq<Event>) {
    h == [] ||
    (Honest(s, h[..|h|-1]) &&
     (h[|h|-1].Told? ==> PendingAlert(After(s, h[..|h|-1])) == Some(h[|h|-1].kind)))
  }

  lemma HonestAppend(s: State, h: seq<Event>, e: Event)
    requires Honest(s, h)
    requires e.Told? ==> PendingAlert(After(s, h)) == Some(e.kind)
    ensures Honest(s, h + [e])
  {
    assert (h + [e])[..|h|] == h;
  }

  lemma {:induction false} AfterKeepsIdentity(s: State, h: seq<Event>)
    ensures After(s, h).name == s.name && After(s, h).url == s.url
  {
    if h == [] {
    } else {
      AfterKeepsIdentity(s, h[..|h|-1]);
    }
  }

  // --- ignored checks ------------------------------------------------------------------------

  function WithoutIgnored(h: seq<Event>): seq<Event> {
    if h == [] then []
    else if IsIgnored(h[|h|-1]) then WithoutIgnored(h[..|h|-1])
    else WithoutIgnored(h[..|h|-1]) + [h[|h|-1]]
  }

  predicate SameButLastCheck(s: State, t: State) {
    s == t.(lastCheck := s.lastCheck)
  }

  lemma {:induction false} IgnoredChecksLeaveNoTrace(s: State, h: seq<Event>)
    ensures SameButLastCheck(After(s, h), After(s, WithoutIgnored(h)))
    ensures PendingAlert(After(s, h)) == PendingAlert(After(s, WithoutIgnored(h)))
  {
    if h == [] {
    } else {
      IgnoredChecksLeaveNoTrace(s, h[..|h|-1]);
      if !IsIgnored(h[|h|-1]) {
        AfterAppend(s, WithoutIgnored(h[..|h|-1]), h[|h|-1]);
      }
    }
  }
}
