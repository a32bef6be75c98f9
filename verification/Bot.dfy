/** Long polling for updates: how the offset protocol turns a lossy server dialogue into reading a stream. */
module Bot {
  import opened Models

  const MIN_BACKOFF := 1
  const MAX_BACKOFF := 60

  datatype Update = Update(id: nat, body: string)

  ghost predicate Increasing(s: seq<Update>) {
    forall i, j :: 0 <= i < j < |s| ==> s[i].id < s[j].id
  }

  function Min(a: int, b: int): int { if a < b then a else b }

  function Max(a: int, b: int): int { if a < b then b else a }

  // --- the server ----------------------------------------------------------------------------

  /** How many updates at the start have an id below `offset`. */
  function Below(s: seq<Update>, offset: int): (k: nat)
    ensures k <= |s|
  {
    if s == [] || s[0].id >= offset then 0 else 1 + Below(s[1..], offset)
  }

  lemma {:induction false} BelowNext(s: seq<Update>, k: nat)
    requires Increasing(s) && 0 < k <= |s|
    ensures Below(s, s[k - 1].id + 1) == k
  {
    var offset := s[k - 1].id + 1;
    if k > 1 {
      assert s[1..][k - 2] == s[k - 1];
      BelowNext(s[1..], k - 1);
    } else if |s| > 1 {
      assert s[1..][0].id >= offset;
    }
  }

  /** All that ever arrived, and how much of it the server has forgotten. */
  class Server {
    var stream: seq<Update>
    var forgotten: nat

    ghost predicate Valid()
      reads this
    {
      Increasing(stream) && forgotten <= |stream|
    }

    method Receive(arrivals: seq<Update>)
      requires Valid() && Increasing(stream + arrivals)
      modifies this`stream
      ensures Valid() && stream == old(stream) + arrivals
    {
      stream := stream + arrivals;
    }

    /** A non-negative offset confirms what lies below it; a negative one counts from the end. */
    method GetUpdates(offset: Option<int>, limit: nat) returns (batch: seq<Update>)
      requires Valid()
      modifies this`forgotten
      ensures Valid()
      ensures forgotten == Confirmed(stream, old(forgotten), offset)
      ensures batch == stream[forgotten..forgotten + Min(limit, |stream| - forgotten)]
    {
      forgotten := Confirmed(stream, forgotten, offset);
      batch := stream[forgotten..forgotten + Min(limit, |stream| - forgotten)];
    }
  }

  function Confirmed(stream: seq<Update>, forgotten: nat, offset: Option<int>): (k: nat)
    requires forgotten <= |stream|
    ensures forgotten <= k <= |stream|
  {
    if offset == None then forgotten
    else if offset.value < 0 then Max(forgotten, |stream| + offset.value)
    else Max(forgotten, Below(stream, offset.value))
  }

  /** An offset just past the last update taken confirms exactly what was taken. */
  lemma OffsetConfirmsPosition(stream: seq<Update>, forgotten: nat, offset: Option<int>,
                               position: nat)
    requires Increasing(stream) && forgotten <= position <= |stream| && StandsFor(stream, forgotten, offset, position)
    ensures Confirmed(stream, forgotten, offset) == position
  {
    if offset.Some? {
      BelowNext(stream, position);
    }
  }

  predicate StandsFor(stream: seq<Update>, forgotten: nat, offset: Option<int>, position: nat)
    requires position <= |stream|
  {
    if offset.Some? then position > 0 && offset.value == stream[position - 1].id + 1 else position == forgotten
  }

  // --- the surroundings of one poll ----------------------------------------------------------

  /** An error may come before or after the server acted on the request. */
  datatype Answer = Unanswered(reached: bool) | Answered(limit: nat)

  datatype Stop = Never | WhilePolling | After(handled: nat)

  /** What arrives before a poll, how the poll ends, and when, if at all, shutdown is requested. */
  datatype Round = Round(arrivals: seq<Update>, answer: Answer, stop: Stop)

  function Arrivals(rounds: seq<Round>): seq<Update> {
    if rounds == [] then [] else rounds[0].arrivals + Arrivals(rounds[1..])
  }

  // --- reading a stream ----------------------------------------------------------------------

  /** A reader of the stream without offsets, servers and lost answers. */
  datatype Reader = Reader(position: nat, handled: seq<Update>, stopped: bool, pauses: seq<nat>, failures: nat)

  function Pause(failures: nat): nat {
    Min(MIN_BACKOFF * Pow2(failures), MAX_BACKOFF)
  }

  function AfterRound(stream: seq<Update>, r: Reader, round: Round): (r': Reader)
    requires r.position <= |stream|
    ensures r.position <= r'.position <= |stream|
  {
    if round.stop == WhilePolling then r.(stopped := true)
    else match round.answer
      case Unanswered(_) =>
        r.(pauses := r.pauses + [Pause(r.failures)], failures := r.failures + 1, stopped := round.stop != Never)
      case Answered(limit) =>
        var n := Min(limit, |stream| - r.position);
        var h := if round.stop.After? then Min(n, round.stop.handled) else n;
        r.(position := r.position + n, handled := r.handled + stream[r.position..r.position + h],
        failures := 0, stopped := round.stop != Never)
  }

  function AfterRounds(stream: seq<Update>, r: Reader, rounds: seq<Round>): Reader
    requires r.position <= |stream|
    decreases |rounds|
  {
    if rounds == [] || r.stopped then r
    else
      var stream' := stream + rounds[0].arrivals;
      AfterRounds(stream', AfterRound(stream', r, rounds[0]), rounds[1..])
  }

  // --- handled exactly once ------------------------------------------------------------------

  /** What was handled is a piece of the stream, starting at `first`; only a stop cuts it short. */
  predicate Contiguous(stream: seq<Update>, first: nat, r: Reader) {
    && first <= r.position <= |stream|
    && r.handled <= stream[first..r.position]
    && (!r.stopped ==> r.handled == stream[first..r.position])
  }

  lemma ArrivalsKeepContiguity(stream: seq<Update>, arrivals: seq<Update>, first: nat, r: Reader)
    requires Contiguous(stream, first, r)
    ensures Contiguous(stream + arrivals, first, r)
  {
    assert (stream + arrivals)[first..r.position] == stream[first..r.position];
  }

  lemma RoundKeepsContiguity(stream: seq<Update>, first: nat, r: Reader, round: Round)
    requires Contiguous(stream, first, r) && !r.stopped
    ensures Contiguous(stream, first, AfterRound(stream, r, round))
  {
    if round.stop != WhilePolling && round.answer.Answered? {
      var r' := AfterRound(stream, r, round);
      var h := |r'.handled| - |r.handled|;
      assert stream[first..r.position] + stream[r.position..r.position + h] == stream[first..r.position + h];
    }
  }

  /** In order, without gap or repeat, whatever polls fail. */
  lemma {:induction false} HandledIsContiguous(stream: seq<Update>, first: nat, r: Reader, rounds: seq<Round>)
    requires Contiguous(stream, first, r)
    ensures Contiguous(stream + Arrivals(rounds), first, AfterRounds(stream, r, rounds))
    decreases |rounds|
  {
    if rounds == [] || r.stopped {
      ArrivalsKeepContiguity(stream, Arrivals(rounds), first, r);
    } else {
      var stream' := stream + rounds[0].arrivals;
      ArrivalsKeepContiguity(stream, rounds[0].arrivals, first, r);
      RoundKeepsContiguity(stream', first, r, rounds[0]);
      assert stream' + Arrivals(rounds[1..]) == stream + Arrivals(rounds);
      HandledIsContiguous(stream', first, AfterRound(stream', r, rounds[0]), rounds[1..]);
    }
  }

  /** Nothing is left out: one ample answer at the end, and all that arrived has been handled. */
  lemma EverythingIsHandled(stream: seq<Update>, first: nat, r: Reader, rounds: seq<Round>,
                            last: Round)
    requires Contiguous(stream, first, r)
    requires last.stop == Never && last.answer.Answered? && last.answer.limit >= |stream + Arrivals(rounds + [last])|
    requires !AfterRounds(stream, r, rounds).stopped
    ensures AfterRounds(stream, r, rounds + [last]).handled == (stream + Arrivals(rounds + [last]))[first..]
    decreases |rounds|
  {
    HandledIsContiguous(stream, first, r, rounds + [last]);
    LastAnswerReachesTheEnd(stream, r, rounds, last);
  }

  lemma {:induction false} LastAnswerReachesTheEnd(stream: seq<Update>, r: Reader, rounds: seq<Round>, last: Round)
    requires r.position <= |stream|
    requires last.stop == Never && last.answer.Answered? && last.answer.limit >= |stream + Arrivals(rounds + [last])|
    requires !AfterRounds(stream, r, rounds).stopped
    ensures var r' := AfterRounds(stream, r, rounds + [last]);
            !r'.stopped && r'.position == |stream + Arrivals(rounds + [last])|
    decreases |rounds|
  {
    if rounds == [] {
      assert (rounds + [last])[1..] == [];
      assert AfterRounds(stream, r, [last]) == AfterRound(stream + last.arrivals, r, last);
    } else {
      var stream' := stream + rounds[0].arrivals;
      assert (rounds + [last])[1..] == rounds[1..] + [last];
      assert stream' + Arrivals(rounds[1..] + [last]) == stream + Arrivals(rounds + [last]);
      LastAnswerReachesTheEnd(stream', AfterRound(stream', r, rounds[0]), rounds[1..], last);
    }
  }

  /** The same surroundings, but shutdown is never requested; a poll it cut off may end in any way. */
  predicate Uncut(rounds: seq<Round>, full: seq<Round>) {
    && |rounds| == |full|
    && forall i :: 0 <= i < |rounds| ==>
         && full[i].stop == Never && full[i].arrivals == rounds[i].arrivals
         && (rounds[i].stop != WhilePolling ==> full[i].answer == rounds[i].answer)
  }

  lemma {:induction false} HandledOnlyGrows(stream: seq<Update>, r: Reader, rounds: seq<Round>)
    requires r.position <= |stream|
    ensures r.handled <= AfterRounds(stream, r, rounds).handled
    decreases |rounds|
  {
    if rounds == [] || r.stopped {
    } else {
      var stream' := stream + rounds[0].arrivals;
      HandledOnlyGrows(stream', AfterRound(stream', r, rounds[0]), rounds[1..]);
    }
  }

  /** A stop only cuts what is handled to a prefix. */
  lemma {:induction false} StopCutsToPrefix(stream: seq<Update>, r: Reader, rounds: seq<Round>, full: seq<Round>)
    requires r.position <= |stream| && !r.stopped && Uncut(rounds, full)
    ensures AfterRounds(stream, r, rounds).handled <= AfterRounds(stream, r, full).handled
    decreases |rounds|
  {
    if rounds == [] {
    } else {
      var stream' := stream + rounds[0].arrivals;
      var cut, uncut := AfterRound(stream', r, rounds[0]), AfterRound(stream', r, full[0]);
      if rounds[0].stop == Never {
        assert cut == uncut;
        StopCutsToPrefix(stream', cut, rounds[1..], full[1..]);
      } else {
        assert cut.handled <= uncut.handled;
        HandledOnlyGrows(stream', uncut, full[1..]);
      }
    }
  }

  // --- stopping and pausing ------------------------------------------------------------------

  /** How many updates may still be handled once shutdown has been requested. */
  function Allowance(stop: Stop): nat {
    if stop.After? then stop.handled else 0
  }

  /** Nothing is handled beyond what the stop allows, and no later round is begun. */
  lemma StopIsObeyed(stream: seq<Update>, r: Reader, round: Round, rest: seq<Round>)
    requires r.position <= |stream| && !r.stopped && round.stop != Never
    ensures var q := AfterRounds(stream, r, [round] + rest);
            q.stopped && |q.handled| <= |r.handled| + Allowance(round.stop)
    ensures AfterRounds(stream, r, [round] + rest) == AfterRounds(stream, r, [round])
  {
    assert ([round] + rest)[1..] == rest && [round][1..] == [];
  }

  predicate NeverStops(rounds: seq<Round>) {
    forall i :: 0 <= i < |rounds| ==> rounds[i].stop == Never
  }

  /** How many rounds at the end got no answer. */
  function FailuresAtEnd(rounds: seq<Round>): nat {
    if rounds == [] || rounds[|rounds|-1].answer.Answered? then 0 else 1 + FailuresAtEnd(rounds[..|rounds|-1])
  }

  /** After each round without an answer: 1, 2, 4, 8, 16, 32 seconds, and then a minute, for each such row of rounds. */
  function Pauses(rounds: seq<Round>): seq<nat> {
    if rounds == [] then []
    else if rounds[|rounds|-1].answer.Answered? then Pauses(rounds[..|rounds|-1])
    else Pauses(rounds[..|rounds|-1]) + [Backoff(FailuresAtEnd(rounds) - 1)]
  }

  function Backoff(n: nat): nat {
    if n < 6 then [1, 2, 4, 8, 16, 32][n] else 60
  }

  lemma {:induction false} Pow2IsLarge(n: nat)
    requires n >= 6
    ensures Pow2(n) >= 64
  {
    if n == 6 {
      assert Pow2(6) == 8 * Pow2(3) && Pow2(3) == 8 * Pow2(0);
    } else {
      Pow2IsLarge(n - 1);
    }
  }

  lemma PauseIsBackoff(n: nat)
    ensures Pause(n) == Backoff(n)
  {
    assert Pow2(1) == 2 * Pow2(0) && Pow2(2) == 2 * Pow2(1) && Pow2(3) == 2 * Pow2(2);
    assert Pow2(4) == 2 * Pow2(3) && Pow2(5) == 2 * Pow2(4);
    assert n < 6 ==> n in [0, 1, 2, 3, 4, 5];
    if n >= 6 {
      Pow2IsLarge(n);
    }
  }

  lemma {:induction false} LastRound(stream: seq<Update>, r: Reader, rounds: seq<Round>, last: Round)
    requires r.position <= |stream| && !r.stopped && NeverStops(rounds)
    ensures !AfterRounds(stream, r, rounds).stopped
    ensures AfterRounds(stream, r, rounds).position <= |stream + Arrivals(rounds)|
    ensures AfterRounds(stream, r, rounds + [last]) ==
            AfterRound(stream + Arrivals(rounds) + last.arrivals, AfterRounds(stream, r, rounds), last)
    decreases |rounds|
  {
    if rounds == [] {
      assert [] + [last] == [last] && [last][1..] == [];
      assert stream + Arrivals([]) == stream;
    } else {
      var stream' := stream + rounds[0].arrivals;
      LastRound(stream', AfterRound(stream', r, rounds[0]), rounds[1..], last);
      assert (rounds + [last])[1..] == rounds[1..] + [last];
      assert stream' + Arrivals(rounds[1..]) == stream + Arrivals(rounds);
    }
  }

  /** The pauses of a run are exactly those, starting over after every answer. */
  lemma {:induction false} PausesStartOver(stream: seq<Update>, r: Reader, rounds: seq<Round>)
    requires r.position <= |stream| && !r.stopped && r.failures == 0 && NeverStops(rounds)
    ensures var q := AfterRounds(stream, r, rounds);
            q.pauses == r.pauses + Pauses(rounds) && q.failures == FailuresAtEnd(rounds)
    decreases |rounds|
  {
    if rounds == [] {
    } else {
      var init, last := rounds[..|rounds|-1], rounds[|rounds|-1];
      PausesStartOver(stream, r, init);
      LastRound(stream, r, init, last);
      PauseIsBackoff(FailuresAtEnd(init));
      assert rounds == init + [last];
    }
  }

  // --- the bot -------------------------------------------------------------------------------

  class TelegramBot {
    const server: Server
    var offset: Option<int>
    var handled: seq<Update>
    var pauses: seq<nat>
    ghost var position: nat

    /** The offset stands for a position in the stream that the server has not forgotten. */
    ghost predicate Valid()
      reads this, server
    {
      && server.Valid() && server.forgotten <= position <= |server.stream|
      && StandsFor(server.stream, server.forgotten, offset, position)
    }

    constructor (server: Server)
      requires server.Valid()
      ensures Valid() && this.server == server && offset == None && handled == [] && pauses == []
    {
      this.server, offset, handled, pauses, position := server, None, [], [], server.forgotten;
    }

    /** What an answered skip finds pending is never handled; a failed one may cost all but the last update. */
    method SkipPendingUpdates(answer: Answer)
      requires Valid() && offset == None
      modifies this`offset, this`position, server`forgotten
      ensures Valid()
      ensures answer.Answered? ==> position == |server.stream|
      ensures answer == Unanswered(false) ==> position == old(position)
      ensures answer == Unanswered(true) ==> position == Max(old(position), |server.stream| - 1)
    {
      if answer == Unanswered(false) {
        return;
      }
      var updates := server.GetUpdates(Some(-1), 1);
      position := server.forgotten;
      if answer.Answered? && updates != [] {
        offset := Some(updates[|updates|-1].id + 1);
        position := position + 1;
      }
    }

    /** One request with the current offset; the answer may be lost on its way back. */
    method Poll(answer: Answer, heard: bool) returns (updates: Option<seq<Update>>)
      requires Valid()
      modifies this`offset, this`position, server`forgotten
      ensures Valid()
      ensures updates.Some? <==> answer.Answered? && heard
      ensures updates.None? ==> position == old(position)
      ensures updates.Some? ==>
                var n := Min(answer.limit, |server.stream| - old(position));
                position == old(position) + n && updates.value == server.stream[old(position)..old(position) + n]
    {
      if answer == Unanswered(false) {
        return None;
      }
      OffsetConfirmsPosition(server.stream, server.forgotten, offset, position);
      var batch := server.GetUpdates(offset, if answer.Answered? then answer.limit else 0);
      if answer.Unanswered? || !heard {
        return None;
      }
      Advance(batch);
      return Some(batch);
    }

    method Advance(batch: seq<Update>)
      requires Valid() && position == server.forgotten && position + |batch| <= |server.stream|
      requires batch == server.stream[position..position + |batch|]
      modifies this`offset, this`position
      ensures Valid() && position == old(position) + |batch|
    {
      position := position + |batch|;
      if batch != [] {
        offset := Some(batch[|batch|-1].id + 1);
      }
    }

    /** Updates are handled one by one; shutdown is looked for before each. */
    method Handle(updates: seq<Update>, stop: Stop) returns (stopped: bool)
      requires stop != WhilePolling
      modifies this`handled
      ensures stopped == (stop != Never)
      ensures handled == old(handled) + updates[..if stop.After? then Min(|updates|, stop.handled) else |updates|]
    {
      var i := 0;
      while i < |updates| && !(stop.After? && i >= stop.handled)
        invariant i <= |updates| && (stop.After? ==> i <= stop.handled)
        invariant handled == old(handled) + updates[..i]
      {
        handled := handled + [updates[i]];
        i := i + 1;
      }
      stopped := stop != Never;
    }

    ghost function AsReader(stopped: bool, failures: nat): Reader
      reads this
    {
      Reader(position, handled, stopped, pauses, failures)
    }

    method Attempt(round: Round, backoff: nat, ghost failures: nat)
      returns (stopped: bool, backoff': nat, ghost failures': nat)
      requires Valid() && backoff == Pause(failures)
      modifies this`offset, this`position, this`handled, this`pauses, server`forgotten
      ensures Valid()
      ensures AsReader(stopped, failures') == AfterRound(server.stream, old(AsReader(false, failures)), round)
      ensures backoff' == Pause(failures')
    {
      var updates := Poll(round.answer, round.stop != WhilePolling);
      if round.stop == WhilePolling {
        return true, backoff, failures;
      }
      if updates == None {
        pauses := pauses + [backoff];
        return round.stop != Never, Min(backoff * 2, MAX_BACKOFF), failures + 1;
      }
      stopped := Handle(updates.value, round.stop);
      backoff', failures' := MIN_BACKOFF, 0;
    }

    /** One turn of the loop is one step of the reader. */
    method Turn(round: Round, backoff: nat, ghost failures: nat)
      returns (stopped: bool, backoff': nat, ghost failures': nat)
      requires Valid() && Increasing(server.stream + round.arrivals) && backoff == Pause(failures)
      modifies this`offset, this`position, this`handled, this`pauses, server
      ensures Valid() && server.stream == old(server.stream) + round.arrivals
      ensures AsReader(stopped, failures') == AfterRound(server.stream, old(AsReader(false, failures)), round)
      ensures backoff' == Pause(failures')
    {
      server.Receive(round.arrivals);
      stopped, backoff', failures' := Attempt(round, backoff, failures);
    }

    /** Skip, then poll until stopped: the bot reads the stream from where the skip left it. */
    method Run(skip: Answer, rounds: seq<Round>) returns (stopped: bool, ghost failures: nat)
      requires Valid() && offset == None && Increasing(server.stream + Arrivals(rounds))
      modifies this`offset, this`position, this`handled, this`pauses, server
      ensures Valid()
      ensures var first := FirstToHandle(old(server.stream), old(server.forgotten), skip);
              AsReader(stopped, failures) ==
              AfterRounds(old(server.stream), Reader(first, old(handled), false, old(pauses), 0), rounds)
    {
      SkipPendingUpdates(skip);
      var backoff := MIN_BACKOFF;
      stopped, failures := false, 0;
      var i := 0;
      ghost var result := AfterRounds(server.stream, AsReader(false, 0), rounds);
      while i < |rounds| && !stopped
        invariant i <= |rounds| && Valid() && backoff == Pause(failures)
        invariant Increasing(server.stream + Arrivals(rounds[i..]))
        invariant AfterRounds(server.stream, AsReader(stopped, failures), rounds[i..]) == result
      {
        assert rounds[i..][1..] == rounds[i + 1..];
        assert server.stream + Arrivals(rounds[i..]) == server.stream + rounds[i].arrivals + Arrivals(rounds[i + 1..]);
        IncreasingPrefix(server.stream + rounds[i].arrivals, Arrivals(rounds[i + 1..]));
        stopped, backoff, failures := Turn(rounds[i], backoff, failures);
        i := i + 1;
      }
    }
  }

  lemma IncreasingPrefix(a: seq<Update>, b: seq<Update>)
    requires Increasing(a + b)
    ensures Increasing(a)
  {
    forall i, j | 0 <= i < j < |a| ensures a[i].id < a[j].id {
      assert (a + b)[i] == a[i] && (a + b)[j] == a[j];
    }
  }

  /** Where handling starts: past everything pending, unless the skip failed. */
  function FirstToHandle(stream: seq<Update>, forgotten: nat, skip: Answer): (k: nat)
    requires forgotten <= |stream|
    ensures forgotten <= k <= |stream|
  {
    match skip
    case Answered(_) => |stream|
    case Unanswered(reached) => if reached then Max(forgotten, |stream| - 1) else forgotten
  }
}
