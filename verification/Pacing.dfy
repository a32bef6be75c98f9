/** The pace of the check cycles, the heartbeat they leave, and the probe that judges it. */
module Pacing {
  import opened Models

  const GRACE_SECONDS := 120.0

  function Max(a: real, b: real): real { if a < b then b else a }

  // --- the heartbeat -------------------------------------------------------------------------

  datatype Beat = Beat(ts: real, interval: real)

  function MaxAge(interval: real): real {
    2.0 * interval + GRACE_SECONDS
  }

  /** The file of the heartbeat; `None` if it is missing or unreadable. */
  class HeartbeatFile {
    var content: Option<Beat>

    constructor ()
      ensures content == None
    {
      content := None;
    }

    method Write(now: real, interval: real)
      modifies this
      ensures content == Some(Beat(now, interval))
    {
      content := Some(Beat(now, interval));
    }

    method Check(now: real) returns (healthy: bool)
      ensures healthy == Healthy(content, now)
      ensures healthy <==> content.Some? && now - content.value.ts <= 2.0 * content.value.interval + 120.0
    {
      if content == None {
        return false;
      }
      var age := now - content.value.ts;
      if age > MaxAge(content.value.interval) {
        return false;
      }
      return true;
    }
  }

  predicate Healthy(content: Option<Beat>, now: real) {
    content.Some? && now <= content.value.ts + MaxAge(content.value.interval)
  }

  // --- the loop ------------------------------------------------------------------------------

  /** How long a cycle takes, how late the timer fires after it, and when shutdown is requested. */
  datatype Turn = Turn(duration: real, late: real, stop: Stop)

  datatype Stop = Never | InCycle | WhileWaiting

  predicate Possible(turns: seq<Turn>) {
    forall i :: 0 <= i < |turns| ==> turns[i].duration >= 0.0 && turns[i].late >= 0.0
  }

  /** Cycles start one interval apart, or as soon as a longer cycle ends; a beat follows each cycle. */
  predicate Paced(interval: real, first: real, turns: seq<Turn>, starts: seq<real>, beats: seq<real>)
    requires |starts| <= |turns|
  {
    && |beats| == |starts|
    && (|starts| > 0 ==> starts[0] == first)
    && (forall i :: 0 <= i < |starts| - 1 ==>
          starts[i + 1] == starts[i] + Max(interval, turns[i].duration) + turns[i].late)
    && (forall i :: 0 <= i < |starts| ==> beats[i] == starts[i] + turns[i].duration)
  }

  /** When the next cycle starts. */
  function NextStart(interval: real, first: real, turns: seq<Turn>, starts: seq<real>): real
    requires |starts| <= |turns|
  {
    var n := |starts|;
    if n == 0 then first else starts[n - 1] + Max(interval, turns[n - 1].duration) + turns[n - 1].late
  }

  lemma PacedGrows(interval: real, first: real, turns: seq<Turn>, starts: seq<real>, beats: seq<real>)
    requires |starts| < |turns| && Paced(interval, first, turns, starts, beats)
    ensures var start := NextStart(interval, first, turns, starts);
            Paced(interval, first, turns, starts + [start], beats + [start + turns[|starts|].duration])
  {
  }

  /** One cycle and the wait after it, if nothing stops it: when it beats, and when the next cycle starts. */
  method Pass(file: HeartbeatFile, interval: real, turn: Turn, started: real) returns (beat: real, next: real)
    modifies file
    ensures beat == started + turn.duration && file.content == Some(Beat(beat, interval))
    ensures next == started + Max(interval, turn.duration) + turn.late
  {
    beat := started + turn.duration;
    file.Write(beat, interval);
    var delay := Max(0.0, interval - (beat - started));
    next := beat + delay + turn.late;
  }

  predicate RanOn(turns: seq<Turn>, n: nat) {
    n <= |turns| && forall i :: 0 <= i < n ==> turns[i].stop == Never
  }

  /** The file always holds the last beat; the loop ends with the turn in which it is stopped. */
  method RunForever(file: HeartbeatFile, interval: real, first: real, turns: seq<Turn>)
    returns (starts: seq<real>, beats: seq<real>)
    requires interval > 0.0 && Possible(turns)
    modifies file
    ensures |starts| <= |turns| && Paced(interval, first, turns, starts, beats)
    ensures |starts| > 0 ==> RanOn(turns, |starts| - 1)
    ensures |starts| < |turns| ==> |starts| > 0 && turns[|starts| - 1].stop != Never
    ensures file.content == if beats == [] then old(file.content) else Some(Beat(beats[|beats|-1], interval))
  {
    starts, beats := [], [];
    var now, stopped := first, false;
    while |starts| < |turns| && !stopped
      invariant |starts| <= |turns| && Paced(interval, first, turns, starts, beats)
      invariant if stopped then |starts| > 0 && RanOn(turns, |starts| - 1) && turns[|starts| - 1].stop != Never
                else RanOn(turns, |starts|) && now == NextStart(interval, first, turns, starts)
      invariant file.content == if beats == [] then old(file.content) else Some(Beat(beats[|beats|-1], interval))
      decreases |turns| - |starts|
    {
      PacedGrows(interval, first, turns, starts, beats);
      var turn := turns[|starts|];
      var beat, next := Pass(file, interval, turn, now);
      starts, beats := starts + [now], beats + [beat];
      stopped := turn.stop != Never;
      now := next;
    }
  }

  /** Successive cycles start at least an interval apart. */
  lemma {:induction false} StartsAreApart(interval: real, first: real, turns: seq<Turn>, starts: seq<real>,
                                          beats: seq<real>, i: nat, j: nat)
    requires |starts| <= |turns| && Paced(interval, first, turns, starts, beats) && Possible(turns)
    requires i <= j < |starts|
    ensures starts[j] - starts[i] >= (j - i) as real * interval
    decreases j
  {
    if i == j {
    } else {
      StartsAreApart(interval, first, turns, starts, beats, i, j - 1);
      assert starts[j] >= starts[j - 1] + interval;
      assert (j - i) as real * interval == (j - 1 - i) as real * interval + interval;
    }
  }

  // --- heartbeat soundness -------------------------------------------------------------------

  /** A probe between two beats sees the earlier one. */
  ghost predicate NeverStale(beats: seq<real>, interval: real) {
    forall i, p: real :: 0 <= i < |beats| - 1 && beats[i] <= p < beats[i + 1] ==>
      Healthy(Some(Beat(beats[i], interval)), p)
  }

  predicate Timely(beats: seq<real>, interval: real) {
    forall i :: 0 <= i < |beats| - 1 ==> beats[i + 1] - beats[i] <= MaxAge(interval)
  }

  /** No probe fails exactly if no two beats are further apart than the accepted age. */
  lemma NeverStaleMeansTimely(beats: seq<real>, interval: real)
    requires interval > 0.0
    ensures NeverStale(beats, interval) <==> Timely(beats, interval)
  {
    if NeverStale(beats, interval) {
      forall i | 0 <= i < |beats| - 1 ensures beats[i + 1] - beats[i] <= MaxAge(interval) {
        if beats[i + 1] - beats[i] > MaxAge(interval) {
          var p := (beats[i] + MaxAge(interval) + beats[i + 1]) / 2.0;
          assert Healthy(Some(Beat(beats[i], interval)), p);
        }
      }
    }
  }

  /** The time from the end of cycle `i` to the end of the next. */
  function Gap(interval: real, turns: seq<Turn>, i: nat): real
    requires i + 1 < |turns|
  {
    Max(interval - turns[i].duration, 0.0) + turns[i].late + turns[i + 1].duration
  }

  /** The beat before the loop at `begin`, then one per cycle. */
  lemma HealthyExactlyIfCyclesAreShort(interval: real, begin: real, first: real, turns: seq<Turn>,
                                       starts: seq<real>, beats: seq<real>)
    requires interval > 0.0 && |starts| <= |turns| && Paced(interval, first, turns, starts, beats)
    ensures NeverStale([begin] + beats, interval) <==>
              && (|starts| > 0 ==> first - begin + turns[0].duration <= MaxAge(interval))
              && forall i: nat :: i + 1 < |starts| ==> Gap(interval, turns, i) <= MaxAge(interval)
  {
    var all := [begin] + beats;
    NeverStaleMeansTimely(all, interval);
    assert |starts| > 0 ==> all[1] - all[0] == first - begin + turns[0].duration;
    forall i: nat | i + 1 < |starts| ensures all[i + 2] - all[i + 1] == Gap(interval, turns, i) {
    }
    if Timely(all, interval) {
      forall i: nat | i + 1 < |starts| ensures Gap(interval, turns, i) <= MaxAge(interval) {
        assert all[i + 2] - all[i + 1] <= MaxAge(interval);
      }
    }
    if (|starts| > 0 ==> first - begin + turns[0].duration <= MaxAge(interval)) &&
       (forall i: nat :: i + 1 < |starts| ==> Gap(interval, turns, i) <= MaxAge(interval)) {
      forall k | 0 <= k < |all| - 1 ensures all[k + 1] - all[k] <= MaxAge(interval) {
        if k > 0 {
          assert Gap(interval, turns, k - 1) <= MaxAge(interval);
        }
      }
    }
  }

  /** Cycles of at most an interval and the grace, timers included, keep the heartbeat fresh throughout. */
  lemma ShortCyclesAreHealthy(interval: real, begin: real, first: real, turns: seq<Turn>,
                              starts: seq<real>, beats: seq<real>)
    requires interval > 0.0 && |starts| <= |turns| && Paced(interval, first, turns, starts, beats) && Possible(turns)
    requires |turns| > 0 ==> first - begin + turns[0].duration <= interval + GRACE_SECONDS
    requires forall i: nat :: i + 1 < |turns| ==> turns[i].late + turns[i + 1].duration <= interval + GRACE_SECONDS
    ensures NeverStale([begin] + beats, interval)
  {
    HealthyExactlyIfCyclesAreShort(interval, begin, first, turns, starts, beats);
    forall i: nat | i + 1 < |starts| ensures Gap(interval, turns, i) <= MaxAge(interval) {
      assert turns[i].late + turns[i + 1].duration <= interval + GRACE_SECONDS;
    }
  }

  /** The bound is tight: after an instant cycle, a longer one is noticed by some probe. */
  lemma LongerCyclesAreNoticed(interval: real, begin: real, first: real, turns: seq<Turn>,
                               starts: seq<real>, beats: seq<real>, i: nat)
    requires interval > 0.0 && |starts| <= |turns| && Paced(interval, first, turns, starts, beats)
    requires i + 1 < |starts| && turns[i].duration == 0.0
    requires turns[i].late + turns[i + 1].duration > interval + GRACE_SECONDS
    ensures !NeverStale([begin] + beats, interval)
  {
    HealthyExactlyIfCyclesAreShort(interval, begin, first, turns, starts, beats);
    assert Gap(interval, turns, i) > MaxAge(interval);
  }
}
