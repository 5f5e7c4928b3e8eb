/** The time arithmetic shared by the pause and resume handlers
    (server/routes/timer.js) and by the client's reconciliation on load
    (client/src/contexts/TimerContext.js). All instants are integer
    milliseconds; durations are whole minutes; remaining time is whole seconds.
    For a positive divisor Dafny's `/` is floor division, which is what
    `Math.floor(x / 1000)` computes. */
module Reconcile {
  import opened Base

  /** `Math.floor((now - startTime) / 1000)`: whole seconds since `startTime`. */
  function ElapsedSeconds(startTime: int, now: int): (e: int)
    ensures e * 1000 <= now - startTime < e * 1000 + 1000
  {
    (now - startTime) / 1000
  }

  /** `duration * 60 - elapsed`, not clamped (what the client computes on load). */
  function RemainingSeconds(startTime: int, duration: int, now: int): int
  {
    duration * 60 - ElapsedSeconds(startTime, now)
  }

  /** The `timeLeft` the pause handler stores: the remaining seconds clamped at zero. */
  function PausedTimeLeft(startTime: int, duration: int, now: int): (r: int)
    ensures r >= 0
    ensures r == 0 <==> RemainingSeconds(startTime, duration, now) <= 0
    ensures r > 0 ==> r == RemainingSeconds(startTime, duration, now)
  {
    Max(0, RemainingSeconds(startTime, duration, now))
  }

  /** The synthetic `startTime` the resume handler stores: the instant from which
      `duration` minutes would leave exactly `timeLeft` seconds at `now`. */
  function ResumedStart(timeLeft: int, duration: int, now: int): (r: int)
    ensures ElapsedSeconds(r, now) == duration * 60 - timeLeft
    ensures RemainingSeconds(r, duration, now) == timeLeft
  {
    var elapsedBeforePause := duration * 60 - timeLeft;
    assert now - (now - elapsedBeforePause * 1000) == elapsedBeforePause * 1000;
    now - elapsedBeforePause * 1000
  }

  /** A session paused no earlier than it started keeps `timeLeft` within its nominal length. */
  lemma PausedTimeLeftBounds(startTime: int, duration: int, now: int)
    requires now >= startTime && duration >= 0
    ensures 0 <= PausedTimeLeft(startTime, duration, now) <= duration * 60
  {
    assert ElapsedSeconds(startTime, now) >= 0;
  }

  /** Pausing `e` whole seconds after the start leaves `duration * 60 - e`
      seconds, or zero once the nominal length has passed. */
  lemma PauseAfterWholeSeconds(startTime: int, duration: int, e: int)
    ensures PausedTimeLeft(startTime, duration, startTime + e * 1000) == Max(0, duration * 60 - e)
  {
    var k := ElapsedSeconds(startTime, startTime + e * 1000);
    assert (k - e) * 1000 <= 0 < (k - e) * 1000 + 1000;
  }

  /** Resuming with `timeLeft` and pausing again `delta` milliseconds later stores
      `timeLeft` less the whole seconds that ran; with `delta == 0` the pause
      gives back exactly the `timeLeft` the resume started from. */
  lemma PauseAfterResume(timeLeft: int, duration: int, resumedAt: int, delta: int)
    requires timeLeft >= 0 && delta >= 0
    ensures PausedTimeLeft(ResumedStart(timeLeft, duration, resumedAt), duration, resumedAt + delta)
         == Max(0, timeLeft - delta / 1000)
  {
    var s := ResumedStart(timeLeft, duration, resumedAt);
    var e := duration * 60 - timeLeft;
    assert resumedAt + delta - s == e * 1000 + delta;
    var k := ElapsedSeconds(s, resumedAt + delta);
    assert (k - e) * 1000 <= delta < (k - e) * 1000 + 1000;
    assert k - e == delta / 1000;
  }

  /** Resuming at any later instant restores the remaining time the pause saw,
      however long the pause lasted. */
  lemma ResumeRestoresRemaining(startTime: int, duration: int, pausedAt: int, resumedAt: int)
    ensures RemainingSeconds(ResumedStart(PausedTimeLeft(startTime, duration, pausedAt), duration, resumedAt),
                             duration, resumedAt)
         == Max(0, RemainingSeconds(startTime, duration, pausedAt))
  {
  }

  /** One running stretch: resumed at `resumedAt`, paused again at `pausedAt`. */
  datatype Run = Run(resumedAt: int, pausedAt: int)

  /** The stored `timeLeft` after a series of resume/pause pairs, starting from a paused `timeLeft`. */
  function AfterRuns(timeLeft: int, duration: int, runs: seq<Run>): int
    decreases runs
  {
    if runs == [] then timeLeft
    else
      var r := runs[0];
      AfterRuns(PausedTimeLeft(ResumedStart(timeLeft, duration, r.resumedAt), duration, r.pausedAt),
                duration, runs[1..])
  }

  /** Whole seconds counted over all runs (each run is floored on its own). */
  function CountedSeconds(runs: seq<Run>): int
  {
    if runs == [] then 0 else (runs[0].pausedAt - runs[0].resumedAt) / 1000 + CountedSeconds(runs[1..])
  }

  /** Repeated pause/resume cycles do not drift: the final `timeLeft` depends only on
      the whole seconds each run lasted, never on how long the pauses were. */
  lemma {:induction false} CyclesDoNotDrift(timeLeft: int, duration: int, runs: seq<Run>)
    requires timeLeft >= 0
    requires forall i :: 0 <= i < |runs| ==> runs[i].resumedAt <= runs[i].pausedAt
    ensures AfterRuns(timeLeft, duration, runs) == Max(0, timeLeft - CountedSeconds(runs))
  {
    if runs != [] {
      var r := runs[0];
      var delta := r.pausedAt - r.resumedAt;
      PauseAfterResume(timeLeft, duration, r.resumedAt, delta);
      var next := PausedTimeLeft(ResumedStart(timeLeft, duration, r.resumedAt), duration, r.pausedAt);
      assert r.resumedAt + delta == r.pausedAt;
      CyclesDoNotDrift(next, duration, runs[1..]);
      assert delta / 1000 >= 0;
      assert CountedSeconds(runs[1..]) >= 0 by { CountedSecondsNonNegative(runs[1..]); }
    }
  }

  lemma {:induction false} CountedSecondsNonNegative(runs: seq<Run>)
    requires forall i :: 0 <= i < |runs| ==> runs[i].resumedAt <= runs[i].pausedAt
    ensures CountedSeconds(runs) >= 0
  {
    if runs != [] {
      CountedSecondsNonNegative(runs[1..]);
    }
  }

  /** A 25-minute focus session paused after 600 s holds 900 s; resumed at any
      later instant and paused 100 s after that, it holds 800 s. */
  lemma FocusScenario(start: int, resumedAt: int)
    ensures PausedTimeLeft(start, 25, start + 600000) == 900
    ensures PausedTimeLeft(ResumedStart(900, 25, resumedAt), 25, resumedAt + 100000) == 800
  {
    PauseAfterWholeSeconds(start, 25, 600);
    PauseAfterResume(900, 25, resumedAt, 100000);
  }
}
