/** The timer state held by client/src/contexts/TimerContext.js: the countdown,
    the running flag, the selected timer type, the server session the client
    tracks, and the handlers that change them. The server's replies are
    parameters of the handlers (a missing reply is a failed request); the
    clock is a parameter of the reconciliation on load. */
module TimerContext {
  import opened Base
  import opened TimerSession
  import opened Reconcile
  import opened TimerRoutes

  // ---------------------------------------------------------------------------
  // The `timerTypes` table and the display helpers
  // ---------------------------------------------------------------------------

  /** Default countdown of each timer type, in seconds. */
  function DefaultSeconds(t: TimerType): (r: nat)
    ensures r >= 300 && r % 60 == 0
    ensures t == Pomodoro ==> r == 1500
    ensures t == ShortBreak ==> r == 300
    ensures t == LongBreak ==> r == 900
    ensures r <= 1500
  {
    match t
    case Pomodoro => 25 * 60
    case ShortBreak => 5 * 60
    case LongBreak => 15 * 60
  }

  /** JavaScript's `a % b` for a positive `b`: the remainder takes the sign of `a`. */
  function JsRem(a: int, b: int): (r: int)
    requires b > 0
    ensures -b < r < b
    ensures Abs(r) == Abs(a) % b
    ensures a >= 0 ==> 0 <= r
    ensures a <= 0 ==> r <= 0
  {
    if a >= 0 then a % b else -((-a) % b)
  }

  /** `formatTime`: whole minutes (floored), a colon, and the seconds, each padded to two digits. */
  function FormatTime(seconds: int): (r: string)
    ensures seconds >= 0 ==> |r| >= 5 && r[|r| - 3] == ':'
    ensures 0 <= seconds < 6000 ==> |r| == 5
  {
    PadStart2(IntToString(seconds / 60)) + ":" + PadStart2(IntToString(JsRem(seconds, 60)))
  }

  /** Reads a "MM:SS" text back as a number of seconds. */
  function ParseClock(text: string): Option<int>
  {
    if |text| >= 3 && text[|text| - 3] == ':'
       && AllDigits(text[..|text| - 3]) && AllDigits(text[|text| - 2..])
    then Some(ParseDigits(text[..|text| - 3]) * 60 + ParseDigits(text[|text| - 2..]))
    else None
  }

  lemma PaddedDigits(n: nat)
    ensures AllDigits(PadStart2(Digits(n)))
    ensures ParseDigits(PadStart2(Digits(n))) == n
  {
    ParseDigitsOfDigits(n);
    if |Digits(n)| < 2 {
      ParseDigitsLeadingZero(Digits(n));
    }
  }

  /** The countdown text names the time it was made from: reading it back
      gives the same number of seconds, so distinct times display differently. */
  lemma FormatTimeRoundTrip(seconds: nat)
    ensures ParseClock(FormatTime(seconds)) == Some(seconds)
  {
    var q, r := seconds / 60, seconds % 60;
    assert q * 60 + r == seconds;
    FormatTimeParts(seconds);
    PartsRoundTrip(q, r, seconds);
  }

  lemma PartsRoundTrip(q: nat, r: nat, seconds: int)
    requires r < 60 && seconds == q * 60 + r
    ensures ParseClock(PadStart2(Digits(q)) + ":" + PadStart2(Digits(r))) == Some(seconds)
  {
    var m, s := PadStart2(Digits(q)), PadStart2(Digits(r));
    assert AllDigits(m) && ParseDigits(m) == q by { PaddedDigits(q); }
    assert AllDigits(s) && ParseDigits(s) == r && |s| == 2 by { PaddedDigits(r); }
    ClockRoundTrip(m, s, q, r, seconds);
  }

  lemma FormatTimeParts(seconds: nat)
    ensures FormatTime(seconds) == PadStart2(Digits(seconds / 60)) + ":" + PadStart2(Digits(seconds % 60))
    ensures |PadStart2(Digits(seconds % 60))| == 2
  {
  }

  lemma ClockRoundTrip(m: string, s: string, q: nat, r: nat, seconds: int)
    requires AllDigits(m) && AllDigits(s) && |s| == 2
    requires ParseDigits(m) == q && ParseDigits(s) == r && seconds == q * 60 + r
    ensures ParseClock(m + ":" + s) == Some(seconds)
  {
    var text := m + ":" + s;
    assert text[..|text| - 3] == m;
    assert text[|text| - 2..] == s;
  }

  lemma FormatTimeInjective(a: nat, b: nat)
    requires FormatTime(a) == FormatTime(b)
    ensures a == b
  {
    FormatTimeRoundTrip(a);
    FormatTimeRoundTrip(b);
  }

  /** The phrase after the counter in the timer message. */
  function MessagePhrase(t: TimerType): string
  {
    match t
    case Pomodoro => " Time to focus!"
    case ShortBreak => " Time for a break!"
    case LongBreak => " Time for a long break!"
  }

  /** `getTimerMessage`: "#", the session counter, then the phrase of the type. */
  function TimerMessage(t: TimerType, count: int): (r: string)
    ensures |r| > |IntToString(count)| + 1
    ensures r[..|IntToString(count)| + 1] == "#" + IntToString(count)
    ensures r[|IntToString(count)| + 1..] == MessagePhrase(t)
  {
    "#" + IntToString(count) + MessagePhrase(t)
  }

  /** For a given counter the three timer types give three different messages. */
  lemma MessagesDistinguishTypes(t1: TimerType, t2: TimerType, count: int)
    requires t1 != t2
    ensures TimerMessage(t1, count) != TimerMessage(t2, count)
  {
    assert |MessagePhrase(t1)| != |MessagePhrase(t2)|;
  }

  // ---------------------------------------------------------------------------
  // The client state and its transitions
  // ---------------------------------------------------------------------------

  datatype ClientState = ClientState(
    isRunning: bool,
    timeLeft: int,            // seconds on the countdown
    timerType: TimerType,
    currentSession: Option<Session>,
    sessionCount: int)

  /** The provider's initial state: a stopped 25-minute focus countdown, session #1. */
  function Initial(): ClientState
  {
    ClientState(false, 25 * 60, Pomodoro, None, 1)
  }

  /** What `startTimer` sends when it sends anything: a resume when a session is
      tracked, otherwise a start of the selected type for the whole minutes left. */
  datatype StartCall = ResumeCall | NewStart(input: StartInput)

  function StartRequest(st: ClientState): (r: StartCall)
    ensures r.ResumeCall? <==> st.currentSession.Some?
    ensures r.NewStart? ==> r.input.typeName == TypeName(st.timerType)
    ensures r.NewStart? && st.timeLeft >= 0 ==>
              r.input.duration * 60 <= st.timeLeft < r.input.duration * 60 + 60
  {
    if st.currentSession.Some? then ResumeCall
    else NewStart(StartInput(TypeName(st.timerType), st.timeLeft / 60, None, Some(DefaultProject), None))
  }

  /** `startTimer`: nothing while running; otherwise, when the server answers,
      the answer becomes the tracked session and the countdown runs. */
  function AfterStart(st: ClientState, reply: Option<Session>): ClientState
  {
    if st.isRunning || reply.None? then st
    else st.(currentSession := reply, isRunning := true)
  }

  /** `pauseTimer`: stops the countdown whatever the server answers. */
  function AfterPause(st: ClientState): ClientState
  {
    st.(isRunning := false)
  }

  /** `stopTimer`: stops and refills the countdown; the tracked session is dropped
      once the server has completed it. */
  function AfterStop(st: ClientState, completeOk: bool): ClientState
  {
    var stopped := st.(isRunning := false, timeLeft := DefaultSeconds(st.timerType));
    if st.currentSession.Some? && completeOk then stopped.(currentSession := None) else stopped
  }

  /** `resetTimer`: stops and refills the countdown, keeping the tracked session. */
  function AfterReset(st: ClientState): ClientState
  {
    st.(isRunning := false, timeLeft := DefaultSeconds(st.timerType))
  }

  /** `switchTimerType`: refused while running; otherwise selects the type and
      loads its default countdown. */
  function AfterSwitch(st: ClientState, t: TimerType): ClientState
  {
    if st.isRunning then st else st.(timerType := t, timeLeft := DefaultSeconds(t))
  }

  /** The countdown effect has an interval only while running with time left. */
  predicate Ticking(st: ClientState)
  {
    st.isRunning && st.timeLeft > 0
  }

  /** The updater handed to `setTimeLeft` by the interval: one second less, and
      zero instead of anything below one. */
  function TickValue(prev: int): (r: int)
    ensures r >= 0
    ensures r == Max(0, prev - 1)
    ensures r == 0 <==> prev <= 1
  {
    if prev <= 1 then 0 else prev - 1
  }

  /** One interval callback: the updated countdown; when it reaches zero the
      timer stops and the tracked session is dropped once the server has completed it. */
  function AfterTick(st: ClientState, completeOk: bool): ClientState
  {
    if !Ticking(st) then st
    else if st.timeLeft <= 1 then
      st.(isRunning := false, timeLeft := TickValue(st.timeLeft),
          currentSession := if st.currentSession.Some? && completeOk then None else st.currentSession)
    else st.(timeLeft := TickValue(st.timeLeft))
  }

  /** The countdown `checkActiveSession` shows for a session the server reports. */
  function LoadedTimeLeft(s: Session, now: int): int
  {
    if s.isRunning then
      var remaining := s.duration * 60 - (now - s.startTime) / 1000;
      if remaining > 0 then remaining else 0
    else match s.timeLeft
      case Some(t) => t
      case None => s.duration * 60
  }

  /** Whether the countdown runs after `checkActiveSession`. */
  predicate LoadedRunning(s: Session, now: int)
  {
    s.isRunning && s.duration * 60 - (now - s.startTime) / 1000 > 0
  }

  /** `checkActiveSession`: adopts the reported session, its type and its countdown. */
  function AfterLoad(st: ClientState, snapshot: Option<Session>, now: int): ClientState
  {
    match snapshot
    case None => st
    case Some(s) =>
      st.(currentSession := Some(s), timerType := s.kind,
          timeLeft := LoadedTimeLeft(s, now), isRunning := LoadedRunning(s, now))
  }

  // ---------------------------------------------------------------------------
  // Properties of the client state
  // ---------------------------------------------------------------------------

  /** The countdown is never negative, and it only runs for a tracked session. */
  predicate ClientInvariant(st: ClientState)
  {
    st.timeLeft >= 0 && (st.isRunning ==> st.currentSession.Some?)
  }

  /** Every handler keeps the invariant, given a well-formed session from the server. */
  lemma TransitionsKeepInvariant(st: ClientState, reply: Option<Session>, ok: bool, t: TimerType,
                                 snapshot: Option<Session>, now: int)
    requires ClientInvariant(st)
    requires snapshot.Some? ==> WellFormed(snapshot.value) && IsActive(snapshot.value)
    ensures ClientInvariant(Initial())
    ensures ClientInvariant(AfterStart(st, reply))
    ensures ClientInvariant(AfterPause(st))
    ensures ClientInvariant(AfterStop(st, ok))
    ensures ClientInvariant(AfterReset(st))
    ensures ClientInvariant(AfterSwitch(st, t))
    ensures ClientInvariant(AfterTick(st, ok))
    ensures ClientInvariant(AfterLoad(st, snapshot, now))
  {
  }

  /** The client's countdown on load is what the server would store if the
      session were paused at that instant, and a paused session shows the
      seconds the server stored. */
  lemma LoadAgreesWithServer(s: Session, now: int)
    ensures LoadedTimeLeft(s, now) ==
              if s.isRunning then PausedTimeLeft(s.startTime, s.duration, now) else StoredTimeLeft(s)
    ensures LoadedRunning(s, now) <==> s.isRunning && LoadedTimeLeft(s, now) > 0
  {
  }

  /** A session paused on the server shows the paused countdown on any later
      load; resumed at some instant, it shows the same countdown at that
      instant, running when there is time left. */
  lemma LoadAfterPauseAndResume(st: ClientState, s: Session, pausedAt: int, loadedAt: int, resumedAt: int)
    ensures var paused := AfterLoad(st, Some(Paused(s, pausedAt)), loadedAt);
            paused.timeLeft == PausedTimeLeft(s.startTime, s.duration, pausedAt) && !paused.isRunning
    ensures var resumed := AfterLoad(st, Some(Resumed(Paused(s, pausedAt), resumedAt)), resumedAt);
            resumed.timeLeft == PausedTimeLeft(s.startTime, s.duration, pausedAt)
            && (resumed.isRunning <==> resumed.timeLeft > 0)
  {
    var p := Paused(s, pausedAt);
    LoadAgreesWithServer(p, loadedAt);
    var r := Resumed(p, resumedAt);
    LoadAgreesWithServer(r, resumedAt);
    assert RemainingSeconds(r.startTime, r.duration, resumedAt) == StoredTimeLeft(p);
  }

  /** `n` interval callbacks in a row. */
  function Ticks(st: ClientState, n: nat, completeOk: bool): ClientState
    decreases n
  {
    if n == 0 then st else Ticks(AfterTick(st, completeOk), n - 1, completeOk)
  }

  /** A running countdown of `T` seconds counts down one second per callback,
      stops exactly at zero after `T` callbacks, and stays there. */
  lemma {:induction false} CountdownReachesZero(st: ClientState, k: nat, completeOk: bool)
    requires st.isRunning && st.timeLeft >= 1
    decreases k
    ensures k < st.timeLeft ==> Ticks(st, k, completeOk) == st.(timeLeft := st.timeLeft - k)
    ensures k >= st.timeLeft ==>
              var done := Ticks(st, k, completeOk);
              done.timeLeft == 0 && !done.isRunning && done.timerType == st.timerType
              && done.currentSession == (if st.currentSession.Some? && completeOk then None else st.currentSession)
  {
    if k > 0 {
      var next := AfterTick(st, completeOk);
      if st.timeLeft == 1 {
        StoppedStaysStopped(next, k - 1, completeOk);
      } else {
        CountdownReachesZero(next, k - 1, completeOk);
      }
    }
  }

  lemma {:induction false} StoppedStaysStopped(st: ClientState, n: nat, completeOk: bool)
    requires !Ticking(st)
    ensures Ticks(st, n, completeOk) == st
  {
    if n > 0 {
      StoppedStaysStopped(st, n - 1, completeOk);
    }
  }

  /** A start from a stopped client with no tracked session asks for the whole
      minutes left: accepted with at least one minute, refused by the start
      validators with less, as after a countdown ran out and was completed. */
  lemma StartRequestValidity(st: ClientState)
    requires st.currentSession.None? && st.timeLeft >= 0
    ensures StartRequest(st).NewStart?
    ensures st.timeLeft >= 60 ==> ValidateStart(StartRequest(st).input) == Some(st.timerType)
    ensures st.timeLeft < 60 ==> ValidateStart(StartRequest(st).input).None?
  {
    var input := StartRequest(st).input;
    if st.timeLeft >= 60 {
      assert input.duration >= 1;
      assert ParseTimerType(TypeName(st.timerType)) == Some(st.timerType);
    }
  }

  /** After a countdown of a fresh start runs out and the session is completed,
      pressing start again sends a zero-minute start that the server refuses. */
  lemma RestartAfterCountdownRefused(st: ClientState, completeOk: bool)
    requires st.isRunning && st.timeLeft >= 1 && st.currentSession.Some? && completeOk
    ensures var done := Ticks(st, st.timeLeft, completeOk);
            StartRequest(done).NewStart? && StartRequest(done).input.duration == 0
            && ValidateStart(StartRequest(done).input).None?
  {
    CountdownReachesZero(st, st.timeLeft, completeOk);
    StartRequestValidity(Ticks(st, st.timeLeft, completeOk));
  }

  /** A start from a stopped or reset client with no tracked session is accepted
      for the type's whole default length. */
  lemma DefaultStartAccepted(st: ClientState)
    requires st.currentSession.None? && st.timeLeft == DefaultSeconds(st.timerType)
    ensures StartRequest(st).NewStart?
    ensures ValidateStart(StartRequest(st).input) == Some(st.timerType)
    ensures StartRequest(st).input.duration * 60 == DefaultSeconds(st.timerType)
  {
    StartRequestValidity(st);
  }

  /** A tracked session whose countdown is at zero can be resumed, after which
      the client reports running while the countdown never moves again. */
  lemma ResumeAtZeroStalls(st: ClientState, s: Session, completeOk: bool, n: nat)
    requires !st.isRunning && st.timeLeft == 0
    ensures var resumed := AfterStart(st, Some(s));
            resumed.isRunning && resumed.timeLeft == 0 && Ticks(resumed, n, completeOk) == resumed
  {
    StoppedStaysStopped(AfterStart(st, Some(s)), n, completeOk);
  }

  /** Stop (after a successful complete), reset and a switch of type on a
      stopped client without a tracked session all refill the countdown, so the
      next start asks for the whole default length and the server accepts it.
      With a tracked session, reset and switch keep it, and the next start is a
      resume instead. */
  lemma RefillThenStartAccepted(st: ClientState, t: TimerType)
    ensures var stopped := AfterStop(st, true);
            StartRequest(stopped).NewStart?
            && ValidateStart(StartRequest(stopped).input) == Some(st.timerType)
            && StartRequest(stopped).input.duration * 60 == DefaultSeconds(st.timerType)
    ensures st.currentSession.None? && !st.isRunning ==>
              var switched := AfterSwitch(st, t);
              StartRequest(switched).NewStart?
              && ValidateStart(StartRequest(switched).input) == Some(t)
              && StartRequest(switched).input.duration * 60 == DefaultSeconds(t)
    ensures st.currentSession.None? ==>
              var reset := AfterReset(st);
              StartRequest(reset).NewStart?
              && ValidateStart(StartRequest(reset).input) == Some(st.timerType)
              && StartRequest(reset).input.duration * 60 == DefaultSeconds(st.timerType)
    ensures st.currentSession.Some? ==>
              StartRequest(AfterReset(st)).ResumeCall? && StartRequest(AfterSwitch(st, t)).ResumeCall?
  {
    DefaultStartAccepted(AfterStop(st, true));
    if st.currentSession.None? {
      DefaultStartAccepted(AfterReset(st));
      if !st.isRunning {
        DefaultStartAccepted(AfterSwitch(st, t));
      }
    }
  }

  // ---------------------------------------------------------------------------
  // The provider's state
  // ---------------------------------------------------------------------------

  class TimerClient {
    var isRunning: bool
    var timeLeft: int
    var timerType: TimerType
    var currentSession: Option<Session>
    var sessionCount: int

    function State(): ClientState
      reads this
    {
      ClientState(isRunning, timeLeft, timerType, currentSession, sessionCount)
    }

    constructor ()
      ensures State() == Initial()
    {
      isRunning := false;
      timeLeft := 25 * 60;
      timerType := Pomodoro;
      currentSession := None;
      sessionCount := 1;
    }

    /** `startTimer` with the server's answer `reply`; returns the request sent, if any. */
    method StartTimer(reply: Option<Session>) returns (call: Option<StartCall>)
      modifies this
      ensures call == if old(isRunning) then None else Some(StartRequest(old(State())))
      ensures State() == AfterStart(old(State()), reply)
    {
      if isRunning {
        return None;
      }
      if currentSession.Some? {
        call := Some(ResumeCall);
      } else {
        call := Some(NewStart(StartInput(TypeName(timerType), timeLeft / 60, None, Some(DefaultProject), None)));
      }
      if reply.Some? {
        currentSession := reply;
        isRunning := true;
      }
    }

    /** `pauseTimer`; the pause request is sent whatever the state, so `sendsPause` always holds. */
    method PauseTimer() returns (sendsPause: bool)
      modifies this
      ensures sendsPause
      ensures State() == AfterPause(old(State()))
    {
      isRunning := false;
      sendsPause := true;
    }

    /** `stopTimer`; returns the id of the session it asks the server to complete, if any. */
    method StopTimer(completeOk: bool) returns (completes: Option<SessionId>)
      modifies this
      ensures completes == if old(currentSession).Some? then Some(old(currentSession).value.id) else None
      ensures State() == AfterStop(old(State()), completeOk)
    {
      isRunning := false;
      timeLeft := DefaultSeconds(timerType);
      completes := None;
      if currentSession.Some? {
        completes := Some(currentSession.value.id);
        if completeOk {
          currentSession := None;
        }
      }
    }

    method ResetTimer()
      modifies this
      ensures State() == AfterReset(old(State()))
    {
      isRunning := false;
      timeLeft := DefaultSeconds(timerType);
    }

    /** `switchTimerType`; `rejected` when the timer is running. */
    method SwitchTimerType(t: TimerType) returns (rejected: bool)
      modifies this
      ensures rejected == old(isRunning)
      ensures State() == AfterSwitch(old(State()), t)
    {
      if isRunning {
        return true;
      }
      rejected := false;
      timerType := t;
      timeLeft := DefaultSeconds(t);
    }

    /** One interval callback; returns the id of the session it asks the server to complete, if any. */
    method Tick(completeOk: bool) returns (completes: Option<SessionId>)
      modifies this
      ensures completes.Some? <==> old(isRunning) && old(timeLeft) == 1 && old(currentSession).Some?
      ensures completes.Some? ==> completes.value == old(currentSession).value.id
      ensures State() == AfterTick(old(State()), completeOk)
    {
      completes := None;
      if !(isRunning && timeLeft > 0) {
        return;
      }
      if timeLeft <= 1 {
        isRunning := false;
        if currentSession.Some? {
          completes := Some(currentSession.value.id);
          if completeOk {
            currentSession := None;
          }
        }
        timeLeft := 0;
      } else {
        timeLeft := timeLeft - 1;
      }
    }

    /** `checkActiveSession` with the server's answer `snapshot`, at instant `now`. */
    method CheckActiveSession(snapshot: Option<Session>, now: int)
      modifies this
      ensures State() == AfterLoad(old(State()), snapshot, now)
    {
      if snapshot.None? {
        return;
      }
      var s := snapshot.value;
      currentSession := snapshot;
      timerType := s.kind;
      if s.isRunning {
        var elapsedSeconds := (now - s.startTime) / 1000;
        var remainingSeconds := s.duration * 60 - elapsedSeconds;
        if remainingSeconds > 0 {
          timeLeft := remainingSeconds;
          isRunning := true;
        } else {
          timeLeft := 0;
          isRunning := false;
        }
      } else {
        match s.timeLeft {
          case Some(t) => timeLeft := t;
          case None => timeLeft := s.duration * 60;
        }
        isRunning := false;
      }
    }
  }
}
