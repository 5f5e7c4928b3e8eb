/** The session state machine of server/routes/timer.js: the start, complete,
    pause, resume, active and delete handlers acting on one store of session
    records. Each request is one atomic step; the authenticated user and the
    current instant are parameters. */
module TimerRoutes {
  import opened Base
  import opened TimerSession
  import opened Reconcile

  /** What a handler answers (HTTP status plumbing left aside). */
  datatype Reply =
    | Ok(session: Session)          // 200/201 with the record
    | Invalid                       // 400 from the request validators
    | NotFound(message: string)     // 404
    | Conflict(message: string)     // 400 for a state mismatch
    | ServerError                   // 500: the save threw
    | Deleted                       // acknowledgement of a delete

  const NoActiveSession: string := "No active session found"
  const SessionNotFound: string := "Timer session not found"
  const AlreadyPaused: string := "Timer is already paused"
  const AlreadyRunning: string := "Timer is already running"

  /** The body of a start request. */
  datatype StartInput = StartInput(
    typeName: string,
    duration: int,
    taskId: Option<TaskId>,
    project: Option<string>,
    notes: Option<string>)

  // ---------------------------------------------------------------------------
  // Request validation and record-level transitions
  // ---------------------------------------------------------------------------

  /** The start validators: `type` is one of the three timer types and
      `duration` an integer of at least 1. Gives the parsed type when both hold. */
  function ValidateStart(input: StartInput): (r: Option<TimerType>)
    ensures r.Some? <==> ParseTimerType(input.typeName).Some? && input.duration >= 1
    ensures r.Some? ==> TypeName(r.value) == input.typeName
  {
    if input.duration >= 1 then ParseTimerType(input.typeName) else None
  }

  /** `project || 'No Project'`: an absent or empty project becomes the default. */
  function ProjectOrDefault(project: Option<string>): (r: string)
    ensures r != ""
    ensures project.None? || project.value == "" ==> r == DefaultProject
    ensures project.Some? && project.value != "" ==> r == project.value
  {
    if project.None? || project.value == "" then DefaultProject else project.value
  }

  predicate IsActive(s: Session) { !s.completed }

  predicate ActiveOf(s: Session, user: UserId) { s.user == user && !s.completed }

  /** The record shapes the handlers produce: a schema-valid record; completed
      records carry an `endTime`; a running active record has no stored
      `timeLeft`; a paused active record has a non-negative one. */
  predicate WellFormed(s: Session)
  {
    && ValidRecord(s)
    && (s.completed ==> s.endTime.Some?)
    && (!s.completed && s.isRunning ==> s.timeLeft.None?)
    && (!s.completed && !s.isRunning ==> s.timeLeft.Some? && s.timeLeft.value >= 0)
  }

  /** Marks a record completed at `now` (start's close of the prior session, and complete). */
  function Closed(s: Session, now: int): (r: Session)
    ensures r.completed && r.endTime == Some(now)
    ensures r.(endTime := s.endTime, completed := s.completed) == s
    ensures WellFormed(s) ==> WellFormed(r)
  {
    s.(endTime := Some(now), completed := true)
  }

  /** The pause handler's update: stops the record and stores the remaining
      seconds, clamped at zero, as `timeLeft`. */
  function Paused(s: Session, now: int): (r: Session)
    ensures !r.isRunning && r.timeLeft == Some(PausedTimeLeft(s.startTime, s.duration, now))
    ensures r.(isRunning := s.isRunning, timeLeft := s.timeLeft) == s
    ensures WellFormed(s) ==> WellFormed(r)
  {
    s.(isRunning := false, timeLeft := Some(PausedTimeLeft(s.startTime, s.duration, now)))
  }

  /** The seconds a paused record has left; a missing `timeLeft` counts as the full duration. */
  function StoredTimeLeft(s: Session): int
  {
    match s.timeLeft
    case Some(t) => t
    case None => s.duration * 60
  }

  /** The resume handler's update: restarts the record from a synthetic start
      that leaves exactly the stored seconds, and clears `timeLeft`. */
  function Resumed(s: Session, now: int): (r: Session)
    ensures r.isRunning && r.timeLeft.None?
    ensures RemainingSeconds(r.startTime, s.duration, now) == StoredTimeLeft(s)
    ensures r.(startTime := s.startTime, isRunning := s.isRunning, timeLeft := s.timeLeft) == s
    ensures WellFormed(s) ==> WellFormed(r)
  {
    s.(startTime := ResumedStart(StoredTimeLeft(s), s.duration, now), isRunning := true, timeLeft := None)
  }

  /** Pausing, resuming and pausing again at the resume instant stores the same
      `timeLeft` as the first pause, whatever the pause lasted. */
  lemma PauseResumePause(s: Session, pausedAt: int, resumedAt: int)
    ensures Paused(Resumed(Paused(s, pausedAt), resumedAt), resumedAt).timeLeft == Paused(s, pausedAt).timeLeft
    ensures Paused(Resumed(Paused(s, pausedAt), resumedAt), resumedAt).(startTime := s.startTime)
         == Paused(s, pausedAt)
  {
    var t := PausedTimeLeft(s.startTime, s.duration, pausedAt);
    PauseAfterResume(t, s.duration, resumedAt, 0);
  }

  /** A paused record with no stored `timeLeft` resumes with the full duration,
      so its new start is the resume instant itself. */
  lemma ResumeWithoutTimeLeft(s: Session, now: int)
    requires s.timeLeft.None?
    ensures Resumed(s, now).startTime == now
  {
    assert ElapsedSeconds(Resumed(s, now).startTime, now) == 0;
  }

  // ---------------------------------------------------------------------------
  // Queries on the stored records (the `findOne` filters of the handlers)
  // ---------------------------------------------------------------------------

  /** `findOne({ user, completed: false })`. */
  function FindActive(ss: seq<Session>, user: UserId): Option<nat>
  {
    FirstIndex(ss, (s: Session) => ActiveOf(s, user))
  }

  /** `findOne({ _id: id, user, completed: false })`. */
  function FindOpen(ss: seq<Session>, user: UserId, id: SessionId): Option<nat>
  {
    FirstIndex(ss, (s: Session) => s.id == id && s.user == user && !s.completed)
  }

  /** `findOneAndDelete({ _id: id, user })`'s match. */
  function FindOwned(ss: seq<Session>, user: UserId, id: SessionId): Option<nat>
  {
    FirstIndex(ss, (s: Session) => s.id == id && s.user == user)
  }

  /** How many records of `user` are not completed. */
  function ActiveCount(ss: seq<Session>, user: UserId): nat
  {
    if ss == [] then 0
    else ActiveCount(ss[..|ss| - 1], user) + (if ActiveOf(ss[|ss| - 1], user) then 1 else 0)
  }

  /** The store as a whole: every record well formed, ids distinct and below the
      next fresh id, and at most one active record per user. */
  ghost predicate StoreInvariant(ss: seq<Session>, nextId: SessionId)
  {
    && (forall i :: 0 <= i < |ss| ==> WellFormed(ss[i]) && ss[i].id < nextId)
    && (forall i, j :: 0 <= i < j < |ss| ==> ss[i].id != ss[j].id)
    && (forall i, j :: 0 <= i < j < |ss| && IsActive(ss[i]) && IsActive(ss[j]) ==> ss[i].user != ss[j].user)
  }

  /** The first step of start: close the user's active record, if any. */
  function CloseActive(ss: seq<Session>, user: UserId, now: int): (r: seq<Session>)
    ensures |r| == |ss|
  {
    match FindActive(ss, user)
    case None => ss
    case Some(i) => ss[i := Closed(ss[i], now)]
  }

  lemma {:induction false} ActiveCountZero(ss: seq<Session>, user: UserId)
    ensures ActiveCount(ss, user) == 0 <==> forall j :: 0 <= j < |ss| ==> !ActiveOf(ss[j], user)
  {
    if ss != [] {
      var p := ss[..|ss| - 1];
      ActiveCountZero(p, user);
      assert forall j :: 0 <= j < |p| ==> p[j] == ss[j];
    }
  }

  /** The single-active-session invariant in counting form. */
  lemma {:induction false} AtMostOneActive(ss: seq<Session>, nextId: SessionId, user: UserId)
    requires StoreInvariant(ss, nextId)
    ensures ActiveCount(ss, user) <= 1
  {
    if ss != [] {
      var n := |ss| - 1;
      var p := ss[..n];
      assert forall j :: 0 <= j < |p| ==> p[j] == ss[j];
      AtMostOneActive(p, nextId, user);
      if ActiveOf(ss[n], user) {
        ActiveCountZero(p, user);
      }
    }
  }

  lemma ReplacePreserves(ss: seq<Session>, nextId: SessionId, i: nat, s: Session)
    requires StoreInvariant(ss, nextId) && i < |ss|
    requires s.id == ss[i].id && s.user == ss[i].user && WellFormed(s)
    requires IsActive(s) ==> IsActive(ss[i])
    ensures StoreInvariant(ss[i := s], nextId)
  {
  }

  lemma {:induction false} CloseActivePreserves(ss: seq<Session>, nextId: SessionId, user: UserId, now: int)
    requires StoreInvariant(ss, nextId)
    ensures StoreInvariant(CloseActive(ss, user, now), nextId)
    ensures forall j :: 0 <= j < |ss| ==> !ActiveOf(CloseActive(ss, user, now)[j], user)
  {
    match FindActive(ss, user)
    case None =>
    case Some(i) =>
      ReplacePreserves(ss, nextId, i, Closed(ss[i], now));
      var c := CloseActive(ss, user, now);
      forall j | 0 <= j < |ss| ensures !ActiveOf(c[j], user) {
        assert ActiveOf(ss[i], user);
        assert c[j] == if j == i then Closed(ss[i], now) else ss[j];
      }
  }

  lemma AppendPreserves(ss: seq<Session>, nextId: SessionId, s: Session)
    requires StoreInvariant(ss, nextId)
    requires s.id == nextId && WellFormed(s)
    requires IsActive(s) ==> forall j :: 0 <= j < |ss| ==> !ActiveOf(ss[j], s.user)
    ensures StoreInvariant(ss + [s], nextId + 1)
  {
  }

  /** The state start leaves behind: the prior active session closed and the new
      record appended, which is then the user's only active session. */
  lemma {:induction false} StartEffect(ss: seq<Session>, nextId: SessionId, user: UserId, now: int, rec: Session)
    requires StoreInvariant(ss, nextId)
    requires rec.id == nextId && rec.user == user && IsActive(rec) && WellFormed(rec)
    ensures var after := CloseActive(ss, user, now) + [rec];
            && StoreInvariant(after, nextId + 1)
            && ActiveCount(after, user) == 1
            && FindActive(after, user) == Some(|ss|)
  {
    var closed := CloseActive(ss, user, now);
    CloseActivePreserves(ss, nextId, user, now);
    AppendPreserves(closed, nextId, rec);
    var after := closed + [rec];
    ActiveCountZero(closed, user);
    assert after[..|after| - 1] == closed;
    assert forall j :: 0 <= j < |closed| ==> after[j] == closed[j];
  }

  /** The result of a handler that may insert records: its reply and the new store contents. */
  datatype Outcome = Outcome(reply: Reply, sessions: seq<Session>, nextId: SessionId)

  /** POST /start: rejects an invalid body; otherwise closes the user's active
      session, then inserts a new running one. A record the schema rejects
      (notes too long) makes the save throw after the close has been saved. */
  function StartOutcome(ss: seq<Session>, nextId: SessionId, user: UserId, input: StartInput, now: int): (o: Outcome)
    ensures o.reply.Ok? || o.reply.Invalid? || o.reply.ServerError?
    ensures o.reply.Invalid? <==> ValidateStart(input).None?
    ensures o.reply.Invalid? ==> o.sessions == ss && o.nextId == nextId
    ensures o.reply.ServerError? ==> o.sessions == CloseActive(ss, user, now) && o.nextId == nextId
    ensures o.reply.Ok? ==>
              && o.sessions == CloseActive(ss, user, now) + [o.reply.session]
              && o.nextId == nextId + 1
              && o.reply.session.id == nextId && o.reply.session.user == user
              && TypeName(o.reply.session.kind) == input.typeName
  {
    match ValidateStart(input)
    case None => Outcome(Invalid, ss, nextId)
    case Some(kind) =>
      var closed := CloseActive(ss, user, now);
      var rec := NewRecord(nextId, user, kind, input.duration, now,
                           input.taskId, Some(ProjectOrDefault(input.project)), input.notes);
      if ValidRecord(rec) then Outcome(Ok(rec), closed + [rec], nextId + 1)
      else Outcome(ServerError, closed, nextId)
  }

  /** When start succeeds and what it inserts: a valid body succeeds unless its
      trimmed notes are too long for the schema, and the new record is a running,
      open session with the requested type, duration, task, project and notes. */
  lemma StartOutcomeCases(ss: seq<Session>, nextId: SessionId, user: UserId, input: StartInput, now: int)
    ensures var o := StartOutcome(ss, nextId, user, input, now);
            && (o.reply.ServerError? <==>
                  ValidateStart(input).Some? && input.notes.Some? && |Trim(input.notes.value)| > MaxNotesLength)
            && (o.reply.Ok? <==>
                  ValidateStart(input).Some? && (input.notes.None? || |Trim(input.notes.value)| <= MaxNotesLength))
            && (o.reply.Ok? ==>
                  var rec := o.reply.session;
                  && rec.kind == ValidateStart(input).value && rec.duration == input.duration
                  && rec.startTime == now && rec.task == input.taskId
                  && rec.project == ProjectOrDefault(input.project) && rec.notes == StoredNotes(input.notes)
                  && rec.isRunning && !rec.completed && rec.timeLeft.None? && rec.endTime.None?)
  {
    match ValidateStart(input)
    case None =>
    case Some(kind) =>
      var rec := NewRecord(nextId, user, kind, input.duration, now,
                           input.taskId, Some(ProjectOrDefault(input.project)), input.notes);
      assert ValidRecord(rec) <==> input.notes.None? || |Trim(input.notes.value)| <= MaxNotesLength;
  }

  /** Start keeps the store invariant, and a successful start leaves the user
      with exactly one active session: the new, running one. */
  lemma StartKeepsInvariant(ss: seq<Session>, nextId: SessionId, user: UserId, input: StartInput, now: int)
    requires StoreInvariant(ss, nextId)
    ensures var o := StartOutcome(ss, nextId, user, input, now);
            && StoreInvariant(o.sessions, o.nextId)
            && (o.reply.Ok? ==>
                  && ActiveCount(o.sessions, user) == 1
                  && FindActive(o.sessions, user) == Some(|ss|)
                  && o.sessions[|ss|] == o.reply.session
                  && o.reply.session.isRunning && o.reply.session.startTime == now)
            && (o.reply.Invalid? ==> o.sessions == ss)
  {
    match ValidateStart(input)
    case None =>
    case Some(kind) =>
      CloseActivePreserves(ss, nextId, user, now);
      var rec := NewRecord(nextId, user, kind, input.duration, now,
                           input.taskId, Some(ProjectOrDefault(input.project)), input.notes);
      if ValidRecord(rec) {
        StartEffect(ss, nextId, user, now, rec);
      }
  }

  lemma RemovePreserves(ss: seq<Session>, nextId: SessionId, i: nat)
    requires StoreInvariant(ss, nextId) && i < |ss|
    ensures StoreInvariant(ss[..i] + ss[i + 1..], nextId)
  {
    var r := ss[..i] + ss[i + 1..];
    assert forall j :: 0 <= j < |r| ==> r[j] == ss[if j < i then j else j + 1];
  }

  /** A user's active record, if any, is the one `findOne` returns. */
  lemma FindActiveIsTheActive(ss: seq<Session>, nextId: SessionId, user: UserId)
    requires StoreInvariant(ss, nextId)
    ensures FindActive(ss, user).Some? ==>
              forall j :: 0 <= j < |ss| && ActiveOf(ss[j], user) ==> j == FindActive(ss, user).value
  {
  }

  /** The credit a completed focus session gives its task:
      `completedPomodoros += 1` when the session is a pomodoro linked to an existing task. */
  function CreditTask(tasks: map<TaskId, nat>, s: Session): (r: map<TaskId, nat>)
    ensures r.Keys == tasks.Keys
    ensures forall t :: t in tasks && (s.kind != Pomodoro || s.task != Some(t)) ==> r[t] == tasks[t]
    ensures s.kind == Pomodoro && s.task.Some? && s.task.value in tasks ==>
              r[s.task.value] == tasks[s.task.value] + 1
  {
    if s.kind == Pomodoro && s.task.Some? && s.task.value in tasks
    then tasks[s.task.value := tasks[s.task.value] + 1]
    else tasks
  }

  // ---------------------------------------------------------------------------
  // The store and its handlers
  // ---------------------------------------------------------------------------

  class SessionStore {
    /** The session collection, in natural (insertion) order. */
    var sessions: seq<Session>
    /** `completedPomodoros` of each existing task. */
    var tasks: map<TaskId, nat>
    /** The id the next inserted record receives. */
    var nextId: SessionId

    ghost predicate Valid()
      reads this
    {
      StoreInvariant(sessions, nextId)
    }

    constructor (tasks: map<TaskId, nat>)
      ensures Valid() && sessions == [] && this.tasks == tasks
    {
      sessions := [];
      this.tasks := tasks;
      nextId := 0;
    }

    /** The close step of start: the user's active session, if any, gets
        `endTime = now` and `completed = true`. */
    method CloseActiveOf(user: UserId, now: int)
      requires Valid()
      modifies this`sessions
      ensures Valid()
      ensures sessions == CloseActive(old(sessions), user, now)
    {
      var found := FindActive(sessions, user);
      CloseActivePreserves(sessions, nextId, user, now);
      if found.Some? {
        var active := sessions[found.value];
        active := active.(endTime := Some(now));
        active := active.(completed := true);
        sessions := sessions[found.value := active];
      }
    }

    /** POST /start, as specified by `StartOutcome`. */
    method Start(user: UserId, input: StartInput, now: int) returns (r: Reply)
      requires Valid()
      modifies this
      ensures Valid() && tasks == old(tasks)
      ensures Outcome(r, sessions, nextId) == StartOutcome(old(sessions), old(nextId), user, input, now)
    {
      var kind := ValidateStart(input);
      if kind.None? {
        return Invalid;
      }
      ghost var before := sessions;
      CloseActiveOf(user, now);
      var rec := NewRecord(nextId, user, kind.value, input.duration, now,
                           input.taskId, Some(ProjectOrDefault(input.project)), input.notes);
      if !ValidRecord(rec) {
        return ServerError;
      }
      CloseActivePreserves(before, nextId, user, now);
      AppendPreserves(sessions, nextId, rec);
      sessions := sessions + [rec];
      nextId := nextId + 1;
      r := Ok(rec);
    }

    /** POST /complete/:id. Only an open session of this user can be completed;
        a second completion of the same id is not found. A completed pomodoro
        linked to an existing task credits that task. */
    method Complete(user: UserId, id: SessionId, now: int) returns (r: Reply)
      requires Valid()
      modifies this
      ensures Valid() && nextId == old(nextId)
      ensures FindOpen(old(sessions), user, id).None? ==>
                r == NotFound(SessionNotFound) && sessions == old(sessions) && tasks == old(tasks)
      ensures FindOpen(old(sessions), user, id).Some? ==>
                var i := FindOpen(old(sessions), user, id).value;
                && sessions == old(sessions)[i := Closed(old(sessions)[i], now)]
                && r == Ok(sessions[i])
                && tasks == CreditTask(old(tasks), sessions[i])
                && FindOpen(sessions, user, id).None?
    {
      var found := FindOpen(sessions, user, id);
      if found.None? {
        return NotFound(SessionNotFound);
      }
      var i := found.value;
      var session := sessions[i];
      session := session.(endTime := Some(now));
      session := session.(completed := true);
      ReplacePreserves(sessions, nextId, i, session);
      sessions := sessions[i := session];
      if session.kind == Pomodoro && session.task.Some? && session.task.value in tasks {
        var task := session.task.value;
        tasks := tasks[task := tasks[task] + 1];
      }
      r := Ok(session);
    }

    /** POST /pause. Stores the remaining seconds of the user's running session. */
    method Pause(user: UserId, now: int) returns (r: Reply)
      requires Valid()
      modifies this`sessions
      ensures Valid()
      ensures FindActive(old(sessions), user).None? ==>
                r == NotFound(NoActiveSession) && sessions == old(sessions)
      ensures FindActive(old(sessions), user).Some? ==>
                var i := FindActive(old(sessions), user).value;
                if !old(sessions)[i].isRunning
                then r == Conflict(AlreadyPaused) && sessions == old(sessions)
                else sessions == old(sessions)[i := Paused(old(sessions)[i], now)] && r == Ok(sessions[i])
                     && (now >= old(sessions)[i].startTime ==> sessions[i].timeLeft.value <= sessions[i].duration * 60)
    {
      var found := FindActive(sessions, user);
      if found.None? {
        return NotFound(NoActiveSession);
      }
      var i := found.value;
      var session := sessions[i];
      if !session.isRunning {
        return Conflict(AlreadyPaused);
      }
      var timeLeft := PausedTimeLeft(session.startTime, session.duration, now);
      session := session.(isRunning := false);
      session := session.(timeLeft := Some(timeLeft));
      ReplacePreserves(sessions, nextId, i, session);
      sessions := sessions[i := session];
      if now >= sessions[i].startTime {
        PausedTimeLeftBounds(sessions[i].startTime, sessions[i].duration, now);
      }
      r := Ok(session);
    }

    /** POST /resume. Restarts the user's paused session from a synthetic start. */
    method Resume(user: UserId, now: int) returns (r: Reply)
      requires Valid()
      modifies this`sessions
      ensures Valid()
      ensures FindActive(old(sessions), user).None? ==>
                r == NotFound(NoActiveSession) && sessions == old(sessions)
      ensures FindActive(old(sessions), user).Some? ==>
                var i := FindActive(old(sessions), user).value;
                if old(sessions)[i].isRunning
                then r == Conflict(AlreadyRunning) && sessions == old(sessions)
                else sessions == old(sessions)[i := Resumed(old(sessions)[i], now)] && r == Ok(sessions[i])
    {
      var found := FindActive(sessions, user);
      if found.None? {
        return NotFound(NoActiveSession);
      }
      var i := found.value;
      var session := sessions[i];
      if session.isRunning {
        return Conflict(AlreadyRunning);
      }
      if session.timeLeft.None? {
        session := session.(timeLeft := Some(session.duration * 60));
      }
      var elapsedSecondsBeforePause := session.duration * 60 - session.timeLeft.value;
      session := session.(startTime := now - elapsedSecondsBeforePause * 1000);
      session := session.(isRunning := true);
      session := session.(timeLeft := None);
      assert session == Resumed(sessions[i], now);
      ReplacePreserves(sessions, nextId, i, session);
      sessions := sessions[i := session];
      r := Ok(session);
    }

    /** GET /active: the user's one active session, if any. */
    method GetActive(user: UserId) returns (r: Option<Session>)
      requires Valid()
      ensures r.None? <==> forall j :: 0 <= j < |sessions| ==> !ActiveOf(sessions[j], user)
      ensures r.Some? ==> r.value in sessions && ActiveOf(r.value, user)
      ensures r.Some? ==> forall j :: 0 <= j < |sessions| && ActiveOf(sessions[j], user) ==> sessions[j] == r.value
    {
      var found := FindActive(sessions, user);
      FindActiveIsTheActive(sessions, nextId, user);
      r := if found.Some? then Some(sessions[found.value]) else None;
    }

    /** DELETE /:id. Removes one of the user's sessions, whatever its state. */
    method Delete(user: UserId, id: SessionId) returns (r: Reply)
      requires Valid()
      modifies this`sessions
      ensures Valid()
      ensures FindOwned(old(sessions), user, id).None? ==>
                r == NotFound(SessionNotFound) && sessions == old(sessions)
      ensures FindOwned(old(sessions), user, id).Some? ==>
                var i := FindOwned(old(sessions), user, id).value;
                r == Deleted && sessions == old(sessions)[..i] + old(sessions)[i + 1..]
                && forall j :: 0 <= j < |sessions| ==> sessions[j].id != id
    {
      var found := FindOwned(sessions, user, id);
      if found.None? {
        return NotFound(SessionNotFound);
      }
      var i := found.value;
      RemovePreserves(sessions, nextId, i);
      ghost var before := sessions;
      sessions := sessions[..i] + sessions[i + 1..];
      assert forall j :: 0 <= j < |sessions| ==> sessions[j] == before[if j < i then j else j + 1];
      r := Deleted;
    }
  }
}
