/** The timer-session record of server/models/TimerSession.js: its fields, the
    defaults a new record receives, the schema's constraints, and the
    `actualDuration` virtual. Timestamps are integer milliseconds since the epoch. */
module TimerSession {
  import opened Base

  type UserId = nat
  type SessionId = nat
  type TaskId = nat

  /** The schema's `type` enum. */
  datatype TimerType = Pomodoro | ShortBreak | LongBreak

  const DefaultProject: string := "No Project"
  const MaxNotesLength: nat := 500

  /** The enum's spelling of each timer type. */
  function TypeName(t: TimerType): string
  {
    match t
    case Pomodoro => "pomodoro"
    case ShortBreak => "shortBreak"
    case LongBreak => "longBreak"
  }

  /** Reads a `type` string; accepts exactly the three enum spellings. */
  function ParseTimerType(name: string): (r: Option<TimerType>)
    ensures forall t :: r == Some(t) <==> name == TypeName(t)
  {
    if name == "pomodoro" then Some(Pomodoro)
    else if name == "shortBreak" then Some(ShortBreak)
    else if name == "longBreak" then Some(LongBreak)
    else None
  }

  /** One stored timer session. The schema field `type` is called `kind` here
      (`type` is a Dafny keyword). `endTime`, `timeLeft`, `task` and `notes`
      may be absent; the others are always present. */
  datatype Session = Session(
    id: SessionId,
    user: UserId,
    kind: TimerType,
    duration: int,          // nominal length in minutes
    startTime: int,
    endTime: Option<int>,
    completed: bool,
    isRunning: bool,
    timeLeft: Option<int>,  // seconds, kept while paused
    task: Option<TaskId>,
    project: string,
    notes: Option<string>)

  /** The schema's constraints on a record that can be saved:
      `duration` at least 1 and `notes` at most 500 characters (the type enum
      is enforced by `TimerType`). */
  predicate ValidRecord(s: Session)
  {
    s.duration >= 1 && (s.notes.Some? ==> |s.notes.value| <= MaxNotesLength)
  }

  /** The stored form of `notes`: the schema trims it on assignment. */
  function StoredNotes(notes: Option<string>): (r: Option<string>)
    ensures r.Some? <==> notes.Some?
    ensures r.Some? ==> |r.value| <= |notes.value|
    ensures r.Some? ==> r.value == Trim(notes.value)
  {
    match notes
    case None => None
    case Some(n) => Some(Trim(n))
  }

  /** A record as the schema builds it from the given fields: `completed` false,
      `isRunning` true, `timeLeft` null, no `endTime`, and `project` defaulting to
      "No Project" when not given. */
  function NewRecord(id: SessionId, user: UserId, kind: TimerType, duration: int, startTime: int,
                     task: Option<TaskId>, project: Option<string>, notes: Option<string>): (r: Session)
    ensures r.id == id && r.user == user && r.kind == kind && r.duration == duration
    ensures r.startTime == startTime && r.task == task
    ensures !r.completed && r.isRunning && r.timeLeft.None? && r.endTime.None?
    ensures r.project == (if project.Some? then project.value else DefaultProject)
    ensures r.notes == StoredNotes(notes)
    ensures ValidRecord(r) <==> duration >= 1 && (notes.Some? ==> |Trim(notes.value)| <= MaxNotesLength)
  {
    Session(id, user, kind, duration, startTime, None, false, true, None, task,
            match project case Some(p) => p case None => DefaultProject,
            StoredNotes(notes))
  }

  /** JavaScript's `Math.round(ms / 60000)` on an integer number of milliseconds:
      the nearest whole minute, halves rounded upwards. */
  function RoundToMinutes(ms: int): (m: int)
    ensures m * 60000 - 30000 <= ms < m * 60000 + 30000
  {
    (ms + 30000) / 60000
  }

  /** The `actualDuration` virtual: whole minutes between start and end, absent
      while the record has no `endTime`. */
  function ActualDuration(s: Session): (r: Option<int>)
    ensures r.Some? <==> s.endTime.Some?
    ensures r.Some? ==> r.value * 60000 - 30000 <= s.endTime.value - s.startTime < r.value * 60000 + 30000
  {
    match s.endTime
    case None => None
    case Some(e) => Some(RoundToMinutes(e - s.startTime))
  }

  /** Minutes are whole: a session that ran exactly `k` minutes reports `k`. */
  lemma ActualDurationOfWholeMinutes(s: Session, k: int)
    requires s.endTime == Some(s.startTime + k * 60000)
    ensures ActualDuration(s) == Some(k)
  {
    var m := ActualDuration(s).value;
    assert (m - k) * 60000 - 30000 <= 0 < (m - k) * 60000 + 30000;
  }
}
