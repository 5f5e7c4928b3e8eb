# Pomodoro timer sessions in Dafny

A model of the timer core of a Pomodoro web application (an Express/MongoDB
server and a React client):

- **The session record** (`server/models/TimerSession.js`). It has a type enum, a nominal `duration` of at least one minute, and default values for `completed`, `isRunning`, `timeLeft` and `project`. `notes` is trimmed and at most 500 characters. The `actualDuration` virtual gives the duration in whole minutes.
- **The session state machine** (`server/routes/timer.js`):
  - start closes the user's active session, then inserts a new running one;
  - complete, pause, resume, get-active and delete act on one per-user store of records.
  - Pause turns elapsed wall-clock time into a stored `timeLeft`, and resume turns `timeLeft` back into a synthetic `startTime`.
- **The listing and statistics queries** (same file):
  - the listing filters, sorts newest first and pages with `skip`/`limit`, and reports `ceil(total/limit)` pages;
  - the statistics roll up completed sessions per type and per (day, type).
- **The client timer state** (`client/src/contexts/TimerContext.js`):
  - the default durations;
  - start, pause, stop, reset and switch-type;
  - the one-second countdown;
  - `MM:SS` formatting and the header message;
  - the reconciliation that rebuilds the countdown from the active-session snapshot fetched on load.

Modules:

| file | module | contents |
|---|---|---|
| `base.dfy` | `Base` | `Option`, first-match search and filtering, decimal text, `padStart`, `trim` |
| `sorting.dfy` | `Sorting` | stable sort by an integer key |
| `session.dfy` | `TimerSession` | the record, its defaults and constraints, `actualDuration` |
| `reconcile.dfy` | `Reconcile` | elapsed/remaining seconds, the pause and resume arithmetic |
| `store.dfy` | `TimerRoutes` | the store invariant, `class SessionStore` with one method per handler |
| `listing.dfy` | `Listing` | GET `/` |
| `stats.dfy` | `Stats` | GET `/stats` |
| `client.dfy` | `TimerContext` | the client transitions and `class TimerClient` |

**Time.** Instants are integer milliseconds. The current instant is a parameter of every handler. For a positive divisor, Dafny's `/` floors, as `Math.floor(x / 1000)` does in the source.

**The store.** It is a `seq<Session>` in natural order, so `findOne` returns the first matching record. A record's `_id` is a `nat` drawn from a counter. The tasks' `completedPomodoros` counters are a `map`.

**Client replies.** The server's answers to the client are parameters of the client methods. `None` or `false` stands for a failed request.

**The calendar.** The lower bound of each statistics period and the calendar day of an instant are function parameters.

**Edge cases of the code.** The model follows the code as written in these cases:

- **Expired countdown on load.** A running session whose remaining time is zero on load is not completed by the client. It only shows `00:00` and stops (`TimerContext.LoadedTimeLeft`).
- **Remaining time is clamped only at zero.** A `startTime` later than the pause instant yields more than `duration*60` stored seconds (`Reconcile.PausedTimeLeft`).
- **Statistics window.** The statistics match tests only `completed` and `startTime >= startDate`, so a session that started inside the period counts wherever its `endTime` lies (`Stats.Qualifies`).
- **Task counter failure.** A throwing `task.save()` during completion answers 500 after the completed session has already been saved. Persistence failures are not modelled (see below).

## Model

| member | source | states |
|---|---|---|
| TimerSession.ParseTimerType | server/models/TimerSession.js:9-13 | a type string is accepted exactly when it is one of the three enum spellings, and then names that type |
| TimerSession.NewRecord | server/models/TimerSession.js:14-50 | a new record is not completed, running, has no `timeLeft` and no `endTime`, takes "No Project" when no project is given, stores trimmed notes; it satisfies the schema iff duration >= 1 and the trimmed notes have at most 500 characters |
| TimerSession.StoredNotes | server/models/TimerSession.js:46-50 | notes are kept present or absent as given; present notes are stored as exactly their trimmed text, never longer than given |
| Base.Trim | server/models/TimerSession.js:48 | the trimmed text is a contiguous slice of the input that neither starts nor ends with whitespace, and everything cut off before and after it is whitespace |
| Base.FilterCounts | server/routes/timer.js:180-192 | the filter keeps every element that passes, as often as it occurs, and no element that fails |
| TimerSession.RoundToMinutes | server/models/TimerSession.js:62 | the result is the whole number of minutes within half a minute of the milliseconds (halves round up) |
| TimerSession.ActualDuration | server/models/TimerSession.js:60-65 | present iff the record has an `endTime`, and then the end-to-start span rounded to the nearest minute |
| TimerSession.ActualDurationOfWholeMinutes | server/models/TimerSession.js:60-65 | a session that ran exactly k minutes reports k |
| Reconcile.ElapsedSeconds | server/routes/timer.js:105 | the whole seconds elapsed: `e*1000 <= now - start < e*1000 + 1000` |
| Reconcile.PausedTimeLeft | server/routes/timer.js:104-107 | the stored `timeLeft` is never negative, is 0 exactly when the nominal length has run out, and otherwise equals the remaining seconds |
| Reconcile.PausedTimeLeftBounds | server/routes/timer.js:104-107 | for a pause at or after the start, `0 <= timeLeft <= duration*60` |
| Reconcile.PauseAfterWholeSeconds | server/routes/timer.js:104-107 | pausing e whole seconds after the start stores `max(0, duration*60 - e)` |
| Reconcile.ResumedStart | server/routes/timer.js:141-148 | the synthetic start leaves exactly `timeLeft` seconds remaining at the resume instant |
| Reconcile.PauseAfterResume | server/routes/timer.js:136-148 | pausing d milliseconds after a resume stores `max(0, timeLeft - floor(d/1000))` |
| Reconcile.ResumeRestoresRemaining | server/routes/timer.js:136-148 | remaining time right after a resume equals the clamped remaining time at the pause, however long the pause lasted |
| Reconcile.CyclesDoNotDrift | server/routes/timer.js:104-151 | after any series of resume/pause pairs the stored `timeLeft` is the starting one less the whole seconds of each run, independent of the pauses' lengths |
| Reconcile.FocusScenario | server/routes/timer.js:104-148 | a 25-minute session paused after 600 s holds 900 s; resumed and paused 100 s later it holds 800 s |
| TimerRoutes.ValidateStart | server/routes/timer.js:10-21 | a start body is accepted iff its type is one of the enum spellings and its duration is at least 1, and then yields that type |
| TimerRoutes.ProjectOrDefault | server/routes/timer.js:43 | an absent or empty project becomes "No Project"; any other project is kept |
| TimerRoutes.Closed | server/routes/timer.js:31-35 | the record becomes completed with `endTime = now`, nothing else changes, and a well-formed record stays well formed |
| TimerRoutes.Paused | server/routes/timer.js:104-111 | the record stops and stores the clamped remaining seconds, nothing else changes, and well-formedness is kept |
| TimerRoutes.Resumed | server/routes/timer.js:141-152 | the record runs again with no `timeLeft` and a start that leaves exactly the stored seconds (the full duration when none was stored), nothing else changes, well-formedness is kept |
| TimerRoutes.PauseResumePause | server/routes/timer.js:136-148 | pause, resume and pause again at the resume instant stores the first pause's `timeLeft` and leaves the record as the first pause left it, up to `startTime` |
| TimerRoutes.ResumeWithoutTimeLeft | server/routes/timer.js:141-148 | a paused record with no `timeLeft` resumes with `startTime = now` |
| TimerRoutes.AtMostOneActive | server/routes/timer.js:25-47 | under the store invariant a user has at most one non-completed session |
| TimerRoutes.CloseActivePreserves | server/routes/timer.js:26-35 | closing the user's active session keeps the store invariant and leaves the user with no active session |
| TimerRoutes.StartEffect | server/routes/timer.js:26-47 | closing the active session and appending the new one keeps the invariant, and the new record is the user's only active session |
| TimerRoutes.StartOutcome | server/routes/timer.js:10-53 | an invalid body is refused iff validation fails and changes nothing; otherwise the active session is closed first, and then either the schema refuses the record (server error, nothing inserted) or the new record is appended with the next id, this user and the requested type |
| TimerRoutes.StartOutcomeCases | server/routes/timer.js:10-53 | a valid body succeeds iff its trimmed notes fit in 500 characters and answers a server error otherwise; the inserted record is running and open, started at `now`, with the requested type, duration and task, the project or "No Project", and the trimmed notes |
| TimerRoutes.StartKeepsInvariant | server/routes/timer.js:10-53 | every start outcome keeps the store invariant; a successful start leaves exactly one active session for the user, the new running one started at `now`; an invalid body changes nothing |
| TimerRoutes.FindActiveIsTheActive | server/routes/timer.js:162-169 | under the invariant the record `findOne` returns is the user's only active one |
| TimerRoutes.CreditTask | server/routes/timer.js:72-79 | only a pomodoro linked to an existing task increments that task's counter by one; every other counter is unchanged |
| TimerRoutes.SessionStore.CloseActiveOf | server/routes/timer.js:26-35 | the store after the close step equals `CloseActive` of the old store and keeps the invariant |
| TimerRoutes.SessionStore.Start | server/routes/timer.js:10-53 | reply and new store are those of `StartOutcome`; tasks untouched; invariant kept |
| TimerRoutes.SessionStore.Complete | server/routes/timer.js:56-86 | with no open session of this id and user: not found, nothing changes; otherwise that record is closed, returned, the task credited, and a second completion finds nothing |
| TimerRoutes.SessionStore.Pause | server/routes/timer.js:89-118 | no active session: not found, store unchanged; already paused: conflict, store unchanged; otherwise the active record is paused at `now`, within `[0, duration*60]` when `now >= startTime` |
| TimerRoutes.SessionStore.Resume | server/routes/timer.js:121-159 | no active session: not found; already running: conflict; both leave the store unchanged; otherwise the active record is resumed at `now` |
| TimerRoutes.SessionStore.GetActive | server/routes/timer.js:162-174 | absent iff the user has no active session; otherwise the user's one active session |
| TimerRoutes.SessionStore.Delete | server/routes/timer.js:298-314 | an id this user does not own: not found, store unchanged; otherwise exactly that record is removed and no record with that id remains |
| Sorting.SortBy | server/routes/timer.js:193 | the output is a permutation of the input, sorted by the key |
| Sorting.InsertSorted | server/routes/timer.js:193 | inserting into a sorted sequence keeps it sorted |
| Sorting.FilterInsert | server/routes/timer.js:193 | among the elements with any one key, insertion puts the new element first and keeps the others in order |
| Sorting.SortByStable | server/routes/timer.js:193 | for every key value, the elements with that key appear in the sorted output in their input order |
| Sorting.TiesKeepOrder | server/routes/timer.js:193 | two records with the same key keep their order |
| Sorting.SortDistinct | server/routes/timer.js:282 | sorting keeps distinct keys distinct |
| Listing.NewestFirst | server/routes/timer.js:193 | a permutation of the records in non-increasing `startTime` order |
| Listing.CeilDiv | server/routes/timer.js:202 | the least integer at or above `total/limit`, for positive and negative limits |
| Listing.ListedMembers | server/routes/timer.js:180-192 | the listed records are exactly the user's records that pass the type and date filters |
| Listing.SkipLimit | server/routes/timer.js:194-195 | refused iff the skip `(page-1)*limit` is negative; otherwise takes only records of the sorted input, at most `|limit|` of them when `limit` is not 0 |
| Listing.ListSessions | server/routes/timer.js:177-205 | a server error iff the skip is negative; otherwise a page echoing the requested page, reporting all matches as the total, a page count iff `limit` is not 0, and at most `|limit|` records, all of them matches, and `ceil(total/limit)` pages for any non-zero limit |
| Listing.SkipLimitTakes | server/routes/timer.js:194-195 | for any non-negative skip, the records from position `skip` on: all of them when `limit` is 0, otherwise the next `|limit|` |
| Listing.ListSessionsTakes | server/routes/timer.js:177-205 | every accepted query answers a page holding exactly those records of the sorted matches, for positive, zero and negative limits |
| Listing.DefaultQueryFirstPage | server/routes/timer.js:179 | a query without `page` and `limit` answers page 1 with the 20 newest matches and `ceil(total/20)` pages |
| Listing.SkipLimitIsPageSlice | server/routes/timer.js:194-195 | for page >= 1 and limit >= 1, skip-then-limit is the page-th slice of `limit` records |
| Listing.ListSessionsPage | server/routes/timer.js:177-205 | for page >= 1 and limit >= 1 the reply is a page holding exactly that slice of the sorted matches |
| Listing.ListPageContents | server/routes/timer.js:177-205 | a page holds at most `limit` matching records, newest first, reports the number of all matches and `ceil(total/limit)` pages |
| Listing.PagesCoverListing | server/routes/timer.js:192-202 | pages 1 to `totalPages` together are exactly the sorted matches, each once, in order |
| Stats.ParsePeriod | server/routes/timer.js:215-238 | "day", "month" and "year" select their period; every other value, including the default "week", selects the week |
| Stats.RollupByType | server/routes/timer.js:248-262 | every type group counts between 1 and the number of qualifying records |
| Stats.RollupByTypeCorrect | server/routes/timer.js:248-262 | there is a group for a type iff a record of that type qualifies, with their count and their summed nominal and actual durations |
| Stats.AddToDailyKeepsOthers | server/routes/timer.js:273-281 | adding a record to the daily groups neither creates, drops nor changes a group of another (day, type) |
| Stats.AddToDailyAdds | server/routes/timer.js:273-281 | afterwards the group of the record's (day, type) exists and holds the prior sum plus the record's duration |
| Stats.AddToDailyDistinct | server/routes/timer.js:273-281 | adding never creates a second group for one (day, type) |
| Stats.GroupDaily | server/routes/timer.js:273-281 | at most one group per record, and at least one when any record qualifies |
| Stats.GroupDailyCorrect | server/routes/timer.js:273-281 | exactly one group per (day, type) that occurs among the records, holding the sum of their durations |
| Stats.GetStats | server/routes/timer.js:212-295 | the report echoes the period and its lower bound, counts each type between 1 and the number of records, has at most one daily group per record, days ascending |
| Stats.GetStatsCorrect | server/routes/timer.js:240-283 | the report covers exactly the user's completed sessions started at or after the period's lower bound: per type count and sums, per (day, type) summed duration, days ascending |
| TimerContext.DefaultSeconds | client/src/contexts/TimerContext.js:24-28 | each default is a whole number of minutes between 5 and 25; focus 25, short break 5 and long break 15 minutes |
| TimerContext.JsRem | client/src/contexts/TimerContext.js:157 | the remainder has the sign of the dividend and the magnitude of `|a| mod b` |
| TimerContext.FormatTime | client/src/contexts/TimerContext.js:155-159 | for non-negative seconds the text ends in ":SS"; below 100 minutes it is exactly 5 characters |
| TimerContext.FormatTimeRoundTrip | client/src/contexts/TimerContext.js:155-159 | reading "MM:SS" back gives `mins*60 + secs == seconds` for every non-negative input |
| TimerContext.FormatTimeInjective | client/src/contexts/TimerContext.js:155-159 | distinct non-negative times display differently |
| TimerContext.TimerMessage | client/src/contexts/TimerContext.js:162-170 | the message is "#", the counter, then the phrase of the timer type |
| TimerContext.MessagesDistinguishTypes | client/src/contexts/TimerContext.js:162-170 | for one counter the three types give three different messages |
| TimerContext.StartRequest | client/src/contexts/TimerContext.js:36-46 | a resume iff a session is tracked; otherwise a start of the selected type for the floored whole minutes left |
| TimerContext.TickValue | client/src/contexts/TimerContext.js:116-142 | the countdown updater gives `max(0, prev - 1)`, never negative, and 0 exactly when `prev <= 1` |
| TimerContext.TransitionsKeepInvariant | client/src/contexts/TimerContext.js:16-204 | every handler keeps the countdown non-negative and runs only with a tracked session, given a well-formed active snapshot |
| TimerContext.LoadAgreesWithServer | client/src/contexts/TimerContext.js:182-204 | on load, a running session shows what the server would store if paused at that instant, a paused one the stored seconds (full duration if none); it runs iff running with time left |
| TimerContext.LoadAfterPauseAndResume | client/src/contexts/TimerContext.js:182-204 | a session paused on the server shows the paused seconds on any later load, and the same seconds right after a resume, running iff positive |
| TimerContext.CountdownReachesZero | client/src/contexts/TimerContext.js:113-145 | a running countdown of T seconds shows T-k after k < T callbacks and stops at exactly 0 after T, dropping the session only after a successful complete |
| TimerContext.StoppedStaysStopped | client/src/contexts/TimerContext.js:113-114 | without a running countdown with time left the callbacks change nothing |
| TimerContext.StartRequestValidity | client/src/contexts/TimerContext.js:40-45 | an untracked start with at least 60 s left is accepted for its type; with less it is refused by the server's validators |
| TimerContext.RestartAfterCountdownRefused | client/src/contexts/TimerContext.js:40-45 | after a countdown runs out and its session is completed, pressing start sends a 0-minute start that the server refuses |
| TimerContext.DefaultStartAccepted | client/src/contexts/TimerContext.js:40-45 | an untracked start from a type's default countdown is accepted for that type's whole default minutes |
| TimerContext.RefillThenStartAccepted | client/src/contexts/TimerContext.js:73-110 | after a successful stop, or after a reset or a switch while stopped with no tracked session, the next start asks for the type's full default length and is accepted; with a tracked session, the next start after a reset or a switch is a resume |
| TimerContext.ResumeAtZeroStalls | client/src/contexts/TimerContext.js:31-55 | resuming a tracked session whose countdown is 0 leaves the client running while no callback ever moves the countdown |
| TimerContext.TimerClient.constructor | client/src/contexts/TimerContext.js:16-20 | a stopped 25-minute focus countdown, no tracked session, counter 1 |
| TimerContext.TimerClient.StartTimer | client/src/contexts/TimerContext.js:31-55 | sends nothing while running, otherwise `StartRequest`; the new state is `AfterStart` of the old one |
| TimerContext.TimerClient.PauseTimer | client/src/contexts/TimerContext.js:58-70 | always sends the pause request; the countdown stops and nothing else changes |
| TimerContext.TimerClient.StopTimer | client/src/contexts/TimerContext.js:73-90 | asks to complete the tracked session if any; the new state is `AfterStop` |
| TimerContext.TimerClient.ResetTimer | client/src/contexts/TimerContext.js:93-99 | the new state is `AfterReset`: stopped, default countdown of the current type |
| TimerContext.TimerClient.SwitchTimerType | client/src/contexts/TimerContext.js:102-110 | rejected iff running; the new state is `AfterSwitch` |
| TimerContext.TimerClient.Tick | client/src/contexts/TimerContext.js:113-145 | asks to complete the tracked session exactly on the last second; the new state is `AfterTick` |
| TimerContext.TimerClient.CheckActiveSession | client/src/contexts/TimerContext.js:173-212 | the new state is `AfterLoad` of the old one and the snapshot |

## Left out

- Express routing, the authentication middleware and HTTP status codes: a handler's answer is a `Reply` value.
- The `express-validator` check that `taskId` is a well-formed ObjectId: task ids are natural numbers.
- Persistence failures. A `save()`, `find()` or aggregation that throws answers 500 in the source; the model's store never fails. The one exception modelled is a record the schema rejects (notes over 500 characters after trimming). There start answers `ServerError` after the prior session has been closed.
- Concurrency. Each request is one atomic step on the store, so the read-then-save races between requests are not modelled.
- `createdAt`/`updatedAt` timestamps, indexes, and `populate('task', ...)` in the listing.
- Query strings that are not numbers, and dates that do not parse. Listing receives `page`, `limit` and the date bounds as integers; an absent `page` or `limit` is passed as `DefaultPage` or `DefaultLimit`. `currentPage` echoes the page as a number, where the source echoes the query string.
- Listing ties. The store leaves the order of records with equal `startTime` open. The model keeps their store order (`Sorting.SortByStable`).
- Listing.ListSessions: a `limit` of 0 means no limit and reports no page count, standing for the source's `Infinity`/`NaN`.
- Stats.RollupByType: the per-type actual duration is kept as a sum of integer milliseconds, where the source sums floating-point minutes.
- Calendar arithmetic (`setHours`, `setMonth`, `setFullYear`, `$dateToString`, time zones): the period's lower bound and the day of an instant are parameters. Days are integers, so ascending date order is integer order.
- Strings are sequences of code points. JavaScript's UTF-16 length used by `maxlength` is not modelled.
- The client's network calls, `toast` messages, browser notifications, the `setInterval` handle and React rendering:
  - each request's outcome is a parameter;
  - the interval is the `Ticking` condition plus one `Tick` per elapsed second;
  - the `name` column of the `timerTypes` table appears only in toasts and is not modelled.
- TimerContext.TimerClient.SwitchTimerType: takes a `TimerType`, so a type name outside the table (a `TypeError` in the source) cannot be passed.
- `setSessionCount`: the client's counter setter is a plain assignment and is not modelled as a method. The counter is part of `ClientState`.
- client/src/components/Profile.js, client/src/components/Header.js, client/src/App.js and server/index.js are UI and bootstrap code and are not part of this model.
