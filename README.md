# Proctoring monitor and integrity report — a Dafny model

The system proctors a video interview. In the browser, the interview page watches three
signals: face-mesh landmarks, object-detector classes and the audio spectrum. It turns
them into flagged events: no face for 10 s, several faces, looking away for 5 s,
drowsiness for 3 s, background voice for 3 s, and a phone, book or extra device in view.
Each event is shown in a newest-first list and posted to the backend's log route. The
backend keeps interviews and their logs. On request it folds an interview's ordered log
into an integrity report: a score that starts at 100 and loses a fixed number of points
per flagged event type (clamped at 0), an itemised deduction list, a focus-lost count and
a duration. It also lists, finalises and deletes interviews.

The model has seven modules:

- `Common`: the `Option` and `Result` wrappers, ids and the HTTP error statuses the routes answer with.
- `Text`: JavaScript's `String.prototype.includes`, as `Contains`.
- `Scoring`: the report.
  - The penalty chain and the score fold, as a function and as the route's loop (`ComputeScore`).
  - The deduction list, the focus-lost count and the duration.
  - Lemmas tying them to independent reference definitions.
- `Store`: the backend's interview and log collections, as the class `SessionStore`.
  - Each route is a method that updates the two maps, or reads them and returns a result.
  - `Valid()` keeps every listed log present and owned by its interview.
- `Signals`: the per-sample classifiers.
  - The gaze check on landmarks, the drowsiness threshold and the audio loudness test.
  - The mapping from detected object classes to labels.
- `Debounce`: the per-signal debounce disciplines as pure step functions over a logical
  clock, with lemmas about whole runs of samples.
  - The sustained-duration timer: `Sample`, `Suspend`, `Expire`.
  - The multi-face edge trigger: `EdgeStep`.
- `Monitor`: the interview page's refs and state, as the class `Proctor`.
  - Fields: the session id, the on-screen list, what was posted, four timer refs, the multi-face flag and the object-detection busy flag.
  - Methods: one per callback (face-mesh results, timer expiry, object tick start and finish, audio tick), each tied to the `Debounce` step functions.

Timer refs are modelled as `Idle` (null), `Pending(deadline)` (a live timer) or `Stale`
(cleared by `clearTimeout` but not reset to null). A timer that fires nulls its own ref, so
the signal re-arms after every event (`Debounce.SustainedRunFlagsOnce`). A false sample
cancels the timer and nulls the ref. A face-mesh sample without exactly one face is
different: the gaze and drowsiness timers are cleared, but their refs are left set
(`Interview.jsx` line 123). `Debounce.StaleRefBlocksRearm` and
`Debounce.SuspendedTimerNeedsClearing` show the consequence. That signal cannot start a
timer or flag again until a one-face sample with its condition false resets the ref. If the
candidate comes back still looking away (or still drowsy), nothing is flagged for it.

Timer callbacks are `Proctor.OnTimer(t, now)` steps. The JavaScript event loop decides when
they run, so the model lets any interleaving of samples and callbacks happen. Wall-clock
time, the network, the camera, the microphone and the ML models are all inputs:

- the sample's time `now`;
- the face list and eye-aspect ratio;
- the detector's classes, or `None` when detection throws;
- the frequency bins, or `None` when there is no analyser yet;
- whether the upload succeeded, with its URL.

## Model

| member | source | states |
|---|---|---|
| Scoring.Penalty | Backend/Routes/logRoutes.js:116-125 | the first marker of the chain that the event type contains decides the points. The result is one of 0, 2, 3, 5, 7, 8, 10. A type containing `PHONE_DETECTED` costs 7 whatever else it holds. The result is 0 exactly when the type contains none of the eight markers |
| Scoring.TotalPenalty | Backend/Routes/logRoutes.js:115-131 | the points taken off over all logs: every penalised log costs between 2 and 10, so the total lies between twice and ten times the number of penalised logs (and is 0 when none is penalised) |
| Scoring.Deductions | Backend/Routes/logRoutes.js:127-130 | the breakdown pushed by the loop has exactly one line per penalised log |
| Scoring.PenalisedOneMore | Backend/Routes/logRoutes.js:115-131 | one more log adds one to the penalised count exactly when that log is penalised |
| Scoring.IntegrityScore | Backend/Routes/logRoutes.js:112-133 | the score is within [0, 100]. It is 0 exactly when the penalties total at least 100, and otherwise it is 100 minus their total |
| Scoring.ComputeScore | Backend/Routes/logRoutes.js:112-133 | the route's loop (a running score decremented per penalised log, deductions pushed in order, then the clamp) returns `IntegrityScore` and `Deductions` of the log list |
| Scoring.DeductionsArePenalisedLogs | Backend/Routes/logRoutes.js:127-130 | the breakdown has exactly one line per penalised log, in log order, and no lines for free logs. Line k carries the k-th penalised event type and minus its penalty |
| Scoring.PenalisedLogsAppend | Backend/Routes/logRoutes.js:115-131 | the penalised logs and their count split over concatenated log lists |
| Scoring.DeductionsSumToPenalty | Backend/Routes/logRoutes.js:127-130 | the breakdown's points add up to minus the total penalty, so the breakdown accounts for the whole drop from 100 before the clamp |
| Scoring.AppendOnlyLowersScore | Backend/Routes/logRoutes.js:112-133 | penalties add up over concatenated logs, the breakdown of a concatenation is the concatenation of the breakdowns, and appending logs never raises the score |
| Scoring.FocusLost | Backend/Routes/logRoutes.js:106-109 | the focus-lost filter: an event type containing `LOOKING_AWAY` or `NO_FACE_DETECTED` counts as focus lost, and such a type is also charged by the scoring loop |
| Scoring.FocusLostCount | Backend/Routes/logRoutes.js:106-110 | the count is at most the number of logs. It is 0 exactly when no event type contains `LOOKING_AWAY` or `NO_FACE` |
| Scoring.SessionDuration | Backend/Routes/logRoutes.js:96-101 | without an end time the session is in progress. With one, the minutes are the floor of the elapsed milliseconds over 60000 |
| Scoring.EmptyLogReport | Backend/Routes/logRoutes.js:106-133 | an interview with no logs scores 100, with no deductions and no focus lost |
| Scoring.FaceAndObjectLabelPenalties | Backend/Routes/logRoutes.js:106-122 | the labels the monitor emits for a phone, a book, looking away, no face and several faces cost 7, 5, 2, 5 and 10. Of these, exactly looking away and no face count as focus lost |
| Scoring.OtherLabelPenalties | Backend/Routes/logRoutes.js:106-125 | the drowsiness, background-voice and extra-device labels cost 5, 3 and 8, and none of them counts as focus lost |
| Scoring.ThreeLogs | Backend/Routes/logRoutes.js:106-131 | for a three-log list, the total, the breakdown and the focus count are the sums and concatenations of the per-log values, in log order |
| Scoring.RepeatedLog | Backend/Routes/logRoutes.js:115-131 | n copies of one log cost n times its penalty and give n times its breakdown lines |
| Scoring.ThreeEventReport | Backend/Routes/logRoutes.js:106-133 | a phone, a look away and an absence score 86. The breakdown is `-7`, `-2`, `-5` in that order, and the focus-lost count is 2 |
| Scoring.FiveMultipleFacesReport | Backend/Routes/logRoutes.js:115-133 | five several-faces events score 50, with five deduction lines |
| Text.Contains | Backend/Routes/logRoutes.js:108-125 | `String.prototype.includes`: a string only includes patterns no longer than itself |
| Text.PrefixContained | Backend/Routes/logRoutes.js:109 | a string that includes `p + q` includes `p`, so every type the detail route scores as `NO_FACE_DETECTED` is caught by the shorter `NO_FACE` filter |
| Store.InsertByStartKeepsOrder | Backend/Routes/logRoutes.js:81 | inserting a row into a list ordered by start time (latest first) keeps it ordered and adds exactly that row |
| Store.ListsInsert | Backend/Routes/logRoutes.js:81 | adding the next interview's row keeps the list exactly the rows of the interviews seen so far, once each |
| Store.SessionStore.constructor | Backend/Models/Interview.js:3-13 | an empty store satisfies the store invariant |
| Store.SessionStore.Start | Backend/Routes/logRoutes.js:9-13 | an empty candidate name fails schema validation (a server error) and writes nothing. Otherwise a fresh id maps to a record with the start time, no end time, score 100, an empty recording URL and no logs, and nothing else changes |
| Store.SessionStore.AppendLog | Backend/Routes/logRoutes.js:22-36 | a missing event type or interview id is a bad request and writes nothing. Otherwise a fresh log (candidate `TestUser`, the type, the time and the interview id) is saved and its id appended to that interview's log list. When no interview has that id the log is still saved and no interview changes. The store invariant is kept |
| Store.SessionStore.Finalize | Backend/Routes/logRoutes.js:46-67 | no file or no id is a bad request and an upload error is a server error, and neither changes anything. Otherwise the recording URL and end time of an existing interview are set (no effect for an unknown id), the URL is returned and the logs are untouched |
| Store.SessionStore.ListInterviews | Backend/Routes/logRoutes.js:79-82 | the rows are ordered by start time, latest first, and hold every stored interview exactly once with its stored record |
| Store.SessionStore.Resolve | Backend/Routes/logRoutes.js:91 | `populate`: resolving a list of log ids yields at most one log per id. When every id is stored, it yields exactly their logs, in list order |
| Store.SessionStore.GetDetail | Backend/Routes/logRoutes.js:89-140 | an unknown id is not found, and only then. Otherwise the response holds the record, its logs resolved in order (all of them, under the store invariant) and the duration. The focus-lost count, score and breakdown are those of the logs' event types |
| Store.SessionStore.Delete | Backend/Routes/logRoutes.js:148-156 | an unknown id is not found and changes nothing. Otherwise exactly the logs belonging to the interview are removed, then the interview itself, and the store invariant is kept |
| Signals.CheckGaze | Frontend/src/component/Interview.jsx:11-19 | `checkGaze`: the pose ratio is the nose's offset from the left ear over the ear-to-ear span, and "away" means below 0.3 or above 0.7. A zero span gives an infinity (away) or NaN (not away). A missing landmark gives "not away", so "away" needs all three landmarks |
| Signals.Drowsy | Frontend/src/component/Interview.jsx:120-121 | a sample is drowsy when its eye-aspect ratio is below 0.2. A ratio of 0 or less is always drowsy, and a drowsy ratio is always below the threshold |
| Signals.Loud | Frontend/src/component/Interview.jsx:165-166 | a sample is loud when the average bin level is above 30. An empty bin array (average NaN) is never loud |
| Signals.RatioOutsideBand | Frontend/src/component/Interview.jsx:16-19 | for a non-zero span, comparing the pose ratio with 0.3 and 0.7 is the same as comparing the nose offset with 30% and 70% of the span, for either sign of the span |
| Signals.GazeAwayOutsideBand | Frontend/src/component/Interview.jsx:11-20 | `checkGaze` never reports "away" when an ear or nose landmark is missing. With all three, it reports "away" exactly when the nose lies outside the middle 30–70% of the ear-to-ear span, including the zero-span case |
| Signals.LoudIff | Frontend/src/component/Interview.jsx:165-166 | a sample is loud (average bin above 30) exactly when it has bins and their total exceeds 30 per bin |
| Signals.AverageAbove | Frontend/src/component/Interview.jsx:165-166 | over a positive count, the average is above 30 exactly when the total exceeds 30 per item |
| Signals.QuietBinsBound | Frontend/src/component/Interview.jsx:165 | bins that are each at most 30 total at most 30 per bin |
| Signals.LoudNeedsALoudBin | Frontend/src/component/Interview.jsx:165-166 | a loud sample has at least one bin above 30 |
| Signals.DetectionEvents | Frontend/src/component/Interview.jsx:142-147 | the phone label is emitted iff a `cell phone` was detected and the book label iff a `book` was. The extra-device label is emitted iff a `laptop` or `tv` was. No other label is emitted and none twice |
| Debounce.Sample | Frontend/src/component/Interview.jsx:105-107 | one sample of a sustained-duration condition (the same shape at lines 116-117, 121-122 and 166-167). The ref ends null exactly when the condition is false. A live timer survives a true sample unchanged, and a new one is due `delay` after the sample. A stale ref stays stale exactly while samples stay true |
| Debounce.Suspend | Frontend/src/component/Interview.jsx:123 | `clearTimeout` without nulling: no timer is live afterwards, and the ref is null afterwards exactly when it was null before |
| Debounce.Expire | Frontend/src/component/Interview.jsx:106 | a timer callback (also at lines 116, 121 and 166): afterwards no timer is due. The ref changes only when a live timer was due, and then it becomes null |
| Debounce.EdgeStep | Frontend/src/component/Interview.jsx:109-110 | the multi-face flag becomes "more than one face". The label is flagged exactly when the flag turns on from off |
| Debounce.RunAppend | Frontend/src/component/Interview.jsx:105-123 | a run of stimuli over a concatenation is the first run followed by the second, and their event counts add up |
| Debounce.PendingHolds | Frontend/src/component/Interview.jsx:106 | while the condition keeps holding and no callback is yet due, a pending timer stays pending with the same deadline and nothing is flagged |
| Debounce.ShortRunFlagsNothing | Frontend/src/component/Interview.jsx:106 | a condition that starts and holds for less than the threshold flags nothing. Its timer is pending with deadline start + delay |
| Debounce.SustainedRunFlagsOnce | Frontend/src/component/Interview.jsx:106 | a condition held from its start until the callback at or after start + delay flags exactly once and leaves the ref null, so it can flag again |
| Debounce.InterruptedRunFlagsNothing | Frontend/src/component/Interview.jsx:107 | a false sample before the threshold cancels the timer. Nothing is flagged and the ref is null |
| Debounce.FlagsNeedTimers | Frontend/src/component/Interview.jsx:105-123 | over any run, the events flagged plus a timer still live at the end are at most the timers the run starts (steps that take a ref that is not live to a live one) plus a timer live at the start. So each timer flags at most once |
| Debounce.StaleRefBlocksRearm | Frontend/src/component/Interview.jsx:123 | from a stale ref, no run without a false sample ever starts a timer or flags anything |
| Debounce.SuspendedTimerNeedsClearing | Frontend/src/component/Interview.jsx:116-123 | a pending gaze or drowsiness timer suspended by a sample without exactly one face becomes stale and flags nothing. It re-arms only after a false one-face sample followed by a true one |
| Debounce.RisingEdgesPrefix | Frontend/src/component/Interview.jsx:109-110 | counting rising edges in a prefix gives the same count as in the whole list, up to that point |
| Debounce.EdgeRunCountsRisingEdges | Frontend/src/component/Interview.jsx:109-110 | the multi-face trigger flags exactly once per rising edge (a sample with several faces after one without). Its flag afterwards says whether the last sample had several faces |
| Debounce.SteadyCrowdFlagsOnce | Frontend/src/component/Interview.jsx:109-110 | while several faces stay in view, the trigger flags once if it was not already flagged, and never again |
| Debounce.EdgeExamples | Frontend/src/component/Interview.jsx:109-110 | face counts 2, 2 flag once, and 2, 1, 2 flag twice |
| Monitor.NewestFirst | Frontend/src/component/Interview.jsx:83-84 | rows flagged together at one instant appear newest first: row i shows the label flagged i places from the end |
| Monitor.NewestFirstAppend | Frontend/src/component/Interview.jsx:84 | flagging one more label puts its row at the top of the list |
| Monitor.TimerLabel | Frontend/src/component/Interview.jsx:106-121 | the label each timer callback flags (`NO_FACE_DETECTED (10s)`, `LOOKING_AWAY (5s)`, `DROWSINESS_DETECTED (3s)`, and at line 166 `BACKGROUND_VOICE (3s)`). The report charges them exactly 5, 2, 5 and 3 points, and counts exactly the no-face and looking-away labels as focus lost |
| Monitor.FlaggedLabelsArePenalised | Frontend/src/component/Interview.jsx:106-146 | every label the monitor flags is charged by the report: no face 5, looking away 2, drowsiness 5, background voice 3, several faces 10, and every object label a positive amount. Of the timer labels, exactly no face and looking away count as focus lost |
| Monitor.Proctor.constructor | Frontend/src/component/Interview.jsx:36-47 | no session, no events, all four timer refs null, not flagged, not detecting |
| Monitor.Proctor.Begin | Frontend/src/component/Interview.jsx:56-57 | the session id is set, and the posted log still mirrors the on-screen list |
| Monitor.Proctor.FlagEvent | Frontend/src/component/Interview.jsx:80-100 | without a session id nothing changes. Otherwise the event is put at the top of the on-screen list and appended to what is posted, which keeps the list the posted log in reverse |
| Monitor.Proctor.FlagAll | Frontend/src/component/Interview.jsx:144-146 | flagging labels one by one posts them in order and puts them newest first on top of the list (nothing without a session) |
| Monitor.Proctor.OnFaceMeshResults | Frontend/src/component/Interview.jsx:103-124 | the no-face timer follows "no face", and the multi-face trigger flags on a rising edge. With exactly one face, the gaze and drowsiness timers sample the gaze check and the EAR threshold. With any other count they are cleared but keep their refs. The audio timer and busy flag are unchanged |
| Monitor.Proctor.TrackFaceAbsence | Frontend/src/component/Interview.jsx:105-107 | the no-face ref takes the sustained-duration step with a 10 s delay |
| Monitor.Proctor.TrackMultipleFaces | Frontend/src/component/Interview.jsx:109-110 | the flag becomes "several faces", and the label is posted and shown only on a rising edge with a session |
| Monitor.Proctor.TrackGazeAndDrowsiness | Frontend/src/component/Interview.jsx:112-122 | the gaze ref takes the 5 s step and the drowsiness ref the 3 s step |
| Monitor.Proctor.SuspendGazeAndDrowsiness | Frontend/src/component/Interview.jsx:123 | live gaze and drowsiness timers are cleared, and their refs become stale, not null |
| Monitor.Proctor.OnTimer | Frontend/src/component/Interview.jsx:106 | a live timer whose deadline has come flags its label (posted and shown, with a session) and nulls its ref. A cleared or early timer does nothing. Other refs and flags are unchanged |
| Monitor.Proctor.Clear | Frontend/src/component/Interview.jsx:106 | a fired callback nulls its own ref (also at lines 116, 121 and 166) and leaves the other three refs as they were |
| Monitor.Proctor.ObjectTickStart | Frontend/src/component/Interview.jsx:153-155 | a detection starts exactly when the model and video are ready and none is in flight. A busy tick is skipped, and the busy flag is set iff a detection is in flight |
| Monitor.Proctor.ObjectTickFinish | Frontend/src/component/Interview.jsx:156-158 | a successful detection flags its labels in order, and an error flags nothing. Either way the busy flag is cleared |
| Monitor.Proctor.AudioTick | Frontend/src/component/Interview.jsx:161-168 | with an analyser, the audio ref takes the 3 s step on "average bin above 30". Without one it is unchanged |

## Left out

- The eye-aspect-ratio computation (`calculateEAR`, `getDistance`) is not modelled: it is floating-point geometry. `OnFaceMeshResults` takes the averaged ratio as an input, and only the `< 0.2` threshold is modelled.
- All arithmetic is exact (reals and unbounded integers), not IEEE doubles. The only NaN and infinity cases modelled are in the gaze check (a zero ear-to-ear span) and in the audio average of an empty array (NaN, never loud). A NaN eye-aspect ratio is not modelled.
- The seconds part of the duration string (`toFixed(0)` of the remainder) and the string formatting are left out. `SessionDuration` returns the whole minutes only.
- Rendering, toasts, routing, camera and microphone setup, recording (`MediaRecorder`) and the multipart upload from the page are left out as browser I/O. Finalisation is modelled on the backend side by `Finalize`.
- The page's start handler (the name check, then the start request) is reduced to `Proctor.Begin` with the returned id. A failed start request is not modelled.
- Log posting is fire-and-forget in the page: `posted` records what was sent, and a failed request is not modelled.
- `Monitor.Proctor.TrackMultipleFaces` updates `multiFaceFlagged` immediately. In the page it is React state read through a callback closure, so the callback runs with the value from the last render until the callback is re-registered; that render timing is not modelled.
- The order in which timer callbacks, interval ticks and face-mesh results interleave is left to the caller, and the 500 ms and 5 s interval cadences are not modelled.
- Face-mesh results with an undefined face list are treated as an empty list.
- Cloudinary, Mongoose and Express are not modelled. The upload outcome is an input, and MongoDB ObjectIds are natural numbers handed out by a counter. An id that does not parse as an ObjectId is not modelled. On the log, detail and delete routes that cast error is answered 500. On the upload-video route the update runs inside the upload callback, after the route's `try` has returned, so a failed update is an unhandled rejection and no response is sent at all. The generic 500 catch paths of every route are not modelled, except the start route's validation failure.
- `Store.SessionStore.GetDetail` returns the computed score in the response, but the stored `integrityScore` stays at its default of 100. The route never writes it, and neither does the model.
- Concurrent requests against the store are not modelled; each route runs atomically.
