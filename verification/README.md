# Look-away tracker and session bookkeeping, modelled in Dafny

This project models the decision logic of a small look-away monitoring
application in two parts.

The first part is the head-pose detector's debounce rule. For every detected
face the detector reads a yaw value and the clock, then updates four
variables: a left counter, a right counter, the latched direction
(`forward`, `left` or `right`) and the time of the last counted look-away.
The cooldown is 1 second. A look-away counts only when all three of these
hold: the yaw is strictly beyond ±0.2, the yaw points to a side that is not
latched, and strictly more than the cooldown has passed. A yaw in the
closed band [-0.2, 0.2] only re-arms the latch to `forward`.

The second part is the web application's session bookkeeping over the
progress table: `start_session`, `update_lookaway`, `end_session` and the
dashboard query.

Files:

- `gaze.dfy` (module `Gaze`): the tracker state, the classification of a yaw,
  the event condition, and the per-face `Step`, written branch for branch.
- `gaze_runs.dfy` (module `GazeRuns`): the rule folded over the faces of a
  frame and over sequences of frames, the times at which look-aways are
  counted, and the run-level lemmas.
- `sessions.dfy` (module `Sessions`): the progress records, the cookie
  session, and the four routes. Each route is a pure function from the table
  and session to a new table, a new session and a reply.
- `session_props.dfy` (module `SessionProperties`): a consistency invariant,
  its preservation, and properties that chain routes together.
- `wrappers.dfy` (module `Wrappers`): `Option`, used for the session keys.

Modelling choices:

- Yaw values and clock readings are exact `real`s. The yaw is an input.
  Computing it from facial landmarks is not part of this model.
- A frame is the sequence of its faces' readings, in detection order. A frame
  in which no face was found is the empty sequence.
- The progress table is a `map<int, Progress>`. `StartSession` receives the
  new row's primary key as `freshId`, with the requirement that the key is not
  in use. This requirement stands for the database's guarantee. `FreshId`
  models how the table picks that key: one more than the largest key, or 1
  when the table is empty.
- A redirect leaves the table and the session unchanged. The reply records
  where it redirects.
- If a bound, existing record has no `session_start_time`, `end_session`
  raises a key error before anything is written. This is modelled as
  `ServerError` with no change. `SessionProperties.ValidEndNeverFails` shows
  that this cannot happen in a consistent state.
- `end_session` does not clamp a negative duration.
- A look-away update with no bound session redirects to the login page.
- The code keeps no combined look-away count, score or leaderboard, so none
  is modelled.
- The debounce guarantees hold without assuming that clock readings are
  non-decreasing. Counters never decrease, each step adds at most one, and
  consecutive counted look-aways are more than the cooldown apart. The last
  guarantee holds because the last-look-away time changes only when a
  look-away is counted.

## Model

| member | source | states |
|---|---|---|
| Gaze.Init | head_pose_detection.py:11-15 | The detector starts with both counters at zero, latched forward, and its clock at `start`. The cooldown test fails exactly for clock readings up to `start` + 1 s. |
| Gaze.Step | head_pose_detection.py:80-89 | Both counters never decrease, and their total grows by at most one. The total grows exactly when the yaw classifies as a side other than the latched one and strictly more than the cooldown has passed. When it grows, only that side's counter rises, the latch moves to that side and the clock is recorded. Otherwise the counters and the clock stay put, and the latch becomes `forward` for an in-band yaw and stays as it was for any other yaw. |
| Gaze.RightTurnCounts | head_pose_detection.py:80-83 | For yaw > 0.2 with the latch not `right` and the cooldown strictly exceeded, the right count rises by one, the latch becomes `right`, the clock is recorded, and the left count is unchanged. |
| Gaze.LeftTurnCounts | head_pose_detection.py:84-87 | The mirror case for yaw < -0.2: the left count rises by one, the latch becomes `left`, the clock is recorded, and the right count is unchanged. |
| Gaze.BandOnlyResetsLatch | head_pose_detection.py:88-89 | A yaw in the closed band, including exactly 0.2 and -0.2, only sets the latch to `forward`. Counters and clock are unchanged. |
| Gaze.SuppressedTurnIsInert | head_pose_detection.py:80-89 | An out-of-band yaw toward the latched side, or one within the cooldown, changes nothing. |
| Gaze.DirectSwitchCounts | head_pose_detection.py:80-87 | A switch from one side straight to the other, with no forward reading between, counts once the cooldown has passed. |
| GazeRuns.ProcessFaces | head_pose_detection.py:68-89 | Processing a frame's faces never lowers either counter, and raises the total by at most the number of faces. |
| GazeRuns.Monitor | head_pose_detection.py:57-68 | The frame loop never lowers either counter. It raises their total by at most the number of face readings across all frames. |
| GazeRuns.FacelessFramesIgnored | head_pose_detection.py:66-68 | Dropping every frame without a detected face leaves the outcome of monitoring unchanged. |
| GazeRuns.MonitorIsFlatRun | head_pose_detection.py:57-89 | Monitoring a sequence of frames is the same as processing all their face readings in order. |
| GazeRuns.ProcessFacesAppend | head_pose_detection.py:68-89 | Processing two sequences of readings one after the other equals processing their concatenation. |
| GazeRuns.EventCount | head_pose_detection.py:80-87 | The list of counted look-away times has exactly as many entries as the counters' total increase over the run. |
| GazeRuns.LastEventIsClock | head_pose_detection.py:80-87 | After a run, the last-look-away time is the last counted look-away's time. It is the starting value when nothing was counted. |
| GazeRuns.EventSpacing | head_pose_detection.py:80-87 | The first counted look-away comes strictly more than the cooldown after the starting clock. Each later one comes strictly more than the cooldown after the one before it. This holds for any clock readings. |
| GazeRuns.EventsBoundedByChangesFrom | head_pose_detection.py:80-89 | The number of counted look-aways is at most the number of classification changes from a reference direction. One more is allowed when the latch differs from that direction. |
| GazeRuns.EventsBoundedByChanges | head_pose_detection.py:80-89 | A run counts no more look-aways than the number of changes in the yaw classification, measured from the latched direction. |
| GazeRuns.NoEarlyLookAway | head_pose_detection.py:11-15 | From the initial state (zero counts, `forward`, clock at start), readings no later than start + 1 s leave the state exactly as it began. |
| GazeRuns.MonitorEventSpacing | head_pose_detection.py:57-89 | The spacing and counting guarantees carry over to sequences of frames. |
| GazeRuns.OppositeTurnsBothCount | head_pose_detection.py:80-87 | A right turn, then a left turn 1.1 s later, with the first more than 1 s after start, gives one count on each side. |
| GazeRuns.QuickRepeatCountsOnce | head_pose_detection.py:80-89 | Two right turns 0.5 s apart count once, even with a forward reading between them. |
| Sessions.FreshId | app.py:78-82 | The key given to a new record is not in use. It is 1 for an empty table and otherwise one more than the largest key. |
| Sessions.StartSession | app.py:67-84 | With no logged-in user, the call redirects to login and changes nothing. Otherwise it adds exactly one new record with time 0, count 0 and the session user as owner. It binds the session to that record and to `now`, keeps the user, and leaves every other record untouched. |
| Sessions.EndSession | app.py:87-105 | Without both keys bound, nothing changes. If the bound record exists, its time becomes `now - start` with no clamping, and its count and owner stay the same. The timing keys are then removed and the user is kept. A missing record only unbinds. Other records are untouched. |
| Sessions.UpdateLookaway | app.py:108-121 | Without both keys bound, the call redirects and changes nothing. Otherwise it always reports success and never changes the session. If the bound record exists, its count rises by exactly one, and its time, its owner and all other records stay the same. If the record is missing, nothing changes. |
| Sessions.Dashboard | app.py:58-64 | Without a user, the call redirects. Otherwise it returns exactly the records whose owner is the session user, as stored. Nothing is written. |
| SessionProperties.InitialValid | app.py:27-31 | A client with no session keys, over a table with no negative look-away count, is in a consistent state. |
| SessionProperties.StartPreservesValid | app.py:73-83 | Starting a session keeps the invariant: counts are non-negative, the timing keys are bound together and only for a user, and the bound record exists and belongs to the session user. |
| SessionProperties.EndPreservesValid | app.py:93-103 | Ending a session keeps the invariant. |
| SessionProperties.UpdatePreservesValid | app.py:114-119 | Counting a look-away keeps the invariant. |
| SessionProperties.OtherStartPreservesValid | app.py:73-83 | Another client's `start_session` on the shared table keeps this client's invariant: the new row takes an id that this client's binding cannot name. |
| SessionProperties.OtherEndPreservesValid | app.py:93-103 | Another client's `end_session` on the shared table keeps this client's invariant. |
| SessionProperties.OtherUpdatePreservesValid | app.py:114-119 | Another client's `update_lookaway` on the shared table keeps this client's invariant. |
| SessionProperties.ValidEndNeverFails | app.py:93-98 | In a consistent state, ending a session never hits a missing start time. |
| SessionProperties.UpdateAfterEndIsNoop | app.py:102-111 | After an `end_session` that did not fail, a look-away update redirects to login and changes nothing. |
| SessionProperties.EndWithMonotoneClock | app.py:97-98 | If `now` is not earlier than the start time, the recorded duration is non-negative. |
| SessionProperties.BackwardClockWritesNegative | app.py:97-98 | A clock that goes backward (start 10, end 4) writes a duration of -6. |
| SessionProperties.LookawaysCount | app.py:114-119 | `n` updates on a bound, existing record raise its count by `n`. The session, the set of keys and every other record are unchanged. |
| SessionProperties.SessionRoundTrip | app.py:67-121 | Start, `n` look-away updates, then end yields a record with the elapsed clock time, `n` look-aways and the session user as owner. The session is left logged in with no timing keys, the record shows on the user's dashboard, and all other records are unchanged. |
| SessionProperties.DashboardsDisjoint | app.py:63 | Dashboards of two different users share no record. |

## Left out

- The yaw computation from facial landmarks (camera intrinsics and a perspective-n-point solve). It is floating-point geometry in an external vision library, and the model takes the yaw as an input `real`.
- Camera capture, the face overlay, on-screen text, window display and key handling. These are input/output and user interface only.
- Floating-point rounding of yaw values and timestamps. The model uses exact reals.
- HTTP routing, templates, the secret key and the session lifetime. Expiry of a cookie session after 30 minutes would drop all of its keys, and this is not modelled.
- Registration and login. Password hashing and checking are external calls, and username uniqueness is enforced by the database. A login as a second user rebinds `user_id` without clearing `current_session_id`. The invariant `SessionProperties.Valid` is therefore proved only for the modelled routes: the client's own start, update and end, and the same three routes called by other clients on the shared table.
- Database details. Commits, transactions and I/O failures are out of scope, and the table is an abstract map. `Sessions.FreshId` does not model the database's fallback to a random key once the largest key reaches 2^63 - 1. Look-away counts are unbounded integers and do not wrap at 64 bits.
- Concurrent requests and lost updates between sessions. The model treats each request as an atomic transition.
- The detector script never sends a request to the look-away route. Events counted by `Gaze.Step` and updates made by `Sessions.UpdateLookaway` are modelled separately.
