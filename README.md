# Mouse jiggler: a verified model of its decision logic

The jiggler nudges the mouse cursor in a small circle every so often, so that the screen does
not lock. It only does this when the screen is not already locked and the user has been idle
long enough. It comes as two programs: `move.py` (a `Move` class, a saved settings file,
command-line options) and `simple.py` (positional arguments, a fixed circle). Both run the same
polling loop. On each pass the loop:

1. skips the pass when the screen is locked;
2. skips it when the idle time is below the threshold;
3. moves the cursor when at least `interval` seconds have passed since the last movement;
4. waits otherwise.

The time of the last movement starts at 0 and changes only when the cursor moves.

This project models that logic in Dafny and proves what it promises:

- `basics.dfy` (module `Basics`): `Option`, `Result`, screen points, and the iteration count
  of a Python `range(n)`.
- `tick.dfy` (module `Tick`): the per-pass decision `Step` and its fold over a run,
  `Decisions` and `LastMove`. It also holds the properties of a run:
  - movements are spaced at least `interval` apart;
  - a locked pass or an active pass never moves;
  - the first pass that gets past both guards at a clock reading of at least `interval` moves;
  - when both probes fail on every pass and the idle threshold is positive, the cursor never
    moves; with a threshold of 0 it can;
  - a failed lock probe reads as "not locked" and lets the pass through.
- `circle.dfy` (module `Circle`): the shape of one movement. It is a run of circle targets,
  then a move back to the start. A movement cut short by an error stops at that call.
- `move_app.dfy` (module `MoveApp`) models `move.py`:
  - the `Move` class with its `running` flag and its geometry fields;
  - `LoadSettings`, which merges the defaults into the file's record in place;
  - `MoveMouseCircle` and the `Run` loop;
  - the interval selection and validation of `main`;
  - `Start`, which is `main` as a whole.
- `simple_app.dfy` (module `SimpleApp`) models `simple.py`: the argument defaults, `Jiggle`
  and the polling loop `SimpleMain`.

These are parameters, not modelled behaviour:

- The outside world answers each pass through an `Observation`. It holds the clock, the lock
  probe and the idle probe, the cursor position when a movement starts, and the index of the
  cursor call at which the cursor library raises, if it does. A failed probe is `None`. It then
  reads as "not locked" or as "0 seconds idle", the fallback values of `is_screen_locked` and
  `get_idle_time`.
- The end of the observation sequence stands for the user's Ctrl+C.
- The clock and the idle time are real numbers. The interval and the threshold are integers.
- The circle offsets (radius times cosine and sine, truncated) are computed in floating point,
  so they are an `OffsetFn` parameter.

What the proofs show about the code as written:

- The spacing between movements does not depend on a non-decreasing clock. A movement happens
  only when `now - last_move_time >= interval`, so any two movements are at least `interval`
  apart whatever the clock does in between (`Tick.MovesSpaced`).
- The two probes fall back in opposite directions. A failed idle probe reads as 0 seconds idle,
  so with a positive threshold a pass that gets past the lock check is skipped as "active".
  When both probes fail on every pass, the cursor never moves (`Tick.ProbeFailureNeverMoves`).
  A failed lock probe, in contrast, reads as "not locked" and lets the pass through: with a
  locked screen, a failed lock probe and a working idle probe at or above the threshold, the
  pass goes on to the interval check and can move (`Tick.FailedLockProbeLetsPassThrough`).
- `move.py` rejects an interval with any negative part, even when the total is positive
  (`-m 2 -s -30`). `simple.py` checks only the total (`SimpleApp.Interval`).

## Model

| member | source | states |
|---|---|---|
| `Tick.Step` | move.py:229-255 | A pass moves exactly when the screen is not locked, idle time is at least the threshold, and `now - last >= interval`. A locked screen gives SkipLocked whatever else holds. An unlocked screen with idle time below the threshold gives SkipActive. A pass waits exactly when eligible but not yet due. The last-move time becomes `now` on a move and is unchanged otherwise. |
| `Tick.MoveExactlyWhenDue` | simple.py:157-164 | Pass `j` of a run moves iff both guards pass and `interval` has elapsed since the last movement before it. The last-move time after the pass is then the pass's time, and unchanged otherwise. |
| `Tick.LockedPassNeverMoves` | move.py:233-236 | A pass that finds the screen locked takes SkipLocked and leaves the last-move time unchanged. |
| `Tick.ActivePassNeverMoves` | move.py:239-243 | A pass that finds the screen unlocked and idle time below the threshold takes SkipActive and leaves the last-move time unchanged. |
| `Tick.LastMoveMonotone` | move.py:247-252 | With a non-negative interval, the last-move time never decreases from one prefix of a run to a longer one. |
| `Tick.MovesSpaced` | move.py:247-252 | With a non-negative interval, any two passes of a run that move have clock readings at least `interval` apart. The clock does not need to be non-decreasing. |
| `Tick.RunSpaced` | move.py:245-252 | With a non-negative interval, in the whole action sequence of a run, every two moving passes saw clock readings at least `interval` apart. |
| `Tick.NoMoveKeepsInitial` | move.py:225-252 | A run in which no pass moves ends with the last-move time still at its initial value 0. |
| `Tick.DecisionsPrefix` | move.py:225-255 | Stopping the loop after `k` passes gives exactly the first `k` actions of the longer run: a pass's action depends only on the passes before it. |
| `Tick.FirstEligiblePassMoves` | simple.py:137-162 | Since the last-move time starts at 0, the first pass that gets past both guards with a clock reading of at least `interval` moves. |
| `Tick.FailedLockProbeLetsPassThrough` | move.py:79-104 | A pass whose lock probe fails is treated as unlocked: with idle time at or above the threshold and the interval elapsed since the last movement, it moves and the last-move time becomes its clock reading. |
| `Tick.ProbeFailureNeverMoves` | move.py:48-104 | When both probes fail on every pass (fallbacks: not locked, 0 seconds idle) and the threshold is positive, every pass is SkipActive, so nothing ever moves. |
| `Circle.PathShape` | move.py:179-195 | A movement that does not fail visits the `count` circle targets in order, then moves back to exactly the start (`count + 1` moves). One that fails at call `k` has made exactly the first `k` circle moves and no move back. |
| `Circle.PassFailedMeansCut` | move.py:179-202 | A pass that moves is cut short by an error exactly when the failing cursor call is one of its `steps` circle moves (none when `steps` is not positive) or the move back to the start. |
| `MoveApp.Move.constructor` | move.py:132-137 | A new jiggler is stopped, with radius 25, 20 steps and a 30 second idle threshold. |
| `MoveApp.Move.LoadSettings` | move.py:139-161 | Every default key is present afterwards. Keys from the file keep their file values. No file key is removed, and the keys are exactly the file's plus the defaults'. Keys added from the defaults carry the default values. With a missing or unreadable file the result is exactly the defaults. |
| `MoveApp.Move.MoveMouseCircle` | move.py:175-202 | The targets are the `circle_steps` circle points (none when `running` is already false or the step count is not positive), then the start position. An error from the cursor library stops the targets at that call and clears `running`. Otherwise `running` is unchanged. |
| `MoveApp.Move.Pass` | move.py:229-255 | One pass takes the action `Step` gives and advances the last-move time as `Step` says. It sends the cursor along the `MoveMouseCircle` path only when it moves. Afterwards `running` is cleared exactly when that movement failed. |
| `MoveApp.Move.Poll` | move.py:225-255 | Pass after pass, the loop takes the actions `Decisions` gives for the observations it consumed, and each moving pass sends the cursor along its `MoveMouseCircle` path. It ends with `running` cleared exactly right after a failed movement, and otherwise only when every observation is consumed. |
| `MoveApp.Move.Run` | move.py:204-259 | The loop takes, pass by pass, the actions `Decisions` gives for the observations it consumed. Each moving pass sends the cursor along its `MoveMouseCircle` path. The loop stops early exactly right after a failed movement, and otherwise consumes every observation; `stopped` says which. Movements are at least the interval apart. `running` is false at the end. With the save flag it writes the interval and the current geometry. |
| `MoveApp.SelectInterval` | move.py:296-311 | With `--load` the saved interval is used. The saved interval is also used when the command line comes to 0m 0s, which includes giving neither `-m` nor `-s`. Otherwise the command line's values are used, a missing part counting as 0. |
| `MoveApp.ValidateInterval` | move.py:313-320 | The interval is accepted iff both parts are non-negative and the total in seconds is positive. It is rejected as negative exactly when a part is negative. |
| `MoveApp.ResolveConfig` | move.py:293-336 | The run is refused exactly when validation refuses the selected interval. Otherwise it runs with that interval, whose total is positive. Radius, steps and idle threshold come from the command line where given, else from the settings. |
| `MoveApp.IntervalPositive` | move.py:171-173 | Non-negative minutes and seconds, not both zero, give a positive number of seconds. |
| `MoveApp.SaveThenLoad` | move.py:209-217 | A record written by `--save` loads back unchanged. A later `--load` run with no other option then resumes with exactly the saved configuration when its interval is valid. |
| `MoveApp.Start` | move.py:261-342 | The program refuses to start exactly when the resolved configuration is invalid, and reports that error. Otherwise it runs with the resolved configuration and a positive interval. The loop's actions are `Decisions` of the observations, the paths are the circle paths of the configured geometry, and any two movements are at least that interval apart. The loop consumes every observation unless a movement failed; in that case it ends right after that pass, which is the only failed one, and the report's `stopped` flag says so. |
| `SimpleApp.ParseArguments` | simple.py:123-125 | Minutes, seconds and idle threshold are the first three arguments. A missing one defaults to 1, 0 and 30 respectively. |
| `SimpleApp.Jiggle` | simple.py:111-119 | Without an error the movement is exactly 21 moves: the 20 circle targets of radius 25 in order, then the start, so the last target equals the start. With an error it stops after exactly the moves before the call that raised. |
| `SimpleApp.SimpleMain` | simple.py:121-167 | The program refuses to start exactly when `minutes*60 + seconds <= 0`. Otherwise its actions are `Decisions` of the observations with that interval and threshold. Each moving pass sends the cursor along its jiggle path. It ends as crashed only after at least one pass, right after the failed jiggle, which is the only failed one. Interrupted means every observation was consumed. Any two movements are at least the interval apart. |

## Left out

- Dependency installation through pip (move.py:18-46, simple.py:11-29): process I/O.
- The platform probes (`ioreg`, `xprintidle`, `gnome-screensaver-command`, the Windows calls): these are OS and foreign calls. Only their results and their fallback values (0 seconds idle, not locked) are modelled, as `Observation` fields.
- `show_activity_indicator`: visual feedback with no decision logic. It swallows its own errors. It also leaves the cursor at the screen centre, so the start of the following movement is just the cursor position the observation reports.
- The circle coordinates: floating-point cosine, sine and `int()` truncation are kept abstract as `OffsetFn`.
- `time.sleep`, the wall-clock meaning of `time.time()`, and all printed messages.
- A Ctrl+C in the middle of a pass: it is modelled only between passes, as the end of the observations.
- Reading and writing the JSON settings file and its path: only the resulting record is modelled, as `SettingsFile`. An I/O error on save only prints a warning, and the model reports the record that would be written.
- Settings values that are not integers, and a file holding valid JSON that is not an object: the model's record maps strings to integers.
- The key order of the settings record: Dafny maps are unordered.
- argparse, and `int()` conversion errors of simple.py's arguments: the model starts from already-parsed integers.
- The `--radius` help text states a default of 10, while the code uses 25. Only the code's value is modelled.
- `pyautogui.position()` failing inside `move_mouse_circle`: it has the same effect as an error at the first cursor call (no move, `running` cleared), and the model expresses it that way.
- The `running` check in `move_mouse_circle`: the check before each circle step can only see the value `running` had on entry, because nothing else runs concurrently. The model therefore stops a movement early only when `running` was already false, or at a failing call.
