# CountdownTimer — a verified model of the timer state machine

`CountdownTimer` is an Android widget that counts down to an absolute clock
time, `base`. It notifies a registered `CountdownTimerListener` on each of these:

- `start`;
- `stop`;
- each periodic tick;
- once when the time elapsed since the start reaches `elapsedTimeLimit` seconds;
- once when the time remaining drops to `remainingTimeLimit` seconds;
- when `base` is reached. The timer then stops itself and fires `onFinished`.

This project models the widget's state machine. That means its fields, its
public operations, the tick listener and the getters. It proves what the
widget promises about them.

The model has two modules.

- `TimerSpec` (`timer_spec.dfy`) is the value-level specification.
  - `Timer` holds every field as a value. The getters are functions of a
    `Timer` and a clock reading `now` in milliseconds.
  - Each operation is a function returning a `Step`: the new timer plus the
    listener callbacks fired, as `Event`s, in firing order.
  - `Apply` and `Run` drive a sequence of `Op`s. The model delivers ticks
    only while the timer is running: a tick that arrives while it is stopped
    does nothing. "## Left out" says where the widget can differ.
  - The lemmas state the listener contract. The elapsed-time,
    remaining-time and finished callbacks fire at most once per run. A tick
    fires its callbacks in a fixed order. A countdown finishes exactly once
    when `base` is reached. A stopped timer stays silent.
- `CountdownTimers` (`countdown_timer.dfy`) is the object itself.
  - `class CountdownTimer` has the widget's mutable fields and a ghost
    `trace` of the callbacks made so far.
  - Every method mirrors the widget's own statements and is proved equal to
    the matching `TimerSpec` transition, through `Snapshot()`.
  - The tick listener's three guarded checks are the methods
    `CheckElapsed`, `CheckRemaining` and `CheckFinished`. `Tick` runs them
    in order and then fires `onTick`.

Decisions where the code settles a question:

- `base` is an absolute clock time, not a duration. `setInitialTime(ms)`
  assigns `ms` to the widget's base. `start(ms)` is `setInitialTime(ms)`
  followed by the body of `start()`.
- `getElapsedTimeSec()` and `getRemainingTimeSec()` use
  `TimeUnit.MILLISECONDS.toSeconds`, which truncates toward zero.
  - A remaining time of -500 ms is therefore 0 s, not -1 s.
  - `ToSeconds` models this explicitly, because Dafny's `/` is Euclidean.
  - Floor division and truncation agree only for non-negative times. For a
    negative time they differ by one second, and the model truncates.
- `stop()` has no guard, so stopping twice fires `onStop` twice.
- Finishing calls `stop()`, so `onStop` fires before `onFinished` on the
  final tick.
- `start()` has no guard either. Starting a running timer re-arms both
  latches and fires `onStart` again.

## Model

Source paths are relative to the repository root. All rows cite
`CountdownTimer/src/main/java/com/romeug/countdowntimer/CountdownTimer.kt`.

| member | source | states |
|---|---|---|
| TimerSpec.ToSeconds | CountdownTimer/src/main/java/com/romeug/countdowntimer/CountdownTimer.kt:204 | milliseconds to whole seconds truncated toward zero: for non-negative input `s*1000 <= ms < s*1000+1000`, for negative input `s*1000-1000 < ms <= s*1000` |
| TimerSpec.ToSecondsMonotone | CountdownTimer/src/main/java/com/romeug/countdowntimer/CountdownTimer.kt:204 | the seconds conversion is monotone |
| TimerSpec.NewTimer | CountdownTimer/src/main/java/com/romeug/countdowntimer/CountdownTimer.kt:15-23 | a new timer is stopped, both latches armed, no start time, limits 60 s and 90 s, the no-op listener |
| TimerSpec.ElapsedTimeMs | CountdownTimer/src/main/java/com/romeug/countdowntimer/CountdownTimer.kt:196-197 | 0 before any start; after a start, negative exactly when the clock reads before the start time |
| TimerSpec.ElapsedTimeSec | CountdownTimer/src/main/java/com/romeug/countdowntimer/CountdownTimer.kt:204 | whole seconds of the elapsed milliseconds, rounded toward zero in both signs |
| TimerSpec.RemainingTimeMs | CountdownTimer/src/main/java/com/romeug/countdowntimer/CountdownTimer.kt:211 | not clamped: at most 0 exactly when `base` is reached, negative exactly when it has passed |
| TimerSpec.RemainingTimeSec | CountdownTimer/src/main/java/com/romeug/countdowntimer/CountdownTimer.kt:218 | whole seconds left, at most 0 once `base` is reached, rounded toward zero in both signs |
| TimerSpec.TickTimer | CountdownTimer/src/main/java/com/romeug/countdowntimer/CountdownTimer.kt:51-74 | a tick clears exactly the latches whose threshold is due, stops the timer exactly when `base <= now`, changes nothing else, and always ends with `onTick` |
| TimerSpec.TickFiresElapsed | CountdownTimer/src/main/java/com/romeug/countdowntimer/CountdownTimer.kt:54-59 | a tick fires `onTimeElapsed` once if its latch is armed and the elapsed seconds have reached the limit, otherwise not at all |
| TimerSpec.TickFiresRemaining | CountdownTimer/src/main/java/com/romeug/countdowntimer/CountdownTimer.kt:61-66 | a tick fires `onTimeRemaining` once if its latch is armed and the remaining seconds are down to the limit, otherwise not at all |
| TimerSpec.TickFinishes | CountdownTimer/src/main/java/com/romeug/countdowntimer/CountdownTimer.kt:68-71 | a tick fires `onStop` and `onFinished` once each when `base <= now`, otherwise neither |
| TimerSpec.TickAlwaysTicks | CountdownTimer/src/main/java/com/romeug/countdowntimer/CountdownTimer.kt:73 | every tick fires `onTick` exactly once and never `onStart` |
| TimerSpec.TickIsGuardedCalls | CountdownTimer/src/main/java/com/romeug/countdowntimer/CountdownTimer.kt:51-74 | the callbacks of a tick are the three guarded calls in source order, then `onTick` |
| TimerSpec.TickCallbacksInOrder | CountdownTimer/src/main/java/com/romeug/countdowntimer/CountdownTimer.kt:51-74 | within one tick the callbacks come in strictly increasing order elapsed, remaining, stop, finished, tick |
| TimerSpec.ApplyOneShot | CountdownTimer/src/main/java/com/romeug/countdowntimer/CountdownTimer.kt:54-71 | any operation other than `start` fires a one-shot callback only if its latch was armed, and leaves it cleared |
| TimerSpec.RunningTickOneShot | CountdownTimer/src/main/java/com/romeug/countdowntimer/CountdownTimer.kt:54-71 | a tick of a running timer fires `onTimeElapsed`, `onTimeRemaining` or `onFinished` only if its latch was armed, and leaves that latch cleared |
| TimerSpec.OneShotPerRun | CountdownTimer/src/main/java/com/romeug/countdowntimer/CountdownTimer.kt:54-71 | between two starts `onTimeElapsed`, `onTimeRemaining` and `onFinished` each fire at most once, and never once their latch is cleared |
| TimerSpec.SilentWhileStopped | CountdownTimer/src/main/java/com/romeug/countdowntimer/CountdownTimer.kt:149-153 | until the next start a stopped timer stays stopped and fires only the `onStop` of explicit stops |
| TimerSpec.RunningHasStartTime | CountdownTimer/src/main/java/com/romeug/countdowntimer/CountdownTimer.kt:106-115 | a running timer always has a start time |
| TimerSpec.ElapsedZeroBeforeFirstStart | CountdownTimer/src/main/java/com/romeug/countdowntimer/CountdownTimer.kt:196-197 | before the first start the elapsed time is 0 ms and 0 s whatever the clock reads |
| TimerSpec.TicksBeforeBaseKeepRunning | CountdownTimer/src/main/java/com/romeug/countdowntimer/CountdownTimer.kt:68-73 | ticks before `base` keep the timer running, each fires `onTick`, and none fires `onStop` or `onFinished` |
| TimerSpec.FinishesWhenBaseReached | CountdownTimer/src/main/java/com/romeug/countdowntimer/CountdownTimer.kt:68-73 | the first tick at or after `base` fires `onFinished` exactly once over the run, stops the timer, and ends with `onTick` |
| TimerSpec.StartAtThenFinish | CountdownTimer/src/main/java/com/romeug/countdowntimer/CountdownTimer.kt:129-140 | `start(ms)` then ticks up to `ms` finishes exactly once and stops |
| TimerSpec.StartWithPastBaseFinishesAtOnce | CountdownTimer/src/main/java/com/romeug/countdowntimer/CountdownTimer.kt:106-115 | `start()` keeps the existing `base`, so with an initial base already reached the first tick fires `onStop` and `onFinished` and stops |
| TimerSpec.StartAtIsSetThenStart | CountdownTimer/src/main/java/com/romeug/countdowntimer/CountdownTimer.kt:129-140 | `start(ms)` equals `setInitialTime(ms)` followed by `start()`, in state and callbacks |
| TimerSpec.StopTwice | CountdownTimer/src/main/java/com/romeug/countdowntimer/CountdownTimer.kt:149-153 | stopping twice fires `onStop` twice and the timer is stopped after each |
| TimerSpec.IsRunningAfter | CountdownTimer/src/main/java/com/romeug/countdowntimer/CountdownTimer.kt:225 | after one operation `isRunning()` holds iff it was a start, or it held before and the operation was neither a stop nor a tick at or after `base` |
| TimerSpec.RemainingLimitCoversCountdown | CountdownTimer/src/main/java/com/romeug/countdowntimer/CountdownTimer.kt:61-66 | a remaining-time limit covering the whole countdown fires `onTimeRemaining` on the first tick after `start(ms)` |
| TimerSpec.IsRunning | CountdownTimer/src/main/java/com/romeug/countdowntimer/CountdownTimer.kt:225 | no ensures of its own; `IsRunningAfter` states how each operation changes it |
| TimerSpec.StartTimer | CountdownTimer/src/main/java/com/romeug/countdowntimer/CountdownTimer.kt:106-115 | no ensures of its own; `CountdownTimer.Start` proves the method equal to it and states every field |
| TimerSpec.StartTimerAt | CountdownTimer/src/main/java/com/romeug/countdowntimer/CountdownTimer.kt:129-140 | no ensures of its own; `CountdownTimer.StartAt` proves the method equal to it, and `StartAtIsSetThenStart` shows it is `setInitialTime` then `start()` |
| TimerSpec.StopTimer | CountdownTimer/src/main/java/com/romeug/countdowntimer/CountdownTimer.kt:149-153 | no ensures of its own; `CountdownTimer.Stop` proves the method equal to it and states every field |
| TimerSpec.Apply | CountdownTimer/src/main/java/com/romeug/countdowntimer/CountdownTimer.kt:51-189 | no ensures of its own; one public operation, with ticks delivered only while running; `ApplyCallbacks` states its callbacks |
| TimerSpec.ApplyCallbacks | CountdownTimer/src/main/java/com/romeug/countdowntimer/CountdownTimer.kt:106-189 | a tick fires something iff the timer is running; `start` and `start(ms)` fire exactly `onStart`, `stop` exactly `onStop`, and the setters nothing |
| TimerSpec.SecondsMonotoneInClock | CountdownTimer/src/main/java/com/romeug/countdowntimer/CountdownTimer.kt:196-218 | as the clock advances the elapsed seconds never decrease and the remaining seconds never increase, so a threshold due at one reading stays due later |
| TimerSpec.RunningElapsedFromStart | CountdownTimer/src/main/java/com/romeug/countdowntimer/CountdownTimer.kt:106-140 | after any run, a running timer has a start time and its elapsed time is the clock minus that start time |
| CountdownTimers.CountdownTimer.constructor | CountdownTimer/src/main/java/com/romeug/countdowntimer/CountdownTimer.kt:15-23 | the fields start as `NewTimer` says and no callback has fired |
| CountdownTimers.CountdownTimer.Start | CountdownTimer/src/main/java/com/romeug/countdowntimer/CountdownTimer.kt:106-115 | running, latches re-armed, start time is the clock, `base`, limits and listener unchanged, `onStart` appended; equal to the spec transition |
| CountdownTimers.CountdownTimer.StartAt | CountdownTimer/src/main/java/com/romeug/countdowntimer/CountdownTimer.kt:129-140 | as `Start`, with `base` set to `ms` |
| CountdownTimers.CountdownTimer.Stop | CountdownTimer/src/main/java/com/romeug/countdowntimer/CountdownTimer.kt:149-153 | stopped, latches, start time and `base` kept, `onStop` appended |
| CountdownTimers.CountdownTimer.SetTimerListener | CountdownTimer/src/main/java/com/romeug/countdowntimer/CountdownTimer.kt:160-162 | only the listener changes; no callback |
| CountdownTimers.CountdownTimer.SetElapsedTimeLimit | CountdownTimer/src/main/java/com/romeug/countdowntimer/CountdownTimer.kt:169-171 | only the elapsed limit changes; a cleared latch stays cleared |
| CountdownTimers.CountdownTimer.SetRemainingTimeLimit | CountdownTimer/src/main/java/com/romeug/countdowntimer/CountdownTimer.kt:178-180 | only the remaining limit changes |
| CountdownTimers.CountdownTimer.SetInitialTime | CountdownTimer/src/main/java/com/romeug/countdowntimer/CountdownTimer.kt:187-189 | only `base` changes |
| CountdownTimers.CountdownTimer.CheckElapsed | CountdownTimer/src/main/java/com/romeug/countdowntimer/CountdownTimer.kt:54-59 | fires `onTimeElapsed` and clears its latch exactly when it is due |
| CountdownTimers.CountdownTimer.CheckRemaining | CountdownTimer/src/main/java/com/romeug/countdowntimer/CountdownTimer.kt:61-66 | fires `onTimeRemaining` and clears its latch exactly when it is due |
| CountdownTimers.CountdownTimer.CheckFinished | CountdownTimer/src/main/java/com/romeug/countdowntimer/CountdownTimer.kt:68-71 | at or after `base` stops the timer and fires `onStop` then `onFinished`; otherwise nothing |
| CountdownTimers.CountdownTimer.Tick | CountdownTimer/src/main/java/com/romeug/countdowntimer/CountdownTimer.kt:51-74 | the new fields and the appended callbacks are exactly those of `TickTimer` on the old fields |

## Left out

- The `Chronometer` superclass is not part of this model. This covers its
  text rendering, its tick scheduling, and what `super.start()` and
  `super.stop()` do. The model assumes ticks arrive only between a start
  and a stop, and `Apply` encodes that assumption.
- Assigning `base` (line 188) goes through the platform's base setter. On
  Android that setter also dispatches one tick to the tick listener
  (lines 51-74), even while the timer is stopped, and even before the first
  start. The model treats the assignment as plain and misses that tick.
  - On the widget, every `setInitialTime(ms)` therefore fires `onTick`.
  - Before that it fires `onTimeElapsed` or `onTimeRemaining` if that latch
    is armed and due at the new `base`, and then clears the latch. On a fresh
    widget, `setInitialTime(now + 60000)` fires `onTimeRemaining`, because
    60 <= 90.
  - If the new `base` is already reached, it also fires `onStop` and
    `onFinished`, and a running timer stops.
  - The members below state only what the model does.
- SetInitialTime: `CountdownTimer.SetInitialTime` and the `Op` of that name
  change only `base` and fire nothing. The widget's base setter can also
  fire the callbacks of that tick and stop the timer.
- StartAt: `CountdownTimer.StartAt` and `StartTimerAt` fire only `onStart`.
  On the widget, `start(ms)` first runs that tick (line 130) and only then
  fires `onStart` (line 137).
- Apply: a setter fires no callback in the model, and a tick is evaluated
  only while the timer is running. On the widget, `setInitialTime` runs a
  tick in any state.
- ApplyCallbacks: "the setters fire nothing" and "`start(ms)` fires exactly
  `onStart`" hold for the model only. On the widget, `setInitialTime` fires
  at least `onTick`, and `start(ms)` fires a tick before `onStart`.
- IsRunningAfter: the claim that a setter leaves `isRunning()` unchanged
  holds for the model only. On the widget, moving `base` of a running timer
  to a time already reached stops it through that tick (lines 68-69).
- SilentWhileStopped: holds only for the model's driver, which never ticks
  while stopped. On the widget, `setInitialTime` on a stopped timer fires
  at least `onTick`.
- OneShotPerRun: on the widget, `onFinished` can fire again when
  `setInitialTime` runs a tick after the timer has stopped. The
  `onTimeElapsed` and `onTimeRemaining` parts still hold, because their
  latches guard them.
- ApplyOneShot: the same `onFinished` gap as `OneShotPerRun`.
- The view constructors taking a `Context`, `AttributeSet` or style
  (lines 76-89) are left out, along with the `init` block that installs the
  tick listener (lines 91-93). The constructor takes the widget's initial
  `base` as a parameter instead.
- `SystemClock.elapsedRealtime()` is a parameter `now` in milliseconds.
  - The tick listener reads the clock up to three times. One reading per
    tick stands for all of them.
  - Clock monotonicity is not assumed. The lemmas hold for any readings.
- Listener callback bodies are client code. Each call is recorded as an
  `Event`, and a listener is kept only by identity. A listener that calls
  back into the timer during a callback is not modelled.
- Kotlin `Long` is 64-bit, but the model uses unbounded integers, so the
  wrap-around of `base - now` (line 211) and of `now - startTime` (line 197)
  is not modelled.
  - This needs `base`, a start time or a clock reading near ±2^63.
  - `base` is whatever the caller passes to `setInitialTime(ms)` or
    `start(ms)`. For example, `setInitialTime(Long.MIN_VALUE)` wraps the
    remaining time to a large positive value, while the finish check
    `base <= now` still holds.
  - The limits are only compared, never used in arithmetic, so they cannot
    overflow.
- The demo activity and the build files are UI glue and outside the timer
  state machine.

