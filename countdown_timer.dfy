/** The countdown timer object. Its fields are the ones the widget updates in
    place; the clock reading is an explicit `now` argument, and the calls made
    on the registered listener are appended to the ghost `trace`. Every method
    is proved against the value-level transition of the same name in TimerSpec. */
module CountdownTimers {
  import opened TimerSpec

  class CountdownTimer {
    var elapsedFlag: bool
    var remainingFlag: bool
    var state: TimerState
    var startTime: Option<int>
    var elapsedTimeLimit: int
    var remainingTimeLimit: int
    var listener: Listener
    /** Absolute clock time, in milliseconds, at which the countdown reaches zero. */
    var base: int
    /** Every listener callback made so far, oldest first. */
    ghost var trace: seq<Event>

    /** The fields of the timer as a value. */
    function Snapshot(): Timer
      reads this
    {
      Timer(state, elapsedFlag, remainingFlag, startTime, base, elapsedTimeLimit, remainingTimeLimit, listener)
    }

    /** A new timer: stopped, both latches armed, never started, default limits,
        the no-op listener. The initial `base` comes from the platform widget. */
    constructor (initialBase: int)
      ensures Snapshot() == NewTimer(initialBase)
      ensures state == Stopped && elapsedFlag && remainingFlag && startTime == None
      ensures elapsedTimeLimit == DefaultTimeElapsed && remainingTimeLimit == DefaultTimeRemaining
      ensures base == initialBase && listener == NoOpListener
      ensures trace == []
    {
      elapsedFlag := true;
      remainingFlag := true;
      state := Stopped;
      startTime := None;
      elapsedTimeLimit := DefaultTimeElapsed;
      remainingTimeLimit := DefaultTimeRemaining;
      listener := NoOpListener;
      base := initialBase;
      trace := [];
    }

    /** `start()`: runs the timer from the current `base`. */
    method Start(now: int)
      modifies this
      ensures state == Running && elapsedFlag && remainingFlag && startTime == Some(now)
      ensures base == old(base) && listener == old(listener)
      ensures elapsedTimeLimit == old(elapsedTimeLimit) && remainingTimeLimit == old(remainingTimeLimit)
      ensures trace == old(trace) + [OnStart]
      ensures Snapshot() == Apply(old(Snapshot()), Op.Start(now)).timer
    {
      state := Running;
      elapsedFlag := true;
      remainingFlag := true;
      trace := trace + [OnStart];
      startTime := Some(now);
    }

    /** `start(ms)`: sets `base` to `ms`, then does what `start()` does. */
    method StartAt(ms: int, now: int)
      modifies this
      ensures state == Running && elapsedFlag && remainingFlag && startTime == Some(now)
      ensures base == ms && listener == old(listener)
      ensures elapsedTimeLimit == old(elapsedTimeLimit) && remainingTimeLimit == old(remainingTimeLimit)
      ensures trace == old(trace) + [OnStart]
      ensures Snapshot() == Apply(old(Snapshot()), Op.StartAt(ms, now)).timer
    {
      SetInitialTime(ms);
      state := Running;
      elapsedFlag := true;
      remainingFlag := true;
      trace := trace + [OnStart];
      startTime := Some(now);
    }

    /** `stop()`: no guard, so every call fires `onStop`; latches, `base` and
        the start time are kept. */
    method Stop()
      modifies this
      ensures state == Stopped
      ensures elapsedFlag == old(elapsedFlag) && remainingFlag == old(remainingFlag)
      ensures startTime == old(startTime) && base == old(base) && listener == old(listener)
      ensures elapsedTimeLimit == old(elapsedTimeLimit) && remainingTimeLimit == old(remainingTimeLimit)
      ensures trace == old(trace) + [OnStop]
      ensures Snapshot() == Apply(old(Snapshot()), Op.Stop).timer
    {
      state := Stopped;
      trace := trace + [OnStop];
    }

    /** Replaces the listener; nothing else changes. */
    method SetTimerListener(l: Listener)
      modifies this
      ensures Snapshot() == old(Snapshot()).(listener := l) && trace == old(trace)
    {
      listener := l;
    }

    /** Sets the elapsed-time threshold (seconds); nothing else changes, and in
        particular a latch already cleared stays cleared. */
    method SetElapsedTimeLimit(sec: int)
      modifies this
      ensures Snapshot() == old(Snapshot()).(elapsedTimeLimit := sec) && trace == old(trace)
    {
      elapsedTimeLimit := sec;
    }

    /** Sets the remaining-time threshold (seconds); nothing else changes. */
    method SetRemainingTimeLimit(sec: int)
      modifies this
      ensures Snapshot() == old(Snapshot()).(remainingTimeLimit := sec) && trace == old(trace)
    {
      remainingTimeLimit := sec;
    }

    /** Sets `base`; nothing else changes. */
    method SetInitialTime(ms: int)
      modifies this
      ensures Snapshot() == old(Snapshot()).(base := ms) && trace == old(trace)
    {
      base := ms;
    }

    /** First check of a tick: `onTimeElapsed` fires, and its latch clears, when
        the latch is armed and the whole seconds since the start have reached
        the limit. */
    method CheckElapsed(now: int)
      modifies this
      ensures Snapshot() == old(Snapshot()).(elapsedFlag := old(elapsedFlag) && !TickChecks(old(Snapshot()), now).elapsedDue)
      ensures trace == old(trace) + if TickChecks(old(Snapshot()), now).elapsedDue then [OnTimeElapsed] else []
    {
      if elapsedFlag && ElapsedTimeSec(Snapshot(), now) >= elapsedTimeLimit {
        trace := trace + [OnTimeElapsed];
        elapsedFlag := false;
      }
    }

    /** Second check: `onTimeRemaining` fires, and its latch clears, when the
        latch is armed and the whole seconds left are down to the limit. */
    method CheckRemaining(now: int)
      modifies this
      ensures Snapshot() == old(Snapshot()).(remainingFlag := old(remainingFlag) && !TickChecks(old(Snapshot()), now).remainingDue)
      ensures trace == old(trace) + if TickChecks(old(Snapshot()), now).remainingDue then [OnTimeRemaining] else []
    {
      if remainingFlag && RemainingTimeSec(Snapshot(), now) <= remainingTimeLimit {
        trace := trace + [OnTimeRemaining];
        remainingFlag := false;
      }
    }

    /** Third check: once `base` is reached the timer stops (firing `onStop`)
        and then fires `onFinished`. */
    method CheckFinished(now: int)
      modifies this
      ensures Snapshot() == old(Snapshot()).(state := if old(base) <= now then Stopped else old(state))
      ensures trace == old(trace) + if old(base) <= now then [OnStop, OnFinished] else []
    {
      if base <= now {
        Stop();
        trace := trace + [OnFinished];
      }
    }

    /** The tick listener the widget calls once per period while running: the
        three checks, then `onTick`. The source reads the clock once per check;
        one reading `now` stands for all three. */
    method Tick(now: int)
      modifies this
      ensures Snapshot() == TickTimer(old(Snapshot()), now).timer
      ensures trace == old(trace) + TickTimer(old(Snapshot()), now).events
    {
      ghost var t0, tr0 := Snapshot(), trace;
      ghost var c := TickChecks(t0, now);
      CheckElapsed(now);
      ghost var tr1 := trace;
      assert TickChecks(Snapshot(), now).remainingDue == c.remainingDue;
      CheckRemaining(now);
      ghost var tr2 := trace;
      CheckFinished(now);
      ghost var tr3 := trace;
      trace := trace + [OnTick];
      assert Snapshot() == TickTimer(t0, now).timer;
      TickIsGuardedCalls(t0, now);
      ghost var a := if c.elapsedDue then [OnTimeElapsed] else [];
      ghost var b := if c.remainingDue then [OnTimeRemaining] else [];
      ghost var d := if c.finished then [OnStop, OnFinished] else [];
      assert tr1 == tr0 + a && tr2 == tr1 + b && tr3 == tr2 + d;
      AppendInSteps(tr0, a, b, d, [OnTick]);
    }
  }

  /** Appending four pieces one after the other appends their concatenation. */
  lemma AppendInSteps<T>(s: seq<T>, a: seq<T>, b: seq<T>, c: seq<T>, d: seq<T>)
    ensures s + a + b + c + d == s + (a + b + c + d)
  {
  }
}
