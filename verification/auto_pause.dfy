/** Auto-pause: the engine's reaction to the lock monitor's reports, the
    work-hours test it depends on, and the composition of monitor and engine
    into one system step. Two flags carry information from a lock report to
    the next unlock report. A report is handled at the time of the signal
    that caused it. */
module AutoPause {
  import opened Models
  import opened Calendar
  import opened TimerEngine
  import LockMonitor

  /** The settings the auto-pause code can see. The last five are stored and
      loaded but no decision reads them. */
  datatype Config = Config(
    enableAutoPause: bool,
    pauseOutsideWorkHours: bool,
    includeWeekends: bool,
    workStartTime: int,
    workEndTime: int,
    onlyDuringWorkHours: bool,
    askBeforeResuming: bool,
    askToResumeAfterPause: bool,
    minimumPauseDurationSeconds: int,
    lunchThresholdMinutes: int)

  /** Agreement on every setting a decision reads. */
  predicate SameDecisionSettings(a: Config, b: Config) {
    && a.enableAutoPause == b.enableAutoPause
    && a.pauseOutsideWorkHours == b.pauseOutsideWorkHours
    && a.includeWeekends == b.includeWeekends
    && a.workStartTime == b.workStartTime
    && a.workEndTime == b.workEndTime
  }

  datatype Flags = Flags(wasWorkingBeforeLock: bool, pausedOutsideWorkHours: bool)

  const Cleared: Flags := Flags(false, false)

  /** `isCurrentlyInWorkHours`: on a work day (any day when weekends are
      included, otherwise Monday to Friday), the current hour and minute lie
      between those of the configured start and end, both ends included; the
      dates of the start and end settings and all seconds are ignored. So the
      window runs from the start minute's first second to the end minute's
      last second. */
  function IsCurrentlyInWorkHours(cfg: Config, now: int): (r: bool)
    ensures r <==>
              && (cfg.includeWeekends || (Weekday(now) != 1 && Weekday(now) != 7))
              && MinuteOfDay(cfg.workStartTime) * 60 <= SecondOfDay(now)
              && SecondOfDay(now) < MinuteOfDay(cfg.workEndTime) * 60 + 60
  {
    var isWeekend := Weekday(now) == 1 || Weekday(now) == 7;
    var isWorkDay := if cfg.includeWeekends then true else !isWeekend;
    if !isWorkDay then false
    else
      var current := Hour(now) * 60 + Minute(now);
      var start := Hour(cfg.workStartTime) * 60 + Minute(cfg.workStartTime);
      var end := Hour(cfg.workEndTime) * 60 + Minute(cfg.workEndTime);
      current >= start && current <= end
  }

  /** A window whose end lies before its start on the clock (an overnight
      window) contains no time at all. */
  lemma OvernightWindowIsEmpty(cfg: Config, now: int)
    requires MinuteOfDay(cfg.workEndTime) < MinuteOfDay(cfg.workStartTime)
    ensures !IsCurrentlyInWorkHours(cfg, now)
  {
  }

  /** The engine's `handleSystemLocked`: when in work hours with auto-pause on
      and any timer running, the timer is stopped and the lock is remembered;
      otherwise, outside work hours with a work timer running and the
      outside-hours option on, only the outside-hours flag is set and the
      timer keeps running. */
  function OnSystemLocked(e: Engine, flags: Flags, cfg: Config, now: int): (r: (Engine, Flags))
    ensures var stop := IsCurrentlyInWorkHours(cfg, now) && cfg.enableAutoPause && e.isTimerRunning;
            && r.0 == (if stop then StopTimer(e, now) else e)
            && r.1.wasWorkingBeforeLock == (stop || flags.wasWorkingBeforeLock)
            && r.1.pausedOutsideWorkHours ==
                 (flags.pausedOutsideWorkHours
                  || (!IsCurrentlyInWorkHours(cfg, now) && cfg.pauseOutsideWorkHours
                      && e.activeCategory == Some(Work) && e.isTimerRunning))
    ensures !IsCurrentlyInWorkHours(cfg, now) ==> r.0 == e
  {
    var inWorkHours := IsCurrentlyInWorkHours(cfg, now);
    var isWorkTimerRunning := e.activeCategory == Some(Work) && e.isTimerRunning;
    if inWorkHours && cfg.enableAutoPause && e.isTimerRunning then
      (StopTimer(e, now), flags.(wasWorkingBeforeLock := true))
    else if !inWorkHours && cfg.pauseOutsideWorkHours && isWorkTimerRunning then
      (e, flags.(pausedOutsideWorkHours := true))
    else
      (e, flags)
  }

  /** The engine's `handleSystemUnlocked`: a work timer starts again exactly
      when the lock had stopped a timer, auto-pause is on and the lock was
      too short to count; both flags are cleared on every path. */
  function OnSystemUnlocked(e: Engine, flags: Flags, cfg: Config, reason: AutoPauseReason, now: int): (r: (Engine, Flags))
    ensures r.1 == Cleared
    ensures flags.wasWorkingBeforeLock && cfg.enableAutoPause && reason == Ignored ==> r.0 == StartTimer(e, Work, now)
    ensures !(flags.wasWorkingBeforeLock && cfg.enableAutoPause && reason == Ignored) ==> r.0 == e
  {
    var resumed := if flags.wasWorkingBeforeLock && cfg.enableAutoPause && reason == Ignored
                   then StartTimer(e, Work, now) else e;
    (resumed, Flags(false, false))
  }

  /** Engine, auto-pause flags, lock monitor and settings together. */
  datatype System = System(engine: Engine, flags: Flags, monitor: LockMonitor.LockState, cfg: Config)

  predicate SystemValid(s: System) {
    Valid(s.engine) && LockMonitor.Consistent(s.monitor)
  }

  /** Hands one monitor report to the engine: no report changes nothing, a
      lock report runs the lock reaction and an unlock report runs the
      unlock reaction with the reported reason; the monitor and the settings
      stay as they are. */
  function Deliver(s: System, cb: LockMonitor.Callback, now: int): (r: System)
    ensures r.monitor == s.monitor && r.cfg == s.cfg
    ensures Valid(s.engine) ==> Valid(r.engine)
    ensures cb.NoCallback? ==> r == s
    ensures cb.OnLocked? ==> (r.engine, r.flags) == OnSystemLocked(s.engine, s.flags, s.cfg, now)
    ensures cb.OnUnlocked? ==> (r.engine, r.flags) == OnSystemUnlocked(s.engine, s.flags, s.cfg, cb.reason, now)
  {
    match cb
    case NoCallback => s
    case OnLocked =>
      var (e, f) := OnSystemLocked(s.engine, s.flags, s.cfg, now);
      s.(engine := e, flags := f)
    case OnUnlocked(_, reason) =>
      var (e, f) := OnSystemUnlocked(s.engine, s.flags, s.cfg, reason, now);
      s.(engine := e, flags := f)
  }

  /** One operating-system signal: the monitor moves, then its report (if
      any) reaches the engine. A lock signal while unlocked runs the lock
      reaction; an unlock signal while locked runs the unlock reaction with
      the lock's classified length; any other signal leaves everything but
      the monitor alone. */
  function SystemSignal(s: System, sig: LockMonitor.Signal, now: int): (r: System)
    ensures SystemValid(s) ==> SystemValid(r)
    ensures r.cfg == s.cfg
    ensures r.monitor == LockMonitor.Handle(s.monitor, sig, now).0
    ensures LockMonitor.IsLockSignal(sig) && !s.monitor.isLocked ==>
              (r.engine, r.flags) == OnSystemLocked(s.engine, s.flags, s.cfg, now)
    ensures !LockMonitor.IsLockSignal(sig) && s.monitor.isLocked && s.monitor.lockStartTime.Some? ==>
              var d := now - s.monitor.lockStartTime.value;
              (r.engine, r.flags) == OnSystemUnlocked(s.engine, s.flags, s.cfg, LockMonitor.Classify(d), now)
    ensures (LockMonitor.IsLockSignal(sig) && s.monitor.isLocked)
            || (!LockMonitor.IsLockSignal(sig) && !(s.monitor.isLocked && s.monitor.lockStartTime.Some?)) ==>
              r == s
  {
    var (m, cb) := LockMonitor.Handle(s.monitor, sig, now);
    Deliver(s.(monitor := m), cb, now)
  }

  /** The settings nobody reads make no difference to any signal's effect. */
  lemma UnusedSettingsIgnored(s: System, cfg2: Config, sig: LockMonitor.Signal, now: int)
    requires SameDecisionSettings(s.cfg, cfg2)
    ensures SystemSignal(s.(cfg := cfg2), sig, now) == SystemSignal(s, sig, now).(cfg := cfg2)
  {
    assert forall t :: IsCurrentlyInWorkHours(s.cfg, t) == IsCurrentlyInWorkHours(cfg2, t);
  }

  /** A lock at `t1` during work hours with auto-pause on, while a timer
      runs, and the matching unlock at `t2`: the session is closed at `t1`;
      a work timer runs again from `t2` exactly when the lock lasted under
      ten seconds, whatever category was running before; both flags end
      cleared. */
  lemma LockCycle(s: System, t1: int, t2: int, a: LockMonitor.Signal, b: LockMonitor.Signal)
    requires SystemValid(s) && s.monitor == LockMonitor.Unlocked && s.flags == Cleared
    requires s.engine.isTimerRunning && s.cfg.enableAutoPause && IsCurrentlyInWorkHours(s.cfg, t1)
    requires LockMonitor.IsLockSignal(a) && !LockMonitor.IsLockSignal(b)
    ensures var s1 := SystemSignal(s, a, t1);
            var s2 := SystemSignal(s1, b, t2);
            && s1.engine == StopTimer(s.engine, t1)
            && s2.flags == Cleared
            && s2.monitor == LockMonitor.Unlocked
            && s2.engine.timerSessions == StopTimer(s.engine, t1).timerSessions
            && s2.engine.timerSessions[0].endTime == Some(t1)
            && (s2.engine.activeCategory == Some(Work) <==> t2 - t1 < LockMonitor.MinimumLockDuration)
            && (s2.engine.activeCategory.Some? ==> s2.engine.currentSession.value.startTime == t2)
  {
  }

  /** A lock outside work hours never stops the timer, whatever the
      settings. */
  lemma OutsideHoursLockKeepsTimer(s: System, t: int, a: LockMonitor.Signal)
    requires LockMonitor.IsLockSignal(a) && !IsCurrentlyInWorkHours(s.cfg, t)
    ensures SystemSignal(s, a, t).engine == s.engine
  {
  }
}
