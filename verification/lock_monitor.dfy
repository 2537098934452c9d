/** The lock monitor: a two-state machine driven by six operating-system
    signals. Lock, sleep and screensaver start lock it; unlock, wake and
    screensaver stop unlock it. A lock signal while locked and an unlock
    signal while not locked are ignored. An unlock reports the lock's length
    in whole seconds and classifies it with the fixed thresholds below. The
    state update and the callback take effect together. */
module LockMonitor {
  import opened Models

  /** Locks shorter than this many seconds are ignored. */
  const MinimumLockDuration: int := 10

  /** Locks of at least this many seconds count as a lunch break. */
  const LunchThreshold: int := 10 * 60

  datatype LockState = LockState(isLocked: bool, lockStartTime: Option<int>)

  const Unlocked: LockState := LockState(false, None)

  datatype Signal =
    | ScreenLocked | SystemWillSleep | ScreensaverStarted
    | ScreenUnlocked | SystemDidWake | ScreensaverStopped

  predicate IsLockSignal(s: Signal) {
    s.ScreenLocked? || s.SystemWillSleep? || s.ScreensaverStarted?
  }

  /** What the monitor reports to its listener. */
  datatype Callback = NoCallback | OnLocked | OnUnlocked(duration: int, reason: AutoPauseReason)

  /** The pause reason for a lock of `d` seconds. */
  function Classify(d: int): (r: AutoPauseReason)
    ensures r == Ignored <==> d < MinimumLockDuration
    ensures r == CoffeeBreak <==> MinimumLockDuration <= d < LunchThreshold
    ensures r == LunchBreak <==> LunchThreshold <= d
  {
    if d < MinimumLockDuration then Ignored
    else if d < LunchThreshold then CoffeeBreak
    else LunchBreak
  }

  /** Ignored, coffee, lunch, in this order. */
  function Rank(r: AutoPauseReason): int {
    match r
    case Ignored => 0
    case CoffeeBreak => 1
    case LunchBreak => 2
  }

  /** A longer lock never gets a shorter kind of pause. */
  lemma ClassifyMonotone(d1: int, d2: int)
    requires d1 <= d2
    ensures Rank(Classify(d1)) <= Rank(Classify(d2))
  {
  }

  lemma ClassifyBoundaries()
    ensures Classify(9) == Ignored && Classify(10) == CoffeeBreak
    ensures Classify(599) == CoffeeBreak && Classify(600) == LunchBreak
  {
  }

  /** `isLocked` and a recorded start time go together. */
  predicate Consistent(st: LockState) {
    st.isLocked <==> st.lockStartTime.Some?
  }

  /** The monitor's `handleSystemLocked`: records `now` and reports the lock,
      unless already locked. */
  function HandleLocked(st: LockState, now: int): (r: (LockState, Callback))
    ensures st.isLocked ==> r == (st, NoCallback)
    ensures !st.isLocked ==> r.0 == LockState(true, Some(now)) && r.1.OnLocked?
  {
    if st.isLocked then (st, NoCallback)
    else (LockState(true, Some(now)), OnLocked)
  }

  /** The monitor's `handleSystemUnlocked`: when locked with a start time,
      reports the elapsed seconds and their classification and clears the
      lock; otherwise nothing happens. */
  function HandleUnlocked(st: LockState, now: int): (r: (LockState, Callback))
    ensures !st.isLocked || st.lockStartTime.None? ==> r == (st, NoCallback)
    ensures st.isLocked && st.lockStartTime.Some? ==>
              var d := now - st.lockStartTime.value;
              r == (Unlocked, OnUnlocked(d, Classify(d)))
  {
    match st.lockStartTime
    case Some(start) =>
      if st.isLocked then (Unlocked, OnUnlocked(now - start, Classify(now - start)))
      else (st, NoCallback)
    case None => (st, NoCallback)
  }

  function Handle(st: LockState, s: Signal, now: int): (r: (LockState, Callback))
    ensures Consistent(st) ==> Consistent(r.0)
  {
    if IsLockSignal(s) then HandleLocked(st, now) else HandleUnlocked(st, now)
  }

  /** All lock signals act alike, and so do all unlock signals. */
  lemma SignalsOfAKindAgree(a: Signal, b: Signal, st: LockState, now: int)
    requires IsLockSignal(a) == IsLockSignal(b)
    ensures Handle(st, a, now) == Handle(st, b, now)
  {
  }

  /** `currentLockDuration`: the seconds since the lock began, or none when
      not locked. */
  function CurrentLockDuration(st: LockState, now: int): (r: Option<int>)
    ensures r.Some? <==> st.isLocked && st.lockStartTime.Some?
    ensures r.Some? ==> r.value + st.lockStartTime.value == now
  {
    if st.isLocked && st.lockStartTime.Some? then Some(now - st.lockStartTime.value) else None
  }

  /** A signal with the time it arrives. */
  datatype Event = Event(signal: Signal, at: int)

  function Final(st: LockState, evs: seq<Event>): LockState
    decreases |evs|
  {
    if |evs| == 0 then st else Final(Handle(st, evs[0].signal, evs[0].at).0, evs[1..])
  }

  /** The callbacks a sequence of events produces, ignored signals left out. */
  function Emitted(st: LockState, evs: seq<Event>): seq<Callback>
    decreases |evs|
  {
    if |evs| == 0 then []
    else
      var (next, cb) := Handle(st, evs[0].signal, evs[0].at);
      (if cb.NoCallback? then [] else [cb]) + Emitted(next, evs[1..])
  }

  /** Lock and unlock reports alternate, starting with the kind that changes
      the state `locked` describes. */
  predicate Alternates(cs: seq<Callback>, locked: bool)
    decreases |cs|
  {
    |cs| == 0 ||
    ((if locked then cs[0].OnUnlocked? else cs[0].OnLocked?) && Alternates(cs[1..], !locked))
  }

  /** Over any sequence of signals the state stays consistent, and the
      listener sees lock and unlock reports strictly alternating: duplicate
      signals never produce a second report. */
  lemma {:induction false} ReportsAlternate(st: LockState, evs: seq<Event>)
    requires Consistent(st)
    ensures Consistent(Final(st, evs))
    ensures Alternates(Emitted(st, evs), st.isLocked)
    decreases |evs|
  {
    if |evs| > 0 {
      var (next, cb) := Handle(st, evs[0].signal, evs[0].at);
      ReportsAlternate(next, evs[1..]);
      if cb.NoCallback? {
        assert next == st;
        assert Emitted(st, evs) == Emitted(next, evs[1..]);
      } else {
        assert next.isLocked == !st.isLocked;
        assert Emitted(st, evs) == [cb] + Emitted(next, evs[1..]);
        assert ([cb] + Emitted(next, evs[1..]))[1..] == Emitted(next, evs[1..]);
      }
    }
  }

  /** A lock at `t1` followed by an unlock at `t2` reports `t2 - t1` seconds
      with its classification and returns to the unlocked state; in between
      the live duration counts from `t1`. */
  lemma LockThenUnlock(t1: int, t: int, t2: int, a: Signal, b: Signal)
    requires IsLockSignal(a) && !IsLockSignal(b)
    ensures var (locked, cb1) := Handle(Unlocked, a, t1);
            var (after, cb2) := Handle(locked, b, t2);
            && cb1 == OnLocked
            && CurrentLockDuration(locked, t) == Some(t - t1)
            && after == Unlocked
            && cb2 == OnUnlocked(t2 - t1, Classify(t2 - t1))
  {
  }
}
