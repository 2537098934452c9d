/** The earlier engine revision: the same counters and running timer, but
    sessions without application usages and no sampling. Each operation is
    stated against the current engine: lifting the earlier state into the
    current one (no usages, tracking off) commutes with every operation, so
    the current revision with tracking disabled behaves exactly like the
    earlier one. */
module LegacyEngine {
  import opened Models
  import opened Calendar
  import opened SessionStore
  import TimerEngine

  /** The earlier revision's own session record. */
  datatype Session = Session(category: TimerCategory, startTime: int, endTime: Option<int>, duration: int) {
    predicate IsActive() { endTime.None? }
  }

  datatype State = State(
    seconds: TimerEngine.Accumulators,
    activeCategory: Option<TimerCategory>,
    isTimerRunning: bool,
    timerSessions: seq<Session>,
    currentSession: Option<Session>,
    countdown: Option<TimerCategory>)

  /** An earlier session as a current one: the same fields, no usages. */
  function LiftSession(s: Session): (r: TimerSession)
    ensures r.appUsages == [] && (r.IsActive() <==> s.IsActive())
  {
    TimerSession(s.category, s.startTime, s.endTime, s.duration, [])
  }

  function LiftHistory(h: seq<Session>): (r: History)
    ensures |r| == |h|
    ensures forall i :: 0 <= i < |h| ==> r[i] == LiftSession(h[i])
  {
    if |h| == 0 then [] else [LiftSession(h[0])] + LiftHistory(h[1..])
  }

  function Lift(l: State): TimerEngine.Engine {
    TimerEngine.Engine(
      l.seconds, l.activeCategory, l.isTimerRunning, LiftHistory(l.timerSessions),
      match l.currentSession case None => None case Some(s) => Some(LiftSession(s)),
      [], false, l.countdown, false)
  }

  /** `stopTimer`: without an open session the history stays; with one,
      exactly one closed session (same category and start, ended `now`,
      duration `now - start`) goes in front and the open session is gone.
      This is the current engine's stop on the lifted state. */
  function StopTimer(l: State, now: int): (r: State)
    ensures Lift(r) == TimerEngine.StopTimer(Lift(l), now)
    ensures r.currentSession.None? && r.activeCategory.None? && !r.isTimerRunning
    ensures l.currentSession.None? ==> r.timerSessions == l.timerSessions
    ensures l.currentSession.Some? ==>
              var s := l.currentSession.value;
              && |r.timerSessions| == |l.timerSessions| + 1
              && r.timerSessions[1..] == l.timerSessions
              && r.timerSessions[0] == Session(s.category, s.startTime, Some(now), now - s.startTime)
  {
    match l.currentSession
    case None =>
      l.(isTimerRunning := false, activeCategory := None, countdown := None)
    case Some(s) =>
      var closed := Session(s.category, s.startTime, Some(now), now - s.startTime);
      var r := l.(isTimerRunning := false, activeCategory := None, countdown := None,
                  timerSessions := [closed] + l.timerSessions, currentSession := None);
      assert LiftHistory(r.timerSessions) == [LiftSession(closed)] + LiftHistory(l.timerSessions);
      r
  }

  /** `startTimer(for:)`: stops first, then a single open session for `c`
      starting `now`, and the counter timer runs for `c`. */
  function StartTimer(l: State, c: TimerCategory, now: int): (r: State)
    ensures Lift(r) == TimerEngine.StartTimer(Lift(l), c, now)
    ensures r.activeCategory == Some(c) && r.isTimerRunning
    ensures r.currentSession == Some(Session(c, now, None, 0))
    ensures r.timerSessions == StopTimer(l, now).timerSessions
  {
    StopTimer(l, now).(activeCategory := Some(c), isTimerRunning := true,
                       currentSession := Some(Session(c, now, None, 0)), countdown := Some(c))
  }

  /** One firing of the counter timer. */
  function Tick(l: State): (r: State)
    ensures Lift(r) == TimerEngine.Tick(Lift(l))
    ensures l.countdown.Some? ==> r.seconds.Get(l.countdown.value) == l.seconds.Get(l.countdown.value) + 1
  {
    match l.countdown
    case None => l
    case Some(c) => l.(seconds := l.seconds.Bump(c))
  }

  /** `resetAllTimers`: stops, then all three counters are zero. */
  function ResetAllTimers(l: State, now: int): (r: State)
    ensures Lift(r) == TimerEngine.ResetAllTimers(Lift(l), now)
    ensures forall c :: r.seconds.Get(c) == 0
  {
    StopTimer(l, now).(seconds := TimerEngine.Accumulators(0, 0, 0))
  }

  /** `getCurrentTimerSeconds`: the active counter, or the largest when idle. */
  function CurrentTimerSeconds(l: State): (r: int)
    ensures r == TimerEngine.CurrentTimerSeconds(Lift(l))
    ensures l.activeCategory.Some? ==> r == l.seconds.Get(l.activeCategory.value)
    ensures l.activeCategory.None? ==>
              (forall c :: r >= l.seconds.Get(c)) && exists c :: r == l.seconds.Get(c)
  {
    match l.activeCategory
    case Some(c) => l.seconds.Get(c)
    case None =>
      var w, k, u := l.seconds.work, l.seconds.coffee, l.seconds.lunch;
      assert w == l.seconds.Get(Work) && k == l.seconds.Get(Coffee) && u == l.seconds.Get(Lunch);
      if w >= k && w >= u then w else if k >= u then k else u
  }

  /** The earlier revision's day queries are the current ones over its lifted
      history: the day view and the cleared history split it, and clearing a
      day leaves every other day's view untouched. */
  lemma DayQueriesPartition(h: seq<Session>, d: int, e: int)
    ensures multiset(SessionsForDate(LiftHistory(h), d)) + multiset(ClearSessionsForDate(LiftHistory(h), d))
            == multiset(LiftHistory(h))
    ensures StartOfDay(e) != StartOfDay(d) ==>
              SessionsForDate(ClearSessionsForDate(LiftHistory(h), d), e) == SessionsForDate(LiftHistory(h), e)
  {
    DayPartition(LiftHistory(h), d);
    ClearIsolatesDays(LiftHistory(h), d, e);
  }
}
