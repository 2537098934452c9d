/** The timer engine of the current revision: per-category second counters,
    the running timer, the open session, the session history and the
    application-usage buffer of the running work session. Every operation is
    a pure transition; the wall-clock time `now` is an argument. The 1 s
    counter timer and the 5 s sampling timer are represented by the category
    the counter timer was scheduled for and by whether sampling is scheduled;
    their firings are the `Tick` and `SampleApp` transitions. */
module TimerEngine {
  import opened Models
  import opened Sorting
  import opened UsageTable
  import opened SessionStore
  import opened AppSampler

  datatype Accumulators = Accumulators(work: int, coffee: int, lunch: int) {

    function Get(c: TimerCategory): int {
      match c
      case Work => work
      case Coffee => coffee
      case Lunch => lunch
    }

    /** One more second for `c`, no change for the other two. */
    function Bump(c: TimerCategory): (r: Accumulators)
      ensures r.Get(c) == Get(c) + 1
      ensures forall d :: d != c ==> r.Get(d) == Get(d)
    {
      match c
      case Work => this.(work := work + 1)
      case Coffee => this.(coffee := coffee + 1)
      case Lunch => this.(lunch := lunch + 1)
    }
  }

  datatype Engine = Engine(
    seconds: Accumulators,
    activeCategory: Option<TimerCategory>,
    isTimerRunning: bool,
    timerSessions: History,
    currentSession: Option<TimerSession>,
    appUsages: Table,
    isAppTrackingEnabled: bool,
    countdown: Option<TimerCategory>,
    sampling: bool)

  /** A session as the engine closes it: an end time, a duration equal to the
      elapsed time, and usages tagged with the session's category and start. */
  predicate ClosedSession(s: TimerSession) {
    && s.endTime.Some?
    && s.duration == s.endTime.value - s.startTime
    && forall u :: u in s.appUsages ==> u.category == s.category && u.date == s.startTime
  }

  /** The invariant of every reachable state: running, active category and
      open session go together; the open session is fresh; the counter timer
      counts for the active category; only a work session samples or holds
      usages; the history holds closed sessions only. */
  predicate Valid(e: Engine) {
    && (e.isTimerRunning <==> e.activeCategory.Some?)
    && (e.currentSession.Some? <==> e.activeCategory.Some?)
    && (e.currentSession.Some? ==>
          e.currentSession.value.IsActive()
          && e.currentSession.value.category == e.activeCategory.value
          && e.currentSession.value.duration == 0
          && e.currentSession.value.appUsages == [])
    && e.countdown == e.activeCategory
    && (e.sampling ==> e.activeCategory == Some(Work))
    && (|e.appUsages| > 0 ==> e.activeCategory == Some(Work))
    && KeysDistinct(e.appUsages)
    && forall s :: s in e.timerSessions ==> ClosedSession(s)
  }

  /** Start-up: counters, history and the tracking setting as loaded, an
      empty usage buffer, nothing running and nothing scheduled. */
  function Init(seconds: Accumulators, loaded: History, tracking: bool): (r: Engine)
    ensures (forall s :: s in loaded ==> ClosedSession(s)) ==> Valid(r)
    ensures r.activeCategory.None? && r.currentSession.None?
    ensures r.seconds == seconds && r.timerSessions == loaded && r.isAppTrackingEnabled == tracking
    ensures r.appUsages == [] && !r.isTimerRunning && r.countdown.None? && !r.sampling
  {
    Engine(seconds, None, false, loaded, None, [], tracking, None, false)
  }

  /** `stopTimer`: with an open session, prepends exactly one closed session
      (same category and start, ended `now`, duration `now - start`, carrying
      the usage buffer tagged with the session's category and start) and
      empties the buffer; without one the history and the buffer stay. The
      counters never change; afterwards nothing runs. */
  function StopTimer(e: Engine, now: int): (r: Engine)
    ensures r.activeCategory.None? && !r.isTimerRunning && r.currentSession.None?
    ensures r.countdown.None? && !r.sampling
    ensures r.seconds == e.seconds && r.isAppTrackingEnabled == e.isAppTrackingEnabled
    ensures e.currentSession.None? ==> r.timerSessions == e.timerSessions && r.appUsages == e.appUsages
    ensures e.currentSession.Some? ==>
              var s := e.currentSession.value;
              && |r.timerSessions| == |e.timerSessions| + 1
              && r.timerSessions[1..] == e.timerSessions
              && r.timerSessions[0].category == s.category
              && r.timerSessions[0].startTime == s.startTime
              && r.timerSessions[0].endTime == Some(now)
              && r.timerSessions[0].duration == now - s.startTime
              && ClosedSession(r.timerSessions[0])
              && r.timerSessions[0].appUsages == ToUsages(e.appUsages, s.category, s.startTime)
              && SumBy(r.timerSessions[0].appUsages, UsageDuration) == SumBy(e.appUsages, EntrySeconds)
              && r.appUsages == []
    ensures Valid(e) ==> Valid(r)
  {
    match e.currentSession
    case None =>
      e.(isTimerRunning := false, activeCategory := None, countdown := None, sampling := false)
    case Some(s) =>
      var usages := ToUsages(e.appUsages, s.category, s.startTime);
      var closed := TimerSession(s.category, s.startTime, Some(now), now - s.startTime, usages);
      ToUsagesSum(e.appUsages, s.category, s.startTime);
      assert forall u :: u in usages ==> u.category == s.category && u.date == s.startTime;
      assert ClosedSession(closed);
      var h := [closed] + e.timerSessions;
      assert h[1..] == e.timerSessions;
      assert forall x :: x in h ==> x == closed || x in e.timerSessions;
      e.(isTimerRunning := false, activeCategory := None, countdown := None, sampling := false,
         timerSessions := h, currentSession := None, appUsages := [])
  }

  /** `startTimer(for:)`: stops whatever runs first (so its session is closed
      into the history), then opens a fresh session for `c` starting `now`
      and schedules the counter timer for `c`; sampling is scheduled, on an
      emptied buffer, exactly for a work timer with tracking enabled; the
      tracking setting stays. Otherwise the buffer is what stopping left,
      which in a valid state is empty. */
  function StartTimer(e: Engine, c: TimerCategory, now: int): (r: Engine)
    ensures r.activeCategory == Some(c) && r.isTimerRunning
    ensures r.currentSession == Some(TimerSession(c, now, None, 0, []))
    ensures r.timerSessions == StopTimer(e, now).timerSessions
    ensures r.seconds == e.seconds
    ensures r.countdown == Some(c)
    ensures r.isAppTrackingEnabled == e.isAppTrackingEnabled
    ensures r.sampling <==> e.isAppTrackingEnabled && c == Work
    ensures r.sampling ==> r.appUsages == []
    ensures !r.sampling ==> r.appUsages == StopTimer(e, now).appUsages
    ensures Valid(e) ==> r.appUsages == []
    ensures Valid(e) ==> Valid(r)
  {
    var stopped := StopTimer(e, now);
    var track := stopped.isAppTrackingEnabled && c == Work;
    stopped.(activeCategory := Some(c), isTimerRunning := true,
             currentSession := Some(TimerSession(c, now, None, 0, [])),
             appUsages := if track then [] else stopped.appUsages,
             sampling := track, countdown := Some(c))
  }

  /** One firing of the 1 s counter timer: exactly the counter of the
      category it was scheduled for grows by one; with no counter timer
      nothing changes. */
  function Tick(e: Engine): (r: Engine)
    ensures e.countdown.None? ==> r == e
    ensures e.countdown.Some? ==>
              && r.seconds.Get(e.countdown.value) == e.seconds.Get(e.countdown.value) + 1
              && (forall c :: c != e.countdown.value ==> r.seconds.Get(c) == e.seconds.Get(c))
              && r == e.(seconds := r.seconds)
    ensures Valid(e) ==> Valid(r)
  {
    match e.countdown
    case None => e
    case Some(c) => e.(seconds := e.seconds.Bump(c))
  }

  /** One firing of the 5 s sampling timer with the frontmost application as
      input: the usage buffer takes the sample as `trackCurrentApp` does, so
      an identified application gains five seconds under its first recorded
      name; without a scheduled sampling timer nothing changes. */
  function SampleApp(e: Engine, front: Option<FrontApp>): (r: Engine)
    ensures !e.sampling ==> r == e
    ensures e.sampling ==> r == e.(appUsages := r.appUsages)
    ensures e.sampling ==> r.appUsages == TrackCurrentApp(e.appUsages, front)
    ensures e.sampling ==> SumBy(r.appUsages, EntrySeconds)
                           == SumBy(e.appUsages, EntrySeconds) + (if Identified(front) then SampleSeconds else 0)
    ensures Valid(e) ==> Valid(r)
  {
    if e.sampling then e.(appUsages := TrackCurrentApp(e.appUsages, front)) else e
  }

  /** `resetAllTimers`: stops first, then all three counters are zero; the
      history keeps every session it had, the tracking setting stays, and the
      usage buffer is what stopping leaves (empty in a valid state). */
  function ResetAllTimers(e: Engine, now: int): (r: Engine)
    ensures forall c :: r.seconds.Get(c) == 0
    ensures r.timerSessions == StopTimer(e, now).timerSessions
    ensures forall s :: s in e.timerSessions ==> s in r.timerSessions
    ensures r.activeCategory.None? && r.currentSession.None? && !r.isTimerRunning
    ensures r.countdown.None? && !r.sampling
    ensures r.isAppTrackingEnabled == e.isAppTrackingEnabled
    ensures r.appUsages == StopTimer(e, now).appUsages
    ensures Valid(e) ==> r.appUsages == []
    ensures Valid(e) ==> Valid(r)
  {
    var stopped := StopTimer(e, now);
    assert forall s :: s in e.timerSessions ==> s in stopped.timerSessions by {
      if e.currentSession.Some? {
        assert stopped.timerSessions == [stopped.timerSessions[0]] + e.timerSessions;
      }
    }
    stopped.(seconds := Accumulators(0, 0, 0))
  }

  /** `getCurrentTimerSeconds`: the running category's counter; when idle,
      the largest of the three. */
  function CurrentTimerSeconds(e: Engine): (r: int)
    ensures e.activeCategory.Some? ==> r == e.seconds.Get(e.activeCategory.value)
    ensures e.activeCategory.None? ==>
              (forall c :: r >= e.seconds.Get(c)) && exists c :: r == e.seconds.Get(c)
  {
    match e.activeCategory
    case Some(c) => e.seconds.Get(c)
    case None =>
      var w, k, l := e.seconds.work, e.seconds.coffee, e.seconds.lunch;
      assert w == e.seconds.Get(Work) && k == e.seconds.Get(Coffee) && l == e.seconds.Get(Lunch);
      if w >= k && w >= l then w else if k >= l then k else l
  }

  /** Stopping twice is stopping once. */
  lemma StopIsIdempotent(e: Engine, t1: int, t2: int)
    ensures StopTimer(StopTimer(e, t1), t2) == StopTimer(e, t1)
  {
  }

  /** Sessions without an end time. */
  function OpenIn(h: History): (r: History)
    ensures forall s :: s in r <==> s in h && s.IsActive()
  {
    if |h| == 0 then []
    else
      assert h == [h[0]] + h[1..];
      (if h[0].IsActive() then [h[0]] else []) + OpenIn(h[1..])
  }

  /** All open sessions the engine knows of: those in the history and the
      current one. */
  function OpenSessions(e: Engine): History {
    OpenIn(e.timerSessions) + (if e.currentSession.Some? && e.currentSession.value.IsActive() then [e.currentSession.value] else [])
  }

  /** An external command, each with the time it happens at. */
  datatype Command =
    | Start(category: TimerCategory, at: int)
    | Stop(at: int)
    | Reset(at: int)
    | CountdownTick
    | Sample(front: Option<FrontApp>)
    | SetTracking(enabled: bool)

  function Step(e: Engine, cmd: Command): (r: Engine)
    ensures Valid(e) ==> Valid(r)
  {
    match cmd
    case Start(c, t) => StartTimer(e, c, t)
    case Stop(t) => StopTimer(e, t)
    case Reset(t) => ResetAllTimers(e, t)
    case CountdownTick => Tick(e)
    case Sample(f) => SampleApp(e, f)
    case SetTracking(b) => e.(isAppTrackingEnabled := b)
  }

  function Run(e: Engine, cmds: seq<Command>): Engine
    decreases |cmds|
  {
    if |cmds| == 0 then e else Run(Step(e, cmds[0]), cmds[1..])
  }

  /** Whatever commands arrive, at most one session is open at any time, and
      it is the current one. */
  lemma {:induction false} AtMostOneOpenSession(e: Engine, cmds: seq<Command>)
    requires Valid(e)
    ensures Valid(Run(e, cmds))
    ensures |OpenSessions(Run(e, cmds))| <= 1
    ensures OpenIn(Run(e, cmds).timerSessions) == []
    decreases |cmds|
  {
    if |cmds| > 0 {
      AtMostOneOpenSession(Step(e, cmds[0]), cmds[1..]);
    } else {
      NoOpenInClosedHistory(e.timerSessions);
    }
  }

  lemma {:induction false} NoOpenInClosedHistory(h: History)
    requires forall s :: s in h ==> ClosedSession(s)
    ensures OpenIn(h) == []
  {
    if |h| > 0 {
      assert h[0] in h;
      assert forall s :: s in h[1..] ==> s in h;
      NoOpenInClosedHistory(h[1..]);
    }
  }
}
