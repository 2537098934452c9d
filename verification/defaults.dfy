/** The settings store and `setDefaultsIfNeeded`: for each of twenty-four
    keys, in order, a default is written only when the key is absent. The two
    work-time defaults are today's 09:00 and 17:00. Reading a setting back
    follows the store's typed getters, which yield `false` or `0` for a
    missing key. */
module Defaults {
  import opened Calendar
  import AutoPause

  datatype Value = BoolV(b: bool) | IntV(i: int) | RealV(x: real) | DateV(t: int)

  /** The settings keys that have defaults. */
  datatype Key =
    | ShowSeconds
    | Use24Hour
    | ShowDate
    | LargeClockFontSize
    | IsAppTrackingEnabled
    | TargetWorkHours
    | WorkStartTime
    | WorkEndTime
    | IncludeWeekends
    | AutoStopOnInactivity
    | NotificationsEnabled
    | BreakReminderInterval
    | TrackOnlyProductiveApps
    | WarnUnproductiveApps
    | DataRetentionDays
    | WorkTimeMonitoringEnabled
    | ShowWorkProgressInStatusBar
    | EnableAutoPause
    | OnlyDuringWorkHours
    | MinimumPauseDurationSeconds
    | LunchThresholdMinutes
    | AskBeforeResuming
    | PauseOutsideWorkHours
    | AskToResumeAfterPause
  {
    /** The key under which the value is stored. */
    function Name(): string {
      match this
      case ShowSeconds => "TimeTracker_ShowSeconds"
      case Use24Hour => "TimeTracker_Use24Hour"
      case ShowDate => "TimeTracker_ShowDate"
      case LargeClockFontSize => "TimeTracker_LargeClockFontSize"
      case IsAppTrackingEnabled => "TimeTracker_IsAppTrackingEnabled"
      case TargetWorkHours => "TimeTracker_TargetWorkHours"
      case WorkStartTime => "TimeTracker_WorkStartTime"
      case WorkEndTime => "TimeTracker_WorkEndTime"
      case IncludeWeekends => "TimeTracker_IncludeWeekends"
      case AutoStopOnInactivity => "TimeTracker_AutoStopOnInactivity"
      case NotificationsEnabled => "TimeTracker_NotificationsEnabled"
      case BreakReminderInterval => "TimeTracker_BreakReminderInterval"
      case TrackOnlyProductiveApps => "TimeTracker_TrackOnlyProductiveApps"
      case WarnUnproductiveApps => "TimeTracker_WarnUnproductiveApps"
      case DataRetentionDays => "TimeTracker_DataRetentionDays"
      case WorkTimeMonitoringEnabled => "TimeTracker_WorkTimeMonitoringEnabled"
      case ShowWorkProgressInStatusBar => "TimeTracker_ShowWorkProgressInStatusBar"
      case EnableAutoPause => "TimeTracker_EnableAutoPause"
      case OnlyDuringWorkHours => "TimeTracker_OnlyDuringWorkHours"
      case MinimumPauseDurationSeconds => "TimeTracker_MinimumPauseDurationSeconds"
      case LunchThresholdMinutes => "TimeTracker_LunchThresholdMinutes"
      case AskBeforeResuming => "TimeTracker_AskBeforeResuming"
      case PauseOutsideWorkHours => "TimeTracker_PauseOutsideWorkHours"
      case AskToResumeAfterPause => "TimeTracker_AskToResumeAfterPause"
    }
  }

  type Store = map<Key, Value>

  /** Today's date at `hour`:00:00: for an hour of the clock, a time on the
      same day as `now`, exactly `hour` hours after its start. */
  function AtHour(now: int, hour: int): (r: int)
    ensures 0 <= hour < 24 ==> StartOfDay(r) == StartOfDay(now) && SecondOfDay(r) == hour * 3600
  {
    var d := StartOfDay(now);
    var r := d + hour * 3600;
    if 0 <= hour < 24 then
      StartOfDayUnique(r, d);
      r
    else r
  }

  /** The keys in the order their defaults are applied. */
  const KeyOrder: seq<Key> := [
    ShowSeconds,
    Use24Hour,
    ShowDate,
    LargeClockFontSize,
    IsAppTrackingEnabled,
    TargetWorkHours,
    WorkStartTime,
    WorkEndTime,
    IncludeWeekends,
    AutoStopOnInactivity,
    NotificationsEnabled,
    BreakReminderInterval,
    TrackOnlyProductiveApps,
    WarnUnproductiveApps,
    DataRetentionDays,
    WorkTimeMonitoringEnabled,
    ShowWorkProgressInStatusBar,
    EnableAutoPause,
    OnlyDuringWorkHours,
    MinimumPauseDurationSeconds,
    LunchThresholdMinutes,
    AskBeforeResuming,
    PauseOutsideWorkHours,
    AskToResumeAfterPause ]

  /** The default written for each key; the work times are today's. */
  function DefaultTable(now: int): (m: map<Key, Value>)
    ensures forall k :: k in m
  {
    var m := map[
      ShowSeconds := BoolV(true),
      Use24Hour := BoolV(false),
      ShowDate := BoolV(false),
      LargeClockFontSize := RealV(36.0),
      IsAppTrackingEnabled := BoolV(false),
      TargetWorkHours := IntV(8),
      WorkStartTime := DateV(AtHour(now, 9)),
      WorkEndTime := DateV(AtHour(now, 17)),
      IncludeWeekends := BoolV(false),
      AutoStopOnInactivity := BoolV(true),
      NotificationsEnabled := BoolV(false),
      BreakReminderInterval := IntV(60),
      TrackOnlyProductiveApps := BoolV(false),
      WarnUnproductiveApps := BoolV(false),
      DataRetentionDays := IntV(0),
      WorkTimeMonitoringEnabled := BoolV(true),
      ShowWorkProgressInStatusBar := BoolV(true),
      EnableAutoPause := BoolV(false),
      OnlyDuringWorkHours := BoolV(true),
      MinimumPauseDurationSeconds := IntV(10),
      LunchThresholdMinutes := IntV(10),
      AskBeforeResuming := BoolV(true),
      PauseOutsideWorkHours := BoolV(true),
      AskToResumeAfterPause := BoolV(true) ];
    forall k ensures k in m {
      EveryKeyHasADefault(k);
    }
    m
  }

  lemma EveryKeyHasADefault(k: Key)
    ensures k in KeyOrder
  {
  }

  /** Writes the default of `k` when it is absent: afterwards `k` is
      present with its old value or its default, and every other key is as
      it was. */
  function SetIfAbsent(s: Store, k: Key, now: int): (r: Store)
    ensures k in r && r[k] == (if k in s then s[k] else DefaultTable(now)[k])
    ensures forall j :: j != k ==> (j in r <==> j in s)
    ensures forall j :: j != k && j in s ==> r[j] == s[j]
  {
    if k in s then s else s[k := DefaultTable(now)[k]]
  }

  /** Writes the default of each key of `ks` that is absent, in order: the
      source's loop over its table. */
  function ApplyDefaults(s: Store, ks: seq<Key>, now: int): (r: Store)
    ensures forall k :: k in s ==> k in r && r[k] == s[k]
    ensures forall k :: k in r <==> k in s || k in ks
    decreases |ks|
  {
    if |ks| == 0 then s
    else
      ApplyDefaults(SetIfAbsent(s, ks[0], now), ks[1..], now)
  }

  /** An absent key gets its default; a present key keeps its value. */
  lemma {:induction false} ApplyDefaultsValue(s: Store, ks: seq<Key>, now: int, k: Key)
    ensures var r := ApplyDefaults(s, ks, now);
            k in r ==> r[k] == (if k in s then s[k] else DefaultTable(now)[k])
    decreases |ks|
  {
    if |ks| > 0 {
      ApplyDefaultsValue(SetIfAbsent(s, ks[0], now), ks[1..], now, k);
    }
  }

  /** `setDefaultsIfNeeded`: afterwards every key is present; a key that was
      present keeps its value, an absent one holds its default. */
  function SetDefaultsIfNeeded(s: Store, now: int): (r: Store)
    ensures forall k :: k in r
    ensures forall k :: k in s ==> r[k] == s[k]
    ensures forall k :: k !in s ==> r[k] == DefaultTable(now)[k]
  {
    DefaultTable(now) + s
  }

  /** Applying the defaults one key at a time, in the order of the table,
      fills in every key with the same value as the key-by-key description:
      no default overwrites another, since the keys are distinct. */
  lemma {:induction false} InOrderApplication(s: Store, now: int)
    ensures forall k :: k in ApplyDefaults(s, KeyOrder, now)
    ensures forall k :: ApplyDefaults(s, KeyOrder, now)[k] == SetDefaultsIfNeeded(s, now)[k]
  {
    forall k
      ensures k in ApplyDefaults(s, KeyOrder, now)
      ensures ApplyDefaults(s, KeyOrder, now)[k] == SetDefaultsIfNeeded(s, now)[k]
    {
      EveryKeyHasADefault(k);
      ApplyDefaultsValue(s, KeyOrder, now, k);
    }
  }

  /** The four keys the earlier revision fills in at start-up, in its order. */
  const LegacyKeyOrder: seq<Key> := [ShowSeconds, Use24Hour, ShowDate, LargeClockFontSize]

  /** The earlier revision's start-up defaults fill in its four display keys
      with the same values as the current table and touch no other key. */
  lemma LegacyDefaultsAgree(s: Store, now: int)
    ensures var r := ApplyDefaults(s, LegacyKeyOrder, now);
            && (forall k :: k in r <==> k in s || k in LegacyKeyOrder)
            && (forall k :: k in r ==> r[k] == SetDefaultsIfNeeded(s, now)[k])
  {
  }

  /** Applying the defaults a second time, at any time, changes nothing. */
  lemma SetDefaultsIdempotent(s: Store, now1: int, now2: int)
    ensures SetDefaultsIfNeeded(SetDefaultsIfNeeded(s, now1), now2) == SetDefaultsIfNeeded(s, now1)
  {
  }

  /** `UserDefaults.bool(forKey:)`: a stored flag, a non-zero number, or
      `false` for anything else. */
  function BoolFor(s: Store, k: Key): (r: bool)
    ensures r ==> k in s
    ensures k in s && s[k].BoolV? ==> r == s[k].b
    ensures k in s && s[k].IntV? ==> (r <==> s[k].i != 0)
    ensures k in s && s[k].RealV? ==> (r <==> s[k].x != 0.0)
    ensures k in s && s[k].DateV? ==> !r
  {
    if k !in s then false
    else match s[k]
      case BoolV(b) => b
      case IntV(i) => i != 0
      case RealV(x) => x != 0.0
      case DateV(_) => false
  }

  /** `UserDefaults.integer(forKey:)`: a stored number (a flag as 0 or 1), or
      0 for anything else. */
  function IntFor(s: Store, k: Key): (r: int)
    ensures k !in s || s[k].DateV? ==> r == 0
    ensures k in s && s[k].IntV? ==> r == s[k].i
    ensures k in s && s[k].BoolV? ==> (r == 1 <==> s[k].b) && (r == 0 <==> !s[k].b)
    ensures k in s && s[k].RealV? && s[k].x >= 0.0 ==> r >= 0 && r as real <= s[k].x < r as real + 1.0
    ensures k in s && s[k].RealV? && s[k].x < 0.0 ==> r <= 0 && r as real - 1.0 < s[k].x <= r as real
  {
    if k !in s then 0
    else match s[k]
      case BoolV(b) => if b then 1 else 0
      case IntV(i) => i
      case RealV(x) => if x >= 0.0 then x.Floor else -((-x).Floor)
      case DateV(_) => 0
  }

  /** A stored date, or today's `hour`:00 when there is none. */
  function DateFor(s: Store, k: Key, now: int, hour: int): (r: int)
    ensures k in s && s[k].DateV? ==> r == s[k].t
    ensures !(k in s && s[k].DateV?) && 0 <= hour < 24 ==>
              StartOfDay(r) == StartOfDay(now) && SecondOfDay(r) == hour * 3600
  {
    if k in s && s[k].DateV? then s[k].t else AtHour(now, hour)
  }

  /** The auto-pause settings as the engine loads them at start-up: each
      flag through the flag getter, each number through the number getter,
      and the work times as stored dates with today's 09:00 and 17:00 as
      fallbacks. */
  function LoadConfig(s: Store, now: int): (c: AutoPause.Config)
    ensures c.enableAutoPause == BoolFor(s, EnableAutoPause)
    ensures c.pauseOutsideWorkHours == BoolFor(s, PauseOutsideWorkHours)
    ensures c.includeWeekends == BoolFor(s, IncludeWeekends)
    ensures c.workStartTime == DateFor(s, WorkStartTime, now, 9)
    ensures c.workEndTime == DateFor(s, WorkEndTime, now, 17)
    ensures c.onlyDuringWorkHours == BoolFor(s, OnlyDuringWorkHours)
    ensures c.askBeforeResuming == BoolFor(s, AskBeforeResuming)
    ensures c.askToResumeAfterPause == BoolFor(s, AskToResumeAfterPause)
    ensures c.minimumPauseDurationSeconds == IntFor(s, MinimumPauseDurationSeconds)
    ensures c.lunchThresholdMinutes == IntFor(s, LunchThresholdMinutes)
  {
    AutoPause.Config(
      BoolFor(s, EnableAutoPause),
      BoolFor(s, PauseOutsideWorkHours),
      BoolFor(s, IncludeWeekends),
      DateFor(s, WorkStartTime, now, 9),
      DateFor(s, WorkEndTime, now, 17),
      BoolFor(s, OnlyDuringWorkHours),
      BoolFor(s, AskBeforeResuming),
      BoolFor(s, AskToResumeAfterPause),
      IntFor(s, MinimumPauseDurationSeconds),
      IntFor(s, LunchThresholdMinutes))
  }

  /** What is written is what is read: a flag, a whole number or a date
      stored under a key comes back unchanged through its getter. */
  lemma StoredValueReadsBack(s: Store, k: Key, v: Value, now: int, hour: int)
    ensures v.BoolV? ==> BoolFor(s[k := v], k) == v.b
    ensures v.IntV? ==> IntFor(s[k := v], k) == v.i
    ensures v.DateV? ==> DateFor(s[k := v], k, now, hour) == v.t
  {
  }

  /** Writing one key leaves what every other key reads. */
  lemma OtherKeysReadAsBefore(s: Store, k: Key, j: Key, v: Value, now: int, hour: int)
    requires j != k
    ensures BoolFor(s[k := v], j) == BoolFor(s, j)
    ensures IntFor(s[k := v], j) == IntFor(s, j)
    ensures DateFor(s[k := v], j, now, hour) == DateFor(s, j, now, hour)
  {
    assert j in s[k := v] <==> j in s;
    assert j in s ==> s[k := v][j] == s[j];
  }

  /** The flag and number getters agree on whether a stored flag or whole
      number is set. */
  lemma FlagAndNumberAgree(s: Store, k: Key)
    requires k !in s || !s[k].RealV?
    ensures BoolFor(s, k) <==> IntFor(s, k) != 0
  {
  }

  /** A store holding none of the settings (a fresh install) ends up holding
      exactly the table of defaults. */
  lemma FreshInstallIsTable(s: Store, now: int)
    requires forall k :: k !in s
    ensures SetDefaultsIfNeeded(s, now) == DefaultTable(now)
  {
  }

  /** After a fresh install: minimum pause 10 s, lunch threshold 10 min,
      eight target hours, auto-pause off, outside-hours pausing on, work
      from 09:00 to 17:00 today. */
  lemma FreshInstallDefaults(s: Store, now: int)
    requires forall k :: k !in s
    ensures var r := SetDefaultsIfNeeded(s, now);
            && r[MinimumPauseDurationSeconds] == IntV(10)
            && r[LunchThresholdMinutes] == IntV(10)
            && r[TargetWorkHours] == IntV(8)
            && r[EnableAutoPause] == BoolV(false)
            && r[PauseOutsideWorkHours] == BoolV(true)
            && r[WorkStartTime] == DateV(AtHour(now, 9))
            && r[WorkEndTime] == DateV(AtHour(now, 17))
            && r[IncludeWeekends] == BoolV(false)
            && r[OnlyDuringWorkHours] == BoolV(true)
            && r[AskBeforeResuming] == BoolV(true)
            && r[AskToResumeAfterPause] == BoolV(true)
  {
    FreshInstallIsTable(s, now);
  }

  /** The auto-pause settings the engine loads after a fresh install. */
  lemma FreshInstallConfig(s: Store, now: int)
    requires forall k :: k !in s
    ensures LoadConfig(SetDefaultsIfNeeded(s, now), now)
              == AutoPause.Config(false, true, false, AtHour(now, 9), AtHour(now, 17), true, true, true, 10, 10)
  {
    FreshInstallDefaults(s, now);
  }

  /** With the fresh-install settings, work hours are Monday to Friday from
      09:00:00 to 17:00:59: the end minute counts in full. */
  lemma FreshInstallWorkHours(s: Store, now: int)
    requires forall k :: k !in s
    ensures var cfg := LoadConfig(SetDefaultsIfNeeded(s, now), now);
            AutoPause.IsCurrentlyInWorkHours(cfg, now) <==>
              && Weekday(now) != 1 && Weekday(now) != 7
              && 9 * 3600 <= SecondOfDay(now) < 17 * 3600 + 60
  {
    FreshInstallConfig(s, now);
    AtHourClock(now, 9);
    AtHourClock(now, 17);
  }

  lemma AtHourClock(now: int, hour: int)
    requires 0 <= hour < 24
    ensures MinuteOfDay(AtHour(now, hour)) == hour * 60
  {
    var t := AtHour(now, hour);
    var d := StartOfDay(now);
    assert t == d + hour * 3600;
    assert d % SecondsPerDay == 0;
    assert SecondOfDay(t) == hour * 3600 by {
      StartOfDayUnique(t, d);
    }
  }
}
