# TimeTracker-Pro timer and auto-pause core, in Dafny

TimeTracker-Pro is a macOS menu-bar time tracker. It has three mutually
exclusive timers: work, coffee break and lunch break. Each timer counts its
own seconds. Each run of a timer becomes a session in a history, newest
first. While a work timer runs with app tracking enabled, the app samples
the frontmost application every five seconds and records per-application
seconds with the session. A lock monitor watches screen lock, sleep and
screensaver signals. When a lock ends, it reports how long the lock lasted,
classified as ignored (under 10 s), coffee (under 600 s) or lunch. The
engine uses these reports to pause the timer automatically during
configured work hours.

This project models that core as pure Dafny functions over immutable data:

- The entities are categories, sessions, per-application usages and pause reasons (`models.dfy`).
- A fixed-offset calendar over integer seconds supplies start of day, hour, minute and weekday (`calendar.dfy`).
- The timer engine is a set of transitions that take the wall-clock time `now` as an argument. A validity invariant holds across any sequence of commands (`engine.dfy`).
- The session-history queries cover:
  - the day view, newest first;
  - total, work and break sums;
  - clearing one day;
  - the list of days with sessions;
  - the per-application aggregation of a day (`session_store.dfy`, `usage_table.dfy`, `sorting.dfy`).
- The five-second foreground-application sample takes the frontmost application as an input (`app_sampler.dfy`).
- The lock monitor is a two-state machine driven by six signals (`lock_monitor.dfy`).
- The auto-pause decisions, the work-hours test, and the monitor and engine composed into one system step are in `auto_pause.dfy`.
- The integer duration formatters are in `formatters.dfy`, with decimal rendering and parsing in `text.dfy`. Each formatter is paired with a parser. For `formatAsTimerDisplay` and `formatAsDuration` a round-trip lemma says the text reads back to the count. The short `formatAsTime` and `formatTime` texts drop the seconds, so their lemmas say the text reads back to the count rounded down to whole minutes.
- The widget's two formatters are in `widget_helpers.dfy`.
- The settings keys, the set-if-absent defaults table and how the auto-pause settings are loaded are in `defaults.dfy`.
- The earlier engine revision lives in `legacy_engine.dfy`. Each of its operations is proved equal to the current engine's operation on the lifted state: no usages, tracking off.

Behaviour reproduced as the code has it:

- The lock thresholds are fixed at 10 s and 600 s. The stored minimum-pause and lunch-threshold settings are loaded but never consulted.
- A lock outside work hours while a work timer runs only sets a flag. The timer keeps running.
- With auto-pause enabled, a lock during work hours stops whatever timer runs. If the unlock follows within 10 s, a *work* timer starts, even when a break timer ran before.
- The settings `onlyDuringWorkHours`, `askBeforeResuming` and `askToResumeAfterPause` influence no decision.
- The sampler keeps the first name it saw for an application.
- The work-hours window compares hour and minute only, so it runs through the last second of the end minute.

## Model

| member | source | states |
|---|---|---|
| Models.CategoryFromRaw | TimeTracker-Pro/Core/Models.swift:13-16 | decoding a persisted raw value yields the category with exactly that raw value, and fails only for strings that are no category's raw value |
| Models.CategoryEncodingFaithful | TimeTracker-Pro/Core/Models.swift:13-24 | encoding then decoding a category gives it back; there are exactly three categories; the raw values tell them apart, and so do the display names |
| Calendar.StartOfDay | TimeTracker-Pro/Core/TimeModel.swift:323-325 | the start of day is a day boundary at or before `t`, less than one day before it |
| Calendar.StartOfDayUnique | TimeTracker-Pro/Core/TimeModel.swift:323-325 | a day boundary whose day contains `t` is `t`'s start of day |
| Calendar.InDayIffSameDay | TimeTracker-Pro/Core/TimeModel.swift:327-329 | the half-open window [startOfDay, startOfDay + 1 day) holds exactly the times with the same start of day |
| Calendar.MinuteOfDay | TimeTracker-Pro/Core/TimeModel.swift:640-642 | hour * 60 + minute lies in 0..1439 and is the minute holding the time's second of the day |
| Calendar.WeekdayAdvances | TimeTracker-Pro/Core/TimeModel.swift:634-635 | one day later is one weekday later, with Saturday (7) followed by Sunday (1) |
| Calendar.IsAfternoon | TimeTracker-Pro/Core/Extensions.swift:148-151 | afternoon exactly when at least 15 hours of the day have passed |
| Sorting.SortDesc | TimeTracker-Pro/Core/TimeModel.swift:329 | the sorted list is a permutation of its input, with keys non-increasing |
| Sorting.SumByPermutation | TimeTracker-Pro/Core/TimeModel.swift:331-333 | summing durations gives the same total in any order |
| Sorting.SortKeepsDistinct | TimeTracker-Pro/Core/TimeModel.swift:379-387 | sorting keeps rows with distinct identifiers distinct |
| UsageTable.Lookup | TimeTracker-Pro/Core/TimeModel.swift:375 | the dictionary read finds an entry with the requested key, and finds nothing exactly when no entry has it |
| UsageTable.Accumulate | TimeTracker-Pro/Core/TimeModel.swift:375-376 | the key's entry gains `amount` seconds and keeps its recorded name; a new key gets the given name; every other key reads as before; keys stay distinct; the table total grows by `amount` |
| UsageTable.FirstNameIsFirst | TimeTracker-Pro/Core/TimeModel.swift:375-376 | the name kept for an identifier is the name of its earliest usage |
| UsageTable.Aggregate | TimeTracker-Pro/Core/TimeModel.swift:372-377 | the aggregation loop yields distinct keys and preserves the total seconds |
| UsageTable.AggregateStep | TimeTracker-Pro/Core/TimeModel.swift:374-377 | one loop iteration changes only the entry of the usage's identifier, merging its seconds in |
| UsageTable.AggregateLookup | TimeTracker-Pro/Core/TimeModel.swift:372-377 | after the loop, each identifier that occurs has one entry: its first name and the sum of its durations; no other identifier has one |
| UsageTable.ToUsages | TimeTracker-Pro/Core/TimeModel.swift:379-386 | every table entry becomes one usage record with the same identifier, name and seconds, tagged with the category and date |
| UsageTable.ToUsagesSum | TimeTracker-Pro/Core/TimeModel.swift:379-386 | turning entries into records keeps the total seconds |
| UsageTable.AggregateUsages | TimeTracker-Pro/Core/TimeModel.swift:370-388 | one row per identifier that occurs, and none for others; each row carries the first name and summed seconds; rows are sorted by non-increasing duration; the grand total is preserved |
| SessionStore.OnDay | TimeTracker-Pro/Core/TimeModel.swift:327-328 | exactly the sessions starting inside the day's window |
| SessionStore.OffDay | TimeTracker-Pro/Core/TimeModel.swift:358-360 | exactly the sessions starting outside the day's window |
| SessionStore.DayPartition | TimeTracker-Pro/Core/TimeModel.swift:353-360 | the day's sessions and the rest together are the history, none lost or duplicated |
| SessionStore.SessionsForDate | TimeTracker-Pro/Core/TimeModel.swift:321-329 | exactly the day's sessions, a permutation of them, with start times non-increasing |
| SessionStore.OfCategories | TimeTracker-Pro/Core/TimeModel.swift:335-345 | exactly the sessions whose category is among those asked for |
| SessionStore.OfCategoriesCount | TimeTracker-Pro/Core/TimeModel.swift:335-345 | the category filter keeps every copy of a session of a wanted category and no copy of any other |
| SessionStore.OfCategoriesPermutation | TimeTracker-Pro/Core/TimeModel.swift:335-345 | filtering two orderings of the same sessions gives two orderings of the same sessions |
| SessionStore.SumOfDay | TimeTracker-Pro/Core/TimeModel.swift:335-345 | summing the day view's sessions of some categories gives the sum over the day's sessions of those categories in history order |
| SessionStore.TotalTimeForDate | TimeTracker-Pro/Core/TimeModel.swift:331-333 | the sum of the durations of the sessions starting on the day |
| SessionStore.WorkTimeForDate | TimeTracker-Pro/Core/TimeModel.swift:335-339 | the sum of the durations of the day's work sessions |
| SessionStore.BreakTimeForDate | TimeTracker-Pro/Core/TimeModel.swift:341-345 | the sum of the durations of the day's coffee and lunch sessions |
| SessionStore.TotalIsWorkPlusBreak | TimeTracker-Pro/Core/TimeModel.swift:331-345 | a day's total is its work time plus its break time |
| SessionStore.Flatten | TimeTracker-Pro/Core/TimeModel.swift:367 | a usage occurs in the flattened list exactly when one of the sessions holds it; one session flattens to its own usages; the row count is the sum of the sessions' row counts and the seconds are the sum of the sessions' usage seconds |
| SessionStore.FlattenAppend | TimeTracker-Pro/Core/TimeModel.swift:367 | flattening two runs of sessions one after the other is flattening each and concatenating, so the rows keep the sessions' order |
| SessionStore.AppUsagesForDate | TimeTracker-Pro/Core/TimeModel.swift:365-368 | a usage occurs exactly when a session of the category starting on the day holds it; the number of rows and the total seconds are those of the day's sessions of that category, counted with multiplicity and independent of the day view's order |
| SessionStore.ClearSessionsForDate | TimeTracker-Pro/Core/TimeModel.swift:353-363 | afterwards the history holds exactly the sessions not starting on that day; the number removed is the number on that day |
| SessionStore.ClearKeepsOrder | TimeTracker-Pro/Core/TimeModel.swift:358-360 | clearing distributes over concatenation, so the remaining sessions keep their original order |
| SessionStore.ClearIsolatesDays | TimeTracker-Pro/Core/TimeModel.swift:353-363 | after clearing, the day's view is empty and every other day's view is unchanged |
| SessionStore.DayStarts | TimeTracker-Pro/Core/TimeModel.swift:349-350 | the start of day of each session, position by position |
| SessionStore.DaysWithSessions | TimeTracker-Pro/Core/TimeModel.swift:347-351 | exactly the distinct starts of day of the history, strictly descending |
| SessionStore.AggregatedAppUsagesForDate | TimeTracker-Pro/Core/TimeModel.swift:365-388 | for the day's sessions of one category: one row per application, with first name and summed seconds, tagged with that category and date, sorted by non-increasing duration, total preserved |
| AppSampler.TrackCurrentApp | TimeTracker-Pro/Core/TimeModel.swift:520-528 | without a frontmost application or bundle identifier nothing changes; otherwise exactly that identifier gains 5 s, a new entry is named after the application ("Unbekannt" when unnamed), an existing one keeps its name; the total grows by 5 s |
| AppSampler.FirstObservedNameWins | TimeTracker-Pro/Core/TimeModel.swift:524-526 | two samples of one application under different names leave the first name with 10 s |
| TimerEngine.Init | TimeTracker-Pro/Core/TimeModel.swift:173-177 | start-up keeps the loaded counters, history and tracking setting, with an empty usage buffer, nothing running and nothing scheduled; a valid state when the history holds closed sessions |
| TimerEngine.StopTimer | TimeTracker-Pro/Core/TimeModel.swift:240-287 | afterwards nothing runs and counters are unchanged; without an open session history and buffer stay; with one, exactly one closed session goes in front: same category and start, end `now`, duration `now - start`, the buffer's usages tagged with category and start, same total seconds; the buffer empties; validity is preserved |
| TimerEngine.StartTimer | TimeTracker-Pro/Core/TimeModel.swift:200-238 | the history is what stopping first leaves; then exactly one fresh open session for the category starting `now` with duration 0; the counter timer runs for that category; sampling is scheduled exactly for work with tracking on; the tracking setting and the counters are unchanged; the usage buffer is emptied when sampling starts and otherwise is what stopping left, so it is empty when starting from a valid state; validity preserved |
| TimerEngine.Tick | TimeTracker-Pro/Core/TimeModel.swift:216-231 | one firing adds exactly one second to the scheduled category's counter, changes nothing else, and does nothing with no counter timer |
| TimerEngine.SampleApp | TimeTracker-Pro/Core/TimeModel.swift:506-513 | a sampling firing changes only the usage buffer, and changes it exactly as one sample of the frontmost application does (`AppSampler.TrackCurrentApp`), so the buffer total grows by 5 s when an application is identified; without scheduled sampling nothing changes |
| TimerEngine.ResetAllTimers | TimeTracker-Pro/Core/TimeModel.swift:289-303 | stops first, keeps every history session, and leaves all three counters at zero; afterwards nothing runs, no counter or sampling is scheduled, the tracking setting is unchanged, and the usage buffer is what stopping left, empty from a valid state |
| TimerEngine.CurrentTimerSeconds | TimeTracker-Pro/Core/TimeModel.swift:305-315 | the running category's counter; when idle, the largest of the three counters |
| TimerEngine.StopIsIdempotent | TimeTracker-Pro/Core/TimeModel.swift:240-248 | a second stop, at any time, changes nothing |
| TimerEngine.OpenIn | TimeTracker-Pro/Core/Models.swift:72-74 | exactly the sessions without an end time |
| TimerEngine.Step | TimeTracker-Pro/Core/TimeModel.swift:200-303 | every command keeps the engine state valid |
| TimerEngine.AtMostOneOpenSession | TimeTracker-Pro/Core/TimeModel.swift:200-287 | after any sequence of commands the state is valid, no history session is open, and at most one session is open overall |
| TimerEngine.NoOpenInClosedHistory | TimeTracker-Pro/Core/TimeModel.swift:269-277 | a history of sessions closed by stopping holds no open session |
| LegacyEngine.LiftSession | TimeTracker-Pro/TimeModel.swift:41-60 | an earlier session is a current one without usages, active under the same condition |
| LegacyEngine.StopTimer | TimeTracker-Pro/TimeModel.swift:168-197 | with no open session the history stays; with one, exactly one closed session goes in front, with duration `now - start`, and the open session is gone; equal to the current stop on the lifted state |
| LegacyEngine.StartTimer | TimeTracker-Pro/TimeModel.swift:136-166 | stops first, then one open session for the category with no end time; equal to the current start on the lifted state |
| LegacyEngine.Tick | TimeTracker-Pro/TimeModel.swift:149-164 | the scheduled category's counter grows by one; equal to the current tick on the lifted state |
| LegacyEngine.ResetAllTimers | TimeTracker-Pro/TimeModel.swift:199-208 | all three counters are zero; equal to the current reset on the lifted state |
| LegacyEngine.CurrentTimerSeconds | TimeTracker-Pro/TimeModel.swift:210-220 | the active counter, or the largest when idle; equal to the current query on the lifted state |
| LegacyEngine.DayQueriesPartition | TimeTracker-Pro/TimeModel.swift:223-265 | the day view and the cleared history split the history, and clearing a day leaves every other day's view unchanged |
| LockMonitor.Classify | TimeTracker-Pro/Core/SystemStateMonitor.swift:129-137 | each duration gets exactly one reason: ignored below 10 s, coffee from 10 s up to 600 s, lunch from 600 s |
| LockMonitor.ClassifyMonotone | TimeTracker-Pro/Core/SystemStateMonitor.swift:129-137 | a longer lock never gets a shorter kind of pause |
| LockMonitor.ClassifyBoundaries | TimeTracker-Pro/Core/SystemStateMonitor.swift:24-25 | 9 s is ignored, 10 s and 599 s are coffee, 600 s is lunch |
| LockMonitor.HandleLocked | TimeTracker-Pro/Core/SystemStateMonitor.swift:106-120 | a lock while locked is ignored; otherwise the monitor locks at `now` and reports the lock |
| LockMonitor.HandleUnlocked | TimeTracker-Pro/Core/SystemStateMonitor.swift:122-149 | an unlock while not locked, or without a start time, is ignored; otherwise the monitor unlocks and reports the elapsed seconds with their classification |
| LockMonitor.Handle | TimeTracker-Pro/Core/SystemStateMonitor.swift:82-104 | any signal keeps "locked exactly when a start time is recorded" |
| LockMonitor.SignalsOfAKindAgree | TimeTracker-Pro/Core/SystemStateMonitor.swift:82-104 | lock, sleep and screensaver start act alike, and so do unlock, wake and screensaver stop |
| LockMonitor.CurrentLockDuration | TimeTracker-Pro/Core/SystemStateMonitor.swift:156-159 | none when not locked; otherwise the seconds since the lock began |
| LockMonitor.ReportsAlternate | TimeTracker-Pro/Core/SystemStateMonitor.swift:106-149 | over any sequence of signals the state stays consistent, and lock and unlock reports strictly alternate |
| LockMonitor.LockThenUnlock | TimeTracker-Pro/Core/SystemStateMonitor.swift:111-147 | a lock at `t1` then an unlock at `t2` reports the lock, then `t2 - t1` seconds with their classification, and ends unlocked; in between the live duration counts from `t1` |
| AutoPause.IsCurrentlyInWorkHours | TimeTracker-Pro/Core/TimeModel.swift:630-653 | true exactly on a work day (any day with weekends included, else Monday to Friday) from the start minute's first second to the end minute's last second |
| AutoPause.OvernightWindowIsEmpty | TimeTracker-Pro/Core/TimeModel.swift:652 | an end minute before the start minute makes the window empty |
| AutoPause.OnSystemLocked | TimeTracker-Pro/Core/TimeModel.swift:604-615 | the timer stops, whatever category runs, and the lock is remembered, exactly in work hours with auto-pause on and a timer running; otherwise, outside hours with the option on and a work timer running, only the outside-hours flag is set; outside hours the engine never changes |
| AutoPause.OnSystemUnlocked | TimeTracker-Pro/Core/TimeModel.swift:617-628 | a work timer starts exactly when a lock was remembered, auto-pause is on and the reason is "ignored"; otherwise the engine is unchanged; both flags are cleared on every path |
| AutoPause.Deliver | TimeTracker-Pro/Core/TimeModel.swift:590-602 | no report changes nothing; a lock report has exactly the effect of the lock handler and an unlock report that of the unlock handler with the reported reason; the monitor and settings stay; the engine stays valid |
| AutoPause.SystemSignal | TimeTracker-Pro/Core/SystemStateMonitor.swift:106-149 | the monitor moves as its handler says; a lock signal while unlocked has the lock handler's effect on engine and flags; an unlock signal while locked has the unlock handler's effect with the lock's length classified; any other signal changes nothing; engine and monitor stay valid |
| AutoPause.UnusedSettingsIgnored | TimeTracker-Pro/Core/TimeModel.swift:100-116 | changing only the settings no decision reads changes no signal's effect |
| AutoPause.LockCycle | TimeTracker-Pro/Core/TimeModel.swift:604-628 | a work-hours lock with auto-pause closes the running session at the lock time; a work timer runs from the unlock time exactly when the lock lasted under 10 s; both flags end cleared |
| AutoPause.OutsideHoursLockKeepsTimer | TimeTracker-Pro/Core/TimeModel.swift:612-614 | a lock outside work hours never changes the engine |
| Text.IntToString | TimeTracker-Pro/Core/Extensions.swift:114 | `%d`: a non-negative number's text parses back to it and is one character exactly below ten; a negative number's text is a minus sign followed by digits that parse to its magnitude |
| Text.Pad2 | TimeTracker-Pro/Core/Extensions.swift:116 | `%02d`: exactly two digits for 0..99, otherwise the plain `%d` text |
| Text.NatToStringRoundTrip | TimeTracker-Pro/Core/Extensions.swift:114 | the `%d` text of a count reads back to that count |
| Text.Pad2RoundTrip | TimeTracker-Pro/Core/Extensions.swift:116 | the `%02d` text of a count reads back to that count |
| Formatters.Quot | TimeTracker-Pro/Core/Extensions.swift:109 | Swift's integer division truncates toward zero: the quotient has the dividend's sign and leaves a remainder of that sign smaller than the divisor in magnitude |
| Formatters.Rem | TimeTracker-Pro/Core/Extensions.swift:110-111 | Swift's remainder takes the dividend's sign and completes the truncating division |
| Formatters.Components | TimeTracker-Pro/Core/Extensions.swift:108-111 | hours * 3600 + minutes * 60 + seconds is the count; for a non-negative count minutes and seconds are below 60, for a negative one all three are non-positive |
| Formatters.ComponentsOfNat | TimeTracker-Pro/Core/Extensions.swift:108-111 | for a non-negative count the components are the whole hours, the minutes past the hour and the seconds past the minute, as Euclidean quotients and remainders |
| Formatters.SecondsOfRemainder | TimeTracker-Pro/Core/Extensions.swift:110-111 | the seconds do not change when the hour is taken off first |
| Formatters.FormatAsTimerDisplay | TimeTracker-Pro/Core/Extensions.swift:108-118 | below an hour exactly five characters with a colon in the middle, and the text is the minutes and the seconds past the minute, each as two digits, joined by a colon; from an hour on two colons, and the text is the whole hours as `%d`, a colon, the two-digit minutes past the hour, a colon and the two-digit seconds past the minute |
| Formatters.TimerDisplayRoundTrip | TimeTracker-Pro/Core/Extensions.swift:108-118 | the timer display of a non-negative count reads back to that count |
| Formatters.ClockWithHours | TimeTracker-Pro/Core/Extensions.swift:114 | `H:MM:SS` reads back to its value |
| Formatters.ClockWithoutHours | TimeTracker-Pro/Core/Extensions.swift:116 | `MM:SS` reads back to its value |
| Formatters.FormatAsDuration | TimeTracker-Pro/Core/Extensions.swift:81-93 | the text always ends in `s` after at least two characters; for a non-negative count two digits precede the `s`; below a minute it is that three-character token alone, the two-digit seconds then `s`; below an hour exactly seven characters, the two-digit minutes, `m `, the two-digit seconds past the minute, `s`; from an hour on the whole hours as `%d`, `h `, the two-digit minutes past the hour, `m `, the two-digit seconds past the minute, `s`; a negative count gives a single token with no space |
| Formatters.DurationRoundTrip | TimeTracker-Pro/Core/Extensions.swift:81-93 | the duration text of a non-negative count reads back to that count |
| Formatters.DurationWithHours | TimeTracker-Pro/Core/Extensions.swift:87 | `Hh MMm SSs` reads back to its value |
| Formatters.DurationWithMinutes | TimeTracker-Pro/Core/Extensions.swift:89 | `MMm SSs` reads back to its value |
| Formatters.DurationSecondsOnly | TimeTracker-Pro/Core/Extensions.swift:91 | `SSs` reads back to its value |
| Formatters.FormatAsTime | TimeTracker-Pro/Core/Extensions.swift:95-106 | always ends in `m`; `0m` below a minute; below an hour the whole minutes as `%d` then `m`, with no hours and no space, two characters exactly below ten minutes; from an hour on the whole hours as `%d`, `h `, the two-digit minutes past the hour, `m` |
| Formatters.TimeRoundTrip | TimeTracker-Pro/Core/Extensions.swift:95-106 | the short text of a non-negative count reads back to that count rounded down to whole minutes |
| Formatters.TimeWithHours | TimeTracker-Pro/Core/Extensions.swift:100 | `Hh MMm` reads back to its value |
| Formatters.TimeMinutesOnly | TimeTracker-Pro/Core/Extensions.swift:102 | `Mm` reads back to its value |
| WidgetHelpers.FormatTimer | TimeTrackerWidgets/WidgetHelpers.swift:13-23 | the widget's timer text reads back to a non-negative count; below an hour five characters, the two-digit minutes, a colon and the two-digit seconds; from an hour on two colons, and the text is the hours as `%d`, then the two-digit minutes past the hour and seconds past the minute |
| WidgetHelpers.FormatTime | TimeTrackerWidgets/WidgetHelpers.swift:25-36 | always ends in `m`; `0m` below a minute; below an hour the whole minutes as `%d` then `m`, with no hours and no space, two characters exactly below ten minutes; from an hour on the whole hours as `%d`, `h `, the minutes past the hour as unpadded `%d`, `m`, so one minute digit exactly when fewer than ten minutes |
| WidgetHelpers.ShortWithHours | TimeTrackerWidgets/WidgetHelpers.swift:30 | `Hh Mm` with unpadded minutes reads back to its value |
| WidgetHelpers.FormatTimeAgainstApp | TimeTrackerWidgets/WidgetHelpers.swift:25-36 | the widget's short text differs from the app's exactly when there are hours and fewer than ten minutes past them; it reads back to the count rounded down to whole minutes |
| Defaults.DefaultTable | TimeTracker-Pro/Core/Extensions.swift:157-197 | every settings key has a default |
| Defaults.EveryKeyHasADefault | TimeTracker-Pro/Core/Extensions.swift:159-196 | every key occurs in the order the defaults are applied |
| Defaults.ApplyDefaults | TimeTracker-Pro/Core/Extensions.swift:157-197 | the in-order loop keeps every present key's value and adds exactly the listed keys |
| Defaults.ApplyDefaultsValue | TimeTracker-Pro/Core/Extensions.swift:159 | after the loop a present key holds its old value and an added key holds its default |
| Defaults.SetDefaultsIfNeeded | TimeTracker-Pro/Core/Extensions.swift:157-197 | afterwards every key is present; a key already present keeps its value; an absent key holds its default |
| Defaults.InOrderApplication | TimeTracker-Pro/Core/Extensions.swift:157-197 | applying the defaults one key at a time in table order gives every key the same value as the key-by-key description |
| Defaults.LegacyDefaultsAgree | TimeTracker-Pro/TimeModel.swift:104-109 | the earlier revision's start-up defaults add exactly its four display keys, with the same values as the current table |
| Defaults.SetDefaultsIdempotent | TimeTracker-Pro/Core/Extensions.swift:157-197 | applying the defaults twice, at any two times, is applying them once |
| Defaults.LoadConfig | TimeTracker-Pro/Core/TimeModel.swift:150-169 | each of the ten auto-pause settings is read from its own key: the six flags through the flag getter, the two numbers through the number getter, the work start and end as stored dates with today's 09:00 and 17:00 as fallbacks |
| Defaults.AtHour | TimeTracker-Pro/Core/Extensions.swift:168 | for an hour of the clock, a time on the same day as now, exactly that many hours after its start |
| Defaults.SetIfAbsent | TimeTracker-Pro/Core/Extensions.swift:159 | afterwards the key is present with its old value, or its default when it was absent; every other key is as before |
| Defaults.BoolFor | TimeTracker-Pro/Core/TimeModel.swift:163 | a missing key or a date reads as false; a flag reads as itself; a number reads as true exactly when non-zero |
| Defaults.IntFor | TimeTracker-Pro/Core/TimeModel.swift:165-166 | a missing key or a date reads as 0; a whole number reads as itself; a flag reads as 1 or 0; a fraction is truncated toward zero |
| Defaults.DateFor | TimeTracker-Pro/Core/TimeModel.swift:150-151 | a stored date reads as itself; otherwise the fallback is today at the given hour |
| Defaults.StoredValueReadsBack | TimeTracker-Pro/Core/TimeModel.swift:149-169 | a flag, whole number or date written under a key reads back unchanged |
| Defaults.OtherKeysReadAsBefore | TimeTracker-Pro/Core/TimeModel.swift:149-169 | writing one key does not change what any other key reads |
| Defaults.FlagAndNumberAgree | TimeTracker-Pro/Core/TimeModel.swift:163-166 | for anything but a fraction, the flag getter says true exactly when the number getter is non-zero |
| Defaults.FreshInstallIsTable | TimeTracker-Pro/Core/Extensions.swift:157-197 | on an empty store the result is exactly the table of defaults |
| Defaults.FreshInstallDefaults | TimeTracker-Pro/Core/Extensions.swift:166-196 | on an empty store: minimum pause 10, lunch threshold 10, eight target hours, auto-pause off, outside-hours pausing on, work 09:00 to 17:00 today, weekends excluded, the three unused flags on |
| Defaults.FreshInstallConfig | TimeTracker-Pro/Core/TimeModel.swift:151-170 | the auto-pause settings loaded after a fresh install |
| Defaults.FreshInstallWorkHours | TimeTracker-Pro/Core/Extensions.swift:167-174 | with fresh-install settings, work hours are Monday to Friday from 09:00:00 to 17:00:59 |
| Defaults.AtHourClock | TimeTracker-Pro/Core/Extensions.swift:168 | today's date at a given hour is that hour's first minute of the day |

## Left out

- Timers, run loops and dispatch queues are left out. The 1 s counter, the 5 s sampler and the 0.1 s delayed callbacks of the lock monitor are explicit transitions (`Tick`, `SampleApp`, `SystemSignal`). The monitor's state update and its report take effect together, and the engine handles a report at the time of the signal.
- Persistence is left out: UserDefaults writes, JSON encoding and decoding of sessions, widget data sharing and widget reloads. The settings store is modelled only for `setDefaultsIfNeeded` and for loading the auto-pause settings.
- Session and usage UUIDs are left out. They are fresh random values that no modelled behaviour reads.
- `lastActiveApp` is written by the sampler and never read, so it is left out.
- Notifications, work-time monitoring, CSV and JSON export, and the clock display are not part of this model. They are OS interaction and locale-dependent formatting.
- The `TimeInterval` formatters `formatAsTimer` and `formatAsShortTime` are left out because they work on floating point. So are the progress percentages.
- Session start and end times are whole seconds, so a session's duration is exactly `end - start`. The source stores `Date` values and truncates the elapsed `TimeInterval` to `Int` when closing a session (TimeTracker-Pro/Core/TimeModel.swift:257); that truncation is not modelled.
- Lock durations are whole seconds rather than `TimeInterval` values. The source's `Double` comparison with 10 and 600 agrees with the integer one on whole seconds.
- Time zones, DST and `Calendar.current` are left out. A day is 86400 seconds starting at a multiple of 86400, and the weekday counts from a Thursday epoch.
- Swift dictionaries are association lists in first-insertion order. That is one of the orders a dictionary may iterate in. After the duration sort it only affects rows with equal durations, which the contracts leave unordered.
- The UI is left out: views, preferences windows and the status-bar controller.
- Formatters.FormatAsDuration: for a negative count only the trailing `s` and the absence of spaces are stated (the text is the seconds remainder as `%d`, such as `-5s`), not a round trip. The engine never produces a negative count.
- Formatters.FormatAsTime: for negative counts only the shape of the text is modelled, not a round trip.
- WidgetHelpers.FormatTime: for negative counts only the shape of the text is modelled, not a round trip.
- Defaults.InOrderApplication: states agreement key by key rather than as one map equality.
