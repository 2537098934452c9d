/** Queries over the session history (newest first, as the engine prepends
    closed sessions): the day view, the per-day sums, deleting one day, the
    list of days with sessions and the per-application aggregation of a day.
    A day is the window [StartOfDay(d), StartOfDay(d) + 1 day). */
module SessionStore {
  import opened Models
  import opened Calendar
  import opened Sorting
  import opened UsageTable

  type History = seq<TimerSession>

  function StartKey(s: TimerSession): int { s.startTime }

  function DurationOf(s: TimerSession): int { s.duration }

  /** The sessions of `h` that start on the day of `d`, in history order. */
  function OnDay(h: History, d: int): (r: History)
    ensures forall x :: x in r <==> x in h && InDay(x.startTime, d)
  {
    if |h| == 0 then []
    else
      assert h == [h[0]] + h[1..];
      (if InDay(h[0].startTime, d) then [h[0]] else []) + OnDay(h[1..], d)
  }

  /** The sessions of `h` that do not start on the day of `d`, in history order. */
  function OffDay(h: History, d: int): (r: History)
    ensures forall x :: x in r <==> x in h && !InDay(x.startTime, d)
  {
    if |h| == 0 then []
    else
      assert h == [h[0]] + h[1..];
      (if InDay(h[0].startTime, d) then [] else [h[0]]) + OffDay(h[1..], d)
  }

  /** Every session is on the day or off it, and neither part loses or
      duplicates one. */
  lemma {:induction false} DayPartition(h: History, d: int)
    ensures multiset(OnDay(h, d)) + multiset(OffDay(h, d)) == multiset(h)
  {
    if |h| > 0 {
      DayPartition(h[1..], d);
      assert h == [h[0]] + h[1..];
    }
  }

  /** `getSessionsForDate`: exactly the day's sessions, newest first (sessions
      with equal start times in unspecified order). */
  function SessionsForDate(h: History, d: int): (r: History)
    ensures SortedDesc(r, StartKey)
    ensures multiset(r) == multiset(OnDay(h, d))
    ensures forall x :: x in r <==> x in h && InDay(x.startTime, d)
  {
    var r := SortDesc(OnDay(h, d), StartKey);
    assert forall x :: x in r <==> x in multiset(r);
    r
  }

  /** The sessions whose category is one of `cats`, in order. */
  function OfCategories(s: History, cats: set<TimerCategory>): (r: History)
    ensures forall x :: x in r <==> x in s && x.category in cats
  {
    if |s| == 0 then []
    else
      assert s == [s[0]] + s[1..];
      (if s[0].category in cats then [s[0]] else []) + OfCategories(s[1..], cats)
  }

  const BreakCategories: set<TimerCategory> := {TimerCategory.Coffee, TimerCategory.Lunch}

  /** How often a session occurs among those of `cats`: as often as in `s`
      when its category is asked for, otherwise never. */
  lemma {:induction false} OfCategoriesCount(s: History, cats: set<TimerCategory>, x: TimerSession)
    ensures multiset(OfCategories(s, cats))[x] == if x.category in cats then multiset(s)[x] else 0
  {
    if |s| > 0 {
      OfCategoriesCount(s[1..], cats, x);
      assert s == [s[0]] + s[1..];
    }
  }

  /** Filtering by category maps permutations to permutations. */
  lemma OfCategoriesPermutation(s: History, t: History, cats: set<TimerCategory>)
    requires multiset(s) == multiset(t)
    ensures multiset(OfCategories(s, cats)) == multiset(OfCategories(t, cats))
  {
    forall x
      ensures multiset(OfCategories(s, cats))[x] == multiset(OfCategories(t, cats))[x]
    {
      OfCategoriesCount(s, cats, x);
      OfCategoriesCount(t, cats, x);
    }
  }

  /** The durations of the day's sessions of `cats`, summed in the order the
      day view lists them: the same as summed in history order. */
  function SumOfDay(h: History, d: int, cats: set<TimerCategory>): (r: int)
    ensures r == SumBy(OfCategories(OnDay(h, d), cats), DurationOf)
  {
    var view := OfCategories(SessionsForDate(h, d), cats);
    OfCategoriesPermutation(SessionsForDate(h, d), OnDay(h, d), cats);
    SumByPermutation(view, OfCategories(OnDay(h, d), cats), DurationOf);
    SumBy(view, DurationOf)
  }

  /** `getTotalTimeForDate`: the sum of the durations of the sessions
      starting on the day. */
  function TotalTimeForDate(h: History, d: int): (r: int)
    ensures r == SumBy(OnDay(h, d), DurationOf)
  {
    SumByPermutation(SessionsForDate(h, d), OnDay(h, d), DurationOf);
    SumBy(SessionsForDate(h, d), DurationOf)
  }

  /** `getWorkTimeForDate`: the sum over the day's work sessions. */
  function WorkTimeForDate(h: History, d: int): (r: int)
    ensures r == SumBy(OfCategories(OnDay(h, d), {Work}), DurationOf)
  {
    SumOfDay(h, d, {Work})
  }

  /** `getBreakTimeForDate`: the sum over the day's coffee and lunch
      sessions. */
  function BreakTimeForDate(h: History, d: int): (r: int)
    ensures r == SumBy(OfCategories(OnDay(h, d), BreakCategories), DurationOf)
  {
    SumOfDay(h, d, BreakCategories)
  }

  lemma {:induction false} SumSplitsByCategory(s: History)
    ensures SumBy(s, DurationOf)
         == SumBy(OfCategories(s, {Work}), DurationOf) + SumBy(OfCategories(s, BreakCategories), DurationOf)
  {
    if |s| > 0 {
      SumSplitsByCategory(s[1..]);
      var w := if s[0].category in {Work} then [s[0]] else [];
      var b := if s[0].category in BreakCategories then [s[0]] else [];
      assert OfCategories(s, {Work}) == w + OfCategories(s[1..], {Work});
      assert OfCategories(s, BreakCategories) == b + OfCategories(s[1..], BreakCategories);
      assert SumBy(w, DurationOf) + SumBy(b, DurationOf) == s[0].duration by {
        if s[0].category == Work {
          assert SumBy(w, DurationOf) == s[0].duration + SumBy([], DurationOf);
        } else {
          assert SumBy(b, DurationOf) == s[0].duration + SumBy([], DurationOf);
        }
      }
      SumByAppend(w, OfCategories(s[1..], {Work}), DurationOf);
      SumByAppend(b, OfCategories(s[1..], BreakCategories), DurationOf);
    }
  }

  /** The three categories are exhaustive, so a day's total is its work time
      plus its break time. */
  lemma TotalIsWorkPlusBreak(h: History, d: int)
    ensures TotalTimeForDate(h, d) == WorkTimeForDate(h, d) + BreakTimeForDate(h, d)
  {
    SumSplitsByCategory(OnDay(h, d));
  }

  /** `clearSessionsForDate`: drops the day's sessions and nothing else. */
  function ClearSessionsForDate(h: History, d: int): (r: History)
    ensures forall x :: x in r <==> x in h && !InDay(x.startTime, d)
    ensures |r| + |OnDay(h, d)| == |h|
  {
    DayPartition(h, d);
    assert |multiset(OnDay(h, d)) + multiset(OffDay(h, d))| == |multiset(h)|;
    OffDay(h, d)
  }

  /** Clearing works element by element, so it keeps the remaining sessions
      in their original order. */
  lemma ClearKeepsOrder(a: History, b: History, d: int)
    ensures ClearSessionsForDate(a + b, d) == ClearSessionsForDate(a, d) + ClearSessionsForDate(b, d)
  {
    OffDayAppend(a, b, d);
  }

  lemma {:induction false} OffDayAppend(a: History, b: History, d: int)
    ensures OffDay(a + b, d) == OffDay(a, d) + OffDay(b, d)
  {
    if |a| == 0 {
      assert a + b == b;
    } else {
      assert (a + b)[0] == a[0];
      assert (a + b)[1..] == a[1..] + b;
      OffDayAppend(a[1..], b, d);
    }
  }

  /** Clearing a day empties that day and leaves every other day's view as it
      was. */
  lemma {:induction false} ClearIsolatesDays(h: History, d: int, e: int)
    ensures SessionsForDate(ClearSessionsForDate(h, d), d) == []
    ensures StartOfDay(e) != StartOfDay(d) ==>
              SessionsForDate(ClearSessionsForDate(h, d), e) == SessionsForDate(h, e)
  {
    OnDayOfOffDay(h, d, e);
  }

  lemma {:induction false} OnDayOfOffDay(h: History, d: int, e: int)
    ensures OnDay(OffDay(h, d), d) == []
    ensures StartOfDay(e) != StartOfDay(d) ==> OnDay(OffDay(h, d), e) == OnDay(h, e)
  {
    if |h| > 0 {
      OnDayOfOffDay(h[1..], d, e);
      var x := h[0];
      var rest := OffDay(h[1..], d);
      InDayIffSameDay(x.startTime, d);
      InDayIffSameDay(x.startTime, e);
      if !InDay(x.startTime, d) {
        var o := [x] + rest;
        assert OffDay(h, d) == o;
        assert o[0] == x && o[1..] == rest;
      } else {
        assert OffDay(h, d) == rest;
      }
    }
  }

  predicate StrictlyDesc(s: seq<int>) {
    forall i, j :: 0 <= i < j < |s| ==> s[i] > s[j]
  }

  /** Adds `x` to a strictly descending list unless it is there already. */
  function InsertDay(x: int, s: seq<int>): (r: seq<int>)
    requires StrictlyDesc(s)
    ensures StrictlyDesc(r)
    ensures forall y :: y in r <==> y == x || y in s
  {
    if |s| == 0 || x > s[0] then [x] + s
    else if x == s[0] then s
    else
      var rest := InsertDay(x, s[1..]);
      assert s == [s[0]] + s[1..];
      assert forall k :: 0 <= k < |rest| ==> s[0] > rest[k] by {
        forall k | 0 <= k < |rest| ensures s[0] > rest[k] {
          assert rest[k] in rest;
          if rest[k] != x {
            var j :| 0 <= j < |s[1..]| && s[1..][j] == rest[k];
            assert s[j + 1] == rest[k];
          }
        }
      }
      [s[0]] + rest
  }

  /** The start of day of every session, in history order. */
  function DayStarts(h: History): (r: seq<int>)
    ensures |r| == |h|
    ensures forall i :: 0 <= i < |h| ==> r[i] == StartOfDay(h[i].startTime)
  {
    if |h| == 0 then [] else [StartOfDay(h[0].startTime)] + DayStarts(h[1..])
  }

  /** `getDaysWithSessions`: the distinct starts of day of the history, latest
      first. */
  function DaysWithSessions(h: History): (r: seq<int>)
    ensures StrictlyDesc(r)
    ensures forall x :: x in r <==> x in DayStarts(h)
  {
    if |h| == 0 then []
    else
      var rest := DaysWithSessions(h[1..]);
      assert DayStarts(h) == [StartOfDay(h[0].startTime)] + DayStarts(h[1..]);
      InsertDay(StartOfDay(h[0].startTime), rest)
  }

  /** The seconds of application use recorded in one session. */
  function UsageSeconds(x: TimerSession): int {
    SumBy(x.appUsages, UsageDuration)
  }

  /** The number of usage rows recorded in one session. */
  function UsageCount(x: TimerSession): int {
    |x.appUsages|
  }

  /** The usages of the sessions one after another (`flatMap`): a usage
      occurs exactly when one of the sessions holds it, every row of every
      session is kept, and so is the application time. */
  function Flatten(ss: History): (r: seq<AppUsage>)
    ensures forall u :: u in r <==> exists x :: x in ss && u in x.appUsages
    ensures |ss| == 1 ==> r == ss[0].appUsages
    ensures |r| == SumBy(ss, UsageCount)
    ensures SumBy(r, UsageDuration) == SumBy(ss, UsageSeconds)
  {
    if |ss| == 0 then []
    else
      assert ss == [ss[0]] + ss[1..];
      var rest := Flatten(ss[1..]);
      SumByAppend(ss[0].appUsages, rest, UsageDuration);
      ss[0].appUsages + rest
  }

  /** Flattening two runs of sessions is flattening each, in order. With the
      one-session case above this fixes `Flatten` completely. */
  lemma {:induction false} FlattenAppend(a: History, b: History)
    ensures Flatten(a + b) == Flatten(a) + Flatten(b)
    decreases |a|
  {
    if |a| == 0 {
      assert a + b == b;
    } else {
      var c := a + b;
      assert c[0] == a[0] && c[1..] == a[1..] + b;
      FlattenAppend(a[1..], b);
    }
  }

  /** `getAppUsagesForDate`: the usages of the day's sessions of one category,
      newest session first; a usage occurs exactly when a session of that
      category starting on that day holds it, and the rows and seconds are
      those of the day's sessions of that category, whatever their order. */
  function AppUsagesForDate(h: History, d: int, category: TimerCategory): (r: seq<AppUsage>)
    ensures forall u :: u in r <==>
              exists x :: x in h && InDay(x.startTime, d) && x.category == category && u in x.appUsages
    ensures |r| == SumBy(OfCategories(OnDay(h, d), {category}), UsageCount)
    ensures SumBy(r, UsageDuration) == SumBy(OfCategories(OnDay(h, d), {category}), UsageSeconds)
  {
    var view := OfCategories(SessionsForDate(h, d), {category});
    OfCategoriesPermutation(SessionsForDate(h, d), OnDay(h, d), {category});
    SumByPermutation(view, OfCategories(OnDay(h, d), {category}), UsageCount);
    SumByPermutation(view, OfCategories(OnDay(h, d), {category}), UsageSeconds);
    Flatten(view)
  }

  /** `getAggregatedAppUsagesForDate`: one row per application used in the
      day's sessions of `category`, with the summed seconds and the first name
      seen, tagged with `category` and `d`, ordered by non-increasing duration.
      The day's total application time is preserved. */
  function AggregatedAppUsagesForDate(h: History, d: int, category: TimerCategory): (r: seq<AppUsage>)
    ensures SortedDesc(r, UsageDuration)
    ensures DistinctBy(r, UsageID)
    ensures forall i :: 0 <= i < |r| ==>
              var us := AppUsagesForDate(h, d, category);
              r[i].bundleID in IDs(us)
              && r[i] == AppUsage(r[i].bundleID, FirstName(us, r[i].bundleID),
                                  SumFor(us, r[i].bundleID), category, d)
    ensures forall k :: k in IDs(AppUsagesForDate(h, d, category)) ==>
              exists i :: 0 <= i < |r| && r[i].bundleID == k
    ensures SumBy(r, UsageDuration) == SumBy(AppUsagesForDate(h, d, category), UsageDuration)
  {
    AggregateUsages(AppUsagesForDate(h, d, category), category, d)
  }
}
