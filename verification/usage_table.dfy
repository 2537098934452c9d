/** The per-application tables the tracker keeps: a dictionary from bundle
    identifier to (first observed name, accumulated seconds). It is used for
    the usage buffer of the running session and for the per-day aggregation.
    A Swift dictionary has no defined iteration order; the table keeps its
    entries in first-insertion order, which is one order the dictionary may
    produce. */
module UsageTable {
  import opened Models
  import opened Sorting

  datatype Entry = Entry(bundleID: string, appName: string, seconds: int)

  type Table = seq<Entry>

  function EntrySeconds(e: Entry): int { e.seconds }

  function UsageID(u: AppUsage): string { u.bundleID }

  function UsageDuration(u: AppUsage): int { u.duration }

  /** Bundle identifiers occurring in a list of usages. */
  function IDs(us: seq<AppUsage>): set<string> {
    if |us| == 0 then {} else IDs(us[..|us| - 1]) + {us[|us| - 1].bundleID}
  }

  lemma {:induction false} IDsMember(us: seq<AppUsage>, k: string)
    ensures k in IDs(us) <==> exists i :: 0 <= i < |us| && us[i].bundleID == k
  {
    if |us| > 0 {
      var n := |us| - 1;
      IDsMember(us[..n], k);
      assert forall i :: 0 <= i < n ==> us[..n][i] == us[i];
    }
  }

  /** The dictionary read `table[k]`. */
  function Lookup(t: Table, k: string): (r: Option<Entry>)
    ensures r.Some? ==> r.value in t && r.value.bundleID == k
    ensures r.None? <==> forall i :: 0 <= i < |t| ==> t[i].bundleID != k
  {
    if |t| == 0 then None
    else if t[0].bundleID == k then Some(t[0])
    else
      var r := Lookup(t[1..], k);
      assert forall i :: 1 <= i < |t| ==> t[i] == t[1..][i - 1];
      r
  }

  /** Every key occurs once. */
  predicate KeysDistinct(t: Table) {
    |t| == 0 || (Lookup(t[1..], t[0].bundleID).None? && KeysDistinct(t[1..]))
  }

  /** With distinct keys every entry is what a lookup of its key finds. */
  lemma {:induction false} LookupOfEntry(t: Table, i: int)
    requires KeysDistinct(t) && 0 <= i < |t|
    ensures Lookup(t, t[i].bundleID) == Some(t[i])
  {
    if i > 0 {
      assert t[1..][i - 1] == t[i];
      LookupOfEntry(t[1..], i - 1);
    }
  }

  /** Distinct keys, stated by position. */
  lemma {:induction false} KeysDistinctByIndex(t: Table)
    requires KeysDistinct(t)
    ensures forall i, j :: 0 <= i < j < |t| ==> t[i].bundleID != t[j].bundleID
  {
    if |t| > 0 {
      KeysDistinctByIndex(t[1..]);
      forall i, j | 0 <= i < j < |t| ensures t[i].bundleID != t[j].bundleID {
        assert t[j] == t[1..][j - 1];
        if i > 0 {
          assert t[i] == t[1..][i - 1];
        }
      }
    }
  }

  /** What `table[k] = (current.0, current.1 + amount)` stores, where
      `current` is `table[k] ?? (name, 0)`. */
  function Merged(prior: Option<Entry>, k: string, name: string, amount: int): Entry {
    match prior
    case Some(e) => Entry(k, e.appName, e.seconds + amount)
    case None => Entry(k, name, amount)
  }

  /** Adds `amount` seconds to key `k`: a name already recorded is kept, a new
      key gets `name`, and every other key is untouched. */
  function Accumulate(t: Table, k: string, name: string, amount: int): (r: Table)
    ensures Lookup(r, k) == Some(Merged(Lookup(t, k), k, name, amount))
    ensures forall k' :: k' != k ==> Lookup(r, k') == Lookup(t, k')
    ensures KeysDistinct(t) ==> KeysDistinct(r)
    ensures SumBy(r, EntrySeconds) == SumBy(t, EntrySeconds) + amount
  {
    if |t| == 0 then
      var r := [Entry(k, name, amount)];
      assert r[1..] == [];
      r
    else if t[0].bundleID == k then
      var r := [t[0].(seconds := t[0].seconds + amount)] + t[1..];
      assert r[1..] == t[1..];
      r
    else
      var rest := Accumulate(t[1..], k, name, amount);
      var r := [t[0]] + rest;
      assert r[1..] == rest;
      r
  }

  /** Sum of the durations of the usages carrying bundle identifier `k`. */
  function SumFor(us: seq<AppUsage>, k: string): int {
    if |us| == 0 then 0
    else
      var n := |us| - 1;
      SumFor(us[..n], k) + (if us[n].bundleID == k then us[n].duration else 0)
  }

  /** Name carried by the earliest usage with bundle identifier `k`. */
  function FirstName(us: seq<AppUsage>, k: string): string
    requires k in IDs(us)
  {
    var n := |us| - 1;
    if k in IDs(us[..n]) then FirstName(us[..n], k) else us[n].appName
  }

  /** `FirstName` is the name of the earliest usage with that identifier. */
  lemma {:induction false} FirstNameIsFirst(us: seq<AppUsage>, k: string)
    requires k in IDs(us)
    ensures exists i :: 0 <= i < |us| && us[i].bundleID == k && us[i].appName == FirstName(us, k)
                        && forall j :: 0 <= j < i ==> us[j].bundleID != k
  {
    var n := |us| - 1;
    assert forall j :: 0 <= j < n ==> us[..n][j] == us[j];
    if k in IDs(us[..n]) {
      FirstNameIsFirst(us[..n], k);
    } else {
      IDsMember(us[..n], k);
    }
  }

  lemma {:induction false} SumForAbsent(us: seq<AppUsage>, k: string)
    requires k !in IDs(us)
    ensures SumFor(us, k) == 0
  {
    if |us| > 0 {
      SumForAbsent(us[..|us| - 1], k);
    }
  }

  /** Folds `Accumulate` over the usages in order: the aggregation loop of the
      per-day query. */
  function Aggregate(us: seq<AppUsage>): (r: Table)
    ensures KeysDistinct(r)
    ensures SumBy(r, EntrySeconds) == SumBy(us, UsageDuration)
  {
    if |us| == 0 then []
    else
      var n := |us| - 1;
      var u := us[n];
      assert us == us[..n] + [u];
      SumByAppend(us[..n], [u], UsageDuration);
      Accumulate(Aggregate(us[..n]), u.bundleID, u.appName, u.duration)
  }

  /** One aggregation step: the last usage's seconds go to its identifier,
      and no other identifier's entry changes. */
  lemma AggregateStep(us: seq<AppUsage>, k: string)
    requires |us| > 0
    ensures var n := |us| - 1;
            var prev := Lookup(Aggregate(us[..n]), k);
            Lookup(Aggregate(us), k) ==
              if us[n].bundleID == k then Some(Merged(prev, k, us[n].appName, us[n].duration)) else prev
  {
  }

  /** What a lookup after aggregation finds for `k`. */
  function Expected(us: seq<AppUsage>, k: string): Option<Entry> {
    if k in IDs(us) then Some(Entry(k, FirstName(us, k), SumFor(us, k))) else None
  }

  /** `Expected` follows the same step as the aggregation: the last usage's
      seconds go to its identifier, whose first name stays. */
  lemma ExpectedStep(us: seq<AppUsage>, k: string)
    requires |us| > 0
    ensures var n := |us| - 1;
            var prev := Expected(us[..n], k);
            Expected(us, k) ==
              if us[n].bundleID == k then Some(Merged(prev, k, us[n].appName, us[n].duration)) else prev
  {
    var n := |us| - 1;
    if us[n].bundleID == k && k !in IDs(us[..n]) {
      SumForAbsent(us[..n], k);
    }
  }

  /** After aggregation each bundle identifier that occurs has one entry,
      holding the first name seen and the summed seconds; no other key has
      one. */
  lemma {:induction false} AggregateLookup(us: seq<AppUsage>, k: string)
    ensures Lookup(Aggregate(us), k) ==
              if k in IDs(us) then Some(Entry(k, FirstName(us, k), SumFor(us, k))) else None
  {
    if |us| > 0 {
      AggregateLookup(us[..|us| - 1], k);
      AggregateStep(us, k);
      ExpectedStep(us, k);
    }
  }

  function ToUsage(e: Entry, category: TimerCategory, date: int): AppUsage {
    AppUsage(e.bundleID, e.appName, e.seconds, category, date)
  }

  /** The table turned into usage records tagged with a category and date. */
  function ToUsages(t: Table, category: TimerCategory, date: int): (r: seq<AppUsage>)
    ensures |r| == |t|
    ensures forall i :: 0 <= i < |t| ==> r[i] == ToUsage(t[i], category, date)
  {
    if |t| == 0 then [] else [ToUsage(t[0], category, date)] + ToUsages(t[1..], category, date)
  }

  lemma {:induction false} ToUsagesSum(t: Table, category: TimerCategory, date: int)
    ensures SumBy(ToUsages(t, category, date), UsageDuration) == SumBy(t, EntrySeconds)
  {
    if |t| > 0 {
      var v := ToUsages(t, category, date);
      ToUsagesSum(t[1..], category, date);
      assert v[1..] == ToUsages(t[1..], category, date);
    }
  }

  /** The aggregated rows of a list of usages: one row per bundle identifier
      carrying the first name seen and the summed seconds, ordered by
      non-increasing duration (the order of equal durations is unspecified).
      The grand total is preserved. */
  function AggregateUsages(us: seq<AppUsage>, category: TimerCategory, date: int): (r: seq<AppUsage>)
    ensures SortedDesc(r, UsageDuration)
    ensures DistinctBy(r, UsageID)
    ensures forall i :: 0 <= i < |r| ==>
              r[i].bundleID in IDs(us)
              && r[i] == AppUsage(r[i].bundleID, FirstName(us, r[i].bundleID),
                                  SumFor(us, r[i].bundleID), category, date)
    ensures forall k :: k in IDs(us) ==> exists i :: 0 <= i < |r| && r[i].bundleID == k
    ensures SumBy(r, UsageDuration) == SumBy(us, UsageDuration)
  {
    var t := Aggregate(us);
    var v := ToUsages(t, category, date);
    var r := SortDesc(v, UsageDuration);
    AggregateUsagesFacts(us, category, date, t, v, r);
    r
  }

  lemma AggregateUsagesFacts(us: seq<AppUsage>, category: TimerCategory, date: int,
                             t: Table, v: seq<AppUsage>, r: seq<AppUsage>)
    requires t == Aggregate(us) && v == ToUsages(t, category, date) && r == SortDesc(v, UsageDuration)
    ensures DistinctBy(r, UsageID)
    ensures forall i :: 0 <= i < |r| ==>
              r[i].bundleID in IDs(us)
              && r[i] == AppUsage(r[i].bundleID, FirstName(us, r[i].bundleID),
                                  SumFor(us, r[i].bundleID), category, date)
    ensures forall k :: k in IDs(us) ==> exists i :: 0 <= i < |r| && r[i].bundleID == k
    ensures SumBy(r, UsageDuration) == SumBy(us, UsageDuration)
  {
    ToUsagesSum(t, category, date);
    SumByPermutation(r, v, UsageDuration);
    KeysDistinctByIndex(t);
    assert DistinctBy(v, UsageID);
    SortKeepsDistinct(v, UsageDuration, UsageID);
    forall i | 0 <= i < |r|
      ensures r[i].bundleID in IDs(us)
      ensures r[i] == AppUsage(r[i].bundleID, FirstName(us, r[i].bundleID),
                               SumFor(us, r[i].bundleID), category, date)
    {
      RowFromTable(us, category, date, t, v, r, i);
    }
    forall k | k in IDs(us)
      ensures exists i :: 0 <= i < |r| && r[i].bundleID == k
    {
      RowForKey(us, category, date, t, v, r, k);
    }
  }

  lemma RowForKey(us: seq<AppUsage>, category: TimerCategory, date: int,
                  t: Table, v: seq<AppUsage>, r: seq<AppUsage>, k: string)
    requires t == Aggregate(us) && v == ToUsages(t, category, date) && multiset(r) == multiset(v)
    requires k in IDs(us)
    ensures exists i :: 0 <= i < |r| && r[i].bundleID == k
  {
    {
      AggregateLookup(us, k);
      var e := Lookup(t, k).value;
      var j :| 0 <= j < |t| && t[j] == e;
      assert v[j] in multiset(r);
      var i :| 0 <= i < |r| && r[i] == v[j];
      assert r[i].bundleID == k;
    }
  }

  lemma RowFromTable(us: seq<AppUsage>, category: TimerCategory, date: int,
                     t: Table, v: seq<AppUsage>, r: seq<AppUsage>, i: int)
    requires t == Aggregate(us) && v == ToUsages(t, category, date) && multiset(r) == multiset(v)
    requires 0 <= i < |r|
    ensures r[i].bundleID in IDs(us)
    ensures r[i] == AppUsage(r[i].bundleID, FirstName(us, r[i].bundleID),
                             SumFor(us, r[i].bundleID), category, date)
  {
    assert r[i] in multiset(v);
    var j :| 0 <= j < |v| && v[j] == r[i];
    LookupOfEntry(t, j);
    AggregateLookup(us, t[j].bundleID);
  }
}
