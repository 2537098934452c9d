/** The entities of the time tracker: timer categories, per-application usage
    records, timer sessions and the reasons an auto-pause can be classified as.
    Times are whole seconds since the epoch. */
module Models {

  datatype Option<+T> = None | Some(value: T)

  /** The three mutually exclusive timers. */
  datatype TimerCategory = Work | Coffee | Lunch {

    /** The string the category is persisted as (its Swift raw value). */
    function RawValue(): string {
      match this
      case Work => "work"
      case Coffee => "coffee"
      case Lunch => "lunch"
    }

    /** The label shown to the user. */
    function DisplayName(): string {
      match this
      case Work => "Arbeiten"
      case Coffee => "Kaffeepause"
      case Lunch => "Mittagessen"
    }
  }

  /** All categories in declaration order (the Swift `allCases`). */
  const AllCategories: seq<TimerCategory> := [Work, Coffee, Lunch]

  /** Decoding a persisted raw value back into a category. */
  function CategoryFromRaw(s: string): (r: Option<TimerCategory>)
    ensures r.Some? ==> r.value.RawValue() == s
    ensures r.None? ==> forall c: TimerCategory :: c.RawValue() != s
  {
    if s == "work" then Some(Work)
    else if s == "coffee" then Some(Coffee)
    else if s == "lunch" then Some(Lunch)
    else None
  }

  /** Encoding and decoding a category round-trips, and the raw values and
      the display names each tell the three categories apart. */
  lemma CategoryEncodingFaithful(a: TimerCategory, b: TimerCategory)
    ensures CategoryFromRaw(a.RawValue()) == Some(a)
    ensures a.RawValue() == b.RawValue() <==> a == b
    ensures a.DisplayName() == b.DisplayName() <==> a == b
    ensures a in AllCategories && |AllCategories| == 3
  {
  }

  /** Seconds spent in one application, as recorded for a session. */
  datatype AppUsage = AppUsage(
    bundleID: string,
    appName: string,
    duration: int,
    category: TimerCategory,
    date: int)

  /** One run of one timer. `endTime == None` marks the open session. */
  datatype TimerSession = TimerSession(
    category: TimerCategory,
    startTime: int,
    endTime: Option<int>,
    duration: int,
    appUsages: seq<AppUsage>)
  {
    predicate IsActive() {
      endTime.None?
    }
  }

  /** How a system lock is classified once it ends (the Swift cases
      `.coffee`, `.lunch` and `.ignored`). */
  datatype AutoPauseReason = CoffeeBreak | LunchBreak | Ignored
}
