/** The five-second foreground-application sample taken while a work timer
    runs with application tracking on. The operating-system query for the
    frontmost application is an input: `None` when there is no frontmost
    application, otherwise its (optional) bundle identifier and (optional)
    localized name. */
module AppSampler {
  import opened Models
  import opened Sorting
  import opened UsageTable

  datatype FrontApp = FrontApp(bundleIdentifier: Option<string>, localizedName: Option<string>)

  /** Seconds credited per sample. */
  const SampleSeconds: int := 5

  /** Name recorded when the application reports none. */
  const UnknownAppName: string := "Unbekannt"

  function NameOf(app: FrontApp): string {
    match app.localizedName
    case Some(n) => n
    case None => UnknownAppName
  }

  /** A sample that names a bundle identifier. */
  predicate Identified(front: Option<FrontApp>) {
    front.Some? && front.value.bundleIdentifier.Some?
  }

  /** `trackCurrentApp`: credits five seconds to the frontmost application's
      entry, keeping the name recorded when the entry was created; without a
      frontmost application or without a bundle identifier nothing changes. */
  function TrackCurrentApp(t: Table, front: Option<FrontApp>): (r: Table)
    ensures !Identified(front) ==> r == t
    ensures Identified(front) ==>
              var id := front.value.bundleIdentifier.value;
              && Lookup(r, id) == Some(
                   match Lookup(t, id)
                   case Some(e) => Entry(id, e.appName, e.seconds + SampleSeconds)
                   case None => Entry(id, NameOf(front.value), SampleSeconds))
              && forall k :: k != id ==> Lookup(r, k) == Lookup(t, k)
    ensures KeysDistinct(t) ==> KeysDistinct(r)
    ensures SumBy(r, EntrySeconds) == SumBy(t, EntrySeconds) + (if Identified(front) then SampleSeconds else 0)
  {
    match front
    case None => t
    case Some(app) =>
      match app.bundleIdentifier
      case None => t
      case Some(id) => Accumulate(t, id, NameOf(app), SampleSeconds)
  }

  /** The first name observed for an application stays, even when a later
      sample reports another name. */
  lemma FirstObservedNameWins(t: Table, id: string, first: string, later: string)
    requires Lookup(t, id).None?
    ensures var t1 := TrackCurrentApp(t, Some(FrontApp(Some(id), Some(first))));
            var t2 := TrackCurrentApp(t1, Some(FrontApp(Some(id), Some(later))));
            Lookup(t2, id) == Some(Entry(id, first, 2 * SampleSeconds))
  {
  }
}
