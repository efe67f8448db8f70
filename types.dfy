/**
 * The records of the trip planner (src/types/trip.ts): catalog sources, timeline events,
 * the trip, the bulk-import JSON shape and the suggestion result, plus the Option wrapper
 * that stands for TypeScript's optional fields and `null`.
 */
module Types {

  datatype Option<+T> = None | Some(value: T) {
    /** The value, or `default` when absent (TypeScript's `x ?? default`). */
    function GetOr(default: T): T {
      match this
      case Some(v) => v
      case None => default
    }
  }

  /**
   * A catalogued place or activity. An absent or zero duration is "no duration" in the
   * source (it is falsy); durations are whole, non-negative minutes here.
   */
  datatype Source = Source(
    id: string,
    name: string,
    category: string,
    memo: string,
    tags: Option<seq<string>>,
    kind: Option<string>,
    durationMin: Option<nat>,
    anchorId: Option<string>,
    priority: Option<int>)

  /** One timeline block of the trip. */
  datatype TripEvent = TripEvent(
    id: string,
    date: string,
    startTime: string,
    endTime: string,
    title: string,
    location: string,
    category: string,
    memo: string,
    sourceId: Option<string>)

  datatype Trip = Trip(
    title: string,
    destination: string,
    startDate: string,
    endDate: string,
    events: seq<TripEvent>,
    createdAt: string)

  /** The import file's `trip` header (time zone and assumptions are not read by the importer). */
  datatype ImportTripInfo = ImportTripInfo(
    id: string,
    title: string,
    city: string,
    country: string,
    startDate: string,
    endDate: string)

  /** A source as written in the import file: `title` and `notes` instead of `name` and `memo`. */
  datatype ImportSource = ImportSource(
    id: string,
    kind: Option<string>,
    title: string,
    category: string,
    tags: Option<seq<string>>,
    anchorId: Option<string>,
    durationMin: Option<nat>,
    priority: Option<int>,
    notes: Option<string>)

  datatype ImportBlock = ImportBlock(
    id: string,
    start: string,
    end: string,
    title: string,
    sourceId: Option<string>)

  datatype ImportDay = ImportDay(
    day: string,
    date: string,
    baseAnchorId: Option<string>,
    blocks: seq<ImportBlock>)

  datatype TripImport = TripImport(
    trip: ImportTripInfo,
    sources: seq<ImportSource>,
    timeline: seq<ImportDay>)

  /** What the suggestion engine returns for one kept source. */
  datatype SuggestResult = SuggestResult(
    title: string,
    category: string,
    durationMin: int,
    reason: string,
    sourceId: string,
    anchorId: Option<string>,
    priority: int)
}
