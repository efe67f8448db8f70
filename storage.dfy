/**
 * The browser storage layer of src/lib/storage.ts. The three `localStorage` items
 * (`tripmemo_current_trip`, `tripmemo_sources`, `tripmemo_excluded_categories`) are the
 * fields of `TripStore`; `None` is an absent item, which every getter reads as empty.
 * Values are kept as they are rather than as JSON text.
 */
module Storage {
  import opened Types
  import opened Catalog

  // ---------------------------------------------------------------- the JSON import, as values

  /** One import source: `title` becomes the name and `notes || ""` the memo. */
  function ToSource(s: ImportSource): Source {
    Source(s.id, s.title, s.category, s.notes.GetOr(""), s.tags, s.kind, s.durationMin, s.anchorId, s.priority)
  }

  function ImportedSources(xs: seq<ImportSource>): (r: seq<Source>)
    ensures |r| == |xs|
    ensures forall i :: 0 <= i < |xs| ==> r[i] == ToSource(xs[i])
  {
    seq(|xs|, i requires 0 <= i < |xs| => ToSource(xs[i]))
  }

  /** `sources.find((s) => s.id === block.source_id)`: a block without a link finds nothing. */
  function LinkedSource(sources: seq<Source>, sourceId: Option<string>): Option<Source> {
    match sourceId
    case None => None
    case Some(id) => FirstWithId(sources, id)
  }

  /** `source?.category || "other"`. */
  function LinkedCategory(sources: seq<Source>, sourceId: Option<string>): string {
    var src := LinkedSource(sources, sourceId);
    if src.Some? && src.value.category != "" then src.value.category else "other"
  }

  /** The event pushed for one block of one day. */
  function BlockEvent(day: ImportDay, block: ImportBlock, sources: seq<Source>): TripEvent {
    var src := LinkedSource(sources, block.sourceId);
    TripEvent(
      block.id,
      day.date,
      block.start,
      block.end,
      block.title,
      if src.Some? && src.value.name != "" then src.value.name else block.title,
      LinkedCategory(sources, block.sourceId),
      if src.Some? then src.value.memo else "",
      block.sourceId)
  }

  function DayEvents(day: ImportDay, sources: seq<Source>): (r: seq<TripEvent>)
    ensures |r| == |day.blocks|
    ensures forall j :: 0 <= j < |day.blocks| ==> r[j] == BlockEvent(day, day.blocks[j], sources)
  {
    seq(|day.blocks|, j requires 0 <= j < |day.blocks| => BlockEvent(day, day.blocks[j], sources))
  }

  /** The events of the nested `for` loops: day after day, block after block. */
  function TimelineEvents(timeline: seq<ImportDay>, sources: seq<Source>): seq<TripEvent> {
    if timeline == [] then []
    else TimelineEvents(timeline[..|timeline| - 1], sources) + DayEvents(timeline[|timeline| - 1], sources)
  }

  function BlockCount(timeline: seq<ImportDay>): nat {
    if timeline == [] then 0
    else BlockCount(timeline[..|timeline| - 1]) + |timeline[|timeline| - 1].blocks|
  }

  function ImportedTrip(info: ImportTripInfo, events: seq<TripEvent>, createdAt: string): Trip {
    Trip(info.title, info.city + ", " + info.country, info.startDate, info.endDate, events, createdAt)
  }

  /** One event per block, in timeline order, each with its block's id and its day's date. */
  lemma {:induction false} TimelineEventsPerBlock(timeline: seq<ImportDay>, sources: seq<Source>)
    ensures |TimelineEvents(timeline, sources)| == BlockCount(timeline)
    ensures forall e :: e in TimelineEvents(timeline, sources) ==>
              e.category == LinkedCategory(sources, e.sourceId)
              && exists d :: d in timeline && e.date == d.date && exists b :: b in d.blocks && e.id == b.id && e.sourceId == b.sourceId
  {
    if timeline != [] {
      var init := timeline[..|timeline| - 1];
      var day := timeline[|timeline| - 1];
      TimelineEventsPerBlock(init, sources);
      assert forall d :: d in init ==> d in timeline;
      forall e | e in DayEvents(day, sources)
        ensures e.category == LinkedCategory(sources, e.sourceId)
        ensures exists b :: b in day.blocks && e.id == b.id && e.sourceId == b.sourceId
      {
        var j :| 0 <= j < |day.blocks| && DayEvents(day, sources)[j] == e;
        assert day.blocks[j] in day.blocks;
      }
    }
  }

  /** A block whose link names no catalog source becomes an event of category "other". */
  lemma UnlinkedBlockIsOther(sources: seq<Source>, sourceId: Option<string>)
    requires sourceId.None? || forall i :: 0 <= i < |sources| ==> sources[i].id != sourceId.value
    ensures LinkedCategory(sources, sourceId) == "other"
  {
  }

  /** The imported catalog keeps each input source's id, names it by its title and takes its notes (or "") as the memo. */
  lemma ImportedSourcesMapping(xs: seq<ImportSource>)
    ensures |ImportedSources(xs)| == |xs|
    ensures forall i :: 0 <= i < |xs| ==>
              var s := ImportedSources(xs)[i];
              s.id == xs[i].id && s.name == xs[i].title && s.category == xs[i].category
              && (xs[i].notes.Some? ==> s.memo == xs[i].notes.value) && (xs[i].notes.None? ==> s.memo == "")
  {
  }

  /** The inner `for` loop: push one event per block of the day. */
  method PushDayEvents(events: seq<TripEvent>, day: ImportDay, sources: seq<Source>) returns (r: seq<TripEvent>)
    ensures r == events + DayEvents(day, sources)
  {
    r := events;
    var b := 0;
    while b < |day.blocks|
      invariant 0 <= b <= |day.blocks|
      invariant r == events + DayEvents(day, sources)[..b]
    {
      var block := day.blocks[b];
      var source := LinkedSource(sources, block.sourceId);
      r := r + [TripEvent(
        block.id,
        day.date,
        block.start,
        block.end,
        block.title,
        if source.Some? && source.value.name != "" then source.value.name else block.title,
        if source.Some? && source.value.category != "" then source.value.category else "other",
        if source.Some? then source.value.memo else "",
        block.sourceId)];
      assert DayEvents(day, sources)[..b + 1] == DayEvents(day, sources)[..b] + [BlockEvent(day, block, sources)];
      b := b + 1;
    }
    assert DayEvents(day, sources)[..b] == DayEvents(day, sources);
  }

  /** The outer `for` loop over the days of the timeline. */
  method CollectEvents(timeline: seq<ImportDay>, sources: seq<Source>) returns (events: seq<TripEvent>)
    ensures events == TimelineEvents(timeline, sources)
  {
    events := [];
    var d := 0;
    while d < |timeline|
      invariant 0 <= d <= |timeline|
      invariant events == TimelineEvents(timeline[..d], sources)
    {
      events := PushDayEvents(events, timeline[d], sources);
      assert timeline[..d + 1][..d] == timeline[..d];
      d := d + 1;
    }
    assert timeline[..d] == timeline;
  }

  // ---------------------------------------------------------------- the store

  class TripStore {
    var tripItem: Option<Trip>
    var sourcesItem: Option<seq<Source>>
    var excludedItem: Option<seq<string>>

    /** Empty storage: no item is set. */
    constructor()
      ensures tripItem == None && sourcesItem == None && excludedItem == None
    {
      tripItem := None;
      sourcesItem := None;
      excludedItem := None;
    }

    /** `getCurrentTrip`. */
    function CurrentTrip(): Option<Trip>
      reads this
    {
      tripItem
    }

    /** `getSources`: the stored list, or the empty list when the item is absent. */
    function Sources(): (r: seq<Source>)
      reads this
      ensures sourcesItem.None? ==> r == []
      ensures sourcesItem.Some? ==> r == sourcesItem.value
    {
      sourcesItem.GetOr([])
    }

    /** `getExcludedCategories`: the stored list, or the empty list when the item is absent. */
    function ExcludedCategories(): (r: seq<string>)
      reads this
      ensures excludedItem.None? ==> r == []
      ensures excludedItem.Some? ==> r == excludedItem.value
    {
      excludedItem.GetOr([])
    }

    method SaveCurrentTrip(trip: Trip)
      modifies this
      ensures tripItem == Some(trip)
      ensures sourcesItem == old(sourcesItem) && excludedItem == old(excludedItem)
    {
      tripItem := Some(trip);
    }

    method ClearCurrentTrip()
      modifies this
      ensures tripItem == None
      ensures sourcesItem == old(sourcesItem) && excludedItem == old(excludedItem)
    {
      tripItem := None;
    }

    method SetSources(sources: seq<Source>)
      modifies this
      ensures sourcesItem == Some(sources)
      ensures tripItem == old(tripItem) && excludedItem == old(excludedItem)
    {
      sourcesItem := Some(sources);
    }

    /** `localStorage.removeItem("tripmemo_sources")`, as the page does on reset. */
    method RemoveSourcesItem()
      modifies this
      ensures sourcesItem == None && Sources() == []
      ensures tripItem == old(tripItem) && excludedItem == old(excludedItem)
    {
      sourcesItem := None;
    }

    /** `addSource`: the source goes at the end; the earlier sources stay as they were. */
    method AddSource(source: Source)
      modifies this
      ensures Sources() == old(Sources()) + [source]
      ensures |Sources()| == |old(Sources())| + 1 && Sources()[..|old(Sources())|] == old(Sources())
      ensures tripItem == old(tripItem) && excludedItem == old(excludedItem)
    {
      var sources := Sources();
      sources := sources + [source];
      sourcesItem := Some(sources);
      assert Sources()[..|old(Sources())|] == old(Sources());
    }

    /**
     * `removeSource`: answers the first source with the id, or nothing, and stores the
     * catalog without any source of that id, the rest in order.
     */
    method RemoveSource(id: string) returns (removed: Option<Source>)
      modifies this
      ensures removed == FirstWithId(old(Sources()), id)
      ensures Sources() == WithoutId(old(Sources()), id)
      ensures forall i :: 0 <= i < |Sources()| ==> Sources()[i].id != id
      ensures tripItem == old(tripItem) && excludedItem == old(excludedItem)
    {
      var sources := Sources();
      removed := FirstWithId(sources, id);
      var filtered := WithoutId(sources, id);
      sourcesItem := Some(filtered);
      assert forall i :: 0 <= i < |filtered| ==> filtered[i] in filtered;
    }

    /** `addExcludedCategory`: appends the category only when it is not excluded yet, and writes only then. */
    method AddExcludedCategory(category: string)
      modifies this
      ensures ExcludedCategories() == AddOnce(old(ExcludedCategories()), category)
      ensures category in old(ExcludedCategories()) ==> excludedItem == old(excludedItem)
      ensures category in ExcludedCategories()
      ensures tripItem == old(tripItem) && sourcesItem == old(sourcesItem)
    {
      var excluded := ExcludedCategories();
      if category !in excluded {
        excluded := excluded + [category];
        excludedItem := Some(excluded);
      }
    }

    /** `removeExcludedCategory`: every occurrence goes, the other entries keep their order. */
    method RemoveExcludedCategory(category: string)
      modifies this
      ensures ExcludedCategories() == RemoveAll(old(ExcludedCategories()), category)
      ensures category !in ExcludedCategories()
      ensures tripItem == old(tripItem) && sourcesItem == old(sourcesItem)
    {
      var excluded := RemoveAll(ExcludedCategories(), category);
      excludedItem := Some(excluded);
    }

    /** `clearExcludedCategories`: the item is removed, so the list reads as empty afterwards. */
    method ClearExcludedCategories()
      modifies this
      ensures excludedItem == None && ExcludedCategories() == []
      ensures tripItem == old(tripItem) && sourcesItem == old(sourcesItem)
    {
      excludedItem := None;
    }

    /** `getSourceCountByCategory`: one key per category present, holding the size of its group. */
    method GetSourceCountByCategory() returns (counts: map<string, nat>)
      ensures forall c :: c in counts <==> c in CategoryOrder(Sources())
      ensures forall c :: c in counts ==> counts[c] == |InCategory(Sources(), c)|
      ensures SumOver(counts, CategoryOrder(Sources())) == |Sources()|
    {
      counts := CountCategories(Sources());
      CountByCategoryCounts(Sources());
      CountValuesSumToTotal(Sources());
    }

    /** `getActiveSources`: the sources whose category is not excluded, in order. */
    method GetActiveSources() returns (active: seq<Source>)
      ensures active == ActiveSources(Sources(), ExcludedCategories())
      ensures forall s :: s in active <==> s in Sources() && s.category !in ExcludedCategories()
    {
      active := ActiveSources(Sources(), ExcludedCategories());
    }

    /**
     * `importTripFromJson`: maps the sources and the timeline, counts the categories, then
     * stores the catalog and the trip and clears the exclusions. The clock reading for
     * `createdAt` is a parameter.
     */
    method ImportTripFromJson(data: TripImport, createdAt: string)
      returns (trip: Trip, sources: seq<Source>, categoryCount: map<string, nat>)
      modifies this
      ensures sources == ImportedSources(data.sources)
      ensures trip == ImportedTrip(data.trip, TimelineEvents(data.timeline, sources), createdAt)
      ensures categoryCount == CountByCategory(sources)
      ensures sourcesItem == Some(sources) && tripItem == Some(trip) && excludedItem == None
      ensures ExcludedCategories() == []
    {
      sources := ImportedSources(data.sources);
      var events := CollectEvents(data.timeline, sources);
      trip := Trip(data.trip.title, data.trip.city + ", " + data.trip.country, data.trip.startDate, data.trip.endDate, events, createdAt);
      categoryCount := CountCategories(sources);
      SetSources(sources);
      SaveCurrentTrip(trip);
      ClearExcludedCategories();
    }
  }

  /** The imported category counts sum to the number of imported sources, one key per category. */
  lemma ImportCountsSumToSources(data: TripImport)
    ensures forall c :: c in CategoryOrder(ImportedSources(data.sources)) ==> c in CountByCategory(ImportedSources(data.sources))
    ensures SumOver(CountByCategory(ImportedSources(data.sources)), CategoryOrder(ImportedSources(data.sources))) == |data.sources|
  {
    CountValuesSumToTotal(ImportedSources(data.sources));
  }
}
