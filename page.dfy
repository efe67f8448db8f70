/**
 * The session logic of the home page (src/app/page.tsx): the React state that mirrors the
 * store, the one-slot `lastSuggestParams` cache, and the handlers that change them. The
 * memory service is an outside call whose outcome (`ok`) is recorded and otherwise
 * ignored, as the handlers catch its failures; chat transcripts and loading flags are not
 * modelled.
 */
module Page {
  import opened Types
  import opened Catalog
  import opened Storage
  import Suggest
  import opened Intent

  /** The remembered arguments of the last suggest call. */
  datatype SuggestParams = SuggestParams(anchor: string, freeTime: nat, message: string)

  /** The outside actions of the handlers, in the order they happen. */
  datatype Effect =
    | ExcludeLocally(category: string)
    | MemoryForgetCategory(category: string, ok: bool)
    | MemoryRetrieveExcluded(ok: bool)
    | RestoreLocally(category: string)
    | SuggestCall(params: SuggestParams)

  const ResuggestMessage: string := "カフェ以外で提案"

  /** A forget: the local exclusion first, then the memory write, then the memory read-back. */
  function ForgetEffects(category: string, writeOk: bool, verifyOk: bool): (es: seq<Effect>)
    ensures |es| == 3 && es[0] == ExcludeLocally(category)
    ensures forall i :: 1 <= i < |es| ==> !es[i].ExcludeLocally? && !es[i].RestoreLocally?
  {
    [ExcludeLocally(category), MemoryForgetCategory(category, writeOk), MemoryRetrieveExcluded(verifyOk)]
  }

  /** `lastSuggestParams.current || { anchor: DEMO_ANCHOR, freeTime: DEMO_FREE_TIME, … }`, sent with the fixed re-suggest message. */
  function ResuggestParams(last: Option<SuggestParams>): (p: SuggestParams)
    ensures last.Some? ==> p.anchor == last.value.anchor && p.freeTime == last.value.freeTime
    ensures last.None? ==> p.anchor == DemoAnchor && p.freeTime == DemoFreeTime
    ensures p.message == ResuggestMessage
  {
    match last
    case Some(q) => SuggestParams(q.anchor, q.freeTime, ResuggestMessage)
    case None => SuggestParams(DemoAnchor, DemoFreeTime, ResuggestMessage)
  }

  /** The suggestion request a call with these parameters sends. */
  function RequestFor(sources: seq<Source>, excluded: seq<string>, p: SuggestParams): Suggest.Request {
    Suggest.Request(sources, excluded, p.anchor, p.freeTime, p.message)
  }

  class HomePage {
    const store: TripStore
    var trip: Option<Trip>
    var sources: seq<Source>
    var excludedCategories: seq<string>
    var lastSuggestParams: Option<SuggestParams>
    var log: seq<Effect>

    /** The React state shows what the store holds. */
    predicate Mirrors()
      reads this, store
    {
      trip == store.CurrentTrip() && sources == store.Sources() && excludedCategories == store.ExcludedCategories()
    }

    /** A freshly mounted page: empty state and no suggest parameters yet. */
    constructor(store: TripStore)
      ensures this.store == store
      ensures trip == None && sources == [] && excludedCategories == []
      ensures lastSuggestParams == None && log == []
    {
      this.store := store;
      trip := None;
      sources := [];
      excludedCategories := [];
      lastSuggestParams := None;
      log := [];
    }

    /** The page-load effect: every stored item and every piece of state is cleared, the cache too. */
    method ResetOnLoad()
      modifies this, store
      ensures store.tripItem == None && store.sourcesItem == None && store.excludedItem == None
      ensures Mirrors() && sources == [] && excludedCategories == [] && trip == None
      ensures lastSuggestParams == None
      ensures log == old(log)
    {
      store.ClearCurrentTrip();
      store.ClearExcludedCategories();
      store.RemoveSourcesItem();
      trip := None;
      sources := [];
      excludedCategories := [];
      lastSuggestParams := None;
    }

    /** `handleImportJson` on the fetched file: the import replaces trip and catalog and clears the exclusions. */
    method HandleImportJson(data: TripImport, createdAt: string)
      modifies this, store
      ensures Mirrors()
      ensures store.tripItem == Some(ImportedTrip(data.trip, TimelineEvents(data.timeline, ImportedSources(data.sources)), createdAt))
      ensures trip == store.tripItem
      ensures store.Sources() == ImportedSources(data.sources)
      ensures store.ExcludedCategories() == [] && store.excludedItem == None
      ensures lastSuggestParams == old(lastSuggestParams) && log == old(log)
    {
      var t, s, counts := store.ImportTripFromJson(data, createdAt);
      trip := Some(t);
      sources := store.Sources();
      excludedCategories := store.ExcludedCategories();
    }

    /** `handleAddSource` with the generated id as a parameter; the memory call is ignored. */
    method HandleAddSource(id: string, name: string, category: string, memo: string)
      requires Mirrors()
      modifies this, store
      ensures Mirrors()
      ensures store.Sources() == old(store.Sources()) + [Source(id, name, category, memo, None, None, None, None, None)]
      ensures store.excludedItem == old(store.excludedItem) && store.tripItem == old(store.tripItem)
      ensures lastSuggestParams == old(lastSuggestParams) && log == old(log)
    {
      store.AddSource(Source(id, name, category, memo, None, None, None, None, None));
      sources := store.Sources();
    }

    /** `handleRemoveSource`; the memory call that follows a removal is ignored. */
    method HandleRemoveSource(id: string) returns (removed: Option<Source>)
      requires Mirrors()
      modifies this, store
      ensures Mirrors()
      ensures removed == FirstWithId(old(store.Sources()), id)
      ensures store.Sources() == WithoutId(old(store.Sources()), id)
      ensures store.excludedItem == old(store.excludedItem) && store.tripItem == old(store.tripItem)
      ensures lastSuggestParams == old(lastSuggestParams) && log == old(log)
    {
      removed := store.RemoveSource(id);
      sources := store.Sources();
    }

    /**
     * `handleSuggest`: remember the parameters, then run the engine on the whole catalog and
     * the stored exclusions.
     */
    method HandleSuggest(anchor: string, freeTime: nat, message: string) returns (resp: Suggest.Response)
      modifies this
      ensures lastSuggestParams == Some(SuggestParams(anchor, freeTime, message))
      ensures log == old(log) + [SuggestCall(SuggestParams(anchor, freeTime, message))]
      ensures resp == Suggest.Respond(RequestFor(store.Sources(), store.ExcludedCategories(), lastSuggestParams.value))
      ensures forall i :: 0 <= i < |resp.suggestions| ==> resp.suggestions[i].category !in store.ExcludedCategories()
      ensures trip == old(trip) && sources == old(sources) && excludedCategories == old(excludedCategories)
    {
      var params := SuggestParams(anchor, freeTime, message);
      lastSuggestParams := Some(params);
      log := log + [SuggestCall(params)];
      resp := Suggest.Post(RequestFor(store.Sources(), store.ExcludedCategories(), params));
    }

    /**
     * `handleForgetCategory`: the category is excluded locally before either memory call,
     * and neither call's outcome changes that. The catalog is left as it is.
     */
    method HandleForgetCategory(category: string, writeOk: bool, verifyOk: bool)
      requires Mirrors()
      modifies this, store
      ensures Mirrors()
      ensures store.ExcludedCategories() == AddOnce(old(store.ExcludedCategories()), category)
      ensures store.sourcesItem == old(store.sourcesItem) && store.tripItem == old(store.tripItem)
      ensures log == old(log) + ForgetEffects(category, writeOk, verifyOk)
      ensures lastSuggestParams == old(lastSuggestParams)
    {
      store.AddExcludedCategory(category);
      log := log + [ExcludeLocally(category)];
      excludedCategories := store.ExcludedCategories();
      sources := store.Sources();
      log := log + [MemoryForgetCategory(category, writeOk)];
      log := log + [MemoryRetrieveExcluded(verifyOk)];
    }

    /** `handleRestoreCategory`: the category leaves the exclusion list; the catalog is left as it is. */
    method HandleRestoreCategory(category: string)
      requires Mirrors()
      modifies this, store
      ensures Mirrors()
      ensures store.ExcludedCategories() == RemoveAll(old(store.ExcludedCategories()), category)
      ensures store.sourcesItem == old(store.sourcesItem) && store.tripItem == old(store.tripItem)
      ensures log == old(log) + [RestoreLocally(category)]
      ensures lastSuggestParams == old(lastSuggestParams)
    {
      store.RemoveExcludedCategory(category);
      log := log + [RestoreLocally(category)];
      excludedCategories := store.ExcludedCategories();
      sources := store.Sources();
    }

    /** `handleClearTrip`: trip, exclusions and catalog are emptied; the suggest cache is kept. */
    method HandleClearTrip()
      modifies this, store
      ensures Mirrors() && trip == None && sources == [] && excludedCategories == []
      ensures store.tripItem == None && store.excludedItem == None && store.sourcesItem == None
      ensures lastSuggestParams == old(lastSuggestParams) && log == old(log)
    {
      store.ClearCurrentTrip();
      store.ClearExcludedCategories();
      trip := None;
      sources := [];
      excludedCategories := [];
      store.RemoveSourcesItem();
    }

    /**
     * The cafe demo branch of `handleChatSend`: forget `cafe`, then suggest again with the
     * cached anchor and free time (or the demo ones) and the fixed re-suggest message.
     */
    method ForgetCafeAndResuggest(writeOk: bool, verifyOk: bool) returns (resp: Suggest.Response)
      requires Mirrors()
      modifies this, store
      ensures Mirrors()
      ensures store.ExcludedCategories() == AddOnce(old(store.ExcludedCategories()), "cafe")
      ensures store.sourcesItem == old(store.sourcesItem) && store.tripItem == old(store.tripItem)
      ensures lastSuggestParams == Some(ResuggestParams(old(lastSuggestParams)))
      ensures log == old(log) + ForgetEffects("cafe", writeOk, verifyOk) + [SuggestCall(lastSuggestParams.value)]
      ensures resp == Suggest.Respond(RequestFor(store.Sources(), store.ExcludedCategories(), lastSuggestParams.value))
      ensures forall i :: 0 <= i < |resp.suggestions| ==> resp.suggestions[i].category !in store.ExcludedCategories()
      ensures forall i :: 0 <= i < |resp.suggestions| ==> resp.suggestions[i].category != "cafe"
    {
      HandleForgetCategory("cafe", writeOk, verifyOk);
      var params := ResuggestParams(lastSuggestParams);
      resp := HandleSuggest(params.anchor, params.freeTime, ResuggestMessage);
      assert "cafe" in store.ExcludedCategories();
    }

    /**
     * `handleChatSend`: route the message on the stored exclusions and carry out the chosen
     * branch. The chat branch goes to the language model and changes nothing here.
     */
    method HandleChatSend(content: string, writeOk: bool, verifyOk: bool)
      returns (action: Action, resp: Option<Suggest.Response>)
      requires Mirrors()
      modifies this, store
      ensures Mirrors()
      ensures action == Route(content, old(store.ExcludedCategories()))
      ensures store.sourcesItem == old(store.sourcesItem) && store.tripItem == old(store.tripItem)
      ensures action.Forget? ==>
                store.ExcludedCategories() == old(store.ExcludedCategories()) + [action.category]
                && log == old(log) + ForgetEffects(action.category, writeOk, verifyOk)
                && lastSuggestParams == old(lastSuggestParams) && resp.None?
      ensures action == ForgetCafeThenResuggest ==>
                store.ExcludedCategories() == old(store.ExcludedCategories()) + ["cafe"]
                && lastSuggestParams == Some(ResuggestParams(old(lastSuggestParams)))
                && log == old(log) + ForgetEffects("cafe", writeOk, verifyOk) + [SuggestCall(lastSuggestParams.value)]
      ensures action == DemoSuggest ==> lastSuggestParams == Some(SuggestParams(DemoAnchor, DemoFreeTime, content))
      ensures action.Suggest? ==> lastSuggestParams == Some(SuggestParams(action.anchor, action.minutes, content))
      ensures (action == DemoSuggest || action.Suggest?) ==>
                store.excludedItem == old(store.excludedItem) && log == old(log) + [SuggestCall(lastSuggestParams.value)]
      ensures (action == CafeAlreadyForgotten || action.AlreadyForgotten? || action == Chat) ==>
                store.excludedItem == old(store.excludedItem) && lastSuggestParams == old(lastSuggestParams) && log == old(log)
                && resp.None?
      ensures (action == DemoSuggest || action == ForgetCafeThenResuggest || action.Suggest?) ==>
                resp.Some?
                && resp.value == Suggest.Respond(RequestFor(store.Sources(), store.ExcludedCategories(), lastSuggestParams.value))
      ensures resp.Some? ==>
                forall i :: 0 <= i < |resp.value.suggestions| ==> resp.value.suggestions[i].category !in store.ExcludedCategories()
      ensures action == ForgetCafeThenResuggest ==>
                forall i :: 0 <= i < |resp.value.suggestions| ==> resp.value.suggestions[i].category != "cafe"
    {
      action := Route(content, store.ExcludedCategories());
      RouteForgetRespectsLedger(content, store.ExcludedCategories());
      resp := None;
      match action {
        case DemoSuggest =>
          var r := HandleSuggest(DemoAnchor, DemoFreeTime, content);
          resp := Some(r);
        case CafeAlreadyForgotten =>
        case ForgetCafeThenResuggest =>
          var r := ForgetCafeAndResuggest(writeOk, verifyOk);
          resp := Some(r);
        case AlreadyForgotten(_) =>
        case Forget(c) =>
          HandleForgetCategory(c, writeOk, verifyOk);
        case Suggest(anchor, minutes) =>
          var r := HandleSuggest(anchor, minutes, content);
          resp := Some(r);
        case Chat =>
      }
    }
  }
}
