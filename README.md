# Trip memo: suggestion engine, exclusion ledger and chat routing

A Dafny model of the core of a small travel-memo web application. A traveller keeps a
catalog of places ("sources"), each with a category. Saying "I've had enough cafés" in
the chat *forgets* a category. Forgetting does not delete those sources; it adds the
category to an exclusion ledger. A deterministic engine then suggests up to three
places that fit the free time. It never suggests a place from an excluded category.

The model has eight modules:

- `Types` (types.dfy): the records of `src/types/trip.ts`. These are sources, trip
  events, trips, the import file format and the suggestion result.
- `Strings` (strings.dfy): the string operations the source relies on.
  - `toLowerCase` on ASCII letters, `includes` and `trim` with JavaScript's white space.
  - decimal printing and parsing of naturals, and `join`.
- `Catalog` (catalog.dfy): the value-level filters shared by the storage layer, the
  engine and the panel.
  - the ledger append-once and remove-all functions;
  - the active and excluded filters and the id lookup and removal;
  - the category order of first appearance and the per-category counts.
- `Suggest` (suggest.dfy): the `POST` handler of `src/app/api/suggest/route.ts` and
  `buildReason`.
  - the exclusion and duration filters and the score;
  - the stable sort by descending score, the top three and the mapping to `SuggestResult`;
  - the debug record.
- `Storage` (storage.dfy): `src/lib/storage.ts`. The class `TripStore` holds the three
  `localStorage` items (current trip, sources, excluded categories) as fields. `None`
  is an absent item, which reads as empty. It also holds the JSON import.
- `Intent` (intent.dfy): the message classifiers of `src/app/page.tsx`.
  - the two demo phrases and the category-forget detector over its keyword table;
  - the leftmost `(\d+)\s*(分|min)` and `anchor_\w+` searches;
  - the first-match-wins routing to an `Action`.
- `Page` (page.dfy): the page's session state as the class `HomePage`.
  - the React state mirroring the store and the one-slot `lastSuggestParams` cache;
  - a log of outside effects, which shows the order of the local exclusion and the memory calls;
  - the handlers.
- `SourcePanel` (source_panel.dfy): the source panel of `src/components/SourcePanel.tsx`.
  - the icon fallback and the `grouped` dictionary built by `forEach`;
  - the three category lists, the header's active count and the blank-name guard.

The memory service, the language model and the clock are outside collaborators. In the
model the time `createdAt` and the generated id are parameters. The forget handler's two
memory calls (the category write and the read-back) each take a boolean parameter for
whether the call succeeded. It is recorded in the effect log and changes nothing else,
because the page catches every failure of those calls. The memory calls that follow
adding a source and removing a source (`src/app/page.tsx:153-178`) are not modelled at
all: their outcome never reaches the page's state (see "## Left out").

Behaviour of the code that the model keeps as written:

- `handleClearTrip` leaves the re-suggest cache as it is; only the page-load effect clears
  it (`src/app/page.tsx:97`). `Page.HomePage.HandleClearTrip` keeps it.
- The reason falls back to "近くで利用可能" when the joined string is empty
  (`src/app/api/suggest/route.ts:156`). So a source whose memo is that same text gets the
  same reason as one with no phrase at all. `Suggest.ReasonFallback` states that exact
  condition.
- The two demo-phrase detectors match the message as written, with no lower-casing.
  `detectCategoryForget` lower-cases both the message and each keyword.
- "別の" fires the café phrase but is not one of the detector's forget patterns.

## Model

| member | source | states |
|---|---|---|
| Strings.Lower | src/app/api/suggest/route.ts:75 | lower-casing keeps the length and maps each character by ASCII lower-casing |
| Strings.LowerKeepsIncludes | src/app/api/suggest/route.ts:75-88 | a lower-case keyword found in a message is still found after the message is lower-cased |
| Strings.Trim | src/components/SourcePanel.tsx:52-54 | trimming gives "" exactly when every character is JavaScript white space; otherwise neither end of the result is white space; the result is a slice of the input and everything cut off before and after it is white space |
| Strings.DecimalRoundTrip | src/app/api/suggest/route.ts:148 | parsing the decimal text of a natural number gives the number back |
| Strings.NatToDecimal | src/app/api/suggest/route.ts:148 | the decimal text of a number is non-empty, all digits and has no leading zero |
| Strings.JoinIncludes | src/app/api/suggest/route.ts:156 | every part occurs in the joined string |
| Strings.JoinStartsWithFirst | src/app/api/suggest/route.ts:156 | the joined string begins with the first part |
| Strings.JoinLength | src/app/api/suggest/route.ts:156 | a join of two or more parts is at least as long as the first two parts and the separator |
| Catalog.AddOnce | src/lib/storage.ts:55-61 | the category ends up present; a present category leaves the list as it is; a new one is appended at the end; no duplicates are introduced |
| Catalog.AddOnceIdempotent | src/lib/storage.ts:55-61 | adding an exclusion twice is the same as adding it once |
| Catalog.RemoveAll | src/lib/storage.ts:63-66 | every occurrence of the category goes and exactly the other entries stay; removing a non-member changes nothing; a one-entry list keeps its entry exactly when it is another category; no duplicates are introduced |
| Catalog.RemoveAllKeepsOrder | src/lib/storage.ts:63-66 | removing from a concatenation is removing from each part, so the kept entries stay in their order and multiplicity |
| Catalog.RestoreUndoesForget | src/lib/storage.ts:55-66 | restoring a category that was newly forgotten gives back the exact earlier list |
| Catalog.ActiveSources | src/lib/storage.ts:83-87 | keeps exactly the sources whose category is not excluded; a single source is kept exactly when its category is not excluded; with no exclusions it is the whole catalog |
| Catalog.ActiveSourcesKeepOrder | src/lib/storage.ts:83-87 | filtering a concatenation is filtering each part, so the kept sources stay in catalog order |
| Catalog.ExcludedSources | src/app/api/suggest/route.ts:46 | keeps exactly the sources whose category is excluded |
| Catalog.ExclusionSplitsCatalog | src/app/api/suggest/route.ts:41-46 | the active and the excluded sources together are the catalog as a multiset, and their sizes add up |
| Catalog.InCategory | src/components/SourcePanel.tsx:60-65 | the group of a category holds exactly the sources of that category; a single source forms its category's group; a category no source has has an empty group |
| Catalog.InCategoryKeepsOrder | src/components/SourcePanel.tsx:60-65 | the group of a concatenation is the two parts' groups one after the other, so a group keeps catalog order |
| Catalog.FirstWithId | src/lib/storage.ts:41 | finds nothing exactly when no source has the id, and otherwise the first source that has it |
| Catalog.WithoutId | src/lib/storage.ts:42 | keeps exactly the sources with another id; an absent id leaves the catalog as it is |
| Catalog.RemoveUniqueId | src/lib/storage.ts:39-45 | removing an id held by one source only deletes that source and keeps the others in order |
| Catalog.CategoryOrder | src/components/SourcePanel.tsx:60-67 | each category once, exactly those some source has |
| Catalog.CategoryOrderByFirstSource | src/components/SourcePanel.tsx:60-67 | every listed category has a source, and a category listed earlier has its first source earlier in the catalog |
| Catalog.ActiveCategories | src/components/SourcePanel.tsx:67-69 | the keys that are not excluded, without duplicates when the keys have none |
| Catalog.ExcludedCategoriesIn | src/components/SourcePanel.tsx:70-72 | the keys that are excluded, without duplicates when the keys have none |
| Catalog.SumOverActiveCategories | src/components/SourcePanel.tsx:67-83 | the groups of the active categories hold exactly as many sources as the active filter keeps |
| Catalog.CountsSumToTotal | src/lib/storage.ts:72-80 | the group sizes over all categories add up to the number of sources |
| Catalog.CountByCategoryCounts | src/lib/storage.ts:72-80 | the count dictionary has a key for exactly the categories present, holding the size of each group |
| Catalog.CountValuesSumToTotal | src/lib/storage.ts:72-80 | the values of the count dictionary add up to the number of sources |
| Catalog.CountCategories | src/lib/storage.ts:75-79 | the counting loop builds the per-category count dictionary |
| Suggest.PriorityOrDefault | src/app/api/suggest/route.ts:60 | a set, non-zero priority is used as it is, and otherwise it is 3 |
| Suggest.DurationOrDefault | src/app/api/suggest/route.ts:101 | a set, non-zero duration is used as it is, and otherwise it is 30 |
| Suggest.FitBonus | src/app/api/suggest/route.ts:67-71 | the fit bonus lies between 0 and 15 and is positive exactly when a non-zero duration fits the free time |
| Suggest.ScoreCandidate | src/app/api/suggest/route.ts:59-92 | the step-by-step score equals the score function |
| Suggest.ScoreBreakdown | src/app/api/suggest/route.ts:59-92 | the score is the base priority × 10, plus 30 exactly on an anchor match, plus 15 · duration / free time exactly when a duration fits, plus 20 exactly when the lower-cased message has a keyword of the source's own category; the extra is between 0 and 65 |
| Suggest.MessageBonusOwnCategory | src/app/api/suggest/route.ts:73-89 | a source earns the keyword bonus at most once: 20 when the message has a keyword of its own category, else 0 |
| Suggest.KeywordsAreLowerCase | src/app/api/suggest/route.ts:76-78 | every intent keyword is already lower-case |
| Suggest.KeywordEarnsBonus | src/app/api/suggest/route.ts:75-88 | a message holding one of the category's keywords, in any letter case, earns the bonus |
| Suggest.Feasible | src/app/api/suggest/route.ts:52-55 | keeps exactly the sources with no duration, a zero duration, or a duration that fits; a single source is kept exactly when it fits |
| Suggest.FeasibleKeepsOrder | src/app/api/suggest/route.ts:52-55 | filtering a concatenation is filtering each part, so the feasible sources, and the positions that break score ties, stay in catalog order |
| Suggest.ScoreAll | src/app/api/suggest/route.ts:59-92 | each feasible source is paired with its score and its position |
| Suggest.Insert | src/app/api/suggest/route.ts:95 | inserting into a sorted list keeps it sorted by descending score with ties in position order, and adds exactly that element |
| Suggest.SortByScore | src/app/api/suggest/route.ts:95 | the result is a permutation sorted by descending score, with equal scores kept in their original order |
| Suggest.StableSortUnique | src/app/api/suggest/route.ts:95 | two stable descending orders of the same elements are equal, so the ranking is determined by its input |
| Suggest.BuildReason | src/app/api/suggest/route.ts:142-157 | the step-by-step push and join gives the reason function |
| Suggest.ReasonPartsNonEmpty | src/app/api/suggest/route.ts:143-155 | there are at most four phrases and none is empty |
| Suggest.ReasonFallback | src/app/api/suggest/route.ts:156 | the reason is "近くで利用可能" exactly when no phrase applies or the only phrase is a memo equal to it |
| Suggest.ReasonMentionsParts | src/app/api/suggest/route.ts:153-156 | every applicable phrase appears in the reason |
| Suggest.ReasonStartsNearAnchor | src/app/api/suggest/route.ts:144-145 | with an anchor match the reason opens with "現在地の近く" |
| Suggest.CategoriesOf | src/app/api/suggest/route.ts:115 | the result categories are the suggestions' categories, in order |
| Suggest.SuggestionsFromFeasibleSources | src/app/api/suggest/route.ts:41-106 | every suggestion is the mapping of a catalog source that is not excluded and fits the free time |
| Suggest.SuggestionFields | src/app/api/suggest/route.ts:98-106 | each suggestion copies its source's name, category, id and anchor, carries its reason, and falls back to priority 3 |
| Suggest.NoExcludedCategoryInResults | src/app/api/suggest/route.ts:114-121 | no suggestion and no reported result category is excluded |
| Suggest.SuggestionDurations | src/app/api/suggest/route.ts:53-55 | a suggestion from a source with a duration shows that duration, which is within the free time; any other suggestion shows 30 |
| Suggest.SuggestionCount | src/app/api/suggest/route.ts:94-96 | there are min(3, feasible) suggestions |
| Suggest.TopIsPrefixOfStableOrder | src/app/api/suggest/route.ts:94-96 | the top candidates are the first entries of any stable descending order of the scored feasible sources |
| Suggest.DebugConsistent | src/app/api/suggest/route.ts:124-135 | excluded plus kept sources make the total; the duration filter never adds; `cafe_in_results` holds exactly when a suggestion is a café, and never when cafés are excluded |
| Suggest.ScoreEach | src/app/api/suggest/route.ts:59-92 | the scoring loop gives each feasible source its score and position |
| Suggest.MapResults | src/app/api/suggest/route.ts:98-106 | the result loop maps each top candidate to its `SuggestResult` |
| Suggest.Post | src/app/api/suggest/route.ts:41-135 | the handler computes the response the model defines, and no suggestion has an excluded category |
| Storage.ImportedSources | src/lib/storage.ts:96-106 | one source per input source, in order, each mapped by the field mapping |
| Storage.ImportedSourcesMapping | src/lib/storage.ts:96-106 | an imported source keeps its id and category, is named by its title, and takes its notes or "" as memo |
| Storage.DayEvents | src/lib/storage.ts:111-125 | one event per block of the day, in order |
| Storage.TimelineEventsPerBlock | src/lib/storage.ts:108-126 | one event per timeline block; each event carries a block's id and link and its day's date, and its category is the linked source's or "other" |
| Storage.UnlinkedBlockIsOther | src/lib/storage.ts:113-121 | a block linked to no catalog source gets category "other" |
| Storage.PushDayEvents | src/lib/storage.ts:111-125 | the inner loop appends the day's events |
| Storage.CollectEvents | src/lib/storage.ts:108-126 | the nested loops build the events of the whole timeline |
| Storage.TripStore.constructor | src/lib/storage.ts:3-5 | storage starts with none of the three items |
| Storage.TripStore.Sources | src/lib/storage.ts:23-27 | an absent sources item reads as the empty list |
| Storage.TripStore.ExcludedCategories | src/lib/storage.ts:49-53 | an absent exclusions item reads as the empty list |
| Storage.TripStore.SaveCurrentTrip | src/lib/storage.ts:14-16 | the trip item is set; the other items are untouched |
| Storage.TripStore.ClearCurrentTrip | src/lib/storage.ts:18-20 | the trip item is removed; the other items are untouched |
| Storage.TripStore.SetSources | src/lib/storage.ts:29-31 | the sources item is set; the other items are untouched |
| Storage.TripStore.RemoveSourcesItem | src/app/page.tsx:92 | the sources item is removed, so the catalog reads as empty |
| Storage.TripStore.AddSource | src/lib/storage.ts:33-37 | the source is appended; the length grows by one and the earlier sources are unchanged; exclusions untouched |
| Storage.TripStore.RemoveSource | src/lib/storage.ts:39-45 | answers the first source with the id or nothing; afterwards no source has the id and the others keep their order; exclusions untouched |
| Storage.TripStore.AddExcludedCategory | src/lib/storage.ts:55-61 | the ledger becomes its append-once update, is not written when the category was present, and the catalog is untouched |
| Storage.TripStore.RemoveExcludedCategory | src/lib/storage.ts:63-66 | the ledger becomes its remove-all update and the catalog is untouched |
| Storage.TripStore.ClearExcludedCategories | src/lib/storage.ts:68-70 | the ledger reads as empty afterwards and the catalog is untouched |
| Storage.TripStore.GetSourceCountByCategory | src/lib/storage.ts:73-80 | one key per category present, holding its group size; the values sum to the number of sources |
| Storage.TripStore.GetActiveSources | src/lib/storage.ts:83-87 | exactly the stored sources whose category is not excluded, in order |
| Storage.TripStore.ImportTripFromJson | src/lib/storage.ts:90-149 | returns the mapped sources, the trip of the mapped timeline and the category counts; stores the catalog and the trip and clears the ledger |
| Storage.ImportCountsSumToSources | src/lib/storage.ts:137-141 | the import's category counts sum to the number of input sources |
| Intent.MuseumEarlyFinishCore | src/app/page.tsx:35-40 | the museum phrase fires exactly on a museum term together with "早く終わ" or "どこ行こう" |
| Intent.CafePhraseNeedsBoth | src/app/page.tsx:43-48 | the café phrase needs both a café term and an enough/forget term, and "カフェ" with "十分" fires it |
| Intent.FirstKeywordHit | src/app/page.tsx:63-65 | the first table entry, in table order, whose lower-cased keyword occurs in the message |
| Intent.DetectCategoryForget | src/app/page.tsx:59-67 | the early-return loop over the table computes the detected category |
| Intent.DetectedCategorySpec | src/app/page.tsx:59-67 | a category is detected exactly when a forget pattern and some table keyword occur in the lower-cased message, and it is always one of the table's categories |
| Intent.KeywordWithForgetIsDetected | src/app/page.tsx:59-67 | any table keyword together with a forget pattern leads to a detection no later in the table than that keyword |
| Intent.MinutesParseIsGreedy | src/app/page.tsx:439 | a match of the minutes pattern `(\d+)\s*` followed by 分 or min at a position captures the whole digit run there |
| Intent.MinutesMatchIsParse | src/app/page.tsx:439 | the greedy parse at a position, when it reaches the unit, is a match |
| Intent.FirstMinutesMatch | src/app/page.tsx:439 | the leftmost match of the minutes pattern, or none when there is no match |
| Intent.FirstAnchorMatch | src/app/page.tsx:446 | the leftmost match of `anchor_\w+`, or none when there is no match |
| Intent.AnchorIn | src/app/page.tsx:446-447 | the whole word of the leftmost anchor match, or the demo anchor when there is none |
| Intent.RouteFirstMatchWins | src/app/page.tsx:346-462 | each action is chosen exactly when its own test passes and every earlier test fails |
| Intent.RouteForgetRespectsLedger | src/app/page.tsx:384-434 | a forget is routed to forgetting only for a category not yet excluded, and to "already forgotten" only for one that is |
| Intent.RouteSuggestParameters | src/app/page.tsx:439-447 | the minutes are the digits of the leftmost minutes match, no earlier position matches, and the anchor is the one found in the message |
| Page.ForgetEffects | src/app/page.tsx:232-278 | a forget performs the local exclusion first, then two memory calls that never exclude or restore |
| Page.ResuggestParams | src/app/page.tsx:399-411 | the re-suggest uses the cached anchor and time, or the demo anchor and 90 minutes, with the fixed message |
| Page.HomePage.constructor | src/app/page.tsx:86 | a new page has empty state and no cached suggest parameters |
| Page.HomePage.ResetOnLoad | src/app/page.tsx:89-99 | all three items are removed, the state is empty and the cache is empty |
| Page.HomePage.HandleImportJson | src/app/page.tsx:102-111 | the store and the state hold the imported trip (the mapped header with the events of the mapped timeline and the given time) and the imported catalog; the ledger is cleared; the state mirrors the store |
| Page.HomePage.HandleAddSource | src/app/page.tsx:153-164 | the new source is appended to the catalog and the ledger and trip are untouched |
| Page.HomePage.HandleRemoveSource | src/app/page.tsx:166-178 | the first source with the id is answered and every source with the id is removed |
| Page.HomePage.HandleSuggest | src/app/page.tsx:181-228 | the cache holds this call's parameters, and the response is the engine's on the stored catalog and ledger, with no excluded category |
| Page.HomePage.HandleForgetCategory | src/app/page.tsx:232-293 | the ledger gets the category appended once, before either memory call, whatever they return; the catalog is untouched |
| Page.HomePage.HandleRestoreCategory | src/app/page.tsx:295-303 | the category leaves the ledger and the catalog is untouched |
| Page.HomePage.HandleClearTrip | src/app/page.tsx:504-512 | trip, ledger and catalog are emptied and the suggest cache is kept |
| Page.HomePage.ForgetCafeAndResuggest | src/app/page.tsx:395-411 | forgets `cafe` once. It then suggests again with the cached anchor and free time, or the demo ones when nothing is cached, and the fixed re-suggest message. The log is the forget effects followed by that one suggest call. No suggestion returned is a café or in the ledger. |
| Page.HomePage.HandleChatSend | src/app/page.tsx:343-461 | takes the routed action. A forget appends once. It re-suggests only for the café phrase, which uses the cached parameters; a general forget leaves the cache as it was and returns no response. An "already forgotten" message leaves ledger, cache and log as they were. Every suggestion returned avoids the ledger. |
| SourcePanel.CategoryIconFallback | src/components/SourcePanel.tsx:16-35 | a known category shows its table icon, any other shows the pin, and the pin is shown exactly for unknown categories and "other" |
| SourcePanel.GroupByCategory | src/components/SourcePanel.tsx:60-65 | the groups' keys are the categories in order of first appearance, and each group holds exactly its category's sources, in catalog order, and is not empty |
| SourcePanel.GroupStep | src/components/SourcePanel.tsx:62-65 | one `forEach` step keeps the grouping exact for the sources consumed so far |
| SourcePanel.GroupsPartitionSources | src/components/SourcePanel.tsx:60-65 | every source is in the group of its own category and in no other, and the groups add up to the catalog |
| SourcePanel.ExcludedWithoutSources | src/components/SourcePanel.tsx:73-75 | keeps exactly the excluded categories that are not keys of the grouping |
| SourcePanel.ExcludedWithoutSourcesSpec | src/components/SourcePanel.tsx:73-75 | an excluded category is listed without sources exactly when no source has it |
| SourcePanel.CategoryListsPartitionKeys | src/components/SourcePanel.tsx:67-72 | the active and the excluded-with-sources lists are disjoint, cover every key, and their sizes add up to the number of keys |
| SourcePanel.ActiveCountMatchesGroups | src/components/SourcePanel.tsx:83 | the header's active count is the number of active sources, which is the combined size of the active groups |
| SourcePanel.AddRequest | src/components/SourcePanel.tsx:51-58 | nothing is added exactly when the name is blank; otherwise the trimmed name, which is non-empty and neither starts nor ends with white space, and the trimmed memo are passed on with the category |

## Left out

- Suggest.SortByScore: `scored.sort` sorts the array in place; the model sorts a sequence value with a stable insertion sort. So in-place update and aliasing of the array are not modelled.
- Priorities are integers (`Option<int>`). A fractional priority such as 4.5, which the source scores as 45 and counts as high (`>= 4`), is not modelled.
- Durations are natural numbers. Negative, fractional or non-numeric `duration_min` values, and a missing or non-numeric `free_time_min`, are not modelled.
- Scores are exact reals. IEEE rounding of `fitRatio * 15` and the `toFixed` used in logs are not modelled.
- Strings.Lower folds only ASCII letters, while `toLowerCase` folds all of Unicode. The keywords are ASCII or Japanese and already lower-case, but a message can hold other characters that `toLowerCase` maps onto ASCII letters: U+212A KELVIN SIGN becomes "k", so "MAR\u212AET" contains "market" in JavaScript and not in the model. Such messages are not modelled. `\d`, `\s` and `\w` follow JavaScript's definitions for ASCII and its white-space set.
- `parseInt` is modelled as the exact value of the digit run. Precision loss on runs longer than 15 digits is not modelled.
- CategoryOrder is the insertion order of the category keys. `Object.keys` and `Object.entries` list integer-like keys (a category named "1" or "42") first, in ascending numeric order. So for such category names the order of the panel's groups and category lists, and of the import's count summary, differs from the model.
- Record and dictionary lookups see only the object's own keys. A category named like an `Object.prototype` member (`constructor`, `toString`, …) behaves differently in the source; that is not modelled.
- Suggest.Post takes a well-formed request body. A body with missing fields, which makes the handler answer status 500, is not modelled.
- JSON text and `localStorage` itself are not modelled: the items hold values. The `typeof window === "undefined"` branch taken during server rendering is not modelled.
- `generateId` reads the clock and a random source, so ids are a parameter of `HandleAddSource`. `new Date().toISOString()` is the `createdAt` parameter.
- The memory service (`src/lib/memu.ts`, `src/app/api/memory/route.ts`), the language model (`src/lib/claude.ts`, `src/app/api/chat/route.ts`) and `fetch` are not part of this model. The success of the forget handler's memory write and read-back is a parameter and is logged. The memory calls after adding a source and after removing one (`src/app/page.tsx:153-178`) are not modelled: HandleAddSource and HandleRemoveSource ignore them, as their outcome never reaches the page's state.
- Page.HomePage.HandleChatSend: the chat branch only returns `Chat`. Sending the conversation to the language model, and the trip update that `extractTripJson` may read from its answer, are not modelled.
- `handleChangeRequest`/`handleChangeSubmit` and `extractTripJson` are not modelled; they are answered by the language model.
- Page.HomePage.HandleSuggest returns the engine's response. The markdown text the page renders from it, and the failure message when `fetch` fails, are not modelled.
- Chat transcripts, loading flags, React re-render timing and await interleavings are not modelled. Each handler is one sequential state update.
- The add form of the source panel: only the decision and the trimmed values are modelled (SourcePanel.AddRequest). Clearing the form fields afterwards is not.
- JSX, styling, `Timeline.tsx`, `ChatPanel.tsx`, `ChangeModal.tsx`, `Header.tsx` and all `console` output are presentation and are not modelled.
- Concrete example messages are not proved. The routing lemmas state the behaviour for every message instead.
