/**
 * The deterministic suggestion engine of src/app/api/suggest/route.ts: the request body,
 * the exclusion and duration filters, the score of each candidate, the stable sort by
 * descending score, the top three, the mapping to `SuggestResult` with its reason string,
 * and the debug record of the response.
 */
module Suggest {
  import opened Types
  import opened Strings
  import opened Catalog

  /**
   * The request body. `anchorId` and `freeTimeMin` are always sent by the page; an absent
   * `message` is the empty string (both are falsy).
   */
  datatype Request = Request(
    sources: seq<Source>,
    excludedCategories: seq<string>,
    anchorId: string,
    freeTimeMin: nat,
    message: string)

  datatype Debug = Debug(
    totalSources: nat,
    excludedCategories: seq<string>,
    excludedSourceCount: nat,
    afterExclude: nat,
    afterDuration: nat,
    resultCategories: seq<string>,
    cafeInResults: bool)

  datatype Response = Response(suggestions: seq<SuggestResult>, debug: Debug)

  /** A candidate with its score and its position in the list of feasible sources. */
  datatype Scored = Scored(source: Source, score: real, pos: nat)

  const MaxSuggestions: nat := 3
  const DefaultPriority: int := 3
  const DefaultDurationMin: nat := 30
  const AnchorBonus: real := 30.0
  const FitWeight: real := 15.0
  const IntentBonus: real := 20.0

  const CafeKeywords: seq<string> := ["カフェ", "coffee", "cafe", "コーヒー"]
  const MuseumKeywords: seq<string> := ["museum", "美術館", "博物館", "ミュージアム"]
  const MarketKeywords: seq<string> := ["market", "マーケット", "市場"]

  // ---------------------------------------------------------------- per-source facts

  /** `s.duration_min` is truthy: present and not zero. */
  predicate HasDuration(s: Source) {
    s.durationMin.Some? && s.durationMin.value != 0
  }

  /** `!s.duration_min || s.duration_min <= free_time_min`. */
  predicate Fits(s: Source, freeTimeMin: nat) {
    !HasDuration(s) || s.durationMin.value <= freeTimeMin
  }

  /** `s.anchor_id === anchor_id`. */
  predicate AnchorMatches(s: Source, anchorId: string) {
    s.anchorId == Some(anchorId)
  }

  /** `s.priority || 3`: an absent or zero priority reads as 3. */
  function PriorityOrDefault(s: Source): (p: int)
    ensures p != 0
    ensures s.priority.Some? && s.priority.value != 0 ==> p == s.priority.value
    ensures s.priority.None? || s.priority.value == 0 ==> p == DefaultPriority
  {
    if s.priority.Some? && s.priority.value != 0 then s.priority.value else DefaultPriority
  }

  /** `s.duration_min || 30`. */
  function DurationOrDefault(s: Source): (d: nat)
    ensures d != 0
    ensures HasDuration(s) ==> d == s.durationMin.value
    ensures !HasDuration(s) ==> d == DefaultDurationMin
  {
    if HasDuration(s) then s.durationMin.value else DefaultDurationMin
  }

  /** The intent keywords of a category: only cafe, museum and market have any. */
  function CategoryKeywords(category: string): seq<string> {
    if category == "cafe" then CafeKeywords
    else if category == "museum" then MuseumKeywords
    else if category == "market" then MarketKeywords
    else []
  }

  // ---------------------------------------------------------------- score

  /** The share of the free time the visit uses, times 15, when it has a duration that fits. */
  function FitBonus(s: Source, freeTimeMin: nat): (b: real)
    ensures 0.0 <= b <= FitWeight
    ensures b > 0.0 <==> HasDuration(s) && s.durationMin.value <= freeTimeMin
  {
    if HasDuration(s) && s.durationMin.value <= freeTimeMin then
      FitWeight * (s.durationMin.value as real / freeTimeMin as real)
    else 0.0
  }

  /** The three keyword checks of the score, each worth 20 for a source of its own category. */
  function MessageBonus(s: Source, message: string): real {
    if message == "" then 0.0
    else
      var lowerMsg := Lower(message);
      (if IncludesAny(lowerMsg, CafeKeywords) && s.category == "cafe" then IntentBonus else 0.0)
      + (if IncludesAny(lowerMsg, MuseumKeywords) && s.category == "museum" then IntentBonus else 0.0)
      + (if IncludesAny(lowerMsg, MarketKeywords) && s.category == "market" then IntentBonus else 0.0)
  }

  /** The score of a feasible source for a request. */
  function Score(s: Source, req: Request): real {
    (PriorityOrDefault(s) * 10) as real
    + (if AnchorMatches(s, req.anchorId) then AnchorBonus else 0.0)
    + FitBonus(s, req.freeTimeMin)
    + MessageBonus(s, req.message)
  }

  /** The scoring callback: `let score` built up one bonus at a time. */
  method ScoreCandidate(s: Source, req: Request) returns (score: real)
    ensures score == Score(s, req)
  {
    score := (PriorityOrDefault(s) * 10) as real;
    if AnchorMatches(s, req.anchorId) {
      score := score + AnchorBonus;
    }
    if HasDuration(s) && s.durationMin.value <= req.freeTimeMin {
      var fitRatio := s.durationMin.value as real / req.freeTimeMin as real;
      score := score + fitRatio * FitWeight;
    }
    if req.message != "" {
      var lowerMsg := Lower(req.message);
      if IncludesAny(lowerMsg, CafeKeywords) && s.category == "cafe" {
        score := score + IntentBonus;
      }
      if IncludesAny(lowerMsg, MuseumKeywords) && s.category == "museum" {
        score := score + IntentBonus;
      }
      if IncludesAny(lowerMsg, MarketKeywords) && s.category == "market" {
        score := score + IntentBonus;
      }
    }
  }

  /**
   * A source gets the keyword bonus at most once: 20 exactly when there is a message and
   * its lower-cased text contains a keyword of the source's own category.
   */
  lemma MessageBonusOwnCategory(s: Source, message: string)
    ensures MessageBonus(s, message)
            == if message != "" && IncludesAny(Lower(message), CategoryKeywords(s.category)) then IntentBonus else 0.0
  {
  }

  /** Every keyword is lower-case, so it is found in the message whatever the message's case. */
  lemma KeywordsAreLowerCase(category: string)
    ensures forall j :: 0 <= j < |CategoryKeywords(category)| ==> IsLowerCase(CategoryKeywords(category)[j])
  {
    if category == "cafe" {
      CafeKeywordsLower();
    } else if category == "museum" {
      MuseumKeywordsLower();
    } else if category == "market" {
      MarketKeywordsLower();
    }
  }

  lemma CafeKeywordsLower()
    ensures forall j :: 0 <= j < |CafeKeywords| ==> IsLowerCase(CafeKeywords[j])
  {
    assert IsLowerCase("カフェ") && IsLowerCase("coffee") && IsLowerCase("cafe") && IsLowerCase("コーヒー");
  }

  lemma MuseumKeywordsLower()
    ensures forall j :: 0 <= j < |MuseumKeywords| ==> IsLowerCase(MuseumKeywords[j])
  {
    assert IsLowerCase("museum") && IsLowerCase("美術館") && IsLowerCase("博物館") && IsLowerCase("ミュージアム");
  }

  lemma MarketKeywordsLower()
    ensures forall j :: 0 <= j < |MarketKeywords| ==> IsLowerCase(MarketKeywords[j])
  {
    assert IsLowerCase("market") && IsLowerCase("マーケット") && IsLowerCase("市場");
  }

  /** A message containing one of the category's keywords, as written, earns a source of that category the bonus. */
  lemma KeywordEarnsBonus(s: Source, message: string, j: nat)
    requires j < |CategoryKeywords(s.category)|
    requires Includes(message, CategoryKeywords(s.category)[j])
    ensures MessageBonus(s, message) == IntentBonus
  {
    var k := CategoryKeywords(s.category)[j];
    KeywordsAreLowerCase(s.category);
    LowerKeepsIncludes(message, k);
    MessageBonusOwnCategory(s, message);
  }

  /**
   * The score is the base `(priority || 3) * 10`, plus 30 exactly when the anchor matches,
   * plus a fit bonus in (0, 15] exactly when a duration fits, plus 0 or 20 for the message.
   */
  lemma ScoreBreakdown(s: Source, req: Request)
    ensures Score(s, req)
            == (PriorityOrDefault(s) * 10) as real
               + (if AnchorMatches(s, req.anchorId) then AnchorBonus else 0.0)
               + (if HasDuration(s) && s.durationMin.value <= req.freeTimeMin
                  then FitWeight * (s.durationMin.value as real / req.freeTimeMin as real) else 0.0)
               + (if req.message != "" && IncludesAny(Lower(req.message), CategoryKeywords(s.category)) then IntentBonus else 0.0)
    ensures var extra := Score(s, req) - (PriorityOrDefault(s) * 10) as real;
            0.0 <= extra <= AnchorBonus + FitWeight + IntentBonus
    ensures AnchorMatches(s, req.anchorId) ==> Score(s, req) >= (PriorityOrDefault(s) * 10) as real + AnchorBonus
    ensures !AnchorMatches(s, req.anchorId) ==> Score(s, req) <= (PriorityOrDefault(s) * 10) as real + FitWeight + IntentBonus
  {
    MessageBonusOwnCategory(s, req.message);
  }

  // ---------------------------------------------------------------- filters

  /** `afterExclude.filter((s) => !s.duration_min || s.duration_min <= free_time_min)`. */
  function Feasible(sources: seq<Source>, freeTimeMin: nat): (r: seq<Source>)
    ensures |r| <= |sources|
    ensures forall x :: x in r <==> x in sources && Fits(x, freeTimeMin)
    ensures |sources| == 1 ==> r == (if Fits(sources[0], freeTimeMin) then sources else [])
  {
    if sources == [] then []
    else
      var last := sources[|sources| - 1];
      assert sources == sources[..|sources| - 1] + [last];
      Feasible(sources[..|sources| - 1], freeTimeMin) + (if Fits(last, freeTimeMin) then [last] else [])
  }

  lemma FeasibleSnoc(p: seq<Source>, x: Source, freeTimeMin: nat)
    ensures Feasible(p + [x], freeTimeMin) == Feasible(p, freeTimeMin) + (if Fits(x, freeTimeMin) then [x] else [])
  {
    assert (p + [x])[..|p|] == p;
  }

  /**
   * The duration filter keeps catalog order: filtering a concatenation is filtering each part
   * (with the single-source case of `Feasible`, this fixes the result completely). Positions
   * in `ScoreAll`, which break score ties, therefore follow the catalog.
   */
  lemma {:induction false} FeasibleKeepsOrder(a: seq<Source>, b: seq<Source>, freeTimeMin: nat)
    ensures Feasible(a + b, freeTimeMin) == Feasible(a, freeTimeMin) + Feasible(b, freeTimeMin)
  {
    if b == [] {
      assert a + b == a;
    } else {
      var b', y := b[..|b| - 1], b[|b| - 1];
      SplitLast(a, b);
      FeasibleKeepsOrder(a, b', freeTimeMin);
      FeasibleSnoc(a + b', y, freeTimeMin);
      FeasibleSnoc(b', y, freeTimeMin);
    }
  }

  function AfterExclude(req: Request): seq<Source> {
    ActiveSources(req.sources, req.excludedCategories)
  }

  function AfterDuration(req: Request): seq<Source> {
    Feasible(AfterExclude(req), req.freeTimeMin)
  }

  /** `afterDuration.map((s) => ({ source: s, score }))`, each paired with its position. */
  function ScoreAll(xs: seq<Source>, req: Request): (r: seq<Scored>)
    ensures |r| == |xs|
    ensures forall i :: 0 <= i < |r| ==> r[i] == Scored(xs[i], Score(xs[i], req), i)
  {
    seq(|xs|, i requires 0 <= i < |xs| => Scored(xs[i], Score(xs[i], req), i))
  }

  // ---------------------------------------------------------------- stable sort

  /** Sorted by descending score, ties in ascending position (the original order). */
  predicate StableDescending(ys: seq<Scored>) {
    forall i, j :: 0 <= i < j < |ys| ==> ys[i].score >= ys[j].score && (ys[i].score == ys[j].score ==> ys[i].pos < ys[j].pos)
  }

  /** `ys` is what a stable sort by descending score makes of `xs`. */
  predicate IsStableSortOf(ys: seq<Scored>, xs: seq<Scored>) {
    multiset(ys) == multiset(xs) && StableDescending(ys)
  }

  /** Positions strictly increase along the list, as they do in a freshly numbered list. */
  predicate PositionsIncrease(xs: seq<Scored>) {
    forall i, j :: 0 <= i < j < |xs| ==> xs[i].pos < xs[j].pos
  }

  /** Insert `x` after every element that does not score below it. */
  function Insert(x: Scored, ys: seq<Scored>): (r: seq<Scored>)
    requires StableDescending(ys)
    requires forall y :: y in ys ==> y.pos < x.pos
    ensures multiset(r) == multiset(ys) + multiset{x}
    ensures StableDescending(r)
  {
    if ys == [] then [x]
    else if ys[0].score < x.score then
      InsertBeforeHead(x, ys);
      [x] + ys
    else
      StableTail(ys);
      TailPositionsBelow(x, ys);
      var rest := Insert(x, ys[1..]);
      InsertAfterHeadFacts(x, ys, rest);
      [ys[0]] + rest
  }

  lemma TailPositionsBelow(x: Scored, ys: seq<Scored>)
    requires ys != []
    requires forall y :: y in ys ==> y.pos < x.pos
    ensures forall y :: y in ys[1..] ==> y.pos < x.pos
  {
    assert forall y :: y in ys[1..] ==> y in ys;
  }

  /** The recursive case of `Insert`: the head stays in front of the insertion into the tail. */
  lemma InsertAfterHeadFacts(x: Scored, ys: seq<Scored>, rest: seq<Scored>)
    requires ys != [] && StableDescending(ys)
    requires ys[0].score >= x.score
    requires forall y :: y in ys ==> y.pos < x.pos
    requires multiset(rest) == multiset(ys[1..]) + multiset{x}
    requires StableDescending(rest)
    ensures StableDescending([ys[0]] + rest)
    ensures multiset([ys[0]] + rest) == multiset(ys) + multiset{x}
  {
    assert ys == [ys[0]] + ys[1..];
    assert forall z :: z in rest ==> z == x || z in ys[1..] by {
      forall z | z in rest ensures z == x || z in ys[1..] {
        assert z in multiset(rest);
      }
    }
    assert ys[0] in ys;
    InsertAfterHead(ys[0], x, ys[1..], rest);
  }

  lemma InsertBeforeHead(x: Scored, ys: seq<Scored>)
    requires StableDescending(ys)
    requires ys != [] && ys[0].score < x.score
    ensures StableDescending([x] + ys)
  {
    var r := [x] + ys;
    forall i, j | 0 <= i < j < |r|
      ensures r[i].score >= r[j].score && (r[i].score == r[j].score ==> r[i].pos < r[j].pos)
    {
      assert r[j] == ys[j - 1];
      if i == 0 {
        assert ys[0].score >= ys[j - 1].score;
      } else {
        assert r[i] == ys[i - 1];
      }
    }
  }

  lemma InsertAfterHead(h: Scored, x: Scored, tail: seq<Scored>, rest: seq<Scored>)
    requires StableDescending([h] + tail)
    requires StableDescending(rest)
    requires h.score >= x.score && h.pos < x.pos
    requires forall z :: z in rest ==> z == x || z in tail
    ensures StableDescending([h] + rest)
  {
    var r := [h] + rest;
    forall i, j | 0 <= i < j < |r|
      ensures r[i].score >= r[j].score && (r[i].score == r[j].score ==> r[i].pos < r[j].pos)
    {
      if i == 0 {
        assert r[0] == h;
        assert r[j] == rest[j - 1];
        assert r[j] in rest;
        if r[j] != x {
          var k :| 0 <= k < |tail| && tail[k] == r[j];
          var ht := [h] + tail;
          assert ht[0] == h && ht[k + 1] == r[j];
        }
      } else {
        assert r[i] == rest[i - 1] && r[j] == rest[j - 1];
        assert 0 <= i - 1 < j - 1 < |rest|;
      }
    }
  }

  /** The stable sort by descending score (`scored.sort((a, b) => b.score - a.score)`). */
  function SortByScore(xs: seq<Scored>): (r: seq<Scored>)
    requires PositionsIncrease(xs)
    ensures IsStableSortOf(r, xs)
  {
    if xs == [] then []
    else
      var init := xs[..|xs| - 1];
      var last := xs[|xs| - 1];
      assert xs == init + [last];
      var sorted := SortByScore(init);
      assert forall y :: y in sorted ==> y.pos < last.pos by {
        forall y | y in sorted ensures y.pos < last.pos {
          assert y in multiset(init);
          var k :| 0 <= k < |init| && init[k] == y;
        }
      }
      Insert(last, sorted)
  }

  /** A stable descending order of a list is unique: there is only one way to sort it. */
  lemma {:induction false} StableSortUnique(a: seq<Scored>, b: seq<Scored>)
    requires multiset(a) == multiset(b)
    requires StableDescending(a) && StableDescending(b)
    ensures a == b
  {
    if a != [] {
      SameHead(a, b);
      assert multiset(a[1..]) == multiset(b[1..]) by {
        assert a == [a[0]] + a[1..] && b == [b[0]] + b[1..];
        assert multiset(a[1..]) == multiset(a) - multiset{a[0]};
        assert multiset(b[1..]) == multiset(b) - multiset{b[0]};
      }
      StableTail(a);
      StableTail(b);
      StableSortUnique(a[1..], b[1..]);
      assert a == [a[0]] + a[1..] && b == [b[0]] + b[1..];
    }
  }

  /** Two stable descending orders of the same elements start with the same element. */
  lemma SameHead(a: seq<Scored>, b: seq<Scored>)
    requires a != []
    requires multiset(a) == multiset(b)
    requires StableDescending(a) && StableDescending(b)
    ensures b != [] && a[0] == b[0]
  {
    assert a[0] in multiset(b);
    assert b[0] in multiset(a);
  }

  lemma StableTail(a: seq<Scored>)
    requires a != [] && StableDescending(a)
    ensures StableDescending(a[1..])
  {
    var t := a[1..];
    forall i, j | 0 <= i < j < |t|
      ensures t[i].score >= t[j].score && (t[i].score == t[j].score ==> t[i].pos < t[j].pos)
    {
      assert t[i] == a[i + 1] && t[j] == a[j + 1];
    }
  }

  lemma ScoreAllPositionsIncrease(xs: seq<Source>, req: Request)
    ensures PositionsIncrease(ScoreAll(xs, req))
  {
  }

  // ---------------------------------------------------------------- reason

  const NearAnchorPhrase: string := "現在地の近く"
  const HighPriorityPhrase: string := "優先度高"
  const ReasonSeparator: string := " / "
  const FallbackReason: string := "近くで利用可能"

  /** `${freeTime}分に収まる（所要約${d}分）`. */
  function FitPhrase(freeTime: nat, d: nat): string {
    NatToDecimal(freeTime) + "分に収まる（所要約" + NatToDecimal(d) + "分）"
  }

  /** The `parts` array of `buildReason`, in push order. */
  function ReasonParts(s: Source, queryAnchor: string, freeTime: nat): seq<string> {
    (if AnchorMatches(s, queryAnchor) then [NearAnchorPhrase] else [])
    + (if HasDuration(s) && s.durationMin.value <= freeTime then [FitPhrase(freeTime, s.durationMin.value)] else [])
    + (if s.priority.Some? && s.priority.value >= 4 then [HighPriorityPhrase] else [])
    + (if s.memo != "" then [s.memo] else [])
  }

  /** `parts.join(" / ") || "近くで利用可能"`. */
  function Reason(s: Source, queryAnchor: string, freeTime: nat): string {
    var joined := Join(ReasonParts(s, queryAnchor, freeTime), ReasonSeparator);
    if joined == "" then FallbackReason else joined
  }

  /** `buildReason`: push the applicable phrases, then join them or fall back. */
  method BuildReason(s: Source, queryAnchor: string, freeTime: nat) returns (reason: string)
    ensures reason == Reason(s, queryAnchor, freeTime)
  {
    var parts: seq<string> := [];
    if AnchorMatches(s, queryAnchor) {
      parts := parts + [NearAnchorPhrase];
    }
    if HasDuration(s) && s.durationMin.value <= freeTime {
      parts := parts + [FitPhrase(freeTime, s.durationMin.value)];
    }
    if s.priority.Some? && s.priority.value >= 4 {
      parts := parts + [HighPriorityPhrase];
    }
    if s.memo != "" {
      parts := parts + [s.memo];
    }
    assert parts == ReasonParts(s, queryAnchor, freeTime);
    var joined := Join(parts, ReasonSeparator);
    reason := if joined == "" then FallbackReason else joined;
  }

  /** No reason phrase is empty. */
  lemma ReasonPartsNonEmpty(s: Source, queryAnchor: string, freeTime: nat)
    ensures forall j :: 0 <= j < |ReasonParts(s, queryAnchor, freeTime)| ==> |ReasonParts(s, queryAnchor, freeTime)[j]| > 0
    ensures |ReasonParts(s, queryAnchor, freeTime)| <= 4
  {
  }

  /**
   * The reason is the fallback exactly when no phrase applies, or when the memo is the only
   * phrase and reads the same as the fallback.
   */
  lemma ReasonFallback(s: Source, queryAnchor: string, freeTime: nat)
    ensures Reason(s, queryAnchor, freeTime) == FallbackReason
            <==> ReasonParts(s, queryAnchor, freeTime) == [] || ReasonParts(s, queryAnchor, freeTime) == [FallbackReason]
  {
    var parts := ReasonParts(s, queryAnchor, freeTime);
    ReasonPartsNonEmpty(s, queryAnchor, freeTime);
    JoinLength(parts, ReasonSeparator);
    if |parts| >= 2 {
      assert |parts[0]| >= 4;
      assert |Join(parts, ReasonSeparator)| >= 8;
    }
  }

  /** Each applicable phrase appears in the reason. */
  lemma ReasonMentionsParts(s: Source, queryAnchor: string, freeTime: nat, j: nat)
    requires j < |ReasonParts(s, queryAnchor, freeTime)|
    ensures Includes(Reason(s, queryAnchor, freeTime), ReasonParts(s, queryAnchor, freeTime)[j])
  {
    var parts := ReasonParts(s, queryAnchor, freeTime);
    ReasonPartsNonEmpty(s, queryAnchor, freeTime);
    JoinIncludes(parts, ReasonSeparator, j);
    JoinLength(parts, ReasonSeparator);
  }

  /** When the anchor matches, the reason opens with the nearby phrase. */
  lemma ReasonStartsNearAnchor(s: Source, queryAnchor: string, freeTime: nat)
    requires AnchorMatches(s, queryAnchor)
    ensures |Reason(s, queryAnchor, freeTime)| >= |NearAnchorPhrase|
    ensures Reason(s, queryAnchor, freeTime)[..|NearAnchorPhrase|] == NearAnchorPhrase
  {
    var parts := ReasonParts(s, queryAnchor, freeTime);
    assert parts[0] == NearAnchorPhrase;
    JoinStartsWithFirst(parts, ReasonSeparator);
  }

  // ---------------------------------------------------------------- the response

  function Min(a: nat, b: nat): nat {
    if a <= b then a else b
  }

  function ToResult(s: Source, req: Request): SuggestResult {
    SuggestResult(
      s.name,
      s.category,
      DurationOrDefault(s),
      Reason(s, req.anchorId, req.freeTimeMin),
      s.id,
      s.anchorId,
      PriorityOrDefault(s))
  }

  function Ranked(req: Request): seq<Scored> {
    ScoreAllPositionsIncrease(AfterDuration(req), req);
    SortByScore(ScoreAll(AfterDuration(req), req))
  }

  /** `scored.slice(0, 3)`. */
  function Top(req: Request): seq<Scored> {
    var ranked := Ranked(req);
    ranked[..Min(MaxSuggestions, |ranked|)]
  }

  /** The sources behind the suggestions, in suggestion order. */
  function Origins(req: Request): seq<Source> {
    var top := Top(req);
    seq(|top|, i requires 0 <= i < |top| => top[i].source)
  }

  function CategoriesOf(rs: seq<SuggestResult>): (cs: seq<string>)
    ensures |cs| == |rs|
    ensures forall i :: 0 <= i < |rs| ==> cs[i] == rs[i].category
  {
    seq(|rs|, i requires 0 <= i < |rs| => rs[i].category)
  }

  /** The whole `POST` handler on a well-formed body. */
  function Respond(req: Request): Response {
    var origins := Origins(req);
    var suggestions := seq(|origins|, i requires 0 <= i < |origins| => ToResult(origins[i], req));
    var resultCategories := CategoriesOf(suggestions);
    Response(
      suggestions,
      Debug(
        |req.sources|,
        req.excludedCategories,
        |ExcludedSources(req.sources, req.excludedCategories)|,
        |AfterExclude(req)|,
        |AfterDuration(req)|,
        resultCategories,
        "cafe" in resultCategories))
  }

  // ---------------------------------------------------------------- properties of the response

  /** Every suggestion comes from a catalog source that is not excluded and fits the free time, with its fields mapped. */
  lemma SuggestionsFromFeasibleSources(req: Request)
    ensures |Respond(req).suggestions| == |Origins(req)|
    ensures forall i :: 0 <= i < |Origins(req)| ==>
              var s := Origins(req)[i];
              Respond(req).suggestions[i] == ToResult(s, req)
              && s in req.sources && s.category !in req.excludedCategories && Fits(s, req.freeTimeMin)
  {
    var top := Top(req);
    var ranked := Ranked(req);
    var scored := ScoreAll(AfterDuration(req), req);
    forall i | 0 <= i < |top|
      ensures top[i].source in AfterDuration(req)
    {
      assert top[i] == ranked[i];
      assert ranked[i] in multiset(scored);
      var k :| 0 <= k < |scored| && scored[k] == ranked[i];
    }
  }

  /** The central invariant: no suggestion, and no reported result category, is excluded. */
  lemma NoExcludedCategoryInResults(req: Request)
    ensures forall i :: 0 <= i < |Respond(req).suggestions| ==> Respond(req).suggestions[i].category !in req.excludedCategories
    ensures forall c :: c in Respond(req).debug.resultCategories ==> c !in req.excludedCategories
  {
    SuggestionsFromFeasibleSources(req);
  }

  /** Each suggestion copies its source's name, category, id and anchor, and falls back to priority 3. */
  lemma SuggestionFields(req: Request)
    ensures forall i :: 0 <= i < |Origins(req)| ==>
              var r, s := Respond(req).suggestions[i], Origins(req)[i];
              r.title == s.name && r.category == s.category && r.sourceId == s.id && r.anchorId == s.anchorId
              && r.reason == Reason(s, req.anchorId, req.freeTimeMin)
              && (s.priority.Some? && s.priority.value != 0 ==> r.priority == s.priority.value)
              && (s.priority.None? || s.priority.value == 0 ==> r.priority == DefaultPriority)
  {
    SuggestionsFromFeasibleSources(req);
  }

  /** A suggestion whose source has a duration never runs past the free time; the others show 30 minutes. */
  lemma SuggestionDurations(req: Request)
    ensures forall i :: 0 <= i < |Origins(req)| && HasDuration(Origins(req)[i]) ==>
              Respond(req).suggestions[i].durationMin == Origins(req)[i].durationMin.value <= req.freeTimeMin
    ensures forall i :: 0 <= i < |Origins(req)| && !HasDuration(Origins(req)[i]) ==>
              Respond(req).suggestions[i].durationMin == DefaultDurationMin
  {
    SuggestionsFromFeasibleSources(req);
  }

  /** There are three suggestions, or all the feasible sources when fewer remain. */
  lemma SuggestionCount(req: Request)
    ensures |Respond(req).suggestions| == Min(MaxSuggestions, |AfterDuration(req)|)
    ensures |Respond(req).suggestions| <= MaxSuggestions && |Respond(req).suggestions| <= |AfterDuration(req)|
  {
    var scored := ScoreAll(AfterDuration(req), req);
    assert |Ranked(req)| == |multiset(Ranked(req))| == |multiset(scored)| == |scored|;
  }

  /**
   * The suggestions follow the first entries of THE stable descending order of the scored
   * feasible sources: any stable sort of them begins with exactly these sources.
   */
  lemma TopIsPrefixOfStableOrder(req: Request, ys: seq<Scored>)
    requires IsStableSortOf(ys, ScoreAll(AfterDuration(req), req))
    ensures Top(req) == ys[..Min(MaxSuggestions, |ys|)]
  {
    StableSortUnique(Ranked(req), ys);
  }

  /** The debug counts agree with each other and with the suggestions. */
  lemma DebugConsistent(req: Request)
    ensures Respond(req).debug.excludedSourceCount + Respond(req).debug.afterExclude == Respond(req).debug.totalSources
    ensures Respond(req).debug.afterDuration <= Respond(req).debug.afterExclude <= Respond(req).debug.totalSources
    ensures Respond(req).debug.cafeInResults <==> exists i :: 0 <= i < |Respond(req).suggestions| && Respond(req).suggestions[i].category == "cafe"
    ensures "cafe" in req.excludedCategories ==> !Respond(req).debug.cafeInResults
  {
    ExclusionSplitsCatalog(req.sources, req.excludedCategories);
    NoExcludedCategoryInResults(req);
    var r := Respond(req);
    if r.debug.cafeInResults {
      var k :| 0 <= k < |r.debug.resultCategories| && r.debug.resultCategories[k] == "cafe";
      assert r.suggestions[k].category == "cafe";
    }
  }

  /** The scoring `map`: each feasible source paired with its score and position. */
  method ScoreEach(afterDuration: seq<Source>, req: Request) returns (scored: seq<Scored>)
    ensures scored == ScoreAll(afterDuration, req)
  {
    scored := [];
    var i := 0;
    while i < |afterDuration|
      invariant 0 <= i <= |afterDuration|
      invariant scored == ScoreAll(afterDuration[..i], req)
    {
      var score := ScoreCandidate(afterDuration[i], req);
      scored := scored + [Scored(afterDuration[i], score, i)];
      i := i + 1;
    }
    assert afterDuration[..i] == afterDuration;
  }

  /** The result `map` over the top candidates. */
  method MapResults(top: seq<Scored>, req: Request) returns (suggestions: seq<SuggestResult>)
    ensures |suggestions| == |top|
    ensures forall k :: 0 <= k < |top| ==> suggestions[k] == ToResult(top[k].source, req)
  {
    suggestions := [];
    var j := 0;
    while j < |top|
      invariant 0 <= j <= |top|
      invariant |suggestions| == j
      invariant forall k :: 0 <= k < j ==> suggestions[k] == ToResult(top[k].source, req)
    {
      var s := top[j].source;
      var reason := BuildReason(s, req.anchorId, req.freeTimeMin);
      suggestions := suggestions + [SuggestResult(s.name, s.category, DurationOrDefault(s), reason, s.id, s.anchorId, PriorityOrDefault(s))];
      j := j + 1;
    }
  }

  /** The whole handler, step by step: filter, score each candidate, sort, truncate and map. */
  method Post(req: Request) returns (resp: Response)
    ensures resp == Respond(req)
    ensures forall i :: 0 <= i < |resp.suggestions| ==> resp.suggestions[i].category !in req.excludedCategories
  {
    var afterExclude := ActiveSources(req.sources, req.excludedCategories);
    var excludedSources := ExcludedSources(req.sources, req.excludedCategories);
    var afterDuration := Feasible(afterExclude, req.freeTimeMin);
    var scored := ScoreEach(afterDuration, req);
    ScoreAllPositionsIncrease(afterDuration, req);
    var ranked := SortByScore(scored);
    var top := ranked[..Min(MaxSuggestions, |ranked|)];
    assert top == Top(req);
    var suggestions := MapResults(top, req);
    var resultCategories := CategoriesOf(suggestions);
    resp := Response(
      suggestions,
      Debug(|req.sources|, req.excludedCategories, |excludedSources|, |afterExclude|, |afterDuration|,
            resultCategories, "cafe" in resultCategories));
    SuggestionsOfTop(req, suggestions);
    NoExcludedCategoryInResults(req);
  }

  /** Results built one per top-ranked entry, in order, are the suggestions of the response. */
  lemma SuggestionsOfTop(req: Request, suggestions: seq<SuggestResult>)
    requires |suggestions| == |Top(req)|
    requires forall k :: 0 <= k < |Top(req)| ==> suggestions[k] == ToResult(Top(req)[k].source, req)
    ensures suggestions == Respond(req).suggestions
  {
  }
}
