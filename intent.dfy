/**
 * How the home page (src/app/page.tsx) reads a chat message: the two demo-phrase detectors,
 * the general category-forget detector over the keyword table, the `(\d+)\s*(分|min)` and
 * `anchor_\w+` searches, and the first-match-wins routing of `handleChatSend` to one action.
 */
module Intent {
  import opened Types
  import opened Strings

  const DemoAnchor: string := "anchor_covent_garden"
  const DemoFreeTime: nat := 90

  // ---------------------------------------------------------------- demo phrases

  const MuseumTerms: seq<string> := ["ミュージアム", "museum"]
  const EarlyFinishTerms: seq<string> := ["早く終わった", "早く終わる", "早く終わ", "どこ行こう"]
  const CafeTerms: seq<string> := ["カフェ", "cafe", "coffee"]
  const EnoughTerms: seq<string> := ["十分", "別の", "いらない", "忘れて", "忘却"]

  /** `isMuseumEarlyFinish`: a museum term and an early-finish term, matched as written (no lower-casing). */
  predicate IsMuseumEarlyFinish(msg: string) {
    IncludesAny(msg, MuseumTerms) && IncludesAny(msg, EarlyFinishTerms)
  }

  /** `isCafeForgetAndResuggest`: a cafe term and an enough/forget term, matched as written. */
  predicate IsCafeForgetAndResuggest(msg: string) {
    IncludesAny(msg, CafeTerms) && IncludesAny(msg, EnoughTerms)
  }

  /**
   * The first two early-finish terms only add cases the third already covers: the phrase
   * fires exactly on a museum term together with "早く終わ" or "どこ行こう".
   */
  lemma MuseumEarlyFinishCore(msg: string)
    ensures IsMuseumEarlyFinish(msg)
            <==> (Includes(msg, "ミュージアム") || Includes(msg, "museum"))
                 && (Includes(msg, "早く終わ") || Includes(msg, "どこ行こう"))
  {
    var terms := EarlyFinishTerms;
    if Includes(msg, terms[0]) {
      IncludesPrefix(msg, terms[0], 4);
      assert terms[0][..4] == "早く終わ";
    }
    if Includes(msg, terms[1]) {
      IncludesPrefix(msg, terms[1], 4);
      assert terms[1][..4] == "早く終わ";
    }
    if Includes(msg, "早く終わ") {
      assert Includes(msg, terms[2]);
    }
    if Includes(msg, "どこ行こう") {
      assert Includes(msg, terms[3]);
    }
    if Includes(msg, "ミュージアム") {
      assert Includes(msg, MuseumTerms[0]);
    }
    if Includes(msg, "museum") {
      assert Includes(msg, MuseumTerms[1]);
    }
  }

  /** The cafe phrase needs both halves: a cafe term alone, or an enough term alone, does not fire it. */
  lemma CafePhraseNeedsBoth(msg: string)
    ensures IsCafeForgetAndResuggest(msg) ==> Includes(msg, "カフェ") || Includes(msg, "cafe") || Includes(msg, "coffee")
    ensures IsCafeForgetAndResuggest(msg) ==>
              Includes(msg, "十分") || Includes(msg, "別の") || Includes(msg, "いらない") || Includes(msg, "忘れて") || Includes(msg, "忘却")
    ensures Includes(msg, "カフェ") && Includes(msg, "十分") ==> IsCafeForgetAndResuggest(msg)
  {
    if IsCafeForgetAndResuggest(msg) {
      var j :| 0 <= j < |CafeTerms| && Includes(msg, CafeTerms[j]);
      var k :| 0 <= k < |EnoughTerms| && Includes(msg, EnoughTerms[k]);
    }
    if Includes(msg, "カフェ") && Includes(msg, "十分") {
      assert Includes(msg, CafeTerms[0]) && Includes(msg, EnoughTerms[0]);
    }
  }

  // ---------------------------------------------------------------- category forget

  const ForgetPatterns: seq<string> := ["いらない", "忘却", "忘れて", "除外", "不要", "やめ", "消して", "forget", "exclude", "十分"]

  /** `CATEGORY_KEYWORDS` in insertion order, which is the order `Object.entries` visits it. */
  const CategoryKeywordTable: seq<(string, string)> := [
    ("カフェ", "cafe"), ("cafe", "cafe"), ("coffee", "cafe"), ("コーヒー", "cafe"),
    ("グルメ", "food"), ("食事", "food"), ("レストラン", "food"),
    ("museum", "museum"), ("美術館", "museum"), ("博物館", "museum"),
    ("公園", "park"), ("park", "park"),
    ("market", "market"), ("マーケット", "market")]

  predicate HasForgetIntent(message: string) {
    IncludesAny(Lower(message), ForgetPatterns)
  }

  /** The index of the first table entry whose lower-cased keyword occurs in `lowerMsg` (the table length if none does). */
  function FirstKeywordHit(lowerMsg: string, from: nat): (r: nat)
    requires from <= |CategoryKeywordTable|
    ensures from <= r <= |CategoryKeywordTable|
    ensures r < |CategoryKeywordTable| ==> Includes(lowerMsg, Lower(CategoryKeywordTable[r].0))
    ensures forall j :: from <= j < r ==> !Includes(lowerMsg, Lower(CategoryKeywordTable[j].0))
    decreases |CategoryKeywordTable| - from
  {
    if from == |CategoryKeywordTable| then from
    else if Includes(lowerMsg, Lower(CategoryKeywordTable[from].0)) then from
    else FirstKeywordHit(lowerMsg, from + 1)
  }

  /** What `detectCategoryForget` returns, as a value. */
  function DetectedCategory(message: string): Option<string> {
    if !HasForgetIntent(message) then None
    else
      var i := FirstKeywordHit(Lower(message), 0);
      if i < |CategoryKeywordTable| then Some(CategoryKeywordTable[i].1) else None
  }

  /** `detectCategoryForget`: the forget-intent test, then the early-return loop over the table. */
  method DetectCategoryForget(message: string) returns (r: Option<string>)
    ensures r == DetectedCategory(message)
  {
    if !IncludesAny(Lower(message), ForgetPatterns) {
      return None;
    }
    var i := 0;
    while i < |CategoryKeywordTable|
      invariant 0 <= i <= |CategoryKeywordTable|
      invariant FirstKeywordHit(Lower(message), 0) == FirstKeywordHit(Lower(message), i)
    {
      var entry := CategoryKeywordTable[i];
      if Includes(Lower(message), Lower(entry.0)) {
        return Some(entry.1);
      }
      i := i + 1;
    }
    return None;
  }

  /**
   * The detector answers only when a forget pattern occurs, and then with the category of
   * the first keyword in table order that occurs in the lower-cased message; it never
   * answers with a category outside the table.
   */
  lemma DetectedCategorySpec(message: string)
    ensures DetectedCategory(message).Some? ==> HasForgetIntent(message)
    ensures DetectedCategory(message).Some? <==>
              HasForgetIntent(message) && exists i :: 0 <= i < |CategoryKeywordTable| && Includes(Lower(message), Lower(CategoryKeywordTable[i].0))
    ensures DetectedCategory(message).Some? ==> DetectedCategory(message).value in {"cafe", "food", "museum", "park", "market"}
  {
    var i := FirstKeywordHit(Lower(message), 0);
    if i < |CategoryKeywordTable| {
      assert CategoryKeywordTable[i].1 in {"cafe", "food", "museum", "park", "market"};
    }
  }

  /** Any table keyword met in a message that also states a forget intent leads to some category. */
  lemma KeywordWithForgetIsDetected(message: string, i: nat)
    requires i < |CategoryKeywordTable|
    requires HasForgetIntent(message)
    requires Includes(Lower(message), Lower(CategoryKeywordTable[i].0))
    ensures DetectedCategory(message).Some?
    ensures FirstKeywordHit(Lower(message), 0) <= i
  {
  }

  // ---------------------------------------------------------------- `(\d+)\s*(分|min)`

  /** `分|min` occurs at `k`. */
  predicate UnitAt(s: string, k: nat) {
    OccursAt(s, "分", k) || OccursAt(s, "min", k)
  }

  /**
   * One way the regular expression can match from `i`: digits `s[i..e]` (at least one),
   * white space `s[e..e2]`, then the unit.
   */
  predicate MinutesParse(s: string, i: nat, e: nat, e2: nat) {
    i < e <= e2 <= |s|
    && (forall k :: i <= k < e ==> IsDigit(s[k]))
    && (forall k :: e <= k < e2 ==> IsJsSpace(s[k]))
    && UnitAt(s, e2)
  }

  /** The greedy parse from `i`: the longest digit run, then the longest run of white space. */
  predicate MinutesMatchAt(s: string, i: nat) {
    i < |s| && IsDigit(s[i]) && UnitAt(s, SkipWhile(s, SkipWhile(s, i, IsDigit), IsJsSpace))
  }

  /**
   * A match from `i` can only be the greedy one: a shorter digit group would leave a digit
   * where white space or the unit must stand. So the captured digits are the whole run.
   */
  lemma MinutesParseIsGreedy(s: string, i: nat, e: nat, e2: nat)
    requires MinutesParse(s, i, e, e2)
    ensures e == SkipWhile(s, i, IsDigit)
    ensures e2 == SkipWhile(s, e, IsJsSpace)
    ensures MinutesMatchAt(s, i)
  {
    assert e2 < |s| && (s[e2] == '分' || s[e2] == 'm') by {
      if OccursAt(s, "分", e2) {
        assert s[e2..e2 + 1][0] == s[e2];
      } else {
        assert s[e2..e2 + 3][0] == s[e2];
      }
    }
    assert !IsJsSpace(s[e2]);
    assert !IsDigit(s[e]) by {
      if e < e2 {
        assert IsJsSpace(s[e]);
      }
    }
  }

  /** The greedy parse, when it succeeds, is a match of the regular expression. */
  lemma MinutesMatchIsParse(s: string, i: nat)
    requires MinutesMatchAt(s, i)
    ensures MinutesParse(s, i, SkipWhile(s, i, IsDigit), SkipWhile(s, SkipWhile(s, i, IsDigit), IsJsSpace))
  {
  }

  /** The leftmost match start at or after `from`. */
  function FirstMinutesMatch(s: string, from: nat): (r: Option<nat>)
    requires from <= |s|
    ensures r.Some? ==> from <= r.value < |s| && MinutesMatchAt(s, r.value)
    ensures r.Some? ==> forall i :: from <= i < r.value ==> !MinutesMatchAt(s, i)
    ensures r.None? ==> forall i :: from <= i < |s| ==> !MinutesMatchAt(s, i)
    decreases |s| - from
  {
    if from == |s| then None
    else if MinutesMatchAt(s, from) then Some(from)
    else FirstMinutesMatch(s, from + 1)
  }

  /** `parseInt(suggestMatch[1], 10)`: the value of the captured digit run. */
  function MinutesValue(s: string, i: nat): nat
    requires i < |s|
  {
    var e := SkipWhile(s, i, IsDigit);
    DecimalValue(s[i..e])
  }

  // ---------------------------------------------------------------- `anchor_\w+`

  const AnchorPrefix: string := "anchor_"

  predicate AnchorMatchAt(s: string, i: nat) {
    OccursAt(s, AnchorPrefix, i) && i + |AnchorPrefix| < |s| && IsWordChar(s[i + |AnchorPrefix|])
  }

  function FirstAnchorMatch(s: string, from: nat): (r: Option<nat>)
    requires from <= |s|
    ensures r.Some? ==> from <= r.value < |s| && AnchorMatchAt(s, r.value)
    ensures r.Some? ==> forall i :: from <= i < r.value ==> !AnchorMatchAt(s, i)
    ensures r.None? ==> forall i :: from <= i < |s| ==> !AnchorMatchAt(s, i)
    decreases |s| - from
  {
    if from == |s| then None
    else if AnchorMatchAt(s, from) then Some(from)
    else FirstAnchorMatch(s, from + 1)
  }

  /** `anchorMatch ? anchorMatch[0] : DEMO_ANCHOR`, the greedy `\w+` taking the whole word. */
  function AnchorIn(s: string): (a: string)
    ensures FirstAnchorMatch(s, 0).None? ==> a == DemoAnchor
    ensures FirstAnchorMatch(s, 0).Some? ==>
              var i := FirstAnchorMatch(s, 0).value;
              |a| > |AnchorPrefix| && a[..|AnchorPrefix|] == AnchorPrefix
              && (forall k :: |AnchorPrefix| <= k < |a| ==> IsWordChar(a[k]))
              && exists e :: i + |a| == e <= |s| && s[i..e] == a && (e == |s| || !IsWordChar(s[e]))
  {
    match FirstAnchorMatch(s, 0)
    case None => DemoAnchor
    case Some(i) =>
      var e := SkipWhile(s, i + |AnchorPrefix|, IsWordChar);
      var a := s[i..e];
      assert a[..|AnchorPrefix|] == s[i..i + |AnchorPrefix|];
      assert forall k :: |AnchorPrefix| <= k < |a| ==> a[k] == s[i + k];
      a
  }

  // ---------------------------------------------------------------- routing

  const SuggestKeywords: seq<string> := ["空いた", "おすすめ", "提案", "行ける", "suggest", "どこ行"]

  /** The branch `handleChatSend` takes for a message. */
  datatype Action =
    | DemoSuggest
    | CafeAlreadyForgotten
    | ForgetCafeThenResuggest
    | AlreadyForgotten(category: string)
    | Forget(category: string)
    | Suggest(anchor: string, minutes: nat)
    | Chat

  /** The general-suggest test: a minutes match and a suggest keyword. */
  predicate IsGeneralSuggest(message: string) {
    FirstMinutesMatch(message, 0).Some? && IncludesAny(message, SuggestKeywords)
  }

  /** First match wins: museum phrase, cafe phrase, category forget, general suggest, chat. */
  function Route(message: string, excluded: seq<string>): Action {
    if IsMuseumEarlyFinish(message) then DemoSuggest
    else if IsCafeForgetAndResuggest(message) then
      (if "cafe" in excluded then CafeAlreadyForgotten else ForgetCafeThenResuggest)
    else if DetectedCategory(message).Some? then
      var c := DetectedCategory(message).value;
      if c in excluded then AlreadyForgotten(c) else Forget(c)
    else if IsGeneralSuggest(message) then
      Suggest(AnchorIn(message), MinutesValue(message, FirstMinutesMatch(message, 0).value))
    else Chat
  }

  /** Each action is taken exactly when its own test passes and every earlier test fails. */
  lemma RouteFirstMatchWins(message: string, excluded: seq<string>)
    ensures Route(message, excluded) == DemoSuggest <==> IsMuseumEarlyFinish(message)
    ensures (Route(message, excluded) == CafeAlreadyForgotten || Route(message, excluded) == ForgetCafeThenResuggest)
            <==> !IsMuseumEarlyFinish(message) && IsCafeForgetAndResuggest(message)
    ensures (Route(message, excluded).AlreadyForgotten? || Route(message, excluded).Forget?)
            <==> !IsMuseumEarlyFinish(message) && !IsCafeForgetAndResuggest(message) && DetectedCategory(message).Some?
    ensures Route(message, excluded).Suggest?
            <==> !IsMuseumEarlyFinish(message) && !IsCafeForgetAndResuggest(message) && DetectedCategory(message).None?
                 && IsGeneralSuggest(message)
    ensures Route(message, excluded) == Chat
            <==> !IsMuseumEarlyFinish(message) && !IsCafeForgetAndResuggest(message) && DetectedCategory(message).None?
                 && !IsGeneralSuggest(message)
  {
  }

  /** A forget is routed to `Forget` only for a category not yet excluded, and to `AlreadyForgotten` only for one that is. */
  lemma RouteForgetRespectsLedger(message: string, excluded: seq<string>)
    ensures Route(message, excluded) == ForgetCafeThenResuggest ==> "cafe" !in excluded
    ensures Route(message, excluded) == CafeAlreadyForgotten ==> "cafe" in excluded
    ensures Route(message, excluded).Forget? ==>
              Route(message, excluded).category !in excluded && DetectedCategory(message) == Some(Route(message, excluded).category)
    ensures Route(message, excluded).AlreadyForgotten? ==>
              Route(message, excluded).category in excluded && DetectedCategory(message) == Some(Route(message, excluded).category)
  {
  }

  /**
   * A general suggest uses the minutes of the leftmost `(\d+)\s*(分|min)` match, whose
   * digits are the whole digit run at that position, and the anchor found in the message.
   */
  lemma RouteSuggestParameters(message: string, excluded: seq<string>)
    requires Route(message, excluded).Suggest?
    ensures FirstMinutesMatch(message, 0).Some?
    ensures var i := FirstMinutesMatch(message, 0).value;
            var e := SkipWhile(message, i, IsDigit);
            MinutesParse(message, i, e, SkipWhile(message, e, IsJsSpace))
            && Route(message, excluded).minutes == DecimalValue(message[i..e])
            && forall j, e', e2 :: 0 <= j < i ==> !MinutesParse(message, j, e', e2)
    ensures Route(message, excluded).anchor == AnchorIn(message)
  {
    var i := FirstMinutesMatch(message, 0).value;
    MinutesMatchIsParse(message, i);
    forall j, e', e2 | 0 <= j < i
      ensures !MinutesParse(message, j, e', e2)
    {
      if MinutesParse(message, j, e', e2) {
        MinutesParseIsGreedy(message, j, e', e2);
      }
    }
  }
}
