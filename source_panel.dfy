/**
 * The source panel (src/components/SourcePanel.tsx): category icons, the `grouped`
 * dictionary built by the `forEach`, the three category lists derived from it, the active
 * count in the header and the blank-name guard of the add form.
 */
module SourcePanel {
  import opened Types
  import opened Strings
  import opened Catalog

  const DefaultIcon: string := "\U{1F4CC}"

  const CategoryIcons: map<string, string> := map[
    "cafe" := "\U{2615}",
    "museum" := "\U{1F3DB}\U{FE0F}",
    "market" := "\U{1F6D2}",
    "viewpoint" := "\U{1F52D}",
    "park" := "\U{1F33F}",
    "bookstore" := "\U{1F4DA}",
    "neighborhood_walk" := "\U{1F6B6}",
    "food" := "\U{1F37D}\U{FE0F}",
    "shop" := "\U{1F6CD}\U{FE0F}",
    "sightseeing" := "\U{1F3DB}\U{FE0F}",
    "culture" := "\U{1F3AD}",
    "nature" := "\U{1F33F}",
    "shopping" := "\U{1F6CD}\U{FE0F}",
    "other" := "\U{1F4CC}"]

  /** `CATEGORY_ICONS[cat] || "📌"` (every table entry is non-empty, so the fallback covers exactly the missing keys). */
  function CategoryIcon(cat: string): string {
    if cat in CategoryIcons && CategoryIcons[cat] != "" then CategoryIcons[cat] else DefaultIcon
  }

  /** Known categories show their own icon; any other category shows the pin, which only "other" also uses. */
  lemma CategoryIconFallback(cat: string)
    ensures cat in CategoryIcons ==> CategoryIcon(cat) == CategoryIcons[cat]
    ensures cat !in CategoryIcons ==> CategoryIcon(cat) == DefaultIcon
    ensures CategoryIcon(cat) == DefaultIcon <==> cat !in CategoryIcons || cat == "other"
    ensures CategoryIcon(cat) != ""
  {
    if cat in CategoryIcons && cat != "other" {
      assert CategoryIcons[cat] != DefaultIcon;
    }
  }

  // ---------------------------------------------------------------- grouping

  /** `grouped` and its key order describe exactly the sources `p`. */
  ghost predicate GroupsOf(grouped: map<string, seq<Source>>, keys: seq<string>, p: seq<Source>) {
    keys == CategoryOrder(p)
    && (forall c :: c in grouped <==> c in keys)
    && (forall c :: c in grouped ==> grouped[c] == InCategory(p, c) && grouped[c] != [])
  }

  /** `if (!grouped[s.category]) grouped[s.category] = []; grouped[s.category].push(s);` */
  function PushGroup(grouped: map<string, seq<Source>>, s: Source): map<string, seq<Source>> {
    var g := if s.category in grouped then grouped else grouped[s.category := []];
    g[s.category := g[s.category] + [s]]
  }

  lemma PushGroupCases(grouped: map<string, seq<Source>>, s: Source)
    ensures s.category in grouped ==> PushGroup(grouped, s) == grouped[s.category := grouped[s.category] + [s]]
    ensures s.category !in grouped ==> PushGroup(grouped, s) == grouped[s.category := [s]]
  {
    if s.category !in grouped {
      assert [] + [s] == [s];
    }
  }

  /** The key order after the push: a category met for the first time goes last. */
  function PushKey(grouped: map<string, seq<Source>>, keys: seq<string>, s: Source): seq<string> {
    if s.category in grouped then keys else keys + [s.category]
  }

  /** One step of the `forEach` for a category not met before: a new group holding `s`, whose key goes last. */
  lemma PushNewGroup(grouped: map<string, seq<Source>>, keys: seq<string>, p: seq<Source>, s: Source)
    requires GroupsOf(grouped, keys, p)
    requires s.category !in grouped
    ensures GroupsOf(grouped[s.category := [s]], keys + [s.category], p + [s])
  {
    var m := grouped[s.category := [s]];
    assert keys + [s.category] == CategoryOrder(p + [s]) by {
      CategoryOrderSnoc(p, s);
    }
    assert forall c :: c in m <==> c in keys + [s.category] by {
      forall c ensures c in m <==> c in keys + [s.category] {
        assert c in keys + [s.category] <==> c in keys || c == s.category;
      }
    }
    assert forall c :: c in m ==> m[c] == InCategory(p + [s], c) && m[c] != [] by {
      NoSourcesNoGroup(p, s.category);
      PushGroupValues(grouped, p, s, []);
      assert [] + [s] == [s];
    }
    assert GroupsOf(m, keys + [s.category], p + [s]);
  }

  /** One step of the `forEach` for a category already met: `s` joins the end of its group. */
  lemma PushExistingGroup(grouped: map<string, seq<Source>>, keys: seq<string>, p: seq<Source>, s: Source)
    requires GroupsOf(grouped, keys, p)
    requires s.category in grouped
    ensures GroupsOf(grouped[s.category := grouped[s.category] + [s]], keys, p + [s])
  {
    var m := grouped[s.category := grouped[s.category] + [s]];
    assert keys == CategoryOrder(p + [s]) by {
      assert s.category in keys;
      assert s.category in CategoryOrder(p);
      CategoryOrderSnoc(p, s);
    }
    assert forall c :: c in m <==> c in grouped;
    assert forall c :: c in m ==> m[c] == InCategory(p + [s], c) && m[c] != [] by {
      PushGroupValues(grouped, p, s, grouped[s.category]);
    }
    assert GroupsOf(m, keys, p + [s]);
  }

  /** The loop step of `GroupByCategory`, stated on the prefix the loop has consumed. */
  lemma GroupStep(sources: seq<Source>, i: nat, grouped: map<string, seq<Source>>, keys: seq<string>)
    requires i < |sources|
    requires GroupsOf(grouped, keys, sources[..i])
    ensures GroupsOf(PushGroup(grouped, sources[i]), PushKey(grouped, keys, sources[i]), sources[..i + 1])
  {
    var s := sources[i];
    var p, q := sources[..i], sources[..i + 1];
    assert q == p + [s];
    if s.category in grouped {
      assert GroupsOf(grouped[s.category := grouped[s.category] + [s]], keys, q) by {
        PushExistingGroup(grouped, keys, p, s);
      }
      PushGroupCases(grouped, s);
    } else {
      assert GroupsOf(grouped[s.category := [s]], keys + [s.category], q) by {
        PushNewGroup(grouped, keys, p, s);
      }
      PushGroupCases(grouped, s);
    }
  }

  lemma PushGroupValues(grouped: map<string, seq<Source>>, p: seq<Source>, s: Source, old_group: seq<Source>)
    requires forall c :: c in grouped ==> grouped[c] == InCategory(p, c) && grouped[c] != []
    requires old_group == InCategory(p, s.category)
    ensures var m := grouped[s.category := old_group + [s]];
            forall c :: c in m ==> m[c] == InCategory(p + [s], c) && m[c] != []
  {
    var m := grouped[s.category := old_group + [s]];
    forall c | c in m
      ensures m[c] == InCategory(p + [s], c) && m[c] != []
    {
      InCategorySnoc(p, s, c);
    }
  }

  /**
   * The `forEach` that builds `grouped`: a dictionary from category to its sources, and the
   * order in which its keys were inserted (the order categories were first met).
   */
  method GroupByCategory(sources: seq<Source>) returns (grouped: map<string, seq<Source>>, keys: seq<string>)
    ensures keys == CategoryOrder(sources)
    ensures forall c :: c in grouped <==> c in keys
    ensures forall c :: c in grouped ==> grouped[c] == InCategory(sources, c) && grouped[c] != []
  {
    grouped := map[];
    keys := [];
    var i := 0;
    while i < |sources|
      invariant 0 <= i <= |sources|
      invariant GroupsOf(grouped, keys, sources[..i])
    {
      var s := sources[i];
      GroupStep(sources, i, grouped, keys);
      ghost var pushed, pushedKeys := PushGroup(grouped, s), PushKey(grouped, keys, s);
      if s.category !in grouped {
        grouped := grouped[s.category := []];
        keys := keys + [s.category];
      }
      grouped := grouped[s.category := grouped[s.category] + [s]];
      assert grouped == pushed;
      i := i + 1;
    }
    assert sources[..i] == sources;
  }

  /**
   * Every source is in the group of its own category and in no other, and the group sizes
   * add up to the number of sources.
   */
  lemma GroupsPartitionSources(sources: seq<Source>)
    ensures forall s, c :: s in sources && c in CategoryOrder(sources) ==> (s in InCategory(sources, c) <==> c == s.category)
    ensures forall s :: s in sources ==> s.category in CategoryOrder(sources)
    ensures SumCounts(sources, CategoryOrder(sources)) == |sources|
  {
    forall s | s in sources ensures s.category in CategoryOrder(sources) {
      var i :| 0 <= i < |sources| && sources[i] == s;
    }
    CountsSumToTotal(sources);
  }

  // ---------------------------------------------------------------- the category lists

  /** `excludedCategories.filter((cat) => !grouped[cat])`: groups are never empty, so this keeps the excluded categories with no key. */
  function ExcludedWithoutSources(excluded: seq<string>, keys: seq<string>): (r: seq<string>)
    ensures forall c :: c in r <==> c in excluded && c !in keys
    ensures |r| <= |excluded|
  {
    if excluded == [] then []
    else
      var init := excluded[..|excluded| - 1];
      var last := excluded[|excluded| - 1];
      assert excluded == init + [last];
      ExcludedWithoutSources(init, keys) + (if last in keys then [] else [last])
  }

  /**
   * The active categories and the excluded categories with sources split the keys of
   * `grouped`: no key is in both, every key is in one, and their sizes add up.
   */
  lemma {:induction false} CategoryListsPartitionKeys(keys: seq<string>, excluded: seq<string>)
    requires NoDuplicates(keys)
    ensures forall c :: !(c in ActiveCategories(keys, excluded) && c in ExcludedCategoriesIn(keys, excluded))
    ensures forall c :: c in keys <==> c in ActiveCategories(keys, excluded) || c in ExcludedCategoriesIn(keys, excluded)
    ensures |ActiveCategories(keys, excluded)| + |ExcludedCategoriesIn(keys, excluded)| == |keys|
  {
    if keys != [] {
      var init := keys[..|keys| - 1];
      var last := keys[|keys| - 1];
      assert keys == init + [last];
      assert NoDuplicates(init);
      CategoryListsPartitionKeys(init, excluded);
      ActiveCategoriesSnoc(init, last, excluded);
      assert ExcludedCategoriesIn(keys, excluded) == ExcludedCategoriesIn(init, excluded) + (if last in excluded then [last] else []);
    }
  }

  /** An excluded category is listed without sources exactly when no source has it. */
  lemma ExcludedWithoutSourcesSpec(sources: seq<Source>, excluded: seq<string>)
    ensures forall c :: c in ExcludedWithoutSources(excluded, CategoryOrder(sources)) <==>
              c in excluded && forall i :: 0 <= i < |sources| ==> sources[i].category != c
  {
  }

  // ---------------------------------------------------------------- the header count

  /** `sources.length - sources.filter((s) => excludedCategories.includes(s.category)).length`. */
  function ActiveCount(sources: seq<Source>, excluded: seq<string>): int {
    |sources| - |ExcludedSources(sources, excluded)|
  }

  /**
   * The active count is the number of sources that survive the exclusion filter, which is
   * the combined size of the groups listed as active.
   */
  lemma ActiveCountMatchesGroups(sources: seq<Source>, excluded: seq<string>)
    ensures ActiveCount(sources, excluded) == |ActiveSources(sources, excluded)|
    ensures ActiveCount(sources, excluded) == SumCounts(sources, ActiveCategories(CategoryOrder(sources), excluded))
    ensures 0 <= ActiveCount(sources, excluded) <= |sources|
  {
    ExclusionSplitsCatalog(sources, excluded);
    SumOverActiveCategories(sources, excluded);
  }

  // ---------------------------------------------------------------- the add form

  datatype NewSource = NewSource(name: string, category: string, memo: string)

  /** `handleAdd`: nothing for a blank name; otherwise the trimmed name and memo go to `onAddSource`. */
  function AddRequest(name: string, category: string, memo: string): (r: Option<NewSource>)
    ensures r.None? <==> forall i :: 0 <= i < |name| ==> IsJsSpace(name[i])
    ensures r.Some? ==> r.value.name != "" && !IsJsSpace(r.value.name[0]) && !IsJsSpace(r.value.name[|r.value.name| - 1])
    ensures r.Some? ==> r.value.name == Trim(name)
    ensures r.Some? ==> r.value.category == category && r.value.memo == Trim(memo)
  {
    var trimmed := Trim(name);
    if trimmed == "" then None else Some(NewSource(trimmed, category, Trim(memo)))
  }
}
