/**
 * Value-level facts about the source catalog and the exclusion ledger, shared by the
 * storage layer (src/lib/storage.ts), the suggestion engine (src/app/api/suggest/route.ts)
 * and the source panel (src/components/SourcePanel.tsx): the filters they apply, the
 * first-occurrence order of categories (the insertion order in which a JavaScript object
 * keeps category keys that are not integer-like), per-category counts, and the two list
 * updates of the ledger.
 */
module Catalog {
  import opened Types

  predicate NoDuplicates<T(==)>(s: seq<T>) {
    forall i, j :: 0 <= i < j < |s| ==> s[i] != s[j]
  }

  // ---------------------------------------------------------------- exclusion ledger

  /** `addExcludedCategory`: append the category unless it is already excluded. */
  function AddOnce(excluded: seq<string>, c: string): (r: seq<string>)
    ensures c in r
    ensures c in excluded ==> r == excluded
    ensures c !in excluded ==> r == excluded + [c]
    ensures NoDuplicates(excluded) ==> NoDuplicates(r)
  {
    if c in excluded then excluded else excluded + [c]
  }

  /** `removeExcludedCategory`: drop every occurrence of the category, keep the rest in order. */
  function RemoveAll(excluded: seq<string>, c: string): (r: seq<string>)
    ensures c !in r
    ensures forall x :: x in r <==> x in excluded && x != c
    ensures c !in excluded ==> r == excluded
    ensures NoDuplicates(excluded) ==> NoDuplicates(r)
    ensures |r| <= |excluded|
    ensures |excluded| == 1 ==> r == (if excluded[0] == c then [] else excluded)
  {
    if excluded == [] then []
    else
      var prefix := excluded[..|excluded| - 1];
      var init := RemoveAll(prefix, c);
      var last := excluded[|excluded| - 1];
      assert excluded == prefix + [last];
      assert NoDuplicates(excluded) ==> NoDuplicates(prefix) && last !in prefix;
      if last == c then init else init + [last]
  }

  lemma RemoveAllSnoc(p: seq<string>, x: string, c: string)
    ensures RemoveAll(p + [x], c) == RemoveAll(p, c) + (if x == c then [] else [x])
  {
    assert (p + [x])[..|p|] == p;
  }

  /**
   * The ledger update works entry by entry: removing from a concatenation is removing from
   * each part, so the kept entries stay in their order (with the single-entry case of
   * `RemoveAll`, this fixes the result completely).
   */
  lemma {:induction false} RemoveAllKeepsOrder(a: seq<string>, b: seq<string>, c: string)
    ensures RemoveAll(a + b, c) == RemoveAll(a, c) + RemoveAll(b, c)
  {
    if b == [] {
      assert a + b == a;
    } else {
      var b', y := b[..|b| - 1], b[|b| - 1];
      SplitLast(a, b);
      RemoveAllKeepsOrder(a, b', c);
      RemoveAllSnoc(a + b', y, c);
      RemoveAllSnoc(b', y, c);
    }
  }

  /** Excluding a category twice leaves the ledger as excluding it once. */
  lemma AddOnceIdempotent(excluded: seq<string>, c: string)
    ensures AddOnce(AddOnce(excluded, c), c) == AddOnce(excluded, c)
  {
  }

  /** Restoring a category that was just forgotten gives back the ledger from before the forget. */
  lemma {:induction false} RestoreUndoesForget(excluded: seq<string>, c: string)
    requires c !in excluded
    ensures RemoveAll(AddOnce(excluded, c), c) == excluded
  {
    var added := excluded + [c];
    assert added[..|added| - 1] == excluded;
  }

  // ---------------------------------------------------------------- source filters

  /** `sources.filter((s) => !excluded.includes(s.category))`. */
  function ActiveSources(sources: seq<Source>, excluded: seq<string>): (r: seq<Source>)
    ensures |r| <= |sources|
    ensures forall x :: x in r <==> x in sources && x.category !in excluded
    ensures excluded == [] ==> r == sources
    ensures |sources| == 1 ==> r == (if sources[0].category in excluded then [] else sources)
  {
    if sources == [] then []
    else
      var last := sources[|sources| - 1];
      assert sources == sources[..|sources| - 1] + [last];
      ActiveSources(sources[..|sources| - 1], excluded) + (if last.category in excluded then [] else [last])
  }

  /** `sources.filter((s) => excluded.includes(s.category))`. */
  function ExcludedSources(sources: seq<Source>, excluded: seq<string>): (r: seq<Source>)
    ensures |r| <= |sources|
    ensures forall x :: x in r <==> x in sources && x.category in excluded
  {
    if sources == [] then []
    else
      var last := sources[|sources| - 1];
      assert sources == sources[..|sources| - 1] + [last];
      ExcludedSources(sources[..|sources| - 1], excluded) + (if last.category in excluded then [last] else [])
  }

  /** The sources of one category, in catalog order (one group of the source panel). */
  function InCategory(sources: seq<Source>, c: string): (r: seq<Source>)
    ensures |r| <= |sources|
    ensures forall x :: x in r <==> x in sources && x.category == c
    ensures (forall i :: 0 <= i < |sources| ==> sources[i].category != c) ==> r == []
    ensures |sources| == 1 ==> r == (if sources[0].category == c then sources else [])
  {
    if sources == [] then []
    else
      var last := sources[|sources| - 1];
      assert sources == sources[..|sources| - 1] + [last];
      InCategory(sources[..|sources| - 1], c) + (if last.category == c then [last] else [])
  }

  /** Every source is on exactly one side of the exclusion filter: the two sides add up to the catalog. */
  lemma {:induction false} ExclusionSplitsCatalog(sources: seq<Source>, excluded: seq<string>)
    ensures multiset(ActiveSources(sources, excluded)) + multiset(ExcludedSources(sources, excluded)) == multiset(sources)
    ensures |ActiveSources(sources, excluded)| + |ExcludedSources(sources, excluded)| == |sources|
  {
    if sources != [] {
      var init := sources[..|sources| - 1];
      var last := sources[|sources| - 1];
      assert sources == init + [last];
      ExclusionSplitsCatalog(init, excluded);
      ExclusionSplitSnoc(init, last, excluded);
    }
    assert |multiset(ActiveSources(sources, excluded))| + |multiset(ExcludedSources(sources, excluded))| == |multiset(sources)|;
  }

  /** One more source lands on exactly one side of the filter. */
  lemma ExclusionSplitSnoc(p: seq<Source>, x: Source, excluded: seq<string>)
    ensures multiset(ActiveSources(p + [x], excluded)) + multiset(ExcludedSources(p + [x], excluded))
            == multiset(ActiveSources(p, excluded)) + multiset(ExcludedSources(p, excluded)) + multiset{x}
  {
    assert (p + [x])[..|p|] == p;
    var a, e := ActiveSources(p, excluded), ExcludedSources(p, excluded);
    if x.category in excluded {
      assert ActiveSources(p + [x], excluded) == a;
      assert ExcludedSources(p + [x], excluded) == e + [x];
      assert multiset(e + [x]) == multiset(e) + multiset{x};
    } else {
      assert ActiveSources(p + [x], excluded) == a + [x];
      assert ExcludedSources(p + [x], excluded) == e;
      assert multiset(a + [x]) == multiset(a) + multiset{x};
    }
  }

  // ---------------------------------------------------------------- lookup and removal by id

  /** `sources.find((s) => s.id === id) || null`. */
  function FirstWithId(sources: seq<Source>, id: string): (r: Option<Source>)
    ensures r.None? <==> forall i :: 0 <= i < |sources| ==> sources[i].id != id
    ensures r.Some? ==> exists i :: 0 <= i < |sources| && sources[i] == r.value && r.value.id == id
                                    && forall j :: 0 <= j < i ==> sources[j].id != id
  {
    if sources == [] then None
    else if sources[0].id == id then Some(sources[0])
    else
      var r := FirstWithId(sources[1..], id);
      if r.Some? then
        var i :| 0 <= i < |sources[1..]| && sources[1..][i] == r.value && r.value.id == id
                 && forall j :: 0 <= j < i ==> sources[1..][j].id != id;
        assert sources[i + 1] == r.value;
        r
      else r
  }

  /** `sources.filter((s) => s.id !== id)`. */
  function WithoutId(sources: seq<Source>, id: string): (r: seq<Source>)
    ensures |r| <= |sources|
    ensures forall x :: x in r <==> x in sources && x.id != id
    ensures (forall i :: 0 <= i < |sources| ==> sources[i].id != id) ==> r == sources
  {
    if sources == [] then []
    else
      var last := sources[|sources| - 1];
      assert sources == sources[..|sources| - 1] + [last];
      WithoutId(sources[..|sources| - 1], id) + (if last.id == id then [] else [last])
  }

  lemma WithoutIdSnoc(p: seq<Source>, x: Source, id: string)
    ensures WithoutId(p + [x], id) == WithoutId(p, id) + (if x.id == id then [] else [x])
  {
    assert (p + [x])[..|p|] == p;
  }

  lemma {:induction false} WithoutIdAppend(a: seq<Source>, b: seq<Source>, id: string)
    ensures WithoutId(a + b, id) == WithoutId(a, id) + WithoutId(b, id)
  {
    if b != [] {
      var b', y := b[..|b| - 1], b[|b| - 1];
      SplitLast(a, b);
      WithoutIdAppend(a, b', id);
      WithoutIdSnoc(a + b', y, id);
      WithoutIdSnoc(b', y, id);
    } else {
      assert a + b == a;
    }
  }

  lemma WithoutIdSingle(y: Source)
    ensures WithoutId([y], y.id) == []
  {
    assert [y][..0] == [];
  }

  /** Cutting one record with the id out of two runs without it. */
  lemma WithoutIdAround(a: seq<Source>, y: Source, b: seq<Source>)
    requires WithoutId(a, y.id) == a && WithoutId(b, y.id) == b
    ensures WithoutId(a + [y] + b, y.id) == a + b
  {
    WithoutIdAppend(a + [y], b, y.id);
    WithoutIdAppend(a, [y], y.id);
    WithoutIdSingle(y);
    assert a + [] == a;
  }

  /** When ids are unique, removing by id cuts out exactly the one record and keeps the rest in order. */
  lemma RemoveUniqueId(sources: seq<Source>, k: nat)
    requires k < |sources|
    requires forall i :: 0 <= i < |sources| && i != k ==> sources[i].id != sources[k].id
    ensures WithoutId(sources, sources[k].id) == sources[..k] + sources[k + 1..]
  {
    PrefixWithoutId(sources, k);
    SuffixWithoutId(sources, k);
    WithoutIdAround(sources[..k], sources[k], sources[k + 1..]);
    SplitAround(sources, k);
  }

  lemma SplitAround(sources: seq<Source>, k: nat)
    requires k < |sources|
    ensures sources == sources[..k] + [sources[k]] + sources[k + 1..]
  {
  }

  lemma PrefixWithoutId(sources: seq<Source>, k: nat)
    requires k < |sources|
    requires forall i :: 0 <= i < |sources| && i != k ==> sources[i].id != sources[k].id
    ensures WithoutId(sources[..k], sources[k].id) == sources[..k]
  {
    var a := sources[..k];
    forall i | 0 <= i < |a| ensures a[i].id != sources[k].id {
      assert a[i] == sources[i];
    }
  }

  lemma SuffixWithoutId(sources: seq<Source>, k: nat)
    requires k < |sources|
    requires forall i :: 0 <= i < |sources| && i != k ==> sources[i].id != sources[k].id
    ensures WithoutId(sources[k + 1..], sources[k].id) == sources[k + 1..]
  {
    var b := sources[k + 1..];
    forall i | 0 <= i < |b| ensures b[i].id != sources[k].id {
      assert b[i] == sources[k + 1 + i];
    }
  }

  // ---------------------------------------------------------------- categories and counts

  /**
   * The distinct categories of the catalog in order of first occurrence: the insertion order
   * of the keys of `grouped` in the source panel and of the count dictionaries in storage.
   */
  function CategoryOrder(sources: seq<Source>): (r: seq<string>)
    ensures NoDuplicates(r)
    ensures forall c :: c in r <==> exists i :: 0 <= i < |sources| && sources[i].category == c
    ensures |r| <= |sources|
  {
    if sources == [] then []
    else
      var init := sources[..|sources| - 1];
      var last := sources[|sources| - 1];
      var prev := CategoryOrder(init);
      assert forall i :: 0 <= i < |init| ==> init[i] == sources[i];
      if last.category in prev then prev else prev + [last.category]
  }

  lemma CategoryOrderSnoc(p: seq<Source>, x: Source)
    ensures CategoryOrder(p + [x]) == if x.category in CategoryOrder(p) then CategoryOrder(p) else CategoryOrder(p) + [x.category]
  {
    assert (p + [x])[..|p|] == p;
  }

  lemma InCategorySnoc(p: seq<Source>, x: Source, c: string)
    ensures InCategory(p + [x], c) == InCategory(p, c) + (if x.category == c then [x] else [])
  {
    assert (p + [x])[..|p|] == p;
  }

  lemma ActiveSourcesSnoc(p: seq<Source>, x: Source, excluded: seq<string>)
    ensures ActiveSources(p + [x], excluded) == ActiveSources(p, excluded) + (if x.category in excluded then [] else [x])
  {
    assert (p + [x])[..|p|] == p;
  }

  /**
   * The exclusion filter keeps catalog order: filtering a concatenation is filtering each
   * part (with the single-source case of `ActiveSources`, this fixes the result completely).
   */
  lemma {:induction false} ActiveSourcesKeepOrder(a: seq<Source>, b: seq<Source>, excluded: seq<string>)
    ensures ActiveSources(a + b, excluded) == ActiveSources(a, excluded) + ActiveSources(b, excluded)
  {
    if b == [] {
      assert a + b == a;
    } else {
      var b', y := b[..|b| - 1], b[|b| - 1];
      SplitLast(a, b);
      ActiveSourcesKeepOrder(a, b', excluded);
      ActiveSourcesAppendStep(a, b', y, excluded);
    }
  }

  lemma ActiveSourcesAppendStep(a: seq<Source>, b: seq<Source>, y: Source, excluded: seq<string>)
    requires ActiveSources(a + b, excluded) == ActiveSources(a, excluded) + ActiveSources(b, excluded)
    ensures ActiveSources((a + b) + [y], excluded) == ActiveSources(a, excluded) + ActiveSources(b + [y], excluded)
  {
    var u, v, t := ActiveSources(a, excluded), ActiveSources(b, excluded), if y.category in excluded then [] else [y];
    assert ActiveSources((a + b) + [y], excluded) == (u + v) + t by {
      ActiveSourcesSnoc(a + b, y, excluded);
    }
    assert ActiveSources(b + [y], excluded) == v + t by {
      ActiveSourcesSnoc(b, y, excluded);
    }
    ConcatAssoc(u, v, t);
  }

  /** A group keeps catalog order: the group of a concatenation is the two groups one after the other. */
  lemma {:induction false} InCategoryKeepsOrder(a: seq<Source>, b: seq<Source>, c: string)
    ensures InCategory(a + b, c) == InCategory(a, c) + InCategory(b, c)
  {
    if b == [] {
      assert a + b == a;
    } else {
      var b', y := b[..|b| - 1], b[|b| - 1];
      SplitLast(a, b);
      InCategoryKeepsOrder(a, b', c);
      InCategoryAppendStep(a, b', y, c);
    }
  }

  lemma InCategoryAppendStep(a: seq<Source>, b: seq<Source>, y: Source, c: string)
    requires InCategory(a + b, c) == InCategory(a, c) + InCategory(b, c)
    ensures InCategory((a + b) + [y], c) == InCategory(a, c) + InCategory(b + [y], c)
  {
    var u, v, t := InCategory(a, c), InCategory(b, c), if y.category == c then [y] else [];
    assert InCategory((a + b) + [y], c) == (u + v) + t by {
      InCategorySnoc(a + b, y, c);
    }
    assert InCategory(b + [y], c) == v + t by {
      InCategorySnoc(b, y, c);
    }
    ConcatAssoc(u, v, t);
  }

  lemma SplitLast<T>(a: seq<T>, b: seq<T>)
    requires b != []
    ensures b == b[..|b| - 1] + [b[|b| - 1]]
    ensures a + b == (a + b[..|b| - 1]) + [b[|b| - 1]]
  {
  }

  lemma ConcatAssoc<T>(u: seq<T>, v: seq<T>, t: seq<T>)
    ensures (u + v) + t == u + (v + t)
  {
  }

  /** The index of the first source of category `c`, or `|sources|` when there is none. */
  function FirstIndex(sources: seq<Source>, c: string): (k: nat)
    ensures k <= |sources|
    ensures k < |sources| ==> sources[k].category == c
    ensures forall i :: 0 <= i < k ==> sources[i].category != c
  {
    if sources == [] then 0
    else if sources[0].category == c then 0
    else
      var k := FirstIndex(sources[1..], c);
      assert forall i :: 1 <= i < k + 1 ==> sources[i] == sources[1..][i - 1];
      1 + k
  }

  lemma FirstIndexUnique(sources: seq<Source>, c: string, k: nat)
    requires k <= |sources|
    requires k < |sources| ==> sources[k].category == c
    requires forall i :: 0 <= i < k ==> sources[i].category != c
    ensures FirstIndex(sources, c) == k
  {
  }

  /** One more source moves no first occurrence, and is the first of its category only when the category is new. */
  lemma FirstIndexSnoc(p: seq<Source>, x: Source, c: string)
    ensures FirstIndex(p + [x], c)
            == if FirstIndex(p, c) < |p| then FirstIndex(p, c) else if x.category == c then |p| else |p| + 1
  {
    var k := FirstIndex(p, c);
    var s := p + [x];
    assert forall i :: 0 <= i < |p| ==> s[i] == p[i];
    if k < |p| {
      FirstIndexUnique(s, c, k);
    } else if x.category == c {
      FirstIndexUnique(s, c, |p|);
    } else {
      FirstIndexUnique(s, c, |p| + 1);
    }
  }

  /**
   * The categories come in order of their first source: every listed category has a source,
   * and a category listed earlier has its first source earlier in the catalog.
   */
  lemma {:induction false} CategoryOrderByFirstSource(sources: seq<Source>)
    ensures forall i :: 0 <= i < |CategoryOrder(sources)| ==> FirstIndex(sources, CategoryOrder(sources)[i]) < |sources|
    ensures forall i, j :: 0 <= i < j < |CategoryOrder(sources)| ==>
              FirstIndex(sources, CategoryOrder(sources)[i]) < FirstIndex(sources, CategoryOrder(sources)[j])
  {
    if sources != [] {
      var p, x := sources[..|sources| - 1], sources[|sources| - 1];
      assert sources == p + [x];
      CategoryOrderByFirstSource(p);
      CategoryOrderSnoc(p, x);
      var rp := CategoryOrder(p);
      forall i | 0 <= i < |rp| ensures FirstIndex(sources, rp[i]) == FirstIndex(p, rp[i]) {
        FirstIndexSnoc(p, x, rp[i]);
      }
      if x.category !in rp {
        FirstIndexUnique(p, x.category, |p|);
        FirstIndexSnoc(p, x, x.category);
        var r := CategoryOrder(sources);
        assert r == rp + [x.category];
        assert FirstIndex(sources, r[|r| - 1]) == |p|;
      }
    }
  }

  /** A category that names no source has an empty group. */
  lemma NoSourcesNoGroup(sources: seq<Source>, c: string)
    requires c !in CategoryOrder(sources)
    ensures InCategory(sources, c) == []
  {
  }

  /** Sum, over a list of categories, of the number of sources in each. */
  function SumCounts(sources: seq<Source>, cats: seq<string>): nat {
    if cats == [] then 0
    else SumCounts(sources, cats[..|cats| - 1]) + |InCategory(sources, cats[|cats| - 1])|
  }

  lemma SumCountsAppend(sources: seq<Source>, cats: seq<string>, c: string)
    ensures SumCounts(sources, cats + [c]) == SumCounts(sources, cats) + |InCategory(sources, c)|
  {
    assert (cats + [c])[..|cats|] == cats;
  }

  /** One more source adds one to the sum over distinct categories exactly when its category is listed. */
  lemma {:induction false} SumCountsSnoc(sources: seq<Source>, x: Source, cats: seq<string>)
    requires NoDuplicates(cats)
    ensures SumCounts(sources + [x], cats) == SumCounts(sources, cats) + (if x.category in cats then 1 else 0)
  {
    if cats != [] {
      var init := cats[..|cats| - 1];
      var c := cats[|cats| - 1];
      assert cats == init + [c];
      assert NoDuplicates(init);
      assert x.category == c ==> x.category !in init;
      SumCountsSnoc(sources, x, init);
      InCategorySnoc(sources, x, c);
      SumCountsAppend(sources + [x], init, c);
      SumCountsAppend(sources, init, c);
    }
  }

  /** `keys.filter((cat) => !excluded.includes(cat))`. */
  function ActiveCategories(keys: seq<string>, excluded: seq<string>): (r: seq<string>)
    ensures forall c :: c in r <==> c in keys && c !in excluded
    ensures NoDuplicates(keys) ==> NoDuplicates(r)
    ensures excluded == [] ==> r == keys
  {
    if keys == [] then []
    else
      var init := keys[..|keys| - 1];
      var last := keys[|keys| - 1];
      assert keys == init + [last];
      assert NoDuplicates(keys) ==> NoDuplicates(init) && last !in init;
      ActiveCategories(init, excluded) + (if last in excluded then [] else [last])
  }

  lemma ActiveCategoriesSnoc(keys: seq<string>, c: string, excluded: seq<string>)
    ensures ActiveCategories(keys + [c], excluded) == ActiveCategories(keys, excluded) + (if c in excluded then [] else [c])
  {
    assert (keys + [c])[..|keys|] == keys;
  }

  /** `keys.filter((cat) => excluded.includes(cat))`. */
  function ExcludedCategoriesIn(keys: seq<string>, excluded: seq<string>): (r: seq<string>)
    ensures forall c :: c in r <==> c in keys && c in excluded
    ensures NoDuplicates(keys) ==> NoDuplicates(r)
  {
    if keys == [] then []
    else
      var init := keys[..|keys| - 1];
      var last := keys[|keys| - 1];
      assert keys == init + [last];
      assert NoDuplicates(keys) ==> NoDuplicates(init) && last !in init;
      ExcludedCategoriesIn(init, excluded) + (if last in excluded then [last] else [])
  }

  /**
   * Summing the group sizes of the categories that are not excluded counts exactly the
   * sources that survive the exclusion filter.
   */
  lemma {:induction false} SumOverActiveCategories(sources: seq<Source>, excluded: seq<string>)
    ensures SumCounts(sources, ActiveCategories(CategoryOrder(sources), excluded)) == |ActiveSources(sources, excluded)|
  {
    if sources != [] {
      var p := sources[..|sources| - 1];
      var x := sources[|sources| - 1];
      assert sources == p + [x];
      var k := CategoryOrder(p);
      var a := ActiveCategories(k, excluded);
      SumOverActiveCategories(p, excluded);
      assert SumCounts(sources, a) == SumCounts(p, a) + (if x.category in a then 1 else 0) by {
        SumCountsSnoc(p, x, a);
      }
      assert |ActiveSources(sources, excluded)| == |ActiveSources(p, excluded)| + (if x.category in excluded then 0 else 1) by {
        ActiveSourcesSnoc(p, x, excluded);
      }
      CategoryOrderSnoc(p, x);
      var a' := ActiveCategories(CategoryOrder(sources), excluded);
      if x.category in k {
        assert a' == a;
        assert x.category in a <==> x.category !in excluded;
      } else if x.category in excluded {
        assert a' == a by {
          ActiveCategoriesSnoc(k, x.category, excluded);
        }
        assert x.category !in a;
      } else {
        assert a' == a + [x.category] by {
          ActiveCategoriesSnoc(k, x.category, excluded);
        }
        assert x.category !in a;
        assert |InCategory(sources, x.category)| == 1 by {
          NoSourcesNoGroup(p, x.category);
          InCategorySnoc(p, x, x.category);
        }
        SumCountsAppend(sources, a, x.category);
      }
      assert SumCounts(sources, a') == |ActiveSources(sources, excluded)|;
    }
  }

  /** The per-category counts add up to the size of the catalog. */
  lemma CountsSumToTotal(sources: seq<Source>)
    ensures SumCounts(sources, CategoryOrder(sources)) == |sources|
  {
    SumOverActiveCategories(sources, []);
  }

  /**
   * The dictionary that `counts[s.category] = (counts[s.category] || 0) + 1` builds over the
   * catalog, as a map from category to the number of its sources.
   */
  function CountByCategory(sources: seq<Source>): map<string, nat> {
    if sources == [] then map[]
    else
      var prev := CountByCategory(sources[..|sources| - 1]);
      var c := sources[|sources| - 1].category;
      prev[c := (if c in prev then prev[c] else 0) + 1]
  }

  /** The count dictionary has one key per category of the catalog, holding the size of its group. */
  lemma {:induction false} CountByCategoryCounts(sources: seq<Source>)
    ensures forall c :: c in CountByCategory(sources) <==> c in CategoryOrder(sources)
    ensures forall c :: c in CountByCategory(sources) ==> CountByCategory(sources)[c] == |InCategory(sources, c)|
  {
    if sources != [] {
      var p := sources[..|sources| - 1];
      var x := sources[|sources| - 1];
      assert sources == p + [x];
      CountByCategoryCounts(p);
      CategoryOrderSnoc(p, x);
      forall c ensures |InCategory(sources, c)| == |InCategory(p, c)| + (if x.category == c then 1 else 0) {
        InCategorySnoc(p, x, c);
      }
      if x.category !in CategoryOrder(p) {
        NoSourcesNoGroup(p, x.category);
      }
    }
  }

  /** The sum of `counts[k]` over a list of keys of the dictionary. */
  function SumOver(counts: map<string, nat>, keys: seq<string>): nat
    requires forall k :: k in keys ==> k in counts
  {
    if keys == [] then 0
    else SumOver(counts, keys[..|keys| - 1]) + counts[keys[|keys| - 1]]
  }

  lemma {:induction false} SumOverGroupSizes(sources: seq<Source>, counts: map<string, nat>, keys: seq<string>)
    requires forall k :: k in keys ==> k in counts && counts[k] == |InCategory(sources, k)|
    ensures SumOver(counts, keys) == SumCounts(sources, keys)
  {
    if keys != [] {
      var init := keys[..|keys| - 1];
      assert forall k :: k in init ==> k in keys;
      SumOverGroupSizes(sources, counts, init);
    }
  }

  /**
   * The count dictionary's values, summed once over each of its keys (the categories in
   * first-occurrence order), give the number of sources.
   */
  lemma CountValuesSumToTotal(sources: seq<Source>)
    ensures NoDuplicates(CategoryOrder(sources))
    ensures forall c :: c in CountByCategory(sources) <==> c in CategoryOrder(sources)
    ensures SumOver(CountByCategory(sources), CategoryOrder(sources)) == |sources|
  {
    CountByCategoryCounts(sources);
    SumOverGroupSizes(sources, CountByCategory(sources), CategoryOrder(sources));
    CountsSumToTotal(sources);
  }

  /** The counting loop of `getSourceCountByCategory` and of the importer. */
  method CountCategories(sources: seq<Source>) returns (counts: map<string, nat>)
    ensures counts == CountByCategory(sources)
  {
    counts := map[];
    var i := 0;
    while i < |sources|
      invariant 0 <= i <= |sources|
      invariant counts == CountByCategory(sources[..i])
    {
      var c := sources[i].category;
      assert sources[..i + 1][..i] == sources[..i];
      counts := counts[c := (if c in counts then counts[c] else 0) + 1];
      i := i + 1;
    }
    assert sources[..i] == sources;
  }
}
