/**
 * Bundle enumeration (menu_export.py, `get_bundles_from_category` and
 * `get_bundles_from_menu_categories`).  A category-bundles reply lists
 * bundles in two places, inside its inner categories and at top level; both
 * functions read both, the first into an ordered list of `(name, uuid)`
 * pairs, the second into a set of `(uuid, name, menu uuid)` triples over
 * every menu and category.
 */
module Bundles {
  import opened Seqs
  import opened Dicts
  import opened Catalog

  function InnerBundlesOf(ic: InnerCategory): seq<BundleRef>
  {
    ic.bundles
  }

  /** Every bundle of a reply, in visiting order: inner categories first, then top level. */
  function PayloadBundles(p: CategoryPayload): seq<BundleRef>
  {
    FlatMap(InnerBundlesOf, p.categories) + p.bundles
  }

  /** The `(name, uuid)` pair of a bundle. */
  function PairOf(b: BundleRef): NamedKey
  {
    NamedKey(b.name, b.uuid)
  }

  /** A bundle is in a reply exactly when some inner category or the top-level list has it. */
  lemma PayloadBundlesMember(p: CategoryPayload, b: BundleRef)
    ensures b in PayloadBundles(p) <==>
      (exists i :: 0 <= i < |p.categories| && b in p.categories[i].bundles) || b in p.bundles
  {
    FlatMapMember(InnerBundlesOf, p.categories, b);
  }

  /**
   * The list of `get_bundles_from_category` has one pair per bundle listing:
   * as many as the inner categories hold together plus the top-level ones,
   * the top-level bundles last and in order.
   */
  lemma {:induction false} CategoryListLayout(p: CategoryPayload)
    ensures |Map(PairOf, PayloadBundles(p))| == TotalSize(InnerBundlesOf, p.categories) + |p.bundles|
    ensures forall k :: 0 <= k < |p.bundles| ==>
      Map(PairOf, PayloadBundles(p))[|FlatMap(InnerBundlesOf, p.categories)| + k] == PairOf(p.bundles[k])
  {
    var inner := FlatMap(InnerBundlesOf, p.categories);
    FlatMapLength(InnerBundlesOf, p.categories);
    forall k | 0 <= k < |p.bundles|
      ensures Map(PairOf, PayloadBundles(p))[|inner| + k] == PairOf(p.bundles[k])
    {
      assert PayloadBundles(p)[|inner| + k] == p.bundles[k];
    }
  }

  /**
   * Bundle `j` of inner category `i` comes right after the bundles of the
   * inner categories before `i`.
   */
  lemma CategoryListInnerAt(p: CategoryPayload, i: nat, j: nat)
    requires i < |p.categories| && j < |p.categories[i].bundles|
    ensures |FlatMap(InnerBundlesOf, p.categories[..i])| + j < |Map(PairOf, PayloadBundles(p))|
    ensures Map(PairOf, PayloadBundles(p))[|FlatMap(InnerBundlesOf, p.categories[..i])| + j]
      == PairOf(p.categories[i].bundles[j])
  {
    FlatMapAt(InnerBundlesOf, p.categories, i, j);
    var at := |FlatMap(InnerBundlesOf, p.categories[..i])| + j;
    assert PayloadBundles(p)[at] == FlatMap(InnerBundlesOf, p.categories)[at];
  }

  /** `get_bundles_from_category`, given the reply for its (menu, category). */
  method BundlesFromCategory(p: CategoryPayload) returns (bundles: seq<NamedKey>)
    ensures bundles == Map(PairOf, PayloadBundles(p))
  {
    bundles := [];
    for i := 0 to |p.categories|
      invariant bundles == Map(PairOf, FlatMap(InnerBundlesOf, p.categories[..i]))
    {
      var ic := p.categories[i];
      for j := 0 to |ic.bundles|
        invariant bundles == Map(PairOf, FlatMap(InnerBundlesOf, p.categories[..i]) + ic.bundles[..j])
      {
        var b := ic.bundles[j];
        assert (FlatMap(InnerBundlesOf, p.categories[..i]) + ic.bundles[..j + 1])
          == (FlatMap(InnerBundlesOf, p.categories[..i]) + ic.bundles[..j]) + [b];
        MapAppend(PairOf, FlatMap(InnerBundlesOf, p.categories[..i]) + ic.bundles[..j], b);
        bundles := bundles + [NamedKey(b.name, b.uuid)];
      }
      assert ic.bundles[..|ic.bundles|] == ic.bundles;
      FlatMapSnoc(InnerBundlesOf, p.categories, i);
    }
    FlatMapAll(InnerBundlesOf, p.categories);
    for j := 0 to |p.bundles|
      invariant bundles == Map(PairOf, FlatMap(InnerBundlesOf, p.categories) + p.bundles[..j])
    {
      var b := p.bundles[j];
      assert (FlatMap(InnerBundlesOf, p.categories) + p.bundles[..j + 1])
        == (FlatMap(InnerBundlesOf, p.categories) + p.bundles[..j]) + [b];
      MapAppend(PairOf, FlatMap(InnerBundlesOf, p.categories) + p.bundles[..j], b);
      bundles := bundles + [NamedKey(b.name, b.uuid)];
    }
    assert p.bundles[..|p.bundles|] == p.bundles;
  }

  /** The triples of a list of bundles seen under `menu`. */
  function KeysIn(menu: string, bs: seq<BundleRef>): set<BundleKey>
  {
    set b | b in bs :: BundleKey(b.uuid, b.name, menu)
  }

  lemma KeysInSnoc(menu: string, bs: seq<BundleRef>, b: BundleRef)
    ensures KeysIn(menu, bs + [b]) == KeysIn(menu, bs) + {BundleKey(b.uuid, b.name, menu)}
  {
  }

  /** The triples from the categories `cats` of `menu`. */
  function MenuKeys(menu: string, cats: seq<string>, api: CategoryApi): set<BundleKey>
  {
    if cats == [] then {}
    else MenuKeys(menu, cats[..|cats| - 1], api) + KeysIn(menu, PayloadBundles(api(menu, cats[|cats| - 1])))
  }

  /** The set `get_bundles_from_menu_categories` returns for the menu-to-categories dict `menus`. */
  function BundleSet(menus: Dict<string, seq<string>>, api: CategoryApi): set<BundleKey>
  {
    if menus == [] then {}
    else BundleSet(menus[..|menus| - 1], api) + MenuKeys(menus[|menus| - 1].0, menus[|menus| - 1].1, api)
  }

  /**
   * `get_bundles_from_menu_categories`, given the dict from menu uuid to its
   * category uuids and the category-bundles endpoint.
   */
  method BundlesFromMenuCategories(menus: Dict<string, seq<string>>, api: CategoryApi)
    returns (all: set<BundleKey>)
    ensures all == BundleSet(menus, api)
  {
    all := {};
    for m := 0 to |menus|
      invariant all == BundleSet(menus[..m], api)
    {
      var menu := menus[m].0;
      var cats := menus[m].1;
      ghost var before := all;
      for c := 0 to |cats|
        invariant all == before + MenuKeys(menu, cats[..c], api)
      {
        all := AddReplyBundles(all, menu, api(menu, cats[c]));
        assert cats[..c + 1][..c] == cats[..c];
      }
      assert cats[..|cats|] == cats;
      assert menus[..m + 1][..m] == menus[..m];
    }
    assert menus[..|menus|] == menus;
  }

  /** The loops over one category-bundles reply: every bundle's triple is added to `all`. */
  method AddReplyBundles(all: set<BundleKey>, menu: string, p: CategoryPayload) returns (all': set<BundleKey>)
    ensures all' == all + KeysIn(menu, PayloadBundles(p))
  {
    all' := all;
    for i := 0 to |p.categories|
      invariant all' == all + KeysIn(menu, FlatMap(InnerBundlesOf, p.categories[..i]))
    {
      all' := AddBundles(all', menu, p.categories[i].bundles);
      FlatMapSnoc(InnerBundlesOf, p.categories, i);
      KeysInConcat(menu, FlatMap(InnerBundlesOf, p.categories[..i]), p.categories[i].bundles);
    }
    FlatMapAll(InnerBundlesOf, p.categories);
    all' := AddBundles(all', menu, p.bundles);
    KeysInConcat(menu, FlatMap(InnerBundlesOf, p.categories), p.bundles);
  }

  /** `for b in bs: all_bundles.add((b['uuid'], b['name'], menu_uuid))`. */
  method AddBundles(all: set<BundleKey>, menu: string, bs: seq<BundleRef>) returns (all': set<BundleKey>)
    ensures all' == all + KeysIn(menu, bs)
  {
    all' := all;
    for j := 0 to |bs|
      invariant all' == all + KeysIn(menu, bs[..j])
    {
      var b := bs[j];
      assert bs[..j + 1] == bs[..j] + [b];
      KeysInSnoc(menu, bs[..j], b);
      all' := all' + {BundleKey(b.uuid, b.name, menu)};
    }
    assert bs[..|bs|] == bs;
  }

  lemma KeysInConcat(menu: string, bs1: seq<BundleRef>, bs2: seq<BundleRef>)
    ensures KeysIn(menu, bs1 + bs2) == KeysIn(menu, bs1) + KeysIn(menu, bs2)
  {
  }

  /** Bundle `k`'s `(name, uuid)` is listed in the reply for category `cat` of its menu `menu`. */
  ghost predicate ListedUnder(menu: string, cat: string, api: CategoryApi, k: BundleKey)
  {
    k.menu == menu && NamedKey(k.name, k.uuid) in Map(PairOf, PayloadBundles(api(menu, cat)))
  }

  lemma KeysInMember(menu: string, bs: seq<BundleRef>, k: BundleKey)
    ensures k in KeysIn(menu, bs) <==> k.menu == menu && NamedKey(k.name, k.uuid) in Map(PairOf, bs)
  {
    if k.menu == menu && NamedKey(k.name, k.uuid) in Map(PairOf, bs) {
      var i :| 0 <= i < |bs| && Map(PairOf, bs)[i] == NamedKey(k.name, k.uuid);
      MapAt(PairOf, bs, i);
      assert BundleKey(bs[i].uuid, bs[i].name, menu) == k;
    }
    if k in KeysIn(menu, bs) {
      var b :| b in bs && k == BundleKey(b.uuid, b.name, menu);
      var i :| 0 <= i < |bs| && bs[i] == b;
      MapAt(PairOf, bs, i);
    }
  }

  lemma {:induction false} MenuKeysMember(menu: string, cats: seq<string>, api: CategoryApi, k: BundleKey)
    ensures k in MenuKeys(menu, cats, api) <==> exists c :: 0 <= c < |cats| && ListedUnder(menu, cats[c], api, k)
  {
    if cats != [] {
      var n := |cats| - 1;
      var p := cats[..n];
      MenuKeysMember(menu, p, api, k);
      KeysInMember(menu, PayloadBundles(api(menu, cats[n])), k);
      assert forall c :: 0 <= c < n ==> p[c] == cats[c];
    }
  }

  /**
   * The bulk set holds exactly the `(uuid, name, menu)` triples whose
   * `(name, uuid)` pair `get_bundles_from_category` lists for some category
   * of that menu.
   */
  lemma {:induction false} BundleSetMember(menus: Dict<string, seq<string>>, api: CategoryApi, k: BundleKey)
    ensures k in BundleSet(menus, api) <==>
      exists m, c :: 0 <= m < |menus| && 0 <= c < |menus[m].1| && ListedUnder(menus[m].0, menus[m].1[c], api, k)
  {
    if menus != [] {
      var n := |menus| - 1;
      var p := menus[..n];
      BundleSetMember(p, api, k);
      MenuKeysMember(menus[n].0, menus[n].1, api, k);
      assert forall m :: 0 <= m < n ==> p[m] == menus[m];
    }
  }

  /**
   * A bundle listed under two (menu, category) requests is collected under
   * both menus; when the menus differ these are two triples, so the bundle
   * counts twice in the number of bundles the bulk export reports.
   */
  lemma BundleSetPerMenu(menus: Dict<string, seq<string>>, api: CategoryApi,
                         m1: nat, c1: nat, m2: nat, c2: nat, b: BundleRef)
    requires m1 < |menus| && c1 < |menus[m1].1| && m2 < |menus| && c2 < |menus[m2].1|
    requires b in PayloadBundles(api(menus[m1].0, menus[m1].1[c1]))
    requires b in PayloadBundles(api(menus[m2].0, menus[m2].1[c2]))
    ensures BundleKey(b.uuid, b.name, menus[m1].0) in BundleSet(menus, api)
    ensures BundleKey(b.uuid, b.name, menus[m2].0) in BundleSet(menus, api)
    ensures menus[m1].0 != menus[m2].0 ==> |BundleSet(menus, api)| >= 2
  {
    var k1 := BundleKey(b.uuid, b.name, menus[m1].0);
    var k2 := BundleKey(b.uuid, b.name, menus[m2].0);
    var bs1 := PayloadBundles(api(menus[m1].0, menus[m1].1[c1]));
    var bs2 := PayloadBundles(api(menus[m2].0, menus[m2].1[c2]));
    var i1 :| 0 <= i1 < |bs1| && bs1[i1] == b;
    var i2 :| 0 <= i2 < |bs2| && bs2[i2] == b;
    MapAt(PairOf, bs1, i1);
    MapAt(PairOf, bs2, i2);
    BundleSetMember(menus, api, k1);
    BundleSetMember(menus, api, k2);
    assert ListedUnder(menus[m1].0, menus[m1].1[c1], api, k1);
    assert ListedUnder(menus[m2].0, menus[m2].1[c2], api, k2);
    if menus[m1].0 != menus[m2].0 {
      var all := BundleSet(menus, api);
      assert all == {k1, k2} + (all - {k1, k2});
    }
  }
}
