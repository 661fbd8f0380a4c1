/**
 * The flat item table of the bulk export (menu_export.py,
 * `get_items_from_bundles`): every item of every bundle's item-types reply,
 * keyed by `itemUUID`, with its derived display name and tax-exempt flag.
 */
module Items {
  import opened Wrappers
  import opened Seqs
  import opened Dicts
  import opened Catalog

  /** The item `type` that marks a bundle's base item. */
  const BundleBase: string := "BUNDLE_BASE"

  /** Appended to the name of every item that is not a bundle's base item. */
  const ModifierSuffix: string := " MEAL MODIFIER"

  /**
   * The table's value for an item: `(derived name, taxExempt)`.  The name is
   * `None` for the base item of a bundle whose name is JSON null.
   */
  datatype ItemRecord = ItemRecord(name: Option<string>, taxExempt: bool)

  /**
   * The display name of `item` found in the bundle named `bundleName`: a base
   * item is shown under its bundle's name, null included, any other item
   * under its own name marked as a meal modifier.
   */
  function DerivedName(item: Item, bundleName: Option<string>): (r: Option<string>)
    ensures item.kind == BundleBase ==> r == bundleName
    ensures item.kind != BundleBase ==>
      && r.Some?
      && |r.value| == |item.name| + |ModifierSuffix|
      && r.value[..|item.name|] == item.name
      && r.value[|item.name|..] == ModifierSuffix
  {
    if item.kind == BundleBase then bundleName else Some(item.name + ModifierSuffix)
  }

  /**
   * The table entry an item of the bundle named `bundleName` writes: keyed by
   * the item's `itemUUID`, holding its derived name and its own tax-exempt flag.
   */
  function EntryFor(bundleName: Option<string>): (f: Item -> (string, ItemRecord))
    ensures forall i :: f(i).0 == i.itemUuid && f(i).1 == ItemRecord(DerivedName(i, bundleName), i.taxExempt)
  {
    (i: Item) => (i.itemUuid, ItemRecord(DerivedName(i, bundleName), i.taxExempt))
  }

  function TypeEntriesFor(bundleName: Option<string>): ItemType -> seq<(string, ItemRecord)>
  {
    (t: ItemType) => Map(EntryFor(bundleName), t.items)
  }

  function BundleEntriesFor(api: ItemTypesApi): BundleKey -> seq<(string, ItemRecord)>
  {
    (b: BundleKey) => FlatMap(TypeEntriesFor(b.name), api(b.menu, b.uuid))
  }

  /** Every table write, in the order the loops perform them. */
  function Entries(bundles: seq<BundleKey>, api: ItemTypesApi): seq<(string, ItemRecord)>
  {
    FlatMap(BundleEntriesFor(api), bundles)
  }

  /** The dict `get_items_from_bundles` returns when it visits `bundles` in this order. */
  function ItemTable(bundles: seq<BundleKey>, api: ItemTypesApi): Dict<string, ItemRecord>
  {
    FromPairs(Entries(bundles, api))
  }

  /**
   * `get_items_from_bundles`.  The source iterates a set of bundles, in an
   * order Python leaves unspecified; `bundles` is that iteration order.
   */
  method ItemsFromBundles(bundles: seq<BundleKey>, api: ItemTypesApi) returns (items: Dict<string, ItemRecord>)
    ensures items == ItemTable(bundles, api)
  {
    items := [];
    for n := 0 to |bundles|
      invariant items == FromPairs(Entries(bundles[..n], api))
    {
      var b := bundles[n];
      items := AddBundleItems(items, b.name, api(b.menu, b.uuid), Entries(bundles[..n], api));
      FlatMapSnoc(BundleEntriesFor(api), bundles, n);
    }
    FlatMapAll(BundleEntriesFor(api), bundles);
  }

  /** The writes for one bundle's item-types reply, on a table built from the writes `done`. */
  method AddBundleItems(items: Dict<string, ItemRecord>, bundleName: Option<string>, reply: seq<ItemType>,
                        ghost done: seq<(string, ItemRecord)>)
    returns (items': Dict<string, ItemRecord>)
    requires items == FromPairs(done)
    ensures items' == FromPairs(done + FlatMap(TypeEntriesFor(bundleName), reply))
  {
    items' := items;
    assert done + FlatMap(TypeEntriesFor(bundleName), reply[..0]) == done;
    for t := 0 to |reply|
      invariant items' == FromPairs(done + FlatMap(TypeEntriesFor(bundleName), reply[..t]))
    {
      ghost var before := done + FlatMap(TypeEntriesFor(bundleName), reply[..t]);
      items' := AddTypeItems(items', bundleName, reply[t].items, before);
      FlatMapSnocAfter(TypeEntriesFor(bundleName), done, reply, t);
      assert TypeEntriesFor(bundleName)(reply[t]) == Map(EntryFor(bundleName), reply[t].items);
    }
    FlatMapAll(TypeEntriesFor(bundleName), reply);
  }

  /** The writes for the items of one item type. */
  method AddTypeItems(items: Dict<string, ItemRecord>, bundleName: Option<string>, its: seq<Item>,
                      ghost done: seq<(string, ItemRecord)>)
    returns (items': Dict<string, ItemRecord>)
    requires items == FromPairs(done)
    ensures items' == FromPairs(done + Map(EntryFor(bundleName), its))
  {
    items' := items;
    assert done + Map(EntryFor(bundleName), its[..0]) == done;
    for k := 0 to |its|
      invariant items' == FromPairs(done + Map(EntryFor(bundleName), its[..k]))
    {
      var i := its[k];
      var name := DerivedName(i, bundleName);
      MapSnocAfter(EntryFor(bundleName), done, its, k);
      FromPairsSnoc(done + Map(EntryFor(bundleName), its[..k]), EntryFor(bundleName)(i));
      items' := Put(items', i.itemUuid, ItemRecord(name, i.taxExempt));
    }
    assert its[..|its|] == its;
  }

  /** The items seen in the replies for `bundles`. */
  ghost predicate Sighted(bundles: seq<BundleKey>, api: ItemTypesApi, b: BundleKey, t: ItemType, i: Item)
  {
    b in bundles && t in api(b.menu, b.uuid) && i in t.items
  }

  /** Every entry written comes from an item seen. */
  lemma EntryFromItem(bundles: seq<BundleKey>, api: ItemTypesApi, e: (string, ItemRecord))
    requires e in Entries(bundles, api)
    ensures exists b, t, i :: Sighted(bundles, api, b, t, i) && e == EntryFor(b.name)(i)
  {
    FlatMapMember(BundleEntriesFor(api), bundles, e);
    var n :| 0 <= n < |bundles| && e in BundleEntriesFor(api)(bundles[n]);
    var b := bundles[n];
    var reply := api(b.menu, b.uuid);
    FlatMapMember(TypeEntriesFor(b.name), reply, e);
    var m :| 0 <= m < |reply| && e in TypeEntriesFor(b.name)(reply[m]);
    var t := reply[m];
    var k :| 0 <= k < |t.items| && Map(EntryFor(b.name), t.items)[k] == e;
    MapAt(EntryFor(b.name), t.items, k);
    assert Sighted(bundles, api, b, t, t.items[k]);
  }

  /** Every item seen has its entry written. */
  lemma ItemHasEntry(bundles: seq<BundleKey>, api: ItemTypesApi, b: BundleKey, t: ItemType, i: Item)
    requires Sighted(bundles, api, b, t, i)
    ensures EntryFor(b.name)(i) in Entries(bundles, api)
  {
    var e := EntryFor(b.name)(i);
    var k :| 0 <= k < |t.items| && t.items[k] == i;
    MapAt(EntryFor(b.name), t.items, k);
    assert e in TypeEntriesFor(b.name)(t);
    FlatMapMember(TypeEntriesFor(b.name), api(b.menu, b.uuid), e);
    assert e in BundleEntriesFor(api)(b);
    FlatMapMember(BundleEntriesFor(api), bundles, e);
  }

  /**
   * The table's keys are exactly the `itemUUID`s of the items seen, and it
   * has at most one entry per item processed.
   */
  lemma ItemTableKeys(bundles: seq<BundleKey>, api: ItemTypesApi, k: string)
    ensures k in Keys(ItemTable(bundles, api)) <==>
      exists b, t, i :: Sighted(bundles, api, b, t, i) && i.itemUuid == k
    ensures |ItemTable(bundles, api)| <= |Entries(bundles, api)|
  {
    FromPairsKeys(Entries(bundles, api), k);
    KeysMember(Entries(bundles, api), k);
    if exists v :: (k, v) in Entries(bundles, api) {
      var v :| (k, v) in Entries(bundles, api);
      EntryFromItem(bundles, api, (k, v));
    }
    if exists b, t, i :: Sighted(bundles, api, b, t, i) && i.itemUuid == k {
      var b, t, i :| Sighted(bundles, api, b, t, i) && i.itemUuid == k;
      ItemHasEntry(bundles, api, b, t, i);
    }
  }

  /**
   * Whatever the visiting order, the record stored under a key is that of
   * some item seen with that `itemUUID`: the bundle's name for a base item,
   * the item's own name plus the modifier suffix otherwise.
   */
  lemma ItemTableValue(bundles: seq<BundleKey>, api: ItemTypesApi, k: string, r: ItemRecord)
    requires Get(ItemTable(bundles, api), k) == Some(r)
    ensures exists b, t, i :: (Sighted(bundles, api, b, t, i) && i.itemUuid == k &&
                               r == ItemRecord(DerivedName(i, b.name), i.taxExempt))
  {
    FromPairsGet(Entries(bundles, api), k, r);
    var n :| LastEntry(Entries(bundles, api), n, k) && Entries(bundles, api)[n].1 == r;
    EntryFromItem(bundles, api, Entries(bundles, api)[n]);
  }

  /**
   * The key set does not depend on the order in which the set of bundles is
   * iterated: any two enumerations of the same bundles give the same keys.
   */
  lemma ItemKeysOrderFree(bundles1: seq<BundleKey>, bundles2: seq<BundleKey>, api: ItemTypesApi, k: string)
    requires forall b :: b in bundles1 <==> b in bundles2
    ensures k in Keys(ItemTable(bundles1, api)) <==> k in Keys(ItemTable(bundles2, api))
  {
    ItemTableKeys(bundles1, api, k);
    ItemTableKeys(bundles2, api, k);
    assert forall b, t, i :: Sighted(bundles1, api, b, t, i) <==> Sighted(bundles2, api, b, t, i);
  }
}
