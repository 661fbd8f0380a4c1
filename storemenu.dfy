/**
 * The menu export (menu_export.py, `get_store_menu_json`): one nested dict
 * from menu key to category key to bundle key to the bundle's item listing,
 * with its tuple keys then turned into strings.  The menu list, the category
 * replies and the item-types replies are inputs.
 */
module StoreMenu {
  import opened Wrappers
  import opened Seqs
  import opened Dicts
  import opened Catalog
  import opened Bundles
  import opened Customizations
  import opened StringKeys
  import opened Texts
  import opened Urls

  /** `(menu['displayName'] or menu['name'], menu['uuid'])`: the display name when truthy, else the name. */
  function MenuKey(m: Menu): (r: Key)
    ensures r.Tuple? && |r.parts| == 2 && r.parts[1] == Some(m.uuid)
    ensures Truthy(m.displayName) ==> r.parts[0] == m.displayName
    ensures !Truthy(m.displayName) ==> r.parts[0] == m.name
  {
    Tuple([if Truthy(m.displayName) then m.displayName else m.name, Some(m.uuid)])
  }

  /** A `(name, uuid)` key as a tuple key of the JSON tree. */
  function PairKey(k: NamedKey): Key
  {
    Tuple([k.name, Some(k.uuid)])
  }

  function ItemField(e: (NamedKey, seq<string>)): (Key, Json)
  {
    (PairKey(e.0), List(e.1))
  }

  function TypeField(e: (NamedKey, Dict<NamedKey, seq<string>>)): (Key, Json)
  {
    (PairKey(e.0), Obj(Map(ItemField, e.1)))
  }

  /** The dict `get_items_from_bundle` returns, as a JSON value. */
  function ListingJson(d: Dict<NamedKey, Dict<NamedKey, seq<string>>>): Json
  {
    Obj(Map(TypeField, d))
  }

  function BundleField(menu: string, itemApi: ItemTypesApi): NamedKey -> (Key, Json)
  {
    (b: NamedKey) => (PairKey(b), ListingJson(BundleItems(itemApi(menu, b.uuid))))
  }

  /** The bundles of a category, each with its item listing; a repeated bundle key keeps its first place. */
  function CategoryTree(menu: string, c: CategoryRef, catApi: CategoryApi, itemApi: ItemTypesApi): Json
  {
    Obj(FromPairs(Map(BundleField(menu, itemApi), Map(PairOf, PayloadBundles(catApi(menu, c.uuid))))))
  }

  function CategoryField(menu: string, catApi: CategoryApi, itemApi: ItemTypesApi): CategoryRef -> (Key, Json)
  {
    (c: CategoryRef) => (PairKey(NamedKey(c.name, c.uuid)), CategoryTree(menu, c, catApi, itemApi))
  }

  /** The categories of a menu; a repeated category key is reset and refilled by its last category. */
  function MenuTree(m: Menu, catApi: CategoryApi, itemApi: ItemTypesApi): Json
  {
    Obj(FromPairs(Map(CategoryField(m.uuid, catApi, itemApi), m.categories)))
  }

  function MenuField(catApi: CategoryApi, itemApi: ItemTypesApi): Menu -> (Key, Json)
  {
    (m: Menu) => (MenuKey(m), MenuTree(m, catApi, itemApi))
  }

  /** `full_menu_json`: the menus; a repeated menu key is reset and refilled by its last menu. */
  function StoreTree(menus: seq<Menu>, catApi: CategoryApi, itemApi: ItemTypesApi): Json
  {
    Obj(FromPairs(Map(MenuField(catApi, itemApi), menus)))
  }

  /**
   * What `get_store_menu_json` exports.  It first reads the store page URL and
   * the categories of the menu reply `uuidsReply` (`get_uuids_from_url`), and
   * raises there when the URL has fewer than five `/`-pieces or a category
   * name of `uuidsReply` is null: `None`.  Otherwise the export is the tree
   * of the menu reply `menus` it fetches next, with string keys.
   */
  function StoreExport(url: string, uuidsReply: seq<Menu>, menus: seq<Menu>,
                       catApi: CategoryApi, itemApi: ItemTypesApi): Option<Json>
  {
    if TenantOrigin(url).None? || StoreUuid(url).None? || MenuCategoryTable(uuidsReply).None? then None
    else Some(Stringify(StoreTree(menus, catApi, itemApi)))
  }

  /** `get_store_menu_json` without the requests and the printing. */
  method StoreMenuJson(url: string, uuidsReply: seq<Menu>, menus: seq<Menu>,
                       catApi: CategoryApi, itemApi: ItemTypesApi) returns (r: Option<Json>)
    ensures r == StoreExport(url, uuidsReply, menus, catApi, itemApi)
  {
    var origin := TenantOrigin(url);
    var store := StoreUuid(url);
    if origin.None? || store.None? {
      return None;
    }
    var categoryUuids := MenuCategoryUuids(uuidsReply);
    if categoryUuids.None? {
      return None;
    }
    var full: Dict<Key, Json> := [];
    for n := 0 to |menus|
      invariant full == FromPairs(Map(MenuField(catApi, itemApi), menus[..n]))
    {
      var menu := menus[n];
      var categories := MenuCategories(menu, catApi, itemApi);
      FromPairsMapSnoc(MenuField(catApi, itemApi), menus, n);
      full := Put(full, MenuKey(menu), categories);
    }
    assert menus[..|menus|] == menus;
    r := Some(Stringify(Obj(full)));
  }

  /**
   * The export fails exactly when the URL has fewer than five `/`-pieces or
   * the first menu reply has a category with a null name.
   */
  lemma StoreExportFails(url: string, uuidsReply: seq<Menu>, menus: seq<Menu>,
                         catApi: CategoryApi, itemApi: ItemTypesApi)
    ensures StoreExport(url, uuidsReply, menus, catApi, itemApi).None? <==>
      |Split(url, '/')| < 5 ||
      exists n, c :: 0 <= n < |uuidsReply| && 0 <= c < |uuidsReply[n].categories| &&
                     uuidsReply[n].categories[c].name.None?
  {
  }

  /**
   * When both fetches of the menu reply give the same menus, a category with
   * a null name stops the export before any key is built.
   */
  lemma NullCategoryStopsExport(url: string, menus: seq<Menu>, catApi: CategoryApi, itemApi: ItemTypesApi,
                                n: nat, c: nat)
    requires n < |menus| && c < |menus[n].categories| && menus[n].categories[c].name.None?
    ensures StoreExport(url, menus, menus, catApi, itemApi) == None
  {
  }

  /**
   * A store page URL `https://<host>/store/<store>/<rest>` and a first menu
   * reply without null category names give the exported tree.
   */
  lemma StorePageExports(host: string, store: string, rest: string, uuidsReply: seq<Menu>, menus: seq<Menu>,
                         catApi: CategoryApi, itemApi: ItemTypesApi)
    requires '/' !in host && '/' !in store
    requires forall n :: 0 <= n < |uuidsReply| ==> NamesJoinable(uuidsReply[n])
    ensures StoreExport(Scheme + host + "/store/" + store + "/" + rest, uuidsReply, menus, catApi, itemApi)
         == Some(Stringify(StoreTree(menus, catApi, itemApi)))
  {
    StorePage(host, store, rest);
  }

  /** The inner loops of `get_store_menu_json` for one menu. */
  method MenuCategories(menu: Menu, catApi: CategoryApi, itemApi: ItemTypesApi) returns (tree: Json)
    ensures tree == MenuTree(menu, catApi, itemApi)
  {
    var categories: Dict<Key, Json> := [];
    for c := 0 to |menu.categories|
      invariant categories == FromPairs(Map(CategoryField(menu.uuid, catApi, itemApi), menu.categories[..c]))
    {
      var category := menu.categories[c];
      var bundles := CategoryBundles(menu.uuid, category, catApi, itemApi);
      FromPairsMapSnoc(CategoryField(menu.uuid, catApi, itemApi), menu.categories, c);
      categories := Put(categories, PairKey(NamedKey(category.name, category.uuid)), bundles);
    }
    assert menu.categories[..|menu.categories|] == menu.categories;
    tree := Obj(categories);
  }

  /** The innermost loop of `get_store_menu_json`: the bundles of one category. */
  method CategoryBundles(menu: string, category: CategoryRef, catApi: CategoryApi, itemApi: ItemTypesApi)
    returns (tree: Json)
    ensures tree == CategoryTree(menu, category, catApi, itemApi)
  {
    var categoryBundles := BundlesFromCategory(catApi(menu, category.uuid));
    var bundles: Dict<Key, Json> := [];
    for k := 0 to |categoryBundles|
      invariant bundles == FromPairs(Map(BundleField(menu, itemApi), categoryBundles[..k]))
    {
      var bundleKey := categoryBundles[k];
      var bundleItems := ItemsFromBundle(itemApi(menu, bundleKey.uuid));
      FromPairsMapSnoc(BundleField(menu, itemApi), categoryBundles, k);
      bundles := Put(bundles, PairKey(bundleKey), ListingJson(bundleItems));
    }
    assert categoryBundles[..|categoryBundles|] == categoryBundles;
    tree := Obj(bundles);
  }

  /** The label a menu is shown under: its display name if that is not empty, else its name. */
  function MenuLabel(m: Menu): string
  {
    if Truthy(m.displayName) then m.displayName.value else OrEmpty(m.name)
  }

  /** A menu's key becomes `label - uuid`. */
  lemma MenuKeyText(m: Menu)
    ensures KeyText(MenuKey(m)) == MenuLabel(m) + Separator + m.uuid
  {
    PairText(MenuKey(m).parts[0], Some(m.uuid));
  }

  /** A `(name, uuid)` key becomes `name - uuid`, a null name counting as `""`. */
  lemma PairKeyText(k: NamedKey)
    ensures KeyText(PairKey(k)) == OrEmpty(k.name) + Separator + k.uuid
  {
    PairText(k.name, Some(k.uuid));
  }

  /** A category, bundle or item type whose name is null is exported under `" - " + uuid`. */
  lemma NullNameKey(uuid: string)
    ensures KeyText(PairKey(NamedKey(None, uuid))) == " - " + uuid
  {
    PairKeyText(NamedKey(None, uuid));
  }

  /** The exported JSON has one string key `label - uuid` per distinct menu, and no other. */
  lemma StoreMenuKeys(menus: seq<Menu>, catApi: CategoryApi, itemApi: ItemTypesApi, t: string)
    ensures Text(t) in Keys(Stringify(StoreTree(menus, catApi, itemApi)).fields) <==>
      exists j :: 0 <= j < |menus| && MenuLabel(menus[j]) + Separator + menus[j].uuid == t
  {
    var f := MenuField(catApi, itemApi);
    var fields := FromPairs(Map(f, menus));
    assert StoreTree(menus, catApi, itemApi) == Obj(fields);
    StringifyKeys(fields, t);
    forall j | 0 <= j < |menus|
      ensures f(menus[j]).0 == MenuKey(menus[j])
      ensures KeyText(MenuKey(menus[j])) == MenuLabel(menus[j]) + Separator + menus[j].uuid
    {
      MenuKeyText(menus[j]);
    }
    if exists i :: 0 <= i < |fields| && KeyText(fields[i].0) == t {
      var i :| 0 <= i < |fields| && KeyText(fields[i].0) == t;
      assert Keys(fields)[i] == fields[i].0;
      FromPairsMapKeys(f, menus, fields[i].0);
    }
    if exists j :: 0 <= j < |menus| && MenuLabel(menus[j]) + Separator + menus[j].uuid == t {
      var j :| 0 <= j < |menus| && MenuLabel(menus[j]) + Separator + menus[j].uuid == t;
      FromPairsMapKeys(f, menus, MenuKey(menus[j]));
      var i :| 0 <= i < |fields| && Keys(fields)[i] == MenuKey(menus[j]);
      assert KeyText(fields[i].0) == t;
    }
  }

  /** A menu, when no later menu has the same key, is filed under its key with all its categories. */
  lemma StoreTreeMenu(menus: seq<Menu>, catApi: CategoryApi, itemApi: ItemTypesApi, j: nat)
    requires j < |menus|
    requires forall m :: j < m < |menus| ==> MenuKey(menus[m]) != MenuKey(menus[j])
    ensures Get(StoreTree(menus, catApi, itemApi).fields, MenuKey(menus[j])) == Some(MenuTree(menus[j], catApi, itemApi))
  {
    FromPairsMapLast(MenuField(catApi, itemApi), menus, j);
  }

  /** The exported JSON is keyed by strings at every depth, and exporting it again changes nothing. */
  lemma StoreMenuStringKeyed(menus: seq<Menu>, catApi: CategoryApi, itemApi: ItemTypesApi)
    ensures StringKeyed(Stringify(StoreTree(menus, catApi, itemApi)))
    ensures Stringify(Stringify(StoreTree(menus, catApi, itemApi))) == Stringify(StoreTree(menus, catApi, itemApi))
  {
    StringifyStringKeyed(StoreTree(menus, catApi, itemApi));
    StringifyIdempotent(StoreTree(menus, catApi, itemApi));
  }

  function CategoryUuid(c: CategoryRef): string
  {
    c.uuid
  }

  function MenuCategoriesEntry(m: Menu): (string, seq<string>)
  {
    (m.uuid, Map(CategoryUuid, m.categories))
  }

  /** The dict the loop of `get_menu_category_uuids` fills: menu uuid to its category uuids. */
  function CategoryUuidsByMenu(menus: seq<Menu>): Dict<string, seq<string>>
  {
    FromPairs(Map(MenuCategoriesEntry, menus))
  }

  /** The category names of `m` can be joined with `', '`: none of them is null. */
  predicate NamesJoinable(m: Menu)
  {
    forall c :: 0 <= c < |m.categories| ==> m.categories[c].name.Some?
  }

  /**
   * What `get_menu_category_uuids` gives for the menu reply `menus`: the dict
   * from menu uuid to category uuids, or `None` where it raises `TypeError`
   * because `', '.join` meets a null category name.
   */
  function MenuCategoryTable(menus: seq<Menu>): (r: Option<Dict<string, seq<string>>>)
    ensures r.None? <==>
      exists n, c :: 0 <= n < |menus| && 0 <= c < |menus[n].categories| && menus[n].categories[c].name.None?
  {
    if forall n :: 0 <= n < |menus| ==> NamesJoinable(menus[n]) then Some(CategoryUuidsByMenu(menus)) else None
  }

  /** `get_menu_category_uuids`, with the menu reply passed in and the printing left out. */
  method MenuCategoryUuids(menus: seq<Menu>) returns (table: Option<Dict<string, seq<string>>>)
    ensures table == MenuCategoryTable(menus)
  {
    var uuidsByMenu: Dict<string, seq<string>> := [];
    for n := 0 to |menus|
      invariant uuidsByMenu == FromPairs(Map(MenuCategoriesEntry, menus[..n]))
      invariant forall k :: 0 <= k < n ==> NamesJoinable(menus[k])
    {
      var m := menus[n];
      var uuids: seq<string> := [];
      for c := 0 to |m.categories|
        invariant uuids == Map(CategoryUuid, m.categories[..c])
      {
        MapSnoc(CategoryUuid, m.categories, c);
        uuids := uuids + [m.categories[c].uuid];
      }
      assert m.categories[..|m.categories|] == m.categories;
      FromPairsMapSnoc(MenuCategoriesEntry, menus, n);
      uuidsByMenu := Put(uuidsByMenu, m.uuid, uuids);
      // The names joined for the progress message.
      for c := 0 to |m.categories|
        invariant forall j :: 0 <= j < c ==> m.categories[j].name.Some?
      {
        if m.categories[c].name.None? {
          assert menus[n].categories[c].name.None?;
          return None;
        }
      }
    }
    assert menus[..|menus|] == menus;
    table := Some(uuidsByMenu);
  }

  /**
   * A menu, when no later menu has the same uuid, maps to the uuids of its
   * categories, in order, whenever the dict is returned.
   */
  lemma MenuCategoryTableGet(menus: seq<Menu>, j: nat)
    requires j < |menus|
    requires forall m :: j < m < |menus| ==> menus[m].uuid != menus[j].uuid
    ensures var t := MenuCategoryTable(menus);
      t.Some? ==>
        var r := Get(t.value, menus[j].uuid);
        r.Some? && |r.value| == |menus[j].categories| &&
        forall c :: 0 <= c < |r.value| ==> r.value[c] == menus[j].categories[c].uuid
  {
    FromPairsMapLast(MenuCategoriesEntry, menus, j);
    var uuids := Map(CategoryUuid, menus[j].categories);
    forall c | 0 <= c < |uuids| ensures uuids[c] == menus[j].categories[c].uuid {
      MapAt(CategoryUuid, menus[j].categories, c);
    }
  }
}
