# Restaurant menu export, modelled in Dafny

`menu_export.py` walks a restaurant-catalog HTTP API and writes two reports:

- a bulk item list, as CSV text;
- a nested JSON menu.

Everything the script does between HTTP requests is reshaping: it collects bundles from category replies, derives item names, fills dictionaries and renders text. This project models that reshaping and proves what it computes. Each API reply is a value passed in, and the requests themselves are not modelled.

The modules follow the script:

- `Catalog` (`catalog.dfy`) holds the replies as records:
  - a category reply lists bundles inside inner categories and at top level;
  - an item-types reply lists item types, then items, then customizations, then variations;
  - the menu reply lists menus, each with a `displayName`, a `name` and its categories.

  The names of menus, categories, bundles and item types are optional: JSON `null` is `None`.
  The two bundle endpoints are functions from a (menu uuid, category or bundle uuid) request to a reply. The JSON field `type` is called `kind`.
- `Dicts` (`dicts.dfy`) models a Python `dict` as the sequence of its items.
  - `Put` is `d[k] = v`: a present key keeps its place and gets the new value, and a new key goes to the end.
  - `FromPairs` is the loop `for k, v in es: d[k] = v`. The lemmas about it state last-write-wins.
- `Seqs` (`seqs.dfy`) has `Map` and `FlatMap`, the shapes of the script's nested `for ... append` loops.
- `Bundles` (`bundles.dfy`) covers `get_bundles_from_category`, which builds an ordered list of `(name, uuid)`. It also covers `get_bundles_from_menu_categories`, which builds a set of `(uuid, name, menu uuid)` triples.
- `Items` (`items.dfy`) covers `get_items_from_bundles`. It holds the item table keyed by `itemUUID` and the derived names: the bundle's name for a `BUNDLE_BASE` item, and `name + " MEAL MODIFIER"` for any other item.
- `Csv` (`csv.dfy`) covers `get_items_csv`.
- `Customizations` (`customizations.dfy`) covers `get_items_from_bundle`: the customization strings `type - variation - price` and the per-bundle listing.
- `Texts` (`texts.dfy`) models `str.split` and `str.join`.
- `Urls` (`urls.dfy`) models the URL split in `get_uuids_from_url`.
- `StringKeys` (`stringkeys.dfy`) covers `stringify_keys`.
- `StoreMenu` (`storemenu.dfy`) covers `get_store_menu_json`: the menu key, the menu → category → bundle tree, and its final stringification. It also covers `get_menu_category_uuids`.

Each loop that builds a list, a set or a dict is a method proved equal to a specification function. The loop of `stringify_keys` is the exception: that function calls itself on each value, so it is modelled as the recursive function `StringKeys.Stringify`. The properties are stated about these functions and proved as lemmas.

## Model

| member | source | states |
|---|---|---|
| `Bundles.BundlesFromCategory` | menu_export.py:131-141 | returns the `(name, uuid)` pair of every bundle listing of the reply: the inner categories' bundles in order, then the top-level bundles in order, with no duplicates removed |
| `Bundles.CategoryListLayout` | menu_export.py:131-141 | the list has as many pairs as all inner categories together plus the top level; the top-level bundles fill its tail, in order |
| `Bundles.CategoryListInnerAt` | menu_export.py:132-135 | bundle `j` of inner category `i` sits right after the bundles of the inner categories before `i` |
| `Bundles.PayloadBundlesMember` | menu_export.py:59-66 | a bundle is read from a reply exactly when an inner category or the top-level list holds it |
| `Bundles.BundlesFromMenuCategories` | menu_export.py:42-69 | the set built equals `BundleSet`: the triples of every bundle of every (menu, category) reply |
| `Bundles.AddReplyBundles` | menu_export.py:59-66 | one reply adds the triples of its inner-category bundles and its top-level bundles to the set, and nothing else |
| `Bundles.AddBundles` | menu_export.py:60-62 | adding a list of bundles adds exactly their `(uuid, name, menu)` triples |
| `Bundles.KeysInMember` | menu_export.py:61-62 | a triple comes from a list exactly when its menu is the request's menu and its `(name, uuid)` is one of the list's pairs |
| `Bundles.MenuKeysMember` | menu_export.py:47-66 | a triple is collected for a menu exactly when some category of that menu lists its bundle |
| `Bundles.BundleSetMember` | menu_export.py:44-66 | the set holds exactly the triples whose `(name, uuid)` some category of their menu lists, which is what `get_bundles_from_category` returns for it |
| `Bundles.BundleSetPerMenu` | menu_export.py:44-68 | a bundle listed under two requests is in the set under both menus; when the menus differ, the set holds at least two triples, so the count reported at line 68 counts the bundle twice |
| `Items.DerivedName` | menu_export.py:93-97 | a `BUNDLE_BASE` item is named after its bundle, which may be `None`; any other item is its own name followed by `" MEAL MODIFIER"` |
| `Items.EntryFor` | menu_export.py:98 | an item's write is keyed by its `itemUUID` and holds its derived name and its own `taxExempt` flag |
| `Items.ItemsFromBundles` | menu_export.py:72-102 | the table built equals `FromPairs` of every `(itemUUID, (derived name, taxExempt))` write in visiting order |
| `Items.AddBundleItems` | menu_export.py:86-98 | one bundle's reply performs the writes of its item types in order |
| `Items.AddTypeItems` | menu_export.py:87-98 | one item type performs one write per item, in order |
| `Items.EntryFromItem` | menu_export.py:86-98 | every write comes from an item seen in some bundle's reply, with that item's derived record |
| `Items.ItemHasEntry` | menu_export.py:86-98 | every item seen in a bundle's reply is written |
| `Items.ItemTableKeys` | menu_export.py:75-98 | the table's keys are exactly the `itemUUID`s seen, and it has at most one entry per item processed |
| `Items.ItemTableValue` | menu_export.py:93-98 | in any visiting order, a key's record is the derived name and flag of some item seen with that `itemUUID` |
| `Items.ItemKeysOrderFree` | menu_export.py:76 | two enumerations of the same set of bundles give the same key set |
| `Dicts.PutKeys` | menu_export.py:98 | `d[k] = v` keeps a present key in its place and appends a new one |
| `Dicts.PutGet` | menu_export.py:98 | after `d[k] = v`, `k` gives `v` and every other key what it gave before |
| `Dicts.FromPairsKeys` | menu_export.py:98 | a dict filled by a loop of assignments has exactly the keys assigned |
| `Dicts.FromPairsGet` | menu_export.py:98 | last write wins: a key's value is the value of its last assignment |
| `Dicts.FromPairsOverwrite` | menu_export.py:98 | a later assignment to the same key replaces an earlier one |
| `Csv.ItemsCsv` | menu_export.py:104-113 | the text is the banner, then the header `name;id`, then the line of every table entry with a truthy name, in the table's order |
| `Csv.Line` | menu_export.py:111 | a line is `"`, the name, `";`, the uuid and a newline |
| `Csv.BodyLineCount` | menu_export.py:107-111 | when no name or uuid holds a line break, the body has exactly one line per entry whose name is neither `None` nor empty |
| `Csv.LineAt` | menu_export.py:107-111 | a named entry's line stands right after the lines of the entries before it |
| `Csv.BodyIgnoresTaxExempt` | menu_export.py:107-111 | tables that differ only in tax-exempt flags export the same text |
| `Csv.SkipsUnnamed` | menu_export.py:108-109 | entries with an empty or a `None` name add nothing; `I1 → Combo`, `I2 → ""`, `I3 → None` export only `"Combo";I1` |
| `Customizations.PriceText` | menu_export.py:167 | `str(p)` is a non-empty string that starts with `-` exactly when `p` is negative, with decimal digits after the sign |
| `Customizations.NatText` | menu_export.py:167 | `str` of a non-negative price is a non-empty string of decimal digits without a leading zero |
| `Customizations.NatTextValue` | menu_export.py:167 | the digits of `str(n)` read back as `n` |
| `Customizations.PriceRoundTrip` | menu_export.py:167 | `int(str(p)) == p` for every integer price, negative ones included |
| `Customizations.VariationText` | menu_export.py:167-169 | a customization string is the type, the variation name and `str(price)`, with `" - "` between them |
| `Customizations.VariationTextParts` | menu_export.py:167-169 | the tail of a customization string reads back as the price |
| `Customizations.CustomizationStrings` | menu_export.py:163-170 | an item's list has the strings of its variations, customization by customization |
| `Customizations.CustomizationCount` | menu_export.py:163-170 | the list has exactly one string per variation |
| `Customizations.CustomizationAt` | menu_export.py:164-169 | variation `j` of customization `i` is listed right after the variations of the customizations before `i` |
| `Customizations.ItemsFromBundle` | menu_export.py:144-174 | the listing equals the item types keyed by `(name, uuid)`, each holding its items keyed by `(name, itemUUID)` with their customization lists |
| `Customizations.BundleItemsGet` | menu_export.py:156-172 | an item type with no later type of the same key is filed under its key with its own items; a repeated key is reset and refilled |
| `Customizations.ItemGroupGet` | menu_export.py:160-172 | an item with no later item of the same key is filed under its key with its own customization list |
| `Customizations.BundleItemsKeys` | menu_export.py:156-158 | the listing's keys are exactly the `(name, uuid)` pairs of the reply's item types |
| `Texts.Join` | menu_export.py:169 | `sep.join` of no parts is empty, and the first part opens the result |
| `Texts.Split` | menu_export.py:239 | `str.split` always returns at least one piece |
| `Texts.SplitPieces` | menu_export.py:239 | no piece of a split holds the separator |
| `Texts.JoinSplit` | menu_export.py:239 | joining the pieces with the separator gives the string back |
| `Texts.SplitJoin` | menu_export.py:239 | splitting pieces that were joined with the separator gives the pieces back, when no piece holds it |
| `Texts.SplitConcat` | menu_export.py:239 | splitting at a separator between two strings splits each of them |
| `Urls.TenantOrigin` | menu_export.py:239-241 | the origin exists exactly when the URL has at least three `/`-pieces |
| `Urls.StoreUuid` | menu_export.py:239-244 | the store uuid exists exactly when the URL has at least five `/`-pieces |
| `Urls.StorePagePieces` | menu_export.py:239 | `https://<host>/store/<store>/<rest>` splits into `https:`, `""`, host, `store`, store, then the pieces of `<rest>` |
| `Urls.StorePage` | menu_export.py:239-244 | for such a URL the origin is `https://<host>` and the store uuid is `<store>`, whatever follows |
| `Urls.StoreRootPieces` | menu_export.py:239 | `https://<host>/store/<store>` splits into exactly `https:`, `""`, host, `store` and store |
| `Urls.StoreRoot` | menu_export.py:239-244 | for that URL, with nothing after the store uuid, the origin is `https://<host>` and the store uuid is `<store>` |
| `StringKeys.Stringify` | menu_export.py:176-191 | a non-dict value comes back unchanged; a dict becomes a dict with no key twice and at most as many items |
| `StringKeys.KeyText` | menu_export.py:180-184 | a string key stays as it is; a tuple key's text starts with its first part, `None` counting as `""` |
| `StringKeys.StringifyStringKeyed` | menu_export.py:176-191 | the result has string keys at every depth and no key twice |
| `StringKeys.StringifyFixed` | menu_export.py:176-191 | a value already keyed by strings, which includes any non-dict value, comes back unchanged |
| `StringKeys.StringifyIdempotent` | menu_export.py:176-191 | applying `stringify_keys` twice gives the same result as applying it once |
| `StringKeys.StringifyKeys` | menu_export.py:179-186 | the new dict has key `t` exactly when some old key's text is `t` |
| `StringKeys.StringifyGet` | menu_export.py:179-186 | under `t` the new dict holds the rewritten value of the last old key whose text is `t` |
| `StringKeys.PairText` | menu_export.py:180-182 | a pair key becomes its parts joined by `" - "`, with `None` as the empty string |
| `StringKeys.NoneIsEmpty` | menu_export.py:181 | `(None, "abc")` becomes `" - abc"` |
| `StringKeys.KeysCanCollide` | menu_export.py:182-186 | `("A - B", "C")` and `("A", "B - C")` both become `"A - B - C"`, and the later value replaces the earlier one |
| `StoreMenu.StoreMenuJson` | menu_export.py:194-224 | the result equals `StoreExport`: nothing where the script raises in `get_uuids_from_url`, otherwise the tree of menus, categories, bundles and listings of the second menu reply, after `stringify_keys` |
| `StoreMenu.StoreExportFails` | menu_export.py:238-246 | the export fails exactly when the URL has fewer than five `/`-pieces or a category of the first menu reply has a `None` name |
| `StoreMenu.NullCategoryStopsExport` | menu_export.py:37 | when both menu replies are the same, a category with a `None` name stops the export before any key is built |
| `StoreMenu.StorePageExports` | menu_export.py:238-246 | for `https://<host>/store/<store>/<rest>` and a first menu reply without `None` category names, the export is the stringified tree |
| `StoreMenu.MenuCategories` | menu_export.py:210-222 | a menu's dict holds its categories, each under `(name, uuid)` with its bundle dict |
| `StoreMenu.CategoryBundles` | menu_export.py:213-222 | a category's dict holds each bundle `get_bundles_from_category` lists, under `(name, uuid)`, with its listing from `get_items_from_bundle` |
| `StoreMenu.MenuKey` | menu_export.py:208 | a menu's key is the pair of `displayName` when it is truthy, otherwise `name`, and the menu's uuid |
| `StoreMenu.PairKeyText` | menu_export.py:180-182 | a `(name, uuid)` key of a category, bundle, item type or item becomes `name - uuid`, a `None` name counting as `""` |
| `StoreMenu.NullNameKey` | menu_export.py:181 | a bundle or item type whose name is `None` is exported under `" - " + uuid`; so is a category, when the menu reply of line 204 differs from the one `get_menu_category_uuids` read |
| `StoreMenu.MenuKeyText` | menu_export.py:208 | a menu's key becomes `label - uuid`, where the label is `displayName` when it is truthy, else `name`, with `None` as the empty string |
| `StoreMenu.StoreMenuKeys` | menu_export.py:206-224 | the exported JSON's top-level keys are exactly the `label - uuid` strings of the menus |
| `StoreMenu.StoreTreeMenu` | menu_export.py:206-222 | a menu with no later menu of the same key is filed under its key with all its categories |
| `StoreMenu.StoreMenuStringKeyed` | menu_export.py:224 | the exported JSON has string keys at every depth, and stringifying it again changes nothing |
| `StoreMenu.MenuCategoryTable` | menu_export.py:33-39 | there is no dict exactly when some category of some menu has a `None` name, where `', '.join` at line 37 raises `TypeError` |
| `StoreMenu.MenuCategoryUuids` | menu_export.py:24-40 | the loops give `MenuCategoryTable`: the dict of each menu uuid's category uuids, written in menu order, or nothing where line 37 raises |
| `StoreMenu.MenuCategoryTableGet` | menu_export.py:34-36 | when the dict is returned, a menu with no later menu of the same uuid maps to its categories' uuids, in order |

## Left out

- HTTP is not modelled. This covers `call_api`, `get_bootstrap`, `requests.get`, the request headers and `raise_for_status` (menu_export.py:12-16, 228-235). Each reply is an input value instead, and transport and HTTP errors are not modelled. The tenant uuid read from the bootstrap reply (menu_export.py:242-243) is left out for the same reason. `get_store_menu_json` fetches the menu reply twice, once in `get_menu_category_uuids` and once at line 204; `StoreMenu.StoreMenuJson` takes the two replies as two inputs.
- Console output is not modelled: `print`, `pprint` and `json.dumps`. The JSON printer's own formatting is outside the model.
- The stubs `get_categories` and `get_menu` are left out (menu_export.py:18-22). Their bodies are empty.
- The customization-inspection loop at menu_export.py:88-91 is left out. It computes nothing.
- `generate_item_list_from_url` (menu_export.py:251-263) and the `__main__` block (menu_export.py:267-279) are left out. They only chain the modelled steps with requests and printing in between.
- Python's set iteration order is not modelled. `Items.ItemsFromBundles` takes the order in which the bundle set is iterated as an input sequence. The lemmas state what holds for every order: the key set, and each record being one of the candidates. Which candidate wins for an `itemUUID` found in several bundles depends on that order.
- Customizations.PriceText: prices are integers. `str` of a floating-point price (for example `4.5`) is not modelled.
- Missing reply fields are not modelled. The script raises `KeyError` on them.
- A `null` item name is not modelled: an item's `name` is a string. For an item that is not a `BUNDLE_BASE` item, the script raises `TypeError` at menu_export.py:97 (`None + " MEAL MODIFIER"`). On the JSON path the item key would hold `None` and be exported as `" - " + itemUUID`, as `StoreMenu.NullNameKey` shows for the other names.
- `null` uuids, item types, customization types, variation names and prices are not modelled; they are strings and integers. A `null` customization type or variation name makes the script raise `TypeError` in `" - ".join` at menu_export.py:169. A `null` price would be rendered as `None` by `str`. A `null` name of a menu, category, bundle or item type is modelled, and so is the `TypeError` a `null` category name raises at menu_export.py:37.
- Only the key shapes the export produces are modelled. Tuple keys are modelled, and string keys appear after `stringify_keys`. Non-dict values are lists of customization strings. `stringify_keys` returns non-dict values unchanged, so other value kinds would behave the same way.
- StoreMenu.StoreMenuJson: each nested dict is built in a local variable and then stored. The script instead fills it in place through `full_menu_json[menu_key][category_key]`. Nothing else refers to these inner dicts, so the final value is the same. The intermediate states are not modelled.
- The `category_uuid` argument of `get_items_from_bundle` is dropped, as are the tenant, store and source arguments. They only reach request URLs and headers.
