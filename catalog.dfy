/**
 * The parts of the catalog API's JSON replies that the exporter reads, as
 * records, and the identity keys it builds from them.  Each reply is an
 * input value: the HTTP request that fetched it is not modelled.
 */
module Catalog {
  import opened Wrappers

  /**
   * The `(name, uuid)` tuple the exporter uses as a key for categories,
   * bundles, item types and items; a JSON null name is `None`.
   */
  datatype NamedKey = NamedKey(name: Option<string>, uuid: string)

  /** The `(uuid, name, menu uuid)` triple identifying a bundle in the bulk export. */
  datatype BundleKey = BundleKey(uuid: string, name: Option<string>, menu: string)

  // Reply of GET /catalog/categories/{uuid}/bundles: field `payload`.
  // Names of categories, bundles and item types may be JSON null (`None`).

  datatype BundleRef = BundleRef(uuid: string, name: Option<string>)

  /** An entry of `payload.categories`: an inner grouping of bundles. */
  datatype InnerCategory = InnerCategory(bundles: seq<BundleRef>)

  /** `payload`: bundles under inner categories, and bundles at top level. */
  datatype CategoryPayload = CategoryPayload(categories: seq<InnerCategory>, bundles: seq<BundleRef>)

  // Reply of GET /catalog/bundles/{uuid}/item-types: field `payload`, a list of item types.

  datatype Variation = Variation(name: string, price: int)

  /** A customization; `kind` is the reply's `type` field. */
  datatype Customization = Customization(kind: string, variations: seq<Variation>)

  /**
   * An item; `kind` is the reply's `type` field (`BUNDLE_BASE` for a bundle's
   * base item).  Its `name` is a string: a null item name is not modelled.
   */
  datatype Item = Item(itemUuid: string, name: string, kind: string, taxExempt: bool,
                       customizations: seq<Customization>)

  datatype ItemType = ItemType(uuid: string, name: Option<string>, items: seq<Item>)

  // Reply of GET /catalog/menu: field `payload`, a list of menus.

  datatype CategoryRef = CategoryRef(uuid: string, name: Option<string>)

  /** A menu; `name` and `displayName` may be JSON null or empty. */
  datatype Menu = Menu(uuid: string, name: Option<string>, displayName: Option<string>,
                       categories: seq<CategoryRef>)

  /** The category-bundles endpoint: the payload for a (menu uuid, category uuid) request. */
  type CategoryApi = (string, string) -> CategoryPayload

  /** The item-types endpoint: the payload for a (menu uuid, bundle uuid) request. */
  type ItemTypesApi = (string, string) -> seq<ItemType>
}
