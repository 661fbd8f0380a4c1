/**
 * The per-bundle item listing of the menu export (menu_export.py,
 * `get_items_from_bundle`): for each item type of a bundle's item-types
 * reply, a dict from `(item name, itemUUID)` to the item's customization
 * strings `type - variation - price`.
 */
module Customizations {
  import opened Wrappers
  import opened Seqs
  import opened Dicts
  import opened Catalog
  import opened Texts

  // `str(price)` for an integer price.

  predicate AllDigits(s: string)
  {
    forall i :: 0 <= i < |s| ==> '0' <= s[i] <= '9'
  }

  /** The character of the decimal digit `d`. */
  function DigitChar(d: nat): (c: char)
    requires d < 10
    ensures '0' <= c <= '9' && c as int - '0' as int == d
  {
    ('0' as int + d) as char
  }

  /** The decimal digits of `n`, without leading zeros. */
  function NatText(n: nat): (r: string)
    ensures |r| >= 1 && AllDigits(r)
    ensures |r| > 1 ==> r[0] != '0'
    decreases n
  {
    if n < 10 then [DigitChar(n)] else NatText(n / 10) + [DigitChar(n % 10)]
  }

  /** `str(p)`: a minus sign for a negative price, then the digits. */
  function PriceText(p: int): (r: string)
    ensures |r| >= 1
    ensures r[0] == '-' <==> p < 0
    ensures AllDigits(if p < 0 then r[1..] else r)
  {
    if p < 0 then "-" + NatText(-p) else NatText(p)
  }

  /** The value of a string of decimal digits. */
  function DigitsValue(s: string): nat
    requires AllDigits(s)
  {
    if s == [] then 0 else 10 * DigitsValue(s[..|s| - 1]) + (s[|s| - 1] as int - '0' as int)
  }

  /** `int(s)` for an optionally signed decimal numeral, `None` for anything else. */
  function ParsePrice(s: string): Option<int>
  {
    if |s| > 1 && s[0] == '-' && AllDigits(s[1..]) then Some(-(DigitsValue(s[1..]) as int))
    else if |s| > 0 && AllDigits(s) then Some(DigitsValue(s))
    else None
  }

  lemma {:induction false} NatTextValue(n: nat)
    ensures DigitsValue(NatText(n)) == n
    decreases n
  {
    var r := NatText(n);
    if n < 10 {
      assert r[..0] == [];
    } else {
      var q, d := n / 10, n % 10;
      NatTextValue(q);
      assert r == NatText(q) + [DigitChar(d)];
      assert r[..|r| - 1] == NatText(q);
      assert DigitsValue(r) == 10 * DigitsValue(NatText(q)) + d;
    }
  }

  /** A numeral with a leading minus sign reads as the negated value of its digits. */
  lemma ParseNegative(digits: string)
    requires |digits| >= 1 && AllDigits(digits)
    ensures ParsePrice("-" + digits) == Some(-(DigitsValue(digits) as int))
  {
    assert ("-" + digits)[1..] == digits;
  }

  /** A numeral of digits only reads as their value. */
  lemma ParseDigits(digits: string)
    requires |digits| >= 1 && AllDigits(digits)
    ensures ParsePrice(digits) == Some(DigitsValue(digits))
  {
    assert digits[0] != '-';
  }

  /** The price can be read back from its text. */
  lemma PriceRoundTrip(p: int)
    ensures ParsePrice(PriceText(p)) == Some(p)
  {
    if p < 0 {
      var m: nat := -p;
      var t := NatText(m);
      NatTextValue(m);
      ParseNegative(t);
      assert PriceText(p) == "-" + t;
    } else {
      var t := NatText(p);
      NatTextValue(p);
      ParseDigits(t);
      assert PriceText(p) == t;
    }
  }

  /** `" - ".join((type, variation name, str(price)))`: the three parts with the separator between them. */
  function VariationText(kind: string, v: Variation): (r: string)
    ensures r == kind + Separator + v.name + Separator + PriceText(v.price)
  {
    var parts := [kind, v.name, PriceText(v.price)];
    assert parts[1..][1..] == [PriceText(v.price)];
    assert Join(parts[1..], Separator) == v.name + Separator + PriceText(v.price);
    Join(parts, Separator)
  }

  /** The price can be read back from the tail of a customization string. */
  lemma VariationTextParts(kind: string, v: Variation)
    ensures var text := VariationText(kind, v);
      |PriceText(v.price)| <= |text| && ParsePrice(text[|text| - |PriceText(v.price)|..]) == Some(v.price)
  {
    var text := VariationText(kind, v);
    assert text[|text| - |PriceText(v.price)|..] == PriceText(v.price);
    PriceRoundTrip(v.price);
  }

  function TextFor(kind: string): Variation -> string
  {
    (v: Variation) => VariationText(kind, v)
  }

  /** The strings of one customization, one per variation. */
  function VariationsOf(c: Customization): seq<string>
  {
    Map(TextFor(c.kind), c.variations)
  }

  /** The customization list of an item: customization-major, then variation order. */
  function CustomizationList(item: Item): seq<string>
  {
    FlatMap(VariationsOf, item.customizations)
  }

  /** The inner loops of `get_items_from_bundle` for one item. */
  method CustomizationStrings(item: Item) returns (customizations: seq<string>)
    ensures customizations == CustomizationList(item)
  {
    customizations := [];
    for c := 0 to |item.customizations|
      invariant customizations == FlatMap(VariationsOf, item.customizations[..c])
    {
      var customization := item.customizations[c];
      var kind := customization.kind;
      ghost var before := customizations;
      for v := 0 to |customization.variations|
        invariant customizations == before + Map(TextFor(kind), customization.variations[..v])
      {
        var variation := customization.variations[v];
        MapSnoc(TextFor(kind), customization.variations, v);
        customizations := customizations + [VariationText(kind, variation)];
      }
      assert customization.variations[..|customization.variations|] == customization.variations;
      FlatMapSnoc(VariationsOf, item.customizations, c);
    }
    FlatMapAll(VariationsOf, item.customizations);
  }

  /** The number of variations over a list of customizations. */
  function VariationCount(cs: seq<Customization>): nat
  {
    if cs == [] then 0 else |cs[0].variations| + VariationCount(cs[1..])
  }

  lemma {:induction false} TotalSizeIsVariationCount(cs: seq<Customization>)
    ensures TotalSize(VariationsOf, cs) == VariationCount(cs)
  {
    if cs != [] {
      TotalSizeIsVariationCount(cs[1..]);
    }
  }

  /** One string per variation, and nothing else. */
  lemma CustomizationCount(item: Item)
    ensures |CustomizationList(item)| == VariationCount(item.customizations)
  {
    FlatMapLength(VariationsOf, item.customizations);
    TotalSizeIsVariationCount(item.customizations);
  }

  /**
   * Variation `j` of customization `i` is listed right after the variations
   * of the customizations before `i`, as `type - name - price`.
   */
  lemma CustomizationAt(item: Item, i: nat, j: nat)
    requires i < |item.customizations| && j < |item.customizations[i].variations|
    ensures var at := VariationCount(item.customizations[..i]) + j;
      at < |CustomizationList(item)| &&
      CustomizationList(item)[at] == VariationText(item.customizations[i].kind, item.customizations[i].variations[j])
  {
    var c := item.customizations[i];
    MapAt(TextFor(c.kind), c.variations, j);
    FlatMapAt(VariationsOf, item.customizations, i, j);
    FlatMapLength(VariationsOf, item.customizations[..i]);
    TotalSizeIsVariationCount(item.customizations[..i]);
  }

  /** The key `(name, uuid)` of an item type and of an item. */
  function TypeKey(t: ItemType): NamedKey
  {
    NamedKey(t.name, t.uuid)
  }

  function ItemKey(i: Item): NamedKey
  {
    NamedKey(Some(i.name), i.itemUuid)
  }

  function ItemEntry(i: Item): (NamedKey, seq<string>)
  {
    (ItemKey(i), CustomizationList(i))
  }

  /** The dict of one item type: items keyed by `(name, itemUUID)`, last write wins. */
  function ItemGroup(t: ItemType): Dict<NamedKey, seq<string>>
  {
    FromPairs(Map(ItemEntry, t.items))
  }

  function TypeEntry(t: ItemType): (NamedKey, Dict<NamedKey, seq<string>>)
  {
    (TypeKey(t), ItemGroup(t))
  }

  /**
   * What `get_items_from_bundle` returns for a reply: item types keyed by
   * `(name, uuid)`.  A repeated item-type key is reset to `{}` and refilled,
   * so it keeps its first position and holds the items of its last type.
   */
  function BundleItems(reply: seq<ItemType>): Dict<NamedKey, Dict<NamedKey, seq<string>>>
  {
    FromPairs(Map(TypeEntry, reply))
  }

  /** `get_items_from_bundle`, with the item-types reply passed in. */
  method ItemsFromBundle(reply: seq<ItemType>) returns (itemTypes: Dict<NamedKey, Dict<NamedKey, seq<string>>>)
    ensures itemTypes == BundleItems(reply)
  {
    itemTypes := [];
    for t := 0 to |reply|
      invariant itemTypes == FromPairs(Map(TypeEntry, reply[..t]))
    {
      var itemType := reply[t];
      var key := TypeKey(itemType);
      ghost var base := itemTypes;
      itemTypes := Put(itemTypes, key, []);
      for k := 0 to |itemType.items|
        invariant itemTypes == Put(base, key, FromPairs(Map(ItemEntry, itemType.items[..k])))
      {
        var item := itemType.items[k];
        var customizations := CustomizationStrings(item);
        ghost var group := FromPairs(Map(ItemEntry, itemType.items[..k]));
        PutGet(base, key, group, key);
        var inner := Get(itemTypes, key).value;
        PutPut(base, key, group, Put(inner, ItemKey(item), customizations));
        MapSnoc(ItemEntry, itemType.items, k);
        FromPairsSnoc(Map(ItemEntry, itemType.items[..k]), ItemEntry(item));
        itemTypes := Put(itemTypes, key, Put(inner, ItemKey(item), customizations));
      }
      assert itemType.items[..|itemType.items|] == itemType.items;
      MapSnoc(TypeEntry, reply, t);
      FromPairsSnoc(Map(TypeEntry, reply[..t]), TypeEntry(itemType));
    }
    assert reply[..|reply|] == reply;
  }

  /** Item type `j`, when no later type has its key, gives its key its dict of items. */
  lemma BundleItemsGet(reply: seq<ItemType>, j: nat)
    requires j < |reply|
    requires forall m :: j < m < |reply| ==> TypeKey(reply[m]) != TypeKey(reply[j])
    ensures Get(BundleItems(reply), TypeKey(reply[j])) == Some(ItemGroup(reply[j]))
  {
    FromPairsMapLast(TypeEntry, reply, j);
  }

  /** Item `j`, when no later item has its key, gives its key its customization list. */
  lemma ItemGroupGet(t: ItemType, j: nat)
    requires j < |t.items|
    requires forall m :: j < m < |t.items| ==> ItemKey(t.items[m]) != ItemKey(t.items[j])
    ensures Get(ItemGroup(t), ItemKey(t.items[j])) == Some(CustomizationList(t.items[j]))
  {
    FromPairsMapLast(ItemEntry, t.items, j);
  }

  /** The keys are exactly the `(name, uuid)` pairs of the reply's item types. */
  lemma BundleItemsKeys(reply: seq<ItemType>, k: NamedKey)
    ensures k in Keys(BundleItems(reply)) <==> exists j :: 0 <= j < |reply| && TypeKey(reply[j]) == k
  {
    FromPairsMapKeys(TypeEntry, reply, k);
  }
}
