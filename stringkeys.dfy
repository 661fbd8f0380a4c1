/**
 * `stringify_keys` (menu_export.py): the nested dict of the menu export
 * has tuple keys, which JSON cannot hold; each tuple key is replaced by its
 * parts joined with `" - "`, a `None` part counting as the empty string.
 */
module StringKeys {
  import opened Wrappers
  import opened Seqs
  import opened Dicts
  import opened Texts

  /** A dict key of the export: a string, or a tuple whose parts may be `None`. */
  datatype Key = Text(s: string) | Tuple(parts: seq<Option<string>>)

  /**
   * A value of the export: a dict, or a list of customization strings (the
   * only kind of non-dict value the export holds).
   */
  datatype Json = Obj(fields: Dict<Key, Json>) | List(items: seq<string>)

  /**
   * The string key that replaces `k`: a string key stays, a tuple key starts
   * with its first part, `None` counting as `""`.
   */
  function KeyText(k: Key): (r: string)
    ensures k.Text? ==> r == k.s
    ensures k.Tuple? && k.parts != [] ==>
      |OrEmpty(k.parts[0])| <= |r| && r[..|OrEmpty(k.parts[0])|] == OrEmpty(k.parts[0])
  {
    match k
    case Text(s) => s
    case Tuple(parts) => Join(Map(OrEmpty, parts), Separator)
  }

  /** `(new_k, stringify_keys(v))` for one item of a dict. */
  function StringField(field: (Key, Json)): (Key, Json)
    decreases field, 0
  {
    (Text(KeyText(field.0)), Stringify(field.1))
  }

  /** The items the loop of `stringify_keys` writes, in order. */
  function StringFields(fields: Dict<Key, Json>): (es: seq<(Key, Json)>)
    ensures |es| == |fields| && forall i :: 0 <= i < |fields| ==> es[i] == StringField(fields[i])
    decreases fields, 2
  {
    seq(|fields|, i requires 0 <= i < |fields| => StringField(fields[i]))
  }

  /**
   * `stringify_keys`: a fresh dict with string keys, the values rewritten the
   * same way; a non-dict value comes back as it is.  Keys that become the same
   * string merge, so the new dict has no key twice and at most as many items.
   */
  function Stringify(v: Json): (r: Json)
    ensures v.List? ==> r == v
    ensures v.Obj? ==> r.Obj? && UniqueKeys(r.fields) && |r.fields| <= |v.fields|
    decreases v, 1
  {
    match v
    case List(_) => v
    case Obj(fields) => Obj(FromPairs(StringFields(fields)))
  }

  /** A dict whose keys, at every depth, are all strings: what `json.dumps` can print. */
  ghost predicate StringKeyed(v: Json)
    decreases v
  {
    match v
    case List(_) => true
    case Obj(fields) =>
      UniqueKeys(fields) &&
      forall i :: 0 <= i < |fields| ==> fields[i].0.Text? && StringKeyed(fields[i].1)
  }

  /** The result is keyed by strings at every depth. */
  lemma {:induction false} StringifyStringKeyed(v: Json)
    ensures StringKeyed(Stringify(v))
    decreases v
  {
    if v.Obj? {
      var es := StringFields(v.fields);
      var d := FromPairs(es);
      assert Stringify(v) == Obj(d);
      forall i | 0 <= i < |d| ensures d[i].0.Text? && StringKeyed(d[i].1) {
        FromPairsEntry(es, d[i]);
        var j :| 0 <= j < |es| && es[j] == d[i];
        StringifyStringKeyed(v.fields[j].1);
      }
    }
  }

  /** A dict already keyed by strings comes back unchanged. */
  lemma {:induction false} StringifyFixed(v: Json)
    requires StringKeyed(v)
    ensures Stringify(v) == v
    decreases v
  {
    if v.Obj? {
      var es := StringFields(v.fields);
      forall i | 0 <= i < |v.fields| ensures es[i] == v.fields[i] {
        StringifyFixed(v.fields[i].1);
      }
      assert es == v.fields;
      FromPairsOfDict(v.fields);
    }
  }

  /** Rewriting the keys a second time changes nothing. */
  lemma StringifyIdempotent(v: Json)
    ensures Stringify(Stringify(v)) == Stringify(v)
  {
    StringifyStringKeyed(v);
    StringifyFixed(Stringify(v));
  }

  /** Field `i` is the last one whose key's text is `t`. */
  ghost predicate LastText(fields: Dict<Key, Json>, i: int, t: string)
  {
    0 <= i < |fields| && KeyText(fields[i].0) == t &&
    forall j :: i < j < |fields| ==> KeyText(fields[j].0) != t
  }

  /** The new dict has the key `t` exactly when some old key's text is `t`. */
  lemma StringifyKeys(fields: Dict<Key, Json>, t: string)
    ensures Text(t) in Keys(Stringify(Obj(fields)).fields) <==>
      exists i :: 0 <= i < |fields| && KeyText(fields[i].0) == t
  {
    var es := StringFields(fields);
    FromPairsKeys(es, Text(t));
    if Text(t) in Keys(es) {
      var i :| 0 <= i < |es| && Keys(es)[i] == Text(t);
      assert KeyText(fields[i].0) == t;
    }
    if exists i :: 0 <= i < |fields| && KeyText(fields[i].0) == t {
      var i :| 0 <= i < |fields| && KeyText(fields[i].0) == t;
      assert Keys(es)[i] == Text(t);
    }
  }

  /** Under key `t` the new dict holds the rewritten value of the last old key whose text is `t`. */
  lemma StringifyGet(fields: Dict<Key, Json>, t: string, w: Json)
    ensures Get(Stringify(Obj(fields)).fields, Text(t)) == Some(w) <==>
      exists i :: LastText(fields, i, t) && w == Stringify(fields[i].1)
  {
    var es := StringFields(fields);
    FromPairsGet(es, Text(t), w);
    forall i | 0 <= i < |fields|
      ensures LastEntry(es, i, Text(t)) <==> LastText(fields, i, t)
    {
      if LastText(fields, i, t) {
        forall j | i < j < |es| ensures es[j].0 != Text(t) {
          assert KeyText(fields[j].0) != t;
        }
      }
      if LastEntry(es, i, Text(t)) {
        forall j | i < j < |fields| ensures KeyText(fields[j].0) != t {
          assert es[j].0 != Text(t);
        }
      }
    }
  }

  /** A pair key becomes its two parts joined by the separator. */
  lemma PairText(x: Option<string>, y: Option<string>)
    ensures KeyText(Tuple([x, y])) == OrEmpty(x) + Separator + OrEmpty(y)
  {
    var raw := [x, y];
    var parts := Map(OrEmpty, raw);
    MapAt(OrEmpty, raw, 0);
    MapAt(OrEmpty, raw, 1);
    assert parts[1..] == [OrEmpty(y)];
    assert Join(parts, Separator) == parts[0] + Separator + Join(parts[1..], Separator);
  }

  /** `(None, "abc")` becomes `" - abc"`. */
  lemma NoneIsEmpty()
    ensures KeyText(Tuple([None, Some("abc")])) == " - abc"
  {
    PairText(None, Some("abc"));
  }

  /**
   * Distinct tuple keys can be joined into the same string; the later one
   * then replaces the earlier one's value.
   */
  lemma KeysCanCollide(w1: Json, w2: Json)
    ensures Stringify(Obj([(Tuple([Some("A - B"), Some("C")]), w1), (Tuple([Some("A"), Some("B - C")]), w2)]))
         == Obj([(Text("A - B - C"), Stringify(w2))])
  {
    var k1 := Tuple([Some("A - B"), Some("C")]);
    var k2 := Tuple([Some("A"), Some("B - C")]);
    PairText(Some("A - B"), Some("C"));
    PairText(Some("A"), Some("B - C"));
    var fields := [(k1, w1), (k2, w2)];
    var e1 := (Text("A - B - C"), Stringify(w1));
    var e2 := (Text("A - B - C"), Stringify(w2));
    assert "A - B" + Separator + "C" == "A - B - C";
    assert "A" + Separator + "B - C" == "A - B - C";
    assert StringField(fields[0]) == e1;
    assert StringField(fields[1]) == e2;
    assert StringFields(fields) == [e1] + [e2];
    FromPairsSnoc([], e1);
    FromPairsSnoc([e1], e2);
    assert [] + [e1] == [e1];
  }
}
