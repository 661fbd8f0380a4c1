/**
 * The text of the bulk export (menu_export.py, `get_items_csv`): a banner,
 * a `name;id` header, and one `"name";uuid` line per item of the table whose
 * name is truthy (neither null nor empty), in the table's order.
 */
module Csv {
  import opened Wrappers
  import opened Seqs
  import opened Dicts
  import opened Items
  import opened Texts

  const Banner: string := "============================\n\n"
  const Header: string := "name;id\n"

  /** The line `"name";uuid` followed by a newline. */
  function Line(uuid: string, name: string): (r: string)
    ensures |r| == |name| + |uuid| + 4
    ensures r[0] == '"' && r[1..|name| + 1] == name && r[|name| + 1..|name| + 3] == "\";"
    ensures r[|name| + 3..|r| - 1] == uuid && r[|r| - 1] == '\n'
  {
    "\"" + name + "\";" + uuid + "\n"
  }

  /** What one table entry contributes: nothing when its name is null or empty. */
  function LineOf(e: (string, ItemRecord)): string
  {
    if !Truthy(e.1.name) then "" else Line(e.0, e.1.name.value)
  }

  /** The lines after the header. */
  function Body(items: Dict<string, ItemRecord>): string
  {
    FlatMap(LineOf, items)
  }

  /** `get_items_csv`. */
  method ItemsCsv(items: Dict<string, ItemRecord>) returns (ret: string)
    ensures ret == Banner + Header + Body(items)
  {
    ret := Banner;
    ret := ret + Header;
    ghost var head := ret;
    for n := 0 to |items|
      invariant ret == head + Body(items[..n])
    {
      var (uuid, record) := items[n];
      FlatMapSnocAfter(LineOf, head, items, n);
      if !Truthy(record.name) {
        assert LineOf(items[n]) == [];
        continue;
      }
      ret := ret + Line(uuid, record.name.value);
    }
    FlatMapAll(LineOf, items);
  }

  /** The number of entries with a truthy name. */
  function NamedCount(items: Dict<string, ItemRecord>): nat
  {
    if items == [] then 0
    else NamedCount(items[..|items| - 1]) + (if Truthy(items[|items| - 1].1.name) then 1 else 0)
  }

  /** The number of newlines in `s`. */
  function Newlines(s: string): nat
  {
    if s == [] then 0 else Newlines(s[..|s| - 1]) + (if s[|s| - 1] == '\n' then 1 else 0)
  }

  lemma {:induction false} NewlinesAppend(s: string, t: string)
    ensures Newlines(s + t) == Newlines(s) + Newlines(t)
    decreases |t|
  {
    if t == [] {
      assert s + t == s;
    } else {
      var n := |t| - 1;
      assert (s + t)[..|s + t| - 1] == s + t[..n];
      NewlinesAppend(s, t[..n]);
    }
  }

  /** No names or uuids contain a line break. */
  ghost predicate SingleLine(items: Dict<string, ItemRecord>)
  {
    forall i :: 0 <= i < |items| ==> '\n' !in items[i].0 && '\n' !in OrEmpty(items[i].1.name)
  }

  lemma {:induction false} NewlinesFree(s: string)
    requires '\n' !in s
    ensures Newlines(s) == 0
    decreases |s|
  {
    if s != [] {
      NewlinesFree(s[..|s| - 1]);
    }
  }

  /**
   * When no name or uuid contains a line break, the body has exactly one
   * line per named entry: null and empty names are skipped, nothing else is.
   */
  lemma {:induction false} BodyLineCount(items: Dict<string, ItemRecord>)
    requires SingleLine(items)
    ensures Newlines(Body(items)) == NamedCount(items)
    decreases |items|
  {
    if items != [] {
      var n := |items| - 1;
      var (uuid, record) := items[n];
      assert SingleLine(items[..n]) by {
        forall i | 0 <= i < n ensures '\n' !in items[..n][i].0 && '\n' !in OrEmpty(items[..n][i].1.name) {
          assert items[..n][i] == items[i];
        }
      }
      BodyLineCount(items[..n]);
      NewlinesAppend(Body(items[..n]), LineOf(items[n]));
      if Truthy(record.name) {
        var name := record.name.value;
        NewlinesAppend("\"" + name + "\";" + uuid, "\n");
        NewlinesAppend("\"" + name + "\";", uuid);
        NewlinesAppend("\"" + name, "\";");
        NewlinesAppend("\"", name);
        NewlinesFree(name);
        NewlinesFree(uuid);
      }
    }
  }

  /**
   * The line of the `i`-th entry, when its name is truthy, stands in the
   * body right after the lines of the entries before it.
   */
  lemma LineAt(items: Dict<string, ItemRecord>, i: nat)
    requires i < |items| && Truthy(items[i].1.name)
    ensures var at := |Body(items[..i])|;
      var line := Line(items[i].0, items[i].1.name.value);
      at + |line| <= |Body(items)| && Body(items)[at..at + |line|] == line
  {
    var pre := Body(items[..i]);
    var line := Line(items[i].0, items[i].1.name.value);
    FlatMapSnoc(LineOf, items, i);
    assert Body(items[..i + 1]) == pre + line;
    FlatMapPrefix(LineOf, items, i + 1);
    var all := Body(items);
    assert all[..|pre| + |line|] == pre + line;
    assert all[|pre|..|pre| + |line|] == (pre + line)[|pre|..];
  }

  /** The export shows names and uuids only: the tax-exempt flags do not change it. */
  lemma {:induction false} BodyIgnoresTaxExempt(items1: Dict<string, ItemRecord>, items2: Dict<string, ItemRecord>)
    requires |items1| == |items2|
    requires forall i :: 0 <= i < |items1| ==> items1[i].0 == items2[i].0 && items1[i].1.name == items2[i].1.name
    ensures Body(items1) == Body(items2)
    decreases |items1|
  {
    if items1 != [] {
      var n := |items1| - 1;
      BodyIgnoresTaxExempt(items1[..n], items2[..n]);
    }
  }

  /** A table holding a named, an empty-named and a null-named entry exports a single line. */
  lemma SkipsUnnamed()
    ensures Body([("I1", ItemRecord(Some("Combo"), false)), ("I2", ItemRecord(Some(""), true)),
                  ("I3", ItemRecord(None, false))]) == "\"Combo\";I1\n"
  {
    var items := [("I1", ItemRecord(Some("Combo"), false)), ("I2", ItemRecord(Some(""), true)),
                  ("I3", ItemRecord(None, false))];
    FlatMapSnoc(LineOf, items, 0);
    FlatMapSnoc(LineOf, items, 1);
    FlatMapSnoc(LineOf, items, 2);
    assert items[..0] == [] && items[..3] == items;
  }
}
