/**
 * Python dictionaries.  A `dict` iterates its items in the order in which
 * their keys were first inserted, and `d[k] = v` on a present key replaces
 * the value where it stands; so a dict is modelled by the sequence of its
 * `items()`, whose keys are distinct.
 */
module Dicts {
  import opened Wrappers
  import opened Seqs

  /** A dict, as the sequence `list(d.items())`. */
  type Dict<K, V> = seq<(K, V)>

  /** `list(d.keys())`. */
  function Keys<K, V>(d: Dict<K, V>): seq<K>
  {
    seq(|d|, i requires 0 <= i < |d| => d[i].0)
  }

  /** No key is listed twice: what every Python dict satisfies. */
  ghost predicate UniqueKeys<K, V>(d: Dict<K, V>)
  {
    forall i, j :: 0 <= i < j < |d| ==> d[i].0 != d[j].0
  }

  /** `d.get(k)`: the value of the first item with key `k`, if any. */
  function Get<K(==), V>(d: Dict<K, V>, k: K): (r: Option<V>)
    ensures r.Some? <==> k in Keys(d)
    ensures r.Some? ==> (k, r.value) in d
  {
    if d == [] then None
    else
      assert Keys(d) == [d[0].0] + Keys(d[1..]);
      if d[0].0 == k then Some(d[0].1) else Get(d[1..], k)
  }

  /** `d[k] = v`, returning the updated dict. */
  function Put<K(==), V>(d: Dict<K, V>, k: K, v: V): Dict<K, V>
  {
    if d == [] then [(k, v)]
    else if d[0].0 == k then [(k, v)] + d[1..]
    else [d[0]] + Put(d[1..], k, v)
  }

  /** A new key goes to the end; a present key keeps its place. */
  lemma {:induction false} PutKeys<K, V>(d: Dict<K, V>, k: K, v: V)
    ensures Keys(Put(d, k, v)) == if k in Keys(d) then Keys(d) else Keys(d) + [k]
    ensures k !in Keys(d) ==> Put(d, k, v) == d + [(k, v)]
  {
    if d != [] {
      assert Keys(d) == [d[0].0] + Keys(d[1..]);
      var r := Put(d, k, v);
      assert Keys(r) == [r[0].0] + Keys(r[1..]);
      if d[0].0 != k {
        PutKeys(d[1..], k, v);
        assert r[1..] == Put(d[1..], k, v);
        assert d == [d[0]] + d[1..];
      } else {
        assert r[1..] == d[1..];
      }
    }
  }

  /** After `d[k] = v`, `k` gives `v` and every other key what it gave before. */
  lemma {:induction false} PutGet<K, V>(d: Dict<K, V>, k: K, v: V, k': K)
    ensures Get(Put(d, k, v), k') == if k' == k then Some(v) else Get(d, k')
  {
    if d != [] {
      var r := Put(d, k, v);
      if d[0].0 == k {
        assert r[1..] == d[1..];
      } else {
        assert r[1..] == Put(d[1..], k, v);
        PutGet(d[1..], k, v, k');
      }
    }
  }

  /** A second `d[k] = v` on the same key replaces the first one's value. */
  lemma {:induction false} PutPut<K, V>(d: Dict<K, V>, k: K, v1: V, v2: V)
    ensures Put(Put(d, k, v1), k, v2) == Put(d, k, v2)
  {
    if d != [] && d[0].0 != k {
      var r := Put(d, k, v1);
      assert r[1..] == Put(d[1..], k, v1);
      PutPut(d[1..], k, v1, v2);
    }
  }

  /** `d[k] = v` keeps the keys of a dict distinct. */
  lemma PutUnique<K, V>(d: Dict<K, V>, k: K, v: V)
    requires UniqueKeys(d)
    ensures UniqueKeys(Put(d, k, v))
  {
    PutKeys(d, k, v);
    var r := Put(d, k, v);
    forall i, j | 0 <= i < j < |r| ensures r[i].0 != r[j].0 {
      assert Keys(r)[i] == r[i].0 && Keys(r)[j] == r[j].0;
      if j < |d| {
        assert Keys(d)[i] == d[i].0 && Keys(d)[j] == d[j].0;
      } else {
        assert Keys(d)[i] == d[i].0;
      }
    }
  }

  /**
   * The dict that `for k, v in es: d[k] = v` builds from an empty `d`: one
   * entry per distinct key, in order of first appearance.
   */
  function FromPairs<K(==), V>(es: seq<(K, V)>): (d: Dict<K, V>)
    ensures UniqueKeys(d)
    ensures |d| <= |es|
  {
    if es == [] then []
    else
      var n := |es| - 1;
      var d := FromPairs(es[..n]);
      PutKeys(d, es[n].0, es[n].1);
      PutUnique(d, es[n].0, es[n].1);
      Put(d, es[n].0, es[n].1)
  }

  /** Every item of `d[k] = v` was an item of `d`, or is `(k, v)`. */
  lemma {:induction false} PutEntry<K, V>(d: Dict<K, V>, k: K, v: V, e: (K, V))
    requires e in Put(d, k, v)
    ensures e in d || e == (k, v)
  {
    if d != [] && d[0].0 != k && e != d[0] {
      var r := Put(d, k, v);
      assert r[1..] == Put(d[1..], k, v);
      PutEntry(d[1..], k, v, e);
    }
  }

  /** Every item of the dict is one of the pairs it was built from. */
  lemma {:induction false} FromPairsEntry<K, V>(es: seq<(K, V)>, e: (K, V))
    requires e in FromPairs(es)
    ensures e in es
  {
    if es != [] {
      var n := |es| - 1;
      PutEntry(FromPairs(es[..n]), es[n].0, es[n].1, e);
      if e in FromPairs(es[..n]) {
        FromPairsEntry(es[..n], e);
        assert es[..n] <= es;
      }
    }
  }

  /** The dict has exactly the keys that occur in `es`. */
  lemma {:induction false} FromPairsKeys<K, V>(es: seq<(K, V)>, k: K)
    ensures k in Keys(FromPairs(es)) <==> k in Keys(es)
  {
    if es != [] {
      var n := |es| - 1;
      var p := es[..n];
      FromPairsKeys(p, k);
      PutKeys(FromPairs(p), es[n].0, es[n].1);
      assert Keys(es) == Keys(p) + [es[n].0];
    }
  }

  /** A key occurs in `es` exactly when some entry of `es` pairs it with a value. */
  lemma KeysMember<K, V>(es: seq<(K, V)>, k: K)
    ensures k in Keys(es) <==> exists v :: (k, v) in es
  {
    if k in Keys(es) {
      var n :| 0 <= n < |es| && Keys(es)[n] == k;
      assert es[n] == (k, es[n].1);
    }
    if exists v :: (k, v) in es {
      var v :| (k, v) in es;
      var n :| 0 <= n < |es| && es[n] == (k, v);
      assert Keys(es)[n] == k;
    }
  }

  lemma FromPairsSnoc<K, V>(es: seq<(K, V)>, e: (K, V))
    ensures FromPairs(es + [e]) == Put(FromPairs(es), e.0, e.1)
  {
    assert (es + [e])[..|es|] == es;
  }

  /** Entry `i` is the last one in `es` with key `k`. */
  ghost predicate LastEntry<K, V>(es: seq<(K, V)>, i: int, k: K)
  {
    0 <= i < |es| && es[i].0 == k && forall j :: i < j < |es| ==> es[j].0 != k
  }

  /** When the final entry has key `k`, it is the last one with key `k`. */
  lemma LastEntryFinal<K, V>(es: seq<(K, V)>, k: K)
    requires es != [] && es[|es| - 1].0 == k
    ensures forall i :: LastEntry(es, i, k) <==> i == |es| - 1
  {
  }

  /** When the final entry has another key, the last entry with key `k` lies before it. */
  lemma LastEntryEarlier<K, V>(es: seq<(K, V)>, k: K)
    requires es != [] && es[|es| - 1].0 != k
    ensures forall i :: LastEntry(es, i, k) <==> LastEntry(es[..|es| - 1], i, k)
  {
    var p := es[..|es| - 1];
    forall i ensures LastEntry(es, i, k) <==> LastEntry(p, i, k) {
      if 0 <= i < |p| {
        assert es[i] == p[i];
        if LastEntry(p, i, k) {
          forall j | i < j < |es| ensures es[j].0 != k {
            if j < |p| {
              assert es[j] == p[j];
            }
          }
        }
      }
    }
  }

  /** Last write wins: a key's value is the one of its last entry. */
  lemma {:induction false} FromPairsGet<K, V>(es: seq<(K, V)>, k: K, v: V)
    ensures Get(FromPairs(es), k) == Some(v) <==> exists i :: LastEntry(es, i, k) && es[i].1 == v
  {
    if es != [] {
      var n := |es| - 1;
      var p := es[..n];
      assert p + [es[n]] == es;
      FromPairsSnoc(p, es[n]);
      PutGet(FromPairs(p), es[n].0, es[n].1, k);
      if es[n].0 == k {
        LastEntryFinal(es, k);
      } else {
        FromPairsGet(p, k, v);
        LastEntryEarlier(es, k);
      }
    }
  }

  /** A later entry with the same key overwrites an earlier one. */
  lemma FromPairsOverwrite<K, V>(es: seq<(K, V)>, i: nat, j: nat)
    requires i < j < |es| && es[i].0 == es[j].0
    requires forall m :: j < m < |es| ==> es[m].0 != es[j].0
    ensures Get(FromPairs(es), es[i].0) == Some(es[j].1)
    ensures es[i].1 != es[j].1 ==> Get(FromPairs(es), es[i].0) != Some(es[i].1)
  {
    assert LastEntry(es, j, es[j].0);
    FromPairsGet(es, es[j].0, es[j].1);
    if es[i].1 != es[j].1 {
      FromPairsGet(es, es[i].0, es[i].1);
    }
  }

  /** Rebuilding a dict from its own items gives it back unchanged. */
  lemma {:induction false} FromPairsOfDict<K, V>(d: Dict<K, V>)
    requires UniqueKeys(d)
    ensures FromPairs(d) == d
  {
    if d != [] {
      var n := |d| - 1;
      var p := d[..n];
      assert UniqueKeys(p);
      FromPairsOfDict(p);
      forall i | 0 <= i < n ensures Keys(p)[i] != d[n].0 {
        assert Keys(p)[i] == d[i].0;
      }
      PutKeys(p, d[n].0, d[n].1);
      assert p + [d[n]] == d;
    }
  }

  /** One more turn of `for x in xs: d[f(x).0] = f(x).1`. */
  lemma FromPairsMapSnoc<A, K, V>(f: A -> (K, V), xs: seq<A>, i: nat)
    requires i < |xs|
    ensures FromPairs(Map(f, xs[..i + 1])) == Put(FromPairs(Map(f, xs[..i])), f(xs[i]).0, f(xs[i]).1)
  {
    MapSnoc(f, xs, i);
    FromPairsSnoc(Map(f, xs[..i]), f(xs[i]));
  }

  /** The keys of `{f(x).0: f(x).1 for x in xs}` are those of the `f(x)`. */
  lemma FromPairsMapKeys<A, K, V>(f: A -> (K, V), xs: seq<A>, k: K)
    ensures k in Keys(FromPairs(Map(f, xs))) <==> exists j :: 0 <= j < |xs| && f(xs[j]).0 == k
  {
    var es := Map(f, xs);
    FromPairsKeys(es, k);
    if k in Keys(es) {
      var j :| 0 <= j < |es| && Keys(es)[j] == k;
      MapAt(f, xs, j);
    }
    if exists j :: 0 <= j < |xs| && f(xs[j]).0 == k {
      var j :| 0 <= j < |xs| && f(xs[j]).0 == k;
      MapAt(f, xs, j);
      assert Keys(es)[j] == k;
    }
  }

  /** In `{f(x).0: f(x).1 for x in xs}` the last `x` with a given key supplies its value. */
  lemma FromPairsMapLast<A, K, V>(f: A -> (K, V), xs: seq<A>, j: nat)
    requires j < |xs|
    requires forall m :: j < m < |xs| ==> f(xs[m]).0 != f(xs[j]).0
    ensures Get(FromPairs(Map(f, xs)), f(xs[j]).0) == Some(f(xs[j]).1)
  {
    var es := Map(f, xs);
    MapAt(f, xs, j);
    forall m | j < m < |es| ensures es[m].0 != es[j].0 {
      MapAt(f, xs, m);
    }
    assert LastEntry(es, j, es[j].0);
    FromPairsGet(es, es[j].0, es[j].1);
  }
}
