/**
 * Sequence combinators for the nested `for ... in ...: append` loops of the
 * exporter.  `FlatMap` is defined from the back, so that one more turn of a loop
 * over `xs[..i]` is one more element at the end.
 */
module Seqs {

  /** `[f(x) for x in xs]`. */
  function Map<A, B>(f: A -> B, xs: seq<A>): seq<B>
  {
    seq(|xs|, i requires 0 <= i < |xs| => f(xs[i]))
  }

  /** `[y for x in xs for y in f(x)]`: the pieces `f(x)` one after another. */
  function FlatMap<A, B>(f: A -> seq<B>, xs: seq<A>): seq<B>
  {
    if xs == [] then [] else FlatMap(f, xs[..|xs| - 1]) + f(xs[|xs| - 1])
  }

  /** The total size of the pieces, counted from the front. */
  function TotalSize<A, B>(f: A -> seq<B>, xs: seq<A>): nat
  {
    if xs == [] then 0 else |f(xs[0])| + TotalSize(f, xs[1..])
  }

  lemma MapSnoc<A, B>(f: A -> B, xs: seq<A>, i: nat)
    requires i < |xs|
    ensures Map(f, xs[..i + 1]) == Map(f, xs[..i]) + [f(xs[i])]
  {
    assert xs[..i + 1][..i] == xs[..i];
  }

  lemma MapAt<A, B>(f: A -> B, xs: seq<A>, i: nat)
    requires i < |xs|
    ensures |Map(f, xs)| == |xs| && Map(f, xs)[i] == f(xs[i])
  {
  }

  lemma MapAppend<A, B>(f: A -> B, xs: seq<A>, x: A)
    ensures Map(f, xs + [x]) == Map(f, xs) + [f(x)]
  {
    assert (xs + [x])[..|xs|] == xs;
  }

  lemma FlatMapSnoc<A, B>(f: A -> seq<B>, xs: seq<A>, i: nat)
    requires i < |xs|
    ensures FlatMap(f, xs[..i + 1]) == FlatMap(f, xs[..i]) + f(xs[i])
  {
    assert xs[..i + 1][..i] == xs[..i];
  }

  /** One more turn of a loop that appends the pieces of `xs` after `done`. */
  lemma FlatMapSnocAfter<A, B>(f: A -> seq<B>, done: seq<B>, xs: seq<A>, i: nat)
    requires i < |xs|
    ensures done + FlatMap(f, xs[..i + 1]) == (done + FlatMap(f, xs[..i])) + f(xs[i])
  {
    FlatMapSnoc(f, xs, i);
  }

  /** One more turn of a loop that appends `f(x)` for each `x` of `xs` after `done`. */
  lemma MapSnocAfter<A, B>(f: A -> B, done: seq<B>, xs: seq<A>, i: nat)
    requires i < |xs|
    ensures done + Map(f, xs[..i + 1]) == (done + Map(f, xs[..i])) + [f(xs[i])]
  {
    MapSnoc(f, xs, i);
  }

  lemma FlatMapAll<A, B>(f: A -> seq<B>, xs: seq<A>)
    ensures FlatMap(f, xs[..|xs|]) == FlatMap(f, xs)
  {
    assert xs[..|xs|] == xs;
  }

  /** Taking the pieces in front of `x` first. */
  lemma {:induction false} FlatMapCons<A, B>(f: A -> seq<B>, x: A, xs: seq<A>)
    ensures FlatMap(f, [x] + xs) == f(x) + FlatMap(f, xs)
    decreases |xs|
  {
    if xs == [] {
      assert ([x] + xs)[..0] == [];
    } else {
      var n := |xs|;
      assert ([x] + xs)[..n] == [x] + xs[..n - 1];
      FlatMapCons(f, x, xs[..n - 1]);
    }
  }

  /** The flattened sequence is exactly as long as all pieces together. */
  lemma {:induction false} FlatMapLength<A, B>(f: A -> seq<B>, xs: seq<A>)
    ensures |FlatMap(f, xs)| == TotalSize(f, xs)
  {
    if xs != [] {
      assert xs == [xs[0]] + xs[1..];
      FlatMapCons(f, xs[0], xs[1..]);
      FlatMapLength(f, xs[1..]);
    }
  }

  /** An element of the flattened sequence comes from some piece, and every piece's elements are in it. */
  lemma {:induction false} FlatMapMember<A, B>(f: A -> seq<B>, xs: seq<A>, y: B)
    ensures y in FlatMap(f, xs) <==> exists i :: 0 <= i < |xs| && y in f(xs[i])
  {
    if xs != [] {
      var n := |xs| - 1;
      FlatMapMember(f, xs[..n], y);
      if y in FlatMap(f, xs) && y !in f(xs[n]) {
        var i :| 0 <= i < n && y in f(xs[..n][i]);
        assert xs[..n][i] == xs[i];
      }
      if exists i :: 0 <= i < |xs| && y in f(xs[i]) {
        var i :| 0 <= i < |xs| && y in f(xs[i]);
        if i < n {
          assert xs[..n][i] == xs[i];
        }
      }
    }
  }

  /**
   * Piece-major order: element `j` of piece `i` sits right after the pieces
   * in front of piece `i`.
   */
  lemma {:induction false} FlatMapAt<A, B>(f: A -> seq<B>, xs: seq<A>, i: nat, j: nat)
    requires i < |xs| && j < |f(xs[i])|
    ensures |FlatMap(f, xs[..i])| + j < |FlatMap(f, xs)|
    ensures FlatMap(f, xs)[|FlatMap(f, xs[..i])| + j] == f(xs[i])[j]
    decreases |xs|
  {
    var n := |xs| - 1;
    if i == n {
      FlatMapSnoc(f, xs, n);
      assert xs[..n + 1] == xs;
    } else {
      assert xs[..n][..i] == xs[..i];
      assert xs[..n][i] == xs[i];
      FlatMapAt(f, xs[..n], i, j);
    }
  }

  /** The pieces of a prefix of `xs` form a prefix of the flattened sequence. */
  lemma {:induction false} FlatMapPrefix<A, B>(f: A -> seq<B>, xs: seq<A>, i: nat)
    requires i <= |xs|
    ensures |FlatMap(f, xs[..i])| <= |FlatMap(f, xs)|
    ensures FlatMap(f, xs)[..|FlatMap(f, xs[..i])|] == FlatMap(f, xs[..i])
    decreases |xs|
  {
    if i == |xs| {
      assert xs[..i] == xs;
    } else {
      var n := |xs| - 1;
      assert xs[..n][..i] == xs[..i];
      FlatMapPrefix(f, xs[..n], i);
      assert xs[..n + 1] == xs;
      FlatMapSnoc(f, xs, n);
    }
  }
}
