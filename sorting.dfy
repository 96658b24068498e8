/** The orderings behind the core's calls to Python's `sorted`/`list.sort`, applied to
    positions `0 .. |keys|-1` of a list whose sort keys are `keys`. Insertion sort stands
    in for the library's algorithm: each ordering below is strict and total on distinct
    positions, so every correct sort returns the same list. */
module Sorting {

  datatype Order =
    | KeyDescStable    // `sorted(xs, key=k, reverse=True)`: larger key first, ties in list order
    | KeyDescIndexDesc // `xs.sort(reverse=True)` on `(key, index, ...)` tuples
    | IndexAsc         // `sorted(xs, key=lambda x: x[1])` on those tuples

  predicate ValidIndices(keys: seq<real>, xs: seq<int>) {
    forall a :: 0 <= a < |xs| ==> 0 <= xs[a] < |keys|
  }

  predicate Distinct(xs: seq<int>) {
    forall a, b :: 0 <= a < b < |xs| ==> xs[a] != xs[b]
  }

  /** Position `i` is placed before position `j`. */
  predicate Before(keys: seq<real>, o: Order, i: int, j: int)
    requires 0 <= i < |keys| && 0 <= j < |keys|
  {
    match o
    case KeyDescStable => keys[i] > keys[j] || (keys[i] == keys[j] && i < j)
    case KeyDescIndexDesc => keys[i] > keys[j] || (keys[i] == keys[j] && i > j)
    case IndexAsc => i < j
  }

  predicate SortedBy(keys: seq<real>, o: Order, xs: seq<int>)
    requires ValidIndices(keys, xs)
  {
    forall a, b :: 0 <= a < b < |xs| ==> Before(keys, o, xs[a], xs[b])
  }

  lemma {:induction false} BeforeTotal(keys: seq<real>, o: Order, i: int, j: int)
    requires 0 <= i < |keys| && 0 <= j < |keys| && i != j
    ensures Before(keys, o, i, j) != Before(keys, o, j, i)
  {
  }

  lemma {:induction false} BeforeTransitive(keys: seq<real>, o: Order, i: int, j: int, k: int)
    requires 0 <= i < |keys| && 0 <= j < |keys| && 0 <= k < |keys|
    requires Before(keys, o, i, j) && Before(keys, o, j, k)
    ensures Before(keys, o, i, k)
  {
  }

  function Insert(keys: seq<real>, o: Order, x: int, xs: seq<int>): (r: seq<int>)
    requires 0 <= x < |keys| && ValidIndices(keys, xs)
    ensures multiset(r) == multiset(xs) + multiset{x}
    ensures |r| == |xs| + 1
    ensures forall a :: 0 <= a < |r| ==> r[a] == x || r[a] in xs
    ensures ValidIndices(keys, r)
  {
    if xs == [] then [x]
    else if Before(keys, o, x, xs[0]) then [x] + xs
    else
      assert xs == [xs[0]] + xs[1..];
      [xs[0]] + Insert(keys, o, x, xs[1..])
  }

  /** The positions `xs` rearranged into order `o`. */
  function Sort(keys: seq<real>, o: Order, xs: seq<int>): (r: seq<int>)
    requires ValidIndices(keys, xs)
    ensures multiset(r) == multiset(xs)
    ensures |r| == |xs|
    ensures ValidIndices(keys, r)
  {
    if xs == [] then []
    else
      assert xs == [xs[0]] + xs[1..];
      Insert(keys, o, xs[0], Sort(keys, o, xs[1..]))
  }

  lemma {:induction false} InsertSorted(keys: seq<real>, o: Order, x: int, xs: seq<int>)
    requires 0 <= x < |keys| && ValidIndices(keys, xs)
    requires SortedBy(keys, o, xs) && x !in xs
    ensures SortedBy(keys, o, Insert(keys, o, x, xs))
  {
    if xs != [] && !Before(keys, o, x, xs[0]) {
      var rest := xs[1..];
      assert SortedBy(keys, o, rest);
      InsertSorted(keys, o, x, rest);
      HeadBeforeInserted(keys, o, x, xs);
      ConsSorted(keys, o, xs[0], Insert(keys, o, x, rest));
    } else if xs != [] {
      forall b | 0 <= b < |xs| ensures Before(keys, o, x, xs[b]) {
        if b > 0 { BeforeTransitive(keys, o, x, xs[0], xs[b]); }
      }
      ConsSorted(keys, o, x, xs);
    }
  }

  /** A head placed before every element of a sorted list keeps it sorted. */
  lemma {:induction false} ConsSorted(keys: seq<real>, o: Order, h: int, t: seq<int>)
    requires 0 <= h < |keys| && ValidIndices(keys, t) && SortedBy(keys, o, t)
    requires forall b :: 0 <= b < |t| ==> Before(keys, o, h, t[b])
    ensures ValidIndices(keys, [h] + t) && SortedBy(keys, o, [h] + t)
  {
    var r := [h] + t;
    forall a, b | 0 <= a < b < |r| ensures Before(keys, o, r[a], r[b]) {
      assert r[b] == t[b - 1];
      if a > 0 { assert r[a] == t[a - 1]; }
    }
  }

  /** When `x` goes after the head of `xs`, the head comes before everything inserting
      `x` into the rest gives. */
  lemma {:induction false} HeadBeforeInserted(keys: seq<real>, o: Order, x: int, xs: seq<int>)
    requires 0 <= x < |keys| && ValidIndices(keys, xs) && SortedBy(keys, o, xs) && x !in xs
    requires xs != [] && !Before(keys, o, x, xs[0])
    ensures var t := Insert(keys, o, x, xs[1..]);
            forall b :: 0 <= b < |t| ==> Before(keys, o, xs[0], t[b])
  {
    var rest := xs[1..];
    var t := Insert(keys, o, x, rest);
    BeforeTotal(keys, o, x, xs[0]);
    forall b | 0 <= b < |t| ensures Before(keys, o, xs[0], t[b]) {
      if t[b] != x {
        var c :| 0 <= c < |rest| && rest[c] == t[b];
        assert xs[c + 1] == t[b];
      }
    }
  }

  /** Sorting distinct positions yields them in order `o`. */
  lemma {:induction false} SortSorted(keys: seq<real>, o: Order, xs: seq<int>)
    requires ValidIndices(keys, xs) && Distinct(xs)
    ensures SortedBy(keys, o, Sort(keys, o, xs))
  {
    if xs != [] {
      var rest := xs[1..];
      assert Distinct(rest);
      SortSorted(keys, o, rest);
      var t := Sort(keys, o, rest);
      assert forall c :: 0 <= c < |rest| ==> rest[c] != xs[0] by {
        forall c | 0 <= c < |rest| ensures rest[c] != xs[0] { assert rest[c] == xs[c + 1]; }
      }
      assert xs[0] !in rest;
      assert xs[0] !in multiset(t);
      InsertSorted(keys, o, xs[0], t);
    }
  }

  /** The positions `0 .. n-1` in list order. */
  function Range(n: nat): (r: seq<int>)
    ensures |r| == n && forall a :: 0 <= a < n ==> r[a] == a
  {
    if n == 0 then [] else Range(n - 1) + [n - 1]
  }
}
