/** Lists kept sorted by a key, with stable insertion behind equal keys. */
module Sorting {
  import opened Searches

  ghost predicate SortedBy<T>(xs: seq<T>, key: T -> real) {
    var n := |xs|;
    n <= 1 || (key(xs[n - 2]) <= key(xs[n - 1]) && SortedBy(xs[..n - 1], key))
  }

  function InsertBy<T>(xs: seq<T>, x: T, key: T -> real): (r: seq<T>)
    ensures |r| == |xs| + 1
    decreases |xs|
  {
    var n := |xs|;
    if n == 0 || key(xs[n - 1]) <= key(x) then xs + [x]
    else InsertBy(xs[..n - 1], x, key) + [xs[n - 1]]
  }

  function SortBy<T>(xs: seq<T>, key: T -> real): (r: seq<T>)
    ensures |r| == |xs|
    decreases |xs|
  {
    if xs == [] then [] else InsertBy(SortBy(xs[..|xs| - 1], key), xs[|xs| - 1], key)
  }

  lemma {:induction false} InsertBySorted<T>(xs: seq<T>, x: T, key: T -> real)
    requires SortedBy(xs, key)
    ensures SortedBy(InsertBy(xs, x, key), key)
    ensures var last := InsertBy(xs, x, key)[|xs|]; last == x || (xs != [] && last == xs[|xs| - 1])
    decreases |xs|
  {
    var n := |xs|;
    if n == 0 || key(xs[n - 1]) <= key(x) {
      assert (xs + [x])[..n] == xs;
    } else {
      InsertBySorted(xs[..n - 1], x, key);
      var before := InsertBy(xs[..n - 1], x, key);
      assert (before + [xs[n - 1]])[..n] == before;
    }
  }

  lemma {:induction false} InsertByOccurrences<T>(xs: seq<T>, x: T, key: T -> real, y: T)
    ensures Occurrences(InsertBy(xs, x, key), y) == Occurrences(xs, y) + if x == y then 1 else 0
    decreases |xs|
  {
    var n := |xs|;
    if n == 0 || key(xs[n - 1]) <= key(x) {
      OccurrencesConcat(xs, [x], y);
    } else {
      InsertByOccurrences(xs[..n - 1], x, key, y);
      OccurrencesConcat(InsertBy(xs[..n - 1], x, key), [xs[n - 1]], y);
      OccurrencesConcat(xs[..n - 1], [xs[n - 1]], y);
      assert xs == xs[..n - 1] + [xs[n - 1]];
    }
  }

  lemma {:induction false} SortByOccurrences<T>(xs: seq<T>, key: T -> real, y: T)
    ensures Occurrences(SortBy(xs, key), y) == Occurrences(xs, y)
    decreases |xs|
  {
    var n := |xs| - 1;
    if xs != [] {
      SortByOccurrences(xs[..n], key, y);
      InsertByOccurrences(SortBy(xs[..n], key), xs[n], key, y);
      OccurrencesConcat(xs[..n], [xs[n]], y);
      assert xs == xs[..n] + [xs[n]];
    }
  }

  lemma {:induction false} SortBySorted<T>(xs: seq<T>, key: T -> real)
    ensures SortedBy(SortBy(xs, key), key)
    decreases |xs|
  {
    var n := |xs| - 1;
    if xs != [] {
      SortBySorted(xs[..n], key);
      InsertBySorted(SortBy(xs[..n], key), xs[n], key);
    }
  }

  lemma {:induction false} SortByMember<T>(xs: seq<T>, key: T -> real, x: T)
    ensures x in SortBy(xs, key) <==> x in xs
  {
    SortByOccurrences(xs, key, x);
    OccursIn(xs, x);
    OccursIn(SortBy(xs, key), x);
  }

  lemma {:induction false} SortedIndices<T>(xs: seq<T>, key: T -> real, i: nat, j: nat)
    requires SortedBy(xs, key) && i <= j < |xs|
    ensures key(xs[i]) <= key(xs[j])
    decreases |xs|, j - i
  {
    var n := |xs|;
    if j < n - 1 {
      SortedIndices(xs[..n - 1], key, i, j);
    } else if i < j {
      SortedIndices(xs[..n - 1], key, i, j - 1);
    }
  }
}
