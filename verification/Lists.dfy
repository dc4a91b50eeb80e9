/** Lists without repeated elements, shared by the other modules. */
module Lists {

  predicate Distinct<T(==)>(xs: seq<T>) {
    xs == [] || (xs[0] !in xs[1..] && Distinct(xs[1..]))
  }

  lemma {:induction false} DistinctIndices<T>(xs: seq<T>, i: nat, j: nat)
    requires Distinct(xs) && i < j < |xs|
    ensures xs[i] != xs[j]
    decreases |xs|
  {
    if i > 0 {
      DistinctIndices(xs[1..], i - 1, j - 1);
    } else {
      assert xs[1..][j - 1] == xs[j] && xs[1..][j - 1] in xs[1..];
    }
  }

  lemma {:induction false} DistinctPrefix<T>(xs: seq<T>, n: nat)
    requires Distinct(xs) && n < |xs|
    ensures xs[n] !in xs[..n]
  {
    forall i | 0 <= i < n ensures xs[i] != xs[n] { DistinctIndices(xs, i, n); }
  }

  lemma {:induction false} DistinctInit<T>(xs: seq<T>)
    requires Distinct(xs) && xs != []
    ensures Distinct(xs[..|xs| - 1]) && xs[|xs| - 1] !in xs[..|xs| - 1]
    decreases |xs|
  {
    if |xs| > 1 {
      DistinctInit(xs[1..]);
      var n := |xs| - 1;
      assert xs[1..][..n - 1] == xs[..n][1..] && xs[1..][n - 1] == xs[n];
      assert xs[n] in xs[1..];
      assert forall x | x in xs[..n][1..] :: x in xs[1..];
    }
  }

  lemma {:induction false} DistinctSnoc<T>(xs: seq<T>, x: T)
    requires Distinct(xs) && x !in xs
    ensures Distinct(xs + [x])
    decreases |xs|
  {
    if xs == [] {
      assert xs + [x] == [x] && [x][1..] == [];
    } else {
      DistinctSnoc(xs[1..], x);
      assert (xs + [x])[1..] == xs[1..] + [x];
      assert xs == [xs[0]] + xs[1..];
    }
  }

  lemma {:induction false} DistinctParts<T>(a: seq<T>, b: seq<T>)
    requires Distinct(a + b)
    ensures Distinct(a) && Distinct(b) && forall x | x in b :: x !in a
    decreases |a|
  {
    if a == [] {
      assert a + b == b;
    } else {
      assert (a + b)[1..] == a[1..] + b && a == [a[0]] + a[1..];
      DistinctParts(a[1..], b);
    }
  }

  lemma {:induction false} DistinctAppend<T>(a: seq<T>, b: seq<T>)
    requires Distinct(a) && Distinct(b) && forall x | x in a :: x !in b
    ensures Distinct(a + b)
    decreases |a|
  {
    if a == [] {
      assert a + b == b;
    } else {
      assert (a + b)[1..] == a[1..] + b && a == [a[0]] + a[1..];
      DistinctAppend(a[1..], b);
    }
  }
}
