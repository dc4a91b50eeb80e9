/** Searches waiting in a queue, as the matchmaking algorithms see them. */
module Searches {
  import opened Lists

  /** One search: its identity, how many players it brings, and the sum of their displayed ratings. */
  datatype Search = Search(id: nat, players: nat, rating: real)

  /** How often `x` occurs in a list; two lists that agree on this for every `x` hold the same elements. */
  function Occurrences<T(==)>(xs: seq<T>, x: T): nat {
    if xs == [] then 0 else (if xs[0] == x then 1 else 0) + Occurrences(xs[1..], x)
  }

  lemma {:induction false} OccurrencesConcat<T>(a: seq<T>, b: seq<T>, x: T)
    ensures Occurrences(a + b, x) == Occurrences(a, x) + Occurrences(b, x)
    decreases |a|
  {
    if a == [] {
      assert a + b == b;
    } else {
      OccurrencesConcat(a[1..], b, x);
      assert (a + b)[1..] == a[1..] + b;
    }
  }

  lemma {:induction false} OccurrencesMultiset<T>(xs: seq<T>, x: T)
    ensures Occurrences(xs, x) == multiset(xs)[x]
    decreases |xs|
  {
    if xs != [] {
      OccurrencesMultiset(xs[1..], x);
      assert xs == [xs[0]] + xs[1..];
    }
  }

  /** `b` is a rearrangement of `a`. */
  ghost predicate Permutation<T(!new)>(a: seq<T>, b: seq<T>) {
    forall x :: Occurrences(a, x) == Occurrences(b, x)
  }

  lemma {:induction false} PermutationMultiset<T(!new)>(a: seq<T>, b: seq<T>)
    ensures Permutation(a, b) <==> multiset(a) == multiset(b)
  {
    forall x ensures Occurrences(a, x) == multiset(a)[x] && Occurrences(b, x) == multiset(b)[x] {
      OccurrencesMultiset(a, x);
      OccurrencesMultiset(b, x);
    }
  }

  lemma {:induction false} OccursIn<T>(xs: seq<T>, x: T)
    ensures Occurrences(xs, x) > 0 <==> x in xs
    decreases |xs|
  {
    if xs != [] {
      OccursIn(xs[1..], x);
      assert xs == [xs[0]] + xs[1..];
    }
  }

  /** Removes the first occurrence of `x`. */
  function Without<T(==)>(xs: seq<T>, x: T): (rest: seq<T>)
    requires x in xs
    ensures |rest| == |xs| - 1
  {
    if xs[0] == x then xs[1..] else [xs[0]] + Without(xs[1..], x)
  }

  lemma {:induction false} WithoutOccurrences<T>(xs: seq<T>, x: T, y: T)
    requires x in xs
    ensures Occurrences(Without(xs, x), y) == Occurrences(xs, y) - if x == y then 1 else 0
    decreases |xs|
  {
    if xs[0] != x {
      WithoutOccurrences(xs[1..], x, y);
      var rest := Without(xs[1..], x);
      assert ([xs[0]] + rest)[1..] == rest;
    }
  }

  lemma {:induction false} PermutationTail<T(!new)>(a: seq<T>, b: seq<T>)
    requires Permutation(a, b) && a != []
    ensures a[0] in b && Permutation(a[1..], Without(b, a[0]))
  {
    OccursIn(a, a[0]);
    OccursIn(b, a[0]);
    forall x ensures Occurrences(a[1..], x) == Occurrences(Without(b, a[0]), x) {
      WithoutOccurrences(b, a[0], x);
    }
  }

  lemma {:induction false} PermutationEmpty<T(!new)>(b: seq<T>)
    requires Permutation([], b)
    ensures b == []
  {
    if b != [] { assert Occurrences(b, b[0]) > 0; }
  }

  lemma {:induction false} OnceDistinct<T(!new)>(xs: seq<T>)
    requires forall x :: Occurrences(xs, x) <= 1
    ensures Distinct(xs)
    decreases |xs|
  {
    if xs != [] {
      forall x ensures Occurrences(xs[1..], x) <= 1 { assert Occurrences(xs, x) <= 1; }
      OnceDistinct(xs[1..]);
      assert Occurrences(xs, xs[0]) <= 1;
      OccursIn(xs[1..], xs[0]);
    }
  }

  lemma {:induction false} DistinctOnce<T>(xs: seq<T>, x: T)
    requires Distinct(xs)
    ensures Occurrences(xs, x) == if x in xs then 1 else 0
    decreases |xs|
  {
    if xs != [] {
      DistinctOnce(xs[1..], x);
      assert xs == [xs[0]] + xs[1..];
    }
  }

  lemma {:induction false} WithoutDistinct<T>(xs: seq<T>, x: T)
    requires Distinct(xs) && x in xs
    ensures Distinct(Without(xs, x)) && forall y :: y in Without(xs, x) <==> y in xs && y != x
    decreases |xs|
  {
    if xs[0] != x {
      WithoutDistinct(xs[1..], x);
      var rest := Without(xs[1..], x);
      assert ([xs[0]] + rest)[1..] == rest && xs == [xs[0]] + xs[1..];
    }
  }

  /** The searches that are not on the other list. */
  function NotIn<T(==)>(searches: seq<T>, others: seq<T>): seq<T>
    decreases |searches|
  {
    if searches == [] then []
    else (if searches[0] in others then [] else [searches[0]]) + NotIn(searches[1..], others)
  }

  lemma {:induction false} NotInOccurrences<T>(searches: seq<T>, others: seq<T>, x: T)
    ensures Occurrences(NotIn(searches, others), x) == if x in others then 0 else Occurrences(searches, x)
    decreases |searches|
  {
    if searches != [] {
      NotInOccurrences(searches[1..], others, x);
      var rest := NotIn(searches[1..], others);
      assert ([searches[0]] + rest)[1..] == rest && [] + rest == rest;
    }
  }

  lemma {:induction false} PermutationLength<T(!new)>(a: seq<T>, b: seq<T>)
    requires Permutation(a, b)
    ensures |a| == |b|
    decreases |a|
  {
    if a == [] {
      PermutationEmpty(b);
    } else {
      PermutationTail(a, b);
      PermutationLength(a[1..], Without(b, a[0]));
    }
  }

  function Players(searches: seq<Search>): nat {
    if searches == [] then 0 else searches[0].players + Players(searches[1..])
  }

  function Rating(searches: seq<Search>): real {
    if searches == [] then 0.0 else searches[0].rating + Rating(searches[1..])
  }

  lemma {:induction false} PlayersConcat(a: seq<Search>, b: seq<Search>)
    ensures Players(a + b) == Players(a) + Players(b)
    decreases |a|
  {
    if a == [] {
      assert a + b == b;
    } else {
      PlayersConcat(a[1..], b);
      assert (a + b)[1..] == a[1..] + b;
    }
  }

  lemma {:induction false} PlayersWithout(searches: seq<Search>, x: Search)
    requires x in searches
    ensures Players(searches) == x.players + Players(Without(searches, x))
    decreases |searches|
  {
    if searches[0] != x {
      PlayersWithout(searches[1..], x);
      var rest := Without(searches[1..], x);
      assert ([searches[0]] + rest)[1..] == rest;
    }
  }

  /** The player count does not depend on the order. */
  lemma {:induction false} PlayersPermutation(a: seq<Search>, b: seq<Search>)
    requires Permutation(a, b)
    ensures Players(a) == Players(b)
    decreases |a|
  {
    if a == [] {
      PermutationEmpty(b);
    } else {
      PermutationTail(a, b);
      PlayersWithout(b, a[0]);
      PlayersPermutation(a[1..], Without(b, a[0]));
    }
  }

  // ----- Matches

  /** Two opposing teams, given by the original searches they are made of. */
  datatype Match = Match(a: seq<Search>, b: seq<Search>)

  function SearchesOf(m: Match): seq<Search> {
    m.a + m.b
  }

  function Flatten(matches: seq<Match>): seq<Search> {
    if matches == [] then [] else Flatten(matches[..|matches| - 1]) + SearchesOf(matches[|matches| - 1])
  }

  lemma {:induction false} FlattenConcat(a: seq<Match>, b: seq<Match>)
    ensures Flatten(a + b) == Flatten(a) + Flatten(b)
    decreases |b|
  {
    if b == [] {
      assert a + b == a;
    } else {
      var before, last := b[..|b| - 1], b[|b| - 1];
      FlattenConcat(a, before);
      hide Flatten, SearchesOf;
      assert b == before + [last] && a + b == (a + before) + [last];
      assert Flatten(a) + (Flatten(before) + SearchesOf(last)) == Flatten(a) + Flatten(before) + SearchesOf(last);
    }
  }

  /** Every search is in exactly one match or unmatched, and both sides of every match have `teamSize` players. */
  ghost predicate IsPairing(searches: seq<Search>, teamSize: nat, matches: seq<Match>, unmatched: seq<Search>) {
    && Permutation(Flatten(matches) + unmatched, searches)
    && forall i | 0 <= i < |matches| :: Players(matches[i].a) == Players(matches[i].b) == teamSize
  }
}
