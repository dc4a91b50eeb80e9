/** Teams of players who queue alone: grouped by rating, then dealt out so that no team is favoured. */
module BucketSingles {
  import opened Options
  import opened Lists
  import opened Searches
  import opened Sorting

  function FlattenTeams(teams: seq<seq<Search>>): seq<Search> {
    if teams == [] then [] else FlattenTeams(teams[..|teams| - 1]) + teams[|teams| - 1]
  }

  lemma {:induction false} TeamsConcat(a: seq<seq<Search>>, b: seq<seq<Search>>, x: Search)
    ensures Occurrences(FlattenTeams(a + b), x) == Occurrences(FlattenTeams(a), x) + Occurrences(FlattenTeams(b), x)
    decreases |b|
  {
    if b == [] {
      assert a + b == a;
    } else {
      var n := |b| - 1;
      assert (a + b)[..|a| + n] == a + b[..n];
      TeamsConcat(a, b[..n], x);
      OccurrencesConcat(FlattenTeams(a + b[..n]), b[n], x);
      OccurrencesConcat(FlattenTeams(b[..n]), b[n], x);
    }
  }

  // ----- Dealing out

  function Rotate<T>(list: seq<T>, amount: nat): seq<T>
    requires amount <= |list|
  {
    list[amount..] + list[..amount]
  }

  /** The second half of the list starts from its middle. */
  function Dealt(items: seq<Search>): (order: seq<Search>)
    ensures |order| == |items|
  {
    var half := |items| / 2;
    items[..half] + Rotate(items[half..], half / 2)
  }

  /** The example of the documentation: of four players the best and the worst play together. */
  lemma {:induction false} DealtFour(a: Search, b: Search, c: Search, d: Search)
    ensures Dealt([a, b, c, d]) == [a, b, d, c]
    ensures var order := Dealt([a, b, c, d]);
      [order[Position(0, 2, 0)], order[Position(1, 2, 0)]] == [a, d]
      && [order[Position(0, 2, 1)], order[Position(1, 2, 1)]] == [b, c]
  {
    var items := [a, b, c, d];
    assert items[..2] == [a, b] && items[2..] == [c, d] && [c, d][1..] == [d] && [c, d][..1] == [c];
  }

  lemma {:induction false} DealtOccurrences(items: seq<Search>, x: Search)
    ensures Occurrences(Dealt(items), x) == Occurrences(items, x)
  {
    var half := |items| / 2;
    var second := items[half..];
    assert items == items[..half] + second && second == second[..half / 2] + second[half / 2..];
    OccurrencesConcat(items[..half], second, x);
    OccurrencesConcat(items[..half], Rotate(second, half / 2), x);
    OccurrencesConcat(second[..half / 2], second[half / 2..], x);
    OccurrencesConcat(second[half / 2..], second[..half / 2], x);
  }

  lemma {:induction false} MultipleBounds(k: int, d: nat)
    ensures k >= 1 ==> k * d >= d
    ensures k <= -1 ==> k * d <= 0 - d
  {
    if k >= 1 { assert k * d == (k - 1) * d + d; }
    if k <= -1 { assert k * d == (k + 1) * d - d; }
  }

  lemma {:induction false} SameMultiple(a: int, b: int, d: nat, r: int, s: int)
    requires a * d + r == b * d + s && 0 <= r < d && 0 <= s < d
    ensures a == b && r == s
  {
    assert (a - b) * d == s - r;
    MultipleBounds(a - b, d);
  }

  /** The place in the list of what team `t` of `n` gets in some round. */
  function Position(round: nat, n: nat, t: nat): nat {
    round * n + t
  }

  /** The place tells the round and the team. */
  lemma {:induction false} DivMod(round: nat, d: nat, t: nat)
    requires t < d
    ensures Position(round, d, t) / d == round && Position(round, d, t) % d == t
  {
    var x := Position(round, d, t);
    assert x == (x / d) * d + x % d;
    SameMultiple(round, x / d, d, t, x % d);
  }

  /** Giving one more item to team `t` adds it to what is dealt out. */
  lemma {:induction false} DealOne(teams: seq<seq<Search>>, t: nat, item: Search, x: Search)
    requires t < |teams|
    ensures Occurrences(FlattenTeams(teams[t := teams[t] + [item]]), x)
      == Occurrences(FlattenTeams(teams), x) + if item == x then 1 else 0
  {
    var after := teams[t := teams[t] + [item]];
    assert teams == teams[..t] + ([teams[t]] + teams[t + 1..]) && after == teams[..t] + ([after[t]] + teams[t + 1..]);
    TeamsConcat(teams[..t], [teams[t]] + teams[t + 1..], x);
    TeamsConcat(teams[..t], [after[t]] + teams[t + 1..], x);
    TeamsConcat([teams[t]], teams[t + 1..], x);
    TeamsConcat([after[t]], teams[t + 1..], x);
    FlattenOne(teams[t]);
    FlattenOne(after[t]);
    OccurrencesConcat(teams[t], [item], x);
  }

  lemma {:induction false} FlattenOne(team: seq<Search>)
    ensures FlattenTeams([team]) == team
  {
    assert [team][..0] == [] && [] + team == team;
  }

  lemma {:induction false} FlattenEmpty(n: nat)
    ensures FlattenTeams(seq(n, _ => [])) == []
    decreases n
  {
    if n > 0 {
      FlattenEmpty(n - 1);
      assert seq<seq<Search>>(n, _ => [])[..n - 1] == seq(n - 1, _ => []);
    }
  }

  /** The first `i` items of the order are dealt out: `round` full rounds and `next` items of another one. */
  ghost predicate Filled(teams: seq<seq<Search>>, order: seq<Search>, n: nat, round: nat, next: nat, i: nat)
    requires i <= |order|
  {
    && |teams| == n && i == Position(round, n, next) && (next < n || n == 0)
    && (forall t | 0 <= t < n :: |teams[t]| == round + if t < next then 1 else 0)
    && (forall t, r | 0 <= t < n && 0 <= r < |teams[t]| ::
          Position(r, n, t) < i && teams[t][r] == order[Position(r, n, t)])
  }

  lemma {:induction false} FilledNext(teams: seq<seq<Search>>, order: seq<Search>, n: nat, round: nat, next: nat,
      i: nat)
    requires i < |order| && n > 0 && Filled(teams, order, n, round, next, i)
    ensures i % n == next
    ensures var after := teams[next := teams[next] + [order[i]]];
      if next + 1 == n then Filled(after, order, n, round + 1, 0, i + 1)
      else Filled(after, order, n, round, next + 1, i + 1)
  {
    DivMod(round, n, next);
    NextRound(round, next, n);
    hide Position;
  }

  /** Team `t` has every `n`-th item of the order, starting with the `t`-th, up to the end. */
  ghost predicate AllDealt(teams: seq<seq<Search>>, order: seq<Search>, n: nat)
    requires n > 0
  {
    && |teams| == n
    && (forall t | 0 <= t < n :: |teams[t]| == |order| / n + if t < |order| % n then 1 else 0)
    && (forall t, r | 0 <= t < n && 0 <= r < |teams[t]| ::
          Position(r, n, t) < |order| && teams[t][r] == order[Position(r, n, t)])
  }

  /** As many teams as can be filled; with too few items for one team there is nobody to deal to, and it fails. */
  method Distribute(items: seq<Search>, teamSize: nat) returns (dealt: Option<seq<seq<Search>>>)
    requires teamSize > 0
    ensures dealt.None? <==> 0 < |items| < teamSize
    ensures dealt.Some? ==> |dealt.value| == |items| / teamSize
    ensures dealt.Some? ==> forall x :: Occurrences(FlattenTeams(dealt.value), x) == Occurrences(items, x)
    ensures |items| >= teamSize ==> AllDealt(dealt.value, Dealt(items), |items| / teamSize)
  {
    var count := |items| / teamSize;
    var teams := seq(count, _ => []);
    var rotated := Dealt(items);
    ghost var round, next := 0, 0;
    FlattenEmpty(count);
    CountPositive(|items|, teamSize);
    assert Filled(teams, rotated, count, 0, 0, 0);
    hide FlattenTeams, Dealt, Occurrences, Position, Filled;
    for i := 0 to |rotated|
      invariant |teams| == count && Filled(teams, rotated, count, round, next, i) && (i > 0 ==> count > 0)
      invariant forall x :: Occurrences(FlattenTeams(teams), x) == Occurrences(rotated[..i], x)
    {
      if count == 0 {
        return None;
      }
      FilledNext(teams, rotated, count, round, next, i);
      var t := i % count;
      var before := teams;
      teams := teams[t := teams[t] + [rotated[i]]];
      forall x ensures Occurrences(FlattenTeams(teams), x) == Occurrences(rotated[..i + 1], x) {
        DealOne(before, t, rotated[i], x);
        assert rotated[..i + 1] == rotated[..i] + [rotated[i]];
        OccurrencesConcat(rotated[..i], [rotated[i]], x);
        OccurrencesOne(rotated[i], x);
      }
      if next + 1 == count { round, next := round + 1, 0; } else { next := next + 1; }
    }
    assert rotated[..|rotated|] == rotated;
    forall x ensures Occurrences(rotated, x) == Occurrences(items, x) { DealtOccurrences(items, x); }
    if count > 0 { AllFilled(teams, rotated, count, round, next); }
    return Some(teams);
  }

  lemma {:induction false} CountPositive(items: nat, teamSize: nat)
    requires teamSize > 0
    ensures items / teamSize > 0 <==> items >= teamSize
  {
    assert items == items / teamSize * teamSize + items % teamSize;
    MultipleBounds(items / teamSize, teamSize);
  }

  lemma {:induction false} AllFilled(teams: seq<seq<Search>>, order: seq<Search>, n: nat, round: nat, next: nat)
    requires n > 0 && Filled(teams, order, n, round, next, |order|)
    ensures AllDealt(teams, order, n)
  {
    DivMod(round, n, next);
    hide Position;
  }

  /** A number of items that fills `count` teams fills them evenly. */
  lemma {:induction false} DealtEvenly(items: seq<Search>, dealt: Option<seq<seq<Search>>>, count: nat, size: nat)
    requires size > 0 && |items| == count * size
    requires dealt.None? ==> 0 < |items| < size
    requires dealt.Some? ==> |dealt.value| == |items| / size
    requires dealt.Some? && |items| >= size ==> AllDealt(dealt.value, Dealt(items), |items| / size)
    ensures dealt.Some? && |dealt.value| == count && FullTeams(dealt.value, size)
  {
    assert count * size == size * count;
    assert Position(count, size, 0) == |items| && Position(size, count, 0) == |items|;
    MultipleBounds(count, size);
    DivMod(count, size, 0);
    if count > 0 { DivMod(size, count, 0); }
    hide Position;
  }

  lemma {:induction false} OccurrencesOne(item: Search, x: Search)
    ensures Occurrences([item], x) == if item == x then 1 else 0
  {}

  lemma {:induction false} NextRound(round: nat, next: nat, n: nat)
    ensures next + 1 == n ==> Position(round + 1, n, 0) == Position(round, n, next) + 1
    ensures Position(round, n, next + 1) == Position(round, n, next) + 1
  {}

  // ----- Selecting

  /** Selecting from a list without repetitions splits it. */
  lemma {:induction false} SelectionSplits(searches: seq<Search>, selected: seq<Search>)
    requires Distinct(searches) && forall x :: Occurrences(selected, x) <= Occurrences(searches, x)
    ensures forall x :: Occurrences(selected, x) + Occurrences(NotIn(searches, selected), x) == Occurrences(searches, x)
    ensures |selected| + |NotIn(searches, selected)| == |searches|
  {
    var rest := NotIn(searches, selected);
    forall x ensures Occurrences(selected, x) + Occurrences(rest, x) == Occurrences(searches, x) {
      NotInOccurrences(searches, selected, x);
      DistinctOnce(searches, x);
      OccursIn(selected, x);
    }
    forall x ensures Occurrences(selected + rest, x) == Occurrences(searches, x) {
      OccurrencesConcat(selected, rest, x);
    }
    PermutationLength(selected + rest, searches);
  }

  /** Any selection of `count` items, in any order. */
  method Sample(items: seq<Search>, count: nat) returns (selected: seq<Search>)
    requires count <= |items|
    ensures |selected| == count && forall x :: Occurrences(selected, x) <= Occurrences(items, x)
  {
    selected := [];
    var pool := items;
    while |selected| < count
      invariant |selected| + |pool| == |items| && |selected| <= count
      invariant forall x :: Occurrences(selected, x) + Occurrences(pool, x) == Occurrences(items, x)
    {
      var i :| 0 <= i < |pool|;
      var item := pool[i];
      forall x ensures Occurrences(selected + [item], x) == Occurrences(selected, x) + Occurrences([item], x)
        && Occurrences(pool[..i] + pool[i + 1..], x) == Occurrences(pool, x) - Occurrences([item], x)
      {
        OccurrencesConcat(selected, [item], x);
        assert pool == pool[..i] + ([item] + pool[i + 1..]);
        OccurrencesConcat(pool[..i], [item] + pool[i + 1..], x);
        OccurrencesConcat([item], pool[i + 1..], x);
        OccurrencesConcat(pool[..i], pool[i + 1..], x);
      }
      selected, pool := selected + [item], pool[..i] + pool[i + 1..];
    }
  }

  // ----- Buckets

  predicate Near(mean: Search -> real, pivot: Search, s: Search) {
    mean(pivot) - 100.0 <= mean(s) <= mean(pivot) + 100.0
  }

  /** Everybody in a bucket is close to one of its members. */
  ghost predicate IsBucket(bucket: seq<Search>, mean: Search -> real) {
    exists pivot | pivot in bucket :: forall s | s in bucket :: Near(mean, pivot, s)
  }

  /** The bucket holds everybody near its pivot who was not in an earlier one: nobody in `later` is. */
  ghost predicate WholeBucket(bucket: seq<Search>, later: seq<Search>, mean: Search -> real) {
    exists pivot | pivot in bucket ::
      (forall s | s in bucket :: Near(mean, pivot, s)) && forall s | s in later :: !Near(mean, pivot, s)
  }

  /** Every bucket was filled from those that the buckets before it left. */
  ghost predicate WholeBuckets(buckets: seq<seq<Search>>, remaining: seq<Search>, mean: Search -> real) {
    forall i | 0 <= i < |buckets| :: WholeBucket(buckets[i], FlattenTeams(buckets[i + 1..]) + remaining, mean)
  }

  lemma {:induction false} NextBucket(buckets: seq<seq<Search>>, remaining: seq<Search>, mean: Search -> real,
      bucket: seq<Search>, rest: seq<Search>)
    requires WholeBuckets(buckets, remaining, mean) && WholeBucket(bucket, rest, mean)
    requires forall s | s in bucket || s in rest :: s in remaining
    ensures WholeBuckets(buckets + [bucket], rest, mean)
  {
    var all := buckets + [bucket];
    forall i | 0 <= i < |all| ensures WholeBucket(all[i], FlattenTeams(all[i + 1..]) + rest, mean) {
      if i == |buckets| {
        assert all[i + 1..] == [] && [] + rest == rest;
      } else {
        assert all[i + 1..] == buckets[i + 1..] + [bucket] && all[i + 1..][..|all| - i - 2] == buckets[i + 1..];
        assert FlattenTeams(all[i + 1..]) == FlattenTeams(buckets[i + 1..]) + bucket;
        hide FlattenTeams, Near;
        assert WholeBucket(buckets[i], FlattenTeams(buckets[i + 1..]) + remaining, mean);
      }
    }
  }

  method Partition(searches: seq<Search>, mean: Search -> real, pivot: Search)
    returns (bucket: seq<Search>, rest: seq<Search>)
    ensures forall x :: Occurrences(bucket, x) + Occurrences(rest, x) == Occurrences(searches, x)
    ensures forall s :: s in bucket <==> s in searches && Near(mean, pivot, s)
    ensures forall s :: s in rest <==> s in searches && !Near(mean, pivot, s)
    ensures |bucket| + |rest| == |searches|
  {
    bucket, rest := [], [];
    for i := 0 to |searches|
      invariant forall x :: Occurrences(bucket, x) + Occurrences(rest, x) == Occurrences(searches[..i], x)
      invariant forall s :: s in bucket <==> s in searches[..i] && Near(mean, pivot, s)
      invariant forall s :: s in rest <==> s in searches[..i] && !Near(mean, pivot, s)
      invariant |bucket| + |rest| == i
    {
      var item := searches[i];
      assert searches[..i + 1] == searches[..i] + [item];
      forall x ensures Occurrences(searches[..i + 1], x) == Occurrences(searches[..i], x) + Occurrences([item], x)
        && Occurrences(bucket + [item], x) == Occurrences(bucket, x) + Occurrences([item], x)
        && Occurrences(rest + [item], x) == Occurrences(rest, x) + Occurrences([item], x)
      {
        OccurrencesConcat(searches[..i], [item], x);
        OccurrencesConcat(bucket, [item], x);
        OccurrencesConcat(rest, [item], x);
      }
      hide Near, Occurrences;
      if Near(mean, pivot, item) { bucket := bucket + [item]; } else { rest := rest + [item]; }
    }
    assert searches[..|searches|] == searches;
  }

  /** Groups of similar rating, for every choice of pivots; every search is in one of them. */
  method MakeBuckets(searches: seq<Search>, mean: Search -> real) returns (buckets: seq<seq<Search>>)
    ensures forall x :: Occurrences(FlattenTeams(buckets), x) == Occurrences(searches, x)
    ensures forall i | 0 <= i < |buckets| :: IsBucket(buckets[i], mean)
    ensures WholeBuckets(buckets, [], mean)
  {
    buckets := [];
    var remaining := searches;
    while remaining != []
      invariant forall x ::
        Occurrences(FlattenTeams(buckets), x) + Occurrences(remaining, x) == Occurrences(searches, x)
      invariant forall i | 0 <= i < |buckets| :: IsBucket(buckets[i], mean)
      invariant WholeBuckets(buckets, remaining, mean)
      decreases |remaining|
    {
      assert remaining[0] in remaining;
      var pivot :| pivot in remaining;
      var bucket, notBucket := Partition(remaining, mean, pivot);
      assert pivot in bucket && IsBucket(bucket, mean) && WholeBucket(bucket, notBucket, mean);
      NextBucket(buckets, remaining, mean, bucket, notBucket);
      forall x ensures Occurrences(FlattenTeams(buckets + [bucket]), x)
          == Occurrences(FlattenTeams(buckets), x) + Occurrences(bucket, x) {
        TeamsConcat(buckets, [bucket], x);
        FlattenOne(bucket);
      }
      hide FlattenTeams, Occurrences, IsBucket, WholeBuckets;
      buckets, remaining := buckets + [bucket], notBucket;
    }
  }

  // ----- Making the teams

  lemma {:induction false} FlattenLength(teams: seq<seq<Search>>, size: nat)
    requires forall i | 0 <= i < |teams| :: |teams[i]| == size
    ensures |FlattenTeams(teams)| == |teams| * size
    decreases |teams|
  {
    if teams != [] {
      var n := |teams| - 1;
      FlattenLength(teams[..n], size);
      assert |teams| * size == n * size + size;
    }
  }

  ghost predicate FullTeams(teams: seq<seq<Search>>, size: nat) {
    forall i | 0 <= i < |teams| :: |teams[i]| == size
  }

  /** Every search is in one team or among the rest. */
  ghost predicate Split(searches: seq<Search>, teams: seq<seq<Search>>, rest: seq<Search>) {
    forall x :: Occurrences(FlattenTeams(teams), x) + Occurrences(rest, x) == Occurrences(searches, x)
  }

  /** Full teams and fewer than a team left over: the numbers follow. */
  lemma {:induction false} CountTeams(searches: seq<Search>, teams: seq<seq<Search>>, rest: seq<Search>, size: nat)
    requires Split(searches, teams, rest) && FullTeams(teams, size) && |rest| < size
    ensures |teams| == |searches| / size && |rest| == |searches| % size
  {
    forall x ensures Occurrences(FlattenTeams(teams) + rest, x) == Occurrences(searches, x) {
      OccurrencesConcat(FlattenTeams(teams), rest, x);
    }
    PermutationLength(FlattenTeams(teams) + rest, searches);
    FlattenLength(teams, size);
    DivMod(|teams|, size, |rest|);
  }

  lemma {:induction false} SplitRestDistinct(searches: seq<Search>, teams: seq<seq<Search>>, rest: seq<Search>)
    requires Split(searches, teams, rest) && Distinct(searches)
    ensures Distinct(rest)
  {
    forall x ensures Occurrences(rest, x) <= 1 { DistinctOnce(searches, x); }
    OnceDistinct(rest);
  }

  /** New teams made of searches of the rest. */
  lemma {:induction false} SplitNext(searches: seq<Search>, teams: seq<seq<Search>>, rest: seq<Search>,
      newTeams: seq<seq<Search>>, newRest: seq<Search>)
    requires Split(searches, teams, rest) && Split(rest, newTeams, newRest)
    ensures Split(searches, teams + newTeams, newRest)
  {
    forall x ensures Occurrences(FlattenTeams(teams + newTeams), x) + Occurrences(newRest, x)
      == Occurrences(searches, x) {
      TeamsConcat(teams, newTeams, x);
    }
  }

  // ----- Who is dealt out with whom

  /** These teams come from dealing out one list that was sorted by rating. */
  ghost predicate IsDeal(teams: seq<seq<Search>>, mean: Search -> real) {
    teams == [] || exists sorted :: SortedBy(sorted, mean) && AllDealt(teams, Dealt(sorted), |teams|)
  }

  ghost predicate Deals(teams: seq<seq<Search>>, mean: Search -> real) {
    teams == [] || exists k :: 0 <= k < |teams| && IsDeal(teams[k..], mean) && Deals(teams[..k], mean)
  }

  lemma {:induction false} DealsConcat(a: seq<seq<Search>>, b: seq<seq<Search>>, mean: Search -> real)
    requires Deals(a, mean) && IsDeal(b, mean)
    ensures Deals(a + b, mean)
  {
    hide IsDeal;
    if b == [] {
      assert a + b == a;
    } else {
      assert (a + b)[|a|..] == b && (a + b)[..|a|] == a;
    }
  }

  /** The teams that are made from the front of a list, two at a time while it is long enough for that. */
  ghost predicate DealtInOrder(teams: seq<seq<Search>>, sorted: seq<Search>, size: nat)
    requires size > 0
    decreases |sorted|
  {
    if |sorted| < size then teams == []
    else if |sorted| < 2 * size then teams == [sorted[..size]]
    else
      && |teams| >= 2 && AllDealt(teams[..2], Dealt(sorted[..2 * size]), 2)
      && DealtInOrder(teams[2..], sorted[2 * size..], size)
  }

  /** The teams of one turn, and the list that is left after it. */
  ghost predicate OneTurn(teams: seq<seq<Search>>, sorted: seq<Search>, rest: seq<Search>, size: nat)
    requires 0 < size <= |sorted|
  {
    if |sorted| < 2 * size then teams == [sorted[..size]] && rest == sorted[size..]
    else |teams| == 2 && AllDealt(teams, Dealt(sorted[..2 * size]), 2) && rest == sorted[2 * size..]
  }

  lemma {:induction false} TurnThenRest(teams: seq<seq<Search>>, sorted: seq<Search>, rest: seq<Search>, size: nat,
      tail: seq<seq<Search>>)
    requires 0 < size <= |sorted| && OneTurn(teams, sorted, rest, size) && DealtInOrder(tail, rest, size)
    ensures DealtInOrder(teams + tail, sorted, size)
  {
    hide AllDealt;
    if |sorted| < 2 * size {
      assert tail == [] && teams + tail == teams;
    } else {
      assert (teams + tail)[..2] == teams && (teams + tail)[2..] == tail;
    }
  }

  /** Whatever is made from the rest of the list completes what has been made so far. */
  ghost predicate MadeSoFar(teams: seq<seq<Search>>, sorted: seq<Search>, rest: seq<Search>, size: nat)
    requires size > 0
  {
    forall tail :: DealtInOrder(tail, rest, size) ==> DealtInOrder(teams + tail, sorted, size)
  }

  lemma {:induction false} MadeNext(teams: seq<seq<Search>>, sorted: seq<Search>, remaining: seq<Search>, size: nat,
      newTeams: seq<seq<Search>>, rest: seq<Search>)
    requires 0 < size <= |remaining| && MadeSoFar(teams, sorted, remaining, size)
    requires OneTurn(newTeams, remaining, rest, size)
    ensures MadeSoFar(teams + newTeams, sorted, rest, size)
  {
    forall tail | DealtInOrder(tail, rest, size) ensures DealtInOrder(teams + newTeams + tail, sorted, size) {
      TurnThenRest(newTeams, remaining, rest, size, tail);
      assert teams + (newTeams + tail) == teams + newTeams + tail;
    }
  }

  lemma {:induction false} NothingMade(sorted: seq<Search>, size: nat)
    requires size > 0
    ensures MadeSoFar([], sorted, sorted, size)
  {
    forall tail: seq<seq<Search>> ensures [] + tail == tail {}
  }

  lemma {:induction false} AllMade(teams: seq<seq<Search>>, sorted: seq<Search>, rest: seq<Search>, size: nat)
    requires size > 0 && MadeSoFar(teams, sorted, rest, size) && |rest| < size
    ensures DealtInOrder(teams, sorted, size)
  {
    assert DealtInOrder([], rest, size) && teams + [] == teams;
  }

  lemma {:induction false} NotInPrefix(searches: seq<Search>, n: nat)
    requires n <= |searches| && Distinct(searches)
    ensures NotIn(searches, searches[..n]) == searches[n..]
  {
    assert searches == searches[..n] + searches[n..];
    forall s | s in searches[n..] ensures s !in searches[..n] {
      DistinctParts(searches[..n], searches[n..]);
    }
    NotInParts(searches[..n], searches[n..], searches[..n]);
  }

  lemma {:induction false} NotInParts(a: seq<Search>, b: seq<Search>, others: seq<Search>)
    requires (forall s | s in a :: s in others) && forall s | s in b :: s !in others
    ensures NotIn(a + b, others) == b
    decreases |a| + |b|
  {
    if a != [] {
      assert (a + b)[1..] == a[1..] + b && a[0] in a && forall s | s in a[1..] :: s in a;
      NotInParts(a[1..], b, others);
    } else if b != [] {
      assert a + b == b && b[0] in b && forall s | s in b[1..] :: s in b;
      NotInParts([], b[1..], others);
      assert [] + b[1..] == b[1..];
    }
  }

  /** An even number of teams of similar players; the others of the bucket remain. */
  method TeamsOfBucket(bucket: seq<Search>, mean: Search -> real, size: nat)
    returns (teams: seq<seq<Search>>, rest: seq<Search>)
    requires size > 0 && Distinct(bucket)
    ensures Split(bucket, teams, rest) && FullTeams(teams, size) && |teams| % 2 == 0 && |rest| < 2 * size
    ensures IsDeal(teams, mean)
  {
    hide EvenTeams, SortBy, SortedBy, IsDeal, FullTeams, FlattenTeams;
    var numTeams := EvenTeams(|bucket|, size);
    var numPlayers := numTeams * size;
    var selected := Sample(bucket, numPlayers);
    rest := NotIn(bucket, selected);
    SelectionSplits(bucket, selected);
    var sorted := SortBy(selected, mean);
    forall x ensures Occurrences(sorted, x) == Occurrences(selected, x) { SortByOccurrences(selected, mean, x); }
    SortBySorted(selected, mean);
    hide NotIn, Occurrences, Distinct;
    teams := DealSorted(sorted, mean, numTeams, size);
  }

  /** The teams of a sorted list that is long enough for exactly so many. */
  method DealSorted(sorted: seq<Search>, ghost mean: Search -> real, ghost numTeams: nat, size: nat)
    returns (teams: seq<seq<Search>>)
    requires size > 0 && SortedBy(sorted, mean) && |sorted| == numTeams * size
    ensures |teams| == numTeams && FullTeams(teams, size) && IsDeal(teams, mean)
    ensures forall x :: Occurrences(FlattenTeams(teams), x) == Occurrences(sorted, x)
  {
    hide FlattenTeams, Occurrences, AllDealt, Dealt, FullTeams, SortedBy, IsDeal;
    var dealt := Distribute(sorted, size);
    DealtEvenly(sorted, dealt, numTeams, size);
    teams := dealt.value;
    SortedDeal(sorted, teams, mean, size);
  }

  lemma {:induction false} SortedDeal(sorted: seq<Search>, teams: seq<seq<Search>>, mean: Search -> real, size: nat)
    requires SortedBy(sorted, mean) && size > 0 && |teams| == |sorted| / size
    requires |sorted| >= size ==> AllDealt(teams, Dealt(sorted), |sorted| / size)
    ensures IsDeal(teams, mean)
  {
    CountPositive(|sorted|, size);
    hide AllDealt, Dealt, SortedBy;
  }

  /** Always an even number of teams, with fewer players left than two more would need. */
  function EvenTeams(players: nat, size: nat): (teams: nat)
    requires size > 0
    ensures teams % 2 == 0 && teams * size <= players && players - teams * size < 2 * size
  {
    var numGroups := players / (size * 2);
    assert players == numGroups * (size * 2) + players % (size * 2);
    assert numGroups * 2 * size == numGroups * (size * 2);
    numGroups * 2
  }

  /** The next teams from the sorted rest: two that are dealt out, or a single one. */
  method NextTeams(remaining: seq<Search>, size: nat) returns (teams: seq<seq<Search>>, rest: seq<Search>)
    requires 0 < size <= |remaining| && Distinct(remaining)
    ensures Split(remaining, teams, rest) && FullTeams(teams, size) && |rest| < |remaining|
    ensures OneTurn(teams, remaining, rest, size)
  {
    var selected := if |remaining| >= 2 * size then remaining[..2 * size] else remaining[..size];
    PrefixOccurs(remaining, |selected|);
    SelectionSplits(remaining, selected);
    rest := NotIn(remaining, selected);
    NotInPrefix(remaining, |selected|);
    if |remaining| >= 2 * size {
      var dealt := Distribute(selected, size);
      DealtEvenly(selected, dealt, 2, size);
      teams := dealt.value;
    } else {
      teams := [selected];
      FlattenOne(selected);
    }
  }

  lemma {:induction false} PrefixOccurs(searches: seq<Search>, n: nat)
    requires n <= |searches|
    ensures forall x :: Occurrences(searches[..n], x) <= Occurrences(searches, x)
  {
    forall x ensures Occurrences(searches[..n], x) <= Occurrences(searches, x) {
      OccurrencesConcat(searches[..n], searches[n..], x);
      assert searches == searches[..n] + searches[n..];
    }
  }

  /**
   * First teams within the buckets, each dealt out from a sorted list; then teams from the sorted rest of all buckets.
   */
  ghost predicate GroupedByRating(teams: seq<seq<Search>>, mean: Search -> real, size: nat)
    requires size > 0
  {
    exists within, sorted, across ::
      teams == within + across && Deals(within, mean) && SortedBy(sorted, mean) && DealtInOrder(across, sorted, size)
  }

  /**
   * Whatever is drawn at random, `n` players who queue alone make as many full teams as possible, and everybody is in
   * one team or left over.
   */
  method MakeTeamsFromSingle(searches: seq<Search>, mean: Search -> real, size: nat)
    returns (teams: seq<seq<Search>>, left: seq<Search>)
    requires size > 0 && Distinct(searches) && forall s | s in searches :: s.players == 1
    ensures Split(searches, teams, left) && FullTeams(teams, size)
    ensures |teams| == |searches| / size && |left| == |searches| % size
    ensures GroupedByRating(teams, mean, size)
  {
    var buckets := MakeBuckets(searches, mean);
    var within, remaining := TeamsWithinBuckets(searches, buckets, mean, size);
    var sorted := SortBy(remaining, mean);
    forall x ensures Occurrences(sorted, x) == Occurrences(remaining, x) { SortByOccurrences(remaining, mean, x); }
    assert Split(searches, within, sorted);
    SortBySorted(remaining, mean);
    hide Split, Distinct, Deals, SortedBy, SortBy, DealtInOrder, Occurrences, FlattenTeams, FullTeams;
    var across;
    across, left := TeamsAcrossBuckets(searches, within, sorted, size);
    teams := within + across;
    CountTeams(searches, teams, left, size);
  }

  /** Teams from the sorted rest, turn by turn. */
  method TeamsAcrossBuckets(ghost searches: seq<Search>, ghost within: seq<seq<Search>>, sorted: seq<Search>, size: nat)
    returns (across: seq<seq<Search>>, left: seq<Search>)
    requires size > 0 && Distinct(searches) && Split(searches, within, sorted) && FullTeams(within, size)
    ensures Split(searches, within + across, left) && FullTeams(within + across, size) && |left| < size
    ensures DealtInOrder(across, sorted, size)
  {
    hide Split, Distinct, DealtInOrder, MadeSoFar, OneTurn;
    across, left := [], sorted;
    NothingMade(sorted, size);
    assert within + across == within;
    while |left| >= size
      invariant Split(searches, within + across, left) && FullTeams(within + across, size)
      invariant MadeSoFar(across, sorted, left, size)
      decreases |left|
    {
      SplitRestDistinct(searches, within + across, left);
      var newTeams, rest := NextTeams(left, size);
      SplitNext(searches, within + across, left, newTeams, rest);
      MadeNext(across, sorted, left, size, newTeams, rest);
      assert within + across + newTeams == within + (across + newTeams);
      across, left := across + newTeams, rest;
    }
    AllMade(across, sorted, left, size);
  }

  method TeamsWithinBuckets(ghost searches: seq<Search>, buckets: seq<seq<Search>>, mean: Search -> real, size: nat)
    returns (teams: seq<seq<Search>>, remaining: seq<Search>)
    requires size > 0 && Distinct(searches)
    requires forall x :: Occurrences(FlattenTeams(buckets), x) == Occurrences(searches, x)
    ensures Split(searches, teams, remaining) && FullTeams(teams, size) && Deals(teams, mean)
  {
    teams, remaining := [], [];
    for i := 0 to |buckets|
      invariant Split(FlattenTeams(buckets[..i]), teams, remaining) && FullTeams(teams, size) && Deals(teams, mean)
    {
      BucketDistinct(searches, buckets, i);
      var newTeams, rest := TeamsOfBucket(buckets[i], mean, size);
      SplitBoth(buckets, i, teams, remaining, newTeams, rest);
      DealsConcat(teams, newTeams, mean);
      teams, remaining := teams + newTeams, remaining + rest;
    }
    assert buckets[..|buckets|] == buckets;
  }

  lemma {:induction false} BucketDistinct(searches: seq<Search>, buckets: seq<seq<Search>>, i: nat)
    requires i < |buckets| && Distinct(searches)
    requires forall x :: Occurrences(FlattenTeams(buckets), x) == Occurrences(searches, x)
    ensures Distinct(buckets[i])
  {
    forall x ensures Occurrences(buckets[i], x) <= 1 {
      assert buckets == buckets[..i] + ([buckets[i]] + buckets[i + 1..]);
      TeamsConcat(buckets[..i], [buckets[i]] + buckets[i + 1..], x);
      TeamsConcat([buckets[i]], buckets[i + 1..], x);
      FlattenOne(buckets[i]);
      DistinctOnce(searches, x);
    }
    OnceDistinct(buckets[i]);
  }

  lemma {:induction false} SplitBoth(buckets: seq<seq<Search>>, i: nat, teams: seq<seq<Search>>, remaining: seq<Search>,
      newTeams: seq<seq<Search>>, rest: seq<Search>)
    requires i < |buckets| && Split(FlattenTeams(buckets[..i]), teams, remaining) && Split(buckets[i], newTeams, rest)
    ensures Split(FlattenTeams(buckets[..i + 1]), teams + newTeams, remaining + rest)
  {
    assert buckets[..i + 1][..i] == buckets[..i];
    forall x ensures Occurrences(FlattenTeams(teams + newTeams), x) + Occurrences(remaining + rest, x)
        == Occurrences(FlattenTeams(buckets[..i + 1]), x) {
      TeamsConcat(teams, newTeams, x);
      OccurrencesConcat(remaining, rest, x);
      OccurrencesConcat(FlattenTeams(buckets[..i]), buckets[i], x);
    }
  }
}
