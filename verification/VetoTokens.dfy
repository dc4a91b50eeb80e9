/** The dynamic cap on veto tokens per map: the smallest T for which enough maps survive. */
module VetoTokens {
  import opened Options

  /** The weight a map keeps when `tokens` veto tokens are spent on it and `cap` tokens remove it entirely. */
  function Weight(tokens: int, cap: real): (w: real)
    requires cap != 0.0
  {
    var w := 1.0 - tokens as real / cap;
    if w < 0.0 then 0.0 else w
  }

  function TotalWeight(tokens: seq<nat>, cap: real): real
    requires cap != 0.0
  {
    if tokens == [] then 0.0 else Weight(tokens[0], cap) + TotalWeight(tokens[1..], cap)
  }

  /** With a cap of `cap` tokens per map at least `minimum` maps' worth of weight is left. */
  ghost predicate Reaches(tokens: seq<nat>, minimum: real, cap: real) {
    cap > 0.0 && TotalWeight(tokens, cap) >= minimum
  }

  ghost predicate SmallestReaching(tokens: seq<nat>, minimum: real, cap: real) {
    Reaches(tokens, minimum, cap) && forall other | 0.0 < other < cap :: !Reaches(tokens, minimum, other)
  }

  /** How many entries are at most `bound`, and what they add up to. */
  function CountUpTo(tokens: seq<nat>, bound: int): nat {
    if tokens == [] then 0 else (if tokens[0] <= bound then 1 else 0) + CountUpTo(tokens[1..], bound)
  }

  function SumUpTo(tokens: seq<nat>, bound: int): nat {
    if tokens == [] then 0 else (if tokens[0] <= bound then tokens[0] else 0) + SumUpTo(tokens[1..], bound)
  }

  /** The zero-token maps alone reach the minimum: every positive cap does, so there is no smallest one. */
  predicate ZerosSuffice(tokens: seq<nat>, minimum: real) {
    CountUpTo(tokens, 0) > 0 && CountUpTo(tokens, 0) as real >= minimum
  }

  /** What the calculation promises for a positive minimum. */
  ghost predicate IsDynamicCap(tokens: seq<nat>, minimum: real, cap: real) {
    if ZerosSuffice(tokens, minimum) then cap == 1.0
    else SmallestReaching(tokens, minimum, cap) || (cap == 0.0 && forall other :: !Reaches(tokens, minimum, other))
  }

  // ----- The shape of the total weight between two neighbouring token counts

  lemma {:induction false} TotalBetween(tokens: seq<nat>, lower: nat, cap: real)
    requires cap > 0.0 && lower as real <= cap
    requires forall v | v in tokens :: v <= lower || cap <= v as real
    ensures TotalWeight(tokens, cap) == CountUpTo(tokens, lower) as real - SumUpTo(tokens, lower) as real / cap
  {
    if tokens != [] {
      assert tokens[0] in tokens && forall x | x in tokens[1..] :: x in tokens;
      TotalBetween(tokens[1..], lower, cap);
      OneWeight(tokens[0], SumUpTo(tokens[1..], lower), lower, cap);
    }
  }

  lemma {:induction false} OneWeight(v: nat, rest: nat, lower: nat, cap: real)
    requires cap > 0.0 && lower as real <= cap && (v <= lower || cap <= v as real)
    ensures v <= lower ==> Weight(v, cap) - rest as real / cap == 1.0 - (v + rest) as real / cap
    ensures v > lower ==> Weight(v, cap) == 0.0
  {
    if v <= lower {
      DivAtMostOne(v as real, cap);
      DivAdd(v as real, rest as real, cap);
    } else {
      DivAtLeastOne(v as real, cap);
    }
  }

  lemma {:induction false} DivAdd(x: real, y: real, z: real)
    requires z != 0.0
    ensures x / z + y / z == (x + y) / z
  {}

  lemma {:induction false} DivAtMostOne(x: real, y: real)
    requires x <= y && y > 0.0
    ensures x / y <= 1.0
  {}

  lemma {:induction false} DivAtLeastOne(x: real, y: real)
    requires x >= y > 0.0
    ensures x / y >= 1.0
  {}

  /** For positive sums, `count - sum / cap` reaches `minimum` exactly from `sum / (count - minimum)` on. */
  lemma {:induction false} Threshold(count: real, sum: real, minimum: real, cap: real)
    requires cap > 0.0 && count > minimum
    ensures count - sum / cap >= minimum <==> cap >= sum / (count - minimum)
  {
    var d := count - minimum;
    QuotientAtMost(sum, cap, d);
    QuotientAtMost(sum, d, cap);
    assert d * cap == cap * d;
  }

  lemma {:induction false} QuotientAtMost(x: real, y: real, z: real)
    requires y > 0.0
    ensures x / y <= z <==> x <= z * y
  {
    FactorOrder(x / y, z, x, y);
  }

  lemma {:induction false} FactorOrder(q: real, z: real, x: real, y: real)
    requires y > 0.0 && q * y == x
    ensures q <= z <==> x <= z * y
  {
    if q <= z { MulMono(q, z, y); } else { MulStrict(z, q, y); }
  }

  lemma {:induction false} MulMono(x: real, y: real, z: real)
    requires x <= y && z >= 0.0
    ensures x * z <= y * z
  {}

  lemma {:induction false} MulStrict(x: real, y: real, z: real)
    requires x < y && z > 0.0
    ensures x * z < y * z
  {}

  // ----- Counting by groups

  /** How many maps carry exactly `token` tokens (the counter's entry for that value). */
  function GroupSize(tokens: seq<nat>, token: nat): nat {
    if tokens == [] then 0 else (if tokens[0] == token then 1 else 0) + GroupSize(tokens[1..], token)
  }

  /** Moving the bound from one token value to the next one present adds exactly that value's group. */
  lemma {:induction false} NextGroup(tokens: seq<nat>, before: int, token: nat)
    requires before < token && forall v | v in tokens :: v <= before || token <= v
    ensures CountUpTo(tokens, token) == CountUpTo(tokens, before) + GroupSize(tokens, token)
    ensures SumUpTo(tokens, token) == SumUpTo(tokens, before) + token * GroupSize(tokens, token)
  {
    if tokens != [] {
      assert tokens[0] in tokens && forall v | v in tokens[1..] :: v in tokens;
      NextGroup(tokens[1..], before, token);
      TimesSuccessor(token, GroupSize(tokens[1..], token));
    }
  }

  lemma {:induction false} TimesSuccessor(x: nat, n: nat)
    ensures x * (1 + n) == x + x * n
  {}

  lemma {:induction false} GroupNonEmpty(tokens: seq<nat>, token: nat)
    requires token in tokens
    ensures GroupSize(tokens, token) > 0
  {
    if tokens[0] != token { GroupNonEmpty(tokens[1..], token); }
  }

  lemma {:induction false} NothingBelow(tokens: seq<nat>, bound: int)
    requires forall v | v in tokens :: v > bound
    ensures CountUpTo(tokens, bound) == 0 && SumUpTo(tokens, bound) == 0
  {
    if tokens != [] {
      assert tokens[0] in tokens && forall v | v in tokens[1..] :: v in tokens;
      NothingBelow(tokens[1..], bound);
    }
  }

  /** A zero sum means that all the counted maps are free of tokens. */
  lemma {:induction false} ZeroSum(tokens: seq<nat>, bound: nat)
    requires SumUpTo(tokens, bound) == 0
    ensures CountUpTo(tokens, bound) == CountUpTo(tokens, 0)
  {
    if tokens != [] { ZeroSum(tokens[1..], bound); }
  }

  predicate StrictlySorted(keys: seq<nat>) {
    forall i, j | 0 <= i < j < |keys| :: keys[i] < keys[j]
  }

  /** The distinct token values in ascending order, by insertion. */
  method SortedKeys(tokens: seq<nat>) returns (keys: seq<nat>)
    ensures KeysOf(keys, tokens)
  {
    keys := [];
    for i := 0 to |tokens|
      invariant StrictlySorted(keys)
      invariant forall v :: v in keys <==> v in tokens[..i]
    {
      assert tokens[..i + 1] == tokens[..i] + [tokens[i]];
      var at := 0;
      while at < |keys| && keys[at] < tokens[i]
        invariant 0 <= at <= |keys| && forall k | 0 <= k < at :: keys[k] < tokens[i]
      {
        at := at + 1;
      }
      if at == |keys| || keys[at] != tokens[i] {
        keys := keys[..at] + [tokens[i]] + keys[at..];
      }
    }
    assert tokens[..|tokens|] == tokens;
  }

  /** The test made after each group: a returned cap is the answer, None means to go on. */
  function CalculateSolution(tokensSum: real, mapCount: real, minimum: real, upperBound: Option<real>): Option<real> {
    if tokensSum == 0.0 && mapCount >= minimum then Some(1.0)
    else if mapCount > minimum then
      var candidate := tokensSum / (mapCount - minimum);
      if upperBound.None? || candidate <= upperBound.value then Some(candidate) else None
    else None
  }

  /** No cap up to `bound` reaches the minimum (`None` is no bound at all). */
  ghost predicate NoneUpTo(tokens: seq<nat>, minimum: real, bound: Option<real>) {
    forall cap | cap > 0.0 && (bound.Some? ==> cap <= bound.value) :: !Reaches(tokens, minimum, cap)
  }

  /**
   * One group of the loop: the answer is right when it is given, and when it is not no cap up to the next token works.
   */
  lemma {:induction false} OneGroup(tokens: seq<nat>, minimum: real, token: nat, upper: Option<real>)
    requires token in tokens
    requires minimum > 0.0 ==> NoneUpTo(tokens, minimum, Some(token as real))
    requires InGap(tokens, token, upper)
    requires CountUpTo(tokens, token) > 0
    ensures var r :=
        CalculateSolution(SumUpTo(tokens, token) as real, CountUpTo(tokens, token) as real, minimum, upper);
            && (r.Some? ==> r.value > 0.0)
            && (r.Some? && minimum > 0.0 ==> IsDynamicCap(tokens, minimum, r.value))
            && (r.None? && minimum > 0.0 ==> NoneUpTo(tokens, minimum, upper))
            && (r.None? && upper.None? ==> minimum > 0.0)
  {
    var sum, count := SumUpTo(tokens, token), CountUpTo(tokens, token);
    var r := CalculateSolution(sum as real, count as real, minimum, upper);
    if minimum > 0.0 {
      GroupAnswer(tokens, minimum, token, upper, sum, count, r);
    }
    if sum as real != 0.0 && count as real > minimum {
      DivPositive(sum as real, count as real - minimum);
    }
  }

  lemma {:induction false} DivPositive(x: real, y: real)
    requires x > 0.0 && y > 0.0
    ensures x / y > 0.0
  {}

  lemma {:induction false} GroupAnswer(tokens: seq<nat>, minimum: real, token: nat, upper: Option<real>, sum: nat,
      count: nat, r: Option<real>)
    requires minimum > 0.0 && token in tokens && count > 0
    requires NoneUpTo(tokens, minimum, Some(token as real))
    requires InGap(tokens, token, upper)
    requires sum == SumUpTo(tokens, token) && count == CountUpTo(tokens, token)
    requires r == CalculateSolution(sum as real, count as real, minimum, upper)
    ensures r.Some? ==> IsDynamicCap(tokens, minimum, r.value)
    ensures r.None? ==> NoneUpTo(tokens, minimum, upper)
  {
    if sum == 0 && count as real >= minimum {
      ZeroSum(tokens, token);
    } else {
      NotYetZeros(tokens, minimum, token, sum, count);
      if count as real > minimum {
        var candidate := Candidate(sum, count, minimum);
        CandidateAbove(tokens, minimum, token, upper, sum, count);
        forall cap | cap > token as real && Below(cap, upper)
          ensures Reaches(tokens, minimum, cap) <==> cap >= candidate
        {
          ReachesFromCandidate(tokens, minimum, token, upper, cap, sum, count);
        }
        if Below(candidate, upper) {
          ReachesFromCandidate(tokens, minimum, token, upper, candidate, sum, count);
        }
      } else {
        forall cap | cap > token as real && Below(cap, upper) ensures !Reaches(tokens, minimum, cap) {
          TooFewMaps(tokens, minimum, token, upper, cap, sum, count);
        }
      }
    }
  }

  /** Every token value lies at or below `token`, or from `upper` on. */
  ghost predicate InGap(tokens: seq<nat>, token: nat, upper: Option<real>) {
    (upper.Some? ==> token as real < upper.value) &&
    forall v | v in tokens :: v <= token || (upper.Some? && upper.value <= v as real)
  }

  predicate Below(cap: real, upper: Option<real>) {
    upper.None? || cap <= upper.value
  }

  function Candidate(sum: nat, count: nat, minimum: real): real
    requires count as real > minimum
  {
    sum as real / (count as real - minimum)
  }

  lemma {:induction false} ReachesFromCandidate(
      tokens: seq<nat>, minimum: real, token: nat, upper: Option<real>, cap: real, sum: nat, count: nat)
    requires InGap(tokens, token, upper) && cap > 0.0 && cap >= token as real && Below(cap, upper)
    requires sum == SumUpTo(tokens, token) && count == CountUpTo(tokens, token) && count as real > minimum
    ensures Reaches(tokens, minimum, cap) <==> cap >= Candidate(sum, count, minimum)
  {
    TotalBetween(tokens, token, cap);
    Threshold(count as real, sum as real, minimum, cap);
  }

  /** A candidate below the current token value would mean that `token` itself reaches the minimum. */
  lemma {:induction false} CandidateAbove(tokens: seq<nat>, minimum: real, token: nat, upper: Option<real>, sum: nat,
      count: nat)
    requires NoneUpTo(tokens, minimum, Some(token as real)) && InGap(tokens, token, upper)
    requires sum == SumUpTo(tokens, token) && count == CountUpTo(tokens, token)
    requires count as real > minimum && sum > 0
    ensures Candidate(sum, count, minimum) > token as real
    ensures Candidate(sum, count, minimum) > 0.0
  {
    DivPositive(sum as real, count as real - minimum);
    if token > 0 {
      ReachesFromCandidate(tokens, minimum, token, upper, token as real, sum, count);
    }
  }

  lemma {:induction false} TooFewMaps(tokens: seq<nat>, minimum: real, token: nat, upper: Option<real>, cap: real,
      sum: nat, count: nat)
    requires InGap(tokens, token, upper) && cap > token as real && Below(cap, upper)
    requires sum == SumUpTo(tokens, token) && count == CountUpTo(tokens, token)
    requires count as real <= minimum && (sum > 0 || (count as real) < minimum)
    ensures !Reaches(tokens, minimum, cap)
  {
    TotalBetween(tokens, token, cap);
    if sum > 0 { DivPositive(sum as real, cap); }
  }

  /** While the running sum test fails, the token-free maps are not enough. */
  lemma {:induction false} NotYetZeros(tokens: seq<nat>, minimum: real, token: nat, sum: nat, count: nat)
    requires minimum > 0.0 && token in tokens
    requires NoneUpTo(tokens, minimum, Some(token as real))
    requires sum == SumUpTo(tokens, token) && count == CountUpTo(tokens, token)
    requires !(sum == 0 && count as real >= minimum)
    ensures !ZerosSuffice(tokens, minimum)
    ensures count as real > minimum ==> sum > 0
  {
    if ZerosSuffice(tokens, minimum) {
      ZerosReach(tokens, minimum, if token == 0 then 1.0 else token as real);
      if token == 0 { SumOfZeros(tokens); }
      assert false;
    }
  }

  lemma {:induction false} SumOfZeros(tokens: seq<nat>)
    ensures SumUpTo(tokens, 0) == 0
  {
    if tokens != [] { SumOfZeros(tokens[1..]); }
  }

  lemma {:induction false} ZerosWeigh(tokens: seq<nat>, cap: real)
    requires cap > 0.0
    ensures TotalWeight(tokens, cap) >= CountUpTo(tokens, 0) as real
  {
    if tokens != [] { ZerosWeigh(tokens[1..], cap); }
  }

  /** Why no smallest cap exists when the token-free maps suffice: every positive cap reaches the minimum. */
  lemma {:induction false} ZerosReach(tokens: seq<nat>, minimum: real, cap: real)
    requires ZerosSuffice(tokens, minimum) && cap > 0.0
    ensures Reaches(tokens, minimum, cap)
  {
    ZerosWeigh(tokens, cap);
  }

  /** A minimum of zero or less is reached by every positive cap, so "the smallest" has no meaning there. */
  lemma {:induction false} NonPositiveMinimum(tokens: seq<nat>, minimum: real, cap: real)
    requires minimum <= 0.0 && cap > 0.0
    ensures Reaches(tokens, minimum, cap)
  {
    ZerosWeigh(tokens, cap);
  }

  /** The promise determines the answer. */
  lemma {:induction false} DynamicCapUnique(tokens: seq<nat>, minimum: real, a: real, b: real)
    requires minimum > 0.0 && IsDynamicCap(tokens, minimum, a) && IsDynamicCap(tokens, minimum, b)
    ensures a == b
  {
    if !ZerosSuffice(tokens, minimum) {
      assert Reaches(tokens, minimum, a) <==> a != 0.0;
      assert Reaches(tokens, minimum, b) <==> b != 0.0;
    }
  }

  /** The last group already counted before position `i`, and the token value found there. */
  function LastCounted(keys: seq<nat>, i: nat): int
    requires i <= |keys|
  {
    if i == 0 then -1 else keys[i - 1]
  }

  function TokenAt(keys: seq<nat>, i: nat): Option<real> {
    if i < |keys| then Some(keys[i] as real) else None
  }

  ghost predicate KeysOf(keys: seq<nat>, tokens: seq<nat>) {
    StrictlySorted(keys) && forall v :: v in keys <==> v in tokens
  }

  /** Caps up to the least token value leave nothing of any map. */
  lemma {:induction false} BelowFirst(tokens: seq<nat>, keys: seq<nat>, minimum: real)
    requires KeysOf(keys, tokens)
    ensures minimum > 0.0 ==> NoneUpTo(tokens, minimum, TokenAt(keys, 0))
    ensures keys == [] <==> tokens == []
  {
    assert tokens != [] ==> tokens[0] in keys;
    assert keys != [] ==> keys[0] in tokens;
    if keys != [] && keys[0] > 0 {
      NothingBelow(tokens, 0);
      forall cap | 0.0 < cap <= keys[0] as real ensures TotalWeight(tokens, cap) == 0.0 {
        TotalBetween(tokens, 0, cap);
      }
    }
  }

  lemma {:induction false} GroupAt(tokens: seq<nat>, keys: seq<nat>, i: nat)
    requires KeysOf(keys, tokens) && i < |keys|
    ensures CountUpTo(tokens, keys[i]) == CountUpTo(tokens, LastCounted(keys, i)) + GroupSize(tokens, keys[i])
    ensures SumUpTo(tokens, keys[i]) == SumUpTo(tokens, LastCounted(keys, i)) + keys[i] * GroupSize(tokens, keys[i])
    ensures CountUpTo(tokens, keys[i]) > 0
    ensures InGap(tokens, keys[i], TokenAt(keys, i + 1))
  {
    assert keys[i] in tokens;
    GroupNonEmpty(tokens, keys[i]);
    forall v | v in tokens
      ensures v <= LastCounted(keys, i) || keys[i] <= v
      ensures v <= keys[i] || (i + 1 < |keys| && keys[i + 1] <= v)
    {
      var k :| 0 <= k < |keys| && keys[k] == v;
    }
    NextGroup(tokens, LastCounted(keys, i), keys[i]);
  }

  method CalculateDynamicTokensPerMap(minimum: real, tokens: seq<nat>) returns (cap: real)
    ensures minimum > 0.0 ==> IsDynamicCap(tokens, minimum, cap)
    ensures cap >= 0.0
    ensures minimum <= 0.0 ==> (cap == 0.0 <==> tokens == [])
  {
    var sortedTokens := SortedKeys(tokens);
    var count, sum := 0, 0;
    NothingBelow(tokens, -1);
    BelowFirst(tokens, sortedTokens, minimum);
    var i := 0;
    while i < |sortedTokens|
      invariant 0 <= i <= |sortedTokens|
      invariant count == CountUpTo(tokens, LastCounted(sortedTokens, i))
      invariant sum == SumUpTo(tokens, LastCounted(sortedTokens, i))
      invariant minimum > 0.0 ==> NoneUpTo(tokens, minimum, TokenAt(sortedTokens, i))
      invariant 0 < i == |sortedTokens| ==> minimum > 0.0
    {
      GroupAt(tokens, sortedTokens, i);
      var token := sortedTokens[i];
      var groupSize := GroupSize(tokens, token);
      count := count + groupSize;
      sum := sum + token * groupSize;
      var upper := TokenAt(sortedTokens, i + 1);
      OneGroup(tokens, minimum, token, upper);
      var solution := CalculateSolution(sum as real, count as real, minimum, upper);
      if solution.Some? {
        return solution.value;
      }
      i := i + 1;
    }
    assert !(minimum > 0.0 && ZerosSuffice(tokens, minimum)) by {
      if minimum > 0.0 && ZerosSuffice(tokens, minimum) { ZerosReach(tokens, minimum, 1.0); }
    }
    cap := 0.0;
  }
}
