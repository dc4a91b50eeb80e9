/** From adjusted vetoes to map weights: enough maps survive in every match. */
module VetoWeights {
  import opened Lists
  import opened MapWeights
  import opened VetoTokens
  import opened VetoSystem

  /** Tokens all players of the match together spent on one map. */
  function TokensOn(players: seq<PlayerVetoes>, poolId: int, id: MapId): int
    decreases |players|
  {
    if players == [] then 0
    else
      var n := |players| - 1;
      TokensOn(players[..n], poolId, id) + Lookup(Bracket(players[n], poolId), id)
  }

  function TokenList(players: seq<PlayerVetoes>, poolId: int, ids: seq<MapId>): (tokens: seq<int>)
    decreases |ids|
  {
    if ids == [] then [] else [TokensOn(players, poolId, ids[0])] + TokenList(players, poolId, ids[1..])
  }

  /** Every player's selection for the pool has gone through the adjustment. */
  ghost predicate MatchAdjusted(players: seq<PlayerVetoes>, teamSize: nat, config: PoolConfig) {
    && |players| == 2 * teamSize
    && config.tokensPerPlayer >= 0 && Distinct(config.mapIds)
    && forall i | 0 <= i < |players| :: PlayerAdjusted(players[i], EffectiveConfig(teamSize, config))
  }

  ghost predicate PlayerAdjusted(player: PlayerVetoes, pool: PoolConfig)
    requires pool.tokensPerPlayer >= 0
  {
    AdjustForPool(player, pool) == Bracket(player, pool.poolId)
  }

  function TokenTotal(tokens: seq<int>): int {
    if tokens == [] then 0 else tokens[0] + TokenTotal(tokens[1..])
  }

  ghost predicate NonNegative(tokens: seq<int>) {
    forall i | 0 <= i < |tokens| :: tokens[i] >= 0
  }

  /** Adding up by map or by player gives the same total. */
  lemma {:induction false} TotalByPlayer(players: seq<PlayerVetoes>, poolId: int, ids: seq<MapId>)
    requires players != []
    ensures var n := |players| - 1;
            TokenTotal(TokenList(players, poolId, ids))
            == TokenTotal(TokenList(players[..n], poolId, ids)) + SumOver(Bracket(players[n], poolId), ids)
    decreases |ids|
  {
    if ids != [] {
      var n := |players| - 1;
      TotalByPlayer(players, poolId, ids[1..]);
      assert TokenList(players, poolId, ids)[1..] == TokenList(players, poolId, ids[1..]);
      assert TokenList(players[..n], poolId, ids)[1..] == TokenList(players[..n], poolId, ids[1..]);
    }
  }

  lemma {:induction false} NoPlayers(poolId: int, ids: seq<MapId>)
    ensures TokenTotal(TokenList([], poolId, ids)) == 0
    decreases |ids|
  {
    if ids != [] {
      NoPlayers(poolId, ids[1..]);
      assert TokenList([], poolId, ids)[1..] == TokenList([], poolId, ids[1..]);
    }
  }

  lemma {:induction false} TokenListShape(players: seq<PlayerVetoes>, poolId: int, ids: seq<MapId>)
    ensures |TokenList(players, poolId, ids)| == |ids|
    ensures forall i | 0 <= i < |ids| :: TokenList(players, poolId, ids)[i] == TokensOn(players, poolId, ids[i])
    decreases |ids|
  {
    if ids != [] { TokenListShape(players, poolId, ids[1..]); }
  }

  /** No more tokens are spent in a match than its players have between them. */
  lemma {:induction false} BudgetBound(players: seq<PlayerVetoes>, pool: PoolConfig)
    requires pool.tokensPerPlayer >= 0 && Distinct(pool.mapIds)
    requires forall i | 0 <= i < |players| :: PlayerAdjusted(players[i], pool)
    ensures TokenTotal(TokenList(players, pool.poolId, pool.mapIds)) <= |players| * pool.tokensPerPlayer
    decreases |players|
  {
    if players == [] {
      NoPlayers(pool.poolId, pool.mapIds);
    } else {
      var n := |players| - 1;
      assert PlayerAdjusted(players[n], pool);
      AdjustedWithinLimits(Bracket(players[n], pool.poolId), pool.mapIds, pool.tokensPerPlayer, pool.maxPerMap);
      TotalByPlayer(players, pool.poolId, pool.mapIds);
      BudgetBound(players[..n], pool);
      assert |players| * pool.tokensPerPlayer == n * pool.tokensPerPlayer + pool.tokensPerPlayer;
    }
  }

  lemma {:induction false} TokensNonNegative(players: seq<PlayerVetoes>, pool: PoolConfig, id: MapId)
    requires pool.tokensPerPlayer >= 0
    requires forall i | 0 <= i < |players| :: PlayerAdjusted(players[i], pool)
    ensures TokensOn(players, pool.poolId, id) >= 0
    decreases |players|
  {
    if players != [] {
      var n := |players| - 1;
      assert PlayerAdjusted(players[n], pool);
      NeverNegative(Bracket(players[n], pool.poolId), pool.mapIds, pool.tokensPerPlayer, pool.maxPerMap, id);
      TokensNonNegative(players[..n], pool, id);
    }
  }

  // ----- Lower bounds on the total weight

  /** However the tokens are spread, they remove at most `total / cap` maps' worth of weight. */
  lemma {:induction false} WeightLowerBound(tokens: seq<nat>, cap: real)
    requires cap != 0.0
    ensures TotalWeight(tokens, cap) >= |tokens| as real - TokenTotal(tokens) as real / cap
  {
    if tokens != [] {
      WeightLowerBound(tokens[1..], cap);
      DivAdd(tokens[0] as real, TokenTotal(tokens[1..]) as real, cap);
    }
  }

  lemma {:induction false} TotalNonNegative(tokens: seq<nat>)
    ensures TokenTotal(tokens) >= 0
    ensures TokenTotal(tokens) == 0 ==> forall v | v in tokens :: v == 0
  {
    if tokens != [] {
      TotalNonNegative(tokens[1..]);
      assert tokens == [tokens[0]] + tokens[1..];
    }
  }

  /** If fewer than all maps must survive, a large enough cap makes them survive. */
  lemma {:induction false} SomeCapReaches(tokens: seq<nat>, minimum: real) returns (cap: real)
    requires minimum < |tokens| as real
    ensures Reaches(tokens, minimum, cap)
  {
    TotalNonNegative(tokens);
    var d, total := |tokens| as real - minimum, TokenTotal(tokens) as real;
    cap := total / d + 1.0;
    if total > 0.0 { DivPositive(total, d); }
    Threshold(|tokens| as real, total, minimum, cap);
    WeightLowerBound(tokens, cap);
  }

  lemma {:induction false} AllZeros(tokens: seq<nat>)
    requires forall v | v in tokens :: v == 0
    ensures CountUpTo(tokens, 0) == |tokens|
  {
    if tokens != [] {
      assert tokens[0] in tokens && forall v | v in tokens[1..] :: v in tokens;
      AllZeros(tokens[1..]);
    }
  }

  /** The dynamic cap exists for every pool with enough maps, unless all of them must survive some vetoes. */
  lemma {:induction false} DynamicCapReaches(tokens: seq<nat>, minimum: real, cap: real)
    requires tokens != [] && minimum <= |tokens| as real
    requires minimum == |tokens| as real ==> TokenTotal(tokens) == 0
    requires minimum > 0.0 ==> IsDynamicCap(tokens, minimum, cap)
    requires minimum <= 0.0 ==> cap > 0.0
    ensures Reaches(tokens, minimum, cap)
  {
    TotalNonNegative(tokens);
    if minimum <= 0.0 {
      NonPositiveMinimum(tokens, minimum, cap);
    } else if ZerosSuffice(tokens, minimum) {
      ZerosReach(tokens, minimum, cap);
    } else if minimum == |tokens| as real {
      AllZeros(tokens);
    } else {
      var large := SomeCapReaches(tokens, minimum);
    }
  }

  /** A valid fixed cap: the players' budgets can remove only as many maps as the pool can spare. */
  lemma {:induction false} FixedCapReaches(teamSize: nat, tokens: seq<nat>, config: PoolConfig)
    requires config.maxPerMap > 0.0 && IsValidConfig(teamSize, config) && |tokens| == |config.mapIds|
    requires TokenTotal(tokens) <= 2 * teamSize * config.tokensPerPlayer
    ensures Reaches(tokens, config.minimumMaps, config.maxPerMap)
  {
    WeightLowerBound(tokens, config.maxPerMap);
    BudgetDivided(TokenTotal(tokens), 2 * teamSize, config.tokensPerPlayer, config.maxPerMap);
  }

  lemma {:induction false} BudgetDivided(total: int, players: nat, perPlayer: int, cap: real)
    requires cap > 0.0 && total <= players * perPlayer
    ensures total as real / cap <= players as real * (perPlayer as real / cap)
  {
    var quotient := perPlayer as real / cap;
    assert (players * perPlayer) as real == players as real * perPlayer as real;
    assert quotient * cap == perPlayer as real;
    assert players as real * quotient * cap == players as real * perPlayer as real;
    assert total as real / cap * cap == total as real;
    if total as real / cap > players as real * quotient {
      MulStrict(players as real * quotient, total as real / cap, cap);
    }
  }

  // ----- The weights of one match

  /** The weights are those that the given tokens leave under the cap. */
  ghost predicate WeightsOf(weights: map<MapId, real>, ids: seq<MapId>, tokens: seq<nat>, cap: real)
    requires cap != 0.0 && |tokens| == |ids|
  {
    forall i | 0 <= i < |ids| :: ids[i] in weights && weights[ids[i]] == Weight(tokens[i], cap)
  }

  lemma {:induction false} WeightsTotal(weights: map<MapId, real>, ids: seq<MapId>, tokens: seq<nat>, cap: real)
    requires cap != 0.0 && |tokens| == |ids| && WeightsOf(weights, ids, tokens, cap)
    ensures Total(weights, ids) == TotalWeight(tokens, cap)
    decreases |ids|
  {
    if ids != [] { WeightsTotal(weights, ids[1..], tokens[1..], cap); }
  }

  lemma {:induction false} WeightRange(tokens: int, cap: real)
    requires cap != 0.0
    ensures Weight(tokens, cap) >= 0.0
    ensures cap > 0.0 && tokens >= 0 ==> Weight(tokens, cap) <= 1.0
    ensures tokens == 0 ==> Weight(tokens, cap) == 1.0
  {
    if cap > 0.0 && tokens > 0 { DivPositive(tokens as real, cap); }
  }

  /** The tokens the players of a match hold, with everything the bounds below need to know about them. */
  lemma {:induction false} MatchTokens(players: seq<PlayerVetoes>, teamSize: nat, config: PoolConfig)
    returns (tokens: seq<nat>)
    requires MatchAdjusted(players, teamSize, config)
    ensures tokens == TokenList(players, config.poolId, config.mapIds) && |tokens| == |config.mapIds|
    ensures IsValidConfig(teamSize, config) ==> TokenTotal(tokens) <= 2 * teamSize * config.tokensPerPlayer
    ensures !IsValidConfig(teamSize, config) || config.tokensPerPlayer == 0 ==> TokenTotal(tokens) == 0
  {
    var ids, effective := config.mapIds, EffectiveConfig(teamSize, config);
    var list := TokenList(players, config.poolId, ids);
    TokenListShape(players, config.poolId, ids);
    forall i | 0 <= i < |list| ensures list[i] >= 0 { TokensNonNegative(players, effective, ids[i]); }
    BudgetBound(players, effective);
    tokens := list;
    TotalNonNegative(tokens);
  }

  /**
   * Enough weight is left for every valid configuration, in both modes; an invalid configuration vetoes nothing.
   */
  lemma {:induction false} FloorHolds(players: seq<PlayerVetoes>, teamSize: nat, config: PoolConfig, tokens: seq<nat>,
      cap: real)
    requires MatchAdjusted(players, teamSize, config) && cap != 0.0
    requires tokens == TokenList(players, config.poolId, config.mapIds) && |tokens| == |config.mapIds|
    requires config.maxPerMap != 0.0 ==> cap == config.maxPerMap
    requires config.maxPerMap == 0.0 && config.minimumMaps > 0.0 ==> IsDynamicCap(tokens, config.minimumMaps, cap)
    requires config.maxPerMap == 0.0 ==> cap > 0.0
    ensures IsValidConfig(teamSize, config) ==> TotalWeight(tokens, cap) >= config.minimumMaps
    ensures !IsValidConfig(teamSize, config) ==> forall v | v in tokens :: v == 0
  {
    var own := MatchTokens(players, teamSize, config);
    TotalNonNegative(tokens);
    if IsValidConfig(teamSize, config) {
      if config.maxPerMap > 0.0 {
        FixedCapReaches(teamSize, tokens, config);
      } else if config.maxPerMap < 0.0 {
        WeightLowerBound(tokens, cap);
        if TokenTotal(tokens) > 0 { DivNegative(TokenTotal(tokens) as real, cap); }
      } else if tokens != [] {
        DynamicCapReaches(tokens, config.minimumMaps, cap);
      }
    }
  }

  lemma {:induction false} DivNegative(x: real, y: real)
    requires x > 0.0 && y < 0.0
    ensures x / y < 0.0
  {}

  /** When no dynamic cap is found, and only then: the pool is empty or smaller than the minimum. */
  lemma {:induction false} ImpossibleSetup(players: seq<PlayerVetoes>, teamSize: nat, config: PoolConfig,
      tokens: seq<nat>, cap: real)
    requires MatchAdjusted(players, teamSize, config) && config.maxPerMap == 0.0
    requires tokens == TokenList(players, config.poolId, config.mapIds) && |tokens| == |config.mapIds|
    requires config.minimumMaps > 0.0 ==> IsDynamicCap(tokens, config.minimumMaps, cap)
    requires config.minimumMaps <= 0.0 ==> (cap == 0.0 <==> tokens == [])
    requires cap >= 0.0
    ensures cap == 0.0 <==> |config.mapIds| == 0 || (|config.mapIds| as real) < config.minimumMaps
  {
    var own := MatchTokens(players, teamSize, config);
    TotalNonNegative(tokens);
    if config.minimumMaps > 0.0 {
      if tokens != [] && config.minimumMaps <= |tokens| as real {
        DynamicCapReaches(tokens, config.minimumMaps, cap);
      } else {
        forall other | other > 0.0 ensures !Reaches(tokens, config.minimumMaps, other) {
          WeightUpperBound(tokens, other);
        }
        assert !ZerosSuffice(tokens, config.minimumMaps) by { CountBound(tokens, 0); }
      }
    }
  }

  lemma {:induction false} WeightUpperBound(tokens: seq<nat>, cap: real)
    requires cap > 0.0
    ensures TotalWeight(tokens, cap) <= |tokens| as real
  {
    if tokens != [] {
      WeightRange(tokens[0], cap);
      WeightUpperBound(tokens[1..], cap);
    }
  }

  lemma {:induction false} CountBound(tokens: seq<nat>, bound: int)
    ensures CountUpTo(tokens, bound) <= |tokens|
  {
    if tokens != [] { CountBound(tokens[1..], bound); }
  }

  method CollectVetoes(players: seq<PlayerVetoes>, poolId: int, ids: seq<MapId>) returns (vetoesMap: map<MapId, int>)
    requires Distinct(ids)
    ensures forall id :: id in vetoesMap <==> id in ids
    ensures forall id | id in ids :: vetoesMap[id] == TokensOn(players, poolId, id)
  {
    vetoesMap := map[];
    for n := 0 to |ids|
      invariant forall id :: id in vetoesMap <==> id in ids[..n]
      invariant forall id | id in ids[..n] :: vetoesMap[id] == TokensOn(players, poolId, id)
    {
      DistinctPrefix(ids, n);
      var sum := 0;
      for j := 0 to |players|
        invariant sum == TokensOn(players[..j], poolId, ids[n])
      {
        assert players[..j + 1][..j] == players[..j];
        sum := sum + Lookup(Bracket(players[j], poolId), ids[n]);
      }
      assert players[..|players|] == players;
      assert ids[..n + 1] == ids[..n] + [ids[n]];
      vetoesMap := vetoesMap[ids[n] := sum];
    }
    assert ids[..|ids|] == ids;
  }

  ghost predicate IsDynamicCapFor(tokens: seq<int>, minimum: real, cap: real) {
    NonNegative(tokens) && IsDynamicCap(tokens, minimum, cap)
  }

  /** The weight of each map: its own tokens against the cap, or full weight when all vetoes are cancelled. */
  ghost predicate IsWeighting(
      weights: map<MapId, real>, players: seq<PlayerVetoes>, config: PoolConfig, cap: real, cancelled: bool)
    requires cap != 0.0
  {
    && (forall id :: id in weights <==> id in config.mapIds)
    && (forall id | id in weights ::
          weights[id] == if cancelled then 1.0 else Weight(TokensOn(players, config.poolId, id), cap))
  }

  /** The players of the match hold no tokens on the maps of the pool. */
  ghost predicate NothingSpent(players: seq<PlayerVetoes>, config: PoolConfig) {
    forall id | id in config.mapIds :: TokensOn(players, config.poolId, id) == 0
  }

  /** A single weight exceeds 1 exactly under a negative cap with tokens on the map. */
  lemma {:induction false} WeightAtMostOne(v: nat, cap: real)
    requires cap != 0.0
    ensures Weight(v, cap) <= 1.0 <==> cap > 0.0 || v == 0
  {
    WeightRange(v, cap);
    if cap < 0.0 && v > 0 { DivNegative(v as real, cap); }
  }

  /** The exact condition for weights of at most 1; the configuration check does not rule out negative caps. */
  lemma {:induction false} AtMostOneIff(weights: map<MapId, real>, players: seq<PlayerVetoes>, teamSize: nat,
      config: PoolConfig, cap: real, cancelled: bool)
    requires MatchAdjusted(players, teamSize, config) && cap != 0.0
    requires IsWeighting(weights, players, config, cap, cancelled)
    requires if config.maxPerMap != 0.0 then cap == config.maxPerMap && !cancelled else cap > 0.0
    ensures (forall id | id in weights :: weights[id] <= 1.0)
      <==> config.maxPerMap >= 0.0 || NothingSpent(players, config)
  {
    hide Weight, MatchAdjusted;
    forall id | id in config.mapIds && !cancelled
      ensures weights[id] <= 1.0 <==> config.maxPerMap >= 0.0 || TokensOn(players, config.poolId, id) == 0
    {
      TokensAreNatural(players, teamSize, config, id);
      WeightAtMostOne(TokensOn(players, config.poolId, id), cap);
    }
  }

  lemma {:induction false} TokensAreNatural(players: seq<PlayerVetoes>, teamSize: nat, config: PoolConfig, id: MapId)
    requires MatchAdjusted(players, teamSize, config)
    ensures TokensOn(players, config.poolId, id) >= 0
  {
    TokensNonNegative(players, EffectiveConfig(teamSize, config), id);
  }

  /** A configuration that passes the check, selections that are left as they are, and a weight of 2. */
  lemma {:induction false} NegativeCapExceeds()
    ensures var config := PoolConfig(7, [1], 1, -1.0, 1.0);
      var players := [map[7 := map[1 := 1]], map[]];
      && IsValidConfig(1, config) && MatchAdjusted(players, 1, config) && !NothingSpent(players, config)
      && Weight(TokensOn(players, 7, 1), config.maxPerMap) == 2.0
  {
    var config := PoolConfig(7, [1], 1, -1.0, 1.0);
    var selection: VetoesMap := map[1 := 1];
    var first, second: PlayerVetoes := map[7 := selection], map[];
    var players := [first, second];
    assert TokensOn(players, 7, 1) == 1 by {
      assert players[..1] == [first] && [first][..0] == [];
      assert TokensOn([first], 7, 1) == TokensOn([], 7, 1) + Lookup(selection, 1);
    }
    assert [1][1..] == [];
    assert AdjustBracket(selection, [1], 1, -1.0) == selection && AdjustBracket(map[], [1], 1, -1.0) == map[];
    hide AdjustBracket, TokensOn;
    assert PlayerAdjusted(first, config) && PlayerAdjusted(second, config);
  }

  /** What follows from how the weights are computed. */
  lemma {:induction false} WeightingLaws(weights: map<MapId, real>, players: seq<PlayerVetoes>, teamSize: nat,
      config: PoolConfig, tokens: seq<nat>, cap: real, cancelled: bool)
    requires MatchAdjusted(players, teamSize, config) && cap != 0.0
    requires tokens == TokenList(players, config.poolId, config.mapIds) && |tokens| == |config.mapIds|
    requires IsWeighting(weights, players, config, cap, cancelled)
    requires if config.maxPerMap != 0.0 then cap == config.maxPerMap else cap > 0.0
    requires config.maxPerMap == 0.0 && config.minimumMaps > 0.0 && !cancelled ==>
      IsDynamicCap(tokens, config.minimumMaps, cap)
    requires cancelled ==>
      config.maxPerMap == 0.0 && (|config.mapIds| == 0 || (|config.mapIds| as real) < config.minimumMaps)
    ensures IsValidConfig(teamSize, config) ==> Total(weights, config.mapIds) >= config.minimumMaps
    ensures !IsValidConfig(teamSize, config) ==> forall id | id in weights :: weights[id] == 1.0
    ensures forall id | id in weights :: weights[id] >= 0.0
    ensures (forall id | id in weights :: weights[id] <= 1.0)
      <==> config.maxPerMap >= 0.0 || NothingSpent(players, config)
  {
    AtMostOneIff(weights, players, teamSize, config, cap, cancelled);
    TokenListShape(players, config.poolId, config.mapIds);
    hide MatchAdjusted, NothingSpent, TokensOn, TotalWeight, IsDynamicCap;
    var ids := config.mapIds;
    if cancelled {
      assert ids == [] ==> Total(weights, ids) == 0.0;
    } else {
      FloorHolds(players, teamSize, config, tokens, cap);
      forall i | 0 <= i < |ids| ensures weights[ids[i]] == Weight(tokens[i], cap) { assert ids[i] in ids; }
      WeightsTotal(weights, ids, tokens, cap);
    }
    hide IsValidConfig, Total;
    forall id | id in weights
      ensures weights[id] >= 0.0
      ensures !IsValidConfig(teamSize, config) ==> weights[id] == 1.0
    {
      var i :| 0 <= i < |ids| && ids[i] == id;
      WeightRange(if cancelled then 0 else tokens[i], cap);
      assert tokens[i] in tokens;
    }
  }

  method GenerateInitialWeights(players: seq<PlayerVetoes>, ghost teamSize: nat, config: PoolConfig)
    returns (weights: map<MapId, real>, cap: real, cancelled: bool)
    requires MatchAdjusted(players, teamSize, config)
    ensures cap != 0.0 && IsWeighting(weights, players, config, cap, cancelled)
    ensures config.maxPerMap != 0.0 ==> cap == config.maxPerMap
    ensures config.maxPerMap == 0.0 && config.minimumMaps > 0.0 && !cancelled ==>
      IsDynamicCapFor(TokenList(players, config.poolId, config.mapIds), config.minimumMaps, cap)
    ensures cancelled <==>
      config.maxPerMap == 0.0 && (|config.mapIds| == 0 || (|config.mapIds| as real) < config.minimumMaps)
    ensures IsValidConfig(teamSize, config) ==> Total(weights, config.mapIds) >= config.minimumMaps
    ensures !IsValidConfig(teamSize, config) ==> forall id | id in weights :: weights[id] == 1.0
    ensures forall id | id in weights :: weights[id] >= 0.0
    ensures (forall id | id in weights :: weights[id] <= 1.0)
      <==> config.maxPerMap >= 0.0 || NothingSpent(players, config)
  {
    hide TokensOn, Total, TotalWeight, IsDynamicCap, Distinct, NothingSpent, IsValidConfig;
    var ids := config.mapIds;
    var vetoesMap := CollectVetoes(players, config.poolId, ids);
    hide MatchAdjusted;
    ghost var tokens := MatchTokens(players, teamSize, config);
    TokenListShape(players, config.poolId, ids);
    cap, cancelled := config.maxPerMap, false;
    if cap == 0.0 {
      var values := seq(|ids|, i requires 0 <= i < |ids| => if ids[i] in vetoesMap then vetoesMap[ids[i]] else 0);
      assert values == tokens;
      cap := CalculateDynamicTokensPerMap(config.minimumMaps, values);
      ImpossibleSetup(players, teamSize, config, tokens, cap);
      if cap == 0.0 {
        cancelled, cap, vetoesMap := true, 1.0, map[];
      }
    }
    weights := map id | id in ids :: Weight(if id in vetoesMap then vetoesMap[id] else 0, cap);
    WeightingLaws(weights, players, teamSize, config, tokens, cap, cancelled);
  }
}
