/** Map vetoes: how requested tokens are cut down to a pool's limits, and why enough maps always survive. */
module VetoSystem {
  import opened Lists
  import opened MapWeights

  type VetoesMap = map<MapId, int>
  type PlayerVetoes = map<int, VetoesMap>

  /** The veto settings of one map pool of a queue (a bracket). */
  datatype PoolConfig = PoolConfig(
    poolId: int,
    mapIds: seq<MapId>,
    tokensPerPlayer: int,
    maxPerMap: real,
    minimumMaps: real)

  datatype Queue = Queue(teamSize: nat, pools: seq<PoolConfig>)

  function Lookup(vetoes: VetoesMap, id: MapId): int {
    if id in vetoes then vetoes[id] else 0
  }

  function Bracket(vetoes: PlayerVetoes, poolId: int): VetoesMap {
    if poolId in vetoes then vetoes[poolId] else map[]
  }

  predicate IsValidConfig(teamSize: nat, config: PoolConfig) {
    var maps := |config.mapIds| as real;
    && config.minimumMaps <= maps
    && !(config.maxPerMap == 0.0 && config.minimumMaps == maps && config.tokensPerPlayer > 0)
    && (config.maxPerMap != 0.0 ==>
          (2 * teamSize) as real * (config.tokensPerPlayer as real / config.maxPerMap) <= maps - config.minimumMaps)
  }

  /** The settings the service stores: a pool with impossible settings gets no veto tokens at all. */
  function EffectiveConfig(teamSize: nat, config: PoolConfig): (effective: PoolConfig)
    ensures effective.poolId == config.poolId && effective.mapIds == config.mapIds
  {
    if IsValidConfig(teamSize, config) then config
    else config.(tokensPerPlayer := 0, maxPerMap := 1.0, minimumMaps := 1.0)
  }

  // ----- Cutting a selection down to the limits

  function CapTokens(tokens: int, remaining: int, maxPerMap: real): (applied: int)
    requires remaining >= 0
    ensures 0 <= applied <= remaining
  {
    var nonNegative := if tokens > 0 then tokens else 0;
    AtMost(if nonNegative < remaining then nonNegative else remaining, maxPerMap)
  }

  function AtMost(applied: nat, maxPerMap: real): (capped: nat)
    ensures capped <= applied
  {
    if maxPerMap > 0.0 && applied as real > maxPerMap then maxPerMap.Floor else applied
  }

  /** The cap is respected, and a request is granted in full exactly when it fits the cap and the budget. */
  lemma {:induction false} CapTokensGrants(tokens: int, remaining: int, maxPerMap: real)
    requires remaining >= 0
    ensures maxPerMap > 0.0 ==> CapTokens(tokens, remaining, maxPerMap) as real <= maxPerMap
    ensures CapTokens(tokens, remaining, maxPerMap) == tokens
       <==> 0 <= tokens <= remaining && (maxPerMap > 0.0 ==> tokens as real <= maxPerMap)
  {}

  /** The selection that is granted: maps are served in pool order until the budget is used up. */
  function AdjustBracket(vetoes: VetoesMap, ids: seq<MapId>, budget: int, maxPerMap: real): (result: VetoesMap)
    requires budget >= 0
    decreases |ids|
  {
    if ids == [] then map[]
    else
      var applied := CapTokens(Lookup(vetoes, ids[0]), budget, maxPerMap);
      var rest := AdjustBracket(vetoes, ids[1..], budget - applied, maxPerMap);
      if applied > 0 then rest[ids[0] := applied] else rest
  }

  lemma {:induction false} GrantsKnownMaps(vetoes: VetoesMap, ids: seq<MapId>, budget: int, maxPerMap: real)
    requires budget >= 0
    ensures var result := AdjustBracket(vetoes, ids, budget, maxPerMap);
            forall id | id in result :: id in ids && result[id] > 0
    decreases |ids|
  {
    if ids != [] {
      var applied := CapTokens(Lookup(vetoes, ids[0]), budget, maxPerMap);
      GrantsKnownMaps(vetoes, ids[1..], budget - applied, maxPerMap);
      assert ids[0] in ids && forall id | id in ids[1..] :: id in ids;
    }
  }

  lemma {:induction false} NeverNegative(vetoes: VetoesMap, ids: seq<MapId>, budget: int, maxPerMap: real, id: MapId)
    requires budget >= 0
    ensures Lookup(AdjustBracket(vetoes, ids, budget, maxPerMap), id) >= 0
  {
    GrantsKnownMaps(vetoes, ids, budget, maxPerMap);
  }

  lemma {:induction false} NotGranted(vetoes: VetoesMap, ids: seq<MapId>, budget: int, maxPerMap: real, id: MapId)
    requires budget >= 0 && id !in ids
    ensures id !in AdjustBracket(vetoes, ids, budget, maxPerMap)
  {
    GrantsKnownMaps(vetoes, ids, budget, maxPerMap);
  }

  /** The same computation with the dictionary filled in pool order, as the loop does it. */
  function Accumulate(granted: VetoesMap, vetoes: VetoesMap, ids: seq<MapId>, budget: int, maxPerMap: real): VetoesMap
    requires budget >= 0
    decreases |ids|
  {
    if ids == [] then granted
    else
      var applied := CapTokens(Lookup(vetoes, ids[0]), budget, maxPerMap);
      var next := if applied > 0 then granted[ids[0] := applied] else granted;
      Accumulate(next, vetoes, ids[1..], budget - applied, maxPerMap)
  }

  lemma {:induction false} AccumulateIsAdjust(granted: VetoesMap, vetoes: VetoesMap, ids: seq<MapId>, budget: int,
      maxPerMap: real)
    requires budget >= 0 && Distinct(ids)
    ensures Accumulate(granted, vetoes, ids, budget, maxPerMap)
      == granted + AdjustBracket(vetoes, ids, budget, maxPerMap)
    decreases |ids|
  {
    if ids == [] {
      assert granted + map[] == granted;
    } else {
      var applied := CapTokens(Lookup(vetoes, ids[0]), budget, maxPerMap);
      var granted' := if applied > 0 then granted[ids[0] := applied] else granted;
      AccumulateIsAdjust(granted', vetoes, ids[1..], budget - applied, maxPerMap);
      NotGranted(vetoes, ids[1..], budget - applied, maxPerMap, ids[0]);
      var rest := AdjustBracket(vetoes, ids[1..], budget - applied, maxPerMap);
      MergeUpdate(granted, rest, ids[0], applied);
      assert AdjustBracket(vetoes, ids, budget, maxPerMap) == if applied > 0 then rest[ids[0] := applied] else rest;
      assert Accumulate(granted, vetoes, ids, budget, maxPerMap) == granted' + rest;
    }
  }

  lemma {:induction false} MergeUpdate(first: VetoesMap, second: VetoesMap, id: MapId, tokens: int)
    requires id !in second
    ensures first[id := tokens] + second == first + second[id := tokens]
  {}

  method AdjustVetoesForBracket(vetoes: VetoesMap, ids: seq<MapId>, total: int, maxPerMap: real)
    returns (adjusted: VetoesMap)
    requires total >= 0 && Distinct(ids)
    ensures adjusted == AdjustBracket(vetoes, ids, total, maxPerMap)
  {
    adjusted := map[];
    var tokensSum := 0;
    for n := 0 to |ids|
      invariant 0 <= tokensSum <= total
      invariant Accumulate(adjusted, vetoes, ids[n..], total - tokensSum, maxPerMap)
             == Accumulate(map[], vetoes, ids, total, maxPerMap)
    {
      var applied := CapTokens(Lookup(vetoes, ids[n]), total - tokensSum, maxPerMap);
      assert ids[n..][1..] == ids[n + 1..];
      if applied > 0 {
        adjusted := adjusted[ids[n] := applied];
        tokensSum := tokensSum + applied;
      }
    }
    AccumulateIsAdjust(map[], vetoes, ids, total, maxPerMap);
  }

  function SumOver(vetoes: VetoesMap, ids: seq<MapId>): int
    decreases |ids|
  {
    if ids == [] then 0 else Lookup(vetoes, ids[0]) + SumOver(vetoes, ids[1..])
  }

  lemma {:induction false} SumOverCong(a: VetoesMap, b: VetoesMap, ids: seq<MapId>)
    requires forall id | id in ids :: Lookup(a, id) == Lookup(b, id)
    ensures SumOver(a, ids) == SumOver(b, ids)
    decreases |ids|
  {
    if ids != [] { SumOverCong(a, b, ids[1..]); }
  }

  ghost predicate FitsCap(tokens: int, maxPerMap: real) {
    maxPerMap > 0.0 ==> tokens as real <= maxPerMap
  }

  /** A selection the limits leave alone: known maps, positive counts, per-map cap and budget respected. */
  ghost predicate WithinLimits(vetoes: VetoesMap, ids: seq<MapId>, total: int, maxPerMap: real) {
    && (forall id | id in vetoes :: id in ids && vetoes[id] > 0 && FitsCap(vetoes[id], maxPerMap))
    && SumOver(vetoes, ids) <= total
  }

  /** Adjusting always lands within the limits. */
  lemma {:induction false} AdjustedWithinLimits(vetoes: VetoesMap, ids: seq<MapId>, total: int, maxPerMap: real)
    requires total >= 0 && Distinct(ids)
    ensures WithinLimits(AdjustBracket(vetoes, ids, total, maxPerMap), ids, total, maxPerMap)
    decreases |ids|
  {
    if ids != [] {
      var applied := CapTokens(Lookup(vetoes, ids[0]), total, maxPerMap);
      var rest := AdjustBracket(vetoes, ids[1..], total - applied, maxPerMap);
      CapTokensGrants(Lookup(vetoes, ids[0]), total, maxPerMap);
      AdjustedWithinLimits(vetoes, ids[1..], total - applied, maxPerMap);
      GrantsKnownMaps(vetoes, ids[1..], total - applied, maxPerMap);
      SumOverCong(rest, AdjustBracket(vetoes, ids, total, maxPerMap), ids[1..]);
    }
  }

  lemma {:induction false} SumNonNegative(vetoes: VetoesMap, ids: seq<MapId>)
    requires forall id | id in ids :: Lookup(vetoes, id) >= 0
    ensures SumOver(vetoes, ids) >= 0
    decreases |ids|
  {
    if ids != [] { SumNonNegative(vetoes, ids[1..]); }
  }

  /** Requests that fit the caps and the budget are granted in full. */
  lemma {:induction false} GrantedInFull(vetoes: VetoesMap, ids: seq<MapId>, total: int, maxPerMap: real)
    requires total >= 0 && Distinct(ids) && SumOver(vetoes, ids) <= total
    requires forall id | id in ids :: Lookup(vetoes, id) >= 0 && FitsCap(Lookup(vetoes, id), maxPerMap)
    ensures forall id | id in ids :: Lookup(AdjustBracket(vetoes, ids, total, maxPerMap), id) == Lookup(vetoes, id)
    decreases |ids|
  {
    if ids != [] {
      SumNonNegative(vetoes, ids[1..]);
      CapTokensGrants(Lookup(vetoes, ids[0]), total, maxPerMap);
      GrantedInFull(vetoes, ids[1..], total - Lookup(vetoes, ids[0]), maxPerMap);
      GrantsKnownMaps(vetoes, ids[1..], total - Lookup(vetoes, ids[0]), maxPerMap);
      assert ids == [ids[0]] + ids[1..];
    }
  }

  /** A selection is left alone exactly when it is within the limits. */
  lemma {:induction false} AdjustFixpoint(vetoes: VetoesMap, ids: seq<MapId>, total: int, maxPerMap: real)
    requires total >= 0 && Distinct(ids)
    ensures AdjustBracket(vetoes, ids, total, maxPerMap) == vetoes <==> WithinLimits(vetoes, ids, total, maxPerMap)
  {
    AdjustedWithinLimits(vetoes, ids, total, maxPerMap);
    if WithinLimits(vetoes, ids, total, maxPerMap) {
      GrantedInFull(vetoes, ids, total, maxPerMap);
      var result := AdjustBracket(vetoes, ids, total, maxPerMap);
      forall id
        ensures id in result <==> id in vetoes
        ensures id in result && id in vetoes ==> result[id] == vetoes[id]
      {
        if id in ids { assert Lookup(result, id) == Lookup(vetoes, id); }
      }
    }
  }

  /** Tokens are withheld only for a reason: the map is at its cap, or the whole budget is spent. */
  lemma {:induction false} WithheldForAReason(vetoes: VetoesMap, ids: seq<MapId>, total: int, maxPerMap: real,
      id: MapId)
    requires total >= 0 && Distinct(ids) && id in ids
    ensures var result := AdjustBracket(vetoes, ids, total, maxPerMap);
            Lookup(result, id) < Lookup(vetoes, id) ==>
              (maxPerMap > 0.0 && Lookup(result, id) == maxPerMap.Floor) || SumOver(result, ids) == total
    decreases |ids|
  {
    var applied := CapTokens(Lookup(vetoes, ids[0]), total, maxPerMap);
    var rest := AdjustBracket(vetoes, ids[1..], total - applied, maxPerMap);
    GrantsKnownMaps(vetoes, ids[1..], total - applied, maxPerMap);
    SumOverCong(rest, AdjustBracket(vetoes, ids, total, maxPerMap), ids[1..]);
    if id != ids[0] {
      WithheldForAReason(vetoes, ids[1..], total - applied, maxPerMap, id);
    } else if applied == total {
      SpentBudget(vetoes, ids[1..], maxPerMap);
    }
  }

  /** What the first map gets, and that the others share what is left. */
  lemma {:induction false} GrantFirst(vetoes: VetoesMap, ids: seq<MapId>, budget: int, maxPerMap: real)
    requires budget >= 0 && Distinct(ids) && ids != []
    ensures var result, applied :=
        AdjustBracket(vetoes, ids, budget, maxPerMap), CapTokens(Lookup(vetoes, ids[0]), budget, maxPerMap);
      && Lookup(result, ids[0]) == applied
      && forall id | id in ids[1..] ::
           Lookup(result, id) == Lookup(AdjustBracket(vetoes, ids[1..], budget - applied, maxPerMap), id)
  {
    var applied := CapTokens(Lookup(vetoes, ids[0]), budget, maxPerMap);
    NotGranted(vetoes, ids[1..], budget - applied, maxPerMap, ids[0]);
  }

  lemma {:induction false} GrantAt(vetoes: VetoesMap, ids: seq<MapId>, budget: int, maxPerMap: real, i: nat)
    requires budget >= 0 && Distinct(ids) && i < |ids|
    ensures var result := AdjustBracket(vetoes, ids, budget, maxPerMap);
            var left := budget - SumOver(result, ids[..i]);
            left >= 0 && Lookup(result, ids[i]) == CapTokens(Lookup(vetoes, ids[i]), left, maxPerMap)
    decreases i
  {
    hide AdjustBracket, CapTokens;
    GrantFirst(vetoes, ids, budget, maxPerMap);
    if i > 0 {
      var applied := CapTokens(Lookup(vetoes, ids[0]), budget, maxPerMap);
      var result, rest := AdjustBracket(vetoes, ids, budget, maxPerMap),
                          AdjustBracket(vetoes, ids[1..], budget - applied, maxPerMap);
      GrantAt(vetoes, ids[1..], budget - applied, maxPerMap, i - 1);
      assert ids[..i][1..] == ids[1..][..i - 1] && ids[1..][i - 1] == ids[i];
      forall id | id in ids[..i][1..] ensures id in ids[1..] {}
      hide Distinct, Lookup;
      SumOverCong(rest, result, ids[..i][1..]);
    }
  }

  /**
   * The maps are served in pool order: each one gets as many tokens as were requested for it, as the maps before it
   * have left of the budget, and as its cap allows.
   */
  lemma {:induction false} ServedInOrder(vetoes: VetoesMap, ids: seq<MapId>, budget: int, maxPerMap: real, i: nat)
    requires budget >= 0 && Distinct(ids) && i < |ids|
    ensures var result := AdjustBracket(vetoes, ids, budget, maxPerMap);
            var request, left, granted := Lookup(vetoes, ids[i]), budget - SumOver(result, ids[..i]),
              Lookup(result, ids[i]);
            && 0 <= granted <= left && (granted > 0 ==> granted <= request) && FitsCap(granted, maxPerMap)
            && forall k: nat | k <= request && k <= left && FitsCap(k, maxPerMap) :: k <= granted
  {
    GrantAt(vetoes, ids, budget, maxPerMap, i);
    hide AdjustBracket, SumOver;
  }

  lemma {:induction false} SpentBudget(vetoes: VetoesMap, ids: seq<MapId>, maxPerMap: real)
    ensures SumOver(AdjustBracket(vetoes, ids, 0, maxPerMap), ids) == 0
    ensures AdjustBracket(vetoes, ids, 0, maxPerMap) == map[]
    decreases |ids|
  {
    if ids != [] {
      SpentBudget(vetoes, ids[1..], maxPerMap);
    }
  }

  /** Settings the service's own assertion and the database's keys guarantee. */
  ghost predicate WellFormedPools(pools: seq<PoolConfig>) {
    && (forall i | 0 <= i < |pools| :: pools[i].tokensPerPlayer >= 0 && Distinct(pools[i].mapIds))
    && (forall i, j | 0 <= i < j < |pools| :: pools[i].poolId != pools[j].poolId)
  }

  function AdjustForPool(vetoes: PlayerVetoes, pool: PoolConfig): VetoesMap
    requires pool.tokensPerPlayer >= 0
  {
    AdjustBracket(Bracket(vetoes, pool.poolId), pool.mapIds, pool.tokensPerPlayer, pool.maxPerMap)
  }

  function AdjustAll(vetoes: PlayerVetoes, pools: seq<PoolConfig>): PlayerVetoes
    requires forall i | 0 <= i < |pools| :: pools[i].tokensPerPlayer >= 0
    decreases |pools|
  {
    if pools == [] then map[]
    else
      var pool := pools[|pools| - 1];
      var before := AdjustAll(vetoes, pools[..|pools| - 1]);
      var bracket := AdjustForPool(vetoes, pool);
      if bracket != map[] then before[pool.poolId := bracket] else before
  }

  method AdjustVetoes(vetoes: PlayerVetoes, pools: seq<PoolConfig>) returns (adjusted: PlayerVetoes)
    requires WellFormedPools(pools)
    ensures adjusted == AdjustAll(vetoes, pools)
  {
    adjusted := map[];
    for n := 0 to |pools|
      invariant adjusted == AdjustAll(vetoes, pools[..n])
    {
      var pool := pools[n];
      var bracketVetoes := AdjustVetoesForBracket(
        Bracket(vetoes, pool.poolId), pool.mapIds, pool.tokensPerPlayer, pool.maxPerMap);
      assert pools[..n + 1][..n] == pools[..n];
      if bracketVetoes != map[] {
        adjusted := adjusted[pool.poolId := bracketVetoes];
      }
    }
    assert pools[..|pools|] == pools;
  }

  ghost predicate IsPoolId(id: int, pools: seq<PoolConfig>) {
    exists i :: 0 <= i < |pools| && pools[i].poolId == id
  }

  /** Every pool's bracket is adjusted on its own, and nothing else is kept. */
  lemma {:induction false} AdjustAllBrackets(vetoes: PlayerVetoes, pools: seq<PoolConfig>)
    requires WellFormedPools(pools)
    ensures forall i | 0 <= i < |pools| ::
      Bracket(AdjustAll(vetoes, pools), pools[i].poolId) == AdjustForPool(vetoes, pools[i])
    ensures forall id | id in AdjustAll(vetoes, pools) :: AdjustAll(vetoes, pools)[id] != map[] && IsPoolId(id, pools)
    decreases |pools|
  {
    if pools != [] {
      var n := |pools| - 1;
      var before := AdjustAll(vetoes, pools[..n]);
      AdjustAllBrackets(vetoes, pools[..n]);
      forall id | id in before ensures IsPoolId(id, pools) && id != pools[n].poolId {
        var i :| 0 <= i < |pools[..n]| && pools[..n][i].poolId == id;
        assert pools[i].poolId == id;
      }
      forall i | 0 <= i < |pools|
        ensures Bracket(AdjustAll(vetoes, pools), pools[i].poolId) == AdjustForPool(vetoes, pools[i])
      {
        if i < n { assert pools[..n][i] == pools[i]; }
      }
    }
  }

  /** Vetoes that adjusting leaves alone. */
  ghost predicate IsAdjusted(vetoes: PlayerVetoes, pools: seq<PoolConfig>)
    requires WellFormedPools(pools)
  {
    AdjustAll(vetoes, pools) == vetoes
  }

  lemma {:induction false} BracketsAgree(a: PlayerVetoes, b: PlayerVetoes, pools: seq<PoolConfig>)
    requires forall id | id in a :: a[id] != map[] && IsPoolId(id, pools)
    requires forall id | id in b :: b[id] != map[] && IsPoolId(id, pools)
    requires forall i | 0 <= i < |pools| :: Bracket(a, pools[i].poolId) == Bracket(b, pools[i].poolId)
    ensures a == b
  {
    forall id | id in a || id in b
      ensures id in a && id in b && a[id] == b[id]
    {
      var i :| 0 <= i < |pools| && pools[i].poolId == id;
      assert Bracket(a, pools[i].poolId) == Bracket(b, pools[i].poolId);
    }
  }

  /** Adjusting twice changes nothing more. */
  lemma {:induction false} AdjustIdempotent(vetoes: PlayerVetoes, pools: seq<PoolConfig>)
    requires WellFormedPools(pools)
    ensures IsAdjusted(AdjustAll(vetoes, pools), pools)
  {
    var once := AdjustAll(vetoes, pools);
    AdjustAllBrackets(vetoes, pools);
    AdjustAllBrackets(once, pools);
    forall i | 0 <= i < |pools|
      ensures Bracket(AdjustAll(once, pools), pools[i].poolId) == Bracket(once, pools[i].poolId)
    {
      var pool := pools[i];
      AdjustedWithinLimits(Bracket(vetoes, pool.poolId), pool.mapIds, pool.tokensPerPlayer, pool.maxPerMap);
      AdjustFixpoint(AdjustForPool(vetoes, pool), pool.mapIds, pool.tokensPerPlayer, pool.maxPerMap);
    }
    BracketsAgree(AdjustAll(once, pools), once, pools);
  }
}
