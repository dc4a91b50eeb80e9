/** The veto service: it keeps every online player's selection adjusted to the current pools. */
module VetoServiceModule {
  import opened MapWeights
  import opened VetoSystem
  import opened VetoWeights

  type PlayerId = int

  predicate IsValidVetoes(vetoes: PlayerVetoes) {
    forall bracket | bracket in vetoes :: forall id | id in vetoes[bracket] :: vetoes[bracket][id] >= 0
  }

  // ----- Reading the configuration of all queues

  function QueueConfigs(queue: Queue, n: nat): (configs: seq<PoolConfig>)
    requires n <= |queue.pools|
  {
    if n == 0 then [] else QueueConfigs(queue, n - 1) + [EffectiveConfig(queue.teamSize, queue.pools[n - 1])]
  }

  function AllConfigs(queues: seq<Queue>, n: nat): seq<PoolConfig>
    requires n <= |queues|
    decreases n
  {
    if n == 0 then [] else AllConfigs(queues, n - 1) + QueueConfigs(queues[n - 1], |queues[n - 1].pools|)
  }

  method ExtractPoolsVetoConfig(queues: seq<Queue>) returns (result: seq<PoolConfig>)
    ensures result == AllConfigs(queues, |queues|)
  {
    result := [];
    for i := 0 to |queues|
      invariant result == AllConfigs(queues, i)
    {
      var queue := queues[i];
      for j := 0 to |queue.pools|
        invariant result == AllConfigs(queues, i) + QueueConfigs(queue, j)
      {
        result := result + [EffectiveConfig(queue.teamSize, queue.pools[j])];
      }
    }
  }

  lemma {:induction false} QueueConfigIn(queue: Queue, n: nat, j: nat)
    requires j < n <= |queue.pools|
    ensures EffectiveConfig(queue.teamSize, queue.pools[j]) in QueueConfigs(queue, n)
  {
    if j < n - 1 { QueueConfigIn(queue, n - 1, j); }
  }

  /** Every pool of every queue is covered by the extracted data. */
  lemma {:induction false} ConfigIn(queues: seq<Queue>, n: nat, i: nat, j: nat)
    requires i < n <= |queues| && j < |queues[i].pools|
    ensures EffectiveConfig(queues[i].teamSize, queues[i].pools[j]) in AllConfigs(queues, n)
    decreases n
  {
    if i < n - 1 { ConfigIn(queues, n - 1, i, j); } else { QueueConfigIn(queues[i], |queues[i].pools|, j); }
  }

  /** And it lists nothing else. */
  lemma {:induction false} ConfigOnly(queues: seq<Queue>, n: nat, config: PoolConfig)
    requires n <= |queues| && config in AllConfigs(queues, n)
    ensures exists i, j :: 0 <= i < n && 0 <= j < |queues[i].pools|
                           && config == EffectiveConfig(queues[i].teamSize, queues[i].pools[j])
    decreases n
  {
    if config in AllConfigs(queues, n - 1) {
      ConfigOnly(queues, n - 1, config);
    } else {
      var j := QueueConfigOnly(queues[n - 1], |queues[n - 1].pools|, config);
    }
  }

  lemma {:induction false} QueueConfigOnly(queue: Queue, n: nat, config: PoolConfig) returns (j: nat)
    requires n <= |queue.pools| && config in QueueConfigs(queue, n)
    ensures j < n && config == EffectiveConfig(queue.teamSize, queue.pools[j])
    decreases n
  {
    if config == EffectiveConfig(queue.teamSize, queue.pools[n - 1]) {
      j := n - 1;
    } else {
      j := QueueConfigOnly(queue, n - 1, config);
    }
  }

  /** The maps of the pool that a bracket id names. */
  function PoolMaps(pools: seq<PoolConfig>, bracket: int): seq<MapId>
    decreases |pools|
  {
    if pools == [] then []
    else if pools[0].poolId == bracket then pools[0].mapIds
    else PoolMaps(pools[1..], bracket)
  }

  /** Tokens on a map that is still in its pool were taken away. */
  predicate WasReduced(before: PlayerVetoes, after: PlayerVetoes, pools: seq<PoolConfig>) {
    exists bracket | bracket in before ::
      exists id | id in before[bracket] ::
        id in PoolMaps(pools, bracket) && before[bracket][id] > Lookup(Bracket(after, bracket), id)
  }

  lemma {:induction false} PoolMapsAt(pools: seq<PoolConfig>, bracket: int)
    requires forall i, j | 0 <= i < j < |pools| :: pools[i].poolId != pools[j].poolId
    ensures forall i | 0 <= i < |pools| && pools[i].poolId == bracket :: PoolMaps(pools, bracket) == pools[i].mapIds
    ensures (forall i | 0 <= i < |pools| :: pools[i].poolId != bracket) ==> PoolMaps(pools, bracket) == []
  {
    if pools != [] {
      PoolMapsAt(pools[1..], bracket);
      assert forall i | 1 <= i < |pools| :: pools[1..][i - 1] == pools[i];
    }
  }

  /** Tokens were taken away exactly if some map of some pool has fewer than were spent on it before. */
  lemma {:induction false} ReducedIff(before: PlayerVetoes, after: PlayerVetoes, pools: seq<PoolConfig>)
    requires WellFormedPools(pools)
    ensures WasReduced(before, after, pools) <==>
      exists i, id :: 0 <= i < |pools| && id in pools[i].mapIds && pools[i].poolId in before
                      && id in before[pools[i].poolId]
                      && before[pools[i].poolId][id] > Lookup(Bracket(after, pools[i].poolId), id)
  {
    if WasReduced(before, after, pools) {
      var bracket :| bracket in before && exists id | id in before[bracket] ::
        id in PoolMaps(pools, bracket) && before[bracket][id] > Lookup(Bracket(after, bracket), id);
      PoolMapsAt(pools, bracket);
    }
    if i, id :| 0 <= i < |pools| && id in pools[i].mapIds && pools[i].poolId in before
                && id in before[pools[i].poolId]
                && before[pools[i].poolId][id] > Lookup(Bracket(after, pools[i].poolId), id) {
      PoolMapsAt(pools, pools[i].poolId);
    }
  }

  class VetoService {
    var poolsVetoData: seq<PoolConfig>
    // The vetoes of each online player.
    var vetoes: map<PlayerId, PlayerVetoes>

    /** Whatever players ask for and however the pools change, every stored selection is adjusted. */
    ghost predicate Valid()
      reads this
    {
      && WellFormedPools(poolsVetoData)
      && forall player | player in vetoes :: IsAdjusted(vetoes[player], poolsVetoData)
    }

    constructor ()
      ensures Valid() && poolsVetoData == [] && vetoes == map[]
    {
      poolsVetoData, vetoes := [], map[];
    }

    /** A player who logs in has spent no tokens. */
    method Connect(player: PlayerId)
      requires Valid() && player !in vetoes
      modifies this`vetoes
      ensures Valid() && vetoes == old(vetoes)[player := map[]]
    {
      NoVetoesAdjusted(poolsVetoData);
      vetoes := vetoes[player := map[]];
    }

    method SetPlayerVetoes(player: PlayerId, newVetoes: PlayerVetoes) returns (ok: bool, notified: bool)
      requires Valid() && player in vetoes
      modifies this`vetoes
      ensures Valid()
      ensures ok <==> IsValidVetoes(newVetoes)
      ensures vetoes == if ok then old(vetoes)[player := AdjustAll(newVetoes, poolsVetoData)] else old(vetoes)
      ensures notified <==> ok && !IsAdjusted(newVetoes, poolsVetoData)
    {
      if !IsValidVetoes(newVetoes) {
        return false, false;
      }
      var adjusted := AdjustVetoes(newVetoes, poolsVetoData);
      AdjustIdempotent(newVetoes, poolsVetoData);
      if adjusted != vetoes[player] {
        vetoes := vetoes[player := adjusted];
      }
      assert vetoes == old(vetoes)[player := adjusted];
      return true, adjusted != newVetoes;
    }

    /** The loop body of the update below: re-adjusts one player and says whether tokens were taken away. */
    method ReadjustPlayer(player: PlayerId) returns (forced: bool)
      requires WellFormedPools(poolsVetoData) && player in vetoes
      modifies this`vetoes
      ensures vetoes == old(vetoes)[player := AdjustAll(old(vetoes[player]), poolsVetoData)]
      ensures forced == WasReduced(old(vetoes[player]), AdjustAll(old(vetoes[player]), poolsVetoData), poolsVetoData)
    {
      var adjusted := AdjustVetoes(vetoes[player], poolsVetoData);
      if adjusted == vetoes[player] {
        return false;
      }
      forced := WasReduced(vetoes[player], adjusted, poolsVetoData);
      vetoes := vetoes[player := adjusted];
    }

    method ReadjustAll(allPlayers: seq<PlayerId>) returns (affected: seq<PlayerId>)
      requires WellFormedPools(poolsVetoData) && forall player :: player in allPlayers <==> player in vetoes
      modifies this`vetoes
      ensures vetoes == Updated(old(vetoes), allPlayers, poolsVetoData, |allPlayers|)
      ensures affected == Affected(old(vetoes), allPlayers, poolsVetoData, |allPlayers|)
    {
      hide AdjustAll, WasReduced;
      affected := [];
      for i := 0 to |allPlayers|
        invariant vetoes == Updated(old(vetoes), allPlayers, poolsVetoData, i)
        invariant affected == Affected(old(vetoes), allPlayers, poolsVetoData, i)
      {
        UpdatedAt(old(vetoes), allPlayers, poolsVetoData, i, allPlayers[i]);
        var forced := ReadjustPlayer(allPlayers[i]);
        if forced {
          affected := affected + [allPlayers[i]];
        }
      }
    }

    /**
     * New pools: every selection is re-adjusted, and the players who lost tokens on a map that is still there are told.
     */
    method UpdatePoolsVetoConfig(queues: seq<Queue>, allPlayers: seq<PlayerId>) returns (affected: seq<PlayerId>)
      requires Valid() && WellFormedPools(AllConfigs(queues, |queues|))
      requires forall player :: player in allPlayers <==> player in vetoes
      modifies this
      ensures Valid() && poolsVetoData == AllConfigs(queues, |queues|)
      ensures vetoes.Keys == old(vetoes.Keys)
      ensures forall player | player in vetoes :: vetoes[player] == AdjustAll(old(vetoes[player]), poolsVetoData)
      ensures forall player :: player in affected <==>
        player in vetoes && WasReduced(old(vetoes[player]), vetoes[player], poolsVetoData)
    {
      var pools := ExtractPoolsVetoConfig(queues);
      if poolsVetoData == pools {
        return [];
      }
      poolsVetoData := pools;
      affected := ReadjustAll(allPlayers);
      UpdateOutcome(old(vetoes), allPlayers, pools);
    }

    function Selections(players: seq<PlayerId>): (selections: seq<PlayerVetoes>)
      requires forall i | 0 <= i < |players| :: players[i] in vetoes
      reads this
      ensures |selections| == |players| && forall i | 0 <= i < |players| :: selections[i] == vetoes[players[i]]
    {
      if players == [] then [] else Selections(players[..|players| - 1]) + [vetoes[players[|players| - 1]]]
    }

    /**
     * Map weights for a match between online players. Enough weight is left under every configuration that passes
     * validation, and any other configuration leaves every map at full weight.
     */
    method GenerateInitialWeightsForMatch(players: seq<PlayerId>, teamSize: nat, config: PoolConfig)
      returns (weights: map<MapId, real>, cap: real, cancelled: bool)
      requires Valid() && |players| == 2 * teamSize && forall i | 0 <= i < |players| :: players[i] in vetoes
      requires EffectiveConfig(teamSize, config) in poolsVetoData && config.tokensPerPlayer >= 0
      ensures cap != 0.0 && IsWeighting(weights, Selections(players), config, cap, cancelled)
      ensures config.maxPerMap != 0.0 ==> cap == config.maxPerMap
      ensures config.maxPerMap == 0.0 && config.minimumMaps > 0.0 && !cancelled ==>
        IsDynamicCapFor(TokenList(Selections(players), config.poolId, config.mapIds), config.minimumMaps, cap)
      ensures IsValidConfig(teamSize, config) ==> Total(weights, config.mapIds) >= config.minimumMaps
      ensures !IsValidConfig(teamSize, config) ==> forall id | id in weights :: weights[id] == 1.0
      ensures forall id | id in weights :: weights[id] >= 0.0
      ensures (forall id | id in weights :: weights[id] <= 1.0)
         <==> config.maxPerMap >= 0.0 || NothingSpent(Selections(players), config)
      ensures cancelled <==>
        config.maxPerMap == 0.0 && (|config.mapIds| == 0 || (|config.mapIds| as real) < config.minimumMaps)
    {
      assert forall player | player in vetoes :: IsAdjusted(vetoes[player], poolsVetoData);
      var selections := Selections(players);
      var effective := EffectiveConfig(teamSize, config);
      ghost var k :| 0 <= k < |poolsVetoData| && poolsVetoData[k] == effective;
      forall i | 0 <= i < |selections| ensures PlayerAdjusted(selections[i], effective) {
        assert players[i] in vetoes && IsAdjusted(vetoes[players[i]], poolsVetoData);
        AdjustedForPool(vetoes[players[i]], poolsVetoData, k);
      }
      weights, cap, cancelled := GenerateInitialWeights(selections, teamSize, config);
    }
  }

  // ----- The effect of an update on all players

  function Updated(vetoes: map<PlayerId, PlayerVetoes>, players: seq<PlayerId>, pools: seq<PoolConfig>, n: nat):
    map<PlayerId, PlayerVetoes>
    requires n <= |players| && WellFormedPools(pools)
    decreases n
  {
    if n == 0 then vetoes
    else
      var before, player := Updated(vetoes, players, pools, n - 1), players[n - 1];
      if player in before then before[player := AdjustAll(before[player], pools)] else before
  }

  function Affected(vetoes: map<PlayerId, PlayerVetoes>, players: seq<PlayerId>, pools: seq<PoolConfig>, n: nat):
    seq<PlayerId>
    requires n <= |players| && WellFormedPools(pools)
    decreases n
  {
    if n == 0 then []
    else
      var before, player := Updated(vetoes, players, pools, n - 1), players[n - 1];
      Affected(vetoes, players, pools, n - 1) +
      if player in before && WasReduced(before[player], AdjustAll(before[player], pools), pools) then [player] else []
  }

  lemma {:induction false} UpdatedAt(
      vetoes: map<PlayerId, PlayerVetoes>, players: seq<PlayerId>, pools: seq<PoolConfig>, n: nat, player: PlayerId)
    requires n <= |players| && WellFormedPools(pools)
    ensures player in Updated(vetoes, players, pools, n) <==> player in vetoes
    ensures player in vetoes ==>
      Updated(vetoes, players, pools, n)[player] ==
      (if player in players[..n] then AdjustAll(vetoes[player], pools) else vetoes[player])
    ensures player in Affected(vetoes, players, pools, n) <==>
      player in vetoes && player in players[..n] && WasReduced(vetoes[player], AdjustAll(vetoes[player], pools), pools)
    decreases n
  {
    if n > 0 {
      UpdatedAt(vetoes, players, pools, n - 1, player);
      assert players[..n] == players[..n - 1] + [players[n - 1]];
      if player in vetoes { AdjustIdempotent(vetoes[player], pools); }
    }
  }

  lemma {:induction false} AdjustedForPool(selection: PlayerVetoes, pools: seq<PoolConfig>, k: nat)
    requires WellFormedPools(pools) && k < |pools| && IsAdjusted(selection, pools)
    ensures PlayerAdjusted(selection, pools[k])
  {
    AdjustAllBrackets(selection, pools);
    assert AdjustForPool(selection, pools[k]) == Bracket(selection, pools[k].poolId);
  }

  lemma {:induction false} UpdateOutcome(vetoes: map<PlayerId, PlayerVetoes>, players: seq<PlayerId>,
      pools: seq<PoolConfig>)
    requires WellFormedPools(pools) && forall player :: player in players <==> player in vetoes
    ensures var after, affected := Updated(vetoes, players, pools, |players|),
      Affected(vetoes, players, pools, |players|);
      && after.Keys == vetoes.Keys
      && (forall player | player in after ::
            after[player] == AdjustAll(vetoes[player], pools) && IsAdjusted(after[player], pools))
      && (forall player :: player in affected <==> player in after && WasReduced(vetoes[player], after[player], pools))
  {
    var after, affected := Updated(vetoes, players, pools, |players|), Affected(vetoes, players, pools, |players|);
    forall player
      ensures player in after <==> player in vetoes
      ensures player in after ==> after[player] == AdjustAll(vetoes[player], pools) && IsAdjusted(after[player], pools)
      ensures player in affected <==> player in after && WasReduced(vetoes[player], after[player], pools)
    {
      UpdatedAt(vetoes, players, pools, |players|, player);
      if player in vetoes { AdjustIdempotent(vetoes[player], pools); }
    }
  }

  lemma {:induction false} NoVetoesAdjusted(pools: seq<PoolConfig>)
    requires forall i | 0 <= i < |pools| :: pools[i].tokensPerPlayer >= 0
    ensures AdjustAll(map[], pools) == map[]
    decreases |pools|
  {
    if pools != [] {
      NoVetoesAdjusted(pools[..|pools| - 1]);
      var pool := pools[|pools| - 1];
      NothingAsked(pool.mapIds, pool.tokensPerPlayer, pool.maxPerMap);
    }
  }

  lemma {:induction false} NothingAsked(ids: seq<MapId>, budget: nat, maxPerMap: real)
    ensures AdjustBracket(map[], ids, budget, maxPerMap) == map[]
    decreases |ids|
  {
    if ids != [] { NothingAsked(ids[1..], budget, maxPerMap); }
  }
}
