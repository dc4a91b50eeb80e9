/** What the check of a pool's veto settings is for: it lets through exactly the settings that keep their promise. */
module VetoConfigs {
  import opened VetoTokens
  import opened VetoSystem
  import opened VetoWeights

  /** One way to spend tokens on the maps of a pool, within the budgets of all players of a match. */
  ghost predicate Affordable(tokens: seq<nat>, teamSize: nat, config: PoolConfig) {
    |tokens| == |config.mapIds| && TokenTotal(tokens) <= 2 * teamSize * config.tokensPerPlayer
  }

  // ----- A fixed cap

  /** Spending a budget map after map, each up to the cap, removes as much weight as it can. */
  lemma {:induction false} FillMaps(n: nat, cap: nat, budget: nat) returns (tokens: seq<nat>)
    requires cap > 0
    ensures |tokens| == n && TokenTotal(tokens) <= budget
    ensures TotalWeight(tokens, cap as real) ==
      if budget <= n * cap then n as real - budget as real / cap as real else 0.0
  {
    if n == 0 {
      tokens := [];
    } else {
      var v := if budget < cap then budget else cap;
      var rest := FillMaps(n - 1, cap, budget - v);
      tokens := [v] + rest;
      assert tokens[1..] == rest;
      SpendOne(n, cap, budget, v, TotalWeight(rest, cap as real));
    }
  }

  lemma {:induction false} SpendOne(n: nat, cap: nat, budget: nat, v: nat, rest: real)
    requires n > 0 && cap > 0 && v == if budget < cap then budget else cap
    requires rest == if budget - v <= (n - 1) * cap then (n - 1) as real - (budget - v) as real / cap as real else 0.0
    ensures Weight(v, cap as real) + rest ==
      if budget <= n * cap then n as real - budget as real / cap as real else 0.0
  {
    assert n * cap == (n - 1) * cap + cap;
    DivAdd(v as real, (budget - v) as real, cap as real);
    if v == cap {
      assert cap as real / cap as real == 1.0;
    } else {
      assert (budget - v) as real / cap as real == 0.0 && (n - 1) * cap >= 0;
      DivAtMostOne(v as real, cap as real);
    }
  }

  /** With a whole number as its cap a pool passes if and only if no spending can take the weights below the minimum. */
  lemma {:induction false} FixedCheckExact(teamSize: nat, config: PoolConfig, cap: nat)
    requires cap > 0 && config.maxPerMap == cap as real && config.minimumMaps > 0.0 && config.tokensPerPlayer >= 0
    ensures IsValidConfig(teamSize, config)
       <==> forall tokens :: Affordable(tokens, teamSize, config) ==>
         TotalWeight(tokens, cap as real) >= config.minimumMaps
  {
    if IsValidConfig(teamSize, config) {
      forall tokens | Affordable(tokens, teamSize, config)
        ensures TotalWeight(tokens, cap as real) >= config.minimumMaps
      {
        FixedCapReaches(teamSize, tokens, config);
      }
    } else {
      var tokens := BreakFixed(teamSize, config, cap);
      assert Affordable(tokens, teamSize, config);
    }
  }

  lemma {:induction false} BreakFixed(teamSize: nat, config: PoolConfig, cap: nat) returns (tokens: seq<nat>)
    requires cap > 0 && config.maxPerMap == cap as real && config.minimumMaps > 0.0 && config.tokensPerPlayer >= 0
    requires !IsValidConfig(teamSize, config)
    ensures Affordable(tokens, teamSize, config) && TotalWeight(tokens, cap as real) < config.minimumMaps
  {
    var n, players := |config.mapIds|, 2 * teamSize;
    var budget := players * config.tokensPerPlayer;
    if config.minimumMaps > n as real {
      tokens := FillMaps(n, cap, 0);
      assert n * cap >= 0 && 0.0 / cap as real == 0.0;
    } else {
      tokens := FillMaps(n, cap, budget);
      Budget(players, config.tokensPerPlayer, cap as real);
    }
  }

  lemma {:induction false} Budget(players: nat, perPlayer: int, cap: real)
    requires cap > 0.0
    ensures players as real * (perPlayer as real / cap) == (players * perPlayer) as real / cap
  {
    var quotient := perPlayer as real / cap;
    assert (players * perPlayer) as real == players as real * perPlayer as real;
    assert quotient * cap == perPlayer as real;
    assert players as real * quotient * cap == players as real * perPlayer as real;
    assert (players * perPlayer) as real / cap * cap == (players * perPlayer) as real;
    if players as real * quotient < (players * perPlayer) as real / cap {
      MulStrict(players as real * quotient, (players * perPlayer) as real / cap, cap);
    }
    if players as real * quotient > (players * perPlayer) as real / cap {
      MulStrict((players * perPlayer) as real / cap, players as real * quotient, cap);
    }
  }

  // ----- A dynamic cap

  function Zeros(n: nat): (tokens: seq<nat>)
    ensures |tokens| == n && TokenTotal(tokens) == 0
  {
    if n == 0 then [] else [0] + Zeros(n - 1)
  }

  /** Without a fixed cap a pool passes if and only if for every spending some cap keeps the minimum. */
  lemma {:induction false} DynamicCheckExact(teamSize: nat, config: PoolConfig)
    requires teamSize > 0 && config.maxPerMap == 0.0 && config.minimumMaps > 0.0 && config.tokensPerPlayer >= 0
    ensures IsValidConfig(teamSize, config)
       <==> forall tokens :: Affordable(tokens, teamSize, config) ==>
              exists cap :: Reaches(tokens, config.minimumMaps, cap)
  {
    var n, minimum := |config.mapIds|, config.minimumMaps;
    if IsValidConfig(teamSize, config) {
      forall tokens | Affordable(tokens, teamSize, config) ensures exists cap :: Reaches(tokens, minimum, cap) {
        if minimum < n as real {
          var cap := SomeCapReaches(tokens, minimum);
        } else {
          TotalNonNegative(tokens);
          WeightLowerBound(tokens, 1.0);
          assert Reaches(tokens, minimum, 1.0);
        }
      }
    } else {
      var tokens := if minimum > n as real then Zeros(n) else [1] + Zeros(n - 1);
      assert TokenTotal(tokens) <= 2 * teamSize * config.tokensPerPlayer by {
        if minimum <= n as real { assert tokens[1..] == Zeros(n - 1) && 2 * teamSize * config.tokensPerPlayer >= 1; }
      }
      assert Affordable(tokens, teamSize, config);
      forall cap ensures !Reaches(tokens, minimum, cap) {
        if cap > 0.0 {
          WeightUpperBound(tokens, cap);
          if minimum <= n as real {
            WeightUpperBound(Zeros(n - 1), cap);
            DivPositive(1.0, cap);
            assert tokens[1..] == Zeros(n - 1);
          }
        }
      }
    }
  }
}
