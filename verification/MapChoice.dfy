/** Starting a game: from the players' vetoes to the map that is played. */
module MapChoice {
  import opened MapPool
  import opened MapWeights
  import opened VetoSystem
  import opened VetoWeights

  /**
   * The map of a match. A pool whose settings ask for some surviving maps always yields one, whatever the players veto
   * and have played, and it is never a map they vetoed entirely.
   */
  method ChooseMapForMatch(
      players: seq<PlayerVetoes>, ghost teamSize: nat, config: PoolConfig, maps: seq<PoolMap>, playedIds: seq<int>,
      settings: Settings)
    returns (weights: Weights, cap: real, cancelled: bool, choice: Choice)
    requires MatchAdjusted(players, teamSize, config)
    requires config.mapIds == VersionIds(maps) && forall k | 0 <= k < |maps| :: maps[k].weight > 0
    ensures cap != 0.0 && IsWeighting(weights, players, config, cap, cancelled)
    ensures choice.EmptyPool? <==> maps == []
    ensures IsValidConfig(teamSize, config) && config.minimumMaps > 0.0 ==> choice.Chosen?
    ensures !IsValidConfig(teamSize, config) && maps != [] ==> choice.Chosen?
    ensures choice.Chosen? ==> choice.map_ in maps && Get(weights, choice.map_.versionId) > 0.0
  {
    weights, cap, cancelled := GenerateInitialWeights(players, teamSize, config);
    choice := ChooseMap(maps, playedIds, weights, settings);
    if IsValidConfig(teamSize, config) && config.minimumMaps > 0.0 {
      SomeMapHasWeight(weights, maps);
    } else if maps != [] {
      VersionIdIn(maps, 0);
    }
  }

  lemma {:induction false} SomeMapHasWeight(weights: Weights, maps: seq<PoolMap>)
    requires Total(weights, VersionIds(maps)) > 0.0
    ensures exists k :: 0 <= k < |maps| && Get(weights, maps[k].versionId) > 0.0
  {
    var id := SomePositive(weights, VersionIds(maps));
    var k := VersionIndex(maps, id);
  }
}
