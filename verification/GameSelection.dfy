/** Choosing which of the possible games are started. */
module GameSelection {
  import opened Searches
  import opened Sorting

  datatype GameCandidate = GameCandidate(match_: Match, quality: real)

  const MINIMUM_GAME_QUALITY := 0.4

  function AllSearches(game: GameCandidate): set<Search> {
    var searches := SearchesOf(game.match_);
    set s | s in searches
  }

  /** Some search would have to play in both games. */
  predicate Share(a: GameCandidate, b: GameCandidate) {
    AllSearches(a) * AllSearches(b) != {}
  }

  function QualityOf(game: GameCandidate): real {
    game.quality
  }

  function Eligible(games: seq<GameCandidate>): seq<GameCandidate> {
    if games == [] then []
    else (if games[0].quality >= MINIMUM_GAME_QUALITY then [games[0]] else []) + Eligible(games[1..])
  }

  lemma {:induction false} EligibleIn(games: seq<GameCandidate>, game: GameCandidate)
    ensures game in Eligible(games) <==> game in games && game.quality >= MINIMUM_GAME_QUALITY
  {
    if games != [] {
      EligibleIn(games[1..], game);
      assert games == [games[0]] + games[1..];
    }
  }

  ghost predicate PairwiseDisjoint(games: seq<GameCandidate>) {
    forall i, j | 0 <= i < j < |games| :: !Share(games[i], games[j])
  }

  /** The game is played, or a game at least as good takes one of its searches. */
  ghost predicate Settled(game: GameCandidate, accepted: seq<GameCandidate>) {
    || game in accepted
    || exists k :: 0 <= k < |accepted| && accepted[k].quality >= game.quality && Share(accepted[k], game)
  }

  /** What holds of the games accepted so far, once the games from position `i` on have been looked at. */
  ghost predicate Greedy(sorted: seq<GameCandidate>, i: nat, accepted: seq<GameCandidate>)
    requires i <= |sorted|
  {
    && PairwiseDisjoint(accepted)
    && (forall game | game in accepted :: game in sorted[i..])
    && (forall j | i <= j < |sorted| :: Settled(sorted[j], accepted))
  }

  function UsedBy(accepted: seq<GameCandidate>): set<Search> {
    if accepted == [] then {}
    else UsedBy(accepted[..|accepted| - 1]) + AllSearches(accepted[|accepted| - 1])
  }

  /** The used searches tell exactly whether a game collides with an accepted one. */
  lemma {:induction false} Collides(game: GameCandidate, accepted: seq<GameCandidate>)
    ensures UsedBy(accepted) * AllSearches(game) == {}
       <==> forall k | 0 <= k < |accepted| :: !Share(accepted[k], game)
    decreases |accepted|
  {
    if accepted != [] {
      var n := |accepted| - 1;
      Collides(game, accepted[..n]);
      var before, own, searches := UsedBy(accepted[..n]), AllSearches(accepted[n]), AllSearches(game);
      assert (before + own) * searches == before * searches + own * searches;
      if before * searches == {} && own * searches == {} {
        forall k | 0 <= k < |accepted| ensures !Share(accepted[k], game) {
          assert k < n ==> accepted[..n][k] == accepted[k];
        }
      } else if own * searches == {} {
        var k :| 0 <= k < n && Share(accepted[..n][k], game);
        assert accepted[..n][k] == accepted[k];
      }
    }
  }

  lemma {:induction false} AcceptStep(sorted: seq<GameCandidate>, i: nat, accepted: seq<GameCandidate>)
    requires i < |sorted| && Greedy(sorted, i + 1, accepted)
    requires forall k | 0 <= k < |accepted| :: !Share(accepted[k], sorted[i])
    ensures Greedy(sorted, i, accepted + [sorted[i]])
  {
    hide Share;
    var after := accepted + [sorted[i]];
    assert sorted[i..] == [sorted[i]] + sorted[i + 1..];
    forall j | i <= j < |sorted| ensures Settled(sorted[j], after) {
      if j > i && sorted[j] !in accepted {
        assert Settled(sorted[j], accepted);
        var k :| 0 <= k < |accepted| && accepted[k].quality >= sorted[j].quality && Share(accepted[k], sorted[j]);
        assert after[k] == accepted[k];
      }
    }
  }

  lemma {:induction false} RejectStep(sorted: seq<GameCandidate>, i: nat, accepted: seq<GameCandidate>)
    requires i < |sorted| && SortedBy(sorted, QualityOf) && Greedy(sorted, i + 1, accepted)
    requires exists k :: 0 <= k < |accepted| && Share(accepted[k], sorted[i])
    ensures Greedy(sorted, i, accepted)
  {
    hide Share;
    assert sorted[i..] == [sorted[i]] + sorted[i + 1..];
    var k :| 0 <= k < |accepted| && Share(accepted[k], sorted[i]);
    assert accepted[k] in sorted[i + 1..];
    var j :| i + 1 <= j < |sorted| && sorted[j] == accepted[k];
    SortedIndices(sorted, QualityOf, i, j);
  }

  /**
   * The greedy choice, best game first: no search is used twice, and a game that is left out lost one of its searches
   * to a game at least as good.
   */
  method PickNoncollidingGames(games: seq<GameCandidate>) returns (accepted: seq<GameCandidate>)
    ensures PairwiseDisjoint(accepted)
    ensures forall game | game in accepted :: game in games && game.quality >= MINIMUM_GAME_QUALITY
    ensures forall game | game in games && game.quality >= MINIMUM_GAME_QUALITY :: Settled(game, accepted)
  {
    hide Share, Settled, PairwiseDisjoint, SortedBy, Greedy;
    var sorted := SortBy(Eligible(games), QualityOf);
    SortBySorted(Eligible(games), QualityOf);
    accepted := [];
    var used: set<Search> := {};
    NothingAccepted(sorted);
    var i := |sorted|;
    while i > 0
      invariant 0 <= i <= |sorted|
      invariant used == UsedBy(accepted) && Greedy(sorted, i, accepted)
    {
      i := i - 1;
      var game := sorted[i];
      Collides(game, accepted);
      if used * AllSearches(game) == {} {
        AcceptStep(sorted, i, accepted);
        assert (accepted + [game])[..|accepted|] == accepted;
        accepted := accepted + [game];
        used := used + AllSearches(game);
      } else {
        RejectStep(sorted, i, accepted);
      }
    }
    GreedyDone(games, sorted, accepted);
  }

  lemma {:induction false} NothingAccepted(sorted: seq<GameCandidate>)
    ensures Greedy(sorted, |sorted|, [])
  {}

  lemma {:induction false} GreedyDone(games: seq<GameCandidate>, sorted: seq<GameCandidate>,
      accepted: seq<GameCandidate>)
    requires sorted == SortBy(Eligible(games), QualityOf) && Greedy(sorted, 0, accepted)
    ensures PairwiseDisjoint(accepted)
    ensures forall game | game in accepted :: game in games && game.quality >= MINIMUM_GAME_QUALITY
    ensures forall game | game in games && game.quality >= MINIMUM_GAME_QUALITY :: Settled(game, accepted)
  {
    hide Share, Settled;
    forall game
      ensures game in sorted <==> game in games && game.quality >= MINIMUM_GAME_QUALITY
    {
      EligibleIn(games, game);
      SortByMember(Eligible(games), QualityOf, game);
    }
    assert sorted[0..] == sorted;
  }
}
