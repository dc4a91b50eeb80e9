/** The two matchmakers: single opponents by proposals, teams by building and selecting games. */
module Matchmaking {
  import opened Options
  import opened Lists
  import opened Searches
  import opened Sorting
  import opened MatchingGraph
  import opened StableMarriage
  import opened TeamMatchmaker
  import opened GameSelection

  // ----- Single opponents

  function PairOf(s: Search, matches: Matches): Match
    requires s in matches
  {
    Match([s], [matches[s]])
  }

  /** The pairs of the first `i` searches, each pair listed once. */
  function Pairs(nodes: seq<Search>, matches: Matches, i: nat): seq<Match>
    requires i <= |nodes|
    decreases i
  {
    if i == 0 then []
    else
      var s := nodes[i - 1];
      Pairs(nodes, matches, i - 1) +
      if s in matches && matches[s] !in nodes[..i - 1] then [PairOf(s, matches)] else []
  }

  /** The pair of `x` has been listed. */
  ghost predicate Listed(x: Search, nodes: seq<Search>, matches: Matches, i: nat)
    requires i <= |nodes|
  {
    x in matches && (x in nodes[..i] || matches[x] in nodes[..i])
  }

  lemma {:induction false} FlattenSnoc(matches: seq<Match>, m: Match, x: Search)
    ensures Occurrences(Flatten(matches + [m]), x)
      == Occurrences(Flatten(matches), x) + Occurrences(m.a, x) + Occurrences(m.b, x)
  {
    assert (matches + [m])[..|matches|] == matches;
    OccurrencesConcat(Flatten(matches), SearchesOf(m), x);
    OccurrencesConcat(m.a, m.b, x);
  }

  /** Visiting one more search lists the two sides of its pair, unless they have been listed before. */
  lemma {:induction false} ListedStep(nodes: seq<Search>, matches: Matches, i: nat, x: Search)
    requires 0 < i <= |nodes| && Distinct(nodes) && Involution(matches)
    ensures var s := nodes[i - 1];
      if s in matches && matches[s] !in nodes[..i - 1] then
        s != matches[s] && !Listed(s, nodes, matches, i - 1) && !Listed(matches[s], nodes, matches, i - 1)
        && (Listed(x, nodes, matches, i) <==> Listed(x, nodes, matches, i - 1) || x == s || x == matches[s])
      else Listed(x, nodes, matches, i) <==> Listed(x, nodes, matches, i - 1)
  {
    DistinctPrefix(nodes, i - 1);
    assert nodes[..i] == nodes[..i - 1] + [nodes[i - 1]];
  }

  /** What one more visited search adds to the list of pairs. */
  lemma {:induction false} PairsNext(nodes: seq<Search>, matches: Matches, i: nat, x: Search)
    requires 0 < i <= |nodes|
    ensures var s := nodes[i - 1];
      Occurrences(Flatten(Pairs(nodes, matches, i)), x) == Occurrences(Flatten(Pairs(nodes, matches, i - 1)), x)
        + if s in matches && matches[s] !in nodes[..i - 1]
          then Occurrences([s], x) + Occurrences([matches[s]], x) else 0
  {
    hide Occurrences, Flatten;
    var s, before := nodes[i - 1], Pairs(nodes, matches, i - 1);
    if s in matches && matches[s] !in nodes[..i - 1] {
      FlattenSnoc(before, PairOf(s, matches), x);
    } else {
      assert before + [] == before;
    }
  }

  lemma {:induction false} PairsOccurrences(nodes: seq<Search>, matches: Matches, i: nat, x: Search)
    requires i <= |nodes| && Distinct(nodes) && Involution(matches)
    ensures Occurrences(Flatten(Pairs(nodes, matches, i)), x) == if Listed(x, nodes, matches, i) then 1 else 0
    decreases i
  {
    hide Listed, Distinct, Involution, Flatten;
    if i == 0 {
      NothingListed(nodes, matches, x);
    } else {
      PairsOccurrences(nodes, matches, i - 1, x);
      ListedStep(nodes, matches, i, x);
      PairsNext(nodes, matches, i, x);
    }
  }

  lemma {:induction false} NothingListed(nodes: seq<Search>, matches: Matches, x: Search)
    ensures !Listed(x, nodes, matches, 0) && Flatten(Pairs(nodes, matches, 0)) == []
  {}

  /** A search's pair is on the list, from either side, exactly when one of the two has been visited. */
  lemma {:induction false} PairsMember(nodes: seq<Search>, matches: Matches, i: nat, s: Search)
    requires i <= |nodes| && Involution(matches) && s in matches
    ensures PairOf(s, matches) in Pairs(nodes, matches, i) || PairOf(matches[s], matches) in Pairs(nodes, matches, i)
       <==> Listed(s, nodes, matches, i)
    decreases i
  {
    if i > 0 {
      PairsMember(nodes, matches, i - 1, s);
      assert nodes[..i] == nodes[..i - 1] + [nodes[i - 1]];
    }
  }

  method RemoveDuplicates(nodes: seq<Search>, matches: Matches) returns (pairs: seq<Match>)
    requires Distinct(nodes) && Involution(matches)
    ensures pairs == Pairs(nodes, matches, |nodes|)
  {
    pairs := [];
    for i := 0 to |nodes|
      invariant pairs == Pairs(nodes, matches, i)
    {
      var s1 := nodes[i];
      if s1 in matches {
        var s2 := matches[s1];
        PairsMember(nodes, matches, i, s1);
        DistinctPrefix(nodes, i);
        if !(Match([s1], [s2]) in pairs || Match([s2], [s1]) in pairs) {
          pairs := pairs + [Match([s1], [s2])];
        }
      }
    }
  }

  function Unmatched(searches: seq<Search>, matches: Matches): seq<Search>
    decreases |searches|
  {
    if searches == [] then []
    else (if searches[0] in matches then [] else [searches[0]]) + Unmatched(searches[1..], matches)
  }

  lemma {:induction false} UnmatchedOccurrences(searches: seq<Search>, matches: Matches, x: Search)
    ensures Occurrences(Unmatched(searches, matches), x) == if x in matches then 0 else Occurrences(searches, x)
    decreases |searches|
  {
    if searches != [] {
      UnmatchedOccurrences(searches[1..], matches, x);
      var rest := Unmatched(searches[1..], matches);
      assert ([searches[0]] + rest)[1..] == rest && [] + rest == rest;
    }
  }

  /** The nodes of a graph in the order of the searches it was built from. */
  function NodeList(searches: seq<Search>, graph: Graph): seq<Search>
    decreases |searches|
  {
    if searches == [] then []
    else (if searches[0] in graph then [searches[0]] else []) + NodeList(searches[1..], graph)
  }

  lemma {:induction false} NodeListMembers(searches: seq<Search>, graph: Graph)
    requires Distinct(searches)
    ensures Distinct(NodeList(searches, graph))
    ensures forall s :: s in NodeList(searches, graph) <==> s in searches && s in graph
    decreases |searches|
  {
    if searches != [] {
      NodeListMembers(searches[1..], graph);
      var rest := NodeList(searches[1..], graph);
      assert ([searches[0]] + rest)[1..] == rest && [] + rest == rest && searches == [searches[0]] + searches[1..];
    }
  }

  /** Both opponents are single searches that accept each other. */
  ghost predicate AcceptedPair(m: Match, scale: Scale) {
    |m.a| == |m.b| == 1 && m.a[0] != m.b[0] && Acceptable(scale, m.a[0], m.b[0])
  }

  lemma {:induction false} PairsAccepted(nodes: seq<Search>, matches: Matches, graph: Graph, scale: Scale, i: nat)
    requires i <= |nodes| && GoodEdges(graph, scale) && Proper(matches, graph, scale, nodes)
    ensures forall k | 0 <= k < |Pairs(nodes, matches, i)| :: AcceptedPair(Pairs(nodes, matches, i)[k], scale)
    decreases i
  {
    hide HasEdge, GoodEdges, Involution;
    if i > 0 {
      PairsAccepted(nodes, matches, graph, scale, i - 1);
      var s := nodes[i - 1];
      if s in matches { EdgeBothWays(graph, scale, s, matches[s]); }
    }
  }

  /** Every search once: in a pair or unmatched. */
  lemma {:induction false} PairsPartition(nodes: seq<Search>, searches: seq<Search>, matches: Matches)
    requires Distinct(nodes) && Distinct(searches) && Involution(matches)
    requires (forall s | s in matches :: s in nodes) && (forall s | s in nodes :: s in searches)
    ensures Permutation(Flatten(Pairs(nodes, matches, |nodes|)) + Unmatched(searches, matches), searches)
  {
    var pairs, unmatched := Pairs(nodes, matches, |nodes|), Unmatched(searches, matches);
    forall x ensures Occurrences(Flatten(pairs) + unmatched, x) == Occurrences(searches, x) {
      OccurrencesConcat(Flatten(pairs), unmatched, x);
      PairsOccurrences(nodes, matches, |nodes|, x);
      UnmatchedOccurrences(searches, matches, x);
      DistinctOnce(searches, x);
      assert nodes[..|nodes|] == nodes;
    }
  }

  /** The two searches are compared: in a small queue everybody is, in a large one those that are near in rating. */
  ghost predicate Compared(searches: seq<Search>, averageMean: Search -> real, a: Search, b: Search) {
    if |searches| < 30 then a in searches && b in searches && a != b
    else
      var sorted := SortBy(searches, averageMean);
      exists x, y :: 0 <= x < |sorted| && 0 <= y < |sorted| && x != y && sorted[x] == a && sorted[y] == b
                     && x <= y + NumToCheck(|searches|) && y <= x + NumToCheck(|searches|)
  }

  /** Of those who are left out nobody has a possible opponent among those that are compared with them. */
  ghost predicate NobodyFits(searches: seq<Search>, scale: Scale, averageMean: Search -> real, except: set<Search>) {
    forall a, b | Compared(searches, averageMean, a, b) && a !in except && b !in except :: !Acceptable(scale, a, b)
  }

  /** Who was in a pair at some time of the proposals. */
  ghost predicate PairedAtSomeTime(searches: seq<Search>, scale: Scale, matches: seq<Match>, paired: set<Search>) {
    exists graph, nodes ::
      && Distinct(nodes) && NodesOf(graph, nodes) && GoodEdges(graph, scale) && (forall s | s in nodes :: s in searches)
      && matches == Pairs(nodes, Proposals(graph, scale, nodes).matches, |nodes|)
      && paired == Proposals(graph, scale, nodes).paired
  }

  /** If no node is left with an edge there was none. */
  lemma {:induction false} NoEdgeLeft(graph: Graph, searches: seq<Search>, nodes: seq<Search>, scale: Scale)
    requires NodesOf(graph, searches)
    requires forall s :: s in nodes <==> s in searches && s in RemoveIsolated(graph)
    requires NoOpponents(RemoveIsolated(graph), nodes, |nodes|)
    ensures forall a, b :: !HasEdge(graph, scale, a, b)
  {
    forall a, b ensures !HasEdge(graph, scale, a, b) {
      assert a in nodes <==> a in searches && a in RemoveIsolated(graph);
    }
  }

  lemma {:induction false} MatchesListed(nodes: seq<Search>, matches: Matches)
    requires Distinct(nodes) && Involution(matches) && (forall s | s in matches :: s in nodes) && matches != map[]
    ensures Pairs(nodes, matches, |nodes|) != []
  {
    var s :| s in matches;
    assert nodes[..|nodes|] == nodes;
    PairsOccurrences(nodes, matches, |nodes|, s);
  }

  /** Everything the building of the graph promises about who is joined. */
  ghost predicate JoinsCompared(graph: Graph, searches: seq<Search>, scale: Scale, averageMean: Search -> real) {
    if |searches| < 30 then
      forall a, b | a in searches && b in searches && a != b :: HasEdge(graph, scale, a, b) <==> Acceptable(scale, a, b)
    else
      Joined(graph, scale, SortBy(searches, averageMean), NumToCheck(|searches|), |searches|, 0)
  }

  lemma {:induction false} ComparedJoined(graph: Graph, searches: seq<Search>, scale: Scale,
      averageMean: Search -> real,
      a: Search, b: Search)
    requires Sound(scale) && GoodEdges(graph, scale) && JoinsCompared(graph, searches, scale, averageMean)
    requires Compared(searches, averageMean, a, b) && Acceptable(scale, a, b)
    ensures HasEdge(graph, scale, a, b)
  {
    if |searches| >= 30 {
      hide GoodEdges, SortBy, HasEdge, NumToCheck;
      var sorted, window := SortBy(searches, averageMean), NumToCheck(|searches|);
      var x, y :| 0 <= x < |sorted| && 0 <= y < |sorted| && x != y && sorted[x] == a && sorted[y] == b
                  && x <= y + window && y <= x + window;
      assert scale.quality(a, b) == scale.quality(b, a);
      if x < y {
        assert HasEdge(graph, scale, sorted[x], sorted[y]);
      } else {
        assert Acceptable(scale, sorted[y], sorted[x]);
        assert HasEdge(graph, scale, sorted[y], sorted[x]);
        EdgeBothWays(graph, scale, b, a);
      }
    }
  }

  /** Whoever is compared and would play with each other is joined, and one of the two has been in a pair. */
  lemma {:induction false} PairedOrUnfit(graph: Graph, nodes: seq<Search>, searches: seq<Search>, scale: Scale,
      averageMean: Search -> real)
    requires Sound(scale) && GoodEdges(graph, scale) && JoinsCompared(graph, searches, scale, averageMean)
    requires Distinct(nodes) && NodesOf(RemoveIsolated(graph), nodes)
    requires forall a, b :: HasEdge(RemoveIsolated(graph), scale, a, b) <==> HasEdge(graph, scale, a, b)
    ensures NobodyFits(searches, scale, averageMean, Proposals(RemoveIsolated(graph), scale, nodes).paired)
  {
    hide Compared, GoodEdges, JoinsCompared, HasEdge, Distinct, NodesOf, Proposals, RemoveIsolated, Acceptable;
    var p := Proposals(RemoveIsolated(graph), scale, nodes);
    forall a, b | Compared(searches, averageMean, a, b) && a !in p.paired && b !in p.paired
      ensures !Acceptable(scale, a, b)
    {
      if Acceptable(scale, a, b) {
        ComparedJoined(graph, searches, scale, averageMean, a, b);
        NeverPaired(RemoveIsolated(graph), scale, nodes, a, b);
      }
    }
  }

  lemma {:induction false} NoEdgesNobodyFits(graph: Graph, searches: seq<Search>, scale: Scale,
      averageMean: Search -> real)
    requires Sound(scale) && GoodEdges(graph, scale) && JoinsCompared(graph, searches, scale, averageMean)
    requires forall a, b :: !HasEdge(graph, scale, a, b)
    ensures NobodyFits(searches, scale, averageMean, {})
  {
    hide Compared, GoodEdges, JoinsCompared, HasEdge, Acceptable;
    forall a, b | Compared(searches, averageMean, a, b) ensures !Acceptable(scale, a, b) {
      if Acceptable(scale, a, b) { ComparedJoined(graph, searches, scale, averageMean, a, b); }
    }
  }

  /**
   * Opponents for as many as the proposals find. Of two searches that are compared and would play with each other one
   * has been in a pair, and somebody is matched if anybody can be.
   */
  method FindOpponents(searches: seq<Search>, scale: Scale, averageMean: Search -> real)
    returns (matches: seq<Match>, unmatched: seq<Search>, ghost paired: set<Search>)
    requires Distinct(searches) && Sound(scale)
    ensures Permutation(Flatten(matches) + unmatched, searches)
    ensures forall i | 0 <= i < |matches| :: AcceptedPair(matches[i], scale)
    ensures PairedAtSomeTime(searches, scale, matches, paired)
    ensures NobodyFits(searches, scale, averageMean, paired)
    ensures matches == [] ==> NobodyFits(searches, scale, averageMean, {})
  {
    hide GoodEdges, Involution, HasEdge, Joined, SortedEdges, AlongEdges, Distinct, NobodyFits, NoOpponents, NodesOf,
         SortBy, Proposals, Near;
    var graph;
    if |searches| < 30 {
      graph := BuildFull(searches, scale);
    } else {
      graph := BuildFast(searches, scale, averageMean);
    }
    assert JoinsCompared(graph, searches, scale, averageMean);
    hide JoinsCompared;
    RemoveIsolatedClosed(graph, scale);
    var ranks := RemoveIsolated(graph);
    var nodes := NodeList(searches, ranks);
    NodeListMembers(searches, ranks);
    NodesLeft(graph, searches, nodes);
    var solver := new StableMarriageSolver();
    var result := solver.Find(ranks, nodes, scale);
    matches := RemoveDuplicates(nodes, result);
    PairsAccepted(nodes, result, ranks, scale, |nodes|);
    PairsPartition(nodes, searches, result);
    unmatched := Unmatched(searches, result);
    paired := Proposals(ranks, scale, nodes).paired;
    assert PairedAtSomeTime(searches, scale, matches, paired);
    PairedOrUnfit(graph, nodes, searches, scale, averageMean);
    if matches == [] {
      if result != map[] { MatchesListed(nodes, result); }
      NoEdgeLeft(graph, searches, nodes, scale);
      NoEdgesNobodyFits(graph, searches, scale, averageMean);
    }
  }

  lemma {:induction false} NodesLeft(graph: Graph, searches: seq<Search>, nodes: seq<Search>)
    requires NodesOf(graph, searches) && forall s :: s in nodes <==> s in searches && s in RemoveIsolated(graph)
    ensures NodesOf(RemoveIsolated(graph), nodes)
  {}

  // ----- Teams

  function AverageRating(s: Search): real {
    if s.players == 0 then 0.0 else s.rating / s.players as real
  }

  ghost predicate Playable(searches: seq<Search>, teamSize: nat) {
    Distinct(searches) && teamSize > 0 && forall s | s in searches :: 0 < s.players <= teamSize
  }

  /** A game between two full teams made of searches of the queue, none of them used twice. */
  ghost predicate FullGame(m: Match, searches: seq<Search>, teamSize: nat) {
    && Players(m.a) == Players(m.b) == teamSize
    && forall x :: Occurrences(SearchesOf(m), x) <= Occurrences(searches, x)
  }

  /** The participants picked around a search can be handed to the team building. */
  lemma {:induction false} ParticipantsPlayable(searches: seq<Search>, index: nat, teamSize: nat)
    requires Playable(searches, teamSize) && index < |searches|
    ensures var participants := Participants(searches, index, teamSize);
      && Playable(participants, teamSize)
      && (forall x :: Occurrences(participants, x) <= Occurrences(searches, x))
      && Players(participants) <= 2 * teamSize
  {
    hide Participants;
    var participants := Participants(searches, index, teamSize);
    ParticipantsEffect(searches, index, teamSize, searches[index]);
    forall x ensures Occurrences(participants, x) <= Occurrences(searches, x) <= 1 {
      ParticipantsEffect(searches, index, teamSize, x);
      DistinctOnce(searches, x);
    }
    OnceDistinct(participants);
    forall s | s in participants ensures s in searches {
      OccursIn(participants, s);
      OccursIn(searches, s);
    }
  }

  /** There are enough players around the search, and they divide into two full teams. */
  ghost predicate Buildable(searches: seq<Search>, index: nat, teamSize: nat)
    requires index < |searches|
  {
    var participants := Participants(searches, index, teamSize);
    Players(participants) >= 2 * teamSize && Divides(participants, teamSize)
  }

  /** The game that is built around a search: its participants, divided as the algorithm divides them. */
  ghost predicate BuiltGame(m: Match, searches: seq<Search>, index: nat, teamSize: nat)
    requires index < |searches|
  {
    var participants := Participants(searches, index, teamSize);
    && FullGame(m, searches, teamSize)
    && Permutation(SearchesOf(m), participants) && ChosenTeam(m.a, participants, teamSize)
  }

  /** Builds the game around one search, if there are enough players and the teams come out even. */
  method BuildGame(searches: seq<Search>, index: nat, teamSize: nat) returns (game: Option<Match>)
    requires Playable(searches, teamSize) && index < |searches|
    ensures game.Some? ==> BuiltGame(game.value, searches, index, teamSize)
    ensures game.Some? <==> Buildable(searches, index, teamSize)
  {
    hide Participants, Distinct, Divides, ChosenTeam;
    ParticipantsPlayable(searches, index, teamSize);
    var participants := PickNeighboringPlayers(searches, index, teamSize);
    if participants.None? {
      return None;
    }
    var teams := MakeTeams(participants.value, teamSize);
    match teams {
      case Teams(a, b) => game := Some(Match(a, b));
      case Uneven => game := None;
      case EmptyTeam => assert false;
    }
  }

  function MatchesOf(games: seq<GameCandidate>): (matches: seq<Match>)
    ensures |matches| == |games| && forall i | 0 <= i < |games| :: matches[i] == games[i].match_
  {
    if games == [] then [] else MatchesOf(games[..|games| - 1]) + [games[|games| - 1].match_]
  }

  lemma {:induction false} FlattenMember(matches: seq<Match>, x: Search)
    requires Occurrences(Flatten(matches), x) > 0
    ensures exists k :: 0 <= k < |matches| && x in SearchesOf(matches[k])
    decreases |matches|
  {
    var n := |matches| - 1;
    OccurrencesConcat(Flatten(matches[..n]), SearchesOf(matches[n]), x);
    if Occurrences(SearchesOf(matches[n]), x) > 0 {
      OccursIn(SearchesOf(matches[n]), x);
    } else {
      FlattenMember(matches[..n], x);
      var k :| 0 <= k < n && x in SearchesOf(matches[..n][k]);
      assert matches[..n][k] == matches[k];
    }
  }

  lemma {:induction false} NotShared(games: seq<GameCandidate>, k: nat, n: nat, x: Search)
    requires PairwiseDisjoint(games) && k < n < |games| && x in SearchesOf(games[k].match_)
    ensures x !in SearchesOf(games[n].match_)
  {
    assert !Share(games[k], games[n]);
    assert x in AllSearches(games[k]);
    assert x !in AllSearches(games[k]) * AllSearches(games[n]);
  }

  /** Games that share no searches use each search at most as often as the queue has it. */
  lemma {:induction false} DisjointGamesFit(games: seq<GameCandidate>, searches: seq<Search>, teamSize: nat, x: Search)
    requires PairwiseDisjoint(games) && forall i | 0 <= i < |games| :: FullGame(games[i].match_, searches, teamSize)
    ensures Occurrences(Flatten(MatchesOf(games)), x) <= Occurrences(searches, x)
    decreases |games|
  {
    if games != [] {
      var n := |games| - 1;
      var before := MatchesOf(games[..n]);
      DisjointGamesFit(games[..n], searches, teamSize, x);
      assert MatchesOf(games)[..n] == before;
      OccurrencesConcat(Flatten(before), SearchesOf(games[n].match_), x);
      assert Occurrences(SearchesOf(games[n].match_), x) <= Occurrences(searches, x);
      if Occurrences(SearchesOf(games[n].match_), x) > 0 && Occurrences(Flatten(before), x) > 0 {
        FlattenMember(before, x);
        var k :| 0 <= k < n && x in SearchesOf(before[k]);
        OccursIn(SearchesOf(games[n].match_), x);
        NotShared(games, k, n, x);
      }
    }
  }

  /** Takes the searches of all matches off the list. */
  method RemoveMatched(searches: seq<Search>, matches: seq<Match>) returns (rest: seq<Search>)
    requires forall x :: Occurrences(Flatten(matches), x) <= Occurrences(searches, x)
    ensures forall x :: Occurrences(rest, x) + Occurrences(Flatten(matches), x) == Occurrences(searches, x)
  {
    rest := searches;
    for i := 0 to |matches|
      invariant forall x :: Occurrences(rest, x) + Occurrences(Flatten(matches[..i]), x) == Occurrences(searches, x)
    {
      FlattenPrefix(matches, i, searches);
      rest := RemoveTeam(rest, SearchesOf(matches[i]));
      forall x ensures Occurrences(Flatten(matches[..i + 1]), x)
          == Occurrences(Flatten(matches[..i]), x) + Occurrences(SearchesOf(matches[i]), x) {
        FlattenNext(matches, i, x);
      }
    }
    assert matches[..|matches|] == matches;
  }

  lemma {:induction false} FlattenNext(matches: seq<Match>, i: nat, x: Search)
    requires i < |matches|
    ensures Occurrences(Flatten(matches[..i + 1]), x)
      == Occurrences(Flatten(matches[..i]), x) + Occurrences(SearchesOf(matches[i]), x)
  {
    assert matches[..i + 1][..i] == matches[..i];
    OccurrencesConcat(Flatten(matches[..i]), SearchesOf(matches[i]), x);
  }

  lemma {:induction false} FlattenMono(matches: seq<Match>, i: nat, x: Search)
    requires i <= |matches|
    ensures Occurrences(Flatten(matches[..i]), x) <= Occurrences(Flatten(matches), x)
    decreases |matches| - i
  {
    if i == |matches| {
      assert matches[..i] == matches;
    } else {
      FlattenMono(matches, i + 1, x);
      FlattenNext(matches, i, x);
    }
  }

  lemma {:induction false} FlattenPrefix(matches: seq<Match>, i: nat, searches: seq<Search>)
    requires i < |matches| && forall x :: Occurrences(Flatten(matches), x) <= Occurrences(searches, x)
    ensures forall x ::
      Occurrences(Flatten(matches[..i]), x) + Occurrences(SearchesOf(matches[i]), x) <= Occurrences(searches, x)
  {
    forall x
      ensures Occurrences(Flatten(matches[..i]), x) + Occurrences(SearchesOf(matches[i]), x) <= Occurrences(searches, x)
    {
      FlattenNext(matches, i, x);
      FlattenMono(matches, i + 1, x);
    }
  }

  method RemoveTeam(searches: seq<Search>, team: seq<Search>) returns (rest: seq<Search>)
    requires forall x :: Occurrences(team, x) <= Occurrences(searches, x)
    ensures forall x :: Occurrences(rest, x) + Occurrences(team, x) == Occurrences(searches, x)
  {
    rest := searches;
    for j := 0 to |team|
      invariant forall x :: Occurrences(rest, x) == Occurrences(searches, x) - Occurrences(team[..j], x)
    {
      var s := team[j];
      assert team == team[..j] + ([s] + team[j + 1..]);
      OccurrencesConcat(team[..j], [s] + team[j + 1..], s);
      OccursIn(rest, s);
      forall x ensures Occurrences(team[..j + 1], x) == Occurrences(team[..j], x) + if s == x then 1 else 0 {
        assert team[..j + 1] == team[..j] + [s];
        OccurrencesConcat(team[..j], [s], x);
      }
      forall x ensures Occurrences(Without(rest, s), x) == Occurrences(rest, x) - if s == x then 1 else 0 {
        WithoutOccurrences(rest, s, x);
      }
      rest := Without(rest, s);
    }
    assert team[..|team|] == team;
  }

  lemma {:induction false} OpponentsFull(searches: seq<Search>, matches: seq<Match>, unmatched: seq<Search>,
      scale: Scale)
    requires Playable(searches, 1) && Permutation(Flatten(matches) + unmatched, searches)
    requires forall i | 0 <= i < |matches| :: AcceptedPair(matches[i], scale)
    ensures IsPairing(searches, 1, matches, unmatched)
  {
    forall i | 0 <= i < |matches| ensures Players(matches[i].a) == Players(matches[i].b) == 1 {
      var m := matches[i];
      assert m.a == [m.a[0]] && m.b == [m.b[0]];
      forall x | x in SearchesOf(m) ensures x.players == 1 {
        FlattenNext(matches, i, x);
        FlattenMono(matches, i + 1, x);
        OccursIn(SearchesOf(m), x);
        OccurrencesConcat(Flatten(matches), unmatched, x);
        OccursIn(searches, x);
      }
      assert m.a[0] in SearchesOf(m) && m.b[0] in SearchesOf(m);
      SingletonDistinct(m.a[0]);
      SingletonDistinct(m.b[0]);
    }
  }

  /**
   * An answer of the matchmaker: every search of the queue is in exactly one match or unmatched, both teams of every
   * match are full, and nobody is left out without a reason.
   */
  ghost predicate Answers(searches: seq<Search>, teamSize: nat, quality: Match -> real, scale: Scale,
      averageMean: Search -> real, matches: seq<Match>, unmatched: seq<Search>)
  {
    && IsPairing(searches, teamSize, matches, unmatched)
    && (teamSize == 1 ==> OpponentsFound(searches, scale, averageMean, matches))
    && (teamSize > 1 ==> TeamsFound(searches, teamSize, quality, matches))
  }

  /** Single opponents: both sides accept each other, and of two that would play one has been in a pair. */
  ghost predicate OpponentsFound(searches: seq<Search>, scale: Scale, averageMean: Search -> real,
      matches: seq<Match>) {
    && (forall i | 0 <= i < |matches| :: AcceptedPair(matches[i], scale))
    && (matches == [] ==> NobodyFits(searches, scale, averageMean, {}))
    && (searches != [] ==> exists paired ::
          PairedAtSomeTime(searches, scale, matches, paired) && NobodyFits(searches, scale, averageMean, paired))
  }

  /**
   * Teams: the matches are good enough games built around searches, and every game that could be built was considered.
   */
  ghost predicate TeamsFound(searches: seq<Search>, teamSize: nat, quality: Match -> real, matches: seq<Match>) {
    && (forall i | 0 <= i < |matches| :: quality(matches[i]) >= MINIMUM_GAME_QUALITY)
    && (searches != [] ==> exists accepted ::
          matches == MatchesOf(accepted) && Selected(accepted, SortBy(searches, AverageRating), teamSize, quality))
  }

  /** The matchmaker. The quality of a game is a parameter. */
  method Find(searches: seq<Search>, teamSize: nat, quality: Match -> real, scale: Scale, averageMean: Search -> real)
    returns (matches: seq<Match>, unmatched: seq<Search>)
    requires Playable(searches, teamSize) && Sound(scale)
    ensures Answers(searches, teamSize, quality, scale, averageMean, matches, unmatched)
    ensures multiset(Flatten(matches) + unmatched) == multiset(searches)
  {
    if searches == [] {
      assert NobodyFits(searches, scale, averageMean, {});
      return [], [];
    }
    hide PairedAtSomeTime, NobodyFits, Selected, Playable, AcceptedPair, Permutation, SortBy, Flatten, Sound,
         IsPairing;
    if teamSize == 1 {
      ghost var paired;
      matches, unmatched, paired := FindOpponents(searches, scale, averageMean);
      OpponentsFull(searches, matches, unmatched, scale);
    } else {
      matches, unmatched := FindTeams(searches, teamSize, quality);
    }
    PairingMultiset(searches, teamSize, matches, unmatched);
  }

  lemma {:induction false} PairingMultiset(searches: seq<Search>, teamSize: nat, matches: seq<Match>,
      unmatched: seq<Search>)
    requires IsPairing(searches, teamSize, matches, unmatched)
    ensures multiset(Flatten(matches) + unmatched) == multiset(searches)
  {
    PermutationMultiset(Flatten(matches) + unmatched, searches);
  }

  /**
   * The game around a search, if there is one, is bad, or it was accepted, or a game at least as good was accepted that
   * shares a search with it.
   */
  ghost predicate Considered(sorted: seq<Search>, index: nat, teamSize: nat, quality: Match -> real,
      accepted: seq<GameCandidate>)
    requires index < |sorted|
  {
    Buildable(sorted, index, teamSize) ==>
      exists m :: (BuiltGame(m, sorted, index, teamSize)
                   && (quality(m) < MINIMUM_GAME_QUALITY || Settled(GameCandidate(m, quality(m)), accepted)))
  }

  ghost predicate Candidate(sorted: seq<Search>, index: nat, teamSize: nat, quality: Match -> real,
      games: seq<GameCandidate>)
    requires index < |sorted|
  {
    Buildable(sorted, index, teamSize) ==>
      exists m :: BuiltGame(m, sorted, index, teamSize) && GameCandidate(m, quality(m)) in games
  }

  /** A game with its own quality that was built around some search. */
  ghost predicate Rated(game: GameCandidate, sorted: seq<Search>, teamSize: nat, quality: Match -> real) {
    game.quality == quality(game.match_)
    && exists i :: 0 <= i < |sorted| && BuiltGame(game.match_, sorted, i, teamSize)
  }

  /**
   * The accepted games were built around searches of the queue and share none; every game that could be built has been
   * considered.
   */
  ghost predicate Selected(accepted: seq<GameCandidate>, sorted: seq<Search>, teamSize: nat, quality: Match -> real) {
    && PairwiseDisjoint(accepted)
    && (forall g | g in accepted :: Rated(g, sorted, teamSize, quality))
    && forall i | 0 <= i < |sorted| :: Considered(sorted, i, teamSize, quality, accepted)
  }

  lemma {:induction false} CandidateConsidered(sorted: seq<Search>, index: nat, teamSize: nat, quality: Match -> real,
      games: seq<GameCandidate>, accepted: seq<GameCandidate>)
    requires index < |sorted| && Candidate(sorted, index, teamSize, quality, games)
    requires forall game | game in games && game.quality >= MINIMUM_GAME_QUALITY :: Settled(game, accepted)
    ensures Considered(sorted, index, teamSize, quality, accepted)
  {
    hide Buildable, BuiltGame, Settled;
    if Buildable(sorted, index, teamSize) {
      var m :| BuiltGame(m, sorted, index, teamSize) && GameCandidate(m, quality(m)) in games;
      assert GameCandidate(m, quality(m)).quality == quality(m);
    }
  }

  lemma {:induction false} MoreCandidates(sorted: seq<Search>, index: nat, teamSize: nat, quality: Match -> real,
      games: seq<GameCandidate>, more: seq<GameCandidate>)
    requires index < |sorted| && Candidate(sorted, index, teamSize, quality, games)
    requires forall g | g in games :: g in more
    ensures Candidate(sorted, index, teamSize, quality, more)
  {
    hide Buildable, BuiltGame;
  }

  /** The candidates: one game around every search where one can be built. */
  method PossibleGames(sorted: seq<Search>, teamSize: nat, quality: Match -> real) returns (games: seq<GameCandidate>)
    requires Playable(sorted, teamSize)
    ensures forall g | g in games :: Rated(g, sorted, teamSize, quality)
    ensures forall i | 0 <= i < |sorted| :: Candidate(sorted, i, teamSize, quality, games)
  {
    hide Distinct, BuiltGame, Candidate;
    games := [];
    for index := 0 to |sorted|
      invariant forall g | g in games :: Rated(g, sorted, teamSize, quality)
      invariant forall i | 0 <= i < index :: Candidate(sorted, i, teamSize, quality, games)
    {
      var game := BuildGame(sorted, index, teamSize);
      var before := games;
      if game.Some? {
        games := games + [GameCandidate(game.value, quality(game.value))];
      }
      forall i | 0 <= i < index ensures Candidate(sorted, i, teamSize, quality, games) {
        MoreCandidates(sorted, i, teamSize, quality, before, games);
      }
      NewCandidate(sorted, index, teamSize, quality, games, game);
    }
  }

  lemma {:induction false} NewCandidate(sorted: seq<Search>, index: nat, teamSize: nat, quality: Match -> real,
      games: seq<GameCandidate>, game: Option<Match>)
    requires index < |sorted| && (game.Some? <==> Buildable(sorted, index, teamSize))
    requires game.Some? ==> BuiltGame(game.value, sorted, index, teamSize)
    requires game.Some? ==> GameCandidate(game.value, quality(game.value)) in games
    ensures Candidate(sorted, index, teamSize, quality, games)
  {
    hide Buildable, BuiltGame;
  }

  /** No game that could be built is passed over without reason. */
  method FindTeams(searches: seq<Search>, teamSize: nat, quality: Match -> real)
    returns (matches: seq<Match>, unmatched: seq<Search>)
    requires Playable(searches, teamSize)
    ensures IsPairing(searches, teamSize, matches, unmatched)
    ensures forall i | 0 <= i < |matches| :: quality(matches[i]) >= MINIMUM_GAME_QUALITY
    ensures exists accepted ::
      matches == MatchesOf(accepted) && Selected(accepted, SortBy(searches, AverageRating), teamSize, quality)
  {
    hide Distinct, FullGame, BuiltGame, PairwiseDisjoint, Settled, Candidate, Considered;
    var sorted := SortBy(searches, AverageRating);
    SortedPlayable(searches, teamSize);
    var possibleGames := PossibleGames(sorted, teamSize, quality);
    var accepted := PickNoncollidingGames(possibleGames);
    matches := MatchesOf(accepted);
    forall g | g in accepted ensures FullGame(g.match_, sorted, teamSize) { RatedFull(g, sorted, teamSize, quality); }
    AcceptedFit(accepted, sorted, teamSize);
    unmatched := RemoveMatched(sorted, matches);
    forall x ensures Occurrences(Flatten(matches) + unmatched, x) == Occurrences(searches, x) {
      OccurrencesConcat(Flatten(matches), unmatched, x);
      SortByOccurrences(searches, AverageRating, x);
    }
    forall i | 0 <= i < |sorted| ensures Considered(sorted, i, teamSize, quality, accepted) {
      CandidateConsidered(sorted, i, teamSize, quality, possibleGames, accepted);
    }
  }

  lemma {:induction false} RatedFull(game: GameCandidate, sorted: seq<Search>, teamSize: nat, quality: Match -> real)
    requires Rated(game, sorted, teamSize, quality)
    ensures FullGame(game.match_, sorted, teamSize)
  {}

  lemma {:induction false} AcceptedFit(accepted: seq<GameCandidate>, searches: seq<Search>, teamSize: nat)
    requires PairwiseDisjoint(accepted) && forall g | g in accepted :: FullGame(g.match_, searches, teamSize)
    ensures forall x :: Occurrences(Flatten(MatchesOf(accepted)), x) <= Occurrences(searches, x)
    ensures forall i | 0 <= i < |accepted| ::
      Players(MatchesOf(accepted)[i].a) == Players(MatchesOf(accepted)[i].b) == teamSize
  {
    forall x ensures Occurrences(Flatten(MatchesOf(accepted)), x) <= Occurrences(searches, x) {
      DisjointGamesFit(accepted, searches, teamSize, x);
    }
  }

  lemma {:induction false} SortedPlayable(searches: seq<Search>, teamSize: nat)
    requires Playable(searches, teamSize)
    ensures Playable(SortBy(searches, AverageRating), teamSize)
  {
    SortDistinct(searches, AverageRating);
    forall s | s in SortBy(searches, AverageRating) ensures s in searches { SortByMember(searches, AverageRating, s); }
  }
}
