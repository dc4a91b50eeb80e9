/** Pairing single opponents by proposals. */
module StableMarriage {
  import opened Lists
  import opened Searches
  import opened MatchingGraph

  type Matches = map<Search, Search>

  /** Being matched is mutual, and nobody is matched with themselves. */
  ghost predicate Involution(m: Matches) {
    forall s | s in m :: m[s] != s && m[s] in m && m[m[s]] == s
  }

  ghost predicate AlongEdges(m: Matches, graph: Graph, scale: Scale) {
    forall s | s in m :: HasEdge(graph, scale, s, m[s])
  }

  // ----- One proposal as a value

  function Marry(m: Matches, s1: Search, s2: Search): Matches {
    m[s1 := s2][s2 := s1]
  }

  function Divorce(m: Matches, s1: Search): Matches
    requires s1 in m
  {
    m - {s1, m[s1]}
  }

  /** The preferred opponent accepts when it is free, or when the proposal is better than its current match. */
  function Propose(m: Matches, scale: Scale, search: Search, preferred: Search, quality: real): Matches {
    if preferred !in m then Marry(m, search, preferred)
    else if quality > scale.quality(preferred, m[preferred]) then Marry(Divorce(m, preferred), search, preferred)
    else m
  }

  /** What a search contributes to the total quality; every pair is counted from both sides. */
  function Gain(m: Matches, scale: Scale, s: Search): real {
    if s in m then scale.quality(s, m[s]) else 0.0
  }

  function TotalQuality(m: Matches, scale: Scale, nodes: seq<Search>): real
    decreases |nodes|
  {
    if nodes == [] then 0.0 else Gain(m, scale, nodes[0]) + TotalQuality(m, scale, nodes[1..])
  }

  /** If the contribution of only one node changes, the total changes by as much. */
  lemma {:induction false} OneGainChanges(a: Matches, b: Matches, scale: Scale, nodes: seq<Search>, k: Search)
    requires Distinct(nodes) && forall s | s != k :: Gain(a, scale, s) == Gain(b, scale, s)
    ensures TotalQuality(b, scale, nodes) == TotalQuality(a, scale, nodes)
      + if k in nodes then Gain(b, scale, k) - Gain(a, scale, k) else 0.0
    decreases |nodes|
  {
    if nodes != [] {
      OneGainChanges(a, b, scale, nodes[1..], k);
      assert nodes == [nodes[0]] + nodes[1..];
    }
  }

  lemma {:induction false} MarryTotal(m: Matches, scale: Scale, nodes: seq<Search>, s1: Search, s2: Search)
    requires Distinct(nodes) && Sound(scale) && s1 in nodes && s2 in nodes && s1 != s2 && s1 !in m && s2 !in m
    ensures TotalQuality(Marry(m, s1, s2), scale, nodes) == TotalQuality(m, scale, nodes) + 2.0 * scale.quality(s1, s2)
  {
    OneGainChanges(m, m[s1 := s2], scale, nodes, s1);
    OneGainChanges(m[s1 := s2], Marry(m, s1, s2), scale, nodes, s2);
    assert scale.quality(s1, s2) == scale.quality(s2, s1);
  }

  lemma {:induction false} DivorceTotal(m: Matches, scale: Scale, nodes: seq<Search>, s: Search)
    requires Distinct(nodes) && Sound(scale) && s in m && Involution(m) && s in nodes && m[s] in nodes
    ensures TotalQuality(Divorce(m, s), scale, nodes) == TotalQuality(m, scale, nodes) - 2.0 * scale.quality(s, m[s])
  {
    OneGainChanges(m, m - {s}, scale, nodes, s);
    OneGainChanges(m - {s}, Divorce(m, s), scale, nodes, m[s]);
    assert scale.quality(s, m[s]) == scale.quality(m[s], s);
  }

  lemma {:induction false} DivorcePairs(m: Matches, s: Search)
    requires s in m && Involution(m)
    ensures |Divorce(m, s)| == |m| - 2
  {
    assert Divorce(m, s).Keys == m.Keys - {s} - {m[s]};
    assert m[s] in m.Keys - {s};
    assert |Divorce(m, s).Keys| == |m.Keys| - 2;
  }

  /** Matches that are mutual, run along edges of the graph, and concern only its nodes. */
  ghost predicate Proper(m: Matches, graph: Graph, scale: Scale, nodes: seq<Search>) {
    Involution(m) && AlongEdges(m, graph, scale) && forall s | s in m :: s in nodes
  }

  lemma {:induction false} EdgeBothWays(graph: Graph, scale: Scale, a: Search, b: Search)
    requires GoodEdges(graph, scale) && HasEdge(graph, scale, a, b)
    ensures a != b && HasEdge(graph, scale, b, a) && Acceptable(scale, a, b)
  {
    assert Edge(b, scale.quality(a, b)) in graph[a];
  }

  lemma {:induction false} MarryProper(m: Matches, graph: Graph, scale: Scale, nodes: seq<Search>, s1: Search,
      s2: Search)
    requires Proper(m, graph, scale, nodes) && s1 !in m && s2 !in m && s1 != s2 && s1 in nodes && s2 in nodes
    requires HasEdge(graph, scale, s1, s2) && HasEdge(graph, scale, s2, s1)
    ensures Proper(Marry(m, s1, s2), graph, scale, nodes)
  {
    hide HasEdge;
  }

  lemma {:induction false} DivorceProper(m: Matches, graph: Graph, scale: Scale, nodes: seq<Search>, s: Search)
    requires Proper(m, graph, scale, nodes) && s in m
    ensures Proper(Divorce(m, s), graph, scale, nodes)
    ensures s in nodes && m[s] in nodes && Involution(m)
  {
    hide HasEdge;
  }

  /**
   * A proposal keeps the matches mutual and along edges, never costs a pair, and only changes them for a better total.
   */
  lemma {:induction false} ProposalEffect(
      m: Matches, graph: Graph, scale: Scale, nodes: seq<Search>, search: Search, preferred: Search, quality: real)
    requires Sound(scale) && Distinct(nodes) && GoodEdges(graph, scale) && Proper(m, graph, scale, nodes)
    requires search !in m && search in nodes && preferred in nodes
    requires HasEdge(graph, scale, search, preferred) && quality == scale.quality(search, preferred)
    ensures var after := Propose(m, scale, search, preferred, quality);
      && Proper(after, graph, scale, nodes)
      && |after| >= |m| && |after| >= 2
      && (after != m ==> TotalQuality(after, scale, nodes) > TotalQuality(m, scale, nodes))
      && (after == m <==> preferred in m && quality <= scale.quality(preferred, m[preferred]))
  {
    hide Distinct, TotalQuality, GoodEdges, Proper, Involution, HasEdge;
    EdgeBothWays(graph, scale, search, preferred);
    if preferred !in m {
      MarryProper(m, graph, scale, nodes, search, preferred);
      MarryTotal(m, scale, nodes, search, preferred);
    } else {
      var rest := Divorce(m, preferred);
      DivorceProper(m, graph, scale, nodes, preferred);
      DivorcePairs(m, preferred);
      if quality > scale.quality(preferred, m[preferred]) {
        DivorceTotal(m, scale, nodes, preferred);
        MarryProper(rest, graph, scale, nodes, search, preferred);
        MarryTotal(rest, scale, nodes, search, preferred);
      }
    }
  }

  // ----- The whole procedure

  function MaxDegree(graph: Graph, nodes: seq<Search>): nat
    decreases |nodes|
  {
    if nodes == [] then 0
    else
      var rest := MaxDegree(graph, nodes[1..]);
      if nodes[0] in graph && |graph[nodes[0]]| > rest then |graph[nodes[0]]| else rest
  }

  /** What is left of the preference stacks: each is a front part of the original list. */
  ghost predicate Stacks(ranks: Graph, graph: Graph) {
    ranks.Keys == graph.Keys && forall s | s in ranks :: ranks[s] <= graph[s]
  }

  lemma {:induction false} PopPreference(ranks: Graph, graph: Graph, scale: Scale, search: Search)
    requires Stacks(ranks, graph) && GoodEdges(graph, scale) && search in ranks && ranks[search] != []
    ensures var n := |ranks[search]| - 1; var edge := ranks[search][n];
      && Stacks(ranks[search := ranks[search][..n]], graph)
      && edge.quality == scale.quality(search, edge.to) && HasEdge(graph, scale, search, edge.to) && edge.to in graph
  {
    var n := |ranks[search]| - 1;
    assert ranks[search][n] == graph[search][n];
    assert ranks[search][n] in graph[search];
  }

  // ----- The rounds as values

  /** What is left to try, who is matched, and who has been in a pair at some time. */
  datatype Progress = Progress(ranks: Graph, matches: Matches, paired: set<Search>)

  /** A search that is unmatched proposes to the best opponent it has not tried yet. */
  function Turn(p: Progress, scale: Scale, search: Search): Progress {
    if search in p.matches || search !in p.ranks || p.ranks[search] == [] then p
    else
      var n := |p.ranks[search]| - 1;
      var edge := p.ranks[search][n];
      var after := Propose(p.matches, scale, search, edge.to, edge.quality);
      Progress(p.ranks[search := p.ranks[search][..n]], after, p.paired + after.Keys)
  }

  lemma {:induction false} TurnStep(p: Progress, scale: Scale, search: Search)
    requires search in p.ranks
    ensures var after := Turn(p, scale, search);
      if search !in p.matches && p.ranks[search] != [] then
        var edge := p.ranks[search][|p.ranks[search]| - 1];
        && after.ranks == p.ranks[search := p.ranks[search][..|p.ranks[search]| - 1]]
        && after.matches == Propose(p.matches, scale, search, edge.to, edge.quality)
      else after == p
  {}

  /** The turns of the first `j` nodes. */
  function Turns(p: Progress, scale: Scale, nodes: seq<Search>, j: nat): Progress
    requires j <= |nodes|
  {
    if j == 0 then p else Turn(Turns(p, scale, nodes, j - 1), scale, nodes[j - 1])
  }

  function Rounds(graph: Graph, scale: Scale, nodes: seq<Search>, i: nat): Progress {
    if i == 0 then Progress(graph, map[], {}) else Turns(Rounds(graph, scale, nodes, i - 1), scale, nodes, |nodes|)
  }

  /** All that has been tried was in a pair. */
  ghost predicate Tried(p: Progress, graph: Graph) {
    && Stacks(p.ranks, graph) && p.matches.Keys <= p.paired
    && forall s, k | s in graph && |p.ranks[s]| <= k < |graph[s]| :: graph[s][k].to in p.paired
  }

  /** A search that was never in a pair has tried its `i` best opponents. */
  ghost predicate HasTried(p: Progress, graph: Graph, s: Search, i: nat)
    requires s in graph && s in p.ranks
  {
    s in p.paired || p.ranks[s] == [] || |p.ranks[s]| + i <= |graph[s]|
  }

  lemma {:induction false} TurnTries(p: Progress, graph: Graph, scale: Scale, search: Search)
    requires Tried(p, graph) && search in graph
    ensures var after := Turn(p, scale, search);
      && Tried(after, graph) && p.paired <= after.paired
      && (forall i: nat | HasTried(p, graph, search, i) :: HasTried(after, graph, search, i + 1))
      && (forall s | s in graph && s != search :: after.ranks[s] == p.ranks[s])
  {
    if search !in p.matches && p.ranks[search] != [] {
      var n := |p.ranks[search]| - 1;
      assert p.ranks[search][n] == graph[search][n];
      assert graph[search][n].to in Turn(p, scale, search).paired;
    }
  }

  /** After `j` turns of round `i` the first `j` nodes have tried once more. */
  ghost predicate InRound(p: Progress, graph: Graph, nodes: seq<Search>, i: nat, j: nat)
    requires Stacks(p.ranks, graph) && j <= |nodes| && forall s | s in nodes :: s in graph
  {
    forall k | 0 <= k < |nodes| :: HasTried(p, graph, nodes[k], if k < j then i + 1 else i)
  }

  lemma {:induction false} TurnsTry(p: Progress, graph: Graph, scale: Scale, nodes: seq<Search>, i: nat, j: nat)
    requires Tried(p, graph) && Distinct(nodes) && (forall s | s in nodes :: s in graph) && j <= |nodes|
    requires InRound(p, graph, nodes, i, 0)
    ensures Tried(Turns(p, scale, nodes, j), graph) && InRound(Turns(p, scale, nodes, j), graph, nodes, i, j)
    decreases j
  {
    if j > 0 {
      TurnsTry(p, graph, scale, nodes, i, j - 1);
      var before, search := Turns(p, scale, nodes, j - 1), nodes[j - 1];
      TurnTries(before, graph, scale, search);
      var after := Turn(before, scale, search);
      hide Turn, Turns, Tried, Stacks, HasTried, Distinct;
      assert forall k | 0 <= k < |nodes| :: nodes[k] in graph;
      forall k | 0 <= k < |nodes| ensures HasTried(after, graph, nodes[k], if k < j then i + 1 else i) {
        assert HasTried(before, graph, nodes[k], if k < j - 1 then i + 1 else i);
        if k < j - 1 { DistinctIndices(nodes, k, j - 1); }
        if k > j - 1 { DistinctIndices(nodes, j - 1, k); }
        if k != j - 1 { SameTried(before, after, graph, nodes[k], if k < j - 1 then i + 1 else i); }
      }
    }
  }

  lemma {:induction false} SameTried(p: Progress, after: Progress, graph: Graph, s: Search, i: nat)
    requires s in graph && s in p.ranks && s in after.ranks && HasTried(p, graph, s, i)
    requires p.paired <= after.paired && after.ranks[s] == p.ranks[s]
    ensures HasTried(after, graph, s, i)
  {}

  lemma {:induction false} RoundsTry(graph: Graph, scale: Scale, nodes: seq<Search>, i: nat)
    requires Distinct(nodes) && forall s | s in nodes :: s in graph
    ensures Tried(Rounds(graph, scale, nodes, i), graph) && InRound(Rounds(graph, scale, nodes, i), graph, nodes, i, 0)
    decreases i
  {
    if i > 0 {
      RoundsTry(graph, scale, nodes, i - 1);
      TurnsTry(Rounds(graph, scale, nodes, i - 1), graph, scale, nodes, i - 1, |nodes|);
    }
  }

  lemma {:induction false} DegreeBound(graph: Graph, nodes: seq<Search>, s: Search)
    requires s in nodes && s in graph
    ensures |graph[s]| <= MaxDegree(graph, nodes)
    decreases |nodes|
  {
    if s != nodes[0] { DegreeBound(graph, nodes[1..], s); }
  }

  /** The result of all rounds. */
  function Proposals(graph: Graph, scale: Scale, nodes: seq<Search>): Progress {
    Rounds(graph, scale, nodes, MaxDegree(graph, nodes))
  }

  /** After all rounds, of any two possible opponents one has been in a pair: who never was has tried everybody. */
  lemma {:induction false} NeverPaired(graph: Graph, scale: Scale, nodes: seq<Search>, a: Search, b: Search)
    requires Distinct(nodes) && NodesOf(graph, nodes) && HasEdge(graph, scale, a, b)
    ensures var p := Proposals(graph, scale, nodes);
      p.matches.Keys <= p.paired && (a in p.paired || b in p.paired)
  {
    var p, n := Proposals(graph, scale, nodes), MaxDegree(graph, nodes);
    RoundsTry(graph, scale, nodes, n);
    assert a in nodes;
    DegreeBound(graph, nodes, a);
    var j :| 0 <= j < |nodes| && nodes[j] == a;
    assert HasTried(p, graph, nodes[j], n);
    var k :| 0 <= k < |graph[a]| && graph[a][k] == Edge(b, scale.quality(a, b));
    assert a !in p.paired ==> p.ranks[a] == [];
  }

  /** Nobody counts as having been in a pair who was not matched after some turn. */
  lemma {:induction false} WasMatched(graph: Graph, scale: Scale, nodes: seq<Search>, i: nat, s: Search)
    requires s in Rounds(graph, scale, nodes, i).paired
    ensures exists k, j :: 0 <= k < i && 0 <= j <= |nodes|
                           && s in Turns(Rounds(graph, scale, nodes, k), scale, nodes, j).matches
    decreases i
  {
    if s in Rounds(graph, scale, nodes, i - 1).paired {
      WasMatched(graph, scale, nodes, i - 1, s);
    } else {
      var j := MatchedInRound(Rounds(graph, scale, nodes, i - 1), scale, nodes, |nodes|, s);
    }
  }

  lemma {:induction false} MatchedInRound(p: Progress, scale: Scale, nodes: seq<Search>, n: nat, s: Search)
    returns (j: nat)
    requires n <= |nodes| && s in Turns(p, scale, nodes, n).paired && s !in p.paired
    ensures j <= n && s in Turns(p, scale, nodes, j).matches
    decreases n
  {
    if s in Turns(p, scale, nodes, n - 1).paired {
      j := MatchedInRound(p, scale, nodes, n - 1, s);
    } else {
      j := n;
    }
  }

  /** Once everybody is matched nothing changes any more. */
  lemma {:induction false} AllMatched(graph: Graph, scale: Scale, nodes: seq<Search>, i: nat, n: nat)
    requires i <= n && forall s | s in nodes :: s in Rounds(graph, scale, nodes, i).matches
    ensures Rounds(graph, scale, nodes, n) == Rounds(graph, scale, nodes, i)
    decreases n
  {
    if i < n {
      AllMatched(graph, scale, nodes, i, n - 1);
      NoTurns(Rounds(graph, scale, nodes, n - 1), scale, nodes, |nodes|);
    }
  }

  lemma {:induction false} NoTurns(p: Progress, scale: Scale, nodes: seq<Search>, j: nat)
    requires j <= |nodes| && forall s | s in nodes :: s in p.matches
    ensures Turns(p, scale, nodes, j) == p
    decreases j
  {
    if j > 0 { NoTurns(p, scale, nodes, j - 1); }
  }

  /** Nobody can propose before someone has a possible opponent. */
  ghost predicate NoOpponents(graph: Graph, nodes: seq<Search>, n: nat)
    requires n <= |nodes|
  {
    forall k | 0 <= k < n :: nodes[k] in graph ==> graph[nodes[k]] == []
  }

  lemma {:induction false} MaxDegreeZero(graph: Graph, nodes: seq<Search>)
    ensures MaxDegree(graph, nodes) == 0 <==> NoOpponents(graph, nodes, |nodes|)
    decreases |nodes|
  {
    if nodes != [] {
      MaxDegreeZero(graph, nodes[1..]);
      assert forall k | 0 <= k < |nodes| - 1 :: nodes[1..][k] == nodes[k + 1];
      if NoOpponents(graph, nodes, |nodes|) {
        assert nodes[0] in graph ==> graph[nodes[0]] == [];
      } else {
        var k :| 0 <= k < |nodes| && nodes[k] in graph && graph[nodes[k]] != [];
        assert k > 0 ==> nodes[1..][k - 1] == nodes[k];
      }
    }
  }

  class StableMarriageSolver {
    var matches: Matches
    var searchesRemainingUnmatched: set<Search>

    constructor ()
      ensures matches == map[] && searchesRemainingUnmatched == {}
    {
      matches, searchesRemainingUnmatched := map[], {};
    }

    method MatchUp(s1: Search, s2: Search)
      modifies this
      ensures matches == Marry(old(matches), s1, s2)
      ensures searchesRemainingUnmatched == old(searchesRemainingUnmatched) - {s1, s2}
    {
      matches := matches[s1 := s2];
      matches := matches[s2 := s1];
      searchesRemainingUnmatched := searchesRemainingUnmatched - {s1};
      searchesRemainingUnmatched := searchesRemainingUnmatched - {s2};
    }

    method Unmatch(s1: Search)
      requires s1 in matches && matches[s1] in matches && matches[matches[s1]] == s1
      modifies this
      ensures matches == Divorce(old(matches), s1)
      ensures searchesRemainingUnmatched == old(searchesRemainingUnmatched) + {s1, old(matches)[s1]}
    {
      var s2 := matches[s1];
      matches := matches - {s1};
      matches := matches - {s2};
      searchesRemainingUnmatched := searchesRemainingUnmatched + {s1};
      searchesRemainingUnmatched := searchesRemainingUnmatched + {s2};
    }

    method ProposeTo(search: Search, preferred: Search, newQuality: real, scale: Scale)
      requires Involution(matches)
      modifies this
      ensures matches == Propose(old(matches), scale, search, preferred, newQuality)
    {
      if preferred !in matches {
        MatchUp(search, preferred);
        return;
      }
      var currentQuality := scale.quality(preferred, matches[preferred]);
      if newQuality > currentQuality {
        Unmatch(preferred);
        MatchUp(search, preferred);
      }
    }

    /** One proposal of an unmatched search to the best opponent it has not yet tried. */
    method OneProposal(ranks: Graph, search: Search, ghost graph: Graph, ghost nodes: seq<Search>, scale: Scale)
      returns (left: Graph)
      requires Sound(scale) && Distinct(nodes) && GoodEdges(graph, scale) && NodesOf(graph, nodes)
      requires Proper(matches, graph, scale, nodes) && Stacks(ranks, graph)
      requires search in ranks && search !in matches && ranks[search] != []
      modifies this
      ensures left == ranks[search := ranks[search][..|ranks[search]| - 1]] && Stacks(left, graph)
      ensures Proper(matches, graph, scale, nodes) && |matches| >= |old(matches)| && |matches| >= 2
      ensures matches != old(matches) ==> TotalQuality(matches, scale, nodes) > TotalQuality(old(matches), scale, nodes)
      ensures var edge := ranks[search][|ranks[search]| - 1];
        matches == Propose(old(matches), scale, search, edge.to, edge.quality)
    {
      PopPreference(ranks, graph, scale, search);
      var n := |ranks[search]| - 1;
      var edge := ranks[search][n];
      left := ranks[search := ranks[search][..n]];
      ProposalEffect(matches, graph, scale, nodes, search, edge.to, edge.quality);
      ProposeTo(search, edge.to, edge.quality, scale);
    }

    /** Rounds of proposals; the nodes are visited in dictionary order. */
    method Find(graph: Graph, nodes: seq<Search>, scale: Scale) returns (result: Matches)
      requires Sound(scale) && Distinct(nodes) && GoodEdges(graph, scale) && NodesOf(graph, nodes)
      modifies this
      ensures result == matches && Proper(result, graph, scale, nodes)
      ensures result == Proposals(graph, scale, nodes).matches
      ensures |result| >= 2 || NoOpponents(graph, nodes, |nodes|)
    {
      hide Proper, GoodEdges, Distinct, Stacks, NoOpponents, HasEdge, Propose, Turn, MaxDegree, TotalQuality;
      matches := map[];
      var ranks := graph;
      ghost var p := Progress(graph, map[], {});
      StartProper(graph, scale, nodes);
      var maxDegree := MaxDegree(graph, nodes);
      MaxDegreeZero(graph, nodes);
      for i := 0 to maxDegree
        invariant p == Rounds(graph, scale, nodes, i) && ranks == p.ranks && matches == p.matches
        invariant Proper(matches, graph, scale, nodes) && Stacks(ranks, graph)
        invariant i == 0 ==> ranks == graph && matches == map[]
        invariant i > 0 ==> |matches| >= 2
      {
        if |matches| == |graph| {
          Everybody(matches, graph, scale, nodes);
          AllMatched(graph, scale, nodes, i, maxDegree);
          if nodes != [] { assert nodes[0] in matches; }
          NothingSeen(graph, nodes);
          break;
        }
        NothingSeen(graph, nodes);
        ghost var start := p;
        for j := 0 to |nodes|
          invariant p == Turns(start, scale, nodes, j) && ranks == p.ranks && matches == p.matches
          invariant Proper(matches, graph, scale, nodes) && Stacks(ranks, graph)
          invariant i > 0 ==> |matches| >= 2
          invariant |matches| >= 2 || (NoOpponents(graph, nodes, j) && ranks == graph && matches == map[])
        {
          var search := nodes[j];
          NodeIn(graph, nodes, j, ranks);
          TurnStep(p, scale, search);
          if search !in matches && ranks[search] != [] {
            ranks := OneProposal(ranks, search, graph, nodes, scale);
          } else if |matches| < 2 {
            NoneYet(graph, nodes, j);
          }
          p := Turn(p, scale, search);
        }
      }
      result := matches;
    }
  }

  lemma {:induction false} Everybody(m: Matches, graph: Graph, scale: Scale, nodes: seq<Search>)
    requires Proper(m, graph, scale, nodes) && NodesOf(graph, nodes) && |m| == |graph|
    ensures forall s | s in nodes :: s in m
  {
    assert m.Keys <= graph.Keys;
    if s :| s in nodes && s !in m {
      assert m.Keys <= graph.Keys - {s};
      SubsetSize(m.Keys, graph.Keys - {s});
    }
  }

  lemma {:induction false} SubsetSize(a: set<Search>, b: set<Search>)
    requires a <= b
    ensures |a| <= |b|
    decreases a
  {
    if x :| x in a { SubsetSize(a - {x}, b - {x}); }
  }

  lemma {:induction false} StartProper(graph: Graph, scale: Scale, nodes: seq<Search>)
    ensures Proper(map[], graph, scale, nodes) && Stacks(graph, graph)
  {}

  lemma {:induction false} NothingSeen(graph: Graph, nodes: seq<Search>)
    ensures NoOpponents(graph, nodes, 0)
  {}

  lemma {:induction false} NodeIn(graph: Graph, nodes: seq<Search>, j: nat, ranks: Graph)
    requires NodesOf(graph, nodes) && j < |nodes| && Stacks(ranks, graph)
    ensures nodes[j] in graph && nodes[j] in ranks
  {}

  lemma {:induction false} NoneYet(graph: Graph, nodes: seq<Search>, j: nat)
    requires j < |nodes| && NoOpponents(graph, nodes, j) && nodes[j] in graph && graph[nodes[j]] == []
    ensures NoOpponents(graph, nodes, j + 1)
  {}
}
