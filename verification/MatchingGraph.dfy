/** The graph of possible opponents, with its edges sorted by match quality. */
module MatchingGraph {
  import opened Lists
  import opened Searches
  import opened Sorting

  /** The quality of a game between two searches, and the least quality each search accepts. */
  datatype Scale = Scale(quality: (Search, Search) -> real, threshold: Search -> real)

  /** What is assumed of the rating library: a symmetric, positive quality. */
  ghost predicate Sound(scale: Scale) {
    forall a, b :: scale.quality(a, b) == scale.quality(b, a) > 0.0
  }

  predicate Acceptable(scale: Scale, a: Search, b: Search) {
    scale.quality(a, b) >= scale.threshold(a) && scale.quality(a, b) >= scale.threshold(b)
  }

  datatype Edge = Edge(to: Search, quality: real)

  function EdgeQuality(e: Edge): real {
    e.quality
  }

  type Graph = map<Search, seq<Edge>>

  predicate HasEdge(graph: Graph, scale: Scale, a: Search, b: Search) {
    a in graph && Edge(b, scale.quality(a, b)) in graph[a]
  }

  /**
   * Every edge joins two different nodes that accept each other, carries their quality, and exists in both directions.
   */
  ghost predicate GoodEdges(graph: Graph, scale: Scale) {
    forall a, e | a in graph && e in graph[a] ::
      && e.to in graph && e.to != a
      && e.quality == scale.quality(a, e.to)
      && Acceptable(scale, a, e.to)
      && HasEdge(graph, scale, e.to, a)
  }

  function AddEdge(graph: Graph, scale: Scale, a: Search, b: Search): Graph
    requires a in graph && b in graph
  {
    var quality := scale.quality(a, b);
    var half := graph[a := graph[a] + [Edge(b, quality)]];
    half[b := half[b] + [Edge(a, quality)]]
  }

  /** An edge is only added: everything that was there stays, and the new pair is joined. */
  lemma {:induction false} AddEdgeEffect(graph: Graph, scale: Scale, a: Search, b: Search)
    requires Sound(scale) && GoodEdges(graph, scale) && a in graph && b in graph && a != b && Acceptable(scale, a, b)
    ensures GoodEdges(AddEdge(graph, scale, a, b), scale)
    ensures HasEdge(AddEdge(graph, scale, a, b), scale, a, b)
    ensures forall x, y | HasEdge(graph, scale, x, y) :: HasEdge(AddEdge(graph, scale, a, b), scale, x, y)
  {
    var after := AddEdge(graph, scale, a, b);
    assert scale.quality(a, b) == scale.quality(b, a);
    forall x: Search, e: Edge | x in after && e in after[x]
      ensures e.to in after && e.to != x && e.quality == scale.quality(x, e.to) && Acceptable(scale, x, e.to)
      ensures HasEdge(after, scale, e.to, x)
    {
      if x == a && e == Edge(b, scale.quality(a, b)) {
      } else if x == b && e == Edge(a, scale.quality(a, b)) {
      } else {
        assert e in graph[x];
        assert HasEdge(graph, scale, e.to, x);
      }
    }
  }

  /**
   * The pairs looked at before position (i, j), among searches at most `window` places apart, are joined if they accept
   * each other.
   */
  ghost predicate Joined(graph: Graph, scale: Scale, searches: seq<Search>, window: nat, i: nat, j: nat) {
    forall x, y | 0 <= x < y < |searches| && y <= x + window && (x < i || (x == i && y < j))
        && Acceptable(scale, searches[x], searches[y]) ::
      HasEdge(graph, scale, searches[x], searches[y])
  }

  /** No search is joined to one more than `window` places away. */
  ghost predicate Near(graph: Graph, scale: Scale, searches: seq<Search>, window: nat) {
    forall x, y | 0 <= x < y < |searches| && HasEdge(graph, scale, searches[x], searches[y]) :: y <= x + window
  }

  /** Adding an edge joins the two searches, and no others. */
  lemma {:induction false} AddEdgeOnly(graph: Graph, scale: Scale, a: Search, b: Search, x: Search, y: Search)
    requires a in graph && b in graph && HasEdge(AddEdge(graph, scale, a, b), scale, x, y)
    ensures HasEdge(graph, scale, x, y) || (x == a && y == b) || (x == b && y == a)
  {}

  lemma {:induction false} StaysNear(graph: Graph, scale: Scale, searches: seq<Search>, window: nat, i: nat, j: nat)
    requires Distinct(searches) && NodesOf(graph, searches) && Near(graph, scale, searches, window)
    requires i < j < |searches| && j <= i + window
    ensures searches[i] in graph && searches[j] in graph
    ensures Near(AddEdge(graph, scale, searches[i], searches[j]), scale, searches, window)
  {
    assert searches[i] in searches && searches[j] in searches;
    var after := AddEdge(graph, scale, searches[i], searches[j]);
    hide AddEdge, Distinct;
    forall x, y | 0 <= x < y < |searches| && HasEdge(after, scale, searches[x], searches[y]) ensures y <= x + window {
      AddEdgeOnly(graph, scale, searches[i], searches[j], searches[x], searches[y]);
      if !HasEdge(graph, scale, searches[x], searches[y]) {
        SamePlaces(searches, x, i);
        SamePlaces(searches, y, j);
        SamePlaces(searches, x, j);
        SamePlaces(searches, y, i);
      }
    }
  }

  lemma {:induction false} SamePlaces(searches: seq<Search>, x: nat, i: nat)
    requires Distinct(searches) && x < |searches| && i < |searches|
    ensures searches[x] == searches[i] ==> x == i
  {
    if x < i { DistinctIndices(searches, x, i); }
    if i < x { DistinctIndices(searches, i, x); }
  }

  ghost predicate NodesOf(graph: Graph, searches: seq<Search>) {
    forall s :: s in graph <==> s in searches
  }

  function NoEdges(searches: seq<Search>): Graph {
    map s | s in searches :: []
  }

  lemma {:induction false} PairStep(graph: Graph, scale: Scale, searches: seq<Search>, window: nat, i: nat, j: nat)
    requires Distinct(searches) && Sound(scale) && i < j < |searches|
    requires NodesOf(graph, searches) && GoodEdges(graph, scale) && Joined(graph, scale, searches, window, i, j)
    ensures searches[i] != searches[j] && searches[i] in graph && searches[j] in graph
    ensures var after :=
              if Acceptable(scale, searches[i], searches[j]) then AddEdge(graph, scale, searches[i], searches[j])
              else graph;
      NodesOf(after, searches) && GoodEdges(after, scale) && Joined(after, scale, searches, window, i, j + 1)
  {
    hide GoodEdges, Distinct, AddEdge;
    DistinctIndices(searches, i, j);
    assert searches[i] in searches && searches[j] in searches;
    if Acceptable(scale, searches[i], searches[j]) {
      AddEdgeEffect(graph, scale, searches[i], searches[j]);
      AddEdgeNodes(graph, scale, searches[i], searches[j]);
    }
  }

  lemma {:induction false} AddEdgeNodes(graph: Graph, scale: Scale, a: Search, b: Search)
    requires a in graph && b in graph
    ensures AddEdge(graph, scale, a, b).Keys == graph.Keys
  {}

  lemma {:induction false} NextRow(graph: Graph, scale: Scale, searches: seq<Search>, window: nat, i: nat, end: nat)
    requires i < |searches| && (end == |searches| || end == i + 1 + window)
    ensures Joined(graph, scale, searches, window, i, 0) ==> Joined(graph, scale, searches, window, i, i + 1)
    ensures Joined(graph, scale, searches, window, i, end) ==> Joined(graph, scale, searches, window, i + 1, 0)
  {
    hide HasEdge;
  }

  lemma {:induction false} NoEdgesGood(searches: seq<Search>, window: nat, scale: Scale)
    ensures NodesOf(NoEdges(searches), searches) && GoodEdges(NoEdges(searches), scale)
    ensures Joined(NoEdges(searches), scale, searches, window, 0, 0)
    ensures Near(NoEdges(searches), scale, searches, window)
  {}

  /** Looks at every pair once and keeps those that accept each other. */
  method AddAllEdges(searches: seq<Search>, scale: Scale) returns (graph: Graph)
    requires Distinct(searches) && Sound(scale)
    ensures NodesOf(graph, searches) && GoodEdges(graph, scale)
    ensures Joined(graph, scale, searches, |searches|, |searches|, 0)
  {
    hide NodesOf, GoodEdges, Joined, Distinct, AddEdge;
    var n := |searches|;
    graph := NoEdges(searches);
    NoEdgesGood(searches, n, scale);
    for i := 0 to n
      invariant NodesOf(graph, searches) && GoodEdges(graph, scale) && Joined(graph, scale, searches, n, i, 0)
    {
      NextRow(graph, scale, searches, n, i, n);
      for j := i + 1 to n
        invariant NodesOf(graph, searches) && GoodEdges(graph, scale) && Joined(graph, scale, searches, n, i, j)
      {
        PairStep(graph, scale, searches, n, i, j);
        if Acceptable(scale, searches[i], searches[j]) {
          graph := AddEdge(graph, scale, searches[i], searches[j]);
        }
      }
      NextRow(graph, scale, searches, n, i, n);
    }
  }

  /** Looks only at the next `window` searches of the sorted list. */
  method AddNearbyEdges(searches: seq<Search>, window: nat, scale: Scale) returns (graph: Graph)
    requires Distinct(searches) && Sound(scale)
    ensures NodesOf(graph, searches) && GoodEdges(graph, scale)
    ensures Joined(graph, scale, searches, window, |searches|, 0) && Near(graph, scale, searches, window)
  {
    hide NodesOf, GoodEdges, Joined, Near, Distinct, AddEdge;
    graph := NoEdges(searches);
    NoEdgesGood(searches, window, scale);
    for i := 0 to |searches|
      invariant NodesOf(graph, searches) && GoodEdges(graph, scale) && Joined(graph, scale, searches, window, i, 0)
      invariant Near(graph, scale, searches, window)
    {
      var end := if i + 1 + window < |searches| then i + 1 + window else |searches|;
      NextRow(graph, scale, searches, window, i, end);
      for j := i + 1 to end
        invariant NodesOf(graph, searches) && GoodEdges(graph, scale) && Joined(graph, scale, searches, window, i, j)
        invariant Near(graph, scale, searches, window)
      {
        StaysNear(graph, scale, searches, window, i, j);
        PairStep(graph, scale, searches, window, i, j);
        if Acceptable(scale, searches[i], searches[j]) {
          graph := AddEdge(graph, scale, searches[i], searches[j]);
        }
      }
      NextRow(graph, scale, searches, window, i, end);
    }
  }

  // ----- Sorting the neighbours

  ghost predicate SortedEdges(graph: Graph) {
    forall s | s in graph :: SortedBy(graph[s], EdgeQuality)
  }

  function SortNeighbors(graph: Graph): Graph {
    map s | s in graph :: SortBy(graph[s], EdgeQuality)
  }

  lemma {:induction false} SortNeighborsKeeps(graph: Graph, scale: Scale)
    ensures SortedEdges(SortNeighbors(graph))
    ensures forall s :: s in SortNeighbors(graph) <==> s in graph
    ensures forall s, e | s in graph :: e in SortNeighbors(graph)[s] <==> e in graph[s]
    ensures forall a, b :: HasEdge(SortNeighbors(graph), scale, a, b) <==> HasEdge(graph, scale, a, b)
    ensures GoodEdges(graph, scale) ==> GoodEdges(SortNeighbors(graph), scale)
  {
    forall s | s in graph ensures SortedBy(SortBy(graph[s], EdgeQuality), EdgeQuality) {
      SortBySorted(graph[s], EdgeQuality);
    }
    forall s, e | s in graph ensures e in SortNeighbors(graph)[s] <==> e in graph[s] {
      SortByMember(graph[s], EdgeQuality, e);
    }
  }

  /** A graph whose edges all belong to the acceptable pairs of `searches`. */
  ghost predicate IsMatchingGraph(graph: Graph, searches: seq<Search>, scale: Scale) {
    NodesOf(graph, searches) && GoodEdges(graph, scale) && SortedEdges(graph)
  }

  /** Two searches are joined exactly when both accept the game. */
  method BuildFull(searches: seq<Search>, scale: Scale) returns (graph: Graph)
    requires Distinct(searches) && Sound(scale)
    ensures IsMatchingGraph(graph, searches, scale)
    ensures forall a, b | a in searches && b in searches && a != b ::
      HasEdge(graph, scale, a, b) <==> Acceptable(scale, a, b)
  {
    hide GoodEdges, NodesOf, Joined, SortNeighbors, SortedEdges, HasEdge;
    graph := AddAllEdges(searches, scale);
    FullGraph(graph, searches, scale);
    SortNeighborsKeeps(graph, scale);
    SortedNodes(graph, searches);
    graph := SortNeighbors(graph);
  }

  lemma {:induction false} SortedNodes(graph: Graph, searches: seq<Search>)
    requires NodesOf(graph, searches)
    ensures NodesOf(SortNeighbors(graph), searches)
  {}

  lemma {:induction false} FullGraph(graph: Graph, searches: seq<Search>, scale: Scale)
    requires Sound(scale) && NodesOf(graph, searches) && GoodEdges(graph, scale)
    requires Joined(graph, scale, searches, |searches|, |searches|, 0)
    ensures forall a, b | a in searches && b in searches && a != b ::
      HasEdge(graph, scale, a, b) <==> Acceptable(scale, a, b)
  {
    forall a, b | a in searches && b in searches && a != b
      ensures HasEdge(graph, scale, a, b) <==> Acceptable(scale, a, b)
    {
      assert scale.quality(a, b) == scale.quality(b, a);
      var i :| 0 <= i < |searches| && searches[i] == a;
      var j :| 0 <= j < |searches| && searches[j] == b;
      if Acceptable(scale, a, b) {
        assert i < j ==> HasEdge(graph, scale, searches[i], searches[j]);
        assert j < i ==> HasEdge(graph, scale, searches[j], searches[i]);
        assert HasEdge(graph, scale, b, a) ==> HasEdge(graph, scale, a, b);
      }
    }
  }

  function Log2(n: nat): nat
    requires n > 0
  {
    if n == 1 then 0 else 1 + Log2(n / 2)
  }

  function Pow2(n: nat): nat {
    if n == 0 then 1 else 2 * Pow2(n - 1)
  }

  /** The whole part of the binary logarithm. */
  lemma {:induction false} Log2Bounds(n: nat)
    requires n > 0
    ensures Pow2(Log2(n)) <= n < 2 * Pow2(Log2(n))
    decreases n
  {
    if n > 1 { Log2Bounds(n / 2); }
  }

  /** Half the binary logarithm of the number of searches (at least 16) on either side. */
  function NumToCheck(n: nat): nat {
    Log2(if n < 16 then 16 else n) / 2
  }

  lemma {:induction false} Pow2Grows(a: nat, b: nat)
    requires a <= b
    ensures Pow2(a) <= Pow2(b)
    decreases b
  {
    if a < b { Pow2Grows(a, b - 1); }
  }

  /** The largest k with 4^k within the number of searches, or within 16 if there are fewer. */
  lemma {:induction false} WindowSize(n: nat)
    ensures var checked := if n < 16 then 16 else n;
      Pow2(2 * NumToCheck(n)) <= checked < Pow2(2 * NumToCheck(n) + 2)
  {
    var checked := if n < 16 then 16 else n;
    Log2Bounds(checked);
    Pow2Grows(2 * NumToCheck(n), Log2(checked));
    Pow2Grows(Log2(checked) + 1, 2 * NumToCheck(n) + 2);
  }

  method BuildFast(searches: seq<Search>, scale: Scale, averageMean: Search -> real) returns (graph: Graph)
    requires Distinct(searches) && Sound(scale)
    ensures IsMatchingGraph(graph, searches, scale)
    ensures Joined(graph, scale, SortBy(searches, averageMean), NumToCheck(|searches|), |searches|, 0)
    ensures Near(graph, scale, SortBy(searches, averageMean), NumToCheck(|searches|))
  {
    var sorted := SortBy(searches, averageMean);
    SortDistinct(searches, averageMean);
    graph := AddNearbyEdges(sorted, NumToCheck(|searches|), scale);
    SortNeighborsKeeps(graph, scale);
    graph := SortNeighbors(graph);
    forall s ensures s in graph <==> s in searches { SortByMember(searches, averageMean, s); }
  }

  lemma {:induction false} SortDistinct(searches: seq<Search>, key: Search -> real)
    requires Distinct(searches)
    ensures Distinct(SortBy(searches, key))
  {
    forall x ensures Occurrences(SortBy(searches, key), x) <= 1 {
      SortByOccurrences(searches, key, x);
      DistinctOnce(searches, x);
    }
    OnceDistinct(SortBy(searches, key));
  }

  /** The fast graph is part of the full one. */
  lemma {:induction false} FastWithinFull(fast: Graph, full: Graph, searches: seq<Search>, scale: Scale, a: Search,
      b: Search)
    requires IsMatchingGraph(fast, searches, scale)
    requires forall x, y | x in searches && y in searches && x != y ::
      HasEdge(full, scale, x, y) <==> Acceptable(scale, x, y)
    requires HasEdge(fast, scale, a, b)
    ensures HasEdge(full, scale, a, b)
  {}

  /** Deletes the searches without possible opponents. */
  function RemoveIsolated(graph: Graph): Graph {
    map s | s in graph && graph[s] != [] :: graph[s]
  }

  /** What is left is closed: every opponent that can be proposed to is still there. */
  lemma {:induction false} RemoveIsolatedClosed(graph: Graph, scale: Scale)
    requires GoodEdges(graph, scale) && SortedEdges(graph)
    ensures GoodEdges(RemoveIsolated(graph), scale) && SortedEdges(RemoveIsolated(graph))
    ensures forall s | s in RemoveIsolated(graph) :: RemoveIsolated(graph)[s] != []
    ensures forall a, b :: HasEdge(RemoveIsolated(graph), scale, a, b) <==> HasEdge(graph, scale, a, b)
  {}
}
