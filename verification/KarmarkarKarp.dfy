/** The differencing method that splits the searches of a game into two teams of similar strength. */
module KarmarkarKarp {
  import opened Searches
  import opened Sorting

  /** The strength the algorithm balances: 5000 per player dominates the ratings. */
  function Weight(s: Search): real {
    5000.0 * s.players as real + s.rating
  }

  function TotalWeight(team: seq<Search>): real {
    if team == [] then 0.0 else Weight(team[0]) + TotalWeight(team[1..])
  }

  /** A single search, or two containers that have to go into different teams. */
  datatype Container = Leaf(search: Search) | Pair(difference: real, higher: Container, lower: Container)

  function RatingOf(c: Container): real {
    match c
    case Leaf(s) => Weight(s)
    case Pair(d, _, _) => d
  }

  /** The searches that join the container's own team, and those that go to the other one. */
  function Own(c: Container): (team: seq<Search>)
    ensures team != []
  {
    match c
    case Leaf(s) => [s]
    case Pair(_, higher, lower) => Own(higher) + Other(lower)
  }

  function Other(c: Container): (team: seq<Search>)
    ensures c.Pair? ==> team != []
  {
    match c
    case Leaf(_) => []
    case Pair(_, higher, lower) => Other(higher) + Own(lower)
  }

  ghost predicate Consistent(c: Container) {
    c.Pair? ==>
      c.difference == RatingOf(c.higher) - RatingOf(c.lower) && Consistent(c.higher) && Consistent(c.lower)
  }

  lemma {:induction false} TotalWeightConcat(a: seq<Search>, b: seq<Search>)
    ensures TotalWeight(a + b) == TotalWeight(a) + TotalWeight(b)
    decreases |a|
  {
    if a == [] {
      assert a + b == b;
    } else {
      TotalWeightConcat(a[1..], b);
      assert (a + b)[1..] == a[1..] + b;
    }
  }

  lemma {:induction false} TotalWeightWithout(team: seq<Search>, x: Search)
    requires x in team
    ensures TotalWeight(team) == Weight(x) + TotalWeight(Without(team, x))
    decreases |team|
  {
    if team[0] != x {
      TotalWeightWithout(team[1..], x);
      var rest := Without(team[1..], x);
      assert ([team[0]] + rest)[1..] == rest;
    }
  }

  lemma {:induction false} TotalWeightPermutation(a: seq<Search>, b: seq<Search>)
    requires Permutation(a, b)
    ensures TotalWeight(a) == TotalWeight(b)
    decreases |a|
  {
    if a == [] {
      PermutationEmpty(b);
    } else {
      PermutationTail(a, b);
      TotalWeightWithout(b, a[0]);
      TotalWeightPermutation(a[1..], Without(b, a[0]));
    }
  }

  /** The rating of a container is the advantage of its own team. */
  lemma {:induction false} RatingIsAdvantage(c: Container)
    requires Consistent(c)
    ensures RatingOf(c) == TotalWeight(Own(c)) - TotalWeight(Other(c))
  {
    if c.Pair? {
      RatingIsAdvantage(c.higher);
      RatingIsAdvantage(c.lower);
      TotalWeightConcat(Own(c.higher), Other(c.lower));
      TotalWeightConcat(Other(c.higher), Own(c.lower));
    }
  }

  // ----- The sorted list of containers

  /** The list of containers is kept sorted by rating. */
  function Insert(cs: seq<Container>, c: Container): (r: seq<Container>)
    ensures |r| == |cs| + 1
  {
    InsertBy(cs, c, RatingOf)
  }

  function Initial(searches: seq<Search>): (cs: seq<Container>)
    ensures |cs| == |searches|
  {
    if searches == [] then [] else Insert(Initial(searches[..|searches| - 1]), Leaf(searches[|searches| - 1]))
  }

  /** How often a search occurs in a container, and in all containers of a list or stack. */
  function InContainer(c: Container, x: Search): nat {
    Occurrences(Own(c), x) + Occurrences(Other(c), x)
  }

  function InAll(cs: seq<Container>, x: Search): nat {
    if cs == [] then 0 else InAll(cs[..|cs| - 1], x) + InContainer(cs[|cs| - 1], x)
  }

  lemma {:induction false} InsertConserves(cs: seq<Container>, c: Container, x: Search)
    ensures InAll(Insert(cs, c), x) == InAll(cs, x) + InContainer(c, x)
    decreases |cs|
  {
    var n := |cs|;
    if n == 0 || RatingOf(cs[n - 1]) <= RatingOf(c) {
      assert (cs + [c])[..n] == cs;
    } else {
      InsertConserves(cs[..n - 1], c, x);
      var before := Insert(cs[..n - 1], c);
      assert (before + [cs[n - 1]])[..n] == before;
    }
  }

  /** The two highest containers become one: their searches go to different teams. */
  function Difference(higher: Container, lower: Container): Container {
    Pair(RatingOf(higher) - RatingOf(lower), higher, lower)
  }

  lemma {:induction false} DifferenceConserves(higher: Container, lower: Container, x: Search)
    ensures InContainer(Difference(higher, lower), x) == InContainer(higher, x) + InContainer(lower, x)
  {
    OccurrencesConcat(Own(higher), Other(lower), x);
    OccurrencesConcat(Other(higher), Own(lower), x);
  }

  /** Repeatedly replaces the two highest containers by their difference. */
  function Reduce(cs: seq<Container>): Container
    requires cs != []
    decreases |cs|
  {
    var n := |cs|;
    if n == 1 then cs[0] else Reduce(Insert(cs[..n - 2], Difference(cs[n - 1], cs[n - 2])))
  }

  lemma {:induction false} ReduceConserves(cs: seq<Container>, x: Search)
    requires cs != []
    ensures InContainer(Reduce(cs), x) == InAll(cs, x)
    ensures |cs| >= 2 ==> Reduce(cs).Pair?
    decreases |cs|
  {
    hide InContainer;
    var n := |cs|;
    if n == 1 {
      assert cs[..0] == [];
    } else {
      var pair := Difference(cs[n - 1], cs[n - 2]);
      InsertConserves(cs[..n - 2], pair, x);
      DifferenceConserves(cs[n - 1], cs[n - 2], x);
      ReduceConserves(Insert(cs[..n - 2], pair), x);
      assert cs[..n - 1][..n - 2] == cs[..n - 2];
      if n == 2 { assert Insert(cs[..0], pair) == [pair]; }
    }
  }

  ghost predicate AllConsistent(cs: seq<Container>) {
    cs == [] || (Consistent(cs[|cs| - 1]) && AllConsistent(cs[..|cs| - 1]))
  }

  ghost predicate AllIn(cs: seq<Container>, most: real) {
    cs == [] || (0.0 <= RatingOf(cs[|cs| - 1]) <= most && AllIn(cs[..|cs| - 1], most))
  }

  lemma {:induction false} InsertKeeps(cs: seq<Container>, c: Container, most: real)
    ensures AllConsistent(cs) && Consistent(c) ==> AllConsistent(Insert(cs, c))
    ensures AllIn(cs, most) && 0.0 <= RatingOf(c) <= most ==> AllIn(Insert(cs, c), most)
    decreases |cs|
  {
    hide Consistent, RatingOf;
    var n := |cs|;
    if n == 0 || RatingOf(cs[n - 1]) <= RatingOf(c) {
      assert (cs + [c])[..n] == cs;
    } else {
      InsertKeeps(cs[..n - 1], c, most);
      var before := Insert(cs[..n - 1], c);
      assert (before + [cs[n - 1]])[..n] == before;
    }
  }

  /** The final rating is an advantage, of at most the largest weight provided no weight is negative. */
  lemma {:induction false} ReduceBounded(cs: seq<Container>, most: real)
    requires cs != [] && SortedBy(cs, RatingOf) && AllConsistent(cs)
    ensures Consistent(Reduce(cs))
    ensures |cs| >= 2 ==> RatingOf(Reduce(cs)) >= 0.0
    ensures AllIn(cs, most) ==> 0.0 <= RatingOf(Reduce(cs)) <= most
    decreases |cs|
  {
    hide Consistent, RatingOf, Difference, InsertBy;
    var n := |cs|;
    if n >= 2 {
      var pair := Difference(cs[n - 1], cs[n - 2]);
      var rest := cs[..n - 2];
      assert cs[..n - 1][..n - 2] == rest && SortedBy(cs[..n - 1], RatingOf) && SortedBy(rest, RatingOf);
      assert cs[..n - 1][n - 2] == cs[n - 2] && AllConsistent(cs[..n - 1]);
      if AllIn(cs, most) { assert AllIn(cs[..n - 1], most) && AllIn(rest, most); }
      PairBounds(cs[n - 1], cs[n - 2]);
      InsertBySorted(rest, pair, RatingOf);
      InsertKeeps(rest, pair, most);
      ReduceBounded(Insert(rest, pair), most);
    }
  }

  lemma {:induction false} PairBounds(higher: Container, lower: Container)
    requires RatingOf(lower) <= RatingOf(higher) && Consistent(higher) && Consistent(lower)
    ensures Consistent(Difference(higher, lower)) && RatingOf(Difference(higher, lower)) >= 0.0
    ensures RatingOf(lower) >= 0.0 ==> RatingOf(Difference(higher, lower)) <= RatingOf(higher)
  {}

  // ----- Single players

  /** A container that stands for one player more on its own side, or for as many on both sides. */
  ghost predicate ForSingles(c: Container) {
    if RatingOf(c) >= 5000.0 then RatingOf(c) < 10000.0 && Players(Own(c)) == Players(Other(c)) + 1
    else 0.0 <= RatingOf(c) && Players(Own(c)) == Players(Other(c))
  }

  ghost predicate AllForSingles(cs: seq<Container>) {
    cs == [] || (ForSingles(cs[|cs| - 1]) && AllForSingles(cs[..|cs| - 1]))
  }

  /** How many containers stand for one player more. */
  function Odd(cs: seq<Container>): nat {
    if cs == [] then 0 else Odd(cs[..|cs| - 1]) + if RatingOf(cs[|cs| - 1]) >= 5000.0 then 1 else 0
  }

  lemma {:induction false} InsertForSingles(cs: seq<Container>, c: Container)
    requires AllForSingles(cs) && ForSingles(c)
    ensures AllForSingles(Insert(cs, c)) && Odd(Insert(cs, c)) == Odd(cs) + if RatingOf(c) >= 5000.0 then 1 else 0
    decreases |cs|
  {
    hide ForSingles, RatingOf;
    var n := |cs|;
    if n == 0 || RatingOf(cs[n - 1]) <= RatingOf(c) {
      assert (cs + [c])[..n] == cs;
    } else {
      InsertForSingles(cs[..n - 1], c);
      var before := Insert(cs[..n - 1], c);
      assert (before + [cs[n - 1]])[..n] == before;
    }
  }

  /** If the highest container does not stand for one player more, none does. */
  lemma {:induction false} NoneOdd(cs: seq<Container>)
    requires SortedBy(cs, RatingOf) && cs != [] && RatingOf(cs[|cs| - 1]) < 5000.0
    ensures Odd(cs) == 0
    decreases |cs|
  {
    hide RatingOf;
    var n := |cs|;
    if n > 1 {
      assert cs[..n - 1][n - 2] == cs[n - 2];
      NoneOdd(cs[..n - 1]);
    }
  }

  lemma {:induction false} DifferenceForSingles(higher: Container, lower: Container)
    requires ForSingles(higher) && ForSingles(lower) && RatingOf(lower) <= RatingOf(higher)
    requires RatingOf(higher) >= 5000.0 <==> RatingOf(lower) >= 5000.0
    ensures ForSingles(Difference(higher, lower)) && RatingOf(Difference(higher, lower)) < 5000.0
  {
    PlayersConcat(Own(higher), Other(lower));
    PlayersConcat(Other(higher), Own(lower));
  }

  /** The two highest containers are of the same kind as long as the number of odd ones is even, and it stays even. */
  lemma {:induction false} ReduceSingles(cs: seq<Container>)
    requires cs != [] && SortedBy(cs, RatingOf) && AllForSingles(cs) && Odd(cs) % 2 == 0
    ensures ForSingles(Reduce(cs)) && RatingOf(Reduce(cs)) < 5000.0
    decreases |cs|
  {
    hide ForSingles, RatingOf, Difference, InsertBy;
    var n := |cs|;
    if n == 1 {
      assert Odd(cs[..0]) == 0;
    } else {
      var pair, rest := Difference(cs[n - 1], cs[n - 2]), cs[..n - 2];
      assert cs[..n - 1][..n - 2] == rest && SortedBy(cs[..n - 1], RatingOf) && SortedBy(rest, RatingOf);
      assert cs[..n - 1][n - 2] == cs[n - 2] && AllForSingles(cs[..n - 1]);
      assert RatingOf(cs[n - 2]) <= RatingOf(cs[n - 1]);
      if RatingOf(cs[n - 2]) < 5000.0 { NoneOdd(cs[..n - 1]); }
      DifferenceForSingles(cs[n - 1], cs[n - 2]);
      InsertBySorted(rest, pair, RatingOf);
      InsertForSingles(rest, pair);
      ReduceSingles(Insert(rest, pair));
    }
  }

  lemma {:induction false} InitialSingles(searches: seq<Search>)
    requires forall s | s in searches :: s.players == 1 && 0.0 <= s.rating < 5000.0
    ensures AllForSingles(Initial(searches)) && Odd(Initial(searches)) == |searches|
    decreases |searches|
  {
    if searches != [] {
      var n := |searches| - 1;
      assert searches[n] in searches;
      InitialSingles(searches[..n]);
      var leaf := Leaf(searches[n]);
      assert [searches[n]][1..] == [] && ForSingles(leaf) && RatingOf(leaf) >= 5000.0;
      hide ForSingles, RatingOf, Insert;
      InsertForSingles(Initial(searches[..n]), leaf);
    }
  }

  /**
   * What the weight of 5000 per player is for: an even number of single players with ratings below that always comes
   * out as two teams of equal size.
   */
  lemma {:induction false} SinglesDivideEvenly(searches: seq<Search>)
    requires searches != [] && |searches| % 2 == 0
    requires forall s | s in searches :: s.players == 1 && 0.0 <= s.rating < 5000.0
    ensures var all := Reduce(Initial(searches));
      Players(Own(all)) == Players(Other(all)) && Players(Own(all)) + Players(Other(all)) == |searches|
  {
    var all := Reduce(Initial(searches));
    InitialSorted(searches);
    InitialSingles(searches);
    ReduceSingles(Initial(searches));
    forall x ensures Occurrences(Own(all) + Other(all), x) == Occurrences(searches, x) {
      ReduceConserves(Initial(searches), x);
      InitialConserves(searches, x);
      OccurrencesConcat(Own(all), Other(all), x);
    }
    PlayersPermutation(Own(all) + Other(all), searches);
    PlayersConcat(Own(all), Other(all));
    CountSingles(searches);
  }

  lemma {:induction false} CountSingles(searches: seq<Search>)
    requires forall s | s in searches :: s.players == 1
    ensures Players(searches) == |searches|
  {
    if searches != [] {
      assert searches[0] in searches && forall s | s in searches[1..] :: s in searches;
      CountSingles(searches[1..]);
    }
  }

  ghost predicate AllWeightsIn(searches: seq<Search>, most: real) {
    forall s | s in searches :: 0.0 <= Weight(s) <= most
  }

  lemma {:induction false} InitialSorted(searches: seq<Search>)
    ensures SortedBy(Initial(searches), RatingOf)
    decreases |searches|
  {
    hide InsertBy, SortedBy;
    if searches == [] {
      NothingSorted();
    } else {
      var n := |searches| - 1;
      InitialSorted(searches[..n]);
      InsertBySorted(Initial(searches[..n]), Leaf(searches[n]), RatingOf);
    }
  }

  lemma {:induction false} InitialKeeps(searches: seq<Search>, most: real)
    ensures AllConsistent(Initial(searches))
    ensures AllWeightsIn(searches, most) ==> AllIn(Initial(searches), most)
    decreases |searches|
  {
    hide InsertBy, Weight;
    if searches != [] {
      var n := |searches| - 1;
      InitialKeeps(searches[..n], most);
      InsertKeeps(Initial(searches[..n]), Leaf(searches[n]), most);
      assert searches == searches[..n] + [searches[n]];
    }
  }

  lemma {:induction false} NothingSorted()
    ensures SortedBy([], RatingOf)
  {}

  lemma {:induction false} LeafOccurs(s: Search, x: Search)
    ensures InContainer(Leaf(s), x) == Occurrences([s], x)
  {}

  lemma {:induction false} InitialConserves(searches: seq<Search>, x: Search)
    ensures InAll(Initial(searches), x) == Occurrences(searches, x)
    decreases |searches|
  {
    hide InsertBy, InContainer;
    if searches != [] {
      var n := |searches| - 1;
      InitialConserves(searches[..n], x);
      LeafOccurs(searches[n], x);
      InsertConserves(Initial(searches[..n]), Leaf(searches[n]), x);
      OccurrencesConcat(searches[..n], [searches[n]], x);
      assert searches == searches[..n] + [searches[n]];
    }
  }

  /** The differencing loop: two containers are taken off the list, their difference is put back. */
  method ReduceContainers(initial: seq<Container>) returns (last: Container)
    requires |initial| >= 2
    ensures last == Reduce(initial)
  {
    var containers := initial[..|initial| - 2];
    var elem1, elem2 := initial[|initial| - 1], initial[|initial| - 2];
    assert initial == containers + [elem2, elem1];
    while true
      invariant Reduce(containers + [elem2, elem1]) == Reduce(initial)
      decreases |containers|
    {
      var list := Insert(containers, Difference(elem1, elem2));
      elem1 := list[|list| - 1];
      if |list| == 1 {
        return elem1;
      }
      elem2 := list[|list| - 2];
      containers := list[..|list| - 2];
      assert list == containers + [elem2, elem1];
    }
  }

  // ----- Opening the containers again

  function Size(c: Container): nat {
    match c
    case Leaf(_) => 1
    case Pair(_, higher, lower) => 1 + Size(higher) + Size(lower)
  }

  function SizeAll(stack: seq<Container>): nat {
    if stack == [] then 0 else SizeAll(stack[..|stack| - 1]) + Size(stack[|stack| - 1])
  }

  /** How often a search on a stack will join the stack's own team, and the other one. */
  function OwnAll(stack: seq<Container>, x: Search): nat {
    if stack == [] then 0 else OwnAll(stack[..|stack| - 1], x) + Occurrences(Own(stack[|stack| - 1]), x)
  }

  function OtherAll(stack: seq<Container>, x: Search): nat {
    if stack == [] then 0 else OtherAll(stack[..|stack| - 1], x) + Occurrences(Other(stack[|stack| - 1]), x)
  }

  lemma {:induction false} PushEffect(stack: seq<Container>, c: Container, x: Search)
    ensures OwnAll(stack + [c], x) == OwnAll(stack, x) + Occurrences(Own(c), x)
    ensures OtherAll(stack + [c], x) == OtherAll(stack, x) + Occurrences(Other(c), x)
    ensures SizeAll(stack + [c]) == SizeAll(stack) + Size(c)
  {
    assert (stack + [c])[..|stack|] == stack;
  }

  /** The two teams and the two stacks during the unpacking. */
  datatype Opening = Opening(teamA: seq<Search>, teamB: seq<Search>, stackA: seq<Container>, stackB: seq<Container>)

  /** What each team has, together with what the stacks still promise it. */
  function PromisedA(o: Opening, x: Search): nat {
    Occurrences(o.teamA, x) + OwnAll(o.stackA, x) + OtherAll(o.stackB, x)
  }

  function Swap(o: Opening): Opening {
    Opening(o.teamB, o.teamA, o.stackB, o.stackA)
  }

  function PromisedB(o: Opening, x: Search): nat {
    PromisedA(Swap(o), x)
  }

  function Left(o: Opening): nat {
    SizeAll(o.stackA) + SizeAll(o.stackB)
  }

  /** One half of the loop body: the top container of stack A is opened, or its search joins team A. */
  function OpenA(o: Opening): (next: Opening)
    requires o.stackA != []
  {
    var n := |o.stackA| - 1;
    match o.stackA[n]
    case Leaf(s) => Opening(o.teamA + [s], o.teamB, o.stackA[..n], o.stackB)
    case Pair(_, higher, lower) => Opening(o.teamA, o.teamB, o.stackA[..n] + [higher], o.stackB + [lower])
  }

  lemma {:induction false} OpenAKeeps(o: Opening, x: Search)
    requires o.stackA != []
    ensures PromisedA(OpenA(o), x) == PromisedA(o, x) && PromisedB(OpenA(o), x) == PromisedB(o, x)
    ensures Left(OpenA(o)) < Left(o)
  {
    var n := |o.stackA| - 1;
    match o.stackA[n] {
      case Leaf(s) =>
        OccurrencesConcat(o.teamA, [s], x);
      case Pair(_, higher, lower) =>
        PushEffect(o.stackA[..n], higher, x);
        PushEffect(o.stackB, lower, x);
        OccurrencesConcat(Own(higher), Other(lower), x);
        OccurrencesConcat(Other(higher), Own(lower), x);
    }
  }

  /** Nothing that the teams were promised is lost. */
  ghost predicate Promises(o: Opening, last: Container) {
    forall x ::
      PromisedA(o, x) == Occurrences(Own(last), x) && PromisedB(o, x) == Occurrences(Other(last), x)
  }

  lemma {:induction false} PromisesKept(o: Opening, last: Container)
    requires o.stackA != [] && Promises(o, last)
    ensures Promises(OpenA(o), last) && Left(OpenA(o)) < Left(o)
  {
    hide PromisedA, PromisedB, OpenA, Left;
    forall x
      ensures PromisedA(OpenA(o), x) == PromisedA(o, x) && PromisedB(OpenA(o), x) == PromisedB(o, x)
      ensures Left(OpenA(o)) < Left(o)
    {
      OpenAKeeps(o, x);
    }
    OpenAKeeps(o, Search(0, 0, 0.0));
  }

  lemma {:induction false} PromisesKeptB(o: Opening, last: Container)
    requires o.stackB != [] && Promises(o, last)
    ensures Promises(Swap(OpenA(Swap(o))), last) && Left(Swap(OpenA(Swap(o)))) < Left(o)
  {
    hide PromisedA, OpenA;
    var s := Swap(o);
    forall x
      ensures PromisedA(OpenA(s), x) == PromisedA(s, x) && PromisedB(OpenA(s), x) == PromisedB(s, x)
    {
      OpenAKeeps(s, x);
    }
    OpenAKeeps(s, Search(0, 0, 0.0));
    assert Swap(Swap(OpenA(s))) == OpenA(s) && Swap(s) == o;
  }

  lemma {:induction false} PromisesStart(last: Container)
    requires last.Pair?
    ensures Promises(Opening([], [], [last.higher], [last.lower]), last)
  {
    forall x
      ensures PromisedA(Opening([], [], [last.higher], [last.lower]), x) == Occurrences(Own(last), x)
      ensures PromisedB(Opening([], [], [last.higher], [last.lower]), x) == Occurrences(Other(last), x)
    {
      PushEffect([], last.higher, x);
      PushEffect([], last.lower, x);
      assert [] + [last.higher] == [last.higher] && [] + [last.lower] == [last.lower];
      OccurrencesConcat(Own(last.higher), Other(last.lower), x);
      OccurrencesConcat(Other(last.higher), Own(last.lower), x);
    }
  }

  /** Opens a container into its two teams, taking turns between the two stacks. */
  method OpenContainers(last: Container) returns (teamA: seq<Search>, teamB: seq<Search>)
    requires last.Pair?
    ensures Permutation(teamA, Own(last)) && Permutation(teamB, Other(last))
  {
    var o := Opening([], [], [last.higher], [last.lower]);
    PromisesStart(last);
    while o.stackA != [] || o.stackB != []
      invariant Promises(o, last)
      decreases Left(o)
    {
      if o.stackA != [] {
        PromisesKept(o, last);
        o := OpenA(o);
      }
      if o.stackB != [] {
        PromisesKeptB(o, last);
        o := Swap(OpenA(Swap(o)));
      }
    }
    teamA, teamB := o.teamA, o.teamB;
    forall x
      ensures Occurrences(teamA, x) == Occurrences(Own(last), x) && Occurrences(teamB, x) == Occurrences(Other(last), x)
    {
      assert PromisedA(o, x) == Occurrences(Own(last), x) && PromisedB(o, x) == Occurrences(Other(last), x);
    }
  }

  /**
   * The two teams use every search once, the first is the stronger one, and its advantage is the final rating: at most
   * the largest single weight when no weight is negative.
   */
  method RunKarmarkarKarp(searches: seq<Search>) returns (teamA: seq<Search>, teamB: seq<Search>)
    requires |searches| >= 2
    ensures Permutation(teamA + teamB, searches) && teamA != [] && teamB != []
    ensures TotalWeight(teamA) - TotalWeight(teamB) == RatingOf(Reduce(Initial(searches))) >= 0.0
    ensures forall most | AllWeightsIn(searches, most) :: TotalWeight(teamA) - TotalWeight(teamB) <= most
    ensures Permutation(teamA, Own(Reduce(Initial(searches))))
  {
    var initial := Initial(searches);
    var last := ReduceContainers(initial);
    ReduceConserves(initial, searches[0]);
    teamA, teamB := OpenContainers(last);
    forall x ensures Occurrences(teamA + teamB, x) == Occurrences(searches, x) {
      OccurrencesConcat(teamA, teamB, x);
      ReduceConserves(initial, x);
      InitialConserves(searches, x);
    }
    if teamA == [] { PermutationEmpty(Own(last)); }
    if teamB == [] { PermutationEmpty(Other(last)); }
    InitialSorted(searches);
    InitialKeeps(searches, 0.0);
    ReduceBounded(initial, 0.0);
    RatingIsAdvantage(last);
    TotalWeightPermutation(teamA, Own(last));
    TotalWeightPermutation(teamB, Other(last));
    forall most | AllWeightsIn(searches, most) ensures RatingOf(last) <= most {
      InitialKeeps(searches, most);
      ReduceBounded(initial, most);
    }
  }
}
