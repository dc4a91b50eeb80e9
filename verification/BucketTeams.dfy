/** Grouping searches of different sizes into teams, giving back what was taken for a team that cannot be completed. */
module BucketTeams {
  import opened Options
  import opened Lists
  import opened Searches
  import opened MatchingGraph
  import Matchmaking
  import BucketSingles

  /** A search of the queue, or several combined: one by one, or a whole group of them at once. */
  datatype Team = Single(search: Search) | Combined(first: Team, second: Team) | Group(searches: seq<Search>)

  function Leaves(team: Team): seq<Search> {
    match team
    case Single(search) => [search]
    case Combined(first, second) => Leaves(first) + Leaves(second)
    case Group(searches) => searches
  }

  function LeafSet(team: Team): set<Search> {
    match team
    case Single(search) => {search}
    case Combined(first, second) => LeafSet(first) + LeafSet(second)
    case Group(searches) => set s | s in searches
  }

  function TeamPlayers(team: Team): nat {
    match team
    case Single(search) => search.players
    case Combined(first, second) => TeamPlayers(first) + TeamPlayers(second)
    case Group(searches) => Players(searches)
  }

  lemma {:induction false} LeavesFit(team: Team)
    ensures forall x :: x in Leaves(team) <==> x in LeafSet(team)
    ensures Players(Leaves(team)) == TeamPlayers(team)
  {
    match team
    case Single(search) =>
      assert [search][1..] == [];
    case Combined(first, second) =>
      LeavesFit(first);
      LeavesFit(second);
      PlayersConcat(Leaves(first), Leaves(second));
    case Group(searches) =>
  }

  /** Searches by their number of players. */
  type Table = map<nat, set<Search>>

  ghost predicate Fits(table: Table) {
    forall k, s | k in table && s in table[k] :: s.players == k
  }

  predicate Contains(table: Table, s: Search) {
    s.players in table && s in table[s.players]
  }

  /** The table without some searches. */
  function Minus(table: Table, taken: set<Search>): Table {
    map k | k in table :: table[k] - taken
  }

  lemma {:induction false} MinusTwice(table: Table, taken: set<Search>, s: Search)
    requires Contains(Minus(table, taken), s)
    ensures var t := Minus(table, taken);
      t[s.players := t[s.players] - {s}] == Minus(table, taken + {s}) || !Fits(table)
  {
    var t := Minus(table, taken);
    if Fits(table) {
      forall k | k in table ensures t[s.players := t[s.players] - {s}][k] == table[k] - (taken + {s}) {
        if k != s.players { assert s !in table[k]; }
      }
    }
  }

  /** A search of the table that is not taken yet, and is not larger than this. */
  ghost predicate Available(table: Table, taken: seq<Search>, most: int, s: Search) {
    Contains(table, s) && s !in taken && 0 < s.players <= most
  }

  /** After the first one, every search was the largest that was available for the places left at its time. */
  ghost predicate LargestFirst(table: Table, taken: seq<Search>, size: nat) {
    var n := |taken| - 1;
    n < 1 ||
    (&& LargestFirst(table, taken[..n], size)
     && Available(table, taken[..n], size - Players(taken[..n]), taken[n])
     && forall s | Available(table, taken[..n], size - Players(taken[..n]), s) :: s.players <= taken[n].players)
  }

  /** Places are left, and nothing that is available fits. */
  ghost predicate Stuck(table: Table, taken: seq<Search>, size: nat) {
    var free := size - Players(taken);
    free > 0 && forall s :: !Available(table, taken, free, s)
  }

  /** Taking the largest search first leads from this one to a team that cannot be completed. */
  ghost predicate CannotComplete(table: Table, search: Search, size: nat) {
    exists taken :: (taken != [] && taken[0] == search && LargestFirst(table, taken, size) && Stuck(table, taken, size))
  }

  predicate StartsWith(team: Team, search: Search) {
    Leaves(team) != [] && Leaves(team)[0] == search
  }

  lemma {:induction false} TakeLargest(table: Table, team: Team, size: nat, other: Search)
    requires LargestFirst(table, Leaves(team), size)
    requires Available(table, Leaves(team), size - TeamPlayers(team), other)
    requires forall s | Available(table, Leaves(team), size - TeamPlayers(team), s) :: s.players <= other.players
    ensures var more := Combined(team, Single(other));
      LargestFirst(table, Leaves(more), size) && forall s | StartsWith(team, s) :: StartsWith(more, s)
  {
    LeavesFit(team);
    var taken, all := Leaves(team), Leaves(Combined(team, Single(other)));
    assert Leaves(Single(other)) == [other];
    assert all == taken + [other] && all[..|all| - 1] == taken;
  }

  class SearchesBySize {
    var table: Table

    constructor ()
      ensures table == map[]
    {
      table := map[];
    }

    method Add(s: Search)
      modifies this
      ensures table == old(table)[s.players := (if s.players in old(table) then old(table)[s.players] else {}) + {s}]
    {
      if s.players !in table {
        table := table[s.players := {}];
      }
      table := table[s.players := table[s.players] + {s}];
    }

    /** Puts all searches of a team back to where they came from. */
    method Uncombine(team: Team)
      requires forall s | s in LeafSet(team) :: s.players in table
      modifies this
      ensures table == Plus(old(table), LeafSet(team))
      decreases team
    {
      match team {
        case Single(search) =>
          PlusOne(table, search);
          table := table[search.players := table[search.players] + {search}];
        case Combined(first, second) =>
          Uncombine(first);
          Uncombine(second);
          PlusTwice(old(table), LeafSet(first), LeafSet(second));
        case Group(searches) =>
          var i := 0;
          PlusNothing(old(table));
          assert LeafSet(Group(searches[..0])) == {};
          while i < |searches|
            invariant i <= |searches| && table == Plus(old(table), LeafSet(Group(searches[..i])))
            modifies this
          {
            PlusOne(table, searches[i]);
            table := table[searches[i].players := table[searches[i].players] + {searches[i]}];
            PlusTwice(old(table), LeafSet(Group(searches[..i])), {searches[i]});
            assert LeafSet(Group(searches[..i + 1])) == LeafSet(Group(searches[..i])) + {searches[i]};
            i := i + 1;
          }
          assert searches[..|searches|] == searches;
      }
    }

    /**
     * Completes a search to a team of `size` players, always trying the largest search that fits. Without success,
     * which is when this leads to a team that cannot be completed, the table is left exactly as it was.
     */
    method MakeTeamForSearch(search: Search, size: nat) returns (team: Option<Team>)
      requires Fits(table) && search.players in table && search.players <= size
      modifies this
      ensures team.None? ==> table == old(table)
      ensures team.None? ==> !Contains(table, search) || CannotComplete(table, search, size)
      ensures team.Some? ==> LargestFirst(old(table), Leaves(team.value), size) && StartsWith(team.value, search)
      ensures team.Some? ==>
        TeamPlayers(team.value) == size && Distinct(Leaves(team.value)) && search in LeafSet(team.value)
      ensures team.Some? ==> forall s | s in LeafSet(team.value) :: Contains(old(table), s)
      ensures team.Some? ==> table == Minus(old(table), LeafSet(team.value))
      ensures Fits(table)
    {
      if search !in table[search.players] {
        return None;
      }
      ghost var before := table;
      MinusNothing(before);
      MinusTwice(before, {}, search);
      table := table[search.players := table[search.players] - {search}];
      assert {} + {search} == {search};
      var newSearch := Single(search);
      var numNeeded := size - search.players;
      var trySize := numNeeded;
      while numNeeded > 0
        invariant 0 <= trySize <= numNeeded
        invariant TeamPlayers(newSearch) + numNeeded == size
        invariant Distinct(Leaves(newSearch)) && search in LeafSet(newSearch)
        invariant forall s | s in LeafSet(newSearch) :: Contains(before, s)
        invariant table == Minus(before, LeafSet(newSearch))
        invariant LargestFirst(before, Leaves(newSearch), size) && StartsWith(newSearch, search)
        invariant forall s | Available(before, Leaves(newSearch), numNeeded, s) :: s.players <= trySize
        decreases numNeeded, trySize
      {
        LeavesFit(newSearch);
        if trySize == 0 {
          assert Stuck(before, Leaves(newSearch), size);
          Uncombine(newSearch);
          PlusMinus(before, LeafSet(newSearch));
          return None;
        }
        if trySize in table && table[trySize] != {} {
          var other :| other in table[trySize];
          NextTaken(before, newSearch, trySize, other);
          TakeLargest(before, newSearch, size, other);
          table := table[trySize := table[trySize] - {other}];
          newSearch := Combined(newSearch, Single(other));
          numNeeded := numNeeded - trySize;
          trySize := numNeeded;
        } else {
          trySize := trySize - 1;
        }
      }
      return Some(newSearch);
    }
  }

  /** The table with some searches put back. */
  function Plus(table: Table, searches: set<Search>): Table {
    map k | k in table :: table[k] + (set s | s in searches && s.players == k)
  }

  lemma {:induction false} PlusOne(table: Table, search: Search)
    requires search.players in table
    ensures table[search.players := table[search.players] + {search}] == Plus(table, {search})
  {
    forall k | k in table
      ensures table[search.players := table[search.players] + {search}][k] == Plus(table, {search})[k] {}
  }

  lemma {:induction false} PlusNothing(table: Table)
    ensures Plus(table, {}) == table
  {
    forall k | k in table ensures Plus(table, {})[k] == table[k] {}
  }

  lemma {:induction false} MinusNothing(table: Table)
    ensures Minus(table, {}) == table
  {
    forall k | k in table ensures Minus(table, {})[k] == table[k] {}
  }

  lemma {:induction false} PlusTwice(table: Table, a: set<Search>, b: set<Search>)
    ensures Plus(Plus(table, a), b) == Plus(table, a + b)
  {
    forall k | k in table ensures Plus(Plus(table, a), b)[k] == Plus(table, a + b)[k] {}
  }

  /** What was taken out and is put back gives the same table. */
  lemma {:induction false} PlusMinus(table: Table, taken: set<Search>)
    requires Fits(table) && forall s | s in taken :: Contains(table, s)
    ensures Plus(Minus(table, taken), taken) == table
  {
    forall k | k in table ensures Plus(Minus(table, taken), taken)[k] == table[k] {}
  }

  /** Taking one more search keeps the team free of repetitions. */
  lemma {:induction false} NextTaken(before: Table, team: Team, size: nat, other: Search)
    requires Fits(before) && size in before && other in Minus(before, LeafSet(team))[size]
    requires Distinct(Leaves(team))
    ensures Contains(before, other) && other.players == size
    ensures Distinct(Leaves(Combined(team, Single(other))))
    ensures var t := Minus(before, LeafSet(team));
      t[size := t[size] - {other}] == Minus(before, LeafSet(Combined(team, Single(other))))
  {
    assert other in before[size];
    LeavesFit(team);
    DistinctSnoc(Leaves(team), other);
    MinusTwice(before, LeafSet(team), other);
  }

  // ----- Grouping all searches

  function TeamLeaves(teams: seq<Team>): seq<Search> {
    if teams == [] then [] else TeamLeaves(teams[..|teams| - 1]) + Leaves(teams[|teams| - 1])
  }

  lemma {:induction false} TeamLeavesSnoc(teams: seq<Team>, team: Team, x: Search)
    ensures Occurrences(TeamLeaves(teams + [team]), x)
      == Occurrences(TeamLeaves(teams), x) + Occurrences(Leaves(team), x)
  {
    assert (teams + [team])[..|teams|] == teams;
    OccurrencesConcat(TeamLeaves(teams), Leaves(team), x);
  }

  /** Every search is in one team or still in the table. */
  ghost predicate Conserved(searches: seq<Search>, teams: seq<Team>, table: Table) {
    forall x :: Occurrences(TeamLeaves(teams), x) + (if Contains(table, x) then 1 else 0) == Occurrences(searches, x)
  }

  lemma {:induction false} TeamConserves(searches: seq<Search>, teams: seq<Team>, table: Table, team: Team)
    requires Conserved(searches, teams, table) && Distinct(Leaves(team))
    requires forall s | s in LeafSet(team) :: Contains(table, s)
    ensures Conserved(searches, teams + [team], Minus(table, LeafSet(team)))
  {
    hide Leaves, LeafSet, TeamLeaves;
    LeavesFit(team);
    forall x ensures Occurrences(TeamLeaves(teams + [team]), x)
        + (if Contains(Minus(table, LeafSet(team)), x) then 1 else 0) == Occurrences(searches, x)
    {
      TeamLeavesSnoc(teams, team, x);
      DistinctOnce(Leaves(team), x);
    }
  }

  /** The table holds exactly these searches. */
  ghost predicate Holds(table: Table, searches: seq<Search>) {
    Fits(table) && (forall s | s in searches :: s.players in table) && forall s :: Contains(table, s) <==> s in searches
  }

  method MakeSearchesBySize(searches: seq<Search>) returns (table: SearchesBySize)
    ensures fresh(table) && Holds(table.table, searches)
  {
    table := new SearchesBySize();
    for i := 0 to |searches|
      invariant fresh(table) && Holds(table.table, searches[..i])
    {
      assert searches[..i + 1] == searches[..i] + [searches[i]];
      table.Add(searches[i]);
    }
    assert searches[..|searches|] == searches;
  }

  /** All searches left in the table, in some order. */
  method Remaining(table: Table) returns (left: seq<Search>)
    requires Fits(table)
    ensures Distinct(left) && forall s :: s in left <==> Contains(table, s)
  {
    left := [];
    var sizes := table.Keys;
    while sizes != {}
      invariant sizes <= table.Keys && Distinct(left)
      invariant forall s :: s in left <==> Contains(table, s) && s.players !in sizes
      decreases sizes
    {
      var size :| size in sizes;
      var group := ListOf(table[size]);
      DistinctAppend(left, group);
      left, sizes := left + group, sizes - {size};
    }
  }

  method ListOf(group: set<Search>) returns (list: seq<Search>)
    ensures Distinct(list) && forall s :: s in list <==> s in group
  {
    list := [];
    var rest := group;
    while rest != {}
      invariant rest <= group && Distinct(list) && forall s :: s in list <==> s in group && s !in rest
      decreases rest
    {
      var s :| s in rest;
      DistinctSnoc(list, s);
      list, rest := list + [s], rest - {s};
    }
  }

  /** Every team is full, and every search is in exactly one team or was left over. */
  method MakeTeams(searches: seq<Search>, size: nat) returns (teams: seq<Team>, left: seq<Search>)
    requires Distinct(searches)
    ensures forall i | 0 <= i < |teams| :: TeamPlayers(teams[i]) == size
    ensures Permutation(TeamLeaves(teams) + left, searches)
    ensures forall s | s in left :: s.players != size
  {
    var bySize := MakeSearchesBySize(searches);
    teams := [];
    ghost var sizes := bySize.table.Keys;
    StartConserved(searches, bySize.table);
    hide Conserved, Distinct, Leaves, LeafSet, Fits, Contains;
    for i := 0 to |searches|
      invariant fresh(bySize) && Fits(bySize.table) && bySize.table.Keys == sizes
      invariant forall s | s in searches :: s.players in sizes
      invariant Conserved(searches, teams, bySize.table)
      invariant forall j | 0 <= j < |teams| :: TeamPlayers(teams[j]) == size
      invariant forall s | s in searches[..i] && s.players == size :: !Contains(bySize.table, s)
    {
      var search := searches[i];
      assert searches[..i + 1] == searches[..i] + [search] && search in searches;
      if search.players <= size {
        ghost var before := bySize.table;
        var team := bySize.MakeTeamForSearch(search, size);
        if team.Some? {
          TeamConserves(searches, teams, before, team.value);
          forall s ensures Contains(bySize.table, s) ==> Contains(before, s) && s !in LeafSet(team.value) {}
          teams := teams + [team.value];
        }
      }
    }
    assert searches[..|searches|] == searches;
    left := Remaining(bySize.table);
    LeftConserved(searches, teams, bySize.table, left);
  }

  lemma {:induction false} StartConserved(searches: seq<Search>, table: Table)
    requires Distinct(searches) && Holds(table, searches)
    ensures Conserved(searches, [], table)
  {
    forall x ensures (if Contains(table, x) then 1 else 0) == Occurrences(searches, x) { DistinctOnce(searches, x); }
  }

  lemma {:induction false} LeftConserved(searches: seq<Search>, teams: seq<Team>, table: Table, left: seq<Search>)
    requires Conserved(searches, teams, table) && Distinct(left) && forall s :: s in left <==> Contains(table, s)
    ensures Permutation(TeamLeaves(teams) + left, searches)
    ensures forall s | s in left :: s in searches
  {
    forall x ensures Occurrences(TeamLeaves(teams) + left, x) == Occurrences(searches, x) {
      OccurrencesConcat(TeamLeaves(teams), left, x);
      DistinctOnce(left, x);
    }
    forall s | s in left ensures s in searches {
      DistinctOnce(left, s);
      OccursIn(searches, s);
    }
  }

  // ----- Finding teams

  function Groups(lists: seq<seq<Search>>): (teams: seq<Team>)
    ensures |teams| == |lists| && forall i | 0 <= i < |lists| :: teams[i] == Group(lists[i])
  {
    if lists == [] then [] else Groups(lists[..|lists| - 1]) + [Group(lists[|lists| - 1])]
  }

  lemma {:induction false} GroupLeaves(lists: seq<seq<Search>>)
    ensures TeamLeaves(Groups(lists)) == BucketSingles.FlattenTeams(lists)
    decreases |lists|
  {
    if lists != [] {
      var n := |lists| - 1;
      GroupLeaves(lists[..n]);
      assert Groups(lists)[..n] == Groups(lists[..n]);
    }
  }

  lemma {:induction false} SinglePlayers(searches: seq<Search>)
    requires forall s | s in searches :: s.players == 1
    ensures Players(searches) == |searches|
    decreases |searches|
  {
    if searches != [] {
      assert searches == [searches[0]] + searches[1..];
      SinglePlayers(searches[1..]);
    }
  }

  ghost predicate Full(teams: seq<Team>, size: nat) {
    forall i | 0 <= i < |teams| :: TeamPlayers(teams[i]) == size
  }

  /** Every search is in one team or was left over. */
  ghost predicate Shared(searches: seq<Search>, teams: seq<Team>, left: seq<Search>) {
    forall x :: Occurrences(TeamLeaves(teams), x) + Occurrences(left, x) == Occurrences(searches, x)
  }

  lemma {:induction false} SinglesFull(searches: seq<Search>, lists: seq<seq<Search>>, left: seq<Search>, size: nat)
    requires BucketSingles.Split(searches, lists, left) && BucketSingles.FullTeams(lists, size)
    requires forall s | s in searches :: s.players == 1
    ensures Shared(searches, Groups(lists), left) && Full(Groups(lists), size)
  {
    GroupLeaves(lists);
    forall i | 0 <= i < |lists| ensures Players(lists[i]) == size {
      forall s | s in lists[i] ensures s.players == 1 {
        ListedOnce(lists, i, s);
        OccursIn(searches, s);
      }
      SinglePlayers(lists[i]);
    }
  }

  lemma {:induction false} ListedOnce(lists: seq<seq<Search>>, i: nat, s: Search)
    requires i < |lists| && s in lists[i]
    ensures Occurrences(BucketSingles.FlattenTeams(lists), s) > 0
  {
    assert lists == lists[..i] + ([lists[i]] + lists[i + 1..]);
    BucketSingles.TeamsConcat(lists[..i], [lists[i]] + lists[i + 1..], s);
    BucketSingles.TeamsConcat([lists[i]], lists[i + 1..], s);
    BucketSingles.FlattenOne(lists[i]);
    OccursIn(lists[i], s);
  }

  /** Searches that are a team already, and the others. */
  method SplitFull(searches: seq<Search>, size: nat) returns (full: seq<Team>, needTeam: seq<Search>)
    requires Distinct(searches)
    ensures Full(full, size) && Shared(searches, full, needTeam) && Distinct(needTeam)
    ensures forall s | s in needTeam :: s.players != size
  {
    full, needTeam := [], [];
    for i := 0 to |searches|
      invariant Full(full, size) && Shared(searches[..i], full, needTeam)
      invariant forall s | s in needTeam :: s.players != size
    {
      var search := searches[i];
      assert searches[..i + 1] == searches[..i] + [search];
      SharedNext(searches[..i], full, needTeam, search);
      if search.players == size {
        full := full + [Single(search)];
      } else {
        needTeam := needTeam + [search];
      }
    }
    assert searches[..|searches|] == searches;
    RestDistinct(searches, full, needTeam);
  }

  lemma {:induction false} RestDistinct(searches: seq<Search>, teams: seq<Team>, left: seq<Search>)
    requires Distinct(searches) && Shared(searches, teams, left)
    ensures Distinct(left)
  {
    forall x ensures Occurrences(left, x) <= 1 { DistinctOnce(searches, x); }
    OnceDistinct(left);
  }

  lemma {:induction false} SharedNext(searches: seq<Search>, full: seq<Team>, needTeam: seq<Search>, search: Search)
    requires Shared(searches, full, needTeam)
    ensures Shared(searches + [search], full + [Single(search)], needTeam)
    ensures Shared(searches + [search], full, needTeam + [search])
  {
    forall x ensures Occurrences(searches + [search], x) == Occurrences(searches, x) + Occurrences([search], x)
      && Occurrences(TeamLeaves(full + [Single(search)]), x)
        == Occurrences(TeamLeaves(full), x) + Occurrences([search], x)
      && Occurrences(needTeam + [search], x) == Occurrences(needTeam, x) + Occurrences([search], x)
    {
      OccurrencesConcat(searches, [search], x);
      OccurrencesConcat(needTeam, [search], x);
      TeamLeavesSnoc(full, Single(search), x);
    }
  }

  lemma {:induction false} TeamLeavesConcat(a: seq<Team>, b: seq<Team>, x: Search)
    ensures Occurrences(TeamLeaves(a + b), x) == Occurrences(TeamLeaves(a), x) + Occurrences(TeamLeaves(b), x)
    decreases |b|
  {
    if b == [] {
      assert a + b == a;
    } else {
      var n := |b| - 1;
      assert (a + b)[..|a| + n] == a + b[..n];
      TeamLeavesConcat(a, b[..n], x);
      OccurrencesConcat(TeamLeaves(a + b[..n]), Leaves(b[n]), x);
      OccurrencesConcat(TeamLeaves(b[..n]), Leaves(b[n]), x);
    }
  }

  /** All teams are full, and every search is in exactly one of them or left over. */
  method FindTeams(searches: seq<Search>, size: nat, mean: Search -> real) returns (teams: seq<Team>, left: seq<Search>)
    requires Distinct(searches) && size > 0
    ensures Full(teams, size) && Shared(searches, teams, left)
  {
    var full, needTeam := SplitFull(searches, size);
    var made: seq<Team>;
    if forall s | s in needTeam :: s.players == 1 {
      var lists;
      lists, left := BucketSingles.MakeTeamsFromSingle(needTeam, mean, size);
      made := Groups(lists);
      SinglesFull(needTeam, lists, left, size);
    } else {
      made, left := MakeTeams(needTeam, size);
      forall x ensures Occurrences(TeamLeaves(made), x) + Occurrences(left, x) == Occurrences(needTeam, x) {
        OccurrencesConcat(TeamLeaves(made), left, x);
      }
    }
    SharedBoth(searches, full, needTeam, made, left);
    teams := full + made;
  }

  lemma {:induction false} SharedBoth(searches: seq<Search>, full: seq<Team>, needTeam: seq<Search>, made: seq<Team>,
      left: seq<Search>)
    requires Shared(searches, full, needTeam) && Shared(needTeam, made, left)
    ensures Shared(searches, full + made, left)
  {
    forall x ensures Occurrences(TeamLeaves(full + made), x) + Occurrences(left, x) == Occurrences(searches, x) {
      TeamLeavesConcat(full, made, x);
    }
  }

  // ----- Matching the teams

  /** A team as the single search that the matching of opponents sees. */
  function AsSearch(teams: seq<Team>, i: nat, rating: Team -> real): Search
    requires i < |teams|
  {
    Search(i, TeamPlayers(teams[i]), rating(teams[i]))
  }

  function AsSearches(teams: seq<Team>, n: nat, rating: Team -> real): (searches: seq<Search>)
    requires n <= |teams|
    ensures |searches| == n && forall i | 0 <= i < n :: searches[i] == AsSearch(teams, i, rating)
  {
    if n == 0 then [] else AsSearches(teams, n - 1, rating) + [AsSearch(teams, n - 1, rating)]
  }

  lemma {:induction false} AsSearchesDistinct(teams: seq<Team>, n: nat, rating: Team -> real)
    requires n <= |teams|
    ensures Distinct(AsSearches(teams, n, rating))
  {
    if n > 0 {
      AsSearchesDistinct(teams, n - 1, rating);
      DistinctSnoc(AsSearches(teams, n - 1, rating), AsSearch(teams, n - 1, rating));
    }
  }

  /** The original searches of the teams on a list. */
  function Original(teams: seq<Team>, searches: seq<Search>): seq<Search> {
    if searches == [] then []
    else LeavesAt(teams, searches[0]) + Original(teams, searches[1..])
  }

  function LeavesAt(teams: seq<Team>, s: Search): seq<Search> {
    if s.id < |teams| then Leaves(teams[s.id]) else []
  }

  lemma {:induction false} OriginalOne(teams: seq<Team>, s: Search)
    ensures Original(teams, [s]) == LeavesAt(teams, s)
  {
    assert [s][1..] == [];
  }

  lemma {:induction false} OriginalWithout(teams: seq<Team>, searches: seq<Search>, s: Search, x: Search)
    requires s in searches
    ensures Occurrences(Original(teams, searches), x)
      == Occurrences(Original(teams, [s]), x) + Occurrences(Original(teams, Without(searches, s)), x)
    decreases |searches|
  {
    var own := LeavesAt(teams, searches[0]);
    OccurrencesConcat(own, Original(teams, searches[1..]), x);
    OriginalOne(teams, s);
    hide LeavesAt;
    if searches[0] != s {
      OriginalWithout(teams, searches[1..], s, x);
      var rest := Without(searches[1..], s);
      assert ([searches[0]] + rest)[1..] == rest;
      OccurrencesConcat(own, Original(teams, rest), x);
    }
  }

  lemma {:induction false} OriginalPermutation(teams: seq<Team>, a: seq<Search>, b: seq<Search>, x: Search)
    requires Permutation(a, b)
    ensures Occurrences(Original(teams, a), x) == Occurrences(Original(teams, b), x)
    decreases |a|
  {
    if a == [] {
      PermutationEmpty(b);
    } else {
      PermutationTail(a, b);
      OriginalPermutation(teams, a[1..], Without(b, a[0]), x);
      OriginalWithout(teams, b, a[0], x);
      OriginalWithout(teams, a, a[0], x);
    }
  }

  lemma {:induction false} OriginalConcat(teams: seq<Team>, a: seq<Search>, b: seq<Search>)
    ensures Original(teams, a + b) == Original(teams, a) + Original(teams, b)
    decreases |a|
  {
    hide LeavesAt;
    if a == [] {
      assert a + b == b;
    } else {
      var own, rest := LeavesAt(teams, a[0]), a[1..];
      OriginalConcat(teams, rest, b);
      assert (a + b)[1..] == rest + b;
      assert own + (Original(teams, rest) + Original(teams, b)) == own + Original(teams, rest) + Original(teams, b);
    }
  }

  lemma {:induction false} OriginalAll(teams: seq<Team>, n: nat, rating: Team -> real)
    requires n <= |teams|
    ensures Original(teams, AsSearches(teams, n, rating)) == TeamLeaves(teams[..n])
  {
    if n > 0 {
      OriginalAll(teams, n - 1, rating);
      var last := AsSearch(teams, n - 1, rating);
      OriginalConcat(teams, AsSearches(teams, n - 1, rating), [last]);
      assert teams[..n][..n - 1] == teams[..n - 1];
      OriginalOne(teams, last);
    }
  }

  /**
   * The matchmaker: full teams play each other, and every search of the queue is in exactly one match, in exactly one
   * unmatched team, or in no team.
   */
  method Find(searches: seq<Search>, size: nat, mean: Search -> real, rating: Team -> real, scale: Scale,
      averageMean: Search -> real)
    returns (teams: seq<Team>, matches: seq<Match>, unmatched: seq<Search>, left: seq<Search>)
    requires Distinct(searches) && size > 0 && Sound(scale)
    ensures Full(teams, size)
    ensures forall i | 0 <= i < |matches| :: Matchmaking.AcceptedPair(matches[i], scale)
    ensures Permutation(Flatten(matches) + unmatched, AsSearches(teams, |teams|, rating))
    ensures exists paired ::
      && Matchmaking.PairedAtSomeTime(AsSearches(teams, |teams|, rating), scale, matches, paired)
      && Matchmaking.NobodyFits(AsSearches(teams, |teams|, rating), scale, averageMean, paired)
    ensures forall x :: (Occurrences(Original(teams, Flatten(matches)), x) + Occurrences(Original(teams, unmatched), x)
                         + Occurrences(left, x) == Occurrences(searches, x))
  {
    teams, left := FindTeams(searches, size, mean);
    AsSearchesDistinct(teams, |teams|, rating);
    ghost var paired;
    matches, unmatched, paired := Matchmaking.FindOpponents(AsSearches(teams, |teams|, rating), scale, averageMean);
    OriginalAll(teams, |teams|, rating);
    OriginalConcat(teams, Flatten(matches), unmatched);
    assert teams[..|teams|] == teams;
    forall x ensures Occurrences(Original(teams, Flatten(matches)), x) + Occurrences(Original(teams, unmatched), x)
        + Occurrences(left, x) == Occurrences(searches, x) {
      OriginalPermutation(teams, Flatten(matches) + unmatched, AsSearches(teams, |teams|, rating), x);
      OccurrencesConcat(Original(teams, Flatten(matches)), Original(teams, unmatched), x);
    }
  }
}
