/** Building games for teams: who plays, who plays with whom, and which games are started. */
module TeamMatchmaker {
  import opened Options
  import opened Lists
  import opened Searches
  import opened KarmarkarKarp

  // ----- Picking neighbours

  /** The neighbours in the order they are considered: lower and higher in turn, then what is left of either side. */
  function Alternating(lower: seq<Search>, higher: seq<Search>, pickLower: bool): (order: seq<Search>)
    decreases |lower| + |higher|, if pickLower then 1 else 0
  {
    if lower == [] && higher == [] then []
    else if pickLower then
      if lower == [] then higher else [lower[0]] + Alternating(lower[1..], higher, false)
    else
      if higher == [] then lower else [higher[0]] + Alternating(lower, higher[1..], true)
  }

  /** Takes every search that still fits, until the game is full. */
  function Fill(order: seq<Search>, count: nat, capacity: nat): (taken: seq<Search>)
    decreases |order|
  {
    if order == [] || count >= capacity then []
    else if count + order[0].players <= capacity then
      [order[0]] + Fill(order[1..], count + order[0].players, capacity)
    else Fill(order[1..], count, capacity)
  }

  function Reversed(xs: seq<Search>): (r: seq<Search>)
    ensures |r| == |xs|
  {
    if xs == [] then [] else [xs[|xs| - 1]] + Reversed(xs[..|xs| - 1])
  }

  /** The neighbours of the search at position `index`, nearest first. */
  function OrderAround(searches: seq<Search>, index: nat): seq<Search>
    requires index < |searches|
  {
    Alternating(Reversed(searches[..index]), searches[index + 1..], true)
  }

  /** The game proposed around the search at position `index`. */
  function Participants(searches: seq<Search>, index: nat, teamSize: nat): seq<Search>
    requires index < |searches|
  {
    [searches[index]] + Fill(OrderAround(searches, index), searches[index].players, 2 * teamSize)
  }

  /** The participants still to come from these neighbours. */
  function StillToPick(lower: seq<Search>, higher: seq<Search>, pickLower: bool, count: nat,
      capacity: nat):
    seq<Search>
  {
    Fill(Alternating(lower, higher, pickLower), count, capacity)
  }

  /** One turn of the alternation: the next neighbour of that side is taken if it fits; an empty side passes. */
  lemma {:induction false} OneSide(xs: seq<Search>, pickLower: bool)
    ensures Alternating(xs, [], pickLower) == xs && Alternating([], xs, pickLower) == xs
    decreases |xs|
  {
    if xs != [] {
      OneSide(xs[1..], !pickLower);
      assert xs == [xs[0]] + xs[1..];
    }
  }

  lemma {:induction false} NextPick(lower: seq<Search>, higher: seq<Search>, pickLower: bool, count: nat, capacity: nat)
    requires count < capacity
    ensures var side := if pickLower then lower else higher;
      StillToPick(lower, higher, pickLower, count, capacity) ==
        if side == [] then StillToPick(lower, higher, !pickLower, count, capacity)
        else
          var (nextLower, nextHigher) := if pickLower then (lower[1..], higher) else (lower, higher[1..]);
          if count + side[0].players <= capacity then
            [side[0]] + StillToPick(nextLower, nextHigher, !pickLower, count + side[0].players, capacity)
          else StillToPick(nextLower, nextHigher, !pickLower, count, capacity)
  {
    if lower == [] { OneSide(higher, true); OneSide(higher, false); }
    if higher == [] { OneSide(lower, true); OneSide(lower, false); }
    if lower == [] && higher != [] { OneSide(higher[1..], !pickLower); }
    if higher == [] && lower != [] { OneSide(lower[1..], !pickLower); }
  }

  method PickNeighboringPlayers(searches: seq<Search>, index: nat, teamSize: nat) returns (result: Option<seq<Search>>)
    requires index < |searches|
    ensures Players(Participants(searches, index, teamSize)) >= 2 * teamSize ==>
      result == Some(Participants(searches, index, teamSize))
    ensures Players(Participants(searches, index, teamSize)) < 2 * teamSize ==> result == None
  {
    var lower, higher := Reversed(searches[..index]), searches[index + 1..];
    var pickLower := true;
    var candidate := Some(searches[index]);
    var participants := [searches[index]];
    var numberOfPlayers := searches[index].players;
    assert participants + StillToPick(lower, higher, pickLower, numberOfPlayers, 2 * teamSize)
        == Participants(searches, index, teamSize);
    hide StillToPick, Participants, Reversed;
    while numberOfPlayers < teamSize * 2
      invariant numberOfPlayers == Players(participants)
      invariant participants + StillToPick(lower, higher, pickLower, numberOfPlayers, 2 * teamSize)
             == Participants(searches, index, teamSize)
      invariant candidate.None? ==> if pickLower then higher == [] else lower == []
      decreases |lower| + |higher|, if candidate.None? then 0 else 1
    {
      NextPick(lower, higher, pickLower, numberOfPlayers, 2 * teamSize);
      var prev := candidate;
      if pickLower {
        if lower == [] { candidate := None; } else { candidate, lower := Some(lower[0]), lower[1..]; }
      } else {
        if higher == [] { candidate := None; } else { candidate, higher := Some(higher[0]), higher[1..]; }
      }
      pickLower := !pickLower;
      if candidate.None? {
        if prev.None? {
          assert participants + [] == participants;
          return None;
        }
      } else if numberOfPlayers + candidate.value.players <= teamSize * 2 {
        OneMore(participants, candidate.value, StillToPick(lower, higher, pickLower,
          numberOfPlayers + candidate.value.players, 2 * teamSize));
        participants := participants + [candidate.value];
        numberOfPlayers := numberOfPlayers + candidate.value.players;
      }
    }
    assert participants + [] == participants;
    result := Some(participants);
  }

  lemma {:induction false} OneMore(participants: seq<Search>, s: Search, rest: seq<Search>)
    ensures Players(participants + [s]) == Players(participants) + s.players
    ensures participants + ([s] + rest) == participants + [s] + rest
  {
    PlayersConcat(participants, [s]);
    assert [s][1..] == [];
  }

  lemma {:induction false} ReversedOccurrences(xs: seq<Search>, x: Search)
    ensures Occurrences(Reversed(xs), x) == Occurrences(xs, x)
    decreases |xs|
  {
    var n := |xs| - 1;
    if xs != [] {
      ReversedOccurrences(xs[..n], x);
      OccurrencesConcat(xs[..n], [xs[n]], x);
      assert xs == xs[..n] + [xs[n]];
    }
  }

  lemma {:induction false} AlternatingOccurrences(lower: seq<Search>, higher: seq<Search>, pickLower: bool, x: Search)
    ensures Occurrences(Alternating(lower, higher, pickLower), x) == Occurrences(lower, x) + Occurrences(higher, x)
    decreases |lower| + |higher|
  {
    if pickLower && lower != [] {
      AlternatingOccurrences(lower[1..], higher, false, x);
    } else if !pickLower && higher != [] {
      AlternatingOccurrences(lower, higher[1..], true, x);
    }
  }

  /**
   * Nothing is taken twice, the game is not overfilled, and while it is not full whatever was left out does not fit.
   */
  lemma {:induction false} FillEffect(order: seq<Search>, count: nat, capacity: nat, x: Search)
    ensures Occurrences(Fill(order, count, capacity), x) <= Occurrences(order, x)
    ensures count <= capacity ==> count + Players(Fill(order, count, capacity)) <= capacity
    ensures count + Players(Fill(order, count, capacity)) < capacity ==>
      Occurrences(Fill(order, count, capacity), x) == Occurrences(order, x)
      || count + Players(Fill(order, count, capacity)) + x.players > capacity
    decreases |order|
  {
    if order != [] && count < capacity {
      if count + order[0].players <= capacity {
        FillEffect(order[1..], count + order[0].players, capacity, x);
      } else {
        FillEffect(order[1..], count, capacity, x);
      }
    }
  }

  /**
   * A proposed game uses searches of the queue without repetition, pivot first, and has at most two full teams; if it
   * has fewer players, every search of the queue takes part or is too large for the free places.
   */
  lemma {:induction false} ParticipantsEffect(searches: seq<Search>, index: nat, teamSize: nat, x: Search)
    requires index < |searches| && searches[index].players <= 2 * teamSize
    ensures var participants := Participants(searches, index, teamSize);
      && participants[0] == searches[index]
      && Players(participants) <= 2 * teamSize
      && Occurrences(participants, x) <= Occurrences(searches, x)
      && (Players(participants) < 2 * teamSize ==>
            Occurrences(participants, x) == Occurrences(searches, x)
              || Players(participants) + x.players > 2 * teamSize)
  {
    var lower, pivot, higher := searches[..index], searches[index], searches[index + 1..];
    var order := Alternating(Reversed(lower), higher, true);
    ReversedOccurrences(lower, x);
    AlternatingOccurrences(Reversed(lower), higher, true, x);
    FillEffect(order, pivot.players, 2 * teamSize, x);
    assert searches == lower + ([pivot] + higher);
    OccurrencesConcat(lower, [pivot] + higher, x);
    assert ([pivot] + higher)[1..] == higher;
    var taken := Fill(order, pivot.players, 2 * teamSize);
    assert ([pivot] + taken)[1..] == taken;
  }

  // ----- Whose turn it is

  /**
   * The turn at which the search at position `i` is considered for the game around `index`: lower and higher neighbours
   * alternate, nearest first and the lower one first, and once a side is used up the other one goes on alone.
   */
  function TurnOf(n: nat, index: nat, i: nat): nat
    requires index < n && i < n && i != index
  {
    var below, above := index, n - index - 1;
    if i < index then
      var d := index - i;
      d - 1 + if d - 1 < above then d - 1 else above
    else
      var d := i - index;
      d - 1 + if d < below then d else below
  }

  lemma {:induction false} ReversedAt(xs: seq<Search>, k: nat)
    requires k < |xs|
    ensures Reversed(xs)[k] == xs[|xs| - 1 - k]
    decreases |xs|
  {
    if k > 0 { ReversedAt(xs[..|xs| - 1], k - 1); }
  }

  lemma {:induction false} AlternatingLength(lower: seq<Search>, higher: seq<Search>, pickLower: bool)
    ensures |Alternating(lower, higher, pickLower)| == |lower| + |higher|
    decreases |lower| + |higher|
  {
    if pickLower && lower != [] { AlternatingLength(lower[1..], higher, false); }
    if !pickLower && higher != [] { AlternatingLength(lower, higher[1..], true); }
  }

  /** Where the neighbours of either side end up: `k` counts from the pivot. */
  lemma {:induction false} AlternatingAt(lower: seq<Search>, higher: seq<Search>, pickLower: bool, k: nat)
    ensures k < |lower| ==>
      var others := if pickLower then k else k + 1;
      var turn := k + if others < |higher| then others else |higher|;
      && turn < |Alternating(lower, higher, pickLower)|
      && Alternating(lower, higher, pickLower)[turn] == lower[k]
    ensures k < |higher| ==>
      var others := if pickLower then k + 1 else k;
      var turn := k + if others < |lower| then others else |lower|;
      && turn < |Alternating(lower, higher, pickLower)|
      && Alternating(lower, higher, pickLower)[turn] == higher[k]
    decreases |lower| + |higher|
  {
    AlternatingLength(lower, higher, pickLower);
    if pickLower && lower != [] {
      AlternatingAt(lower[1..], higher, false, k);
      if k > 0 { AlternatingAt(lower[1..], higher, false, k - 1); }
    }
    if !pickLower && higher != [] {
      AlternatingAt(lower, higher[1..], true, k);
      if k > 0 { AlternatingAt(lower, higher[1..], true, k - 1); }
    }
  }

  /** Every search is considered at its turn. */
  lemma {:induction false} ConsideredAt(searches: seq<Search>, index: nat, i: nat)
    requires index < |searches| && i < |searches| && i != index
    ensures TurnOf(|searches|, index, i) < |OrderAround(searches, index)| == |searches| - 1
    ensures OrderAround(searches, index)[TurnOf(|searches|, index, i)] == searches[i]
  {
    var lower, higher := Reversed(searches[..index]), searches[index + 1..];
    AlternatingLength(lower, higher, true);
    if i < index {
      AlternatingAt(lower, higher, true, index - i - 1);
      ReversedAt(searches[..index], index - i - 1);
    } else {
      AlternatingAt(lower, higher, true, i - index - 1);
    }
  }

  /** On one side of the pivot the nearer search has its turn first. */
  lemma {:induction false} NearerSooner(n: nat, index: nat, i: nat, j: nat)
    requires index < n && i < n && (i < j < index || index < j < i)
    ensures TurnOf(n, index, j) < TurnOf(n, index, i)
  {}

  /** A search that is passed over while a later one is taken did not fit when it was considered. */
  lemma {:induction false} PassedOver(order: seq<Search>, count: nat, capacity: nat, k: nat, later: nat)
    returns (m: nat)
    requires Distinct(order) && k < later < |order|
    requires order[k] !in Fill(order, count, capacity) && order[later] in Fill(order, count, capacity)
    ensures var taken := Fill(order, count, capacity);
      m <= |taken| && order[later] !in taken[..m] && count + Players(taken[..m]) + order[k].players > capacity
    decreases |order|
  {
    var taken := Fill(order, count, capacity);
    assert order[later] == order[1..][later - 1] && order[0] != order[later];
    if count + order[0].players <= capacity {
      var rest := Fill(order[1..], count + order[0].players, capacity);
      assert taken == [order[0]] + rest && k > 0;
      assert order[1..][k - 1] == order[k];
      var m' := PassedOver(order[1..], count + order[0].players, capacity, k - 1, later - 1);
      m := m' + 1;
      assert taken[..m] == [order[0]] + rest[..m'] && ([order[0]] + rest[..m'])[1..] == rest[..m'];
    } else if k == 0 {
      m := 0;
      assert taken[..0] == [];
    } else {
      assert order[1..][k - 1] == order[k];
      m := PassedOver(order[1..], count, capacity, k - 1, later - 1);
    }
  }

  lemma {:induction false} OrderDistinct(searches: seq<Search>, index: nat)
    requires Distinct(searches) && index < |searches|
    ensures Distinct(OrderAround(searches, index)) && searches[index] !in OrderAround(searches, index)
  {
    var lower, higher, pivot := searches[..index], searches[index + 1..], searches[index];
    var order := OrderAround(searches, index);
    forall x ensures Occurrences(order, x) + Occurrences([pivot], x) == Occurrences(searches, x) <= 1 {
      ReversedOccurrences(lower, x);
      AlternatingOccurrences(Reversed(lower), higher, true, x);
      assert searches == lower + ([pivot] + higher);
      OccurrencesConcat(lower, [pivot] + higher, x);
      OccurrencesConcat([pivot], higher, x);
      DistinctOnce(searches, x);
    }
    OnceDistinct(order);
    OccursIn(order, pivot);
    assert Occurrences([pivot], pivot) > 0;
  }

  /**
   * Whoever has the earlier turn has the first claim: if a search is left out while one with a later turn takes part,
   * it needed more places than were free at its turn.
   */
  lemma {:induction false} EarlierClaim(searches: seq<Search>, index: nat, teamSize: nat, i: nat, j: nat)
    requires Distinct(searches) && index < |searches| && i < |searches| && j < |searches| && i != index && j != index
    requires TurnOf(|searches|, index, j) < TurnOf(|searches|, index, i)
    requires searches[i] in Participants(searches, index, teamSize)
    requires searches[j] !in Participants(searches, index, teamSize)
    ensures var participants := Participants(searches, index, teamSize);
      exists m :: (0 < m <= |participants| && searches[i] !in participants[..m]
                   && Players(participants[..m]) + searches[j].players > 2 * teamSize)
  {
    var order, pivot := OrderAround(searches, index), searches[index];
    var participants, taken := Participants(searches, index, teamSize), Fill(order, pivot.players, 2 * teamSize);
    OrderDistinct(searches, index);
    ConsideredAt(searches, index, i);
    ConsideredAt(searches, index, j);
    assert participants == [pivot] + taken;
    var k, later := TurnOf(|searches|, index, j), TurnOf(|searches|, index, i);
    assert order[later] in order;
    var m := PassedOver(order, pivot.players, 2 * teamSize, k, later);
    assert participants[..m + 1] == [pivot] + taken[..m] && ([pivot] + taken[..m])[1..] == taken[..m];
  }

  /** Among the searches on one side of the pivot a nearer one is passed over only for lack of places. */
  lemma {:induction false} NearestFirst(searches: seq<Search>, index: nat, teamSize: nat, i: nat, j: nat)
    requires Distinct(searches) && index < |searches| && i < |searches| && (i < j < index || index < j < i)
    requires searches[i] in Participants(searches, index, teamSize)
    requires searches[j] !in Participants(searches, index, teamSize)
    ensures var participants := Participants(searches, index, teamSize);
      exists m :: (0 < m <= |participants| && searches[i] !in participants[..m]
                   && Players(participants[..m]) + searches[j].players > 2 * teamSize)
  {
    NearerSooner(|searches|, index, i, j);
    EarlierClaim(searches, index, teamSize, i, j);
  }

  // ----- Single players

  lemma {:induction false} FillSingles(order: seq<Search>, count: nat, capacity: nat)
    requires count <= capacity && forall s | s in order :: s.players == 1
    ensures var taken := if |order| < capacity - count then |order| else capacity - count;
      Fill(order, count, capacity) == order[..taken]
    decreases |order|
  {
    if order != [] && count < capacity {
      assert order[0] in order && forall s | s in order[1..] :: s in order;
      FillSingles(order[1..], count + 1, capacity);
    }
  }

  /**
   * Among single players a game is a window around the pivot with as many places as the game, or everybody; both sides
   * are equally long, or the lower one by one longer, unless one of them ends with the queue.
   */
  lemma {:induction false} SinglesWindow(searches: seq<Search>, index: nat, teamSize: nat) returns (lo: nat, hi: nat)
    requires Distinct(searches) && index < |searches| && teamSize > 0 && forall s | s in searches :: s.players == 1
    ensures lo <= index < hi <= |searches|
    ensures hi - lo == if |searches| < 2 * teamSize then |searches| else 2 * teamSize
    ensures forall i | 0 <= i < |searches| :: searches[i] in Participants(searches, index, teamSize) <==> lo <= i < hi
    ensures lo == 0 || hi == |searches| || 0 <= (index - lo) - (hi - 1 - index) <= 1
  {
    var n, order, pivot := |searches|, OrderAround(searches, index), searches[index];
    var k := if n < 2 * teamSize then n - 1 else 2 * teamSize - 1;
    var below, above := index, n - index - 1;
    var a := if (k + 1) / 2 > below then below else if k / 2 > above then k - above else (k + 1) / 2;
    lo, hi := index - a, index + (k - a) + 1;
    OrderDistinct(searches, index);
    AlternatingLength(Reversed(searches[..index]), searches[index + 1..], true);
    forall s | s in order ensures s.players == 1 { OrderMember(searches, index, s); }
    assert pivot in searches;
    FillSingles(order, 1, 2 * teamSize);
    var participants := Participants(searches, index, teamSize);
    assert participants == [pivot] + order[..k];
    forall i | 0 <= i < n ensures searches[i] in participants <==> lo <= i < hi {
      if i != index {
        ConsideredAt(searches, index, i);
        TakenAt(order, k, TurnOf(n, index, i));
        DistinctElsewhere(searches, i, index);
        WindowTurn(n, index, k, a, i);
      }
    }
  }

  lemma {:induction false} DistinctElsewhere(searches: seq<Search>, i: nat, index: nat)
    requires Distinct(searches) && i < |searches| && index < |searches| && i != index
    ensures searches[i] != searches[index]
  {
    if i < index { DistinctIndices(searches, i, index); } else { DistinctIndices(searches, index, i); }
  }

  lemma {:induction false} OrderMember(searches: seq<Search>, index: nat, s: Search)
    requires index < |searches| && s in OrderAround(searches, index)
    ensures s in searches
  {
    var lower, higher := searches[..index], searches[index + 1..];
    ReversedOccurrences(lower, s);
    AlternatingOccurrences(Reversed(lower), higher, true, s);
    OccursIn(OrderAround(searches, index), s);
    OccursIn(lower, s);
    OccursIn(higher, s);
  }

  lemma {:induction false} TakenAt(order: seq<Search>, k: nat, t: nat)
    requires Distinct(order) && k <= |order| && t < |order|
    ensures order[t] in order[..k] <==> t < k
  {
    if t >= k {
      forall j | 0 <= j < k ensures order[j] != order[t] { DistinctIndices(order, j, t); }
    }
  }

  lemma {:induction false} WindowTurn(n: nat, index: nat, k: nat, a: nat, i: nat)
    requires index < n && i < n && i != index && k < n
    requires var below, above := index, n - index - 1;
      a == if (k + 1) / 2 > below then below else if k / 2 > above then k - above else (k + 1) / 2
    ensures a <= index && TurnOf(n, index, i) < k <==> index - a <= i < index + (k - a) + 1
  {}

  // ----- Splitting a game into two teams

  datatype TeamsResult = Teams(a: seq<Search>, b: seq<Search>) | Uneven | EmptyTeam

  function OfSize(searches: seq<Search>, size: int): seq<Search> {
    if searches == [] then []
    else (if searches[0].players == size then [searches[0]] else []) + OfSize(searches[1..], size)
  }

  function Average(searches: seq<Search>): real
    requires Players(searches) > 0
  {
    Rating(searches) / Players(searches) as real
  }

  function Abs(x: real): real {
    if x < 0.0 then -x else x
  }

  /** How far a pair of searches is from the average rating of the game. */
  function Imbalance(average: real, search: Search, item: Search): real {
    if search.players + item.players == 0 then 0.0
    else Abs(average - (search.rating + item.rating) / (search.players + item.players) as real)
  }

  /** The first single player with the least imbalance. */
  method FindMostBalancedFiller(average: real, search: Search, singles: seq<Search>) returns (filler: Option<Search>)
    ensures filler.None? <==> singles == []
    ensures filler.Some? ==> filler.value in singles
    ensures filler.Some? ==> forall i | 0 <= i < |singles| ::
      Imbalance(average, search, filler.value) <= Imbalance(average, search, singles[i])
  {
    if singles == [] {
      return None;
    }
    var best := singles[0];
    for i := 1 to |singles|
      invariant best in singles
      invariant forall j | 0 <= j < i :: Imbalance(average, search, best) <= Imbalance(average, search, singles[j])
    {
      if Imbalance(average, search, singles[i]) < Imbalance(average, search, best) {
        best := singles[i];
      }
    }
    filler := Some(best);
  }

  lemma {:induction false} OfSizeIn(searches: seq<Search>, size: int, x: Search)
    ensures x in OfSize(searches, size) <==> x in searches && x.players == size
  {
    if searches != [] {
      OfSizeIn(searches[1..], size, x);
      assert searches == [searches[0]] + searches[1..];
    }
  }

  /** The last search of a size is the one that comes last among the participants. */
  lemma {:induction false} LastOfSize(searches: seq<Search>, size: int) returns (k: nat)
    requires OfSize(searches, size) != []
    ensures k < |searches| && searches[k].players == size
    ensures OfSize(searches, size)[|OfSize(searches, size)| - 1] == searches[k]
    ensures forall j | k < j < |searches| :: searches[j].players != size
    decreases |searches|
  {
    var rest := OfSize(searches[1..], size);
    if rest == [] {
      k := 0;
      forall j | 0 < j < |searches| ensures searches[j].players != size {
        OfSizeIn(searches[1..], size, searches[j]);
        assert searches[1..][j - 1] == searches[j];
      }
    } else {
      var j := LastOfSize(searches[1..], size);
      k := j + 1;
      assert forall i | k < i < |searches| :: searches[i] == searches[1..][i - 1];
    }
  }

  /** A team taken out of the participants and everybody else together are the participants. */
  lemma {:induction false} TeamAndRest(participants: seq<Search>, team: seq<Search>)
    requires Distinct(participants) && Distinct(team) && forall s | s in team :: s in participants
    ensures Permutation(team + NotIn(participants, team), participants)
  {
    forall x ensures Occurrences(team + NotIn(participants, team), x) == Occurrences(participants, x) {
      OccurrencesConcat(team, NotIn(participants, team), x);
      NotInOccurrences(participants, team, x);
      DistinctOnce(participants, x);
      DistinctOnce(team, x);
    }
  }

  /** Some division of the participants into two teams of equal size exists. */
  ghost predicate CanSplit(participants: seq<Search>, teamSize: nat) {
    exists a, b :: Permutation(a + b, participants) && Players(a) == Players(b) == teamSize
  }

  /** A party one short of a full team can only be completed by a single player. */
  lemma {:induction false} NoSingleNoSplit(participants: seq<Search>, teamSize: nat, search: Search)
    requires Distinct(participants) && teamSize > 0 && forall s | s in participants :: s.players > 0
    requires search in participants && search.players == teamSize - 1
    requires forall s | s in participants && s != search :: s.players != 1
    ensures !CanSplit(participants, teamSize)
  {
    if a, b :| Permutation(a + b, participants) && Players(a) == Players(b) == teamSize {
      OccursIn(participants, search);
      DistinctOnce(participants, search);
      OccurrencesConcat(a, b, search);
      OccursIn(a, search);
      OccursIn(b, search);
      var team := if search in a then a else b;
      var rest := Without(team, search);
      PlayersWithout(team, search);
      WithoutOccurrences(team, search, search);
      OccursIn(rest, search);
      forall s | s in rest ensures s in participants && s != search {
        WithoutOccurrences(team, search, s);
        OccursIn(rest, s);
        OccurrencesConcat(a, b, s);
        OccursIn(participants, s);
      }
    }
  }

  /** How the first team is put together, in the three cases the algorithm distinguishes. */
  ghost predicate ChosenTeam(team: seq<Search>, participants: seq<Search>, teamSize: nat) {
    var full, almost := OfSize(participants, teamSize), OfSize(participants, teamSize - 1);
    if full != [] then team == [full[|full| - 1]]
    else if almost != [] then
      var search := almost[|almost| - 1];
      && |team| == 2 && team[0] == search
      && team[1] in participants && team[1] != search && team[1].players == 1
      && Players(participants) > 0
      && forall s | s in participants && s != search && s.players == 1 ::
           Imbalance(Average(participants), search, team[1]) <= Imbalance(Average(participants), search, s)
    else participants != [] && Permutation(team, Own(Reduce(Initial(participants))))
  }

  lemma {:induction false} SplitPlayers(a: seq<Search>, b: seq<Search>, participants: seq<Search>)
    requires Permutation(a + b, participants)
    ensures Players(a) + Players(b) == Players(participants)
  {
    PlayersConcat(a, b);
    PlayersPermutation(a + b, participants);
  }

  /** Teams that together use distinct searches once share none, so filtering the second one changes nothing. */
  lemma {:induction false} NothingToFilter(teamA: seq<Search>, teamB: seq<Search>, participants: seq<Search>)
    requires Distinct(participants) && Permutation(teamA + teamB, participants)
    ensures Permutation(teamA + NotIn(teamB, teamA), participants)
    ensures teamB != [] ==> NotIn(teamB, teamA) != []
  {
    forall x ensures Occurrences(teamA + NotIn(teamB, teamA), x) == Occurrences(participants, x) {
      OccurrencesConcat(teamA, NotIn(teamB, teamA), x);
      OccurrencesConcat(teamA, teamB, x);
      NotInOccurrences(teamB, teamA, x);
      DistinctOnce(participants, x);
      OccursIn(teamA, x);
    }
    if teamB != [] {
      var x := teamB[0];
      assert Occurrences(teamA + NotIn(teamB, teamA), x) == Occurrences(teamA + teamB, x);
      OccurrencesConcat(teamA, NotIn(teamB, teamA), x);
      OccurrencesConcat(teamA, teamB, x);
    }
  }

  lemma {:induction false} OfSizeDistinct(searches: seq<Search>, size: int)
    requires Distinct(searches)
    ensures Distinct(OfSize(searches, size))
    decreases |searches|
  {
    if searches != [] {
      OfSizeDistinct(searches[1..], size);
      OfSizeIn(searches[1..], size, searches[0]);
      var rest := OfSize(searches[1..], size);
      assert ([searches[0]] + rest)[1..] == rest && [] + rest == rest;
    }
  }

  /** The single players left for a party that lacks one player (for two-player teams that party is one of them). */
  lemma {:induction false} SinglesLeft(participants: seq<Search>, teamSize: nat, search: Search, singles: seq<Search>)
    requires Distinct(participants) && forall s | s in participants :: s.players > 0
    requires var almost := OfSize(participants, teamSize - 1); almost != [] && search == almost[|almost| - 1]
    requires var all := OfSize(participants, 1); singles == if teamSize == 2 then all[..|all| - 1] else all
    ensures search in participants && search.players == teamSize - 1
    ensures forall s :: s in singles <==> s in participants && s != search && s.players == 1
  {
    var all := OfSize(participants, 1);
    OfSizeIn(participants, teamSize - 1, search);
    forall s ensures s in singles <==> s in participants && s != search && s.players == 1 {
      OfSizeIn(participants, 1, s);
      if teamSize == 2 {
        OfSizeDistinct(participants, 1);
        DistinctInit(all);
        assert all == all[..|all| - 1] + [search];
      }
    }
  }

  lemma {:induction false} PairPlayers(a: Search, b: Search)
    ensures Players([a, b]) == a.players + b.players && (a != b ==> Distinct([a, b]))
  {
    var pair := [a, b];
    assert pair[1..] == [b];
    SingletonDistinct(b);
  }

  /** The second case: a party one player short takes the single player that balances the game best. */
  method CompleteParty(participants: seq<Search>, teamSize: nat, average: real) returns (team: Option<seq<Search>>)
    requires Distinct(participants) && teamSize > 0 && forall s | s in participants :: 0 < s.players <= teamSize
    requires OfSize(participants, teamSize - 1) != []
    requires Players(participants) > 0 && average == Average(participants)
    ensures team.Some? ==> Permutation(team.value + NotIn(participants, team.value), participants)
    ensures team.Some? ==> Players(team.value) == teamSize
    ensures team.Some? && OfSize(participants, teamSize) == [] ==> ChosenTeam(team.value, participants, teamSize)
    ensures team.None? ==> !CanSplit(participants, teamSize)
  {
    var almost, singles := OfSize(participants, teamSize - 1), OfSize(participants, 1);
    var search := almost[|almost| - 1];
    if teamSize == 2 { singles := singles[..|singles| - 1]; }
    SinglesLeft(participants, teamSize, search, singles);
    var filler := FindMostBalancedFiller(average, search, singles);
    if filler.None? {
      NoSingleNoSplit(participants, teamSize, search);
      return None;
    }
    team := Some([search, filler.value]);
    PairPlayers(search, filler.value);
    TeamAndRest(participants, team.value);
  }

  /**
   * When two full teams come out: always with a full party, if at all possible with one that lacks a player, else if
   * the differencing happens to end with two teams of the same size.
   */
  ghost predicate Divides(participants: seq<Search>, teamSize: nat) {
    if OfSize(participants, teamSize) != [] then true
    else if OfSize(participants, teamSize - 1) != [] then CanSplit(participants, teamSize)
    else participants != [] && Players(Own(Reduce(Initial(participants)))) == teamSize
  }

  method MakeTeams(participants: seq<Search>, teamSize: nat) returns (result: TeamsResult)
    requires Distinct(participants) && teamSize > 0 && forall s | s in participants :: 0 < s.players <= teamSize
    ensures result.Teams? ==> Permutation(result.a + result.b, participants)
    ensures result.Teams? ==> Players(result.a) == Players(result.b) == teamSize
    ensures result.Teams? ==> ChosenTeam(result.a, participants, teamSize)
    ensures Players(participants) == 2 * teamSize ==>
      !result.EmptyTeam? && (result.Teams? <==> Divides(participants, teamSize))
  {
    hide Permutation, Distinct, OfSize, CanSplit;
    if |participants| < 2 {
      return Uneven;
    }
    var average := Average(participants);
    var teamA, teamB := [], [];
    var full, almost := OfSize(participants, teamSize), OfSize(participants, teamSize - 1);
    if full != [] {
      var search := full[|full| - 1];
      OfSizeIn(participants, teamSize, search);
      teamA := [search];
      teamB := NotIn(participants, teamA);
      SingletonDistinct(search);
      TeamAndRest(participants, teamA);
    } else if almost != [] {
      var team := CompleteParty(participants, teamSize, average);
      if team.None? {
        return Uneven;
      }
      teamA := team.value;
      teamB := NotIn(participants, teamA);
    } else {
      teamA, teamB := RunKarmarkarKarp(participants);
      NothingToFilter(teamA, teamB, participants);
      PlayersPermutation(teamA, Own(Reduce(Initial(participants))));
      teamB := NotIn(teamB, teamA);
    }
    SplitPlayers(teamA, teamB, participants);
    if teamA == [] || teamB == [] {
      return EmptyTeam;
    }
    if Players(teamA) != teamSize || Players(teamB) != teamSize {
      if full == [] && almost != [] && Players(participants) == 2 * teamSize { assert false; }
      return Uneven;
    }
    result := Teams(teamA, teamB);
    SplitExists(teamA, teamB, participants, teamSize);
  }

  lemma {:induction false} SplitExists(a: seq<Search>, b: seq<Search>, participants: seq<Search>, teamSize: nat)
    requires Permutation(a + b, participants) && Players(a) == Players(b) == teamSize
    ensures CanSplit(participants, teamSize)
  {}

  lemma {:induction false} SingletonDistinct(s: Search)
    ensures Distinct([s]) && Players([s]) == s.players
  {
    var one := [s];
    assert one[1..] == [];
  }
}
