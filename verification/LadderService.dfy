/** The matchmaking service and its queues, updating their fields step by step. */
module LadderServiceModule {
  import opened Options
  import opened Lists
  import opened Searches
  import opened LadderState
  import opened LadderInvariants
  import opened LadderCommit
  import opened LadderPop
  import opened LadderEffects

  // ----- Cancelling one search at a time

  /** Players who were searching and lose their last search are idle again; unlike `Settle` this leaves out everybody
      who had no search to begin with, such as players in the middle of a delivery. */
  function SettleLosing(states: map<Player, PlayerState>, before: map<Key, SearchId>, after: map<Key, SearchId>):
    map<Player, PlayerState>
  {
    map p | p in states ::
      if states[p].SearchingLadder? && HasSearch(before, p) && !HasSearch(after, p) then Idle else states[p]
  }

  function CancelLosing(s: State, searches: set<SearchId>): State {
    var registry := Drop(s.registry, searches);
    s.(registry := registry, records := CancelRecords(s.records, searches),
       states := SettleLosing(s.states, s.registry, registry))
  }

  lemma {:induction false} DropTwice(registry: map<Key, SearchId>, a: set<SearchId>, b: set<SearchId>)
    ensures Drop(Drop(registry, a), b) == Drop(registry, a + b)
  {}

  lemma {:induction false} HasSearchDrop(registry: map<Key, SearchId>, a: set<SearchId>, p: Player)
    ensures HasSearch(Drop(registry, a), p) ==> HasSearch(registry, p)
  {
    if HasSearch(Drop(registry, a), p) {
      var k :| k in Drop(registry, a) && k.0 == p;
      assert k in registry;
    }
  }

  lemma {:induction false} SettleLosingTwice(states: map<Player, PlayerState>, registry: map<Key, SearchId>,
      a: set<SearchId>, b: set<SearchId>)
    ensures var (first, both) := (Drop(registry, a), Drop(registry, a + b));
      SettleLosing(SettleLosing(states, registry, first), first, both) == SettleLosing(states, registry, both)
  {
    var first := Drop(registry, a);
    DropTwice(registry, a, b);
    hide HasSearch, Drop;
    forall p | p in states
      ensures HasSearch(first, p) ==> HasSearch(registry, p)
      ensures HasSearch(Drop(registry, a + b), p) ==> HasSearch(first, p)
    {
      HasSearchDrop(registry, a, p);
      HasSearchDrop(first, b, p);
    }
  }

  lemma {:induction false} CancelRecordsTwice(records: map<SearchId, Record>, a: set<SearchId>, b: set<SearchId>)
    ensures CancelRecords(CancelRecords(records, a), b) == CancelRecords(records, a + b)
  {}

  lemma {:induction false} CancelLosingTwice(s: State, a: set<SearchId>, b: set<SearchId>)
    ensures CancelLosing(CancelLosing(s, a), b) == CancelLosing(s, a + b)
  {
    hide Drop, SettleLosing, CancelRecords;
    DropTwice(s.registry, a, b);
    CancelRecordsTwice(s.records, a, b);
    SettleLosingTwice(s.states, s.registry, a, b);
  }

  lemma {:induction false} CancelLosingNothing(s: State)
    ensures CancelLosing(s, {}) == s
  {
    assert Drop(s.registry, {}) == s.registry;
  }

  /** Between two transitions everybody who is searching has a search, and the two ways to settle agree. */
  lemma {:induction false} CancelLosingAgrees(s: State, searches: set<SearchId>)
    requires StatesAgree(s)
    ensures CancelLosing(s, searches) == Cancel(s, searches)
  {
    hide HasSearch;
    var registry := Drop(s.registry, searches);
    assert SettleLosing(s.states, s.registry, registry) == Settle(s.states, registry);
  }

  class LadderService {
    const sizes: Sizes
    /** The searches of each player by queue. */
    var searches: map<Key, SearchId>
    var playerStates: map<Player, PlayerState>
    var records: map<SearchId, Record>
    var queues: map<QueueName, seq<SearchId>>
    var starting: set<SearchId>
    var snapshots: map<QueueName, seq<Search>>
    var history: seq<Event>
    var allowNewSearches: bool

    constructor (sizes: Sizes)
      ensures this.sizes == sizes && allowNewSearches && Valid()
      ensures Now() == State(map[], map[], map[], map[], {}, map[], [])
    {
      this.sizes := sizes;
      searches, playerStates, records, queues := map[], map[], map[], map[];
      starting, snapshots, history, allowNewSearches := {}, map[], [], true;
    }

    function Now(): State
      reads this
    {
      State(searches, playerStates, records, queues, starting, snapshots, history)
    }

    ghost predicate Valid()
      reads this
    {
      Inv(Now(), sizes, {})
    }

    /** Removes a search from the registry, for all of its players, without cancelling it. */
    method ClearSearch(initiator: Player, q: QueueName, ghost undelivered: set<SearchId>)
      returns (search: Option<SearchId>)
      requires CanCancel(Now(), sizes, undelivered)
      modifies `searches
      ensures search == if (initiator, q) in old(searches) then Some(old(searches)[(initiator, q)]) else None
      ensures searches == if search.Some? then Drop(old(searches), {search.value}) else old(searches)
    {
      hide CanCancel, Distinct;
      if (initiator, q) !in searches {
        return None;
      }
      var id := searches[(initiator, q)];
      RegisteredKeys(Now(), sizes, undelivered, initiator, q);
      var players := records[id].players;
      ghost var before := searches;
      for i := 0 to |players|
        invariant searches == DropFor(before, q, players[..i])
        modifies `searches
      {
        DistinctPrefix(players, i);
        assert (players[i], q) in searches;
        searches := searches - {(players[i], q)};
        DropForNext(before, q, players, i);
      }
      assert players[..|players|] == players;
      return Some(id);
    }

    /** Players of a cancelled search who have no other search stop searching. */
    method SettlePlayers(players: seq<Player>)
      requires forall p | p in players :: p in playerStates
      modifies `playerStates
      ensures playerStates == SettleSome(old(playerStates), searches, players)
    {
      hide HasSearch;
      for i := 0 to |players|
        invariant playerStates == SettleSome(old(playerStates), searches, players[..i])
        modifies `playerStates
      {
        assert players[..i + 1] == players[..i] + [players[i]];
        if !HasSearch(searches, players[i]) && playerStates[players[i]].SearchingLadder? {
          playerStates := playerStates[players[i] := Idle];
        }
      }
      assert players[..|players|] == players;
    }

    /** Cancels the search a player has in one queue, if any; some searches may be waiting to be delivered. */
    method CancelSearchIn(initiator: Player, q: QueueName, ghost undelivered: set<SearchId>)
      requires CanCancel(Now(), sizes, undelivered)
      requires (initiator, q) in searches ==> searches[(initiator, q)] !in undelivered
      modifies `searches, `records, `playerStates
      ensures Now() == CancelLosing(old(Now()), TouchedIn(old(searches), [initiator], q))
      ensures CanCancel(Now(), sizes, undelivered)
    {
      hide CanCancel, CancelLosing, SettleSome;
      ghost var before := Now();
      CanCancelKept(before, sizes, undelivered, TouchedIn(searches, [initiator], q));
      TouchedOne(searches, initiator, q);
      var search := ClearSearch(initiator, q, undelivered);
      if search.None? {
        CancelLosingNothing(before);
        return;
      }
      var id := search.value;
      CancelOne(before, sizes, undelivered, initiator, q);
      records := records[id := records[id].(status := Cancelled)];
      SettlePlayers(records[id].players);
    }

    /** Cancels the searches a player has in these queues. */
    method CancelSearchesIn(initiator: Player, names: set<QueueName>, ghost undelivered: set<SearchId>)
      requires CanCancel(Now(), sizes, undelivered)
      requires forall id | id in TouchedNames(searches, initiator, names) :: id !in undelivered
      modifies `searches, `records, `playerStates
      ensures Now() == CancelLosing(old(Now()), TouchedNames(old(searches), initiator, names))
      ensures CanCancel(Now(), sizes, undelivered)
    {
      hide CancelLosing, CanCancel;
      ghost var before := Now();
      ghost var done: set<QueueName> := {};
      var left := names;
      CancelLosingNothing(before);
      assert TouchedNames(before.registry, initiator, {}) == {};
      while left != {}
        invariant done + left == names
        invariant Now() == CancelLosing(before, TouchedNames(before.registry, initiator, done))
        invariant CanCancel(Now(), sizes, undelivered)
        decreases |left|
        modifies `searches, `records, `playerStates
      {
        var name :| name in left;
        NextName(before, initiator, done, name);
        assert (initiator, name) in searches ==>
                 searches[(initiator, name)] in TouchedNames(before.registry, initiator, names) by {
          FewerKeys(before, TouchedNames(before.registry, initiator, done));
        }
        CancelSearchIn(initiator, name, undelivered);
        done, left := done + {name}, left - {name};
      }
    }

    method CancelSearch(initiator: Player, queueName: Option<QueueName>)
      requires Valid()
      modifies `searches, `records, `playerStates
      ensures Now() == Cancel(old(Now()),
        if queueName.Some? then TouchedIn(old(searches), [initiator], queueName.value)
        else Touched(old(searches), [initiator]))
      ensures CancelsOwn(old(Now()), Now(), initiator, queueName)
      ensures Valid()
    {
      hide Inv, CancelsOwn, Cancel;
      var names := if queueName.Some? then {queueName.value} else set k | k in searches && k.0 == initiator :: k.1;
      ghost var cancelled := TouchedNames(searches, initiator, names);
      ValidCanCancel(Now(), sizes);
      AllNames(searches, initiator, names);
      CancelKeeps(Now(), sizes, {}, cancelled);
      CancelLosingAgrees(Now(), cancelled);
      CancelOwnEffect(Now(), initiator, queueName);
      CancelSearchesIn(initiator, names, {});
    }

    method OnConnectionLost(player: Player)
      requires Valid()
      modifies `searches, `records, `playerStates
      ensures Now() == Cancel(old(Now()), Touched(old(searches), [player]))
      ensures CancelsOwn(old(Now()), Now(), player, None)
      ensures Valid() && !HasSearch(searches, player)
    {
      hide Inv, CancelsOwn;
      CancelSearch(player, None);
    }

    method GracefulShutdown()
      requires Valid()
      modifies `searches, `records, `playerStates, `allowNewSearches
      ensures Now() == Cancel(old(Now()), old(searches).Values) && searches == map[] && !allowNewSearches
      ensures Cancels(old(Now()), Now(), old(searches).Values)
      ensures Valid()
    {
      hide Inv, Cancel, HasSearch, Cancels, CancelsOwn, TouchedBy, Touched, OnlyThese;
      allowNewSearches := false;
      ghost var before := Now();
      ghost var done: set<Player> := {};
      var left := set k | k in searches :: k.0;
      CancelNobody(before, sizes);
      assert {} + left == left && OnlyThese(searches, left) by { EverybodyIn(searches); }
      while left != {}
        invariant OnlyThese(before.registry, done + left)
        invariant Now() == Cancel(before, TouchedBy(before.registry, done)) && Valid()
        decreases |left|
        modifies `searches, `records, `playerStates
      {
        var player :| player in left;
        NextPlayer(before, done, player);
        CancelSearch(player, None);
        assert done + left == done + {player} + (left - {player});
        done, left := done + {player}, left - {player};
      }
      assert done + {} == done;
      AllPlayers(before, done);
    }

    /** Cancels the searches some players have in a queue. */
    method LeaveQueueFirst(players: seq<Player>, q: QueueName)
      requires Valid()
      modifies `searches, `records, `playerStates
      ensures Now() == Cancel(old(Now()), TouchedIn(old(searches), players, q)) && Valid()
    {
      hide Inv, Cancel;
      ghost var before := Now();
      CancelNobody(before, sizes);
      for i := 0 to |players|
        invariant Now() == Cancel(before, TouchedIn(before.registry, players[..i], q)) && Valid()
        modifies `searches, `records, `playerStates
      {
        NextToJoin(before, players, i, q);
        if (players[i], q) in searches {
          CancelSearch(players[i], Some(q));
        } else {
          TouchedOne(searches, players[i], q);
          CancelNobody(Now(), sizes);
        }
      }
      assert players[..|players|] == players;
    }

    /** Registers a new search for all of its players. */
    method JoinQueue(players: seq<Player>, q: QueueName, id: SearchId, rating: real)
      modifies `searches, `records, `playerStates, `starting, `history
      ensures Now() == Open(old(Now()), players, q, id, rating)
    {
      hide SetStates, Register;
      JoinNobody(Now(), q, id);
      for i := 0 to |players|
        invariant playerStates == SetStates(old(playerStates), players[..i], SearchingLadder)
        invariant searches == Register(old(searches), players[..i], q, id)
        modifies `searches, `playerStates
      {
        JoinOne(old(playerStates), players, i);
        RegisterOne(old(searches), players, i, q, id);
        playerStates := playerStates[players[i] := SearchingLadder];
        searches := searches[(players[i], q) := id];
      }
      assert players[..|players|] == players;
      records := records[id := Record(q, players, rating, Pending, 0)];
      starting := starting + {id};
      history := history + [Started(players)];
    }

    /** Players join a queue together; the search they had in it before is cancelled. */
    method StartSearch(players: seq<Player>, q: QueueName, id: SearchId, rating: real, timedOut: bool)
      returns (result: StartResult)
      requires Valid() && id !in records && q in sizes && 0 < |players| <= sizes[q] && Distinct(players)
      modifies `searches, `records, `playerStates, `starting, `history
      ensures result == if !allowNewSearches then Disabled else if timedOut then TimedOut else Searching
      ensures Now() ==
        if result.Searching? then LadderState.StartSearch(old(Now()), players, q, id, rating) else old(Now())
      ensures result.Searching? ==> Starts(old(Now()), Now(), players, q, id, rating)
      ensures result.Searching? ==> OnlyInQueue(old(Now()), Now(), players, q, id)
      ensures Valid()
    {
      if !allowNewSearches {
        return Disabled;
      }
      if timedOut {
        return TimedOut;
      }
      StartEffect(Now(), players, q, id, rating);
      StartOnlyInQueue(Now(), players, q, id, rating);
      hide Inv, Cancel, SetStates, Register, Distinct, Starts, OnlyInQueue;
      StartKeeps(Now(), sizes, players, q, id, rating);
      LeaveQueueFirst(players, q);
      JoinQueue(players, q, id, rating);
      return Searching;
    }

    /** One player's turn: they leave the search state, all other queues, and then the registry. */
    method TakeTurn(p: Player, q: QueueName, ghost undelivered: set<SearchId>)
      requires CanCancel(Now().(states := playerStates[p := StartingAutomatch]), sizes, undelivered)
      requires forall id | id in TouchedNames(searches, p, OtherQueues(searches, p, q)) :: id !in undelivered
      modifies `searches, `records, `playerStates
      ensures Now() == AfterTurn(old(Now()), p, q)
    {
      hide CanCancel, CancelLosing, Drop, TouchedNames;
      playerStates := playerStates[p := StartingAutomatch];
      var names := OtherQueues(searches, p, q);
      CancelSearchesIn(p, names, undelivered);
      var _ := ClearSearch(p, q, undelivered);
    }

    /**
     * Tells the players of a match: player by player, all other searches are cancelled and the player leaves the
     * registry. A search that is cancelled on the way may belong to players whose turn has not come.
     */
    method OnMatchFound(m: Match, q: QueueName, ghost undelivered: set<SearchId>)
      requires Inv(Now(), sizes, undelivered) && MatchedIn(Now(), q, undelivered) && Ids(SearchesOf(m)) <= undelivered
      modifies `searches, `records, `playerStates, `history
      ensures Now() == Deliver(old(Now()), m) && Delivers(old(Now()), Now(), m)
      ensures Inv(Now(), sizes, undelivered - Ids(SearchesOf(m)))
    {
      ghost var before, own := Now(), Ids(SearchesOf(m));
      var players := Members(records, SearchesOf(m));
      hide Inv, Delivering, CanCancel, MatchedIn, Members, Deliver, TouchesOwn, AfterTurn, TouchedNames, Touched,
           OtherQueues, Registered, Ids, SearchesOf, Delivers;
      DeliverKeeps(before, sizes, undelivered, q, m);
      StartDelivering(before, sizes, undelivered, q, m);
      history := history + [Delivered(players)];
      for i := 0 to |players|
        invariant Delivering(before, Now(), own, players, players[..i])
        invariant CanCancel(Now(), sizes, undelivered - Touched(before.registry, players[..i]))
        modifies `searches, `records, `playerStates
      {
        DeliverOne(before, Now(), sizes, undelivered, q, own, players, i);
        TakeTurn(players[i], q, undelivered - Touched(before.registry, players[..i]));
      }
      assert players[..|players|] == players;
      AllDelivered(before, Now(), m);
      DeliverEffect(before, m);
    }

    // ----- The queues

    /** The task of a search, from its start to the point where it waits for a match. */
    method RunSearch(id: SearchId)
      requires Valid() && id in starting
      modifies `queues, `starting
      ensures id in records && Now() == RunTask(old(Now()), id) && Joins(old(Now()), Now(), id) && Valid()
    {
      assert id in records;
      TaskJoins(Now(), id);
      RunTaskKeeps(Now(), sizes, id);
      hide Inv;
      starting := starting - {id};
      var q := records[id].queue;
      if records[id].status.Pending? {
        queues := queues[q := (if q in queues then queues[q] else []) + [id]];
      }
    }

    /** The task wakes up with a resolved search and cleans up. */
    method FinishSearch(id: SearchId)
      requires Valid() && id in records && !records[id].status.Pending?
      modifies `queues
      ensures Now() == (if id in QueueOf(old(Now()), records[id].queue) then FinishTask(old(Now()), id) else old(Now()))
      ensures Leaves(old(Now()), Now(), id)
      ensures Valid()
    {
      var q := records[id].queue;
      if q in queues && id in queues[q] {
        TaskLeaves(Now(), id);
        FinishTaskKeeps(Now(), sizes, id);
        hide Inv;
        queues := queues[q := Without(queues[q], id)];
      }
    }

    method RegisterUnmatched(unmatched: seq<Search>)
      requires forall x | x in unmatched :: x.id in records
      modifies `records
      ensures records == FailAttempt(old(records), unmatched)
    {
      assert FailAttempt(records, []) == records;
      for i := 0 to |unmatched|
        invariant records == FailAttempt(old(records), unmatched[..i])
        modifies `records
      {
        var id := unmatched[i].id;
        assert unmatched[..i + 1][..i] == unmatched[..i];
        records := records[id := records[id].(attempts := records[id].attempts + 1)];
      }
      assert unmatched[..|unmatched|] == unmatched;
    }

    /** The first half of a pop; the second half follows if the matchmaker gets the list. */
    method BeginPop(q: QueueName) returns (searching: bool)
      requires Valid() && q in sizes && q !in snapshots
      requires forall id | id in QueueOf(Now(), q) :: id in records && !records[id].status.Matched?
      modifies `records, `snapshots
      ensures Now() == Pop(old(Now()), q, sizes[q]) && Valid()
      ensures searching <==> q in snapshots
      ensures searching <==> PlayersWaiting(old(records), QueueOf(old(Now()), q)) >= 2 * sizes[q]
      ensures Pops(old(Now()), Now(), q, sizes[q])
    {
      PopKeeps(Now(), sizes, q);
      assert Distinct(QueueOf(Now(), q));
      PopEffect(Now(), q, sizes[q]);
      hide Inv, Distinct, FailAttempt, Listing, PlayersWaiting, Players, Asks, Fails;
      var list := Listing(records, QueueOf(Now(), q));
      if Players(list) < 2 * sizes[q] {
        ListingKnown(records, QueueOf(Now(), q));
        RegisterUnmatched(list);
        return false;
      }
      snapshots := snapshots[q := list];
      return true;
    }

    /** Resolves the futures of one side; a future that is done cannot be resolved. */
    method SetResults(team: seq<Search>, opponents: seq<Search>)
      requires Distinct(team) && Described(records, team) && forall x | x in team :: records[x.id].status.Pending?
      modifies `records
      ensures records == ResolveSide(old(records), team, opponents)
    {
      assert ResolveSide(records, [], opponents) == records;
      for i := 0 to |team|
        invariant records == ResolveSide(old(records), team[..i], opponents)
        modifies `records
      {
        var id := team[i].id;
        DistinctPrefix(team, i);
        assert records[id].status.Pending?;
        records := records[id := records[id].(status := Matched(opponents))];
        assert team[..i + 1] == team[..i] + [team[i]];
      }
      assert team[..|team|] == team;
    }

    /** Resolves the two sides of a match with each other. */
    method SetBothResults(m: Match)
      requires Distinct(SearchesOf(m)) && Described(records, SearchesOf(m))
      requires forall x | x in SearchesOf(m) :: records[x.id].status.Pending?
      modifies `records
      ensures records == Resolve(old(records), m)
    {
      BothSides(records, m);
      hide Distinct, Described, Resolve, Ids;
      SetResults(m.a, m.b);
      SetResults(m.b, m.a);
    }

    /** Resolves two sides with each other; single players leave their queue at once. */
    method ResolveMatch(q: QueueName, m: Match)
      requires q in sizes && Distinct(SearchesOf(m)) && Described(records, SearchesOf(m))
      requires forall x | x in SearchesOf(m) :: records[x.id].status.Pending?
      modifies `records, `queues
      ensures Now() == Mark(old(Now()), q, sizes[q], m) && Marks(old(Now()), Now(), q, sizes[q], m)
    {
      MarkEffect(Now(), q, sizes[q], m);
      hide Distinct, Described, SearchesOf, Resolve, LeaveQueue, Marks;
      SetBothResults(m);
      if sizes[q] == 1 && q in queues {
        queues := queues[q := LeaveQueue(queues[q], m)];
      }
    }

    /** Resolves two sides with each other, unless one of them is no longer available. */
    method TryMatch(q: QueueName, m: Match, ghost undelivered: set<SearchId>) returns (ok: bool)
      requires Inv(Now(), sizes, undelivered) && q in sizes && q !in snapshots
      requires m.a != [] && m.b != [] && Distinct(SearchesOf(m))
      requires forall x | x in SearchesOf(m) :: Snapped(Now(), q, x)
      modifies `records, `queues
      ensures ok <==> Alive(old(records), m)
      ensures Now() == if ok then Mark(old(Now()), q, sizes[q], m) else old(Now())
      ensures ok ==> Marks(old(Now()), Now(), q, sizes[q], m)
    {
      SidesFit(Now(), q, m);
      hide Inv, Distinct, Snapped, IsMatched, IsCancelled, Members, SearchesOf, Described, AllSearching, Mark, Marks;
      if IsMatched(records, m.a) || IsMatched(records, m.b) || IsCancelled(records, m.a) || IsCancelled(records, m.b) {
        return false;
      }
      SidesReady(Now(), sizes, undelivered, q, m);
      if !AllSearching(playerStates, Members(records, m.a) + Members(records, m.b)) {
        return false;
      }
      ResolveMatch(q, m);
      return true;
    }

    /** Goes through the proposed matches: those that succeed, and the searches of those that do not. */
    method MarkMatches(q: QueueName, proposed: seq<Match>, unmatched: seq<Search>)
      returns (matches: seq<Match>, failed: seq<Search>)
      requires Valid() && q in sizes && q in snapshots && IsPairing(snapshots[q], sizes[q], proposed, unmatched)
      modifies `records, `queues, `snapshots
      ensures matches == Accepted(old(records), proposed) && failed == unmatched + Rejected(old(records), proposed)
      ensures Now() == MarkEach(old(Now()).(snapshots := old(snapshots) - {q}), q, sizes[q], matches)
    {
      ghost var s := Now();
      hide Inv, Alive, MarkEach, Mark, Distinct, Snapped, Flatten, SearchesOf, Ids, Accepted, Rejected;
      snapshots := snapshots - {q};
      matches, failed := [], unmatched;
      NothingMarked(Now(), q, sizes[q]);
      NothingProposed(s.records, proposed, unmatched);
      for i := 0 to |proposed|
        invariant matches == Accepted(s.records, proposed[..i])
        invariant failed == unmatched + Rejected(s.records, proposed[..i])
        invariant Now() == MarkEach(s.(snapshots := s.snapshots - {q}), q, sizes[q], matches)
        modifies `records, `queues
      {
        var m := proposed[i];
        NextProposed(s, sizes, q, sizes[q], proposed, unmatched, i);
        SameAlive(s.records, records, m);
        NextAnswer(s.records, proposed, unmatched, i);
        var ok := TryMatch(q, m, Ids(Flatten(matches)));
        if ok {
          MarkNext(s.(snapshots := s.snapshots - {q}), q, sizes[q], matches, m);
          matches := matches + [m];
        } else {
          failed := failed + SearchesOf(m);
        }
      }
      assert proposed[..|proposed|] == proposed;
    }

    /** The second half of a pop, with the answer of the matchmaker, after anything may have happened in between. */
    method FinishPop(q: QueueName, proposed: seq<Match>, unmatched: seq<Search>)
      requires Valid() && q in sizes && q in snapshots && IsPairing(snapshots[q], sizes[q], proposed, unmatched)
      modifies `searches, `records, `playerStates, `queues, `snapshots, `history
      ensures Now() == Commit(old(Now()), q, sizes[q], proposed, unmatched) && Valid()
      ensures Commits(old(Now()), Now(), q, sizes[q], Accepted(old(records), proposed))
    {
      ghost var s := Now();
      hide Inv, Accepted, Rejected, Alive, MarkEach, Mark, DeliverEach, Deliver, MatchedIn, Distinct, Described,
           Flatten, Commits;
      CommitEffect(s, sizes, q, sizes[q], proposed, unmatched);
      MarkedKeeps(s, sizes, q, sizes[q], proposed, unmatched);
      CommitOutcome(s, sizes, q, sizes[q], proposed, unmatched);
      var matches, failed := MarkMatches(q, proposed, unmatched);
      FailedKnown(s, sizes, q, proposed, unmatched);
      RegisterUnmatched(failed);
      ghost var marked := Now();
      ghost var all := Ids(Flatten(matches));
      DeliverEachNothing(marked, matches);
      for i := 0 to |matches|
        invariant Now() == DeliverEach(marked, matches[..i])
        modifies `searches, `records, `playerStates, `history
      {
        NextDelivery(marked, sizes, q, matches, i);
        DeliverEachNext(marked, matches, i);
        OnMatchFound(matches[i], q, all - Ids(Flatten(matches[..i])));
      }
      assert matches[..|matches|] == matches;
    }
  }

  predicate AllSearching(states: map<Player, PlayerState>, players: seq<Player>) {
    forall p | p in players :: p in states && states[p] == SearchingLadder
  }

  predicate IsMatched(records: map<SearchId, Record>, team: seq<Search>) {
    forall x | x in team :: x.id in records && records[x.id].status.Matched?
  }

  function ResolveSide(records: map<SearchId, Record>, team: seq<Search>, opponents: seq<Search>):
    map<SearchId, Record>
  {
    map id | id in records :: if id in Ids(team) then records[id].(status := Matched(opponents)) else records[id]
  }

  lemma {:induction false} BothSides(records: map<SearchId, Record>, m: Match)
    requires Described(records, SearchesOf(m)) && Distinct(SearchesOf(m))
    requires forall x | x in SearchesOf(m) :: records[x.id].status.Pending?
    ensures Described(records, m.a) && Distinct(m.a) && forall x | x in m.a :: records[x.id].status.Pending?
    ensures var r := ResolveSide(records, m.a, m.b);
      Described(r, m.b) && Distinct(m.b) && forall x | x in m.b :: r[x.id].status.Pending?
    ensures ResolveSide(ResolveSide(records, m.a, m.b), m.b, m.a) == Resolve(records, m)
  {
    DistinctParts(m.a, m.b);
    SplitDescribed(records, m.a, m.b);
    hide Ids;
    assert Ids(m.a) * Ids(m.b) == {};
  }

  lemma {:induction false} ListingKnown(records: map<SearchId, Record>, ids: seq<SearchId>)
    ensures forall x | x in Listing(records, ids) :: x.id in records
    decreases |ids|
  {
    if ids != [] { ListingKnown(records, ids[..|ids| - 1]); }
  }

  lemma {:induction false} FailedKnown(s: State, sizes: Sizes, q: QueueName, proposed: seq<Match>,
      unmatched: seq<Search>)
    requires Inv(s, sizes, {}) && Proposal(s, q, proposed, unmatched) && q in sizes
    ensures forall x | x in unmatched + Rejected(s.records, proposed) ::
      x.id in MarkEach(s.(snapshots := s.snapshots - {q}), q, sizes[q], Accepted(s.records, proposed)).records
  {
    FailedDescribed(s, q, proposed, unmatched);
    MarkEachPlayers(s.(snapshots := s.snapshots - {q}), q, sizes[q], Accepted(s.records, proposed));
  }

  lemma {:induction false} DeliverEachNothing(s: State, matches: seq<Match>)
    ensures DeliverEach(s, matches[..0]) == s
  {}

  lemma {:induction false} DeliverEachNext(s: State, matches: seq<Match>, i: nat)
    requires i < |matches|
    ensures DeliverEach(s, matches[..i + 1]) == Deliver(DeliverEach(s, matches[..i]), matches[i])
  {
    assert matches[..i + 1][..i] == matches[..i];
  }

  lemma {:induction false} NothingProposed(records: map<SearchId, Record>, proposed: seq<Match>, unmatched: seq<Search>)
    ensures Accepted(records, proposed[..0]) == [] && unmatched + Rejected(records, proposed[..0]) == unmatched
  {}

  lemma {:induction false} NextAnswer(records: map<SearchId, Record>, proposed: seq<Match>, unmatched: seq<Search>,
      i: nat)
    requires i < |proposed|
    ensures var m, n := proposed[i], i + 1;
      && Accepted(records, proposed[..n]) == Accepted(records, proposed[..i]) + (if Alive(records, m) then [m] else [])
      && unmatched + Rejected(records, proposed[..n])
           == unmatched + Rejected(records, proposed[..i]) + (if Alive(records, m) then [] else SearchesOf(m))
  {
    assert proposed[..i + 1][..i] == proposed[..i];
  }

  lemma {:induction false} NothingMarked(s: State, q: QueueName, teamSize: nat)
    ensures MarkEach(s, q, teamSize, []) == s
  {}

  lemma {:induction false} MarkNext(s: State, q: QueueName, teamSize: nat, matches: seq<Match>, m: Match)
    ensures MarkEach(s, q, teamSize, matches + [m]) == Mark(MarkEach(s, q, teamSize, matches), q, teamSize, m)
  {
    assert (matches + [m])[..|matches|] == matches;
  }

  lemma {:induction false} SameAlive(a: map<SearchId, Record>, b: map<SearchId, Record>, m: Match)
    requires forall x | x in SearchesOf(m) :: x.id in a && x.id in b && a[x.id] == b[x.id]
    ensures Alive(a, m) <==> Alive(b, m)
  {
    assert forall x | x in m.a || x in m.b :: x in SearchesOf(m);
  }

  lemma {:induction false} SidesFit(s: State, q: QueueName, m: Match)
    requires m.a != [] && m.b != [] && forall x | x in SearchesOf(m) :: Snapped(s, q, x)
    ensures !IsMatched(s.records, m.a) && !IsMatched(s.records, m.b)
  {
    assert m.a[0] in SearchesOf(m) && m.b[0] in SearchesOf(m);
    assert Snapped(s, q, m.a[0]) && Snapped(s, q, m.b[0]);
  }

  /** Two sides none of which is cancelled can be resolved, and all of their players are searching. */
  lemma {:induction false} SidesReady(s: State, sizes: Sizes, undelivered: set<SearchId>, q: QueueName, m: Match)
    requires Inv(s, sizes, undelivered) && Alive(s.records, m)
    requires forall x | x in SearchesOf(m) :: Snapped(s, q, x)
    ensures Described(s.records, SearchesOf(m))
    ensures forall x | x in SearchesOf(m) :: x.id in s.records && s.records[x.id].status.Pending?
    ensures AllSearching(s.states, Members(s.records, m.a) + Members(s.records, m.b))
  {
    forall x | x in SearchesOf(m) ensures Ready(s, q, x) { assert Snapped(s, q, x); }
    hide Registered, Queued, SnapshotsFit, HistoryFits;
    assert AllReady(s, q, m.a) && AllReady(s, q, m.b);
    FailsafeHolds(s, sizes, undelivered, q, m.a);
    FailsafeHolds(s, sizes, undelivered, q, m.b);
  }

  /** The other queues a player searches in. */
  function OtherQueues(registry: map<Key, SearchId>, p: Player, q: QueueName): set<QueueName> {
    set k | k in registry && k.0 == p && k.1 != q :: k.1
  }

  /** The searches after the turns of the players `done`. */
  ghost predicate SearchesDelivered(s: State, t: State, own: set<SearchId>, players: seq<Player>, done: seq<Player>) {
    var touched := Touched(s.registry, done);
    t == s.(registry := Drop(s.registry, touched), records := CancelRecords(s.records, touched - own),
            states := t.states, history := s.history + [Delivered(players)])
  }

  /** The player states after the turns of `done`; those of matched players whose turn has not come do not matter. */
  ghost predicate StatesDelivered(s: State, t: State, players: seq<Player>, done: seq<Player>) {
    && t.states.Keys == s.states.Keys && (forall p | p in players :: p in s.states)
    && forall p | p in t.states ::
         if p in done then t.states[p] == StartingAutomatch
         else p !in players ==> t.states[p] == Settle(s.states, t.registry)[p]
  }

  ghost predicate Delivering(s: State, t: State, own: set<SearchId>, players: seq<Player>, done: seq<Player>) {
    SearchesDelivered(s, t, own, players, done) && StatesDelivered(s, t, players, done)
  }

  lemma {:induction false} StartDelivering(s: State, sizes: Sizes, undelivered: set<SearchId>, q: QueueName, m: Match)
    requires Inv(s, sizes, undelivered) && MatchedIn(s, q, undelivered) && Ids(SearchesOf(m)) <= undelivered
    ensures var own, players := Ids(SearchesOf(m)), Members(s.records, SearchesOf(m));
      var t := s.(history := s.history + [Delivered(players)]);
      && Registered(s, undelivered) && TouchesOwn(s, q, own, players)
      && Delivering(s, t, own, players, players[..0])
      && CanCancel(t, sizes, undelivered - Touched(s.registry, players[..0]))
  {
    var players := Members(s.records, SearchesOf(m));
    DeliveryTouches(s, sizes, undelivered, q, m);
    MembersKnown(s, undelivered, m);
    NobodyDelivered(s, Ids(SearchesOf(m)), players);
    hide Members, SearchesOf, TouchesOwn, MatchedIn, Queued, SnapshotsFit, HistoryFits, Delivering, Ids, Registered;
    assert undelivered - {} == undelivered;
    SameRegistered(s, s.(history := s.history + [Delivered(players)]), undelivered);
  }

  lemma {:induction false} NobodyDelivered(s: State, own: set<SearchId>, players: seq<Player>)
    requires StatesAgree(s) && forall p | p in players :: p in s.states
    ensures Touched(s.registry, players[..0]) == {}
    ensures Delivering(s, s.(history := s.history + [Delivered(players)]), own, players, players[..0])
  {
    CancelLosingNothing(s);
    assert CancelRecords(s.records, {}) == s.records;
  }

  lemma {:induction false} AllDelivered(s: State, t: State, m: Match)
    requires var players := Members(s.records, SearchesOf(m)); Delivering(s, t, Ids(SearchesOf(m)), players, players)
    ensures t == Deliver(s, m)
  {
    var players := Members(s.records, SearchesOf(m));
    hide Members, SearchesOf, Ids, HasSearch, Drop;
    assert t.states == SetStates(Settle(s.states, t.registry), players, StartingAutomatch);
  }

  lemma {:induction false} MembersKnown(s: State, undelivered: set<SearchId>, m: Match)
    requires Registered(s, undelivered) && StatesAgree(s) && Ids(SearchesOf(m)) <= undelivered
    ensures forall p | p in Members(s.records, SearchesOf(m)) :: p in s.states
  {
    forall p | p in Members(s.records, SearchesOf(m)) ensures p in s.states {
      MembersIn(s.records, SearchesOf(m), p);
      var x :| x in SearchesOf(m) && x.id in s.records && p in s.records[x.id].players;
      assert Live(s, x.id, undelivered) && (p, s.records[x.id].queue) in s.registry;
    }
  }

  // ----- One player's turn

  /** The player's other searches are cancelled, then the matched one leaves the registry. */
  function AfterTurn(t: State, p: Player, q: QueueName): State {
    var starting := t.(states := t.states[p := StartingAutomatch]);
    var u := CancelLosing(starting, TouchedNames(t.registry, p, OtherQueues(t.registry, p, q)));
    if (p, q) in u.registry then u.(registry := Drop(u.registry, {u.registry[(p, q)]})) else u
  }

  /** Of what the player takes part in, the searches of other queues are not part of the match, the one of `q` is. */
  lemma {:induction false} TurnSearches(s: State, registry: map<Key, SearchId>, undelivered: set<SearchId>,
      q: QueueName, own: set<SearchId>, players: seq<Player>, p: Player)
    requires Registered(s, undelivered) && TouchesOwn(s, q, own, players) && MatchedIn(s, q, undelivered)
    requires own <= undelivered && p in players
    requires forall k | k in registry :: k in s.registry && s.registry[k] == registry[k]
    ensures TouchedNames(registry, p, OtherQueues(registry, p, q)) == Touched(registry, [p]) - own
    ensures Touched(registry, [p]) * own == if (p, q) in registry then {registry[(p, q)]} else {}
    ensures forall id | id in TouchedNames(registry, p, OtherQueues(registry, p, q)) :: id !in undelivered
  {
    forall k | k in registry && k.0 == p ensures registry[k] in own <==> k.1 == q {
      assert registry[k] in Touched(s.registry, players);
    }
    forall k: Key ensures k.0 == p && k.1 == q <==> k == (p, q) {}
  }

  lemma {:induction false} TurnRegistry(registry: map<Key, SearchId>, done: seq<Player>, p: Player, own: set<SearchId>)
    ensures var rest := Drop(registry, Touched(registry, done));
      var touched := Touched(rest, [p]);
      && Drop(Drop(rest, touched - own), touched * own) == Drop(registry, Touched(registry, done + [p]))
      && (Touched(registry, done) - own) + (touched - own) == Touched(registry, done + [p]) - own
  {
    var rest := Drop(registry, Touched(registry, done));
    var touched := Touched(rest, [p]);
    DropTouched(registry, done, [p]);
    DropTwice(rest, touched - own, touched * own);
    assert (touched - own) + touched * own == touched;
    assert Touched(registry, done + [p]) == Touched(registry, done) + Touched(registry, [p]);
    assert Touched(registry, done) + touched == Touched(registry, done) + Touched(registry, [p]);
  }

  /** A player outside the match settles as if all of this happened at once. */
  lemma {:induction false} TurnSettles(state: PlayerState, original: PlayerState, before: map<Key, SearchId>,
      others: set<SearchId>, own: set<SearchId>, r: Player)
    requires state == if original.SearchingLadder? && !HasSearch(before, r) then Idle else original
    requires forall k | k in before && before[k] in own :: k.0 != r
    ensures var middle, after := Drop(before, others), Drop(Drop(before, others), own);
      (if state.SearchingLadder? && HasSearch(before, r) && !HasSearch(middle, r) then Idle else state)
      == if original.SearchingLadder? && !HasSearch(after, r) then Idle else original
  {
    var middle, after := Drop(before, others), Drop(Drop(before, others), own);
    HasSearchDrop(before, others, r);
    HasSearchDrop(middle, own, r);
    if HasSearch(middle, r) {
      var k :| k in middle && k.0 == r;
      assert k in after;
    }
  }
  lemma {:induction false} TurnDelivers(s: State, t: State, undelivered: set<SearchId>, q: QueueName,
      own: set<SearchId>, players: seq<Player>, i: nat)
    requires i < |players| && Delivering(s, t, own, players, players[..i]) && TouchesOwn(s, q, own, players)
    requires Registered(s, undelivered) && own <= undelivered && MatchedIn(s, q, undelivered)
    ensures Delivering(s, AfterTurn(t, players[i], q), own, players, players[..i + 1])
  {
    var p, done := players[i], players[..i];
    assert players[..i + 1] == done + [p];
    assert t.registry == Drop(s.registry, Touched(s.registry, done));
    assert forall k | k in t.registry :: k in s.registry && s.registry[k] == t.registry[k];
    TurnSearches(s, t.registry, undelivered, q, own, players, p);
    assert forall k | k in t.registry && t.registry[k] in own :: k.0 in players;
    hide Registered, MatchedIn, TouchesOwn, SearchesDelivered, StatesDelivered, AfterTurn, TouchedNames, Touched, Drop;
    TurnEffect(s, t, q, own, players, done, p);
    TurnStates(s, t, q, own, players, done, p);
  }

  lemma {:induction false} TurnEffect(s: State, t: State, q: QueueName, own: set<SearchId>, players: seq<Player>,
      done: seq<Player>, p: Player)
    requires SearchesDelivered(s, t, own, players, done)
    requires TouchedNames(t.registry, p, OtherQueues(t.registry, p, q)) == Touched(t.registry, [p]) - own
    requires Touched(t.registry, [p]) * own == if (p, q) in t.registry then {t.registry[(p, q)]} else {}
    ensures SearchesDelivered(s, AfterTurn(t, p, q), own, players, done + [p])
  {
    var others := TouchedNames(t.registry, p, OtherQueues(t.registry, p, q));
    TurnRegistry(s.registry, done, p, own);
    CancelRecordsTwice(s.records, Touched(s.registry, done) - own, others);
    TurnClears(t, p, q, own);
    hide Touched, TouchedNames, Drop, OtherQueues, CancelRecords, SettleLosing;
  }

  lemma {:induction false} TurnStates(s: State, t: State, q: QueueName, own: set<SearchId>, players: seq<Player>,
      done: seq<Player>, p: Player)
    requires StatesDelivered(s, t, players, done) && p in players && forall r | r in done :: r in players
    requires forall k | k in t.registry && t.registry[k] in own :: k.0 in players
    requires TouchedNames(t.registry, p, OtherQueues(t.registry, p, q)) == Touched(t.registry, [p]) - own
    requires Touched(t.registry, [p]) * own == if (p, q) in t.registry then {t.registry[(p, q)]} else {}
    ensures StatesDelivered(s, AfterTurn(t, p, q), players, done + [p])
  {
    var others, mine := TouchedNames(t.registry, p, OtherQueues(t.registry, p, q)), Touched(t.registry, [p]) * own;
    var u := AfterTurn(t, p, q);
    TurnClears(t, p, q, own);
    hide Touched, TouchedNames, TouchedIn, Drop, HasSearch, CancelRecords, OtherQueues;
    forall r | r in u.states && r !in players ensures u.states[r] == Settle(s.states, u.registry)[r] {
      TurnSettles(t.states[r], s.states[r], t.registry, others, mine, r);
    }
  }

  lemma {:induction false} TurnClears(t: State, p: Player, q: QueueName, own: set<SearchId>)
    requires TouchedNames(t.registry, p, OtherQueues(t.registry, p, q)) == Touched(t.registry, [p]) - own
    requires Touched(t.registry, [p]) * own == if (p, q) in t.registry then {t.registry[(p, q)]} else {}
    ensures AfterTurn(t, p, q).registry
      == Drop(Drop(t.registry, TouchedNames(t.registry, p, OtherQueues(t.registry, p, q))),
        Touched(t.registry, [p]) * own)
  {
    var middle := Drop(t.registry, TouchedNames(t.registry, p, OtherQueues(t.registry, p, q)));
    if (p, q) in t.registry {
      assert t.registry[(p, q)] in Touched(t.registry, [p]) * own;
    } else {
      assert Drop(middle, {}) == middle;
    }
  }

  /** The search that leaves the registry without being cancelled is no longer undelivered. */
  lemma {:induction false} ClearedCanCancel(s: State, sizes: Sizes, undelivered: set<SearchId>, cleared: set<SearchId>)
    requires CanCancel(s, sizes, undelivered)
    requires forall id | id in cleared && id in s.records :: !s.records[id].status.Pending?
    ensures CanCancel(s.(registry := Drop(s.registry, cleared)), sizes, undelivered - cleared)
  {
    var t := s.(registry := Drop(s.registry, cleared));
    forall id, p | Live(t, id, undelivered - cleared) && p in t.records[id].players
      ensures var k := (p, t.records[id].queue); k in t.registry && t.registry[k] == id
    {
      assert Live(s, id, undelivered) && p in s.records[id].players;
    }
  }

  /** The effect of one player's turn. */
  lemma {:induction false} DeliverOne(s: State, t: State, sizes: Sizes, undelivered: set<SearchId>, q: QueueName,
      own: set<SearchId>, players: seq<Player>, i: nat)
    requires i < |players| && Delivering(s, t, own, players, players[..i]) && TouchesOwn(s, q, own, players)
    requires Registered(s, undelivered) && own <= undelivered && MatchedIn(s, q, undelivered)
    requires CanCancel(t, sizes, undelivered - Touched(s.registry, players[..i]))
    ensures var p := players[i];
      && (forall id | id in TouchedNames(t.registry, p, OtherQueues(t.registry, p, q)) :: id !in undelivered)
      && CanCancel(t.(states := t.states[p := StartingAutomatch]), sizes,
        undelivered - Touched(s.registry, players[..i]))
      && Delivering(s, AfterTurn(t, p, q), own, players, players[..i + 1])
      && CanCancel(AfterTurn(t, p, q), sizes, undelivered - Touched(s.registry, players[..i + 1]))
  {
    hide AfterTurn, CanCancel, OtherQueues, TouchedNames, Touched, Registered, TouchesOwn, Delivering, MatchedIn;
    var p := players[i];
    DuringDelivery(s, t, q, undelivered, own, players, players[..i]);
    TurnSearches(s, t.registry, undelivered, q, own, players, p);
    TurnDelivers(s, t, undelivered, q, own, players, i);
    TurnCanCancel(s, t, sizes, undelivered, q, own, players[..i], p);
    assert players[..i + 1] == players[..i] + [p];
  }

  /** While a match is being delivered the registry only shrinks, and its own searches stay matched. */
  lemma {:induction false} DuringDelivery(s: State, t: State, q: QueueName, undelivered: set<SearchId>,
      own: set<SearchId>, players: seq<Player>, done: seq<Player>)
    requires Delivering(s, t, own, players, done) && MatchedIn(s, q, undelivered) && own <= undelivered
    ensures t.registry == Drop(s.registry, Touched(s.registry, done))
    ensures forall k | k in t.registry :: k in s.registry && s.registry[k] == t.registry[k]
    ensures forall id | id in own && id in t.records :: !t.records[id].status.Pending?
  {
    hide StatesDelivered, Touched;
  }

  lemma {:induction false} TurnCanCancel(s: State, t: State, sizes: Sizes, undelivered: set<SearchId>, q: QueueName,
      own: set<SearchId>, done: seq<Player>, p: Player)
    requires CanCancel(t, sizes, undelivered - Touched(s.registry, done))
    requires t.registry == Drop(s.registry, Touched(s.registry, done))
    requires TouchedNames(t.registry, p, OtherQueues(t.registry, p, q)) == Touched(t.registry, [p]) - own
    requires Touched(t.registry, [p]) * own == if (p, q) in t.registry then {t.registry[(p, q)]} else {}
    requires forall id | id in TouchedNames(t.registry, p, OtherQueues(t.registry, p, q)) :: id !in undelivered
    requires forall id | id in own && id in t.records :: !t.records[id].status.Pending?
    ensures CanCancel(t.(states := t.states[p := StartingAutomatch]), sizes, undelivered - Touched(s.registry, done))
    ensures CanCancel(AfterTurn(t, p, q), sizes, undelivered - Touched(s.registry, done + [p]))
  {
    var left := undelivered - Touched(s.registry, done);
    var others, mine := TouchedNames(t.registry, p, OtherQueues(t.registry, p, q)), Touched(t.registry, [p]) * own;
    var starting := t.(states := t.states[p := StartingAutomatch]);
    assert CanCancel(starting, sizes, left) by { SameRegistered(t, starting, left); }
    hide CanCancel;
    CanCancelKept(starting, sizes, left, others);
    var u := CancelLosing(starting, others);
    ClearedCanCancel(u, sizes, left, mine);
    TurnClears(t, p, q, own);
    assert forall k | k in t.registry && k.0 == p && t.registry[k] in undelivered ::
      t.registry[k] in Touched(t.registry, [p]);
    TurnLeft(s.registry, undelivered, done, p, own);
    assert u.registry == Drop(t.registry, others);
    hide CancelLosing, Touched, TouchedNames;
    assert AfterTurn(t, p, q) == u.(registry := Drop(u.registry, mine));
  }

  lemma {:induction false} TurnLeft(registry: map<Key, SearchId>, undelivered: set<SearchId>, done: seq<Player>,
      p: Player, own: set<SearchId>)
    requires var rest := Drop(registry, Touched(registry, done));
      forall k | k in rest && k.0 == p && rest[k] in undelivered :: rest[k] in own
    ensures var touched := Touched(Drop(registry, Touched(registry, done)), [p]);
      undelivered - Touched(registry, done) - touched * own == undelivered - Touched(registry, done + [p])
  {
    var before := Touched(registry, done);
    var touched := Touched(Drop(registry, before), [p]);
    assert Touched(registry, done + [p]) == before + Touched(registry, [p]);
    assert before + touched == before + Touched(registry, [p]);
    assert forall id | id in touched && id in undelivered :: id in own;
  }

  datatype StartResult = Disabled | TimedOut | Searching

  function TouchedBy(registry: map<Key, SearchId>, players: set<Player>): set<SearchId> {
    set k | k in registry && k.0 in players :: registry[k]
  }

  lemma {:induction false} CancelNobody(s: State, sizes: Sizes)
    requires Inv(s, sizes, {})
    ensures Cancel(s, {}) == s
    ensures TouchedBy(s.registry, {}) == {} && forall q :: TouchedIn(s.registry, [], q) == {}
  {
    CancelLosingNothing(s);
    CancelLosingAgrees(s, {});
  }

  lemma {:induction false} NextPlayer(s: State, done: set<Player>, p: Player)
    ensures var t := Cancel(s, TouchedBy(s.registry, done));
      Cancel(t, Touched(t.registry, [p])) == Cancel(s, TouchedBy(s.registry, done + {p}))
  {
    var before := TouchedBy(s.registry, done);
    var t := Cancel(s, before);
    CancelTwice(s, before, Touched(t.registry, [p]));
    assert t.registry == Drop(s.registry, before);
    hide Cancel;
    assert before + Touched(t.registry, [p]) == before + Touched(s.registry, [p]);
    assert TouchedBy(s.registry, done + {p}) == before + Touched(s.registry, [p]);
  }

  /** Nobody else is registered. */
  ghost predicate OnlyThese(registry: map<Key, SearchId>, players: set<Player>) {
    forall k | k in registry :: k.0 in players
  }

  lemma {:induction false} EverybodyIn(registry: map<Key, SearchId>)
    ensures OnlyThese(registry, set k | k in registry :: k.0)
  {}

  lemma {:induction false} AllPlayers(s: State, done: set<Player>)
    requires OnlyThese(s.registry, done)
    ensures TouchedBy(s.registry, done) == s.registry.Values
    ensures Cancel(s, s.registry.Values).registry == map[]
    ensures Cancels(s, Cancel(s, s.registry.Values), s.registry.Values)
  {
    CancelEffect(s, s.registry.Values);
    assert forall k | k in s.registry :: s.registry[k] in s.registry.Values;
  }

  lemma {:induction false} NextToJoin(s: State, players: seq<Player>, i: nat, q: QueueName)
    requires i < |players|
    ensures var t := Cancel(s, TouchedIn(s.registry, players[..i], q));
      Cancel(t, TouchedIn(t.registry, [players[i]], q)) == Cancel(s, TouchedIn(s.registry, players[..i + 1], q))
  {
    var before := TouchedIn(s.registry, players[..i], q);
    var t := Cancel(s, before);
    var own := TouchedIn(t.registry, [players[i]], q);
    CancelTwice(s, before, own);
    assert t.registry == Drop(s.registry, before);
    hide Cancel;
    assert players[..i + 1] == players[..i] + [players[i]];
    assert before + own == before + TouchedIn(s.registry, [players[i]], q);
    assert TouchedIn(s.registry, players[..i + 1], q) == before + TouchedIn(s.registry, [players[i]], q);
  }

  lemma {:induction false} JoinNobody(s: State, q: QueueName, id: SearchId)
    ensures SetStates(s.states, [], SearchingLadder) == s.states && Register(s.registry, [], q, id) == s.registry
  {}

  lemma {:induction false} JoinOne(states: map<Player, PlayerState>, players: seq<Player>, i: nat)
    requires i < |players|
    ensures SetStates(states, players[..i], SearchingLadder)[players[i] := SearchingLadder]
      == SetStates(states, players[..i + 1], SearchingLadder)
  {
    assert players[..i + 1] == players[..i] + [players[i]];
  }

  lemma {:induction false} RegisterOne(registry: map<Key, SearchId>, players: seq<Player>, i: nat, q: QueueName,
      id: SearchId)
    requires i < |players|
    ensures Register(registry, players[..i], q, id)[(players[i], q) := id]
      == Register(registry, players[..i + 1], q, id)
  {
    assert players[..i + 1] == players[..i] + [players[i]];
    assert KeysIn(players[..i + 1], q) == KeysIn(players[..i], q) + {(players[i], q)};
  }

  ghost predicate CanCancel(s: State, sizes: Sizes, undelivered: set<SearchId>) {
    Registered(s, undelivered) && RecordsFit(s, sizes) && forall k | k in s.registry :: k.0 in s.states
  }

  lemma {:induction false} CanCancelKept(s: State, sizes: Sizes, undelivered: set<SearchId>, searches: set<SearchId>)
    requires CanCancel(s, sizes, undelivered)
    ensures (forall id | id in searches :: id !in undelivered) ==>
      CanCancel(CancelLosing(s, searches), sizes, undelivered)
  {}

  lemma {:induction false} FewerKeys(s: State, searches: set<SearchId>)
    ensures var t := CancelLosing(s, searches);
      forall k | k in t.registry :: k in s.registry && s.registry[k] == t.registry[k]
  {}

  lemma {:induction false} ValidCanCancel(s: State, sizes: Sizes)
    requires Inv(s, sizes, {})
    ensures CanCancel(s, sizes, {}) && StatesAgree(s)
  {}

  /** All queues a player searches in, or just one. */
  lemma {:induction false} AllNames(registry: map<Key, SearchId>, p: Player, names: set<QueueName>)
    ensures names == (set k | k in registry && k.0 == p :: k.1) ==>
      TouchedNames(registry, p, names) == Touched(registry, [p])
    ensures forall q | names == {q} :: TouchedNames(registry, p, names) == TouchedIn(registry, [p], q)
  {}

  function TouchedNames(registry: map<Key, SearchId>, p: Player, names: set<QueueName>): set<SearchId> {
    set k | k in registry && k.0 == p && k.1 in names :: registry[k]
  }

  lemma {:induction false} NextName(s: State, p: Player, done: set<QueueName>, name: QueueName)
    ensures var t := CancelLosing(s, TouchedNames(s.registry, p, done));
      CancelLosing(t, TouchedIn(t.registry, [p], name)) == CancelLosing(s, TouchedNames(s.registry, p, done + {name}))
  {
    var before := TouchedNames(s.registry, p, done);
    var t := CancelLosing(s, before);
    CancelLosingTwice(s, before, TouchedIn(t.registry, [p], name));
    TouchedOne(s.registry, p, name);
    TouchedOne(t.registry, p, name);
    assert t.registry == Drop(s.registry, before);
    hide CancelLosing;
    forall k: Key ensures k.0 == p && k.1 == name <==> k == (p, name) {}
    assert TouchedNames(s.registry, p, done + {name}) == before + TouchedIn(s.registry, [p], name);
    assert before + TouchedIn(t.registry, [p], name) == before + TouchedIn(s.registry, [p], name);
  }

  function SettleSome(states: map<Player, PlayerState>, after: map<Key, SearchId>, players: seq<Player>):
    map<Player, PlayerState>
  {
    map p | p in states ::
      if p in players && states[p].SearchingLadder? && !HasSearch(after, p) then Idle else states[p]
  }

  /** Cancelling one search, player by player. */
  lemma {:induction false} CancelOne(s: State, sizes: Sizes, undelivered: set<SearchId>, p: Player, q: QueueName)
    requires CanCancel(s, sizes, undelivered) && (p, q) in s.registry
    ensures var id := s.registry[(p, q)];
      && id in s.records && (forall r | r in s.records[id].players :: r in s.states)
      && s.(registry := Drop(s.registry, {id}),
            records := s.records[id := s.records[id].(status := Cancelled)],
            states := SettleSome(s.states, Drop(s.registry, {id}), s.records[id].players)) == CancelLosing(s, {id})
  {
    var id := s.registry[(p, q)];
    forall r | r in s.records[id].players ensures r in s.states {
      assert (r, s.records[id].queue) in s.registry;
    }
    hide SettleSome, SettleLosing, Drop;
    assert s.records[id := s.records[id].(status := Cancelled)] == CancelRecords(s.records, {id});
  }

  lemma {:induction false} TouchedOne(registry: map<Key, SearchId>, p: Player, q: QueueName)
    ensures TouchedIn(registry, [p], q) == if (p, q) in registry then {registry[(p, q)]} else {}
  {
    assert forall k: Key :: k.0 == p && k.1 == q <==> k == (p, q);
  }

  /** Without the entries these players have in one queue. */
  function DropFor(registry: map<Key, SearchId>, q: QueueName, players: seq<Player>): map<Key, SearchId> {
    map k | k in registry && !(k.1 == q && k.0 in players) :: registry[k]
  }

  lemma {:induction false} DropForNext(registry: map<Key, SearchId>, q: QueueName, players: seq<Player>, i: nat)
    requires i < |players|
    ensures DropFor(registry, q, players[..i]) - {(players[i], q)} == DropFor(registry, q, players[..i + 1])
  {
    assert players[..i + 1] == players[..i] + [players[i]];
    forall k: Key ensures k == (players[i], q) <==> k.0 == players[i] && k.1 == q {}
  }

  /** The registry's entries of a search are its players in its queue. */
  lemma {:induction false} RegisteredKeys(s: State, sizes: Sizes, undelivered: set<SearchId>, p: Player, q: QueueName)
    requires CanCancel(s, sizes, undelivered) && (p, q) in s.registry
    ensures var id := s.registry[(p, q)];
      && id in s.records && Distinct(s.records[id].players)
      && (forall r | r in s.records[id].players :: (r, q) in s.registry)
      && DropFor(s.registry, q, s.records[id].players) == Drop(s.registry, {id})
  {
    var id := s.registry[(p, q)];
    forall k | k in s.registry ensures s.registry[k] == id <==> k.1 == q && k.0 in s.records[id].players {
      assert k == (k.0, k.1);
    }
  }
}
