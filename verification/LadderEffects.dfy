/** What each transition of the matchmaking service does to the single registrations, searches and players. */
module LadderEffects {
  import opened Options
  import opened Lists
  import opened Searches
  import opened LadderState
  import opened LadderInvariants
  import opened LadderCommit
  import opened LadderPop

  /** Players who were searching and are registered nowhere any more are idle; nobody else changes. */
  ghost predicate Settled(s: State, t: State, p: Player)
    requires p in s.states && p in t.states
  {
    t.states[p] == if s.states[p].SearchingLadder? && (forall k | k in t.registry :: k.0 != p) then Idle
      else s.states[p]
  }

  // ----- Cancelling

  /** Exactly the searches in `gone` are cancelled and leave the registry, whoever else takes part in them. */
  ghost predicate Cancels(s: State, t: State, gone: set<SearchId>) {
    && (forall k :: k in t.registry <==> k in s.registry && s.registry[k] !in gone)
    && (forall k | k in t.registry :: t.registry[k] == s.registry[k])
    && t.records.Keys == s.records.Keys
    && (forall id | id in s.records ::
          t.records[id] == if id in gone then s.records[id].(status := Cancelled) else s.records[id])
    && t.states.Keys == s.states.Keys && (forall p | p in s.states :: Settled(s, t, p))
    && t.queues == s.queues && t.starting == s.starting && t.snapshots == s.snapshots && t.history == s.history
  }

  lemma {:induction false} CancelEffect(s: State, searches: set<SearchId>)
    ensures Cancels(s, Cancel(s, searches), searches)
  {
    var t := Cancel(s, searches);
    forall p | p in s.states ensures HasSearch(t.registry, p) <==> exists k :: k in t.registry && k.0 == p {}
  }

  /** Exactly the searches this player takes part in are cancelled: all of them, or the one in the named queue. */
  ghost predicate CancelsOwn(s: State, t: State, p: Player, queueName: Option<QueueName>) {
    Cancels(s, t, set k | k in s.registry && k.0 == p && (queueName.None? || k.1 == queueName.value) :: s.registry[k])
  }

  lemma {:induction false} CancelOwnEffect(s: State, p: Player, queueName: Option<QueueName>)
    ensures var gone := if queueName.Some? then TouchedIn(s.registry, [p], queueName.value)
      else Touched(s.registry, [p]);
      CancelsOwn(s, Cancel(s, gone), p, queueName)
  {
    var gone := if queueName.Some? then TouchedIn(s.registry, [p], queueName.value) else Touched(s.registry, [p]);
    var own := set k | k in s.registry && k.0 == p && (queueName.None? || k.1 == queueName.value) :: s.registry[k];
    assert gone == own;
    CancelEffect(s, own);
  }

  // ----- Starting a search

  /** One of the players has this search in queue `q`. */
  ghost predicate Replaced(s: State, players: seq<Player>, q: QueueName, id: SearchId) {
    exists p :: p in players && (p, q) in s.registry && s.registry[(p, q)] == id
  }

  /** The players are registered with the new search in queue `q`, and nothing else is added. */
  ghost predicate StartsRegistry(s: State, t: State, players: seq<Player>, q: QueueName, id: SearchId) {
    && (forall k :: k in t.registry <==>
          (k.0 in players && k.1 == q) || (k in s.registry && !Replaced(s, players, q, s.registry[k])))
    && (forall k | k in t.registry :: t.registry[k] == if k.0 in players && k.1 == q then id else s.registry[k])
  }

  /** What one of the players had in `q` before is cancelled, for everybody who took part in it. */
  ghost predicate StartsRecords(s: State, t: State, players: seq<Player>, q: QueueName, id: SearchId, rating: real) {
    && t.records.Keys == s.records.Keys + {id} && t.records[id] == Record(q, players, rating, Pending, 0)
    && (forall i | i in s.records && i != id ::
          t.records[i] == if Replaced(s, players, q, i) then s.records[i].(status := Cancelled) else s.records[i])
  }

  ghost predicate StartsStates(s: State, t: State, players: seq<Player>) {
    && (forall p :: p in t.states <==> p in s.states || p in players)
    && (forall p | p in t.states :: if p in players then t.states[p] == SearchingLadder else Settled(s, t, p))
  }

  ghost predicate Starts(s: State, t: State, players: seq<Player>, q: QueueName, id: SearchId, rating: real) {
    && StartsRegistry(s, t, players, q, id) && StartsRecords(s, t, players, q, id, rating)
    && StartsStates(s, t, players)
    && t.queues == s.queues && t.starting == s.starting + {id} && t.snapshots == s.snapshots
    && t.history == s.history + [Started(players)]
  }

  lemma {:induction false} StartEffect(s: State, players: seq<Player>, q: QueueName, id: SearchId, rating: real)
    ensures Starts(s, StartSearch(s, players, q, id, rating), players, q, id, rating)
  {
    StartRegistryEffect(s, players, q, id, rating);
    StartRecordsEffect(s, players, q, id, rating);
    StartStatesEffect(s, players, q, id, rating);
    hide StartsRegistry, StartsRecords, StartsStates, Drop, CancelRecords, Settle, Register, SetStates, TouchedIn;
  }

  lemma {:induction false} StartRegistryEffect(s: State, players: seq<Player>, q: QueueName, id: SearchId, rating: real)
    ensures StartsRegistry(s, StartSearch(s, players, q, id, rating), players, q, id)
  {
    forall i ensures i in TouchedIn(s.registry, players, q) <==> Replaced(s, players, q, i) {
      ReplacedIn(s, players, q, i);
    }
    hide TouchedIn, Replaced, CancelRecords, Settle, SetStates;
    forall k ensures k in KeysIn(players, q) <==> k.0 in players && k.1 == q {
      if k.0 in players && k.1 == q { assert k == (k.0, q); }
    }
  }

  lemma {:induction false} StartRecordsEffect(s: State, players: seq<Player>, q: QueueName, id: SearchId, rating: real)
    ensures StartsRecords(s, StartSearch(s, players, q, id, rating), players, q, id, rating)
  {
    forall i ensures i in TouchedIn(s.registry, players, q) <==> Replaced(s, players, q, i) {
      ReplacedIn(s, players, q, i);
    }
    hide TouchedIn, Replaced, Drop, Settle, SetStates, Register;
  }

  lemma {:induction false} StartStatesEffect(s: State, players: seq<Player>, q: QueueName, id: SearchId, rating: real)
    ensures StartsStates(s, StartSearch(s, players, q, id, rating), players)
  {
    var gone := TouchedIn(s.registry, players, q);
    CancelEffect(s, gone);
    hide TouchedIn, CancelRecords, Drop, Settle, Settled, Register, SetStates, StartsStates;
    JoinedStates(s, Cancel(s, gone), StartSearch(s, players, q, id, rating), players, q, id);
  }

  lemma {:induction false} JoinedStates(s: State, u: State, t: State, players: seq<Player>, q: QueueName, id: SearchId)
    requires u.states.Keys == s.states.Keys && forall p | p in s.states :: Settled(s, u, p)
    requires t.states == SetStates(u.states, players, SearchingLadder)
    requires t.registry == Register(u.registry, players, q, id)
    ensures StartsStates(s, t, players)
  {
    hide Settled;
    forall p | p in t.states && p !in players ensures Settled(s, t, p) {
      SettledElsewhere(s, u, t, players, p);
    }
  }

  lemma {:induction false} ReplacedIn(s: State, players: seq<Player>, q: QueueName, id: SearchId)
    ensures id in TouchedIn(s.registry, players, q) <==> Replaced(s, players, q, id)
  {
    if id in TouchedIn(s.registry, players, q) {
      var k :| k in s.registry && k.0 in players && k.1 == q && s.registry[k] == id;
      assert k == (k.0, q);
    }
  }

  /** Registering some players makes no difference to the others. */
  lemma {:induction false} SettledElsewhere(s: State, u: State, t: State, players: seq<Player>, p: Player)
    requires p in s.states && p in u.states && p in t.states && p !in players
    requires Settled(s, u, p) && t.states[p] == u.states[p]
    requires forall k: Key | k.0 !in players :: k in t.registry <==> k in u.registry
    ensures Settled(s, t, p)
  {
    assert (forall k | k in t.registry :: k.0 != p) <==> (forall k | k in u.registry :: k.0 != p) by {
      if k :| k in t.registry && k.0 == p { assert k in u.registry; }
      if k :| k in u.registry && k.0 == p { assert k in t.registry; }
    }
  }

  /** A search in one queue leaves all other queues alone, and cancels in its own only what one of the players had. */
  ghost predicate OnlyInQueue(s: State, t: State, players: seq<Player>, q: QueueName, id: SearchId) {
    && (forall k | k in s.registry && k.1 != q :: k in t.registry && t.registry[k] == s.registry[k])
    && (forall i | i in s.records && s.records[i].queue != q :: i in t.records && t.records[i] == s.records[i])
    && (forall i | i in s.records && i in t.records && t.records[i] != s.records[i] ::
          && s.records[i].status.Pending? && s.records[i].queue == q && t.records[i].status.Cancelled?
          && exists p :: p in players && p in s.records[i].players)
    && (forall p | p in players :: (p, q) in t.registry && t.registry[(p, q)] == id)
  }

  lemma {:induction false} StartOnlyInQueue(s: State, players: seq<Player>, q: QueueName, id: SearchId, rating: real)
    requires Registered(s, {}) && id !in s.records
    ensures OnlyInQueue(s, StartSearch(s, players, q, id, rating), players, q, id)
  {
    StartEffect(s, players, q, id, rating);
    hide StartSearch;
    forall i | Replaced(s, players, q, i)
      ensures i in s.records && s.records[i].queue == q && s.records[i].status.Pending?
      ensures exists p :: p in players && p in s.records[i].players
    {
      var p :| p in players && (p, q) in s.registry && s.registry[(p, q)] == i;
      assert p in s.records[i].players;
    }
    hide Replaced;
    forall k | k in s.registry && k.1 != q ensures !Replaced(s, players, q, s.registry[k]) {
      assert s.records[s.registry[k]].queue == k.1;
    }
  }

  // ----- The task of a search

  /** An open search is queued behind all others; one that has been cancelled meanwhile is not. */
  ghost predicate Joins(s: State, t: State, id: SearchId)
    requires id in s.records
  {
    var q := s.records[id].queue;
    && (if s.records[id].status.Pending? then
          && t.queues.Keys == s.queues.Keys + {q} && t.queues[q] == QueueOf(s, q) + [id]
          && forall r | r in s.queues && r != q :: t.queues[r] == s.queues[r]
        else t.queues == s.queues)
    && t.starting == s.starting - {id}
    && t.registry == s.registry && t.states == s.states && t.records == s.records && t.snapshots == s.snapshots
    && t.history == s.history
  }

  lemma {:induction false} TaskJoins(s: State, id: SearchId)
    requires id in s.records
    ensures Joins(s, RunTask(s, id), id)
  {}

  /** The search is taken out of its queue, and nothing else. */
  ghost predicate Leaves(s: State, t: State, id: SearchId)
    requires id in s.records
  {
    var q := s.records[id].queue;
    && t.queues.Keys == s.queues.Keys && (forall r | r in s.queues && r != q :: t.queues[r] == s.queues[r])
    && (q in s.queues ==> forall i :: i in t.queues[q] <==> i in s.queues[q] && i != id)
    && t.starting == s.starting && t.registry == s.registry && t.states == s.states && t.records == s.records
    && t.snapshots == s.snapshots && t.history == s.history
  }

  lemma {:induction false} TaskLeaves(s: State, id: SearchId)
    requires QueuesFit(s) && id in s.records && id in QueueOf(s, s.records[id].queue)
    ensures Leaves(s, FinishTask(s, id), id)
  {
    var q := s.records[id].queue;
    forall i ensures i in Without(s.queues[q], id) <==> i in s.queues[q] && i != id {
      WithoutOccurrences(s.queues[q], id, i);
      DistinctOnce(s.queues[q], id);
      OccursIn(s.queues[q], i);
      OccursIn(Without(s.queues[q], id), i);
    }
  }

  // ----- The first half of a pop

  /** How many players the searches of a queue hold together. */
  function PlayersWaiting(records: map<SearchId, Record>, ids: seq<SearchId>): nat
    requires forall id | id in ids :: id in records
  {
    if ids == [] then 0
    else
      assert forall id | id in ids[1..] :: id in ids;
      |records[ids[0]].players| + PlayersWaiting(records, ids[1..])
  }

  /** The list describes these searches, one by one. */
  ghost predicate Describes(list: seq<Search>, records: map<SearchId, Record>, ids: seq<SearchId>) {
    && |list| == |ids|
    && forall i | 0 <= i < |ids| ::
         ids[i] in records && list[i] == Search(ids[i], |records[ids[i]].players|, records[ids[i]].rating)
  }

  lemma {:induction false} ListingLists(records: map<SearchId, Record>, ids: seq<SearchId>)
    requires forall id | id in ids :: id in records
    ensures Describes(Listing(records, ids), records, ids)
    decreases |ids|
  {
    if ids != [] {
      var n := |ids| - 1;
      ListingLists(records, ids[..n]);
      assert ids[n] in ids;
    }
  }

  lemma {:induction false} ListedPlayers(list: seq<Search>, records: map<SearchId, Record>, ids: seq<SearchId>)
    requires Describes(list, records, ids) && forall id | id in ids :: id in records
    ensures Players(list) == PlayersWaiting(records, ids)
    decreases |ids|
  {
    if ids != [] { ListedPlayers(list[1..], records, ids[1..]); }
  }

  /** The matchmaker has the list of the searches that wait, and nothing else changes. */
  ghost predicate Asks(s: State, t: State, q: QueueName) {
    && t.records == s.records && t.snapshots.Keys == s.snapshots.Keys + {q}
    && Describes(t.snapshots[q], s.records, QueueOf(s, q))
    && forall r | r in s.snapshots && r != q :: t.snapshots[r] == s.snapshots[r]
  }

  /** Every search that waits has one more failed attempt. */
  ghost predicate Fails(s: State, t: State, q: QueueName) {
    && t.snapshots == s.snapshots && t.records.Keys == s.records.Keys
    && forall id | id in s.records :: OneMoreFailure(s.records[id], t.records[id], id in QueueOf(s, q))
  }

  ghost predicate OneMoreFailure(before: Record, after: Record, waits: bool) {
    after == before.(attempts := before.attempts + if waits then 1 else 0)
  }

  /** The matchmaker is asked if and only if the waiting searches hold enough players for two teams. */
  ghost predicate Pops(s: State, t: State, q: QueueName, teamSize: nat)
    requires forall id | id in QueueOf(s, q) :: id in s.records
  {
    && (if PlayersWaiting(s.records, QueueOf(s, q)) >= 2 * teamSize then Asks(s, t, q) else Fails(s, t, q))
    && t.registry == s.registry && t.states == s.states && t.queues == s.queues && t.starting == s.starting
    && t.history == s.history
  }

  lemma {:induction false} PopEffect(s: State, q: QueueName, teamSize: nat)
    requires Distinct(QueueOf(s, q)) && forall id | id in QueueOf(s, q) :: id in s.records
    ensures Pops(s, Pop(s, q, teamSize), q, teamSize)
  {
    var ids := QueueOf(s, q);
    var list := Listing(s.records, ids);
    ListingLists(s.records, ids);
    FailEffect(s, q, list);
    ListedPlayers(list, s.records, ids);
    assert Asks(s, s.(snapshots := s.snapshots[q := list]), q);
    hide Asks, Fails, Describes, Distinct, QueueOf, Listing, FailAttempt, Players, PlayersWaiting;
  }

  lemma {:induction false} FailEffect(s: State, q: QueueName, list: seq<Search>)
    requires Describes(list, s.records, QueueOf(s, q)) && Distinct(QueueOf(s, q))
    ensures Fails(s, s.(records := FailAttempt(s.records, list)), q)
  {
    forall id ensures CountId(list, id) == if id in QueueOf(s, q) then 1 else 0 {
      CountListed(list, s.records, QueueOf(s, q), id);
    }
    hide CountId, Describes, Distinct, QueueOf;
  }

  lemma {:induction false} CountListed(list: seq<Search>, records: map<SearchId, Record>, ids: seq<SearchId>,
      id: SearchId)
    requires Describes(list, records, ids) && Distinct(ids)
    ensures CountId(list, id) == if id in ids then 1 else 0
    decreases |ids|
  {
    if ids != [] {
      var n := |ids| - 1;
      DistinctInit(ids);
      CountListed(list[..n], records, ids[..n], id);
      assert ids == ids[..n] + [ids[n]];
    }
  }

  // ----- The second half of a pop

  predicate InTeam(team: seq<Search>, id: SearchId) {
    exists x | x in team :: x.id == id
  }

  /** The searches of a match are resolved with the other side; those of single players leave their queue at once. */
  ghost predicate Marks(s: State, t: State, q: QueueName, teamSize: nat, m: Match) {
    && t.records.Keys == s.records.Keys
    && (forall id | id in s.records ::
          t.records[id] == s.records[id].(status :=
            if InTeam(m.a, id) then Matched(m.b) else if InTeam(m.b, id) then Matched(m.a) else s.records[id].status))
    && t.queues.Keys == s.queues.Keys
    && (forall r | r in s.queues && (teamSize != 1 || r != q) :: t.queues[r] == s.queues[r])
    && (teamSize == 1 && q in s.queues ==>
          forall id :: id in t.queues[q] <==> id in s.queues[q] && !InTeam(m.a, id) && !InTeam(m.b, id))
    && t.registry == s.registry && t.states == s.states && t.starting == s.starting && t.snapshots == s.snapshots
    && t.history == s.history
  }

  lemma {:induction false} IdsInTeam(team: seq<Search>, id: SearchId)
    ensures id in Ids(team) <==> InTeam(team, id)
  {}

  lemma {:induction false} LeaveQueueMembers(queue: seq<SearchId>, m: Match, id: SearchId)
    ensures id in LeaveQueue(queue, m) <==> id in queue && !InTeam(m.a, id) && !InTeam(m.b, id)
    decreases |queue|
  {
    if queue != [] {
      var n := |queue| - 1;
      LeaveQueueMembers(queue[..n], m, id);
      IdsInTeam(m.a, queue[n]);
      IdsInTeam(m.b, queue[n]);
      assert queue == queue[..n] + [queue[n]];
    }
  }

  lemma {:induction false} MarkEffect(s: State, q: QueueName, teamSize: nat, m: Match)
    ensures Marks(s, Mark(s, q, teamSize, m), q, teamSize, m)
  {
    forall id ensures id in Ids(m.a) <==> InTeam(m.a, id) { IdsInTeam(m.a, id); }
    forall id ensures id in Ids(m.b) <==> InTeam(m.b, id) { IdsInTeam(m.b, id); }
    if q in s.queues {
      forall id
        ensures id in LeaveQueue(s.queues[q], m) <==> id in s.queues[q] && !InTeam(m.a, id) && !InTeam(m.b, id)
      {
        LeaveQueueMembers(s.queues[q], m, id);
      }
    }
    hide Ids, InTeam, LeaveQueue;
  }

  /** The player takes part in one of the searches of the match. */
  ghost predicate Plays(s: State, m: Match, p: Player) {
    exists x | x in SearchesOf(m) :: x.id in s.records && p in s.records[x.id].players
  }

  /** Somebody who plays the match is registered with this search, in whatever queue. */
  ghost predicate Held(s: State, m: Match, id: SearchId) {
    exists k | k in s.registry :: Plays(s, m, k.0) && s.registry[k] == id
  }

  ghost predicate DeliversRegistry(s: State, t: State, m: Match) {
    && (forall k :: k in t.registry <==> k in s.registry && !Held(s, m, s.registry[k]))
    && (forall k | k in t.registry :: t.registry[k] == s.registry[k])
  }

  ghost predicate DeliversRecords(s: State, t: State, m: Match) {
    && t.records.Keys == s.records.Keys
    && (forall id | id in s.records ::
          t.records[id] == if Held(s, m, id) && !InTeam(SearchesOf(m), id) then s.records[id].(status := Cancelled)
                           else s.records[id])
  }

  ghost predicate DeliversStates(s: State, t: State, m: Match) {
    && (forall p :: p in t.states <==> p in s.states || Plays(s, m, p))
    && (forall p | p in t.states :: if Plays(s, m, p) then t.states[p] == StartingAutomatch else Settled(s, t, p))
  }

  /**
   * Whoever plays the match starts a game; all searches they were registered with leave the registry, and those that
   * are not part of the match are cancelled. Everybody else is idle exactly if they lose their last search by that.
   */
  ghost predicate Delivers(s: State, t: State, m: Match) {
    && DeliversRegistry(s, t, m) && DeliversRecords(s, t, m) && DeliversStates(s, t, m)
    && (exists players :: t.history == s.history + [Delivered(players)] && forall p :: p in players <==> Plays(s, m, p))
    && t.queues == s.queues && t.starting == s.starting && t.snapshots == s.snapshots
  }

  lemma {:induction false} TouchedHeld(s: State, m: Match, id: SearchId)
    ensures id in Touched(s.registry, Members(s.records, SearchesOf(m))) <==> Held(s, m, id)
  {
    forall p ensures p in Members(s.records, SearchesOf(m)) <==> Plays(s, m, p) {
      MembersIn(s.records, SearchesOf(m), p);
    }
    hide Plays, Members, SearchesOf;
  }

  lemma {:induction false} DeliverEffect(s: State, m: Match)
    ensures Delivers(s, Deliver(s, m), m)
  {
    var players := Members(s.records, SearchesOf(m));
    forall p ensures p in players <==> Plays(s, m, p) { MembersIn(s.records, SearchesOf(m), p); }
    hide Plays, Members;
    DeliveredRegistry(s, m);
    DeliveredRecords(s, m);
    DeliveredStates(s, m, players, Touched(s.registry, players));
    hide DeliversRegistry, DeliversRecords, DeliversStates, Touched, Drop, CancelRecords, Settle, SetStates;
  }

  lemma {:induction false} DeliveredRegistry(s: State, m: Match)
    ensures DeliversRegistry(s, Deliver(s, m), m)
  {
    forall id ensures id in Touched(s.registry, Members(s.records, SearchesOf(m))) <==> Held(s, m, id) {
      TouchedHeld(s, m, id);
    }
    hide Held, Members, Touched, Settle, SetStates, CancelRecords, Ids;
  }

  lemma {:induction false} DeliveredRecords(s: State, m: Match)
    ensures DeliversRecords(s, Deliver(s, m), m)
  {
    forall id ensures id in Touched(s.registry, Members(s.records, SearchesOf(m))) <==> Held(s, m, id) {
      TouchedHeld(s, m, id);
    }
    forall id ensures id in Ids(SearchesOf(m)) <==> InTeam(SearchesOf(m), id) { IdsInTeam(SearchesOf(m), id); }
    hide Held, InTeam, Members, Touched, Settle, SetStates, Drop, Ids;
  }

  lemma {:induction false} DeliveredStates(s: State, m: Match, players: seq<Player>, touched: set<SearchId>)
    requires forall p :: p in players <==> Plays(s, m, p)
    requires players == Members(s.records, SearchesOf(m)) && touched == Touched(s.registry, players)
    ensures DeliversStates(s, Deliver(s, m), m)
  {
    CancelEffect(s, touched);
    hide Plays, Members, Touched, SearchesOf, Settle, Settled, Drop, CancelRecords;
    var u, t := Cancel(s, touched), Deliver(s, m);
    assert t.registry == u.registry && t.states == SetStates(u.states, players, StartingAutomatch);
    forall p | p in t.states && p !in players ensures Settled(s, t, p) {
      SettledElsewhere(s, u, t, [], p);
    }
  }

  // ----- A whole commit, for everybody who was not on the list

  /** The player takes part in one of the searches of these matches. */
  ghost predicate PlaysIn(s: State, matches: seq<Match>, p: Player) {
    exists x | x in Flatten(matches) :: x.id in s.records && p in s.records[x.id].players
  }

  /** Somebody who plays one of these matches is registered with this search. */
  ghost predicate HeldIn(s: State, matches: seq<Match>, id: SearchId) {
    exists k | k in s.registry :: PlaysIn(s, matches, k.0) && s.registry[k] == id
  }

  ghost predicate CommitsRegistry(s: State, t: State, matches: seq<Match>) {
    && (forall k :: k in t.registry <==> k in s.registry && !HeldIn(s, matches, s.registry[k]))
    && (forall k | k in t.registry :: t.registry[k] == s.registry[k])
  }

  ghost predicate CommitsRecords(s: State, t: State, others: set<SearchId>, matches: seq<Match>) {
    && t.records.Keys == s.records.Keys
    && forall id | id in others && id in s.records ::
         t.records[id] == if HeldIn(s, matches, id) then s.records[id].(status := Cancelled) else s.records[id]
  }

  ghost predicate CommitsStates(s: State, t: State, matches: seq<Match>) {
    && (forall p :: p in t.states <==> p in s.states || PlaysIn(s, matches, p))
    && (forall p | p in t.states ::
          if PlaysIn(s, matches, p) then t.states[p] == StartingAutomatch else Settled(s, t, p))
  }

  lemma {:induction false} PlaysNext(s: State, matches: seq<Match>, p: Player)
    requires matches != []
    ensures var n := |matches| - 1;
      PlaysIn(s, matches, p) <==> PlaysIn(s, matches[..n], p) || Plays(s, matches[n], p)
  {
    var n := |matches| - 1;
    assert Flatten(matches) == Flatten(matches[..n]) + SearchesOf(matches[n]);
  }

  /** What the players of two states hold is the same if their searches have the same players. */
  lemma {:induction false} PlaysSame(s: State, u: State, m: Match, p: Player)
    requires u.records.Keys == s.records.Keys
    requires forall id | id in s.records :: u.records[id].players == s.records[id].players
    ensures Plays(u, m, p) <==> Plays(s, m, p)
  {}

  ghost predicate SamePlayers(s: State, t: State) {
    t.records.Keys == s.records.Keys && forall id | id in s.records :: t.records[id].players == s.records[id].players
  }

  /** What one more match adds to the searches that are held. */
  lemma {:induction false} HeldNext(s: State, u: State, matches: seq<Match>, id: SearchId)
    requires matches != [] && SamePlayers(s, u) && CommitsRegistry(s, u, matches[..|matches| - 1])
    ensures var n := |matches| - 1;
      HeldIn(s, matches, id) <==> HeldIn(s, matches[..n], id) || Held(u, matches[n], id)
  {
    var n := |matches| - 1;
    forall p ensures PlaysIn(s, matches, p) <==> PlaysIn(s, matches[..n], p) || Plays(u, matches[n], p) {
      PlaysNext(s, matches, p);
      PlaysSame(s, u, matches[n], p);
    }
    hide Plays, PlaysIn;
    if HeldIn(s, matches, id) && !HeldIn(s, matches[..n], id) {
      var k :| k in s.registry && PlaysIn(s, matches, k.0) && s.registry[k] == id;
      assert k in u.registry;
    }
  }

  lemma {:induction false} RegistryNext(s: State, u: State, t: State, matches: seq<Match>)
    requires matches != [] && SamePlayers(s, u)
    requires CommitsRegistry(s, u, matches[..|matches| - 1]) && DeliversRegistry(u, t, matches[|matches| - 1])
    ensures CommitsRegistry(s, t, matches)
  {
    forall id
      ensures HeldIn(s, matches, id) <==> HeldIn(s, matches[..|matches| - 1], id) || Held(u, matches[|matches| - 1], id)
    {
      HeldNext(s, u, matches, id);
    }
    hide HeldIn, Held;
  }

  lemma {:induction false} RecordsNext(s: State, u: State, t: State, others: set<SearchId>, matches: seq<Match>)
    requires matches != [] && SamePlayers(s, u) && CommitsRegistry(s, u, matches[..|matches| - 1])
    requires CommitsRecords(s, u, others, matches[..|matches| - 1]) && DeliversRecords(u, t, matches[|matches| - 1])
    requires forall id | id in others :: !InTeam(SearchesOf(matches[|matches| - 1]), id)
    ensures CommitsRecords(s, t, others, matches)
  {
    forall id
      ensures HeldIn(s, matches, id) <==> HeldIn(s, matches[..|matches| - 1], id) || Held(u, matches[|matches| - 1], id)
    {
      HeldNext(s, u, matches, id);
    }
    hide HeldIn, Held, InTeam, SearchesOf;
  }

  lemma {:induction false} StatesNext(s: State, u: State, t: State, matches: seq<Match>)
    requires matches != [] && SamePlayers(s, u)
    requires CommitsStates(s, u, matches[..|matches| - 1]) && DeliversStates(u, t, matches[|matches| - 1])
    requires forall k | k in t.registry :: k in u.registry
    ensures CommitsStates(s, t, matches)
  {
    var n := |matches| - 1;
    forall p ensures PlaysIn(s, matches, p) <==> PlaysIn(s, matches[..n], p) || Plays(u, matches[n], p) {
      PlaysNext(s, matches, p);
      PlaysSame(s, u, matches[n], p);
    }
    hide PlaysIn, Plays;
  }

  lemma {:induction false} SamePlayersNext(s: State, u: State, t: State, m: Match)
    requires SamePlayers(s, u) && DeliversRecords(u, t, m)
    ensures SamePlayers(s, t)
  {
    hide Held, InTeam;
  }

  ghost predicate DeliversAll(s: State, t: State, others: set<SearchId>, matches: seq<Match>) {
    && SamePlayers(s, t)
    && CommitsRegistry(s, t, matches) && CommitsRecords(s, t, others, matches) && CommitsStates(s, t, matches)
  }

  lemma {:induction false} DeliverEachEffect(s: State, others: set<SearchId>, matches: seq<Match>)
    requires StatesAgree(s) && forall id | id in others :: !InTeam(Flatten(matches), id)
    ensures DeliversAll(s, DeliverEach(s, matches), others, matches)
    decreases |matches|
  {
    if matches == [] {
      NobodyPlays(s, others);
    } else {
      var n := |matches| - 1;
      var u := DeliverEach(s, matches[..n]);
      TeamsApart(others, matches);
      DeliverEachEffect(s, others, matches[..n]);
      DeliverEffect(u, matches[n]);
      var t := Deliver(u, matches[n]);
      hide Deliver, InTeam, Flatten, SearchesOf, CommitsRegistry, CommitsRecords, CommitsStates, DeliversRegistry,
           DeliversRecords, DeliversStates, SamePlayers;
      assert forall k | k in t.registry :: k in u.registry by { assert DeliversRegistry(u, t, matches[n]); }
      RegistryNext(s, u, t, matches);
      RecordsNext(s, u, t, others, matches);
      StatesNext(s, u, t, matches);
      SamePlayersNext(s, u, t, matches[n]);
    }
  }

  lemma {:induction false} NobodyPlays(s: State, others: set<SearchId>)
    requires StatesAgree(s)
    ensures DeliversAll(s, s, others, [])
  {
    forall p | p in s.states ensures Settled(s, s, p) {
      if HasSearch(s.registry, p) {
        var k :| k in s.registry && k.0 == p;
      }
    }
  }

  lemma {:induction false} TeamsApart(others: set<SearchId>, matches: seq<Match>)
    requires matches != [] && forall id | id in others :: !InTeam(Flatten(matches), id)
    ensures forall id | id in others :: !InTeam(Flatten(matches[..|matches| - 1]), id)
    ensures forall id | id in others :: !InTeam(SearchesOf(matches[|matches| - 1]), id)
  {
    var n := |matches| - 1;
    assert Flatten(matches) == Flatten(matches[..n]) + SearchesOf(matches[n]);
  }

  /**
   * Of the waiting searches, those of single players who have been matched leave their queue; no other queue changes.
   */
  ghost predicate CommitsQueues(s: State, t: State, q: QueueName, teamSize: nat, matches: seq<Match>) {
    && t.queues.Keys == s.queues.Keys
    && (forall r | r in s.queues && (teamSize != 1 || r != q) :: t.queues[r] == s.queues[r])
    && (teamSize == 1 && q in s.queues ==>
          forall id :: id in t.queues[q] <==> id in s.queues[q] && !InTeam(Flatten(matches), id))
  }

  lemma {:induction false} MarkEachQueues(s: State, q: QueueName, teamSize: nat, matches: seq<Match>)
    ensures CommitsQueues(s, MarkEach(s, q, teamSize, matches), q, teamSize, matches)
    decreases |matches|
  {
    if matches == [] {
      assert Flatten(matches) == [];
    } else {
      var n := |matches| - 1;
      var u := MarkEach(s, q, teamSize, matches[..n]);
      MarkEachQueues(s, q, teamSize, matches[..n]);
      MarkEffect(u, q, teamSize, matches[n]);
      forall id
        ensures InTeam(Flatten(matches), id)
           <==> InTeam(Flatten(matches[..n]), id) || InTeam(matches[n].a, id) || InTeam(matches[n].b, id)
      {
        InOneTeam(matches, id);
      }
      hide InTeam, Flatten, Mark;
    }
  }

  lemma {:induction false} InOneTeam(matches: seq<Match>, id: SearchId)
    requires matches != []
    ensures var n := |matches| - 1;
      InTeam(Flatten(matches), id)
      <==> InTeam(Flatten(matches[..n]), id) || InTeam(matches[n].a, id) || InTeam(matches[n].b, id)
  {
    var n := |matches| - 1;
    assert Flatten(matches) == Flatten(matches[..n]) + SearchesOf(matches[n]);
    assert forall x :: x in SearchesOf(matches[n]) <==> x in matches[n].a || x in matches[n].b;
  }

  lemma {:induction false} DeliverEachQueues(s: State, matches: seq<Match>)
    ensures DeliverEach(s, matches).queues == s.queues && DeliverEach(s, matches).starting == s.starting
    decreases |matches|
  {
    if matches != [] { DeliverEachQueues(s, matches[..|matches| - 1]); }
  }

  /** The searches that were not on the list of queue `q`. */
  function NotListed(s: State, q: QueueName): set<SearchId>
    requires q in s.snapshots
  {
    set id | id in s.records && !InTeam(s.snapshots[q], id)
  }

  /** What a commit does besides giving the searches of the list their results. */
  ghost predicate Commits(s: State, t: State, q: QueueName, teamSize: nat, matches: seq<Match>)
    requires q in s.snapshots
  {
    && CommitsRegistry(s, t, matches) && CommitsRecords(s, t, NotListed(s, q), matches) && CommitsStates(s, t, matches)
    && CommitsQueues(s, t, q, teamSize, matches)
    && t.starting == s.starting && t.snapshots == s.snapshots - {q}
  }

  /** Marking the matches and counting the failures concerns the searches of the list only. */
  lemma {:induction false} MarkedElsewhere(s: State, q: QueueName, teamSize: nat, proposed: seq<Match>,
      unmatched: seq<Search>, id: SearchId)
    requires Proposal(s, q, proposed, unmatched) && id in NotListed(s, q)
    ensures id in Marked(s, q, teamSize, proposed, unmatched).records
    ensures Marked(s, q, teamSize, proposed, unmatched).records[id] == s.records[id]
    ensures !InTeam(Flatten(Accepted(s.records, proposed)), id)
  {
    var matches, failed := Accepted(s.records, proposed), unmatched + Rejected(s.records, proposed);
    forall x | x in Flatten(matches) || x in failed ensures x.id != id {
      AcceptedOrFailed(s, q, proposed, unmatched, x);
      OccursIn(Flatten(matches), x);
      OccursIn(failed, x);
      OccursIn(s.snapshots[q], x);
    }
    hide Accepted, Rejected, Flatten, CountId, MarkEach;
    MarkEachOnly(s.(snapshots := s.snapshots - {q}), q, teamSize, matches, id);
    assert CountId(failed, id) == 0 by { NotCounted(failed, id); }
  }

  lemma {:induction false} NotCounted(searches: seq<Search>, id: SearchId)
    requires forall x | x in searches :: x.id != id
    ensures CountId(searches, id) == 0
    decreases |searches|
  {
    if searches != [] { NotCounted(searches[..|searches| - 1], id); }
  }

  /**
   * Everybody registered with a matched player loses that search, wherever it was; searches that were not on the list
   * are cancelled exactly for that reason, and players who play no match become idle exactly if they have no search
   * left.
   */
  lemma {:induction false} CommitEffect(s: State, sizes: Sizes, q: QueueName, teamSize: nat, proposed: seq<Match>,
      unmatched: seq<Search>)
    requires Inv(s, sizes, {}) && Proposal(s, q, proposed, unmatched)
    ensures Commits(s, Commit(s, q, teamSize, proposed, unmatched), q, teamSize, Accepted(s.records, proposed))
  {
    var matches, others := Accepted(s.records, proposed), NotListed(s, q);
    var u, t := Marked(s, q, teamSize, proposed, unmatched), Commit(s, q, teamSize, proposed, unmatched);
    MarkedKeeps(s, sizes, q, teamSize, proposed, unmatched);
    assert StatesAgree(u);
    MarkedPlayers(s, q, teamSize, proposed, unmatched);
    MarkedStays(s, q, teamSize, proposed, unmatched);
    assert t == DeliverEach(u, matches);
    hide Inv, InTeam, Flatten, Accepted, Rejected, Proposal, StatesAgree, MatchedIn, Described, Distinct, MarkEach,
         DeliverEach, Marked, Commit, FailAttempt, CommitsQueues, CommitsRegistry, CommitsRecords, CommitsStates;
    forall id | id in others
      ensures id in u.records && u.records[id] == s.records[id] && !InTeam(Flatten(matches), id)
    {
      MarkedElsewhere(s, q, teamSize, proposed, unmatched, id);
    }
    assert forall id | id in others :: id in s.records;
    hide NotListed;
    DeliverEachEffect(u, others, matches);
    DeliverEachQueues(u, matches);
    DeliverEachStays(u, matches);
    SameHeld(s, u, t, others, matches);
    assert CommitsQueues(s, t, q, teamSize, matches) by { SameQueues(s, u, t, q, teamSize, matches); }
  }

  lemma {:induction false} SameQueues(s: State, u: State, t: State, q: QueueName, teamSize: nat, matches: seq<Match>)
    requires CommitsQueues(s, u, q, teamSize, matches) && t.queues == u.queues
    ensures CommitsQueues(s, t, q, teamSize, matches)
  {
    hide InTeam, Flatten;
  }

  lemma {:induction false} MarkedStays(s: State, q: QueueName, teamSize: nat, proposed: seq<Match>,
      unmatched: seq<Search>)
    ensures var u := Marked(s, q, teamSize, proposed, unmatched);
      && CommitsQueues(s, u, q, teamSize, Accepted(s.records, proposed))
      && u.registry == s.registry && u.states == s.states && u.starting == s.starting
      && u.snapshots == s.snapshots - {q}
  {
    var before, matches := s.(snapshots := s.snapshots - {q}), Accepted(s.records, proposed);
    MarkEachRegistry(before, q, teamSize, matches);
    MarkEachQueues(before, q, teamSize, matches);
    MarkEachStays(before, q, teamSize, matches);
    hide InTeam, Flatten, MarkEach, FailAttempt, Accepted, Rejected;
  }

  lemma {:induction false} MarkEachStays(s: State, q: QueueName, teamSize: nat, matches: seq<Match>)
    ensures MarkEach(s, q, teamSize, matches).starting == s.starting
    ensures MarkEach(s, q, teamSize, matches).snapshots == s.snapshots
    decreases |matches|
  {
    if matches != [] { MarkEachStays(s, q, teamSize, matches[..|matches| - 1]); }
  }

  lemma {:induction false} DeliverEachStays(s: State, matches: seq<Match>)
    ensures DeliverEach(s, matches).snapshots == s.snapshots
    decreases |matches|
  {
    if matches != [] { DeliverEachStays(s, matches[..|matches| - 1]); }
  }

  lemma {:induction false} SameHeld(s: State, u: State, t: State, others: set<SearchId>, matches: seq<Match>)
    requires SamePlayers(s, u) && u.registry == s.registry && u.states == s.states && DeliversAll(u, t, others, matches)
    requires forall id | id in others :: id in s.records && u.records[id] == s.records[id]
    ensures CommitsRegistry(s, t, matches) && CommitsRecords(s, t, others, matches) && CommitsStates(s, t, matches)
  {
    forall p ensures PlaysIn(u, matches, p) <==> PlaysIn(s, matches, p) {}
    hide PlaysIn;
    forall id ensures HeldIn(u, matches, id) <==> HeldIn(s, matches, id) {}
    hide HeldIn;
  }
}
