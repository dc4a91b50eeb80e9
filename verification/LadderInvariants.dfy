/** What every transition of the matchmaking service keeps. */
module LadderInvariants {
  import opened Lists
  import opened Searches
  import opened LadderState

  type TeamSize = n: nat | 0 < n witness 1
  type Sizes = map<QueueName, TeamSize>

  /** A search that has not been resolved, or has been matched in the running commit but not been delivered. */
  ghost predicate Live(s: State, id: SearchId, undelivered: set<SearchId>) {
    id in s.records && (s.records[id].status.Pending? || id in undelivered)
  }

  /** The registry holds exactly the live searches, for all of their players. */
  ghost predicate Registered(s: State, undelivered: set<SearchId>) {
    && (forall k | k in s.registry ::
          var id := s.registry[k];
          Live(s, id, undelivered) && s.records[id].queue == k.1 && k.0 in s.records[id].players)
    && (forall id, p | Live(s, id, undelivered) && p in s.records[id].players ::
          var k := (p, s.records[id].queue);
          k in s.registry && s.registry[k] == id)
  }

  /** A player is in the searching state exactly while they have a search. */
  ghost predicate StatesAgree(s: State) {
    && (forall k | k in s.registry :: k.0 in s.states)
    && (forall p | p in s.states :: s.states[p].SearchingLadder? <==> HasSearch(s.registry, p))
  }

  ghost predicate RecordsFit(s: State, sizes: Sizes) {
    forall id | id in s.records ::
      var r := s.records[id];
      r.queue in sizes && 0 < |r.players| <= sizes[r.queue] && Distinct(r.players)
  }

  ghost predicate StartingFit(s: State) {
    forall id | id in s.starting :: id in s.records && !s.records[id].status.Matched?
  }

  ghost predicate QueuesFit(s: State) {
    && (forall q | q in s.queues :: Distinct(s.queues[q]))
    && (forall q, id | q in s.queues && id in s.queues[q] ::
          id in s.records && s.records[id].queue == q && id !in s.starting)
  }

  ghost predicate OpenWaits(s: State) {
    forall id | id in s.records && s.records[id].status.Pending? ::
      id in s.starting || id in QueueOf(s, s.records[id].queue)
  }

  /** A search waits in its own queue, at most once; an open one is there or about to join. */
  ghost predicate Queued(s: State) {
    StartingFit(s) && QueuesFit(s) && OpenWaits(s)
  }

  ghost predicate Snapped(s: State, q: QueueName, x: Search) {
    && x.id in s.records && s.records[x.id].queue == q && x == SearchOf(x.id, s.records[x.id])
    && !s.records[x.id].status.Matched? && x.id !in s.starting
  }

  /** The lists given to the matchmaker hold searches of the queue, and none of them is matched meanwhile. */
  ghost predicate SnapshotsFit(s: State) {
    && (forall q | q in s.snapshots :: Distinct(s.snapshots[q]))
    && (forall q, x | q in s.snapshots && x in s.snapshots[q] :: Snapped(s, q, x))
  }

  /** The last thing that happened to `p` is that they started a search. */
  ghost predicate LastStarted(history: seq<Event>, p: Player) {
    history != [] &&
    match history[|history| - 1] {
      case Started(players) => p in players || LastStarted(history[..|history| - 1], p)
      case Delivered(players) => p !in players && LastStarted(history[..|history| - 1], p)
    }
  }

  /** Nobody is delivered to a match without having started a search since their last one. */
  ghost predicate NoDoubleDelivery(history: seq<Event>) {
    history == [] ||
    (NoDoubleDelivery(history[..|history| - 1]) &&
     match history[|history| - 1] {
       case Started(players) => true
       case Delivered(players) => forall p | p in players :: LastStarted(history[..|history| - 1], p)
     })
  }

  ghost predicate HistoryFits(s: State) {
    NoDoubleDelivery(s.history) && forall k | k in s.registry :: LastStarted(s.history, k.0)
  }

  ghost predicate Inv(s: State, sizes: Sizes, undelivered: set<SearchId>) {
    && Registered(s, undelivered) && StatesAgree(s) && RecordsFit(s, sizes)
    && Queued(s) && SnapshotsFit(s) && HistoryFits(s)
  }

  // ----- Cancelling

  lemma {:induction false} CancelRegistered(s: State, undelivered: set<SearchId>, searches: set<SearchId>)
    requires Registered(s, undelivered) && (forall id | id in searches :: id !in undelivered)
    ensures Registered(Cancel(s, searches), undelivered)
  {
    hide Settle;
    var t := Cancel(s, searches);
    forall id, p | Live(t, id, undelivered) && p in t.records[id].players
      ensures var k := (p, t.records[id].queue); k in t.registry && t.registry[k] == id
    {
      assert Live(s, id, undelivered);
      assert (p, s.records[id].queue) in s.registry;
    }
  }

  lemma {:induction false} CancelStates(s: State, searches: set<SearchId>)
    requires StatesAgree(s)
    ensures StatesAgree(Cancel(s, searches))
  {
    var t := Cancel(s, searches);
    forall p | p in t.states ensures t.states[p].SearchingLadder? <==> HasSearch(t.registry, p) {
      if HasSearch(t.registry, p) {
        var k :| k in t.registry && k.0 == p;
        assert k in s.registry;
      }
    }
  }

  lemma {:induction false} CancelQueued(s: State, searches: set<SearchId>)
    requires Queued(s)
    ensures Queued(Cancel(s, searches))
  {
    hide Settle, Drop;
  }

  lemma {:induction false} CancelSnapshots(s: State, searches: set<SearchId>)
    requires SnapshotsFit(s)
    ensures SnapshotsFit(Cancel(s, searches))
  {
    hide Settle, Drop;
    var t := Cancel(s, searches);
    forall q, x | q in t.snapshots && x in t.snapshots[q] ensures Snapped(t, q, x) {
      assert Snapped(s, q, x);
    }
  }

  lemma {:induction false} CancelKeeps(s: State, sizes: Sizes, undelivered: set<SearchId>, searches: set<SearchId>)
    requires Inv(s, sizes, undelivered) && (forall id | id in searches :: id !in undelivered)
    ensures Inv(Cancel(s, searches), sizes, undelivered)
  {
    hide Registered, StatesAgree, Queued, SnapshotsFit, Settle;
    CancelRegistered(s, undelivered, searches);
    CancelStates(s, searches);
    CancelQueued(s, searches);
    CancelSnapshots(s, searches);
  }

  /** Cancelling one set after another is cancelling both at once. */
  lemma {:induction false} CancelTwice(s: State, a: set<SearchId>, b: set<SearchId>)
    ensures Cancel(Cancel(s, a), b) == Cancel(s, a + b)
  {
    var t := Cancel(s, a);
    var registry := Drop(s.registry, a + b);
    assert Drop(t.registry, b) == registry;
    assert CancelRecords(t.records, b) == CancelRecords(s.records, a + b);
    forall p | p in s.states ensures Settle(t.states, registry)[p] == Settle(s.states, registry)[p] {
      if HasSearch(registry, p) { assert HasSearch(t.registry, p); }
    }
    assert Settle(t.states, registry) == Settle(s.states, registry);
  }

  // ----- Starting

  /** A fresh search for players who have none in this queue. */
  function Open(s: State, players: seq<Player>, q: QueueName, id: SearchId, rating: real): State {
    s.(registry := Register(s.registry, players, q, id),
       states := SetStates(s.states, players, SearchingLadder),
       records := s.records[id := Record(q, players, rating, Pending, 0)],
       starting := s.starting + {id},
       history := s.history + [Started(players)])
  }

  lemma {:induction false} OpenRegistered(s: State, players: seq<Player>, q: QueueName, id: SearchId, rating: real)
    requires Registered(s, {}) && id !in s.records && forall p | p in players :: (p, q) !in s.registry
    ensures Registered(Open(s, players, q, id, rating), {})
  {
    hide SetStates;
    var t := Open(s, players, q, id, rating);
    forall k | k in t.registry
      ensures var i := t.registry[k]; Live(t, i, {}) && t.records[i].queue == k.1 && k.0 in t.records[i].players
    {
      if k.0 in players && k.1 == q { assert k == (k.0, q); } else { assert k in s.registry; }
    }
    forall i, p | Live(t, i, {}) && p in t.records[i].players
      ensures var k := (p, t.records[i].queue); k in t.registry && t.registry[k] == i
    {
      if i != id { assert Live(s, i, {}) && (p, s.records[i].queue) in s.registry; }
    }
  }

  lemma {:induction false} OpenStates(s: State, players: seq<Player>, q: QueueName, id: SearchId, rating: real)
    requires StatesAgree(s)
    ensures StatesAgree(Open(s, players, q, id, rating))
  {
    var t := Open(s, players, q, id, rating);
    assert forall k | k in s.registry :: k in t.registry;
    forall p | p in t.states ensures t.states[p].SearchingLadder? <==> HasSearch(t.registry, p) {
      if p in players {
        assert (p, q) in t.registry;
      } else if HasSearch(t.registry, p) {
        var k :| k in t.registry && k.0 == p;
        assert k in s.registry;
      }
    }
  }

  lemma {:induction false} OpenQueued(s: State, players: seq<Player>, q: QueueName, id: SearchId, rating: real)
    requires Queued(s) && id !in s.records
    ensures Queued(Open(s, players, q, id, rating))
  {
    hide Register, SetStates;
  }

  lemma {:induction false} OpenSnapshots(s: State, players: seq<Player>, q: QueueName, id: SearchId, rating: real)
    requires SnapshotsFit(s) && id !in s.records
    ensures SnapshotsFit(Open(s, players, q, id, rating))
  {
    hide Register, SetStates;
    var t := Open(s, players, q, id, rating);
    forall r, x | r in t.snapshots && x in t.snapshots[r] ensures Snapped(t, r, x) {
      assert Snapped(s, r, x);
    }
  }

  lemma {:induction false} OpenHistory(s: State, players: seq<Player>, q: QueueName, id: SearchId, rating: real)
    requires HistoryFits(s)
    ensures HistoryFits(Open(s, players, q, id, rating))
  {
    hide SetStates;
    var t := Open(s, players, q, id, rating);
    assert t.history[..|s.history|] == s.history;
  }

  lemma {:induction false} StartKeeps(s: State, sizes: Sizes, players: seq<Player>, q: QueueName, id: SearchId,
      rating: real)
    requires Inv(s, sizes, {}) && id !in s.records
    requires q in sizes && 0 < |players| <= sizes[q] && Distinct(players)
    ensures Inv(StartSearch(s, players, q, id, rating), sizes, {})
  {
    hide Registered, StatesAgree, Queued, SnapshotsFit, HistoryFits, Settle, Register, SetStates;
    var before := TouchedIn(s.registry, players, q);
    CancelKeeps(s, sizes, {}, before);
    var t := Cancel(s, before);
    forall p | p in players ensures (p, q) !in t.registry {}
    OpenRegistered(t, players, q, id, rating);
    OpenStates(t, players, q, id, rating);
    OpenQueued(t, players, q, id, rating);
    OpenSnapshots(t, players, q, id, rating);
    OpenHistory(t, players, q, id, rating);
  }

  // ----- The tasks of the searches

  /** Two versions of a record that differ in the number of failed attempts only. */
  ghost predicate SameSearch(a: Record, b: Record) {
    a.queue == b.queue && a.players == b.players && a.rating == b.rating && a.status == b.status
  }

  ghost predicate SameSearches(s: State, t: State) {
    s.records.Keys == t.records.Keys && forall id | id in s.records :: SameSearch(s.records[id], t.records[id])
  }

  lemma {:induction false} SameRegistered(s: State, t: State, undelivered: set<SearchId>)
    requires Registered(s, undelivered) && t.registry == s.registry && SameSearches(s, t)
    ensures Registered(t, undelivered)
  {
    forall id, p | Live(t, id, undelivered) && p in t.records[id].players
      ensures var k := (p, t.records[id].queue); k in t.registry && t.registry[k] == id
    {
      assert Live(s, id, undelivered) && p in s.records[id].players;
    }
  }

  lemma {:induction false} SameSnapshots(s: State, t: State)
    requires SnapshotsFit(s) && t.starting <= s.starting && t.snapshots == s.snapshots && SameSearches(s, t)
    ensures SnapshotsFit(t)
  {
    forall q, x | q in t.snapshots && x in t.snapshots[q] ensures Snapped(t, q, x) {
      assert Snapped(s, q, x);
    }
  }

  /** What is left to show of a transition that only moves searches between the start and the queues. */
  lemma {:induction false} OnlyQueuesChange(s: State, t: State, sizes: Sizes, undelivered: set<SearchId>)
    requires Inv(s, sizes, undelivered) && Queued(t)
    requires t.registry == s.registry && t.states == s.states && t.history == s.history
    requires t.starting <= s.starting && t.snapshots == s.snapshots && SameSearches(s, t)
    ensures Inv(t, sizes, undelivered)
  {
    hide Queued, Registered, SnapshotsFit, LastStarted, NoDoubleDelivery, HasSearch;
    SameRegistered(s, t, undelivered);
    SameSnapshots(s, t);
  }

  lemma {:induction false} RunTaskQueues(s: State, id: SearchId)
    requires QueuesFit(s) && id in s.starting && id in s.records
    ensures QueuesFit(RunTask(s, id))
  {
    var q := s.records[id].queue;
    if q in s.queues {
      DistinctSnoc(s.queues[q], id);
    } else {
      assert Distinct([id]) by { assert [id][1..] == []; }
    }
    hide Distinct;
  }

  lemma {:induction false} RunTaskQueued(s: State, id: SearchId)
    requires Queued(s) && id in s.starting
    ensures Queued(RunTask(s, id)) && SameSearches(s, RunTask(s, id))
  {
    RunTaskQueues(s, id);
    hide QueuesFit, OpenWaits;
  }

  lemma {:induction false} StartingKnown(s: State, sizes: Sizes, id: SearchId)
    requires Inv(s, sizes, {}) && id in s.starting
    ensures id in s.records && Queued(s)
  {}

  lemma {:induction false} RunTaskKeeps(s: State, sizes: Sizes, id: SearchId)
    requires Inv(s, sizes, {}) && id in s.starting
    ensures id in s.records && Inv(RunTask(s, id), sizes, {})
  {
    hide Inv, Queued, SameSearches;
    StartingKnown(s, sizes, id);
    RunTaskQueued(s, id);
    OnlyQueuesChange(s, RunTask(s, id), sizes, {});
  }

  lemma {:induction false} FinishTaskQueued(s: State, id: SearchId)
    requires Queued(s) && id in s.records && !s.records[id].status.Pending? && id in QueueOf(s, s.records[id].queue)
    ensures Queued(FinishTask(s, id)) && SameSearches(s, FinishTask(s, id))
  {
    WithoutDistinct(QueueOf(s, s.records[id].queue), id);
    hide Distinct, Without;
  }

  lemma {:induction false} InvQueued(s: State, sizes: Sizes)
    requires Inv(s, sizes, {})
    ensures Queued(s)
  {}

  lemma {:induction false} FinishTaskKeeps(s: State, sizes: Sizes, id: SearchId)
    requires Inv(s, sizes, {}) && id in s.records && !s.records[id].status.Pending?
    requires id in QueueOf(s, s.records[id].queue)
    ensures Inv(FinishTask(s, id), sizes, {})
  {
    hide Inv, Queued, SameSearches, Without;
    InvQueued(s, sizes);
    FinishTaskQueued(s, id);
    OnlyQueuesChange(s, FinishTask(s, id), sizes, {});
  }

  // ----- The first half of a pop

  lemma {:induction false} FailKeeps(s: State, sizes: Sizes, undelivered: set<SearchId>, unmatched: seq<Search>)
    requires Inv(s, sizes, undelivered)
    ensures Inv(s.(records := FailAttempt(s.records, unmatched)), sizes, undelivered)
  {
    hide LastStarted, NoDoubleDelivery, HasSearch, Registered, SnapshotsFit, StatesAgree, CountId;
    OnlyQueuesChange(s, s.(records := FailAttempt(s.records, unmatched)), sizes, undelivered);
  }

  lemma {:induction false} ListingFits(records: map<SearchId, Record>, ids: seq<SearchId>)
    requires Distinct(ids) && forall id | id in ids :: id in records
    ensures Distinct(Listing(records, ids))
    ensures forall x :: x in Listing(records, ids) <==> x.id in ids && x == SearchOf(x.id, records[x.id])
    decreases |ids|
  {
    if ids != [] {
      var n := |ids| - 1;
      DistinctInit(ids);
      ListingFits(records, ids[..n]);
      DistinctSnoc(Listing(records, ids[..n]), SearchOf(ids[n], records[ids[n]]));
      assert ids == ids[..n] + [ids[n]];
    }
  }

  /** The searches of a queue can be handed to the matchmaker if none of them is matched. */
  lemma {:induction false} ListSnapshot(s: State, q: QueueName)
    requires Queued(s) && SnapshotsFit(s)
    requires forall id | id in QueueOf(s, q) :: id in s.records && !s.records[id].status.Matched?
    ensures SnapshotsFit(s.(snapshots := s.snapshots[q := Listing(s.records, QueueOf(s, q))]))
  {
    var searches := Listing(s.records, QueueOf(s, q));
    var t := s.(snapshots := s.snapshots[q := searches]);
    ListingFits(s.records, QueueOf(s, q));
    forall r, x | r in t.snapshots && x in t.snapshots[r] ensures Snapped(t, r, x) {
      if r != q { assert Snapped(s, r, x); }
    }
  }

  lemma {:induction false} PopKeeps(s: State, sizes: Sizes, q: QueueName)
    requires Inv(s, sizes, {}) && q in sizes
    requires forall id | id in QueueOf(s, q) :: id in s.records && !s.records[id].status.Matched?
    ensures Inv(Pop(s, q, sizes[q]), sizes, {})
  {
    hide LastStarted, NoDoubleDelivery, HasSearch, FailAttempt, SnapshotsFit, Registered;
    var searches := Listing(s.records, QueueOf(s, q));
    if Players(searches) < 2 * sizes[q] {
      FailKeeps(s, sizes, {}, searches);
    } else {
      ListSnapshot(s, q);
      SameRegistered(s, Pop(s, q, sizes[q]), {});
    }
  }
}
