/** The second half of a queue pop: matches are marked, failures are counted, matched players are delivered. */
module LadderCommit {
  import opened Lists
  import opened Searches
  import opened LadderState
  import opened LadderInvariants

  /** A search that a commit on queue `q` can match. */
  ghost predicate Ready(s: State, q: QueueName, x: Search) {
    && x.id in s.records && s.records[x.id].queue == q && x == SearchOf(x.id, s.records[x.id])
    && s.records[x.id].status.Pending? && x.id !in s.starting
  }

  ghost predicate AllReady(s: State, q: QueueName, searches: seq<Search>) {
    forall x | x in searches :: Ready(s, q, x)
  }

  // ----- Marking one match

  lemma {:induction false} MarkRegistered(s: State, undelivered: set<SearchId>, q: QueueName, teamSize: nat, m: Match)
    requires Registered(s, undelivered) && AllReady(s, q, SearchesOf(m))
    ensures Registered(Mark(s, q, teamSize, m), undelivered + Ids(SearchesOf(m)))
  {
    var t, after := Mark(s, q, teamSize, m), undelivered + Ids(SearchesOf(m));
    forall id ensures Live(t, id, after) <==> Live(s, id, undelivered) {
      if id in Ids(SearchesOf(m)) {
        var x :| x in SearchesOf(m) && x.id == id;
        assert Ready(s, q, x);
      } else {
        assert forall x | x in m.a || x in m.b :: x in SearchesOf(m);
      }
    }
    forall id, p | Live(t, id, after) && p in t.records[id].players
      ensures var k := (p, t.records[id].queue); k in t.registry && t.registry[k] == id
    {
      assert Live(s, id, undelivered) && p in s.records[id].players;
    }
  }

  lemma {:induction false} LeaveQueueKeeps(queue: seq<SearchId>, m: Match)
    requires Distinct(queue)
    ensures Distinct(LeaveQueue(queue, m))
    ensures forall id :: id in LeaveQueue(queue, m) <==> id in queue && id !in Ids(m.a) && id !in Ids(m.b)
    decreases |queue|
  {
    hide Ids;
    if queue != [] {
      var n := |queue| - 1;
      DistinctInit(queue);
      LeaveQueueKeeps(queue[..n], m);
      var rest := LeaveQueue(queue[..n], m);
      DistinctSnoc(rest, queue[n]);
      assert rest + [] == rest;
      assert queue == queue[..n] + [queue[n]];
    }
  }

  lemma {:induction false} MarkStarting(s: State, q: QueueName, teamSize: nat, m: Match)
    requires StartingFit(s) && AllReady(s, q, SearchesOf(m))
    ensures StartingFit(Mark(s, q, teamSize, m))
  {
    assert forall x | x in m.a || x in m.b :: x in SearchesOf(m) && Ready(s, q, x);
  }

  lemma {:induction false} MarkQueues(s: State, q: QueueName, teamSize: nat, m: Match)
    requires QueuesFit(s)
    ensures QueuesFit(Mark(s, q, teamSize, m))
  {
    if q in s.queues { LeaveQueueKeeps(s.queues[q], m); }
    hide LeaveQueue, Ids, Distinct;
  }

  lemma {:induction false} MarkWaits(s: State, q: QueueName, teamSize: nat, m: Match)
    requires OpenWaits(s) && QueuesFit(s)
    ensures OpenWaits(Mark(s, q, teamSize, m))
  {
    if q in s.queues { LeaveQueueKeeps(s.queues[q], m); }
    hide LeaveQueue, Ids, QueuesFit;
  }

  lemma {:induction false} MarkQueued(s: State, q: QueueName, teamSize: nat, m: Match)
    requires Queued(s) && AllReady(s, q, SearchesOf(m))
    ensures Queued(Mark(s, q, teamSize, m))
  {
    MarkStarting(s, q, teamSize, m);
    MarkQueues(s, q, teamSize, m);
    MarkWaits(s, q, teamSize, m);
  }

  lemma {:induction false} MarkSnapshots(s: State, q: QueueName, teamSize: nat, m: Match)
    requires SnapshotsFit(s) && AllReady(s, q, SearchesOf(m)) && q !in s.snapshots
    ensures SnapshotsFit(Mark(s, q, teamSize, m))
  {
    var t := Mark(s, q, teamSize, m);
    forall r, x | r in t.snapshots && x in t.snapshots[r] ensures Snapped(t, r, x) {
      assert Snapped(s, r, x);
      assert forall y | y in m.a || y in m.b :: y in SearchesOf(m) && Ready(s, q, y);
    }
  }

  lemma {:induction false} MarkKeeps(s: State, sizes: Sizes, undelivered: set<SearchId>, q: QueueName, teamSize: nat,
      m: Match)
    requires Inv(s, sizes, undelivered) && AllReady(s, q, SearchesOf(m)) && q !in s.snapshots
    ensures Inv(Mark(s, q, teamSize, m), sizes, undelivered + Ids(SearchesOf(m)))
  {
    hide Registered, Queued, SnapshotsFit, AllReady, LastStarted, NoDoubleDelivery, HasSearch, LeaveQueue;
    MarkRegistered(s, undelivered, q, teamSize, m);
    MarkQueued(s, q, teamSize, m);
    MarkSnapshots(s, q, teamSize, m);
  }

  // ----- Marking all accepted matches

  /** A mark resolves the searches of the match, each with the other side, and changes nothing else of any record. */
  lemma {:induction false} MarkRecords(s: State, q: QueueName, teamSize: nat, m: Match, id: SearchId)
    requires id in s.records
    ensures var t := Mark(s, q, teamSize, m);
      && t.records.Keys == s.records.Keys
      && t.records[id] == s.records[id].(status :=
           if id in Ids(m.a) then Matched(m.b) else if id in Ids(m.b) then Matched(m.a) else s.records[id].status)
  {}

  lemma {:induction false} FlattenInit(matches: seq<Match>)
    requires matches != [] && Distinct(Flatten(matches))
    ensures var n := |matches| - 1;
      && Flatten(matches) == Flatten(matches[..n]) + SearchesOf(matches[n])
      && Distinct(Flatten(matches[..n]))
      && forall x | x in SearchesOf(matches[n]) :: x !in Flatten(matches[..n])
  {
    DistinctParts(Flatten(matches[..|matches| - 1]), SearchesOf(matches[|matches| - 1]));
  }

  lemma {:induction false} MarkEachKeeps(s: State, sizes: Sizes, q: QueueName, teamSize: nat, matches: seq<Match>)
    requires Inv(s, sizes, {}) && q !in s.snapshots
    requires Distinct(Flatten(matches)) && AllReady(s, q, Flatten(matches))
    ensures var t := MarkEach(s, q, teamSize, matches);
      && Inv(t, sizes, Ids(Flatten(matches)))
      && t.records.Keys == s.records.Keys
      && t.registry == s.registry && t.states == s.states && t.starting == s.starting
      && t.snapshots == s.snapshots && t.history == s.history
      && forall id | id in s.records && id !in Ids(Flatten(matches)) :: t.records[id] == s.records[id]
    decreases |matches|
  {
    hide Inv, Ready;
    if matches != [] {
      var n := |matches| - 1;
      var m, t := matches[n], MarkEach(s, q, teamSize, matches[..n]);
      FlattenInit(matches);
      MarkEachKeeps(s, sizes, q, teamSize, matches[..n]);
      forall x | x in SearchesOf(m) ensures Ready(t, q, x) {
        StillReady(s, t, q, Flatten(matches[..n]), x);
      }
      MarkKeeps(t, sizes, Ids(Flatten(matches[..n])), q, teamSize, m);
      assert Ids(Flatten(matches)) == Ids(Flatten(matches[..n])) + Ids(SearchesOf(m));
    } else {
      assert Ids(Flatten(matches)) == {};
    }
  }

  lemma {:induction false} StillReady(s: State, t: State, q: QueueName, before: seq<Search>, x: Search)
    requires AllReady(s, q, before) && Ready(s, q, x) && x !in before
    requires t.records.Keys == s.records.Keys && t.starting == s.starting
    requires forall id | id in s.records && id !in Ids(before) :: t.records[id] == s.records[id]
    ensures Ready(t, q, x)
  {
    forall y | y in before ensures y.id != x.id {
      assert Ready(s, q, y);
    }
  }

  // ----- Delivering one match

  lemma {:induction false} MembersIn(records: map<SearchId, Record>, team: seq<Search>, p: Player)
    ensures p in Members(records, team) <==> exists x | x in team :: x.id in records && p in records[x.id].players
    decreases |team|
  {
    if team != [] {
      var n := |team| - 1;
      MembersIn(records, team[..n], p);
      assert team == team[..n] + [team[n]];
    }
  }

  /** These searches have been matched in queue `q`. */
  ghost predicate MatchedIn(s: State, q: QueueName, searches: set<SearchId>) {
    forall id | id in searches :: id in s.records && s.records[id].queue == q && s.records[id].status.Matched?
  }

  /**
   * The searches touched by the players of a match that is about to be delivered: the match's own, and open searches
   * in other queues. In particular no other undelivered match is touched.
   */
  ghost predicate TouchesOwn(s: State, q: QueueName, own: set<SearchId>, players: seq<Player>) {
    var touched := Touched(s.registry, players);
    && own <= touched
    && (forall id | id in touched && id !in own ::
          id in s.records && s.records[id].status.Pending? && s.records[id].queue != q)
    && (forall k | k in s.registry && s.registry[k] in own :: k.0 in players)
  }

  lemma {:induction false} DeliveryTouches(s: State, sizes: Sizes, undelivered: set<SearchId>, q: QueueName, m: Match)
    requires Registered(s, undelivered) && RecordsFit(s, sizes) && MatchedIn(s, q, undelivered)
    requires Ids(SearchesOf(m)) <= undelivered
    ensures TouchesOwn(s, q, Ids(SearchesOf(m)), Members(s.records, SearchesOf(m)))
  {
    var team := SearchesOf(m);
    var own, players := Ids(team), Members(s.records, team);
    hide Members, SearchesOf;
    forall id, p | id in own && p in s.records[id].players ensures p in players {
      MembersIn(s.records, team, p);
    }
    forall id | id in own ensures id in Touched(s.registry, players) {
      var p := s.records[id].players[0];
      assert Live(s, id, undelivered) && (p, q) in s.registry;
    }
    forall k | k in s.registry && k.0 in players && k.1 == q ensures s.registry[k] in own {
      MembersIn(s.records, team, k.0);
      var x :| x in team && x.id in s.records && k.0 in s.records[x.id].players;
      assert x.id in own;
    }
  }

  lemma {:induction false} DeliverRegistered(s: State, undelivered: set<SearchId>, q: QueueName, m: Match)
    requires Registered(s, undelivered) && MatchedIn(s, q, undelivered) && Ids(SearchesOf(m)) <= undelivered
    requires TouchesOwn(s, q, Ids(SearchesOf(m)), Members(s.records, SearchesOf(m)))
    ensures Registered(Deliver(s, m), undelivered - Ids(SearchesOf(m)))
  {
    hide Members, SearchesOf, Ids, Settle, SetStates;
    var t, own := Deliver(s, m), Ids(SearchesOf(m));
    forall id, p | Live(t, id, undelivered - own) && p in t.records[id].players
      ensures var k := (p, t.records[id].queue); k in t.registry && t.registry[k] == id
    {
      assert Live(s, id, undelivered) && p in s.records[id].players;
    }
  }

  lemma {:induction false} DeliverStates(s: State, m: Match)
    requires StatesAgree(s)
    ensures StatesAgree(Deliver(s, m))
    ensures forall p | p in Members(s.records, SearchesOf(m)) ::
      !HasSearch(Deliver(s, m).registry, p) && p in Deliver(s, m).states && Deliver(s, m).states[p] == StartingAutomatch
  {
    hide SearchesOf, Ids, Members, CancelRecords;
    var t, players := Deliver(s, m), Members(s.records, SearchesOf(m));
    forall p | p in t.states && p !in players ensures t.states[p].SearchingLadder? <==> HasSearch(t.registry, p) {
      if HasSearch(t.registry, p) {
        var k :| k in t.registry && k.0 == p;
        assert k in s.registry;
      }
    }
  }

  lemma {:induction false} DeliverHistory(s: State, undelivered: set<SearchId>, m: Match)
    requires Registered(s, undelivered) && HistoryFits(s) && Ids(SearchesOf(m)) <= undelivered
    requires forall id | id in undelivered :: id in s.records
    ensures HistoryFits(Deliver(s, m))
  {
    hide Members, CancelRecords, Settle, SetStates;
    var t, players := Deliver(s, m), Members(s.records, SearchesOf(m));
    assert t.history[..|s.history|] == s.history;
    forall p | p in players ensures LastStarted(s.history, p) {
      MembersIn(s.records, SearchesOf(m), p);
      var x :| x in SearchesOf(m) && x.id in s.records && p in s.records[x.id].players;
      assert Live(s, x.id, undelivered) && (p, s.records[x.id].queue) in s.registry;
    }
  }

  lemma {:induction false} DeliverKeeps(s: State, sizes: Sizes, undelivered: set<SearchId>, q: QueueName, m: Match)
    requires Inv(s, sizes, undelivered) && MatchedIn(s, q, undelivered) && Ids(SearchesOf(m)) <= undelivered
    ensures Inv(Deliver(s, m), sizes, undelivered - Ids(SearchesOf(m)))
  {
    var own, players := Ids(SearchesOf(m)), Members(s.records, SearchesOf(m));
    var others := Touched(s.registry, players) - own;
    hide Registered, StatesAgree, Queued, SnapshotsFit, HistoryFits, Members, Ids, SearchesOf, Settle, SetStates,
         TouchesOwn;
    DeliveryTouches(s, sizes, undelivered, q, m);
    DeliverRegistered(s, undelivered, q, m);
    DeliverStates(s, m);
    DeliverHistory(s, undelivered, m);
    CancelQueued(s, others);
    CancelSnapshots(s, others);
    var cancelled, t := Cancel(s, others), Deliver(s, m);
    SameQueued(cancelled, t);
    SameSnapshots(cancelled, t);
  }

  lemma {:induction false} SameQueued(s: State, t: State)
    requires Queued(s) && t.records == s.records && t.queues == s.queues && t.starting == s.starting
    ensures Queued(t)
  {}

  // ----- Delivering all accepted matches

  /** Deliveries resolve nothing but searches of other queues, which they cancel. */
  ghost predicate OnlyCancels(s: State, t: State, q: QueueName) {
    && t.records.Keys == s.records.Keys
    && forall id | id in s.records ::
         t.records[id] == s.records[id]
         || (s.records[id].queue != q && s.records[id].status.Pending?
             && t.records[id] == s.records[id].(status := Cancelled))
  }

  /** A matched player has left the registry and waits for the game to start. */
  ghost predicate Gone(s: State, p: Player) {
    !HasSearch(s.registry, p) && p in s.states && s.states[p] == StartingAutomatch
  }

  ghost predicate Described(records: map<SearchId, Record>, searches: seq<Search>) {
    forall x | x in searches :: x.id in records && x == SearchOf(x.id, records[x.id])
  }

  lemma {:induction false} MembersSame(a: map<SearchId, Record>, b: map<SearchId, Record>, team: seq<Search>)
    requires a.Keys == b.Keys && forall id | id in a :: a[id].players == b[id].players
    ensures Members(a, team) == Members(b, team)
    decreases |team|
  {
    if team != [] { MembersSame(a, b, team[..|team| - 1]); }
  }

  lemma {:induction false} DeliverCancels(s: State, q: QueueName, m: Match)
    requires TouchesOwn(s, q, Ids(SearchesOf(m)), Members(s.records, SearchesOf(m)))
    ensures OnlyCancels(s, Deliver(s, m), q)
  {
    hide Members, SearchesOf, Ids, Settle, SetStates;
  }

  lemma {:induction false} StaysGone(s: State, m: Match, p: Player)
    requires Gone(s, p)
    ensures Gone(Deliver(s, m), p)
  {
    hide Members, SearchesOf, Ids, CancelRecords;
  }

  lemma {:induction false} DeliverEachKeeps(s: State, sizes: Sizes, undelivered: set<SearchId>, q: QueueName,
      matches: seq<Match>)
    requires Inv(s, sizes, undelivered) && MatchedIn(s, q, undelivered) && Ids(Flatten(matches)) <= undelivered
    requires Distinct(Flatten(matches)) && Described(s.records, Flatten(matches))
    ensures var t := DeliverEach(s, matches);
      && Inv(t, sizes, undelivered - Ids(Flatten(matches)))
      && OnlyCancels(s, t, q)
      && forall p | p in Members(s.records, Flatten(matches)) :: Gone(t, p)
    decreases |matches|
  {
    hide Inv, OnlyCancels, Gone, MatchedIn, Described;
    if matches == [] {
      NothingDelivered(s, undelivered, q);
    } else {
      var n := |matches| - 1;
      var m, t := matches[n], DeliverEach(s, matches[..n]);
      var before := Flatten(matches[..n]);
      FlattenInit(matches);
      SplitDescribed(s.records, before, SearchesOf(m));
      DeliverEachKeeps(s, sizes, undelivered, q, matches[..n]);
      DeliverNext(s, t, sizes, undelivered, q, before, m);
      forall p | p in Members(s.records, Flatten(matches)) ensures Gone(Deliver(t, m), p) {
        MembersConcat(s.records, before, SearchesOf(m), p);
        if p in Members(s.records, before) { StaysGone(t, m, p); }
      }
    }
  }

  lemma {:induction false} NothingDelivered(s: State, undelivered: set<SearchId>, q: QueueName)
    ensures OnlyCancels(s, s, q) && undelivered - Ids([]) == undelivered
  {}

  lemma {:induction false} SplitDescribed(records: map<SearchId, Record>, before: seq<Search>, own: seq<Search>)
    requires Described(records, before + own)
    ensures Described(records, before) && Described(records, own)
    ensures Ids(before + own) == Ids(before) + Ids(own)
  {
    assert forall x | x in before || x in own :: x in before + own;
  }

  lemma {:induction false} MembersConcat(records: map<SearchId, Record>, a: seq<Search>, b: seq<Search>, p: Player)
    ensures p in Members(records, a + b) <==> p in Members(records, a) || p in Members(records, b)
  {
    MembersIn(records, a + b, p);
    MembersIn(records, a, p);
    MembersIn(records, b, p);
  }

  /** One more delivery, `t` being the state after those of the searches `before`. */
  lemma {:induction false} DeliverNext(s: State, t: State, sizes: Sizes, undelivered: set<SearchId>, q: QueueName,
      before: seq<Search>, m: Match)
    requires Inv(t, sizes, undelivered - Ids(before)) && OnlyCancels(s, t, q) && MatchedIn(s, q, undelivered)
    requires Described(s.records, before) && Described(s.records, SearchesOf(m))
    requires Ids(before + SearchesOf(m)) <= undelivered && forall x | x in SearchesOf(m) :: x !in before
    ensures Inv(Deliver(t, m), sizes, undelivered - Ids(before + SearchesOf(m)))
    ensures OnlyCancels(s, Deliver(t, m), q)
    ensures forall p | p in Members(s.records, SearchesOf(m)) :: Gone(Deliver(t, m), p)
  {
    var own, rest := SearchesOf(m), undelivered - Ids(before);
    hide Registered, Queued, SnapshotsFit, HistoryFits, Members, SearchesOf, TouchesOwn, HasSearch;
    SplitDescribed(s.records, before, own);
    hide Described, Ids, Deliver, StatesAgree, RecordsFit;
    assert MatchedIn(t, q, rest);
    DeliverKeeps(t, sizes, rest, q, m);
    DeliveryTouches(t, sizes, rest, q, m);
    DeliverCancels(t, q, m);
    DeliverStates(t, m);
    MembersSame(s.records, t.records, own);
    assert rest - Ids(own) == undelivered - Ids(before + own);
  }
}
