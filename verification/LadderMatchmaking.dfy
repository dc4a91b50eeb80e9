/** A whole queue pop: the service, the matchmaker's answer, and what became of every search that waited. */
module LadderMatchmaking {
  import opened Lists
  import opened Searches
  import opened MatchingGraph
  import opened Matchmaking
  import opened LadderState
  import opened LadderInvariants
  import opened LadderPop
  import opened LadderEffects
  import opened LadderRuns
  import opened LadderServiceModule

  /** What a queue hands to the matchmaker is something the matchmaker can work on. */
  lemma {:induction false} SnapshotPlayable(s: State, sizes: Sizes, q: QueueName)
    requires Inv(s, sizes, {}) && q in s.snapshots && q in sizes
    ensures Playable(s.snapshots[q], sizes[q])
  {
    forall x | x in s.snapshots[q] ensures 0 < x.players <= sizes[q] {
      assert Snapped(s, q, x);
    }
  }

  /** A pop that finds too few players fails every waiting search once and changes nothing else. */
  lemma {:induction false} ShortPop(s: State, sizes: Sizes, q: QueueName, id: SearchId)
    requires Inv(s, sizes, {}) && q in sizes && id in s.records
    requires forall i | i in QueueOf(s, q) :: i in s.records
    requires Players(Listing(s.records, QueueOf(s, q))) < 2 * sizes[q]
    ensures Pop(s, q, sizes[q]).records.Keys == s.records.Keys
    ensures Pop(s, q, sizes[q]).records[id]
      == s.records[id].(attempts := s.records[id].attempts + if id in QueueOf(s, q) then 1 else 0)
  {
    var ids := QueueOf(s, q);
    var x, list := SearchOf(id, s.records[id]), Listing(s.records, ids);
    assert Distinct(ids) by { if q in s.queues { assert Distinct(s.queues[q]); } }
    ListingFits(s.records, ids);
    CountIsOccurrences(s.records, list, x);
    DistinctOnce(list, x);
  }

  /** The pop that stops early loses no match: with fewer players than two teams need there is none. */
  lemma {:induction false} TooFewPlayers(searches: seq<Search>, teamSize: nat, matches: seq<Match>,
      unmatched: seq<Search>)
    requires IsPairing(searches, teamSize, matches, unmatched) && Players(searches) < 2 * teamSize
    ensures matches == []
  {
    if matches != [] {
      var n := |matches| - 1;
      PlayersPermutation(Flatten(matches) + unmatched, searches);
      PlayersConcat(Flatten(matches), unmatched);
      PlayersConcat(Flatten(matches[..n]), SearchesOf(matches[n]));
      PlayersConcat(matches[n].a, matches[n].b);
    }
  }

  /** The search was resolved with opponents, or failed once more and stayed as it was. */
  ghost predicate PopOutcome(before: Record, after: Record) {
    || (after.status.Matched? && !before.status.Matched? && after.attempts == before.attempts)
    || (after.status == before.status && !after.status.Matched? && after.attempts == before.attempts + 1)
  }

  /** All searches of a queue had one outcome each between two states. */
  ghost predicate AllPopped(s: State, t: State, q: QueueName) {
    forall id | id in QueueOf(s, q) :: id in s.records && id in t.records && PopOutcome(s.records[id], t.records[id])
  }

  ghost predicate CanPop(s: State, q: QueueName) {
    q !in s.snapshots && Drained(s, q)
  }

  lemma {:induction false} ShortPopAll(s: State, sizes: Sizes, q: QueueName)
    requires Inv(s, sizes, {}) && CanPop(s, q) && q in sizes
    ensures q !in Pop(s, q, sizes[q]).snapshots ==> AllPopped(s, Pop(s, q, sizes[q]), q)
  {
    hide Inv, FailAttempt, Listing;
    if q !in Pop(s, q, sizes[q]).snapshots {
      forall id | id in QueueOf(s, q)
        ensures id in Pop(s, q, sizes[q]).records && PopOutcome(s.records[id], Pop(s, q, sizes[q]).records[id])
      {
        ShortPop(s, sizes, q, id);
      }
    }
  }

  /** The two halves of a pop without anything in between. */
  lemma {:induction false} WholePop(s: State, sizes: Sizes, q: QueueName, proposed: seq<Match>, unmatched: seq<Search>)
    requires Inv(s, sizes, {}) && CanPop(s, q) && q in sizes
    requires Proposal(Pop(s, q, sizes[q]), q, proposed, unmatched)
    ensures AllPopped(s, Commit(Pop(s, q, sizes[q]), q, sizes[q], proposed, unmatched), q)
  {
    hide Inv, Accepted, Commit, Flatten, Listing, OneOutcome;
    var t := Pop(s, q, sizes[q]);
    var u := Commit(t, q, sizes[q], proposed, unmatched);
    PopKeeps(s, sizes, q);
    CommitOutcome(t, sizes, q, sizes[q], proposed, unmatched);
    forall id | id in QueueOf(s, q) ensures id in u.records && PopOutcome(s.records[id], u.records[id]) {
      QueueListed(s, sizes, q, id);
      OutcomeOfCommit(t.records[id], u.records[id], Accepted(t.records, proposed), SearchOf(id, s.records[id]));
    }
  }

  lemma {:induction false} QueueListed(s: State, sizes: Sizes, q: QueueName, id: SearchId)
    requires Inv(s, sizes, {}) && CanPop(s, q) && id in QueueOf(s, q)
    ensures SearchOf(id, s.records[id]) in Listing(s.records, QueueOf(s, q))
  {
    assert Distinct(s.queues[q]);
    ListingFits(s.records, QueueOf(s, q));
  }

  lemma {:induction false} OutcomeOfCommit(before: Record, after: Record, matches: seq<Match>, x: Search)
    requires OneOutcome(before, after, matches, x) && !before.status.Matched?
    ensures PopOutcome(before, after)
  {}

  ghost predicate AllPending(s: State, q: QueueName) {
    forall id | id in QueueOf(s, q) :: id in s.records && s.records[id].status.Pending?
  }

  /** Two waiting searches accept each other. */
  ghost predicate SomePairFits(s: State, q: QueueName, scale: Scale) {
    exists i, j :: i in QueueOf(s, q) && j in QueueOf(s, q) && i != j && i in s.records && j in s.records
                   && Acceptable(scale, SearchOf(i, s.records[i]), SearchOf(j, s.records[j]))
  }

  /** If nothing has been cancelled, every proposed match goes through. */
  lemma {:induction false} NothingCancelled(records: map<SearchId, Record>, proposed: seq<Match>)
    requires forall x | x in Flatten(proposed) :: x.id in records && !records[x.id].status.Cancelled?
    ensures Accepted(records, proposed) == proposed
    decreases |proposed|
  {
    if proposed != [] {
      var n := |proposed| - 1;
      assert Flatten(proposed) == Flatten(proposed[..n]) + SearchesOf(proposed[n]);
      NothingCancelled(records, proposed[..n]);
      assert forall x | x in proposed[n].a || x in proposed[n].b :: x in SearchesOf(proposed[n]);
      assert proposed == proposed[..n] + [proposed[n]];
    }
  }

  /** Two waiting searches are as many players as two single opponents need. */
  lemma {:induction false} TwoWait(records: map<SearchId, Record>, ids: seq<SearchId>, i: SearchId, j: SearchId)
    requires forall id | id in ids :: id in records && |records[id].players| > 0
    requires i in ids && j in ids && i != j
    ensures PlayersWaiting(records, ids) >= 2
    decreases |ids|
  {
    if ids[0] == i || ids[0] == j {
      var other := if ids[0] == i then j else i;
      assert ids == [ids[0]] + ids[1..] && other in ids[1..];
      OneWaits(records, ids[1..], other);
    } else {
      assert ids == [ids[0]] + ids[1..];
      TwoWait(records, ids[1..], i, j);
    }
  }

  lemma {:induction false} OneWaits(records: map<SearchId, Record>, ids: seq<SearchId>, i: SearchId)
    requires (forall id | id in ids :: id in records && |records[id].players| > 0) && i in ids
    ensures PlayersWaiting(records, ids) >= 1
  {}

  ghost predicate SomeoneMatched(records: map<SearchId, Record>, ids: seq<SearchId>) {
    exists id | id in ids :: id in records && records[id].status.Matched?
  }

  /** The matchmaker finds somebody if two of the listed searches accept each other. */
  lemma {:induction false} SomebodyFound(list: seq<Search>, scale: Scale, averageMean: Search -> real,
      proposed: seq<Match>, a: Search, b: Search)
    requires OpponentsFound(list, scale, averageMean, proposed) && |list| < 30
    requires a in list && b in list && a != b && Acceptable(scale, a, b)
    ensures proposed != []
  {
    hide PairedAtSomeTime, AcceptedPair, Acceptable, NumToCheck;
    assert Compared(list, averageMean, a, b);
  }

  lemma {:induction false} PairListed(s: State, sizes: Sizes, q: QueueName, scale: Scale) returns (a: Search, b: Search)
    requires Inv(s, sizes, {}) && CanPop(s, q) && SomePairFits(s, q, scale)
    ensures var list := Listing(s.records, QueueOf(s, q));
      |list| == |QueueOf(s, q)| && a in list && b in list && a != b && Acceptable(scale, a, b)
  {
    var i, j :| i in QueueOf(s, q) && j in QueueOf(s, q) && i != j && i in s.records && j in s.records
                && Acceptable(scale, SearchOf(i, s.records[i]), SearchOf(j, s.records[j]));
    a, b := SearchOf(i, s.records[i]), SearchOf(j, s.records[j]);
    hide Inv, Acceptable, Listing;
    QueueListed(s, sizes, q, i);
    QueueListed(s, sizes, q, j);
    ListingLists(s.records, QueueOf(s, q));
  }

  /** A match that is proposed goes through if nobody has cancelled. */
  lemma {:induction false} ProposedMatched(t: State, sizes: Sizes, q: QueueName, ids: seq<SearchId>,
      proposed: seq<Match>, unmatched: seq<Search>)
    requires Inv(t, sizes, {}) && Proposal(t, q, proposed, unmatched) && proposed != []
    requires forall i | 0 <= i < |proposed| :: Players(proposed[i].a) == 1
    requires forall x | x in t.snapshots[q] :: x.id in ids && x.id in t.records && t.records[x.id].status.Pending?
    ensures SomeoneMatched(Commit(t, q, 1, proposed, unmatched).records, ids)
  {
    ProposedListed(t.snapshots[q], proposed, unmatched);
    hide Inv, Commit, Accepted, Permutation, SearchesOf;
    NothingCancelled(t.records, proposed);
    var x := FirstProposed(proposed);
    hide Flatten;
    CommitOutcome(t, sizes, q, 1, proposed, unmatched);
    assert x in t.snapshots[q];
    var u := Commit(t, q, 1, proposed, unmatched);
    assert OneOutcome(t.records[x.id], u.records[x.id], proposed, x);
  }

  /**
   * Two single players who accept each other are enough for a match: the matchmaker is asked, it finds somebody, and
   * the match goes through.
   */
  lemma {:induction false} SomebodyMatched(s: State, sizes: Sizes, q: QueueName, scale: Scale,
      averageMean: Search -> real, proposed: seq<Match>, unmatched: seq<Search>)
    requires Inv(s, sizes, {}) && CanPop(s, q) && q in sizes && sizes[q] == 1
    requires AllPending(s, q) && SomePairFits(s, q, scale) && |QueueOf(s, q)| < 30
    requires var t := Pop(s, q, 1);
      q in t.snapshots && IsPairing(t.snapshots[q], 1, proposed, unmatched)
      && OpponentsFound(t.snapshots[q], scale, averageMean, proposed)
    ensures SomeoneMatched(Commit(Pop(s, q, 1), q, 1, proposed, unmatched).records, QueueOf(s, q))
  {
    var t := Pop(s, q, 1);
    PopKeeps(s, sizes, q);
    assert t.snapshots[q] == Listing(s.records, QueueOf(s, q)) && t.records == s.records;
    var a, b := PairListed(s, sizes, q, scale);
    SomebodyFound(t.snapshots[q], scale, averageMean, proposed, a, b);
    ListedPending(s, q);
    hide Inv, AllPending, CanPop, SomePairFits, OpponentsFound, Pop, Listing, Commit, Flatten;
    ProposedMatched(t, sizes, q, QueueOf(s, q), proposed, unmatched);
  }

  lemma {:induction false} FirstProposed(proposed: seq<Match>) returns (x: Search)
    requires proposed != [] && forall i | 0 <= i < |proposed| :: Players(proposed[i].a) == 1
    ensures x in Flatten(proposed)
  {
    var n := |proposed| - 1;
    assert proposed[n].a != [];
    x := proposed[n].a[0];
    assert Flatten(proposed) == Flatten(proposed[..n]) + SearchesOf(proposed[n]);
  }

  lemma {:induction false} ProposedListed(searches: seq<Search>, proposed: seq<Match>, unmatched: seq<Search>)
    requires Permutation(Flatten(proposed) + unmatched, searches)
    ensures forall x | x in Flatten(proposed) :: x in searches
  {
    forall x | x in Flatten(proposed) ensures x in searches {
      OccursIn(Flatten(proposed) + unmatched, x);
      OccursIn(searches, x);
    }
  }

  lemma {:induction false} ListedPending(s: State, q: QueueName)
    requires AllPending(s, q)
    ensures forall x | x in Listing(s.records, QueueOf(s, q)) ::
      x.id in QueueOf(s, q) && x.id in s.records && s.records[x.id].status.Pending?
  {
    ListingLists(s.records, QueueOf(s, q));
    var ids, list := QueueOf(s, q), Listing(s.records, QueueOf(s, q));
    forall x | x in list ensures x.id in ids && x.id in s.records && s.records[x.id].status.Pending? {
      var i :| 0 <= i < |list| && list[i] == x;
      assert ids[i] in ids;
    }
  }

  /**
   * A pop of one queue. The matchmaker runs on the list that the service took; every search that was waiting gets
   * exactly one opponent or one more failed attempt.
   */
  method FindMatches(service: LadderService, q: QueueName, quality: Match -> real, scale: Scale,
      averageMean: Search -> real)
    requires service.Valid() && q in service.sizes && CanPop(service.Now(), q) && Sound(scale)
    modifies service
    ensures service.Valid() && q !in service.snapshots
    ensures AllPopped(old(service.Now()), service.Now(), q)
    ensures PlayersWaiting(old(service.records), QueueOf(old(service.Now()), q)) >= 2 * service.sizes[q] ==>
      exists list, proposed, unmatched ::
        && Describes(list, old(service.records), QueueOf(old(service.Now()), q))
        && Answers(list, service.sizes[q], quality, scale, averageMean, proposed, unmatched)
        && service.Now() == Commit(old(service.Now()).(snapshots := old(service.snapshots)[q := list]), q,
                                   service.sizes[q], proposed, unmatched)
    ensures service.sizes[q] == 1 && |QueueOf(old(service.Now()), q)| < 30
            && AllPending(old(service.Now()), q) && SomePairFits(old(service.Now()), q, scale) ==>
      SomeoneMatched(service.records, QueueOf(old(service.Now()), q))
  {
    hide Inv, AllPopped, Pop, Commit, Playable, Sound, PlayersWaiting, Answers, Describes, AllPending, SomePairFits,
         Pops,
         SomeoneMatched;
    ghost var s := service.Now();
    var sizes := service.sizes;
    ShortPopAll(s, sizes, q);
    PairWaits(s, sizes, q, scale);
    var searching := service.BeginPop(q);
    if !searching {
      return;
    }
    AskedWith(s, service.Now(), q, sizes[q]);
    SnapshotPlayable(service.Now(), sizes, q);
    ghost var list := service.snapshots[q];
    var proposed, unmatched := Find(service.snapshots[q], sizes[q], quality, scale, averageMean);
    AnswerPairs(list, sizes[q], quality, scale, averageMean, proposed, unmatched);
    WholePop(s, sizes, q, proposed, unmatched);
    CommitSnapshots(service.Now(), q, sizes[q], proposed, unmatched);
    if sizes[q] == 1 && |QueueOf(s, q)| < 30 && AllPending(s, q) && SomePairFits(s, q, scale) {
      SomebodyMatched(s, sizes, q, scale, averageMean, proposed, unmatched);
    }
    service.FinishPop(q, proposed, unmatched);
  }

  lemma {:induction false} PairWaits(s: State, sizes: Sizes, q: QueueName, scale: Scale)
    requires Inv(s, sizes, {}) && CanPop(s, q)
    ensures SomePairFits(s, q, scale) ==> PlayersWaiting(s.records, QueueOf(s, q)) >= 2
  {
    if SomePairFits(s, q, scale) {
      var i, j :| i in QueueOf(s, q) && j in QueueOf(s, q) && i != j && i in s.records && j in s.records
                  && Acceptable(scale, SearchOf(i, s.records[i]), SearchOf(j, s.records[j]));
      TwoWait(s.records, QueueOf(s, q), i, j);
    }
  }

  lemma {:induction false} AskedWith(s: State, t: State, q: QueueName, teamSize: nat)
    requires forall id | id in QueueOf(s, q) :: id in s.records
    requires t == Pop(s, q, teamSize) && q in t.snapshots && q !in s.snapshots
    ensures t == s.(snapshots := s.snapshots[q := t.snapshots[q]])
    ensures Describes(t.snapshots[q], s.records, QueueOf(s, q))
  {
    ListingLists(s.records, QueueOf(s, q));
  }

  lemma {:induction false} AnswerPairs(searches: seq<Search>, teamSize: nat, quality: Match -> real, scale: Scale,
      averageMean: Search -> real, matches: seq<Match>, unmatched: seq<Search>)
    requires Answers(searches, teamSize, quality, scale, averageMean, matches, unmatched)
    ensures IsPairing(searches, teamSize, matches, unmatched)
    ensures teamSize == 1 ==> OpponentsFound(searches, scale, averageMean, matches)
  {}
}
