/** What a queue pop does to the searches of its snapshot and to everybody else. */
module LadderPop {
  import opened Lists
  import opened Searches
  import opened LadderState
  import opened LadderInvariants
  import opened LadderCommit

  /** The matchmaker has answered the snapshot of queue `q`: every search of it is in one match or unmatched. */
  ghost predicate Proposal(s: State, q: QueueName, proposed: seq<Match>, unmatched: seq<Search>) {
    q in s.snapshots && Permutation(Flatten(proposed) + unmatched, s.snapshots[q])
  }

  /** Every search of the snapshot is accepted, or fails once. */
  lemma {:induction false} AcceptedOrFailed(s: State, q: QueueName, proposed: seq<Match>, unmatched: seq<Search>,
      x: Search)
    requires Proposal(s, q, proposed, unmatched)
    ensures Occurrences(Flatten(Accepted(s.records, proposed)), x)
        + Occurrences(unmatched + Rejected(s.records, proposed), x) == Occurrences(s.snapshots[q], x)
  {
    OccurrencesConcat(Flatten(proposed), unmatched, x);
    OccurrencesConcat(unmatched, Rejected(s.records, proposed), x);
    SplitProposed(s.records, proposed, x);
  }

  lemma {:induction false} SplitProposed(records: map<SearchId, Record>, proposed: seq<Match>, x: Search)
    ensures Occurrences(Flatten(Accepted(records, proposed)), x) + Occurrences(Rejected(records, proposed), x)
         == Occurrences(Flatten(proposed), x)
    decreases |proposed|
  {
    hide Alive;
    if proposed != [] {
      var n := |proposed| - 1;
      var m := proposed[n];
      var accepted, rejected := Accepted(records, proposed[..n]), Rejected(records, proposed[..n]);
      SplitProposed(records, proposed[..n], x);
      OccurrencesConcat(Flatten(proposed[..n]), SearchesOf(m), x);
      if Alive(records, m) {
        assert (accepted + [m])[..|accepted|] == accepted && rejected + [] == rejected;
        OccurrencesConcat(Flatten(accepted), SearchesOf(m), x);
      } else {
        assert accepted + [] == accepted;
        OccurrencesConcat(rejected, SearchesOf(m), x);
      }
    }
  }

  /** A proposed match goes through exactly if none of its searches has been cancelled since the snapshot. */
  lemma {:induction false} AcceptedExactly(records: map<SearchId, Record>, proposed: seq<Match>, m: Match)
    ensures m in Accepted(records, proposed)
      <==> m in proposed && forall x | x in SearchesOf(m) :: Uncancelled(records, x)
    decreases |proposed|
  {
    hide Uncancelled;
    AliveIff(records, m);
    if proposed != [] {
      var n := |proposed| - 1;
      AcceptedExactly(records, proposed[..n], m);
      assert proposed == proposed[..n] + [proposed[n]];
    }
  }

  lemma {:induction false} AliveIff(records: map<SearchId, Record>, m: Match)
    ensures Alive(records, m) <==> forall x | x in SearchesOf(m) :: Uncancelled(records, x)
  {
    assert forall x :: x in SearchesOf(m) <==> x in m.a || x in m.b;
  }

  ghost predicate Uncancelled(records: map<SearchId, Record>, x: Search) {
    x.id in records ==> !records[x.id].status.Cancelled?
  }

  lemma {:induction false} AliveUncancelled(records: map<SearchId, Record>, m: Match, x: Search)
    requires Alive(records, m) && x in SearchesOf(m)
    ensures Uncancelled(records, x)
  {}

  lemma {:induction false} AcceptedAlive(records: map<SearchId, Record>, proposed: seq<Match>, x: Search)
    requires x in Flatten(Accepted(records, proposed))
    ensures Uncancelled(records, x)
    decreases |proposed|
  {
    hide Alive, Uncancelled, SearchesOf;
    var n := |proposed| - 1;
    var m, accepted := proposed[n], Accepted(records, proposed[..n]);
    assert accepted + [] == accepted && (accepted + [m])[..|accepted|] == accepted;
    if x in Flatten(accepted) {
      AcceptedAlive(records, proposed[..n], x);
    } else {
      AliveUncancelled(records, m, x);
    }
  }

  /** The accepted searches can be matched: nobody else has matched them since the snapshot. */
  lemma {:induction false} AcceptedReady(s: State, q: QueueName, proposed: seq<Match>, unmatched: seq<Search>)
    requires SnapshotsFit(s) && Proposal(s, q, proposed, unmatched)
    ensures AllReady(s, q, Flatten(Accepted(s.records, proposed)))
    ensures Distinct(Flatten(Accepted(s.records, proposed)))
    ensures Described(s.records, Flatten(Accepted(s.records, proposed)))
  {
    var accepted := Flatten(Accepted(s.records, proposed));
    hide Accepted, Flatten, Rejected;
    forall x ensures Occurrences(accepted, x) <= Occurrences(s.snapshots[q], x) <= 1 {
      AcceptedOrFailed(s, q, proposed, unmatched, x);
      DistinctOnce(s.snapshots[q], x);
    }
    OnceDistinct(accepted);
    forall x | x in accepted ensures Ready(s, q, x) {
      OccursIn(accepted, x);
      OccursIn(s.snapshots[q], x);
      assert Snapped(s, q, x);
      AcceptedAlive(s.records, proposed, x);
    }
  }

  /** The state with all accepted matches marked and all failures counted, before anybody is told. */
  function Marked(s: State, q: QueueName, teamSize: nat, proposed: seq<Match>, unmatched: seq<Search>): State {
    var marked := MarkEach(s.(snapshots := s.snapshots - {q}), q, teamSize, Accepted(s.records, proposed));
    marked.(records := FailAttempt(marked.records, unmatched + Rejected(s.records, proposed)))
  }

  lemma {:induction false} ForgetSnapshot(s: State, sizes: Sizes, q: QueueName, searches: seq<Search>)
    requires Inv(s, sizes, {}) && AllReady(s, q, searches)
    ensures Inv(s.(snapshots := s.snapshots - {q}), sizes, {})
    ensures AllReady(s.(snapshots := s.snapshots - {q}), q, searches)
  {
    hide LastStarted, NoDoubleDelivery, HasSearch, Registered;
    var t := s.(snapshots := s.snapshots - {q});
    SameRegistered(s, t, {});
    forall r, x | r in t.snapshots && x in t.snapshots[r] ensures Snapped(t, r, x) {
      assert Snapped(s, r, x);
    }
    forall x | x in searches ensures Ready(t, q, x) { assert Ready(s, q, x); }
  }

  lemma {:induction false} MarkedKeeps(s: State, sizes: Sizes, q: QueueName, teamSize: nat,
      proposed: seq<Match>, unmatched: seq<Search>)
    requires Inv(s, sizes, {}) && Proposal(s, q, proposed, unmatched)
    ensures var searches, t := Flatten(Accepted(s.records, proposed)), Marked(s, q, teamSize, proposed, unmatched);
      && Inv(t, sizes, Ids(searches)) && MatchedIn(t, q, Ids(searches)) && Described(t.records, searches)
      && Distinct(searches) && t.registry == s.registry && t.records.Keys == s.records.Keys
  {
    var matches, failed := Accepted(s.records, proposed), unmatched + Rejected(s.records, proposed);
    var searches, before := Flatten(matches), s.(snapshots := s.snapshots - {q});
    AcceptedReady(s, q, proposed, unmatched);
    ForgetSnapshot(s, sizes, q, searches);
    hide Inv, MarkEach, Accepted, Rejected, Flatten, FailAttempt, SearchesOf, Distinct, AllReady, Ready, Described,
         MatchedIn;
    MarkEachKeeps(before, sizes, q, teamSize, matches);
    MarkEachMatched(before, q, teamSize, matches);
    var marked := MarkEach(before, q, teamSize, matches);
    FailKeeps(marked, sizes, Ids(searches), failed);
    FailMatched(marked, q, searches, failed);
  }

  lemma {:induction false} MarkEachMatched(s: State, q: QueueName, teamSize: nat, matches: seq<Match>)
    requires Distinct(Flatten(matches)) && AllReady(s, q, Flatten(matches))
    ensures var t := MarkEach(s, q, teamSize, matches);
      MatchedIn(t, q, Ids(Flatten(matches))) && Described(t.records, Flatten(matches))
  {
    hide MarkEach, Flatten, Distinct;
    var searches, t := Flatten(matches), MarkEach(s, q, teamSize, matches);
    forall x | x in searches
      ensures x.id in t.records && x == SearchOf(x.id, t.records[x.id])
           && t.records[x.id].queue == q && t.records[x.id].status.Matched?
    {
      MarkEachResolves(s, q, teamSize, matches, x);
      assert Ready(s, q, x);
    }
  }

  lemma {:induction false} FailMatched(s: State, q: QueueName, searches: seq<Search>, failed: seq<Search>)
    requires MatchedIn(s, q, Ids(searches)) && Described(s.records, searches)
    ensures var t := s.(records := FailAttempt(s.records, failed));
      MatchedIn(t, q, Ids(searches)) && Described(t.records, searches) && t.records.Keys == s.records.Keys
  {
    hide CountId;
  }

  /** `x` has been resolved with the other side of its match. */
  ghost predicate MatchedBy(status: Status, matches: seq<Match>, x: Search) {
    exists m | m in matches :: (x in m.a && status == Matched(m.b)) || (x in m.b && status == Matched(m.a))
  }

  /** Marking resolves every search of the matches with the other side of its own match. */
  lemma {:induction false} MarkEachResolves(s: State, q: QueueName, teamSize: nat, matches: seq<Match>, x: Search)
    requires Distinct(Flatten(matches)) && AllReady(s, q, Flatten(matches)) && x in Flatten(matches)
    ensures var t := MarkEach(s, q, teamSize, matches);
      && t.records.Keys == s.records.Keys && x.id in t.records
      && MatchedBy(t.records[x.id].status, matches, x)
      && t.records[x.id] == s.records[x.id].(status := t.records[x.id].status)
    decreases |matches|
  {
    var n := |matches| - 1;
    var m, t := matches[n], MarkEach(s, q, teamSize, matches[..n]);
    assert Ready(s, q, x);
    FlattenInit(matches);
    MarkEachOnly(s, q, teamSize, matches[..n], x.id);
    MarkRecords(t, q, teamSize, m, x.id);
    forall y | y in Flatten(matches) && y.id == x.id ensures y == x { assert Ready(s, q, y); }
    if x in Flatten(matches[..n]) {
      assert x !in SearchesOf(m);
      assert forall y | y in m.a || y in m.b :: y in SearchesOf(m);
      MarkEachResolves(s, q, teamSize, matches[..n], x);
      var own :| own in matches[..n] && ((x in own.a && t.records[x.id].status == Matched(own.b))
                                      || (x in own.b && t.records[x.id].status == Matched(own.a)));
      assert own in matches;
    } else {
      assert forall y | y in SearchesOf(m) && y.id == x.id :: y == x;
      assert x.id !in Ids(Flatten(matches[..n]));
      assert forall y | y in m.a || y in m.b :: y in SearchesOf(m);
      assert m in matches;
    }
  }

  lemma {:induction false} MarkEachOnly(s: State, q: QueueName, teamSize: nat, matches: seq<Match>, id: SearchId)
    requires id in s.records
    ensures var t := MarkEach(s, q, teamSize, matches);
      t.records.Keys == s.records.Keys && (id !in Ids(Flatten(matches)) ==> t.records[id] == s.records[id])
    decreases |matches|
  {
    if matches != [] {
      var n := |matches| - 1;
      MarkEachOnly(s, q, teamSize, matches[..n], id);
      MarkRecords(MarkEach(s, q, teamSize, matches[..n]), q, teamSize, matches[n], id);
      assert forall x | x in matches[n].a || x in matches[n].b || x in Flatten(matches[..n]) :: x in Flatten(matches);
    }
  }

  // ----- The outcome

  lemma {:induction false} CountIsOccurrences(records: map<SearchId, Record>, searches: seq<Search>, x: Search)
    requires Described(records, searches) && x.id in records && x == SearchOf(x.id, records[x.id])
    ensures CountId(searches, x.id) == Occurrences(searches, x)
    decreases |searches|
  {
    if searches != [] {
      var n := |searches| - 1;
      assert searches == searches[..n] + [searches[n]];
      CountIsOccurrences(records, searches[..n], x);
      OccurrencesConcat(searches[..n], [searches[n]], x);
    }
  }

  /** A search of the snapshot got an opponent, or failed once more and has none. */
  ghost predicate OneOutcome(before: Record, after: Record, matches: seq<Match>, x: Search) {
    if x in Flatten(matches) then
      MatchedBy(after.status, matches, x) && after.attempts == before.attempts
    else
      after.status == before.status && !after.status.Matched? && after.attempts == before.attempts + 1
  }

  lemma {:induction false} MarkingOutcome(s: State, q: QueueName, teamSize: nat, matches: seq<Match>, x: Search)
    requires Distinct(Flatten(matches)) && AllReady(s, q, Flatten(matches)) && Snapped(s, q, x)
    ensures var t := MarkEach(s, q, teamSize, matches);
      && t.records.Keys == s.records.Keys
      && t.records[x.id] == s.records[x.id].(status := t.records[x.id].status)
      && if x in Flatten(matches) then MatchedBy(t.records[x.id].status, matches, x)
         else t.records[x.id].status == s.records[x.id].status
  {
    hide MatchedBy, MarkEach, Flatten, Distinct;
    if x in Flatten(matches) {
      MarkEachResolves(s, q, teamSize, matches, x);
    } else {
      forall y | y in Flatten(matches) ensures y.id != x.id { assert Ready(s, q, y); }
      MarkEachOnly(s, q, teamSize, matches, x.id);
    }
  }

  lemma {:induction false} FailureCount(s: State, q: QueueName, proposed: seq<Match>, unmatched: seq<Search>, x: Search)
    requires SnapshotsFit(s) && Proposal(s, q, proposed, unmatched) && x in s.snapshots[q]
    ensures CountId(unmatched + Rejected(s.records, proposed), x.id)
      == if x in Flatten(Accepted(s.records, proposed)) then 0 else 1
  {
    var matches, failed := Accepted(s.records, proposed), unmatched + Rejected(s.records, proposed);
    hide Accepted, Rejected, Flatten, CountId;
    assert Snapped(s, q, x);
    FailedDescribed(s, q, proposed, unmatched);
    CountIsOccurrences(s.records, failed, x);
    hide Described;
    AcceptedOrFailed(s, q, proposed, unmatched, x);
    DistinctOnce(s.snapshots[q], x);
    OccursIn(Flatten(matches), x);
  }

  lemma {:induction false} MarkedOutcome(s: State, q: QueueName, teamSize: nat,
      proposed: seq<Match>, unmatched: seq<Search>, x: Search)
    requires SnapshotsFit(s) && Proposal(s, q, proposed, unmatched) && x in s.snapshots[q]
    ensures var t := Marked(s, q, teamSize, proposed, unmatched);
      x.id in s.records && x.id in t.records && s.records[x.id].queue == q == t.records[x.id].queue
      && OneOutcome(s.records[x.id], t.records[x.id], Accepted(s.records, proposed), x)
  {
    var matches := Accepted(s.records, proposed);
    var before := s.(snapshots := s.snapshots - {q});
    assert Snapped(s, q, x);
    AcceptedReady(s, q, proposed, unmatched);
    hide Accepted, Rejected, Flatten, CountId, Distinct, Proposal, MarkEach, MatchedBy, SnapshotsFit;
    forall y | y in Flatten(matches) ensures Ready(before, q, y) { assert Ready(s, q, y); }
    assert Snapped(before, q, x);
    MarkingOutcome(before, q, teamSize, matches, x);
    FailureCount(s, q, proposed, unmatched, x);
  }

  lemma {:induction false} FailedDescribed(s: State, q: QueueName, proposed: seq<Match>, unmatched: seq<Search>)
    requires SnapshotsFit(s) && Proposal(s, q, proposed, unmatched)
    ensures Described(s.records, unmatched + Rejected(s.records, proposed))
  {
    var failed := unmatched + Rejected(s.records, proposed);
    hide Rejected, Accepted, Flatten;
    forall x | x in failed ensures Snapped(s, q, x) {
      AcceptedOrFailed(s, q, proposed, unmatched, x);
      OccursIn(failed, x);
      OccursIn(s.snapshots[q], x);
    }
  }

  /**
   * The second half of a pop keeps the invariant, gives every search of the snapshot either exactly one opponent or one
   * more failed attempt, and takes all matched players out of the registry, whatever happened since the first half.
   */
  lemma {:induction false} CommitOutcome(s: State, sizes: Sizes, q: QueueName, teamSize: nat,
      proposed: seq<Match>, unmatched: seq<Search>)
    requires Inv(s, sizes, {}) && Proposal(s, q, proposed, unmatched)
    ensures var matches, t := Accepted(s.records, proposed), Commit(s, q, teamSize, proposed, unmatched);
      && Inv(t, sizes, {})
      && t.records.Keys == s.records.Keys
      && (forall x | x in s.snapshots[q] ::
            x.id in s.records && OneOutcome(s.records[x.id], t.records[x.id], matches, x))
      && (forall p | p in Members(s.records, Flatten(matches)) :: Gone(t, p))
  {
    var matches := Accepted(s.records, proposed);
    var marked, t := Marked(s, q, teamSize, proposed, unmatched), Commit(s, q, teamSize, proposed, unmatched);
    var searches := Flatten(matches);
    MarkedKeeps(s, sizes, q, teamSize, proposed, unmatched);
    hide Marked, Inv, MatchedIn, Described, Accepted, Rejected, Flatten, OneOutcome, Gone, Distinct;
    DeliverEachKeeps(marked, sizes, Ids(searches), q, matches);
    assert Ids(searches) - Ids(searches) == {};
    assert t == DeliverEach(marked, matches);
    forall x | x in s.snapshots[q]
      ensures x.id in s.records && OneOutcome(s.records[x.id], t.records[x.id], matches, x)
    {
      MarkedOutcome(s, q, teamSize, proposed, unmatched, x);
    }
    MarkedPlayers(s, q, teamSize, proposed, unmatched);
    MembersSame(s.records, marked.records, searches);
  }

  lemma {:induction false} MarkedPlayers(s: State, q: QueueName, teamSize: nat, proposed: seq<Match>,
      unmatched: seq<Search>)
    ensures var t := Marked(s, q, teamSize, proposed, unmatched);
      t.records.Keys == s.records.Keys && forall id | id in s.records :: t.records[id].players == s.records[id].players
  {
    hide Accepted, Rejected, CountId;
    MarkEachPlayers(s.(snapshots := s.snapshots - {q}), q, teamSize, Accepted(s.records, proposed));
  }

  lemma {:induction false} MarkEachPlayers(s: State, q: QueueName, teamSize: nat, matches: seq<Match>)
    ensures var t := MarkEach(s, q, teamSize, matches);
      t.records.Keys == s.records.Keys && forall id | id in s.records :: t.records[id].players == s.records[id].players
    decreases |matches|
  {
    hide LeaveQueue, Ids;
    if matches != [] { MarkEachPlayers(s, q, teamSize, matches[..|matches| - 1]); }
  }

  // ----- Who is affected

  lemma {:induction false} MarkEachRegistry(s: State, q: QueueName, teamSize: nat, matches: seq<Match>)
    ensures var t := MarkEach(s, q, teamSize, matches); t.registry == s.registry && t.states == s.states
    decreases |matches|
  {
    if matches != [] { MarkEachRegistry(s, q, teamSize, matches[..|matches| - 1]); }
  }

  lemma {:induction false} DropTouched(registry: map<Key, SearchId>, a: seq<Player>, b: seq<Player>)
    ensures var rest := Drop(registry, Touched(registry, a));
      Drop(rest, Touched(rest, b)) == Drop(registry, Touched(registry, a + b))
  {
    var first := Touched(registry, a);
    var rest := Drop(registry, first);
    var second, both := Touched(rest, b), Touched(registry, a + b);
    forall k | k in registry ensures registry[k] in both <==> registry[k] in first || registry[k] in second {
      if registry[k] in both && registry[k] !in first {
        var j :| j in registry && j.0 in a + b && registry[j] == registry[k];
        assert j in rest && j.0 in b;
      }
    }
    assert Drop(rest, second) == Drop(registry, both);
  }

  lemma {:induction false} MembersAppend(records: map<SearchId, Record>, a: seq<Search>, b: seq<Search>)
    ensures Members(records, a + b) == Members(records, a) + Members(records, b)
    decreases |b|
  {
    if b == [] {
      assert a + b == a;
    } else {
      var n := |b| - 1;
      assert (a + b)[..|a| + n] == a + b[..n];
      MembersAppend(records, a, b[..n]);
    }
  }

  lemma {:induction false} DeliverEachRegistry(s: State, matches: seq<Match>)
    ensures var t := DeliverEach(s, matches);
      && t.registry == Drop(s.registry, Touched(s.registry, Members(s.records, Flatten(matches))))
      && t.records.Keys == s.records.Keys
      && forall id | id in s.records :: t.records[id].players == s.records[id].players
    decreases |matches|
  {
    if matches == [] {
      assert Drop(s.registry, Touched(s.registry, [])) == s.registry;
    } else {
      var n := |matches| - 1;
      var before, own := Flatten(matches[..n]), SearchesOf(matches[n]);
      var t := DeliverEach(s, matches[..n]);
      DeliverEachRegistry(s, matches[..n]);
      MembersSame(s.records, t.records, own);
      MembersAppend(s.records, before, own);
      hide Flatten, SearchesOf, Members, Drop, Touched, Settle, SetStates;
      DropTouched(s.registry, Members(s.records, before), Members(s.records, own));
      assert Flatten(matches) == before + own;
    }
  }

  /** A commit takes exactly the searches out of the registry that a matched player takes part in. */
  lemma {:induction false} CommitRegistry(s: State, q: QueueName, teamSize: nat, proposed: seq<Match>,
      unmatched: seq<Search>)
    ensures Commit(s, q, teamSize, proposed, unmatched).registry
      == Drop(s.registry, Touched(s.registry, Members(s.records, Flatten(Accepted(s.records, proposed)))))
  {
    var matches := Accepted(s.records, proposed);
    var marked := Marked(s, q, teamSize, proposed, unmatched);
    MarkedPlayers(s, q, teamSize, proposed, unmatched);
    MarkEachRegistry(s.(snapshots := s.snapshots - {q}), q, teamSize, matches);
    DeliverEachRegistry(marked, matches);
    MembersSame(s.records, marked.records, Flatten(matches));
  }

  /**
   * The two checks that come after the one for cancelled searches never fail: no side of a proposed match has been
   * matched already, and all of its players are searching.
   */
  lemma {:induction false} FailsafeHolds(s: State, sizes: Sizes, undelivered: set<SearchId>, q: QueueName,
      team: seq<Search>)
    requires Registered(s, undelivered) && StatesAgree(s) && AllReady(s, q, team)
    ensures forall p | p in Members(s.records, team) :: p in s.states && s.states[p] == SearchingLadder
    ensures forall x | x in team :: !s.records[x.id].status.Matched?
  {
    forall p | p in Members(s.records, team) ensures p in s.states && s.states[p] == SearchingLadder {
      MembersIn(s.records, team, p);
      var x :| x in team && x.id in s.records && p in s.records[x.id].players;
      assert Ready(s, q, x) && Live(s, x.id, undelivered);
      assert (p, q) in s.registry;
    }
    forall x | x in team ensures !s.records[x.id].status.Matched? { assert Ready(s, q, x); }
  }

  // ----- Halfway through a commit

  /** What the matchmaker proposes for a snapshot, up to some match, is a proposal with more unmatched searches. */
  lemma {:induction false} PrefixProposal(s: State, q: QueueName, proposed: seq<Match>, unmatched: seq<Search>, i: nat)
    requires Proposal(s, q, proposed, unmatched) && i <= |proposed|
    ensures Proposal(s, q, proposed[..i], Flatten(proposed[i..]) + unmatched)
  {
    FlattenConcat(proposed[..i], proposed[i..]);
    assert proposed == proposed[..i] + proposed[i..];
    assert Flatten(proposed[..i]) + (Flatten(proposed[i..]) + unmatched) == Flatten(proposed) + unmatched;
  }

  lemma {:induction false} HeadIn(proposed: seq<Match>, i: nat, x: Search)
    requires i < |proposed|
    ensures Occurrences(Flatten(proposed[i..]), x) >= Occurrences(SearchesOf(proposed[i]), x)
  {
    FlattenConcat([proposed[i]], proposed[i + 1..]);
    assert proposed[i..] == [proposed[i]] + proposed[i + 1..];
    assert Flatten([proposed[i]]) == SearchesOf(proposed[i]) by { assert [proposed[i]][..0] == []; }
    OccurrencesConcat(SearchesOf(proposed[i]), Flatten(proposed[i + 1..]), x);
  }

  /** The next proposed match when the ones before it have been dealt with: its searches are as they were. */
  lemma {:induction false} NextProposed(s: State, sizes: Sizes, q: QueueName, teamSize: nat,
      proposed: seq<Match>, unmatched: seq<Search>, i: nat)
    requires Inv(s, sizes, {}) && Proposal(s, q, proposed, unmatched) && i < |proposed|
    ensures var matches := Accepted(s.records, proposed[..i]);
      var t := MarkEach(s.(snapshots := s.snapshots - {q}), q, teamSize, matches);
      && Inv(t, sizes, Ids(Flatten(matches))) && q !in t.snapshots
      && Distinct(SearchesOf(proposed[i]))
      && (forall x | x in SearchesOf(proposed[i]) ::
            Snapped(t, q, x) && x.id in s.records && x.id in t.records && t.records[x.id] == s.records[x.id])
  {
    var rest := Flatten(proposed[i..]) + unmatched;
    var matches, before := Accepted(s.records, proposed[..i]), s.(snapshots := s.snapshots - {q});
    var searches, own := Flatten(matches), SearchesOf(proposed[i]);
    PrefixProposal(s, q, proposed, unmatched, i);
    AcceptedReady(s, q, proposed[..i], rest);
    ForgetSnapshot(s, sizes, q, searches);
    MarkEachKeeps(before, sizes, q, teamSize, matches);
    hide Flatten, Accepted, Rejected, SearchesOf, MarkEach, Distinct, Registered, StatesAgree, Queued, HistoryFits;
    forall x ensures Occurrences(own, x) <= 1 && (x in own ==> x in s.snapshots[q] && x !in searches) {
      AcceptedOrFailed(s, q, proposed[..i], rest, x);
      OccurrencesConcat(rest, Rejected(s.records, proposed[..i]), x);
      OccurrencesConcat(Flatten(proposed[i..]), unmatched, x);
      HeadIn(proposed, i, x);
      DistinctOnce(s.snapshots[q], x);
      OccursIn(own, x);
      OccursIn(searches, x);
    }
    OnceDistinct(own);
    forall x | x in own
      ensures Snapped(MarkEach(before, q, teamSize, matches), q, x)
      ensures MarkEach(before, q, teamSize, matches).records[x.id] == s.records[x.id]
    {
      assert Snapped(s, q, x);
      forall y | y in searches ensures y.id != x.id { assert Ready(before, q, y); }
    }
  }

  /** The next match to deliver when the ones before it have been delivered. */
  lemma {:induction false} NextDelivery(s: State, sizes: Sizes, q: QueueName, matches: seq<Match>, i: nat)
    requires Inv(s, sizes, Ids(Flatten(matches))) && MatchedIn(s, q, Ids(Flatten(matches)))
    requires Distinct(Flatten(matches)) && Described(s.records, Flatten(matches)) && i < |matches|
    ensures var left, t := Ids(Flatten(matches)) - Ids(Flatten(matches[..i])), DeliverEach(s, matches[..i]);
      && Inv(t, sizes, left) && MatchedIn(t, q, left) && Ids(SearchesOf(matches[i])) <= left
  {
    var before, own, after := Flatten(matches[..i]), SearchesOf(matches[i]), Flatten(matches[i + 1..]);
    FlattenConcat(matches[..i + 1], matches[i + 1..]);
    assert matches == matches[..i + 1] + matches[i + 1..] && matches[..i + 1][..i] == matches[..i];
    assert Flatten(matches[..i + 1]) == before + own;
    DistinctParts(before + own, after);
    DistinctParts(before, own);
    SplitDescribed(s.records, before + own, after);
    SplitDescribed(s.records, before, own);
    hide Inv, Flatten, SearchesOf, DeliverEach, Distinct, Described, Ids;
    DeliverEachKeeps(s, sizes, Ids(Flatten(matches)), q, matches[..i]);
  }
}
