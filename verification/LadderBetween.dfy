/** A pop of a queue with anything happening between its two halves. */
module LadderBetween {
  import opened Lists
  import opened Searches
  import opened LadderState
  import opened LadderInvariants
  import opened LadderPop
  import opened LadderEffects
  import opened LadderRuns

  // ----- What other steps leave alone

  /** The searches of the queue keep everything but their status. */
  ghost predicate OnlyStatus(a: map<SearchId, Record>, b: map<SearchId, Record>, q: QueueName) {
    forall id | id in a && a[id].queue == q :: id in b && b[id] == a[id].(status := b[id].status)
  }

  lemma {:induction false} OnlyStatusTwice(a: map<SearchId, Record>, b: map<SearchId, Record>, c: map<SearchId, Record>,
      q: QueueName)
    requires OnlyStatus(a, b, q) && OnlyStatus(b, c, q)
    ensures OnlyStatus(a, c, q)
  {
    forall id | id in a && a[id].queue == q ensures id in c && c[id] == a[id].(status := c[id].status) {
      assert b[id].queue == q;
    }
  }

  lemma {:induction false} MarkEachStatus(s: State, q: QueueName, teamSize: nat, matches: seq<Match>, r: QueueName)
    ensures OnlyStatus(s.records, MarkEach(s, q, teamSize, matches).records, r)
    decreases |matches|
  {
    hide LeaveQueue, Ids;
    if matches != [] {
      var n := |matches| - 1;
      var t := MarkEach(s, q, teamSize, matches[..n]);
      MarkEachStatus(s, q, teamSize, matches[..n], r);
      OnlyStatusTwice(s.records, t.records, Mark(t, q, teamSize, matches[n]).records, r);
    }
  }

  lemma {:induction false} DeliverEachStatus(s: State, matches: seq<Match>, r: QueueName)
    ensures OnlyStatus(s.records, DeliverEach(s, matches).records, r)
    decreases |matches|
  {
    hide Members, Touched, Drop, Settle, SetStates, Ids, SearchesOf;
    if matches != [] {
      var n := |matches| - 1;
      var t := DeliverEach(s, matches[..n]);
      DeliverEachStatus(s, matches[..n], r);
      OnlyStatusTwice(s.records, t.records, Deliver(t, matches[n]).records, r);
    }
  }

  /** Failures are counted for searches of one queue only. */
  lemma {:induction false} FailElsewhere(records: map<SearchId, Record>, failed: seq<Search>, q: QueueName,
      r: QueueName)
    requires q != r && forall x | x in failed :: x.id in records && records[x.id].queue == q
    ensures OnlyStatus(records, FailAttempt(records, failed), r)
  {
    hide CountId;
    forall id | id in records && records[id].queue == r ensures CountId(failed, id) == 0 {
      NotCounted(failed, id);
    }
  }

  lemma {:induction false} CommitElsewhere(s: State, sizes: Sizes, q: QueueName, proposed: seq<Match>,
      unmatched: seq<Search>, r: QueueName)
    requires Inv(s, sizes, {}) && q != r && q in sizes && Proposal(s, q, proposed, unmatched)
    ensures OnlyStatus(s.records, Commit(s, q, sizes[q], proposed, unmatched).records, r)
  {
    var matches, failed := Accepted(s.records, proposed), unmatched + Rejected(s.records, proposed);
    var before := s.(snapshots := s.snapshots - {q});
    var marked := MarkEach(before, q, sizes[q], matches);
    forall x | x in failed ensures Snapped(s, q, x) {
      AcceptedOrFailed(s, q, proposed, unmatched, x);
      OccursIn(failed, x);
      OccursIn(s.snapshots[q], x);
    }
    hide Inv, Accepted, Rejected, Proposal, MarkEach, FailAttempt, DeliverEach;
    MarkEachStatus(before, q, sizes[q], matches, q);
    MarkEachStatus(before, q, sizes[q], matches, r);
    FailElsewhere(marked.records, failed, q, r);
    var counted := marked.(records := FailAttempt(marked.records, failed));
    DeliverEachStatus(counted, matches, r);
    OnlyStatusTwice(s.records, marked.records, counted.records, r);
    OnlyStatusTwice(s.records, counted.records, DeliverEach(counted, matches).records, r);
  }

  lemma {:induction false} PopElsewhere(s: State, sizes: Sizes, q: QueueName, r: QueueName)
    requires Inv(s, sizes, {}) && q != r && q in sizes && Drained(s, q)
    ensures OnlyStatus(s.records, Pop(s, q, sizes[q]).records, r)
  {
    var list := Listing(s.records, QueueOf(s, q));
    assert Distinct(QueueOf(s, q));
    ListingFits(s.records, QueueOf(s, q));
    forall x | x in list ensures x.id in s.records && s.records[x.id].queue == q {
      assert x.id in QueueOf(s, q);
    }
    hide Listing, FailAttempt, Inv;
    FailElsewhere(s.records, list, q, r);
  }

  lemma {:induction false} CancelElsewhere(s: State, searches: set<SearchId>, q: QueueName)
    ensures OnlyStatus(s.records, Cancel(s, searches).records, q)
  {
    hide Drop, Settle;
  }

  lemma {:induction false} StartElsewhere(s: State, players: seq<Player>, r: QueueName, id: SearchId, rating: real,
      q: QueueName)
    requires id !in s.records
    ensures OnlyStatus(s.records, StartSearch(s, players, r, id, rating).records, q)
  {
    hide Drop, Settle, Register, SetStates, TouchedIn;
  }

  lemma {:induction false} SameElsewhere(s: State, t: State, q: QueueName)
    requires t.records == s.records
    ensures OnlyStatus(s.records, t.records, q)
  {}

  lemma {:induction false} TaskElsewhere(s: State, id: SearchId, q: QueueName)
    requires id in s.records
    ensures OnlyStatus(s.records, RunTask(s, id).records, q)
    ensures id in QueueOf(s, s.records[id].queue) ==> OnlyStatus(s.records, FinishTask(s, id).records, q)
  {}

  /** Not a half of a pop of this queue. */
  predicate Elsewhere(step: Step, q: QueueName) {
    match step
    case PopQueue(r) => r != q
    case CommitPop(r, proposed, unmatched) => r != q
    case AbandonPop(r) => r != q
    case _ => true
  }

  lemma {:induction false} ProposalOf(s: State, sizes: Sizes, q: QueueName, proposed: seq<Match>,
      unmatched: seq<Search>)
    requires q in sizes && q in s.snapshots && IsPairing(s.snapshots[q], sizes[q], proposed, unmatched)
    ensures Proposal(s, q, proposed, unmatched)
  {}

  lemma {:induction false} ListElsewhere(before: map<QueueName, seq<Search>>, after: map<QueueName, seq<Search>>,
      step: Step, q: QueueName)
    requires SnapshotsChange(before, after, step) && Elsewhere(step, q) && q in before
    ensures q in after && after[q] == before[q]
  {
    match step
    case PopQueue(r) => assert q in before - {r};
    case CommitPop(r, proposed, unmatched) => assert q in before - {r};
    case AbandonPop(r) => assert q in before - {r};
    case _ =>
  }

  lemma {:induction false} StepElsewhere(s: State, sizes: Sizes, step: Step, q: QueueName)
    requires Inv(s, sizes, {}) && Enabled(s, sizes, step) && Elsewhere(step, q) && q in s.snapshots
    ensures var t := Apply(s, sizes, step);
      OnlyStatus(s.records, t.records, q) && q in t.snapshots && t.snapshots[q] == s.snapshots[q]
  {
    StepSnapshots(s, sizes, step);
    ListElsewhere(s.snapshots, Apply(s, sizes, step).snapshots, step, q);
    hide SnapshotsChange, Inv, Touched, TouchedIn, Cancel, StartSearch, Commit, Pop, Distinct, Drained, OnlyStatus,
         IsPairing, Proposal, QueueOf, RunTask, FinishTask;
    match step
    case Start(players, r, id, rating) => StartElsewhere(s, players, r, id, rating, q);
    case CancelIn(p, r) => CancelElsewhere(s, TouchedIn(s.registry, [p], r), q);
    case CancelEverywhere(p) => CancelElsewhere(s, Touched(s.registry, [p]), q);
    case Shutdown => CancelElsewhere(s, s.registry.Values, q);
    case Run(id) => TaskElsewhere(s, id, q);
    case Finish(id) => TaskElsewhere(s, id, q);
    case PopQueue(r) =>
      PopElsewhere(s, sizes, r, q);
    case CommitPop(r, proposed, unmatched) =>
      ProposalOf(s, sizes, r, proposed, unmatched);
      CommitElsewhere(s, sizes, r, proposed, unmatched, q);
    case _ => SameElsewhere(s, Apply(s, sizes, step), q);
  }

  lemma {:induction false} RunElsewhere(s: State, sizes: Sizes, steps: seq<Step>, q: QueueName)
    requires Inv(s, sizes, {}) && CanRun(s, sizes, steps) && q in s.snapshots
    requires forall step | step in steps :: Elsewhere(step, q)
    ensures var t := After(s, sizes, steps);
      OnlyStatus(s.records, t.records, q) && q in t.snapshots && t.snapshots[q] == s.snapshots[q]
    decreases |steps|
  {
    hide Inv, Enabled, Apply;
    if steps != [] {
      var t := Apply(s, sizes, steps[0]);
      StepKeeps(s, sizes, steps[0]);
      StepElsewhere(s, sizes, steps[0], q);
      RunElsewhere(t, sizes, steps[1..], q);
      OnlyStatusTwice(s.records, t.records, After(t, sizes, steps[1..]).records, q);
    }
  }

  // ----- The whole pop

  /** The search has got opponents, or one more failed attempt. */
  ghost predicate OneResult(before: Record, after: Record) {
    && !before.status.Matched?
    && after.attempts == before.attempts + if after.status.Matched? then 0 else 1
  }

  /**
   * Whatever the service does while the matchmaker works on a queue's list, its answer can be used, and every search
   * that was waiting at the beginning has exactly one result at the end: opponents, if it is in a proposed match none
   * of whose searches has been cancelled meanwhile, and one more failed attempt otherwise.
   */
  lemma {:induction false} InterleavedPop(s: State, sizes: Sizes, q: QueueName, steps: seq<Step>,
      proposed: seq<Match>, unmatched: seq<Search>)
    requires Inv(s, sizes, {}) && Enabled(s, sizes, PopQueue(q))
    requires var t := Pop(s, q, sizes[q]);
      && q in t.snapshots && CanRun(t, sizes, steps) && (forall step | step in steps :: Elsewhere(step, q))
      && IsPairing(t.snapshots[q], sizes[q], proposed, unmatched)
    ensures var u := After(Pop(s, q, sizes[q]), sizes, steps);
      && Enabled(u, sizes, CommitPop(q, proposed, unmatched))
      && var v := Commit(u, q, sizes[q], proposed, unmatched);
         && Inv(v, sizes, {})
         && forall id | id in QueueOf(s, q) ::
              && id in s.records && id in v.records && OneResult(s.records[id], v.records[id])
              && (v.records[id].status.Matched?
                  <==> SearchOf(id, s.records[id]) in Flatten(Accepted(u.records, proposed)))
  {
    hide Inv, Accepted, Commit, Flatten, IsPairing, Listing, OneOutcome, Elsewhere, CanRun, After;
    var t := Pop(s, q, sizes[q]);
    var u := After(t, sizes, steps);
    PopKeeps(s, sizes, q);
    RunKeeps(t, sizes, steps);
    RunElsewhere(t, sizes, steps, q);
    ProposalOf(u, sizes, q, proposed, unmatched);
    CommitOutcome(u, sizes, q, sizes[q], proposed, unmatched);
    var v := Commit(u, q, sizes[q], proposed, unmatched);
    forall id | id in QueueOf(s, q)
      ensures id in s.records && id in v.records && OneResult(s.records[id], v.records[id])
      ensures v.records[id].status.Matched? <==> SearchOf(id, s.records[id]) in Flatten(Accepted(u.records, proposed))
    {
      WaitingListed(s, sizes, q, id);
      ResultOfCommit(u.records[id], v.records[id], Accepted(u.records, proposed), SearchOf(id, s.records[id]));
    }
  }

  lemma {:induction false} WaitingListed(s: State, sizes: Sizes, q: QueueName, id: SearchId)
    requires Inv(s, sizes, {}) && Drained(s, q) && id in QueueOf(s, q)
    ensures id in s.records && s.records[id].queue == q && !s.records[id].status.Matched?
    ensures SearchOf(id, s.records[id]) in Listing(s.records, QueueOf(s, q))
  {
    assert Distinct(s.queues[q]);
    ListingFits(s.records, QueueOf(s, q));
  }

  lemma {:induction false} ResultOfCommit(before: Record, after: Record, matches: seq<Match>, x: Search)
    requires OneOutcome(before, after, matches, x)
    ensures after.status.Matched? <==> x in Flatten(matches)
    ensures after.attempts == before.attempts + if after.status.Matched? then 0 else 1
  {}
}
