/** Runs of the matchmaking service: any interleaving of its transitions, over any number of queues and players. */
module LadderRuns {
  import opened Lists
  import opened Searches
  import opened LadderState
  import opened LadderInvariants
  import opened LadderCommit
  import opened LadderPop
  import opened LadderEffects

  datatype Step =
    | Start(players: seq<Player>, queue: QueueName, id: SearchId, rating: real)
    | CancelIn(player: Player, queue: QueueName)
    | CancelEverywhere(player: Player)
    | Shutdown
    | Run(id: SearchId)
    | Finish(id: SearchId)
    | PopQueue(queue: QueueName)
    | CommitPop(queue: QueueName, proposed: seq<Match>, unmatched: seq<Search>)
    | AbandonPop(queue: QueueName)
    | Change(player: Player, state: PlayerState)

  /** All searches of the queue that have been matched have left it. */
  ghost predicate Drained(s: State, q: QueueName) {
    forall id | id in QueueOf(s, q) :: id in s.records && !s.records[id].status.Matched?
  }

  /**
   * A party is not larger than a team of its queue; a queue pops once at a time and after its matched searches have
   * left it; players who are searching are left alone by the rest of the server.
   */
  ghost predicate Enabled(s: State, sizes: Sizes, step: Step) {
    match step
    case Start(players, q, id, rating) =>
      id !in s.records && q in sizes && 0 < |players| <= sizes[q] && Distinct(players)
    case CancelIn(p, q) => true
    case CancelEverywhere(p) => true
    case Shutdown => true
    case Run(id) => id in s.starting && id in s.records
    case Finish(id) =>
      id in s.records && !s.records[id].status.Pending? && id in QueueOf(s, s.records[id].queue)
    case PopQueue(q) =>
      q in sizes && q !in s.snapshots && Drained(s, q)
    case CommitPop(q, proposed, unmatched) =>
      q in sizes && q in s.snapshots && IsPairing(s.snapshots[q], sizes[q], proposed, unmatched)
    case AbandonPop(q) => q in s.snapshots
    case Change(p, v) => (p in s.states ==> !s.states[p].SearchingLadder?) && !v.SearchingLadder?
  }

  ghost function Apply(s: State, sizes: Sizes, step: Step): State
    requires Enabled(s, sizes, step)
  {
    match step
    case Start(players, q, id, rating) => StartSearch(s, players, q, id, rating)
    case CancelIn(p, q) => Cancel(s, TouchedIn(s.registry, [p], q))
    case CancelEverywhere(p) => Cancel(s, Touched(s.registry, [p]))
    case Shutdown => Cancel(s, s.registry.Values)
    case Run(id) => RunTask(s, id)
    case Finish(id) => FinishTask(s, id)
    case PopQueue(q) => Pop(s, q, sizes[q])
    case CommitPop(q, proposed, unmatched) => Commit(s, q, sizes[q], proposed, unmatched)
    case AbandonPop(q) => s.(snapshots := s.snapshots - {q})
    case Change(p, v) => s.(states := s.states[p := v])
  }

  ghost predicate Initial(s: State) {
    && s.registry == map[] && s.records == map[] && s.queues == map[] && s.starting == {}
    && s.snapshots == map[] && s.history == []
    && forall p | p in s.states :: !s.states[p].SearchingLadder?
  }

  /** Every step of the run is enabled where it is taken. */
  ghost predicate CanRun(s: State, sizes: Sizes, steps: seq<Step>)
    decreases |steps|
  {
    steps == [] || (Enabled(s, sizes, steps[0]) && CanRun(Apply(s, sizes, steps[0]), sizes, steps[1..]))
  }

  ghost function After(s: State, sizes: Sizes, steps: seq<Step>): State
    requires CanRun(s, sizes, steps)
    decreases |steps|
  {
    if steps == [] then s else After(Apply(s, sizes, steps[0]), sizes, steps[1..])
  }

  lemma {:induction false} ChangeKeeps(s: State, sizes: Sizes, p: Player, v: PlayerState)
    requires Inv(s, sizes, {}) && Enabled(s, sizes, Change(p, v))
    ensures Inv(s.(states := s.states[p := v]), sizes, {})
  {
    var t := s.(states := s.states[p := v]);
    SameRegistered(s, t, {});
    SameSnapshots(s, t);
    SameQueued(s, t);
    hide StatesAgree, LastStarted, NoDoubleDelivery, Registered, SnapshotsFit, Queued, RecordsFit;
  }

  lemma {:induction false} AbandonKeeps(s: State, sizes: Sizes, q: QueueName)
    requires Inv(s, sizes, {})
    ensures Inv(s.(snapshots := s.snapshots - {q}), sizes, {})
  {
    ForgetSnapshot(s, sizes, q, []);
  }

  lemma {:induction false} StepKeeps(s: State, sizes: Sizes, step: Step)
    requires Inv(s, sizes, {}) && Enabled(s, sizes, step)
    ensures Inv(Apply(s, sizes, step), sizes, {})
  {
    hide Inv;
    match step
    case Start(players, q, id, rating) => StartKeeps(s, sizes, players, q, id, rating);
    case CancelIn(p, q) => CancelKeeps(s, sizes, {}, TouchedIn(s.registry, [p], q));
    case CancelEverywhere(p) => CancelKeeps(s, sizes, {}, Touched(s.registry, [p]));
    case Shutdown => CancelKeeps(s, sizes, {}, s.registry.Values);
    case Run(id) => RunTaskKeeps(s, sizes, id);
    case Finish(id) => FinishTaskKeeps(s, sizes, id);
    case PopQueue(q) => PopKeeps(s, sizes, q);
    case CommitPop(q, proposed, unmatched) => CommitOutcome(s, sizes, q, sizes[q], proposed, unmatched);
    case AbandonPop(q) => AbandonKeeps(s, sizes, q);
    case Change(p, v) => ChangeKeeps(s, sizes, p, v);
  }

  /** The invariant holds in every state that can be reached. */
  lemma {:induction false} RunKeeps(s: State, sizes: Sizes, steps: seq<Step>)
    requires Inv(s, sizes, {}) && CanRun(s, sizes, steps)
    ensures Inv(After(s, sizes, steps), sizes, {})
    decreases |steps|
  {
    hide Inv, Enabled, Apply;
    if steps != [] {
      StepKeeps(s, sizes, steps[0]);
      RunKeeps(Apply(s, sizes, steps[0]), sizes, steps[1..]);
    }
  }

  // ----- What the invariant means for a run

  /**
   * In every reachable state: a registered search is open and registered for all of its players in its own queue, an
   * open search is registered, and a player is searching exactly while they have a registered search.
   */
  lemma {:induction false} Safety(s: State, sizes: Sizes, steps: seq<Step>)
    requires Initial(s) && CanRun(s, sizes, steps)
    ensures var t := After(s, sizes, steps);
      && (forall k | k in t.registry ::
            var id := t.registry[k];
            && id in t.records && t.records[id].status.Pending? && t.records[id].queue == k.1
            && forall p | p in t.records[id].players :: (p, k.1) in t.registry && t.registry[(p, k.1)] == id)
      && (forall id, p | id in t.records && t.records[id].status.Pending? && p in t.records[id].players ::
            (p, t.records[id].queue) in t.registry)
      && (forall p | p in t.states :: t.states[p] == SearchingLadder <==> HasSearch(t.registry, p))
  {
    RunKeeps(s, sizes, steps);
    var t := After(s, sizes, steps);
    hide HasSearch, HistoryFits, Queued, SnapshotsFit, CanRun, After;
    forall id, p | id in t.records && t.records[id].status.Pending? && p in t.records[id].players
      ensures (p, t.records[id].queue) in t.registry && t.registry[(p, t.records[id].queue)] == id
    {
      assert Live(t, id, {});
    }
  }

  lemma {:induction false} StartedBetween(history: seq<Event>, j: nat, p: Player)
    requires j <= |history| && LastStarted(history[..j], p)
    ensures exists k :: (0 <= k < j && history[k].Started? && p in history[k].players
                         && forall i | k < i < j :: !(history[i].Delivered? && p in history[i].players))
    decreases j
  {
    var last := history[..j][j - 1];
    assert history[..j][..j - 1] == history[..j - 1] && last == history[j - 1];
    if !(last.Started? && p in last.players) {
      StartedBetween(history, j - 1, p);
    }
  }

  lemma {:induction false} DeliveryNeedsStart(history: seq<Event>, j: nat, p: Player)
    requires NoDoubleDelivery(history) && j < |history| && history[j].Delivered? && p in history[j].players
    ensures LastStarted(history[..j], p)
    decreases |history|
  {
    var n := |history| - 1;
    if j < n {
      DeliveryNeedsStart(history[..n], j, p);
      assert history[..n][..j] == history[..j];
    }
  }

  /** Between two deliveries of a player to a match they have started a new search. */
  lemma {:induction false} NeverDeliveredTwice(s: State, sizes: Sizes, steps: seq<Step>, i: nat, j: nat, p: Player)
    requires Initial(s) && CanRun(s, sizes, steps)
    requires i < j < |After(s, sizes, steps).history|
    requires var h := After(s, sizes, steps).history;
      h[i].Delivered? && h[j].Delivered? && p in h[i].players && p in h[j].players
    ensures var h := After(s, sizes, steps).history;
      exists k :: i < k < j && h[k].Started? && p in h[k].players
  {
    RunKeeps(s, sizes, steps);
    var h := After(s, sizes, steps).history;
    DeliveryNeedsStart(h, j, p);
    StartedBetween(h, j, p);
  }

  // ----- Futures

  /** What is resolved in `s` is resolved the same way in `t`. */
  ghost predicate ResolvedStay(s: State, t: State) {
    forall id | id in s.records ::
      id in t.records && (s.records[id].status.Pending? || t.records[id].status == s.records[id].status)
  }

  lemma {:induction false} CommitResolvedStay(s: State, sizes: Sizes, q: QueueName, teamSize: nat,
      proposed: seq<Match>, unmatched: seq<Search>)
    requires Inv(s, sizes, {}) && Proposal(s, q, proposed, unmatched)
    ensures ResolvedStay(s, Commit(s, q, teamSize, proposed, unmatched))
  {
    var matches := Accepted(s.records, proposed);
    var before := s.(snapshots := s.snapshots - {q});
    var marked, t := Marked(s, q, teamSize, proposed, unmatched), Commit(s, q, teamSize, proposed, unmatched);
    MarkedKeeps(s, sizes, q, teamSize, proposed, unmatched);
    AcceptedReady(s, q, proposed, unmatched);
    hide Inv, Accepted, Rejected, Flatten, MarkEach, CountId, Distinct, MatchedIn, Described;
    DeliverEachKeeps(marked, sizes, Ids(Flatten(matches)), q, matches);
    forall id | id in s.records
      ensures id in t.records && (s.records[id].status.Pending? || t.records[id].status == s.records[id].status)
    {
      MarkEachOnly(before, q, teamSize, matches, id);
      if !s.records[id].status.Pending? {
        forall x | x in Flatten(matches) ensures x.id != id { assert Ready(s, q, x); }
      }
    }
  }

  lemma {:induction false} StepResolvedStay(s: State, sizes: Sizes, step: Step)
    requires Inv(s, sizes, {}) && Enabled(s, sizes, step)
    ensures ResolvedStay(s, Apply(s, sizes, step))
  {
    hide Inv, ResolvedStay, Cancel, Commit, RunTask, FinishTask, StartSearch, Pop;
    match step
    case Start(players, q, id, rating) => StartResolvedStay(s, sizes, players, q, id, rating);
    case CancelIn(p, q) => CancelResolvedStay(s, sizes, TouchedIn(s.registry, [p], q));
    case CancelEverywhere(p) => CancelResolvedStay(s, sizes, Touched(s.registry, [p]));
    case Shutdown => CancelResolvedStay(s, sizes, s.registry.Values);
    case CommitPop(q, proposed, unmatched) => CommitResolvedStay(s, sizes, q, sizes[q], proposed, unmatched);
    case Run(id) => TaskResolvedStay(s, id);
    case Finish(id) => TaskResolvedStay(s, id);
    case PopQueue(q) => PopResolvedStay(s, q, sizes[q]);
    case AbandonPop(q) => SameResolvedStay(s, Apply(s, sizes, step));
    case Change(p, v) => SameResolvedStay(s, Apply(s, sizes, step));
  }

  lemma {:induction false} SameResolvedStay(s: State, t: State)
    requires t.records == s.records
    ensures ResolvedStay(s, t)
  {}

  lemma {:induction false} TaskResolvedStay(s: State, id: SearchId)
    requires id in s.records
    ensures ResolvedStay(s, RunTask(s, id))
    ensures id in QueueOf(s, s.records[id].queue) ==> ResolvedStay(s, FinishTask(s, id))
  {}

  lemma {:induction false} PopResolvedStay(s: State, q: QueueName, teamSize: nat)
    ensures ResolvedStay(s, Pop(s, q, teamSize))
  {
    hide Listing, CountId;
  }

  lemma {:induction false} StartResolvedStay(s: State, sizes: Sizes, players: seq<Player>, q: QueueName, id: SearchId,
      rating: real)
    requires Inv(s, sizes, {}) && id !in s.records
    ensures ResolvedStay(s, StartSearch(s, players, q, id, rating))
  {
    hide Inv, Settle, Register, SetStates, Drop, TouchedIn;
    var cancelled := TouchedIn(s.registry, players, q);
    assert cancelled <= s.registry.Values by { InRegistry(s.registry, players, q); }
    CancelResolvedStay(s, sizes, cancelled);
  }

  lemma {:induction false} InRegistry(registry: map<Key, SearchId>, players: seq<Player>, q: QueueName)
    ensures TouchedIn(registry, players, q) <= registry.Values && Touched(registry, players) <= registry.Values
  {}

  /** Only open searches are registered, so only open searches are cancelled. */
  lemma {:induction false} CancelResolvedStay(s: State, sizes: Sizes, searches: set<SearchId>)
    requires Inv(s, sizes, {}) && searches <= s.registry.Values
    ensures ResolvedStay(s, Cancel(s, searches))
  {
    hide Settle, Drop, StatesAgree, Queued, SnapshotsFit, HistoryFits;
  }

  /** A search's future is resolved at most once: whatever a run does later, the result stays. */
  lemma {:induction false} ResolvedOnce(s: State, sizes: Sizes, steps: seq<Step>)
    requires Inv(s, sizes, {}) && CanRun(s, sizes, steps)
    ensures ResolvedStay(s, After(s, sizes, steps))
    decreases |steps|
  {
    hide Inv, Enabled, Apply;
    if steps != [] {
      StepKeeps(s, sizes, steps[0]);
      StepResolvedStay(s, sizes, steps[0]);
      ResolvedOnce(Apply(s, sizes, steps[0]), sizes, steps[1..]);
    }
  }

  // ----- The lists that are with the matchmaker

  lemma {:induction false} CommitSnapshots(s: State, q: QueueName, teamSize: nat, proposed: seq<Match>,
      unmatched: seq<Search>)
    ensures Commit(s, q, teamSize, proposed, unmatched).snapshots == s.snapshots - {q}
  {
    var matches := Accepted(s.records, proposed);
    var before := s.(snapshots := s.snapshots - {q});
    MarkEachStays(before, q, teamSize, matches);
    DeliverEachStays(Marked(s, q, teamSize, proposed, unmatched), matches);
  }

  lemma {:induction false} OtherSnapshots(s: State, searches: set<SearchId>, players: seq<Player>, q: QueueName,
      id: SearchId, rating: real)
    ensures Cancel(s, searches).snapshots == s.snapshots
    ensures StartSearch(s, players, q, id, rating).snapshots == s.snapshots
    ensures id in s.records ==> RunTask(s, id).snapshots == s.snapshots
    ensures id in s.records && id in QueueOf(s, s.records[id].queue) ==> FinishTask(s, id).snapshots == s.snapshots
  {}

  lemma {:induction false} PopSnapshots(s: State, q: QueueName, teamSize: nat)
    ensures SnapshotsChange(s.snapshots, Pop(s, q, teamSize).snapshots, PopQueue(q))
  {
    hide Listing, FailAttempt;
    var list := Listing(s.records, QueueOf(s, q));
    assert s.snapshots[q := list] - {q} == s.snapshots - {q};
  }

  /** Only the two halves of a pop change the lists, and only that of their own queue. */
  ghost predicate SnapshotsChange(before: map<QueueName, seq<Search>>, after: map<QueueName, seq<Search>>, step: Step) {
    match step
    case PopQueue(q) => after - {q} == before - {q} && before.Keys <= after.Keys <= before.Keys + {q}
    case CommitPop(q, proposed, unmatched) => after == before - {q}
    case AbandonPop(q) => after == before - {q}
    case _ => after == before
  }

  lemma {:induction false} StepSnapshots(s: State, sizes: Sizes, step: Step)
    requires Enabled(s, sizes, step)
    ensures SnapshotsChange(s.snapshots, Apply(s, sizes, step).snapshots, step)
  {
    hide Cancel, StartSearch, RunTask, FinishTask, Pop, Commit, Touched, TouchedIn, IsPairing, Distinct;
    match step
    case Start(players, q, id, rating) => OtherSnapshots(s, {}, players, q, id, rating);
    case CancelIn(p, q) => OtherSnapshots(s, TouchedIn(s.registry, [p], q), [], q, 0, 0.0);
    case CancelEverywhere(p) => OtherSnapshots(s, Touched(s.registry, [p]), [], "", 0, 0.0);
    case Shutdown => OtherSnapshots(s, s.registry.Values, [], "", 0, 0.0);
    case Run(id) => OtherSnapshots(s, {}, [], "", id, 0.0);
    case Finish(id) => OtherSnapshots(s, {}, [], "", id, 0.0);
    case PopQueue(q) => PopSnapshots(s, q, sizes[q]);
    case CommitPop(q, proposed, unmatched) => CommitSnapshots(s, q, sizes[q], proposed, unmatched);
    case AbandonPop(q) =>
    case Change(p, v) =>
  }
}
