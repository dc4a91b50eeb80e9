/** Runs in which the pops of all queues take the shared lock: at most one list is with the matchmaker. */
module LadderLock {
  import opened Searches
  import opened LadderState
  import opened LadderInvariants
  import opened LadderRuns
  import opened SpinLockModule

  /** How far the pop task of a queue has come: to the lock, past it, to the matchmaker's answer, or to the release. */
  datatype Phase = Outside | Entered | Asking | Leaving

  /** The service, the lock, and the pop tasks, which are named by their queues. */
  datatype Guarded = Guarded(server: State, lock: Holding, phases: map<QueueName, Phase>)

  datatype Move = Acquire(queue: QueueName) | Release(queue: QueueName) | Serve(step: Step)

  function PhaseOf(g: Guarded, q: QueueName): Phase {
    if q in g.phases then g.phases[q] else Outside
  }

  /** The holders of the lock are the tasks past it, and the lists are those of the tasks that wait for an answer. */
  ghost predicate LockInv(g: Guarded) {
    && Exclusive(g.lock)
    && (forall q :: q in g.lock.holders <==> !PhaseOf(g, q).Outside?)
    && (forall q :: q in g.server.snapshots <==> PhaseOf(g, q).Asking?)
  }

  ghost predicate Initially(g: Guarded) {
    Initial(g.server) && g.lock == Holding(false, {}) && forall q :: PhaseOf(g, q).Outside?
  }

  lemma {:induction false} InitiallyHolds(g: Guarded)
    requires Initially(g)
    ensures LockInv(g)
  {}

  /**
   * A pop task acquires the lock when its flag is not set, takes its list, waits for the answer, finishes the pop or
   * fails, and releases the lock. Nothing is said about the other tasks; everything else may happen at any time.
   */
  ghost predicate Allowed(g: Guarded, sizes: Sizes, move: Move)
    requires LockInv(g)
  {
    match move
    case Acquire(q) => PhaseOf(g, q).Outside? && !g.lock.locked
    case Release(q) => PhaseOf(g, q).Leaving?
    case Serve(PopQueue(q)) => PhaseOf(g, q).Entered? && q in sizes && Drained(g.server, q)
    case Serve(CommitPop(q, proposed, unmatched)) =>
      PhaseOf(g, q).Asking? && q in sizes && IsPairing(g.server.snapshots[q], sizes[q], proposed, unmatched)
    case Serve(AbandonPop(q)) => PhaseOf(g, q).Asking?
    case Serve(step) => Enabled(g.server, sizes, step)
  }

  /** That a queue pops once at a time follows from the order in which its task goes. */
  lemma {:induction false} AllowedEnabled(g: Guarded, sizes: Sizes, step: Step)
    requires LockInv(g) && Allowed(g, sizes, Serve(step))
    ensures Enabled(g.server, sizes, step)
  {
    hide IsPairing, Drained;
  }

  ghost function Next(g: Guarded, sizes: Sizes, move: Move): Guarded
    requires LockInv(g) && Allowed(g, sizes, move)
  {
    match move
    case Acquire(q) => g.(lock := Acquired(g.lock, q), phases := g.phases[q := Entered])
    case Release(q) => g.(lock := Released(g.lock, q), phases := g.phases[q := Outside])
    case Serve(step) =>
      AllowedEnabled(g, sizes, step);
      var server := Apply(g.server, sizes, step);
      match step
      case PopQueue(q) =>
        g.(server := server, phases := g.phases[q := if q in server.snapshots then Asking else Leaving])
      case CommitPop(q, proposed, unmatched) => g.(server := server, phases := g.phases[q := Leaving])
      case AbandonPop(q) => g.(server := server, phases := g.phases[q := Leaving])
      case _ => g.(server := server)
  }

  lemma {:induction false} NextKeeps(g: Guarded, sizes: Sizes, move: Move)
    requires LockInv(g) && Allowed(g, sizes, move)
    ensures LockInv(Next(g, sizes, move))
  {
    hide Enabled, Apply, Drained, IsPairing, Exclusive;
    match move
    case Acquire(q) => AcquiredIff(g.lock, q);
    case Release(q) =>
      ReleaseSucceeds(g, sizes, q);
    case Serve(step) =>
      AllowedEnabled(g, sizes, step);
      StepSnapshots(g.server, sizes, step);
  }

  /** Only the holder gets to the release, so it never fails and leaves nobody inside. */
  lemma {:induction false} ReleaseSucceeds(g: Guarded, sizes: Sizes, q: QueueName)
    requires LockInv(g) && Allowed(g, sizes, Release(q))
    ensures g.lock.locked && Exclusive(Released(g.lock, q)) && Released(g.lock, q).holders == {}
  {
    ReleasedIff(g.lock, q);
  }

  // ----- Runs

  ghost predicate CanMove(g: Guarded, sizes: Sizes, moves: seq<Move>)
    requires LockInv(g)
    decreases |moves|
  {
    moves == [] ||
    (Allowed(g, sizes, moves[0])
     && (NextKeeps(g, sizes, moves[0]); CanMove(Next(g, sizes, moves[0]), sizes, moves[1..])))
  }

  ghost function Reached(g: Guarded, sizes: Sizes, moves: seq<Move>): Guarded
    requires LockInv(g) && CanMove(g, sizes, moves)
    decreases |moves|
  {
    if moves == [] then g
    else NextKeeps(g, sizes, moves[0]); Reached(Next(g, sizes, moves[0]), sizes, moves[1..])
  }

  /**
   * Mutual exclusion: while a list is with the matchmaker no other task is past the lock, so there is one list at most.
   */
  lemma {:induction false} OnePopAtATime(g: Guarded, sizes: Sizes, moves: seq<Move>)
    requires LockInv(g) && CanMove(g, sizes, moves)
    ensures var h := Reached(g, sizes, moves);
      && LockInv(h) && |h.server.snapshots| <= 1
      && forall q, r | q in h.server.snapshots && !PhaseOf(h, r).Outside? :: q == r
    decreases |moves|
  {
    hide Allowed, Next;
    if moves == [] {
      OneList(g);
    } else {
      NextKeeps(g, sizes, moves[0]);
      OnePopAtATime(Next(g, sizes, moves[0]), sizes, moves[1..]);
    }
  }

  lemma {:induction false} OneList(g: Guarded)
    requires LockInv(g)
    ensures |g.server.snapshots| <= 1
    ensures forall q, r | q in g.server.snapshots && !PhaseOf(g, r).Outside? :: q == r
  {
    var lists := g.server.snapshots;
    if q :| q in lists {
      forall r | r in lists ensures r == q { assert r in g.lock.holders && q in g.lock.holders; }
      assert lists.Keys == {q};
    }
  }

  function Steps(moves: seq<Move>): seq<Step> {
    if moves == [] then []
    else (if moves[0].Serve? then [moves[0].step] else []) + Steps(moves[1..])
  }

  /**
   * What the service does under the lock is one of its runs without a lock, so that all that is proved of those holds.
   */
  lemma {:induction false} LockedRun(g: Guarded, sizes: Sizes, moves: seq<Move>)
    requires LockInv(g) && CanMove(g, sizes, moves)
    ensures CanRun(g.server, sizes, Steps(moves))
    ensures After(g.server, sizes, Steps(moves)) == Reached(g, sizes, moves).server
    decreases |moves|
  {
    if moves != [] {
      var h := Next(g, sizes, moves[0]);
      NextKeeps(g, sizes, moves[0]);
      LockedRun(h, sizes, moves[1..]);
      var rest := Steps(moves[1..]);
      if moves[0].Serve? {
        AllowedEnabled(g, sizes, moves[0].step);
        assert ([moves[0].step] + rest)[1..] == rest;
      } else {
        assert [] + rest == rest;
      }
    }
  }
}
