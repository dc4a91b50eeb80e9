/** The lock that all queues share while they look for matches. */
module SpinLockModule {

  /** A task of the event loop, by its name. */
  type Task = string

  /** The lock's flag, and the tasks that are between their acquire and their release. */
  datatype Holding = Holding(locked: bool, holders: set<Task>)

  /** The flag tells whether somebody is inside, and no two tasks are. */
  ghost predicate Exclusive(h: Holding) {
    (h.locked <==> h.holders != {}) && forall a, b | a in h.holders && b in h.holders :: a == b
  }

  function Acquired(h: Holding, task: Task): Holding {
    Holding(true, h.holders + {task})
  }

  function Released(h: Holding, task: Task): Holding {
    Holding(false, h.holders - {task})
  }

  /** One more task may enter exactly while the flag is not set. */
  lemma {:induction false} AcquiredIff(h: Holding, task: Task)
    requires Exclusive(h) && task !in h.holders
    ensures Exclusive(Acquired(h, task)) <==> !h.locked
  {
    if h.locked {
      var other :| other in h.holders;
      assert other in Acquired(h, task).holders && task in Acquired(h, task).holders;
    }
  }

  /** A release of a lock that is held is safe exactly if the holder releases it. */
  lemma {:induction false} ReleasedIff(h: Holding, task: Task)
    requires Exclusive(h) && h.locked
    ensures Exclusive(Released(h, task)) <==> task in h.holders
  {
    var other :| other in h.holders;
    assert other != task ==> other in Released(h, task).holders;
  }

  class SpinLock {
    var locked: bool
    ghost var holders: set<Task>

    ghost function Now(): Holding
      reads this
    {
      Holding(locked, holders)
    }

    constructor ()
      ensures Now() == Holding(false, {}) && Exclusive(Now())
    {
      locked, holders := false, {};
    }

    /** One round of the waiting loop: the task gets the lock if it is free, and sleeps before the next round if not. */
    method TryAcquire(ghost task: Task) returns (acquired: bool)
      requires Exclusive(Now())
      modifies this
      ensures Exclusive(Now()) && locked
      ensures acquired <==> !old(locked)
      ensures Now() == if acquired then Acquired(old(Now()), task) else old(Now())
    {
      acquired := !locked;
      if acquired {
        AcquiredIff(Now(), task);
        locked, holders := true, holders + {task};
      }
    }

    /** Fails on a lock that is not held; any task can release a lock that is, but only the holder should. */
    method Release(ghost task: Task) returns (ok: bool)
      requires Exclusive(Now())
      modifies this
      ensures ok <==> old(locked)
      ensures !locked && Now() == if ok then Released(old(Now()), task) else old(Now())
      ensures ok ==> (Exclusive(Now()) <==> task in old(holders))
    {
      if !locked {
        return false;
      }
      ReleasedIff(Now(), task);
      locked, holders := false, holders - {task};
      return true;
    }
  }
}
