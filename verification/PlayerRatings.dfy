/** A player's ratings: explicit ones, and ones derived from the leaderboard's initializer and kept in a cache. */
module PlayerRatingsModule {
  import opened Options

  datatype Rating = Rating(mean: real, dev: real)

  type RatingType = string
  type Ratings = map<RatingType, Rating>

  /** The rating type each leaderboard takes its initial ratings from. */
  type Leaderboards = map<RatingType, Option<RatingType>>

  /** Ratings that are taken over become less certain up to this deviation; those of newcomers are beyond it. */
  const WIDENED_DEV := 250.0

  /** An explicit rating of another leaderboard becomes less certain, up to a point. */
  function Widen(r: Rating): Rating {
    if r.dev > WIDENED_DEV then r
    else Rating(r.mean, if r.dev + 150.0 < WIDENED_DEV then r.dev + 150.0 else WIDENED_DEV)
  }

  /** The mean stays; the deviation grows by 150, to at most 250, unless it is beyond that already. */
  lemma {:induction false} WidenEffect(r: Rating)
    ensures Widen(r).mean == r.mean && Widen(r).dev >= r.dev
    ensures r.dev > 250.0 ==> Widen(r) == r
    ensures 100.0 <= r.dev <= 250.0 ==> Widen(r).dev == 250.0
    ensures r.dev <= 100.0 ==> Widen(r).dev == r.dev + 150.0
  {}

  function Initializer(boards: Leaderboards, k: RatingType): Option<RatingType> {
    if k in boards then boards[k] else None
  }

  // ----- The rating without a cache

  /** The `n`-th initializer above `k`. */
  function Above(boards: Leaderboards, k: RatingType, n: nat): Option<RatingType>
    decreases n
  {
    if n == 0 then Some(k)
    else
      var before := Above(boards, k, n - 1);
      if before.None? then None else Initializer(boards, before.value)
  }

  /** `a` is the nearest leaderboard above `k` with an explicit rating, `n` steps up. */
  ghost predicate Nearest(boards: Leaderboards, explicit: Ratings, k: RatingType, n: nat, a: RatingType) {
    && Above(boards, k, n) == Some(a) && a in explicit
    && forall i | 0 <= i < n :: Above(boards, k, i).Some? && Above(boards, k, i).value !in explicit
  }

  ghost predicate NoneAbove(boards: Leaderboards, explicit: Ratings, k: RatingType) {
    forall n: nat :: Above(boards, k, n).Some? ==> Above(boards, k, n).value !in explicit
  }

  /**
   * The rating of `k` computed afresh: its own explicit rating, else the nearest explicit one up the chain of
   * initializers, widened once, else the default. `seen` are the leaderboards the walk has passed.
   */
  function Walk(start: Rating, boards: Leaderboards, explicit: Ratings, k: RatingType, seen: set<RatingType>): Rating
    decreases |boards.Keys - seen|
  {
    var up := Initializer(boards, k);
    if up.None? || k in seen then start
    else if up.value in explicit then Widen(explicit[up.value])
    else
      assert k in boards.Keys - seen && boards.Keys - (seen + {k}) == boards.Keys - seen - {k};
      Walk(start, boards, explicit, up.value, seen + {k})
  }

  function Uncached(start: Rating, boards: Leaderboards, explicit: Ratings, k: RatingType): Rating {
    if k in explicit then explicit[k] else Walk(start, boards, explicit, k, {})
  }

  lemma {:induction false} AboveNext(boards: Leaderboards, k: RatingType, up: RatingType, n: nat)
    requires Initializer(boards, k) == Some(up)
    ensures Above(boards, up, n) == Above(boards, k, n + 1)
    decreases n
  {
    if n == 0 {
      assert Above(boards, k, 0) == Some(k);
    } else {
      AboveNext(boards, k, up, n - 1);
    }
  }

  /** `path` leads from one initializer to the next and finally to `k`, without an explicit rating on the way. */
  ghost predicate Path(boards: Leaderboards, explicit: Ratings, path: seq<RatingType>, k: RatingType) {
    && (forall i | 0 <= i < |path| :: path[i] !in explicit)
    && (forall i | 0 <= i < |path| :: Initializer(boards, path[i]) == Some((path + [k])[i + 1]))
  }

  lemma {:induction false} LongerPath(boards: Leaderboards, explicit: Ratings, path: seq<RatingType>,
      k: RatingType, up: RatingType)
    requires Path(boards, explicit, path, k) && k !in explicit && Initializer(boards, k) == Some(up)
    ensures Path(boards, explicit, path + [k], up)
  {
    forall i | 0 <= i < |path| + 1 ensures Initializer(boards, (path + [k])[i]) == Some((path + [k] + [up])[i + 1]) {
      if i < |path| { assert (path + [k] + [up])[i + 1] == (path + [k])[i + 1]; }
    }
  }

  /** Once a path comes back to itself there is no explicit rating further up. */
  lemma {:induction false} CycleStays(boards: Leaderboards, explicit: Ratings, path: seq<RatingType>,
      k: RatingType, n: nat)
    requires Path(boards, explicit, path, k) && k in path
    ensures Above(boards, k, n).Some? && Above(boards, k, n).value in path
    decreases n
  {
    if n > 0 {
      CycleStays(boards, explicit, path, k, n - 1);
      var i :| 0 <= i < |path| && path[i] == Above(boards, k, n - 1).value;
      assert (path + [k])[i + 1] in path;
    }
  }

  lemma {:induction false} CycleHasNone(boards: Leaderboards, explicit: Ratings, path: seq<RatingType>,
      k: RatingType)
    requires Path(boards, explicit, path, k) && k in path
    ensures NoneAbove(boards, explicit, k)
  {
    forall n: nat ensures Above(boards, k, n).Some? && Above(boards, k, n).value !in explicit {
      CycleStays(boards, explicit, path, k, n);
    }
  }

  /** The result depends on the nearest explicit rating above `k` only. */
  ghost predicate IsDerived(start: Rating, boards: Leaderboards, explicit: Ratings, k: RatingType, r: Rating) {
    if exists n: nat, a :: Nearest(boards, explicit, k, n, a) then
      forall n: nat, a | Nearest(boards, explicit, k, n, a) :: r == Widen(explicit[a])
    else r == start
  }

  lemma {:induction false} WalkDerived(start: Rating, boards: Leaderboards, explicit: Ratings, path: seq<RatingType>,
      seen: set<RatingType>, k: RatingType)
    requires Path(boards, explicit, path, k) && k !in explicit && seen == set x | x in path
    ensures IsDerived(start, boards, explicit, k, Walk(start, boards, explicit, k, seen))
    decreases |boards.Keys - seen|
  {
    var up := Initializer(boards, k);
    if k in seen {
      CycleHasNone(boards, explicit, path, k);
    } else if up.None? {
      TopHasNone(boards, explicit, k);
    } else {
      var a := up.value;
      UpDerived(start, boards, explicit, k, a);
      if a !in explicit {
        assert k in boards.Keys - seen && boards.Keys - (seen + {k}) == boards.Keys - seen - {k};
        LongerPath(boards, explicit, path, k, a);
        WalkDerived(start, boards, explicit, path + [k], seen + {k}, a);
      }
    }
  }

  lemma {:induction false} TopHasNone(boards: Leaderboards, explicit: Ratings, k: RatingType)
    requires Initializer(boards, k).None? && k !in explicit
    ensures forall n: nat, a :: !Nearest(boards, explicit, k, n, a)
  {
    forall n: nat, a ensures !Nearest(boards, explicit, k, n, a) {
      if n > 0 {
        assert Above(boards, k, 0) == Some(k);
        if n > 1 { assert Above(boards, k, 1).None?; }
      }
    }
  }

  /** What is nearest above `k` is nearest above its initializer. */
  lemma {:induction false} UpDerived(start: Rating, boards: Leaderboards, explicit: Ratings, k: RatingType,
      up: RatingType)
    requires Initializer(boards, k) == Some(up) && k !in explicit
    ensures forall n: nat, a :: Nearest(boards, explicit, k, n, a) ==> n > 0 && Nearest(boards, explicit, up, n - 1, a)
    ensures forall n: nat, a :: Nearest(boards, explicit, up, n, a) ==> Nearest(boards, explicit, k, n + 1, a)
    ensures up in explicit ==> Nearest(boards, explicit, k, 1, up)
    ensures forall r :: IsDerived(start, boards, explicit, up, r) && up !in explicit ==>
      IsDerived(start, boards, explicit, k, r)
    ensures up in explicit ==> IsDerived(start, boards, explicit, k, Widen(explicit[up]))
  {
    forall n: nat ensures Above(boards, up, n) == Above(boards, k, n + 1) { AboveNext(boards, k, up, n); }
    forall n: nat, a | Nearest(boards, explicit, k, n, a) ensures n > 0 && Nearest(boards, explicit, up, n - 1, a) {
      assert Above(boards, k, 0) == Some(k);
      forall i | 0 <= i < n - 1 ensures Above(boards, up, i).Some? && Above(boards, up, i).value !in explicit {
        assert Above(boards, up, i) == Above(boards, k, i + 1);
      }
      assert Above(boards, up, n - 1) == Above(boards, k, n);
    }
    forall n: nat, a | Nearest(boards, explicit, up, n, a) ensures Nearest(boards, explicit, k, n + 1, a) {
      forall i | 0 <= i < n + 1 ensures Above(boards, k, i).Some? && Above(boards, k, i).value !in explicit {
        if i > 0 { assert Above(boards, up, i - 1) == Above(boards, k, i); }
      }
    }
    if up in explicit {
      assert Above(boards, k, 1) == Above(boards, up, 0);
      assert Nearest(boards, explicit, k, 1, up);
      forall n: nat, a | Nearest(boards, explicit, k, n, a) ensures a == up {}
    }
  }

  // ----- Uncached ratings

  lemma {:induction false} UncachedDerived(start: Rating, boards: Leaderboards, explicit: Ratings, k: RatingType)
    ensures k in explicit ==> Uncached(start, boards, explicit, k) == explicit[k]
    ensures k !in explicit ==> IsDerived(start, boards, explicit, k, Uncached(start, boards, explicit, k))
  {
    if k !in explicit {
      WalkDerived(start, boards, explicit, [], {}, k);
    }
  }

  /** One step up: an explicit rating is widened, a derived one is passed on. */
  lemma {:induction false} UncachedStep(start: Rating, boards: Leaderboards, explicit: Ratings, k: RatingType,
      up: RatingType)
    requires k !in explicit && Initializer(boards, k) == Some(up)
    ensures Uncached(start, boards, explicit, k)
         == if up in explicit then Widen(explicit[up]) else Uncached(start, boards, explicit, up)
  {
    UncachedDerived(start, boards, explicit, k);
    UncachedDerived(start, boards, explicit, up);
    UpDerived(start, boards, explicit, k, up);
  }

  lemma {:induction false} CycleDefault(start: Rating, boards: Leaderboards, explicit: Ratings, path: seq<RatingType>,
      k: RatingType)
    requires Path(boards, explicit, path, k) && k in path
    ensures Uncached(start, boards, explicit, k) == start
  {
    CycleHasNone(boards, explicit, path, k);
    UncachedDerived(start, boards, explicit, k);
  }

  // ----- The cache

  class PlayerRatings {
    const leaderboards: Leaderboards
    const start: Rating
    var entries: map<RatingType, Rating>
    /** Rating types that have an entry but no explicit rating. */
    var transient: set<RatingType>
    /** Rating types computed since the last explicit rating was set. */
    var clean: set<RatingType>

    function Explicit(): Ratings
      reads this
    {
      map k | k in entries && k !in transient :: entries[k]
    }

    /** Computed entries that count as clean are what would be computed now. */
    ghost predicate Valid()
      reads this
    {
      && start.dev > WIDENED_DEV && clean <= transient <= entries.Keys
      && forall k | k in clean :: entries[k] == Uncached(start, leaderboards, Explicit(), k)
    }

    constructor (leaderboards: Leaderboards, start: Rating, init: bool)
      requires start.dev > WIDENED_DEV
      ensures Valid() && Explicit() == map[] && this.leaderboards == leaderboards && this.start == start
    {
      this.leaderboards, this.start := leaderboards, start;
      entries, transient, clean := map[], {}, {};
      new;
      if init {
        var _ := Get("global");
        var _ := Get("ladder_1v1");
      }
    }

    method Set(k: RatingType, value: Rating)
      requires Valid()
      modifies `entries, `transient, `clean
      ensures Valid() && Explicit() == old(Explicit())[k := value]
    {
      transient := transient - {k};
      clean := {};
      entries := entries[k := value];
    }

    /** Whatever is cached, the answer is the rating computed afresh; asking changes no later answer. */
    method Get(k: RatingType) returns (rating: Rating)
      requires Valid()
      modifies `entries, `transient, `clean
      ensures Valid() && Explicit() == old(Explicit())
      ensures rating == Uncached(start, leaderboards, Explicit(), k)
    {
      rating := GetWithHistory(k, {}, []);
    }

    method GetWithHistory(k: RatingType, history: set<RatingType>, ghost path: seq<RatingType>) returns (rating: Rating)
      requires Valid() && Path(leaderboards, Explicit(), path, k) && history == set x | x in path
      modifies `entries, `transient, `clean
      ensures Valid() && Explicit() == old(Explicit())
      ensures rating == Uncached(start, leaderboards, Explicit(), k)
      ensures k in Explicit() || k in transient || k in history
      decreases |leaderboards.Keys - history|, 1
    {
      hide Path, Uncached;
      if k !in entries || (k !in clean && k in transient) {
        if k in history {
          CycleDefault(start, leaderboards, Explicit(), path, k);
          return start;
        }
        rating := GetInitialRating(k, history, path);
        ghost var explicit := Explicit();
        transient := transient + {k};
        clean := clean + {k};
        entries := entries[k := rating];
        assert Explicit() == explicit;
      } else {
        rating := entries[k];
        UncachedDerived(start, leaderboards, Explicit(), k);
      }
    }

    method GetInitialRating(k: RatingType, history: set<RatingType>, ghost path: seq<RatingType>)
      returns (rating: Rating)
      requires Valid() && Path(leaderboards, Explicit(), path, k) && history == set x | x in path
      requires k !in Explicit() && k !in history
      modifies `entries, `transient, `clean
      ensures Valid() && Explicit() == old(Explicit())
      ensures rating == Uncached(start, leaderboards, Explicit(), k)
      decreases |leaderboards.Keys - history|, 0
    {
      hide Path;
      if k !in leaderboards || leaderboards[k].None? {
        return start;
      }
      hide Uncached;
      var up := leaderboards[k].value;
      assert leaderboards.Keys - (history + {k}) == leaderboards.Keys - history - {k};
      ghost var explicit := Explicit();
      LongerPath(leaderboards, explicit, path, k, up);
      UncachedStep(start, leaderboards, explicit, k, up);
      UncachedDerived(start, leaderboards, explicit, up);
      rating := GetWithHistory(up, history + {k}, path + [k]);
      if rating.dev > WIDENED_DEV || up in transient {
        return;
      }
      if up !in explicit { CycleDefault(start, leaderboards, explicit, path + [k], up); }
      rating := Rating(rating.mean, if rating.dev + 150.0 < WIDENED_DEV then rating.dev + 150.0 else WIDENED_DEV);
    }

    /** Explicit ratings from a plain dictionary. */
    method Update(other: Ratings)
      requires Valid()
      modifies `entries, `transient, `clean
      ensures Valid() && Explicit() == old(Explicit()) + other
    {
      transient := transient - other.Keys;
      clean := {};
      entries := entries + other;
    }

    /**
     * Ratings from another cache: its derived entries stay derived and are computed again for this player. A cache that
     * is updated from itself forgets which of its entries were derived.
     */
    method UpdateWithTransient(other: PlayerRatings)
      requires Valid() && other.Valid()
      modifies `entries, `transient, `clean
      ensures Valid()
      ensures Explicit() ==
        if other == this then old(entries) else (old(Explicit()) - old(other.entries).Keys) + old(other.Explicit())
    {
      hide Uncached;
      transient := transient - other.entries.Keys;
      clean := {};
      transient := transient + other.transient;
      entries := entries + other.entries;
    }
  }
}
