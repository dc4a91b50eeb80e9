/** Anti-repetition: weight moves from recently played maps to maps played less often. */
module MapPool {
  import opened Lists
  import opened MapWeights

  function Pow(x: real, n: nat): real {
    if n == 0 then 1.0 else x * Pow(x, n - 1)
  }

  /** How often a map was played. */
  function Plays(played: seq<MapId>, id: MapId): nat {
    if played == [] then 0 else (if played[0] == id then 1 else 0) + Plays(played[1..], id)
  }

  /** The maps that keep some weight, in dictionary order. */
  function Positive(initial: Weights, ids: seq<MapId>): (kept: seq<MapId>)
    decreases |ids|
  {
    if ids == [] then []
    else (if Get(initial, ids[0]) > 0.0 then [ids[0]] else []) + Positive(initial, ids[1..])
  }

  /** The plays that count: those of maps that still have weight. */
  function Counted(played: seq<MapId>, kept: seq<MapId>): seq<MapId>
    decreases |played|
  {
    if played == [] then []
    else (if played[0] in kept then [played[0]] else []) + Counted(played[1..], kept)
  }

  /** Different maps of a list in order of first occurrence. */
  function FirstOccurrences(played: seq<MapId>): (ids: seq<MapId>) {
    if played == [] then []
    else
      var before, last := FirstOccurrences(played[..|played| - 1]), played[|played| - 1];
      if last in before then before else before + [last]
  }

  function InsertByPlays(ranking: seq<MapId>, id: MapId, played: seq<MapId>): seq<MapId>
    decreases |ranking|
  {
    if ranking == [] || Plays(played, id) > Plays(played, ranking[0]) then [id] + ranking
    else [ranking[0]] + InsertByPlays(ranking[1..], id, played)
  }

  /** Most played first; maps played equally often stay in order of first occurrence. */
  function RankByPlays(ids: seq<MapId>, played: seq<MapId>): seq<MapId>
    decreases |ids|
  {
    if ids == [] then []
    else InsertByPlays(RankByPlays(ids[..|ids| - 1], played), ids[|ids| - 1], played)
  }

  function MostCommon(played: seq<MapId>): seq<MapId> {
    RankByPlays(FirstOccurrences(played), played)
  }

  ghost predicate Ranked(ranking: seq<MapId>, played: seq<MapId>) {
    ranking == [] ||
    ((forall id | id in ranking[1..] :: Plays(played, ranking[0]) >= Plays(played, id)) && Ranked(ranking[1..], played))
  }

  // ----- Where the weight of a played map may go

  datatype Settings = Settings(baseThresholds: seq<real>, repeatFactor: real)

  /** Unplayed maps of at least the given weight. */
  function UnplayedAtLeast(kept: seq<MapId>, initial: Weights, played: seq<MapId>, weight: real): seq<MapId>
    decreases |kept|
  {
    if kept == [] then []
    else
      (if Plays(played, kept[0]) == 0 && Get(initial, kept[0]) >= weight then [kept[0]] else [])
      + UnplayedAtLeast(kept[1..], initial, played, weight)
  }

  function Times(x: real, y: real): real {
    x * y
  }

  /** The first threshold that some unplayed map meets decides. */
  function UnplayedTargets(kept: seq<MapId>, initial: Weights, played: seq<MapId>, thresholds: seq<real>,
      current: real):
    seq<MapId>
    decreases |thresholds|
  {
    if thresholds == [] then []
    else
      var targets := UnplayedAtLeast(kept, initial, played, Times(thresholds[0], current));
      if targets != [] then targets else UnplayedTargets(kept, initial, played, thresholds[1..], current)
  }

  function LowerThresholds(thresholds: seq<real>, factor: real, last: real): seq<real>
    decreases |thresholds|
  {
    if thresholds == [] then []
    else
      var lower := Times(thresholds[0], factor);
      (if lower < last then [lower] else []) + LowerThresholds(thresholds[1..], factor, last)
  }

  function Thresholds(settings: Settings, plays: nat): seq<real>
    requires plays > 0
  {
    var base, factor := settings.baseThresholds, Pow(settings.repeatFactor, plays - 1);
    if factor < 1.0 && base != [] then base + LowerThresholds(base, factor, base[|base| - 1]) else base
  }

  /** Maps played less often whose weight is large enough for the difference in plays. */
  function LessPlayedTargets(kept: seq<MapId>, initial: Weights, played: seq<MapId>, factor: real, plays: nat,
      current: real):
    seq<MapId>
    decreases |kept|
  {
    if kept == [] then []
    else
      var own := Plays(played, kept[0]);
      (if 0 < own < plays && Get(initial, kept[0]) >= Times(Pow(factor, plays - own), current) then [kept[0]] else [])
      + LessPlayedTargets(kept[1..], initial, played, factor, plays, current)
  }

  function Targets(kept: seq<MapId>, initial: Weights, played: seq<MapId>, settings: Settings, id: MapId): seq<MapId>
    requires Plays(played, id) > 0
  {
    var plays, current := Plays(played, id), Get(initial, id);
    var unplayed := UnplayedTargets(kept, initial, played, Thresholds(settings, plays), current);
    if unplayed != [] then unplayed
    else LessPlayedTargets(kept, initial, played, settings.repeatFactor, plays, current)
  }

  // ----- Who receives weight, map by map

  /** An unplayed map with at least this weight. */
  predicate FreeFor(kept: seq<MapId>, initial: Weights, played: seq<MapId>, weight: real, c: MapId) {
    c in kept && Plays(played, c) == 0 && Get(initial, c) >= weight
  }

  /** A map played less often, with enough weight for the difference in plays. */
  predicate LessPlayed(kept: seq<MapId>, initial: Weights, played: seq<MapId>, factor: real, plays: nat, current: real,
      c: MapId)
  {
    && c in kept && 0 < Plays(played, c) < plays
    && Get(initial, c) >= Times(Pow(factor, plays - Plays(played, c)), current)
  }

  ghost predicate Reached(kept: seq<MapId>, initial: Weights, played: seq<MapId>, weight: real) {
    exists c :: FreeFor(kept, initial, played, weight, c)
  }

  /** The first threshold of the list that some unplayed map reaches. */
  ghost predicate Decisive(kept: seq<MapId>, initial: Weights, played: seq<MapId>, thresholds: seq<real>, current: real,
      i: nat)
    requires i < |thresholds|
  {
    && Reached(kept, initial, played, Times(thresholds[i], current))
    && forall j | 0 <= j < i :: !Reached(kept, initial, played, Times(thresholds[j], current))
  }

  lemma {:induction false} UnplayedMember(kept: seq<MapId>, initial: Weights, played: seq<MapId>, weight: real,
      c: MapId)
    ensures c in UnplayedAtLeast(kept, initial, played, weight) <==> FreeFor(kept, initial, played, weight, c)
    decreases |kept|
  {
    if kept != [] {
      UnplayedMember(kept[1..], initial, played, weight, c);
      assert kept == [kept[0]] + kept[1..];
    }
  }

  lemma {:induction false} LessPlayedMember(kept: seq<MapId>, initial: Weights, played: seq<MapId>, factor: real,
      plays: nat, current: real, c: MapId)
    ensures c in LessPlayedTargets(kept, initial, played, factor, plays, current)
       <==> LessPlayed(kept, initial, played, factor, plays, current, c)
    decreases |kept|
  {
    if kept != [] {
      LessPlayedMember(kept[1..], initial, played, factor, plays, current, c);
      assert kept == [kept[0]] + kept[1..];
    }
  }

  /** Among the unplayed maps the receivers are those that reach the first threshold that can be reached at all. */
  lemma {:induction false} FirstReached(kept: seq<MapId>, initial: Weights, played: seq<MapId>, thresholds: seq<real>,
      current: real)
    returns (i: nat)
    ensures var targets := UnplayedTargets(kept, initial, played, thresholds, current);
      if targets == [] then
        forall j | 0 <= j < |thresholds| :: !Reached(kept, initial, played, Times(thresholds[j], current))
      else
        && i < |thresholds| && Decisive(kept, initial, played, thresholds, current, i)
        && forall c :: c in targets <==> FreeFor(kept, initial, played, Times(thresholds[i], current), c)
    decreases |thresholds|
  {
    hide Times;
    i := 0;
    if thresholds != [] {
      var weight := Times(thresholds[0], current);
      var first := UnplayedAtLeast(kept, initial, played, weight);
      forall c ensures c in first <==> FreeFor(kept, initial, played, weight, c) {
        UnplayedMember(kept, initial, played, weight, c);
      }
      if first != [] {
        assert first[0] in first && FreeFor(kept, initial, played, weight, first[0]);
        assert Decisive(kept, initial, played, thresholds, current, 0);
        assert UnplayedTargets(kept, initial, played, thresholds, current) == first;
      } else {
        hide UnplayedAtLeast, FreeFor, UnplayedTargets;
        var j := FirstReached(kept, initial, played, thresholds[1..], current);
        i := j + 1;
        LaterTargets(kept, initial, played, thresholds, current);
        forall k | 0 <= k < |thresholds|
          ensures k == 0 ==> !Reached(kept, initial, played, Times(thresholds[k], current))
          ensures k > 0 ==> thresholds[k] == thresholds[1..][k - 1]
        {}
      }
    }
  }

  lemma {:induction false} LaterTargets(kept: seq<MapId>, initial: Weights, played: seq<MapId>, thresholds: seq<real>,
      current: real)
    requires thresholds != [] && UnplayedAtLeast(kept, initial, played, Times(thresholds[0], current)) == []
    ensures UnplayedTargets(kept, initial, played, thresholds, current)
         == UnplayedTargets(kept, initial, played, thresholds[1..], current)
  {}

  /**
   * Exactly who receives the weight of a played map: the unplayed maps that reach the first threshold that any of them
   * reaches; if none is reached, the less played maps with enough weight for the difference.
   */
  lemma {:induction false} TargetsExactly(kept: seq<MapId>, initial: Weights, played: seq<MapId>, settings: Settings,
      id: MapId)
    requires Plays(played, id) > 0
    ensures var targets, w := Targets(kept, initial, played, settings, id), Get(initial, id);
      var ts := Thresholds(settings, Plays(played, id));
      if forall j | 0 <= j < |ts| :: !Reached(kept, initial, played, Times(ts[j], w)) then
        forall c :: c in targets
               <==> LessPlayed(kept, initial, played, settings.repeatFactor, Plays(played, id), w, c)
      else
        exists i :: (0 <= i < |ts| && Decisive(kept, initial, played, ts, w, i)
                     && forall c :: c in targets <==> FreeFor(kept, initial, played, Times(ts[i], w), c))
  {
    var w, ts := Get(initial, id), Thresholds(settings, Plays(played, id));
    var i := FirstReached(kept, initial, played, ts, w);
    hide UnplayedTargets, LessPlayedTargets, Thresholds, FreeFor, LessPlayed, Reached, Times, Decisive;
    forall c
      ensures c in LessPlayedTargets(kept, initial, played, settings.repeatFactor, Plays(played, id), w)
         <==> LessPlayed(kept, initial, played, settings.repeatFactor, Plays(played, id), w, c)
    {
      LessPlayedMember(kept, initial, played, settings.repeatFactor, Plays(played, id), w, c);
    }
  }

  // ----- The thresholds

  /** How many of the first `i` thresholds stay below the last one when they are lowered. */
  function LoweredBefore(base: seq<real>, factor: real, last: real, i: nat): nat
    requires i <= |base|
  {
    if i == 0 then 0
    else LoweredBefore(base, factor, last, i - 1) + if Times(base[i - 1], factor) < last then 1 else 0
  }

  lemma {:induction false} LoweredCount(base: seq<real>, factor: real, last: real)
    ensures |LowerThresholds(base, factor, last)| == LoweredBefore(base, factor, last, |base|)
    decreases |base|
  {
    hide Times;
    if base != [] {
      LoweredCount(base[1..], factor, last);
      LoweredShift(base, factor, last, |base| - 1);
      hide LoweredBefore;
    }
  }

  /** The lowered thresholds are those below the last one, in order. */
  lemma {:induction false} LoweredAt(base: seq<real>, factor: real, last: real, i: nat)
    requires i < |base| && Times(base[i], factor) < last
    ensures LoweredBefore(base, factor, last, i) < |LowerThresholds(base, factor, last)|
    ensures LowerThresholds(base, factor, last)[LoweredBefore(base, factor, last, i)] == Times(base[i], factor)
    decreases i
  {
    hide Times;
    if i > 0 {
      assert base[1..][i - 1] == base[i];
      LoweredAt(base[1..], factor, last, i - 1);
      LoweredShift(base, factor, last, i - 1);
      hide LoweredBefore;
    }
  }

  lemma {:induction false} LoweredShift(base: seq<real>, factor: real, last: real, i: nat)
    requires i < |base|
    ensures LoweredBefore(base, factor, last, i + 1)
         == (if Times(base[0], factor) < last then 1 else 0) + LoweredBefore(base[1..], factor, last, i)
    decreases i
  {
    hide Times;
    if i > 0 {
      LoweredShift(base, factor, last, i - 1);
      assert base[1..][i - 1] == base[i];
    }
  }

  /** One of the configured thresholds, or one that is lowered by the repetitions to below the last one. */
  ghost predicate IsThreshold(settings: Settings, plays: nat, t: real)
    requires plays > 0
  {
    var base, factor := settings.baseThresholds, Pow(settings.repeatFactor, plays - 1);
    || t in base
    || (factor < 1.0 && base != []
        && exists i :: 0 <= i < |base| && t == Times(base[i], factor) && t < base[|base| - 1])
  }

  lemma {:induction false} LoweredMember(base: seq<real>, factor: real, last: real, t: real)
    ensures t in LowerThresholds(base, factor, last)
       <==> exists i :: 0 <= i < |base| && t == Times(base[i], factor) && t < last
    decreases |base|
  {
    hide Times;
    if base != [] {
      LoweredMember(base[1..], factor, last, t);
      if i :| 0 <= i < |base| && t == Times(base[i], factor) && t < last {
        assert i > 0 ==> base[1..][i - 1] == base[i];
      }
      if i :| 0 <= i < |base[1..]| && t == Times(base[1..][i], factor) && t < last {
        assert base[i + 1] == base[1..][i];
      }
    }
  }

  /** The list of thresholds: the configured ones in their order, then the lowered ones in the same order. */
  lemma {:induction false} ThresholdList(settings: Settings, plays: nat, t: real)
    requires plays > 0
    ensures t in Thresholds(settings, plays) <==> IsThreshold(settings, plays, t)
    ensures settings.baseThresholds <= Thresholds(settings, plays)
  {
    var base, factor := settings.baseThresholds, Pow(settings.repeatFactor, plays - 1);
    hide Times, Pow;
    if factor < 1.0 && base != [] {
      LoweredMember(base, factor, base[|base| - 1], t);
      hide LowerThresholds;
    }
  }

  lemma {:induction false} LoweredPart(settings: Settings, plays: nat, i: nat)
    requires plays > 0 && i < |settings.baseThresholds|
    requires var base, factor := settings.baseThresholds, Pow(settings.repeatFactor, plays - 1);
      factor < 1.0 && Times(base[i], factor) < base[|base| - 1]
    ensures var base, factor := settings.baseThresholds, Pow(settings.repeatFactor, plays - 1);
      var place := |base| + LoweredBefore(base, factor, base[|base| - 1], i);
      && place < |Thresholds(settings, plays)| && Thresholds(settings, plays)[place] == Times(base[i], factor)
      && |Thresholds(settings, plays)| == |base| + LoweredBefore(base, factor, base[|base| - 1], |base|)
  {
    var base, factor := settings.baseThresholds, Pow(settings.repeatFactor, plays - 1);
    hide Times, Pow;
    LoweredAt(base, factor, base[|base| - 1], i);
    LoweredCount(base, factor, base[|base| - 1]);
    hide LowerThresholds, LoweredBefore;
  }

  // ----- Targets keep the order of plays

  /**
   * Every target is played strictly less often than the map it receives weight from, and keeps positive weight itself.
   */
  ghost predicate GoodTargets(targets: seq<MapId>, kept: seq<MapId>, played: seq<MapId>, plays: nat) {
    Distinct(targets) && forall id | id in targets :: id in kept && Plays(played, id) < plays
  }

  lemma {:induction false} UnplayedGood(kept: seq<MapId>, initial: Weights, played: seq<MapId>, weight: real,
      plays: nat)
    requires Distinct(kept) && plays > 0
    ensures GoodTargets(UnplayedAtLeast(kept, initial, played, weight), kept, played, plays)
    decreases |kept|
  {
    if kept != [] {
      UnplayedGood(kept[1..], initial, played, weight, plays);
      assert kept == [kept[0]] + kept[1..];
      var rest := UnplayedAtLeast(kept[1..], initial, played, weight);
      assert ([kept[0]] + rest)[1..] == rest && [] + rest == rest;
    }
  }

  lemma {:induction false} UnplayedTargetsGood(
      kept: seq<MapId>, initial: Weights, played: seq<MapId>, thresholds: seq<real>, current: real, plays: nat)
    requires Distinct(kept) && plays > 0
    ensures GoodTargets(UnplayedTargets(kept, initial, played, thresholds, current), kept, played, plays)
    decreases |thresholds|
  {
    if thresholds != [] {
      UnplayedGood(kept, initial, played, Times(thresholds[0], current), plays);
      UnplayedTargetsGood(kept, initial, played, thresholds[1..], current, plays);
    }
  }

  lemma {:induction false} LessPlayedGood(
      kept: seq<MapId>, initial: Weights, played: seq<MapId>, factor: real, plays: nat, current: real)
    requires Distinct(kept)
    ensures GoodTargets(LessPlayedTargets(kept, initial, played, factor, plays, current), kept, played, plays)
    decreases |kept|
  {
    if kept != [] {
      LessPlayedGood(kept[1..], initial, played, factor, plays, current);
      assert kept == [kept[0]] + kept[1..];
      var rest := LessPlayedTargets(kept[1..], initial, played, factor, plays, current);
      assert ([kept[0]] + rest)[1..] == rest && [] + rest == rest;
    }
  }

  lemma {:induction false} TargetsGood(kept: seq<MapId>, initial: Weights, played: seq<MapId>, settings: Settings,
      id: MapId)
    requires Distinct(kept) && Plays(played, id) > 0
    ensures GoodTargets(Targets(kept, initial, played, settings, id), kept, played, Plays(played, id))
  {
    var plays, current := Plays(played, id), Get(initial, id);
    UnplayedTargetsGood(kept, initial, played, Thresholds(settings, plays), current, plays);
    LessPlayedGood(kept, initial, played, settings.repeatFactor, plays, current);
  }

  // ----- One transfer

  /** Adds each target's share, in proportion to its initial weight, of the amount `v`. */
  function AddShares(weights: Weights, initial: Weights, targets: seq<MapId>, sum: real, v: real): Weights
    requires sum != 0.0
    decreases |targets|
  {
    if targets == [] then weights
    else
      var n := |targets| - 1;
      var before := AddShares(weights, initial, targets[..n], sum, v);
      before[targets[n] := Get(before, targets[n]) + Share(Get(initial, targets[n]), sum, v)]
  }

  function Transfer(weights: Weights, initial: Weights, from: MapId, targets: seq<MapId>): Weights
    requires Total(initial, targets) != 0.0
  {
    AddShares(weights[from := 0.0], initial, targets, Total(initial, targets), Get(weights, from))
  }

  /** What the shares add up to. */
  lemma {:induction false} SharesTotal(weights: Weights, initial: Weights, targets: seq<MapId>, sum: real, v: real,
      ids: seq<MapId>)
    requires sum != 0.0 && Distinct(ids) && forall id | id in targets :: id in ids
    ensures Total(AddShares(weights, initial, targets, sum, v), ids)
      == Total(weights, ids) + Share(Total(initial, targets), sum, v)
    decreases |targets|
  {
    if targets != [] {
      var n := |targets| - 1;
      var before := AddShares(weights, initial, targets[..n], sum, v);
      SharesTotal(weights, initial, targets[..n], sum, v, ids);
      assert targets == targets[..n] + [targets[n]];
      TotalSnoc(initial, targets[..n], targets[n]);
      TotalUpdate(before, ids, targets[n], Get(before, targets[n]) + Share(Get(initial, targets[n]), sum, v));
      ShareSum(Total(initial, targets), Total(initial, targets[..n]), Get(initial, targets[n]), sum, v);
    }
  }

  function Share(weight: real, sum: real, v: real): real
    requires sum != 0.0
  {
    weight / sum * v
  }

  lemma {:induction false} ShareSum(whole: real, a: real, b: real, sum: real, v: real)
    requires sum != 0.0 && whole == a + b
    ensures Share(whole, sum, v) == Share(a, sum, v) + Share(b, sum, v)
  {
    assert whole / sum == a / sum + b / sum;
  }

  lemma {:induction false} WholeShare(sum: real, v: real)
    requires sum != 0.0
    ensures Share(sum, sum, v) == v
  {
    assert sum / sum == 1.0;
  }

  lemma {:induction false} ShareSign(weight: real, sum: real, v: real)
    requires weight >= 0.0 && sum > 0.0 && v >= 0.0
    ensures Share(weight, sum, v) >= 0.0
  {
    assert weight / sum >= 0.0;
  }

  /** What each map holds after the shares have been added. */
  lemma {:induction false} SharesAt(weights: Weights, initial: Weights, targets: seq<MapId>, sum: real, v: real,
      id: MapId)
    requires sum != 0.0 && Distinct(targets)
    ensures var after := AddShares(weights, initial, targets, sum, v);
      && (id in after <==> id in weights || id in targets)
      && Get(after, id) == Get(weights, id) + if id in targets then Share(Get(initial, id), sum, v) else 0.0
    decreases |targets|
  {
    if targets != [] {
      var n := |targets| - 1;
      DistinctInit(targets);
      assert targets == targets[..n] + [targets[n]];
      SharesAt(weights, initial, targets[..n], sum, v, id);
    }
  }

  /** A share is to the whole amount as the map's initial weight is to the sum of these weights. */
  lemma {:induction false} ShareProportion(weight: real, sum: real, v: real)
    requires sum != 0.0
    ensures Share(weight, sum, v) * sum == weight * v
  {
    var part := weight / sum;
    assert part * sum == weight;
    assert part * v * sum == part * sum * v;
  }

  /** The source map is emptied, each target gets its share of that weight, and nobody else is concerned. */
  lemma {:induction false} TransferShares(weights: Weights, initial: Weights, from: MapId, targets: seq<MapId>,
      c: MapId)
    requires Total(initial, targets) != 0.0 && Distinct(targets) && from !in targets
    ensures Get(Transfer(weights, initial, from, targets), c) ==
      if c == from then 0.0
      else Get(weights, c)
           + if c in targets then Share(Get(initial, c), Total(initial, targets), Get(weights, from)) else 0.0
  {
    hide Share, AddShares, Total, Distinct;
    SharesAt(weights[from := 0.0], initial, targets, Total(initial, targets), Get(weights, from), c);
  }

  lemma {:induction false} TransferConserves(weights: Weights, initial: Weights, from: MapId, targets: seq<MapId>,
      ids: seq<MapId>)
    requires Total(initial, targets) != 0.0 && Distinct(ids) && from in ids && forall id | id in targets :: id in ids
    ensures Total(Transfer(weights, initial, from, targets), ids) == Total(weights, ids)
  {
    var sum, v := Total(initial, targets), Get(weights, from);
    TotalUpdate(weights, ids, from, 0.0);
    SharesTotal(weights[from := 0.0], initial, targets, sum, v, ids);
    WholeShare(sum, v);
  }

  /** Adds the shares in a loop over the targets. */
  method TransferWeightProportionally(weights: Weights, initial: Weights, from: MapId, targets: seq<MapId>)
    returns (adjusted: Weights)
    requires Total(initial, targets) != 0.0
    ensures adjusted == Transfer(weights, initial, from, targets)
  {
    var v := Get(weights, from);
    adjusted := weights[from := 0.0];
    var weightSum := Total(initial, targets);
    for n := 0 to |targets|
      invariant adjusted == AddShares(weights[from := 0.0], initial, targets[..n], weightSum, v)
    {
      assert targets[..n + 1][..n] == targets[..n];
      adjusted := adjusted[targets[n] := Get(adjusted, targets[n]) + Share(Get(initial, targets[n]), weightSum, v)];
    }
    assert targets[..|targets|] == targets;
  }

  // ----- The ranking by plays

  lemma {:induction false} OccurrencesDistinct(played: seq<MapId>)
    ensures Distinct(FirstOccurrences(played))
    ensures forall id :: id in FirstOccurrences(played) <==> id in played
    decreases |played|
  {
    if played != [] {
      var n := |played| - 1;
      OccurrencesDistinct(played[..n]);
      if played[n] !in FirstOccurrences(played[..n]) { DistinctSnoc(FirstOccurrences(played[..n]), played[n]); }
      assert played == played[..n] + [played[n]];
    }
  }

  lemma {:induction false} InsertRanked(ranking: seq<MapId>, id: MapId, played: seq<MapId>)
    requires Distinct(ranking) && Ranked(ranking, played) && id !in ranking
    ensures var r := InsertByPlays(ranking, id, played);
      Distinct(r) && Ranked(r, played) && forall x :: x in r <==> x in ranking || x == id
    decreases |ranking|
  {
    if ranking == [] || Plays(played, id) > Plays(played, ranking[0]) {
      assert ([id] + ranking)[1..] == ranking;
    } else {
      assert ranking == [ranking[0]] + ranking[1..];
      var rest := InsertByPlays(ranking[1..], id, played);
      InsertRanked(ranking[1..], id, played);
      assert ([ranking[0]] + rest)[1..] == rest;
    }
  }

  lemma {:induction false} RankByPlaysRanked(ids: seq<MapId>, played: seq<MapId>)
    requires Distinct(ids)
    ensures var r := RankByPlays(ids, played);
      Distinct(r) && Ranked(r, played) && forall x :: x in r <==> x in ids
    decreases |ids|
  {
    if ids != [] {
      var n := |ids| - 1;
      DistinctInit(ids);
      RankByPlaysRanked(ids[..n], played);
      InsertRanked(RankByPlays(ids[..n], played), ids[n], played);
      assert ids == ids[..n] + [ids[n]];
    }
  }

  lemma {:induction false} PlaysPositive(played: seq<MapId>, id: MapId)
    ensures Plays(played, id) > 0 <==> id in played
    decreases |played|
  {
    if played != [] {
      PlaysPositive(played[1..], id);
      assert played == [played[0]] + played[1..];
    }
  }

  /** The ranking holds each played map once, most played first. */
  ghost predicate IsRanking(ranking: seq<MapId>, played: seq<MapId>) {
    && Distinct(ranking) && Ranked(ranking, played) && AllPlayed(ranking, played)
    && (forall id :: id in ranking <==> id in played)
  }

  ghost predicate AllPlayed(ranking: seq<MapId>, played: seq<MapId>) {
    forall i | 0 <= i < |ranking| :: Plays(played, ranking[i]) > 0
  }

  lemma {:induction false} MostCommonIsRanking(played: seq<MapId>)
    ensures IsRanking(MostCommon(played), played)
  {
    OccurrencesDistinct(played);
    RankByPlaysRanked(FirstOccurrences(played), played);
    forall i | 0 <= i < |MostCommon(played)| ensures Plays(played, MostCommon(played)[i]) > 0 {
      assert MostCommon(played)[i] in MostCommon(played);
      PlaysPositive(played, MostCommon(played)[i]);
    }
  }

  lemma {:induction false} RankedIndices(ids: seq<MapId>, played: seq<MapId>, i: nat, j: nat)
    requires Distinct(ids) && Ranked(ids, played) && i < j < |ids|
    ensures ids[i] != ids[j] && Plays(played, ids[i]) >= Plays(played, ids[j])
    decreases |ids|
  {
    if i > 0 {
      RankedIndices(ids[1..], played, i - 1, j - 1);
    } else {
      assert ids[1..][j - 1] == ids[j] && ids[1..][j - 1] in ids[1..];
    }
  }

  // ----- The whole adjustment

  /** What the adjustment works on: the maps that have weight, in dictionary order, and the plays of those maps. */
  ghost predicate Setup(initial: Weights, kept: seq<MapId>, played: seq<MapId>) {
    Distinct(kept) && (forall id | id in kept :: Get(initial, id) > 0.0) && (forall id | id in played :: id in kept)
  }

  lemma {:induction false} MoveAllowed(initial: Weights, kept: seq<MapId>, played: seq<MapId>, settings: Settings,
      id: MapId)
    requires Setup(initial, kept, played) && Plays(played, id) > 0
    ensures var targets := Targets(kept, initial, played, settings, id);
      && GoodTargets(targets, kept, played, Plays(played, id))
      && (targets != [] ==> Total(initial, targets) > 0.0)
      && id !in targets && id in kept
  {
    TargetsGood(kept, initial, played, settings, id);
    TotalPositive(initial, Targets(kept, initial, played, settings, id));
    PlaysPositive(played, id);
  }

  function MoveFrom(weights: Weights, initial: Weights, kept: seq<MapId>, played: seq<MapId>, settings: Settings,
      id: MapId): Weights
    requires Setup(initial, kept, played) && Plays(played, id) > 0
  {
    var targets := Targets(kept, initial, played, settings, id);
    MoveAllowed(initial, kept, played, settings, id);
    if targets == [] then weights else Transfer(weights, initial, id, targets)
  }

  function Process(
      initial: Weights, kept: seq<MapId>, played: seq<MapId>, settings: Settings, ranking: seq<MapId>, n: nat): Weights
    requires Setup(initial, kept, played) && n <= |ranking| && AllPlayed(ranking, played)
    decreases n
  {
    if n == 0 then map id | id in kept :: Get(initial, id)
    else
      var before := Process(initial, kept, played, settings, ranking, n - 1);
      MoveFrom(before, initial, kept, played, settings, ranking[n - 1])
  }

  /** One move: the total stays, no map goes negative, only the source map loses weight, and it loses all of it. */
  lemma {:induction false} MoveEffect(weights: Weights, initial: Weights, kept: seq<MapId>, played: seq<MapId>,
      settings: Settings, id: MapId, other: MapId)
    requires Setup(initial, kept, played) && Plays(played, id) > 0
    requires other in weights <==> other in kept
    requires Get(weights, id) >= 0.0
    ensures var after := MoveFrom(weights, initial, kept, played, settings, id);
      && (other in after <==> other in kept)
      && Total(after, kept) == Total(weights, kept)
      && (other != id ==> Get(after, other) >= Get(weights, other))
      && (other != id && Plays(played, other) >= Plays(played, id) ==> Get(after, other) == Get(weights, other))
      && Get(after, id) == if Targets(kept, initial, played, settings, id) == [] then Get(weights, id) else 0.0
  {
    var targets := Targets(kept, initial, played, settings, id);
    MoveAllowed(initial, kept, played, settings, id);
    if targets != [] {
      var sum, v := Total(initial, targets), Get(weights, id);
      SharesAt(weights[id := 0.0], initial, targets, sum, v, other);
      SharesAt(weights[id := 0.0], initial, targets, sum, v, id);
      TransferConserves(weights, initial, id, targets, kept);
      if other in targets { ShareSign(Get(initial, other), sum, v); }
    }
  }

  /** Any prefix of the moves: the keys, the total, the signs, and who can have lost weight. */
  lemma {:induction false} ProcessKeeps(
      initial: Weights, kept: seq<MapId>, played: seq<MapId>, settings: Settings, ranking: seq<MapId>, n: nat,
      id: MapId)
    requires Setup(initial, kept, played) && n <= |ranking| && AllPlayed(ranking, played)
    ensures var after := Process(initial, kept, played, settings, ranking, n);
      && (id in after <==> id in kept)
      && Total(after, kept) == Total(initial, kept)
      && Get(after, id) >= 0.0
    decreases n
  {
    if n == 0 {
      TotalSame(Process(initial, kept, played, settings, ranking, 0), initial, kept);
    } else {
      ProcessKeeps(initial, kept, played, settings, ranking, n - 1, id);
      ProcessKeeps(initial, kept, played, settings, ranking, n - 1, ranking[n - 1]);
      MoveEffect(
        Process(initial, kept, played, settings, ranking, n - 1), initial, kept, played, settings, ranking[n - 1], id);
    }
  }

  /** Before its turn a map can only gain. */
  lemma {:induction false} UntouchedGains(
      initial: Weights, kept: seq<MapId>, played: seq<MapId>, settings: Settings, ranking: seq<MapId>, n: nat,
      id: MapId)
    requires Setup(initial, kept, played) && n <= |ranking| && AllPlayed(ranking, played)
    requires id in kept && forall i | 0 <= i < n :: ranking[i] != id
    ensures Get(Process(initial, kept, played, settings, ranking, n), id) >= Get(initial, id)
    decreases n
  {
    hide Setup, Targets, MoveFrom;
    if n > 0 {
      UntouchedGains(initial, kept, played, settings, ranking, n - 1, id);
      ProcessKeeps(initial, kept, played, settings, ranking, n - 1, id);
      ProcessKeeps(initial, kept, played, settings, ranking, n - 1, ranking[n - 1]);
      MoveEffect(
        Process(initial, kept, played, settings, ranking, n - 1), initial, kept, played, settings, ranking[n - 1], id);
    }
  }

  /** A processed map with somewhere to send its weight stays at zero; one without keeps what it had at its turn. */
  lemma {:induction false} ProcessedMaps(
      initial: Weights, kept: seq<MapId>, played: seq<MapId>, settings: Settings, ranking: seq<MapId>, n: nat, j: nat)
    requires Setup(initial, kept, played) && j < n <= |ranking| && IsRanking(ranking, played)
    ensures Get(Process(initial, kept, played, settings, ranking, n), ranking[j]) ==
      if Targets(kept, initial, played, settings, ranking[j]) != [] then 0.0
      else Get(Process(initial, kept, played, settings, ranking, j), ranking[j])
    decreases n
  {
    hide Setup, Targets, MoveFrom, Ranked, Distinct;
    var before, from := Process(initial, kept, played, settings, ranking, n - 1), ranking[n - 1];
    ProcessKeeps(initial, kept, played, settings, ranking, n - 1, from);
    ProcessKeeps(initial, kept, played, settings, ranking, n - 1, ranking[j]);
    MoveEffect(before, initial, kept, played, settings, from, ranking[j]);
    if j < n - 1 {
      ProcessedMaps(initial, kept, played, settings, ranking, n - 1, j);
      RankedIndices(ranking, played, j, n - 1);
    }
  }

  /** The adjustment as a value. */
  function Adjusted(initial: Weights, ids: seq<MapId>, played: seq<MapId>, settings: Settings): Weights
    requires Distinct(ids)
  {
    var kept := Positive(initial, ids);
    var counted := Counted(played, kept);
    SetupHolds(initial, ids, played);
    MostCommonIsRanking(counted);
    Process(initial, kept, counted, settings, MostCommon(counted), |MostCommon(counted)|)
  }

  lemma {:induction false} PositiveMaps(initial: Weights, ids: seq<MapId>)
    requires Distinct(ids)
    ensures Distinct(Positive(initial, ids))
    ensures forall id :: id in Positive(initial, ids) <==> id in ids && Get(initial, id) > 0.0
    decreases |ids|
  {
    if ids != [] {
      PositiveMaps(initial, ids[1..]);
      var rest := Positive(initial, ids[1..]);
      assert ([ids[0]] + rest)[1..] == rest && [] + rest == rest && ids == [ids[0]] + ids[1..];
    }
  }

  lemma {:induction false} CountedMaps(played: seq<MapId>, kept: seq<MapId>, id: MapId)
    ensures id in Counted(played, kept) <==> id in played && id in kept
    ensures Plays(Counted(played, kept), id) == if id in kept then Plays(played, id) else 0
    decreases |played|
  {
    if played != [] {
      CountedMaps(played[1..], kept, id);
      var rest := Counted(played[1..], kept);
      assert ([played[0]] + rest)[1..] == rest && [] + rest == rest && played == [played[0]] + played[1..];
    }
  }

  lemma {:induction false} SetupHolds(initial: Weights, ids: seq<MapId>, played: seq<MapId>)
    requires Distinct(ids)
    ensures Setup(initial, Positive(initial, ids), Counted(played, Positive(initial, ids)))
  {
    PositiveMaps(initial, ids);
    forall id | id in Counted(played, Positive(initial, ids)) ensures id in Positive(initial, ids) {
      CountedMaps(played, Positive(initial, ids), id);
    }
  }

  /**
   * The map `c` may receive weight of the played map `id`: it has weight itself, and either was not played and reaches
   * one of the thresholds, or was played less often and has enough weight for the difference.
   */
  ghost predicate CanReceive(initial: Weights, ids: seq<MapId>, played: seq<MapId>, settings: Settings, id: MapId,
      c: MapId)
    requires Plays(played, id) > 0
  {
    && c in ids && Get(initial, c) > 0.0
    && if Plays(played, c) == 0 then
         exists t :: IsThreshold(settings, Plays(played, id), t) && Get(initial, c) >= Times(t, Get(initial, id))
       else
         && Plays(played, c) < Plays(played, id)
         && Get(initial, c)
            >= Times(Pow(settings.repeatFactor, Plays(played, id) - Plays(played, c)), Get(initial, id))
  }

  /** The map has weight and was played, and some other map may receive its weight. */
  ghost predicate CanMove(initial: Weights, ids: seq<MapId>, played: seq<MapId>, settings: Settings, id: MapId) {
    && id in ids && Get(initial, id) > 0.0 && Plays(played, id) > 0
    && exists c :: CanReceive(initial, ids, played, settings, id, c)
  }

  /** Counting only the plays of maps with weight makes no difference to those maps. */
  ghost predicate SamePlays(kept: seq<MapId>, counted: seq<MapId>, played: seq<MapId>) {
    forall c | c in kept :: Plays(counted, c) == Plays(played, c)
  }

  lemma {:induction false} TargetReceives(initial: Weights, ids: seq<MapId>, kept: seq<MapId>, counted: seq<MapId>,
      played: seq<MapId>, settings: Settings, id: MapId, c: MapId)
    requires (forall x :: x in kept <==> x in ids && Get(initial, x) > 0.0) && SamePlays(kept, counted, played)
    requires id in kept && Plays(counted, id) > 0 && c in Targets(kept, initial, counted, settings, id)
    ensures CanReceive(initial, ids, played, settings, id, c)
  {
    var w, n := Get(initial, id), Plays(played, id);
    var ts := Thresholds(settings, n);
    TargetsExactly(kept, initial, counted, settings, id);
    hide Targets, Thresholds, IsThreshold, Times, Pow, Plays, Reached;
    if forall j | 0 <= j < |ts| :: !Reached(kept, initial, counted, Times(ts[j], w)) {
      assert LessPlayed(kept, initial, counted, settings.repeatFactor, n, w, c);
    } else {
      var i :| 0 <= i < |ts| && FreeFor(kept, initial, counted, Times(ts[i], w), c);
      ThresholdList(settings, n, ts[i]);
      assert ts[i] in ts;
    }
  }

  lemma {:induction false} ReceiverExists(initial: Weights, ids: seq<MapId>, kept: seq<MapId>, counted: seq<MapId>,
      played: seq<MapId>, settings: Settings, id: MapId, c: MapId)
    requires (forall x :: x in kept <==> x in ids && Get(initial, x) > 0.0) && SamePlays(kept, counted, played)
    requires id in kept && Plays(counted, id) > 0 && CanReceive(initial, ids, played, settings, id, c)
    ensures Targets(kept, initial, counted, settings, id) != []
  {
    var w, n := Get(initial, id), Plays(played, id);
    var ts := Thresholds(settings, n);
    TargetsExactly(kept, initial, counted, settings, id);
    hide Targets, Thresholds, IsThreshold, Times, Pow, Plays;
    if Plays(played, c) == 0 {
      var t :| IsThreshold(settings, n, t) && Get(initial, c) >= Times(t, w);
      ThresholdList(settings, n, t);
      var j :| 0 <= j < |ts| && ts[j] == t;
      assert FreeFor(kept, initial, counted, Times(ts[j], w), c);
      assert Reached(kept, initial, counted, Times(ts[j], w));
    }
    if forall j | 0 <= j < |ts| :: !Reached(kept, initial, counted, Times(ts[j], w)) {
      assert LessPlayed(kept, initial, counted, settings.repeatFactor, n, w, c);
    } else {
      var i :| 0 <= i < |ts| && Decisive(kept, initial, counted, ts, w, i)
               && forall x :: x in Targets(kept, initial, counted, settings, id)
                         <==> FreeFor(kept, initial, counted, Times(ts[i], w), x);
      var x :| FreeFor(kept, initial, counted, Times(ts[i], w), x);
      assert x in Targets(kept, initial, counted, settings, id);
    }
  }

  /** A map has targets exactly if some map may receive its weight. */
  lemma {:induction false} TargetsIff(initial: Weights, ids: seq<MapId>, played: seq<MapId>, settings: Settings,
      id: MapId)
    requires Distinct(ids) && id in ids && Get(initial, id) > 0.0 && Plays(played, id) > 0
    ensures var kept := Positive(initial, ids);
      var counted := Counted(played, kept);
      && Plays(counted, id) == Plays(played, id)
      && (Targets(kept, initial, counted, settings, id) != [] <==> CanMove(initial, ids, played, settings, id))
  {
    var kept := Positive(initial, ids);
    var counted := Counted(played, kept);
    PositiveMaps(initial, ids);
    forall c | c in kept ensures Plays(counted, c) == Plays(played, c) { CountedMaps(played, kept, c); }
    hide Targets, Plays, Counted, Positive, Distinct, CanReceive;
    if Targets(kept, initial, counted, settings, id) != [] {
      TargetReceives(initial, ids, kept, counted, played, settings, id,
        Targets(kept, initial, counted, settings, id)[0]);
    }
    if c :| CanReceive(initial, ids, played, settings, id, c) {
      ReceiverExists(initial, ids, kept, counted, played, settings, id, c);
    }
  }

  /**
   * The adjustment conserves the total weight, keeps weights non-negative, never revives a map without weight, empties
   * every played map that has an admissible target, and takes weight from no other map.
   */
  lemma {:induction false} AntiRepetition(initial: Weights, ids: seq<MapId>, played: seq<MapId>, settings: Settings,
      id: MapId)
    requires Distinct(ids)
    ensures var kept, after := Positive(initial, ids), Adjusted(initial, ids, played, settings);
      && (id in after <==> id in ids && Get(initial, id) > 0.0)
      && Total(after, kept) == Total(initial, kept)
      && Get(after, id) >= 0.0
      && (Get(after, id) == 0.0 <==>
            !(id in ids && Get(initial, id) > 0.0) || CanMove(initial, ids, played, settings, id))
      && (id in ids && Get(initial, id) > 0.0 && !CanMove(initial, ids, played, settings, id) ==>
            Get(after, id) >= Get(initial, id))
  {
    var kept := Positive(initial, ids);
    var counted := Counted(played, kept);
    var ranking := MostCommon(counted);
    SetupHolds(initial, ids, played);
    PositiveMaps(initial, ids);
    MostCommonIsRanking(counted);
    PlaysPositive(counted, id);
    ProcessKeeps(initial, kept, counted, settings, ranking, |ranking|, id);
    CountedMaps(played, kept, id);
    if id in kept {
      FinalWeightOf(initial, kept, counted, settings, ranking, id);
      if Plays(played, id) > 0 { TargetsIff(initial, ids, played, settings, id); }
    }
  }

  lemma {:induction false} FinalWeightOf(
      initial: Weights, kept: seq<MapId>, played: seq<MapId>, settings: Settings, ranking: seq<MapId>, id: MapId)
    requires Setup(initial, kept, played) && IsRanking(ranking, played) && id in kept
    ensures var after := Process(initial, kept, played, settings, ranking, |ranking|);
      if Plays(played, id) > 0 && Targets(kept, initial, played, settings, id) != [] then Get(after, id) == 0.0
      else Get(after, id) >= Get(initial, id)
  {
    PlaysPositive(played, id);
    if id in ranking {
      var j :| 0 <= j < |ranking| && ranking[j] == id;
      forall i | 0 <= i < j ensures ranking[i] != id { RankedIndices(ranking, played, i, j); }
      ProcessedMaps(initial, kept, played, settings, ranking, |ranking|, j);
      UntouchedGains(initial, kept, played, settings, ranking, j, id);
    } else {
      UntouchedGains(initial, kept, played, settings, ranking, |ranking|, id);
    }
  }

  method ApplyAntirepetitionAdjustment(initial: Weights, ids: seq<MapId>, played: seq<MapId>, settings: Settings)
    returns (adjusted: Weights)
    requires Distinct(ids)
    ensures adjusted == Adjusted(initial, ids, played, settings)
  {
    hide Positive, Counted, MostCommon, Distinct, Ranked, Setup, Targets;
    var kept := Positive(initial, ids);
    var counted := Counted(played, kept);
    var ranking := MostCommon(counted);
    SetupHolds(initial, ids, played);
    MostCommonIsRanking(counted);
    adjusted := map id | id in kept :: Get(initial, id);
    for n := 0 to |ranking|
      invariant adjusted == Process(initial, kept, counted, settings, ranking, n)
    {
      MoveAllowed(initial, kept, counted, settings, ranking[n]);
      var targets := Targets(kept, initial, counted, settings, ranking[n]);
      if targets != [] {
        adjusted := TransferWeightProportionally(adjusted, initial, ranking[n], targets);
      }
    }
  }

  // ----- Choosing a map

  datatype PoolMap = PoolMap(id: int, versionId: MapId, weight: nat)

  datatype Choice = Chosen(map_: PoolMap) | EmptyPool | NoWeight

  function VersionIds(maps: seq<PoolMap>): seq<MapId> {
    if maps == [] then [] else [maps[0].versionId] + VersionIds(maps[1..])
  }

  /** The version ids of the played maps that are in the pool. */
  function PlayedVersions(maps: seq<PoolMap>, playedIds: seq<int>): seq<MapId>
    decreases |playedIds|
  {
    if playedIds == [] then [] else VersionOf(maps, playedIds[0]) + PlayedVersions(maps, playedIds[1..])
  }

  function VersionOf(maps: seq<PoolMap>, id: int): (found: seq<MapId>)
    decreases |maps|
  {
    if maps == [] then [] else if maps[0].id == id then [maps[0].versionId] else VersionOf(maps[1..], id)
  }

  /** The pool is a dictionary by id, and its maps have different versions. */
  ghost predicate Keyed(maps: seq<PoolMap>) {
    forall i, j | 0 <= i < |maps| && 0 <= j < |maps| && i != j ::
      maps[i].id != maps[j].id && maps[i].versionId != maps[j].versionId
  }

  lemma {:induction false} VersionFound(maps: seq<PoolMap>, id: int)
    requires Keyed(maps)
    ensures forall k | 0 <= k < |maps| && maps[k].id == id :: VersionOf(maps, id) == [maps[k].versionId]
    ensures (forall k | 0 <= k < |maps| :: maps[k].id != id) ==> VersionOf(maps, id) == []
    decreases |maps|
  {
    if maps != [] {
      VersionFound(maps[1..], id);
      assert forall k | 1 <= k < |maps| :: maps[1..][k - 1] == maps[k];
    }
  }

  /** A version counts as played as often as the map that has it. */
  lemma {:induction false} PlayedVersion(maps: seq<PoolMap>, playedIds: seq<int>, k: nat)
    requires Keyed(maps) && k < |maps|
    ensures Plays(PlayedVersions(maps, playedIds), maps[k].versionId) == Plays(playedIds, maps[k].id)
    decreases |playedIds|
  {
    if playedIds != [] {
      PlayedVersion(maps, playedIds[1..], k);
      VersionFound(maps, playedIds[0]);
      var rest := PlayedVersions(maps, playedIds[1..]);
      if j :| 0 <= j < |maps| && maps[j].id == playedIds[0] {
        assert ([maps[j].versionId] + rest)[1..] == rest;
      } else {
        assert [] + rest == rest;
      }
    }
  }

  function FinalWeight(adjusted: Weights, m: PoolMap): real {
    Get(adjusted, m.versionId) * m.weight as real
  }

  function FinalTotal(adjusted: Weights, maps: seq<PoolMap>): real
    decreases |maps|
  {
    if maps == [] then 0.0 else FinalWeight(adjusted, maps[0]) + FinalTotal(adjusted, maps[1..])
  }

  lemma {:induction false} FinalWeightSign(adjusted: Weights, m: PoolMap)
    requires Get(adjusted, m.versionId) >= 0.0
    ensures FinalWeight(adjusted, m) >= 0.0
    ensures FinalWeight(adjusted, m) > 0.0 <==> Get(adjusted, m.versionId) > 0.0 && m.weight > 0
  {
    var w := Get(adjusted, m.versionId);
    if w > 0.0 && m.weight > 0 { assert w * m.weight as real > 0.0; }
  }

  lemma {:induction false} FinalTotalSign(adjusted: Weights, maps: seq<PoolMap>)
    requires forall id :: Get(adjusted, id) >= 0.0
    ensures FinalTotal(adjusted, maps) >= 0.0
    ensures FinalTotal(adjusted, maps) > 0.0 <==> exists k :: 0 <= k < |maps| && FinalWeight(adjusted, maps[k]) > 0.0
    decreases |maps|
  {
    if maps != [] {
      FinalTotalSign(adjusted, maps[1..]);
      FinalWeightSign(adjusted, maps[0]);
      if k :| 0 <= k < |maps[1..]| && FinalWeight(adjusted, maps[1..][k]) > 0.0 {
        assert FinalWeight(adjusted, maps[k + 1]) > 0.0;
      }
      if k :| 0 <= k < |maps| && FinalWeight(adjusted, maps[k]) > 0.0 {
        assert k > 0 ==> FinalWeight(adjusted, maps[1..][k - 1]) > 0.0;
      }
    }
  }

  lemma {:induction false} VersionIdIn(maps: seq<PoolMap>, k: nat)
    requires k < |maps|
    ensures maps[k].versionId in VersionIds(maps)
    decreases |maps|
  {
    if k > 0 { VersionIdIn(maps[1..], k - 1); }
  }

  lemma {:induction false} VersionIndex(maps: seq<PoolMap>, id: MapId) returns (k: nat)
    requires id in VersionIds(maps)
    ensures k < |maps| && maps[k].versionId == id
    decreases |maps|
  {
    if maps[0].versionId == id { k := 0; } else { var j := VersionIndex(maps[1..], id); k := j + 1; }
  }

  /** With positive map weights, the choice can fail for lack of weight only if no map had any to begin with. */
  lemma {:induction false} FinalTotalPositive(initial: Weights, maps: seq<PoolMap>, played: seq<MapId>,
      settings: Settings)
    requires Distinct(VersionIds(maps)) && forall k | 0 <= k < |maps| :: maps[k].weight > 0
    ensures var adjusted := Adjusted(initial, VersionIds(maps), played, settings);
      FinalTotal(adjusted, maps) > 0.0 <==> exists k :: 0 <= k < |maps| && Get(initial, maps[k].versionId) > 0.0
  {
    hide Adjusted, CanMove, Positive, Distinct;
    var ids := VersionIds(maps);
    var kept, adjusted := Positive(initial, ids), Adjusted(initial, ids, played, settings);
    forall id
      ensures id in adjusted <==> id in ids && Get(initial, id) > 0.0
      ensures Get(adjusted, id) >= 0.0 && Total(adjusted, kept) == Total(initial, kept)
    {
      AntiRepetition(initial, ids, played, settings, id);
    }
    FinalTotalSign(adjusted, maps);
    forall k | 0 <= k < |maps|
      ensures FinalWeight(adjusted, maps[k]) > 0.0 <==> Get(adjusted, maps[k].versionId) > 0.0
    {
      FinalWeightSign(adjusted, maps[k]);
    }
    if k :| 0 <= k < |maps| && Get(initial, maps[k].versionId) > 0.0 {
      SomeMapKeepsWeight(initial, maps, adjusted, k);
    }
  }

  /** The total is conserved and was positive, so it is positive somewhere. */
  lemma {:induction false} SomeMapKeepsWeight(initial: Weights, maps: seq<PoolMap>, adjusted: Weights, k: nat)
    requires Distinct(VersionIds(maps)) && k < |maps| && Get(initial, maps[k].versionId) > 0.0
    requires Total(adjusted, Positive(initial, VersionIds(maps))) == Total(initial, Positive(initial, VersionIds(maps)))
    ensures exists j :: 0 <= j < |maps| && Get(adjusted, maps[j].versionId) > 0.0
  {
    var ids := VersionIds(maps);
    var kept := Positive(initial, ids);
    PositiveMaps(initial, ids);
    VersionIdIn(maps, k);
    TotalPositive(initial, kept);
    var id := SomePositive(adjusted, kept);
    var j := VersionIndex(maps, id);
  }

  /** The weighted random choice: some map whose final weight is positive. */
  method ChooseMap(maps: seq<PoolMap>, playedIds: seq<int>, initial: Weights, settings: Settings)
    returns (choice: Choice)
    requires Distinct(VersionIds(maps))
    ensures choice.EmptyPool? <==> maps == []
    ensures choice.Chosen? ==>
      choice.map_ in maps && choice.map_.weight > 0 && Get(initial, choice.map_.versionId) > 0.0
    ensures choice.Chosen? ==>
      !CanMove(initial, VersionIds(maps), PlayedVersions(maps, playedIds), settings, choice.map_.versionId)
    ensures (forall k | 0 <= k < |maps| :: maps[k].weight > 0) ==>
      (choice.Chosen? <==> exists k :: 0 <= k < |maps| && Get(initial, maps[k].versionId) > 0.0)
  {
    hide Adjusted, CanMove, Positive, Distinct;
    if maps == [] {
      return EmptyPool;
    }
    var ids, played := VersionIds(maps), PlayedVersions(maps, playedIds);
    var adjusted := ApplyAntirepetitionAdjustment(initial, ids, played, settings);
    forall id
      ensures id in adjusted <==> id in ids && Get(initial, id) > 0.0
      ensures Get(adjusted, id) >= 0.0
      ensures CanMove(initial, ids, played, settings, id) ==> Get(adjusted, id) == 0.0
    {
      AntiRepetition(initial, ids, played, settings, id);
    }
    FinalTotalSign(adjusted, maps);
    forall k | 0 <= k < |maps|
      ensures FinalWeight(adjusted, maps[k]) > 0.0 <==> Get(adjusted, maps[k].versionId) > 0.0 && maps[k].weight > 0
    {
      FinalWeightSign(adjusted, maps[k]);
    }
    if forall k | 0 <= k < |maps| :: maps[k].weight > 0 {
      FinalTotalPositive(initial, maps, played, settings);
    }
    if FinalTotal(adjusted, maps) <= 0.0 {
      return NoWeight;
    }
    var k :| 0 <= k < |maps| && FinalWeight(adjusted, maps[k]) > 0.0;
    choice := Chosen(maps[k]);
  }
}
