/** Weights of maps and their totals. */
module MapWeights {
  import opened Lists

  type MapId = int
  type Weights = map<MapId, real>

  function Get(weights: Weights, id: MapId): real {
    if id in weights then weights[id] else 0.0
  }

  function Total(weights: Weights, ids: seq<MapId>): real
    decreases |ids|
  {
    if ids == [] then 0.0 else Get(weights, ids[0]) + Total(weights, ids[1..])
  }

  lemma {:induction false} TotalSnoc(weights: Weights, ids: seq<MapId>, id: MapId)
    ensures Total(weights, ids + [id]) == Total(weights, ids) + Get(weights, id)
    decreases |ids|
  {
    if ids == [] {
      assert ids + [id] == [id];
    } else {
      TotalSnoc(weights, ids[1..], id);
      assert (ids + [id])[1..] == ids[1..] + [id];
    }
  }

  lemma {:induction false} TotalUpdate(weights: Weights, ids: seq<MapId>, id: MapId, w: real)
    requires Distinct(ids)
    ensures Total(weights[id := w], ids) == Total(weights, ids) + if id in ids then w - Get(weights, id) else 0.0
    decreases |ids|
  {
    if ids != [] { TotalUpdate(weights, ids[1..], id, w); }
  }

  lemma {:induction false} TotalPositive(initial: Weights, ids: seq<MapId>)
    requires forall id | id in ids :: Get(initial, id) > 0.0
    ensures Total(initial, ids) >= 0.0 && (ids != [] ==> Total(initial, ids) > 0.0)
    decreases |ids|
  {
    if ids != [] {
      assert ids[0] in ids && forall id | id in ids[1..] :: id in ids;
      TotalPositive(initial, ids[1..]);
    }
  }

  lemma {:induction false} TotalSame(a: Weights, b: Weights, ids: seq<MapId>)
    requires forall id | id in ids :: Get(a, id) == Get(b, id)
    ensures Total(a, ids) == Total(b, ids)
    decreases |ids|
  {
    if ids != [] {
      assert ids[0] in ids && forall id | id in ids[1..] :: id in ids;
      TotalSame(a, b, ids[1..]);
    }
  }

  /** Somewhere a positive total leaves a positive entry. */
  lemma {:induction false} SomePositive(weights: Weights, ids: seq<MapId>) returns (id: MapId)
    requires Total(weights, ids) > 0.0
    ensures id in ids && Get(weights, id) > 0.0
    decreases |ids|
  {
    if Get(weights, ids[0]) > 0.0 { id := ids[0]; } else { id := SomePositive(weights, ids[1..]); }
  }
}
