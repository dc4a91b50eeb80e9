/**
 * The matchmaking service as a state machine. Every stretch between two suspension points is one transition; the
 * transitions are stated on whole sets of searches, and the service's methods are proved to carry them out.
 */
module LadderState {
  import opened Searches

  type Player = nat
  type QueueName = string
  type SearchId = nat
  type Key = (Player, QueueName)

  datatype PlayerState = Idle | SearchingLadder | StartingAutomatch | Busy

  /** The future of a search: open, resolved with the opposing team, or cancelled. */
  datatype Status = Pending | Matched(opponents: seq<Search>) | Cancelled

  datatype Record = Record(queue: QueueName, players: seq<Player>, rating: real, status: Status, attempts: nat)

  datatype Event = Started(players: seq<Player>) | Delivered(players: seq<Player>)

  /**
   * `registry` says which search a player has in which queue, `starting` holds the searches whose task has not run
   * yet, `snapshots` the lists that were handed to the matchmaker and have not been answered.
   */
  datatype State = State(
    registry: map<Key, SearchId>,
    states: map<Player, PlayerState>,
    records: map<SearchId, Record>,
    queues: map<QueueName, seq<SearchId>>,
    starting: set<SearchId>,
    snapshots: map<QueueName, seq<Search>>,
    history: seq<Event>
  )

  // ----- Searches and their players

  predicate HasSearch(registry: map<Key, SearchId>, p: Player) {
    exists k | k in registry :: k.0 == p
  }

  /** The searches some of these players take part in. */
  function Touched(registry: map<Key, SearchId>, players: seq<Player>): set<SearchId> {
    set k | k in registry && k.0 in players :: registry[k]
  }

  /** The searches some of these players have in one queue. */
  function TouchedIn(registry: map<Key, SearchId>, players: seq<Player>, q: QueueName): set<SearchId> {
    set k | k in registry && k.0 in players && k.1 == q :: registry[k]
  }

  function SearchOf(id: SearchId, record: Record): Search {
    Search(id, |record.players|, record.rating)
  }

  function Ids(team: seq<Search>): set<SearchId> {
    set x | x in team :: x.id
  }

  /** The players of a team, search by search. */
  function Members(records: map<SearchId, Record>, team: seq<Search>): seq<Player> {
    if team == [] then []
    else
      var x := team[|team| - 1];
      Members(records, team[..|team| - 1]) + if x.id in records then records[x.id].players else []
  }

  // ----- Cancelling

  function Drop(registry: map<Key, SearchId>, searches: set<SearchId>): map<Key, SearchId> {
    map k | k in registry && registry[k] !in searches :: registry[k]
  }

  function CancelRecords(records: map<SearchId, Record>, searches: set<SearchId>): map<SearchId, Record> {
    map id | id in records :: if id in searches then records[id].(status := Cancelled) else records[id]
  }

  /** Players who were searching and have no search left are idle again. */
  function Settle(states: map<Player, PlayerState>, registry: map<Key, SearchId>): map<Player, PlayerState> {
    map p | p in states ::
      if states[p].SearchingLadder? && !HasSearch(registry, p) then Idle else states[p]
  }

  function Cancel(s: State, searches: set<SearchId>): State {
    var registry := Drop(s.registry, searches);
    s.(registry := registry, records := CancelRecords(s.records, searches), states := Settle(s.states, registry))
  }

  // ----- Starting a search

  function SetStates(states: map<Player, PlayerState>, players: seq<Player>, v: PlayerState): map<Player, PlayerState> {
    states + map p | p in players :: v
  }

  function KeysIn(players: seq<Player>, q: QueueName): set<Key> {
    set p | p in players :: (p, q)
  }

  function Register(registry: map<Key, SearchId>, players: seq<Player>, q: QueueName, id: SearchId):
    map<Key, SearchId>
  {
    registry + map k | k in KeysIn(players, q) :: id
  }

  function StartSearch(s: State, players: seq<Player>, q: QueueName, id: SearchId, rating: real): State {
    var t := Cancel(s, TouchedIn(s.registry, players, q));
    t.(registry := Register(t.registry, players, q, id),
       states := SetStates(t.states, players, SearchingLadder),
       records := t.records[id := Record(q, players, rating, Pending, 0)],
       starting := t.starting + {id},
       history := t.history + [Started(players)])
  }

  function QueueOf(s: State, q: QueueName): seq<SearchId> {
    if q in s.queues then s.queues[q] else []
  }

  /** The task of a new search runs: it joins the queue, unless it has been cancelled in the meantime. */
  function RunTask(s: State, id: SearchId): State
    requires id in s.records
  {
    var q := s.records[id].queue;
    var t := s.(starting := s.starting - {id});
    if s.records[id].status.Pending? then t.(queues := s.queues[q := QueueOf(s, q) + [id]]) else t
  }

  /** The task of a resolved search wakes up and makes sure that the search is out of the queue. */
  function FinishTask(s: State, id: SearchId): State
    requires id in s.records && id in QueueOf(s, s.records[id].queue)
  {
    var q := s.records[id].queue;
    s.(queues := s.queues[q := Without(s.queues[q], id)])
  }

  // ----- Popping a queue

  function Listing(records: map<SearchId, Record>, ids: seq<SearchId>): seq<Search> {
    if ids == [] then []
    else
      var id := ids[|ids| - 1];
      Listing(records, ids[..|ids| - 1]) + if id in records then [SearchOf(id, records[id])] else []
  }

  function CountId(searches: seq<Search>, id: SearchId): nat {
    if searches == [] then 0
    else CountId(searches[..|searches| - 1], id) + if searches[|searches| - 1].id == id then 1 else 0
  }

  /** One more failed attempt for every search of the list. */
  function FailAttempt(records: map<SearchId, Record>, unmatched: seq<Search>): map<SearchId, Record> {
    map id | id in records :: records[id].(attempts := records[id].attempts + CountId(unmatched, id))
  }

  /** The first half of a pop: with too few players all searches fail, otherwise the matchmaker gets the list. */
  function Pop(s: State, q: QueueName, teamSize: nat): State {
    var searches := Listing(s.records, QueueOf(s, q));
    if Players(searches) < 2 * teamSize then s.(records := FailAttempt(s.records, searches))
    else s.(snapshots := s.snapshots[q := searches])
  }

  predicate IsCancelled(records: map<SearchId, Record>, team: seq<Search>) {
    exists x | x in team :: x.id in records && records[x.id].status.Cancelled?
  }

  predicate Alive(records: map<SearchId, Record>, m: Match) {
    !IsCancelled(records, m.a) && !IsCancelled(records, m.b)
  }

  function Accepted(records: map<SearchId, Record>, proposed: seq<Match>): seq<Match> {
    if proposed == [] then []
    else
      var m := proposed[|proposed| - 1];
      Accepted(records, proposed[..|proposed| - 1]) + if Alive(records, m) then [m] else []
  }

  function Rejected(records: map<SearchId, Record>, proposed: seq<Match>): seq<Search> {
    if proposed == [] then []
    else
      var m := proposed[|proposed| - 1];
      Rejected(records, proposed[..|proposed| - 1]) + if Alive(records, m) then [] else SearchesOf(m)
  }

  function Resolve(records: map<SearchId, Record>, m: Match): map<SearchId, Record> {
    map id | id in records ::
      if id in Ids(m.a) then records[id].(status := Matched(m.b))
      else if id in Ids(m.b) then records[id].(status := Matched(m.a))
      else records[id]
  }

  /** Single searches leave the queue at once, the parts of a team when their tasks wake up. */
  function LeaveQueue(queue: seq<SearchId>, m: Match): seq<SearchId> {
    if queue == [] then []
    else
      var id := queue[|queue| - 1];
      LeaveQueue(queue[..|queue| - 1], m) + if id in Ids(m.a) || id in Ids(m.b) then [] else [id]
  }

  function Mark(s: State, q: QueueName, teamSize: nat, m: Match): State {
    s.(records := Resolve(s.records, m),
       queues := if teamSize == 1 && q in s.queues then s.queues[q := LeaveQueue(s.queues[q], m)] else s.queues)
  }

  function MarkEach(s: State, q: QueueName, teamSize: nat, matches: seq<Match>): State {
    if matches == [] then s
    else Mark(MarkEach(s, q, teamSize, matches[..|matches| - 1]), q, teamSize, matches[|matches| - 1])
  }

  /** All other searches of the matched players are cancelled, and the players leave the registry. */
  function Deliver(s: State, m: Match): State {
    var own := Ids(SearchesOf(m));
    var players := Members(s.records, SearchesOf(m));
    var touched := Touched(s.registry, players);
    var registry := Drop(s.registry, touched);
    s.(registry := registry,
       records := CancelRecords(s.records, touched - own),
       states := SetStates(Settle(s.states, registry), players, StartingAutomatch),
       history := s.history + [Delivered(players)])
  }

  function DeliverEach(s: State, matches: seq<Match>): State {
    if matches == [] then s
    else Deliver(DeliverEach(s, matches[..|matches| - 1]), matches[|matches| - 1])
  }

  /** The second half of a pop, with what the matchmaker proposes for the snapshot. */
  function Commit(s: State, q: QueueName, teamSize: nat, proposed: seq<Match>, unmatched: seq<Search>): State {
    var matches := Accepted(s.records, proposed);
    var failed := unmatched + Rejected(s.records, proposed);
    var marked := MarkEach(s.(snapshots := s.snapshots - {q}), q, teamSize, matches);
    DeliverEach(marked.(records := FailAttempt(marked.records, failed)), matches)
  }
}
