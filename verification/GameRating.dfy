/** From the outcomes of the armies to a published game that can be rated. */
module GameRating {
  import opened Options
  import opened Lists
  import opened GameResults

  type Player = nat

  const FFA_TEAM := 1

  datatype Failure = GameError | GameResolutionError | GameRatingError | ValueError | IndexError | AssertionError

  datatype GameOutcome = WON | LOST | DRAWN | UNDECIDED

  datatype Validity = VALID | UNKNOWN_RESULT | OTHER_INVALID(reason: nat)

  // ----- Resolving a game

  /** Converts what the players of two teams say into the outcomes of the teams. */
  function ResolveGame(outcomes: seq<set<ArmyOutcome>>): Result<seq<GameOutcome>, Failure> {
    if |outcomes| != 2 then Err(GameResolutionError)
    else
      var (victory0, victory1) := (VICTORY in outcomes[0], VICTORY in outcomes[1]);
      var (draw0, draw1) := (DRAW in outcomes[0], DRAW in outcomes[1]);
      if victory0 && victory1 then Err(GameResolutionError)
      else if victory0 || victory1 then Ok([if victory0 then WON else LOST, if victory1 then WON else LOST])
      else if draw0 && draw1 then Ok([DRAWN, DRAWN])
      else if draw0 || draw1 then Err(GameResolutionError)
      else if UNKNOWN in outcomes[0] + outcomes[1] || CONFLICTING in outcomes[0] + outcomes[1] then
        Err(GameResolutionError)
      else Ok([DRAWN, DRAWN])
  }

  /** One team won and the other lost, or both drew. */
  predicate Consistent(outcomes: seq<GameOutcome>) {
    outcomes == [WON, LOST] || outcomes == [LOST, WON] || outcomes == [DRAWN, DRAWN]
  }

  /**
   * A game is resolved exactly if there are two teams and they do not contradict each other: one claims victory alone,
   * or none does and both claim a draw, or everybody is defeated.
   */
  lemma {:induction false} ResolvedIff(outcomes: seq<set<ArmyOutcome>>)
    ensures ResolveGame(outcomes).Ok? <==>
      |outcomes| == 2 &&
      (|| (VICTORY in outcomes[0] <==> VICTORY !in outcomes[1])
       || (VICTORY !in outcomes[0] + outcomes[1] && DRAW in outcomes[0] && DRAW in outcomes[1])
       || outcomes[0] + outcomes[1] <= {DEFEAT})
    ensures ResolveGame(outcomes).Ok? ==> Consistent(ResolveGame(outcomes).value)
  {
    if |outcomes| == 2 {
      var all := outcomes[0] + outcomes[1];
      assert all <= {DEFEAT} <==> VICTORY !in all && DRAW !in all && UNKNOWN !in all && CONFLICTING !in all by {
        forall o | o in all && o != DEFEAT ensures o.VICTORY? || o.DRAW? || o.UNKNOWN? || o.CONFLICTING? {}
      }
    }
  }

  /** The order of the teams does not matter. */
  lemma {:induction false} ResolveSymmetric(a: set<ArmyOutcome>, b: set<ArmyOutcome>)
    ensures var (r, s) := (ResolveGame([a, b]), ResolveGame([b, a]));
      (r.Ok? <==> s.Ok?) && (r.Ok? ==> r.value[0] == s.value[1] && r.value[1] == s.value[0])
  {
    assert a + b == b + a;
  }

  // ----- The teams

  type Teams = map<Player, Option<int>>

  predicate HasTeam(players: seq<Player>, team: Teams) {
    forall p | p in players :: p in team && team[p].Some?
  }

  /** The teams in the order in which their first players come. */
  function TeamIds(players: seq<Player>, team: Teams): seq<int>
    requires HasTeam(players, team)
  {
    if players == [] then []
    else
      var n := |players| - 1;
      var before, id := TeamIds(players[..n], team), team[players[n]].value;
      if id == FFA_TEAM || id in before then before else before + [id]
  }

  function TeamMembers(players: seq<Player>, team: Teams, id: int): set<Player> {
    set p | p in players && p in team && team[p] == Some(id)
  }

  function FfaPlayers(players: seq<Player>, team: Teams): seq<Player>
    requires HasTeam(players, team)
  {
    if players == [] then []
    else
      var n := |players| - 1;
      FfaPlayers(players[..n], team) + if team[players[n]].value == FFA_TEAM then [players[n]] else []
  }

  /** Players without a team of their own are teams of one. */
  function Singles(players: seq<Player>): (sets: seq<set<Player>>)
    ensures |sets| == |players| && forall i | 0 <= i < |players| :: sets[i] == {players[i]}
  {
    if players == [] then [] else Singles(players[..|players| - 1]) + [{players[|players| - 1]}]
  }

  function TeamsOf(players: seq<Player>, team: Teams, ids: seq<int>): (sets: seq<set<Player>>)
    ensures |sets| == |ids| && forall i | 0 <= i < |ids| :: sets[i] == TeamMembers(players, team, ids[i])
  {
    if ids == [] then [] else TeamsOf(players, team, ids[..|ids| - 1]) + [TeamMembers(players, team, ids[|ids| - 1])]
  }

  function TeamSets(players: seq<Player>, team: Teams): seq<set<Player>>
    requires HasTeam(players, team)
  {
    TeamsOf(players, team, TeamIds(players, team)) + Singles(FfaPlayers(players, team))
  }

  lemma {:induction false} TeamIdsFit(players: seq<Player>, team: Teams)
    requires HasTeam(players, team)
    ensures Distinct(TeamIds(players, team))
    ensures forall id ::
      id in TeamIds(players, team) <==> id != FFA_TEAM && exists p | p in players :: team[p].value == id
    ensures |TeamIds(players, team)| + |FfaPlayers(players, team)| <= |players|
    decreases |players|
  {
    if players != [] {
      var n := |players| - 1;
      TeamIdsFit(players[..n], team);
      var before, id := TeamIds(players[..n], team), team[players[n]].value;
      if id != FFA_TEAM && id !in before { DistinctSnoc(before, id); }
      assert players == players[..n] + [players[n]];
    }
  }

  lemma {:induction false} FfaMember(players: seq<Player>, team: Teams, p: Player)
    requires HasTeam(players, team)
    ensures p in FfaPlayers(players, team) <==> p in players && team[p].value == FFA_TEAM
    decreases |players|
  {
    if players != [] {
      var n := |players| - 1;
      FfaMember(players[..n], team, p);
      assert players == players[..n] + [players[n]];
    }
  }

  lemma {:induction false} FfaDistinct(players: seq<Player>, team: Teams)
    requires HasTeam(players, team) && Distinct(players)
    ensures Distinct(FfaPlayers(players, team))
    decreases |players|
  {
    if players != [] {
      var n := |players| - 1;
      var before := FfaPlayers(players[..n], team);
      DistinctInit(players);
      FfaDistinct(players[..n], team);
      hide Distinct;
      FfaMember(players[..n], team, players[n]);
      assert before + [] == before;
      if team[players[n]].value == FFA_TEAM { DistinctSnoc(before, players[n]); }
    }
  }

  ghost predicate NonEmpty(sets: seq<set<Player>>) {
    forall i | 0 <= i < |sets| :: sets[i] != {}
  }

  ghost predicate Covers(sets: seq<set<Player>>, players: seq<Player>) {
    forall p :: p in players <==> exists i :: 0 <= i < |sets| && p in sets[i]
  }

  ghost predicate Disjoint(sets: seq<set<Player>>) {
    forall i, j | 0 <= i < j < |sets| :: sets[i] * sets[j] == {}
  }

  /** The team sets are disjoint, none is empty, and every player is in one. */
  ghost predicate IsPartition(sets: seq<set<Player>>, players: seq<Player>) {
    NonEmpty(sets) && Disjoint(sets) && Covers(sets, players)
  }

  lemma {:induction false} TeamSetsPartition(players: seq<Player>, team: Teams)
    requires HasTeam(players, team) && Distinct(players)
    ensures IsPartition(TeamSets(players, team), players)
    ensures |TeamSets(players, team)| <= |players|
  {
    var ids, ffa := TeamIds(players, team), FfaPlayers(players, team);
    TeamIdsFit(players, team);
    FfaDistinct(players, team);
    forall p ensures p in ffa <==> p in players && team[p].value == FFA_TEAM { FfaMember(players, team, p); }
    hide TeamIds, FfaPlayers, Distinct, TeamsOf, Singles, NonEmpty, Disjoint, Covers;
    SetsDisjoint(players, team, ids, ffa);
    SetsCover(players, team, ids, ffa);
  }

  /** The set at each place: the members of one team, or one player of none. */
  function SetAt(players: seq<Player>, team: Teams, ids: seq<int>, ffa: seq<Player>, i: nat): (s: set<Player>)
    requires i < |ids| + |ffa|
    ensures s == (TeamsOf(players, team, ids) + Singles(ffa))[i]
  {
    if i < |ids| then TeamMembers(players, team, ids[i]) else {ffa[i - |ids|]}
  }

  /**
   * Two players are on one side exactly if they have the same team number, which players for themselves do not share.
   */
  lemma {:induction false} SameTeamIff(players: seq<Player>, team: Teams, i: nat, p: Player, q: Player)
    requires HasTeam(players, team) && i < |TeamSets(players, team)| && p in TeamSets(players, team)[i] && q in players
    ensures p in players
    ensures q in TeamSets(players, team)[i] <==> p == q || (team[p] == team[q] && team[p].value != FFA_TEAM)
  {
    var ids, ffa := TeamIds(players, team), FfaPlayers(players, team);
    TeamIdsFit(players, team);
    FfaMember(players, team, p);
    var own := SetAt(players, team, ids, ffa, i);
    hide TeamsOf, Singles, TeamIds, FfaPlayers;
    if i < |ids| {
      assert ids[i] in ids;
    } else {
      assert ffa[i - |ids|] in ffa;
    }
  }

  lemma {:induction false} SetsDisjoint(players: seq<Player>, team: Teams, ids: seq<int>, ffa: seq<Player>)
    requires HasTeam(players, team) && Distinct(ids) && Distinct(ffa)
    requires forall id | id in ids :: id != FFA_TEAM
    requires forall p | p in ffa :: p in players && team[p].value == FFA_TEAM
    ensures Disjoint(TeamsOf(players, team, ids) + Singles(ffa))
  {
    var sets := TeamsOf(players, team, ids) + Singles(ffa);
    hide TeamsOf, Singles, Distinct;
    forall i, j | 0 <= i < j < |sets| ensures sets[i] * sets[j] == {} {
      var a, b := SetAt(players, team, ids, ffa, i), SetAt(players, team, ids, ffa, j);
      if j < |ids| {
        DistinctIndices(ids, i, j);
      } else if i < |ids| {
        assert ids[i] in ids && ffa[j - |ids|] in ffa;
      } else {
        DistinctIndices(ffa, i - |ids|, j - |ids|);
      }
    }
  }

  lemma {:induction false} SetsCover(players: seq<Player>, team: Teams, ids: seq<int>, ffa: seq<Player>)
    requires HasTeam(players, team)
    requires forall id :: id in ids <==> id != FFA_TEAM && exists p | p in players :: team[p].value == id
    requires forall p :: p in ffa <==> p in players && team[p].value == FFA_TEAM
    ensures var sets := TeamsOf(players, team, ids) + Singles(ffa); NonEmpty(sets) && Covers(sets, players)
  {
    var sets := TeamsOf(players, team, ids) + Singles(ffa);
    hide TeamsOf, Singles, Covers;
    forall i | 0 <= i < |sets| ensures sets[i] != {} && forall p | p in sets[i] :: p in players {
      SetMembers(players, team, ids, ffa, i);
    }
    assert NonEmpty(sets);
    hide NonEmpty;
    forall p | p in players ensures exists i :: 0 <= i < |sets| && p in sets[i] {
      if team[p].value == FFA_TEAM {
        var k :| 0 <= k < |ffa| && ffa[k] == p;
        assert p in SetAt(players, team, ids, ffa, |ids| + k);
      } else {
        var i := IdIndex(ids, team[p].value);
        assert p in SetAt(players, team, ids, ffa, i);
      }
    }
    CoversIntro(sets, players);
  }

  lemma {:induction false} CoversIntro(sets: seq<set<Player>>, players: seq<Player>)
    requires forall i, p | 0 <= i < |sets| && p in sets[i] :: p in players
    requires forall p | p in players :: exists i :: 0 <= i < |sets| && p in sets[i]
    ensures Covers(sets, players)
  {}

  lemma {:induction false} IdIndex(ids: seq<int>, id: int) returns (i: nat)
    requires id in ids
    ensures i < |ids| && ids[i] == id
  {
    i :| 0 <= i < |ids| && ids[i] == id;
  }

  lemma {:induction false} SetMembers(players: seq<Player>, team: Teams, ids: seq<int>, ffa: seq<Player>, i: nat)
    requires HasTeam(players, team) && i < |ids| + |ffa|
    requires forall id | id in ids :: exists p | p in players :: team[p].value == id
    requires forall p | p in ffa :: p in players
    ensures var s := SetAt(players, team, ids, ffa, i); s != {} && forall p | p in s :: p in players
  {
    var s := SetAt(players, team, ids, ffa, i);
    if i < |ids| {
      var id := ids[i];
      assert id in ids;
      var p :| p in players && team[p].value == id;
      assert p in s;
    } else {
      assert ffa[i - |ids|] in ffa;
    }
  }

  /** The teams of the players seen so far, in order of appearance. */
  ghost predicate Grouped(players: seq<Player>, team: Teams, ids: seq<int>, teams: map<int, set<Player>>,
      ffa: seq<Player>)
    requires HasTeam(players, team)
  {
    && ids == TeamIds(players, team) && ffa == FfaPlayers(players, team)
    && (forall id | id in ids :: id in teams) && (forall id | id in teams :: id in ids)
    && (forall id | id in teams :: teams[id] == TeamMembers(players, team, id))
  }

  /** The groups once one more player has been put where they belong. */
  function PutIds(ids: seq<int>, id: int): seq<int> {
    if id == FFA_TEAM || id in ids then ids else ids + [id]
  }

  function PutTeams(teams: map<int, set<Player>>, id: int, p: Player): map<int, set<Player>> {
    if id == FFA_TEAM then teams else teams[id := (if id in teams then teams[id] else {}) + {p}]
  }

  lemma {:induction false} GroupNext(players: seq<Player>, team: Teams, ids: seq<int>, teams: map<int, set<Player>>,
      ffa: seq<Player>, p: Player)
    requires HasTeam(players + [p], team) && HasTeam(players, team) && Grouped(players, team, ids, teams, ffa)
    ensures var id := team[p].value;
      Grouped(players + [p], team, PutIds(ids, id), PutTeams(teams, id, p), if id == FFA_TEAM then ffa + [p] else ffa)
  {
    assert p in players + [p];
    var id := team[p].value;
    var after := PutTeams(teams, id, p);
    hide TeamIds, FfaPlayers, TeamMembers, HasTeam;
    GroupIds(players, team, p);
    NoMembers(players, team, id);
    forall other | other in after
      ensures other in PutIds(ids, id) && after[other] == TeamMembers(players + [p], team, other)
    {
      MembersNext(players, team, p, other);
    }
  }

  lemma {:induction false} MembersNext(players: seq<Player>, team: Teams, p: Player, other: int)
    requires p in team && team[p].Some?
    ensures TeamMembers(players + [p], team, other)
      == TeamMembers(players, team, other) + if other == team[p].value then {p} else {}
  {}

  lemma {:induction false} NoMembers(players: seq<Player>, team: Teams, id: int)
    requires HasTeam(players, team)
    ensures id != FFA_TEAM && id !in TeamIds(players, team) ==> TeamMembers(players, team, id) == {}
    ensures FFA_TEAM !in TeamIds(players, team)
  {
    TeamIdsFit(players, team);
  }

  lemma {:induction false} GroupIds(players: seq<Player>, team: Teams, p: Player)
    requires HasTeam(players + [p], team) && HasTeam(players, team)
    ensures var ids, id := TeamIds(players, team), team[p].value;
      TeamIds(players + [p], team) == if id == FFA_TEAM || id in ids then ids else ids + [id]
    ensures FfaPlayers(players + [p], team)
      == if team[p].value == FFA_TEAM then FfaPlayers(players, team) + [p] else FfaPlayers(players, team)
  {
    assert (players + [p])[..|players|] == players;
  }

  /** The groups of the players seen so far, by team and in order of appearance. */
  method GetTeamSets(players: seq<Player>, team: Teams) returns (r: Result<seq<set<Player>>, Failure>)
    requires forall p | p in players :: p in team
    ensures r.Ok? <==> HasTeam(players, team)
    ensures r == if HasTeam(players, team) then Ok(TeamSets(players, team)) else Err(GameError)
  {
    if exists p | p in players :: team[p].None? {
      return Err(GameError);
    }
    var ids: seq<int>, teams: map<int, set<Player>>, ffa: seq<Player> := [], map[], [];
    hide Grouped, TeamIds, FfaPlayers, TeamMembers;
    GroupNothing(team);
    for i := 0 to |players|
      invariant Grouped(players[..i], team, ids, teams, ffa)
    {
      var p := players[i];
      var id := team[p].value;
      assert players[..i + 1] == players[..i] + [p];
      GroupNext(players[..i], team, ids, teams, ffa, p);
      if id == FFA_TEAM {
        ffa := ffa + [p];
      } else {
        if id !in ids { ids := ids + [id]; }
        teams := teams[id := (if id in teams then teams[id] else {}) + {p}];
      }
    }
    assert players[..|players|] == players;
    var sets := CollectTeams(players, team, ids, teams, ffa);
    return Ok(sets + Singles(ffa));
  }

  lemma {:induction false} GroupNothing(team: Teams)
    ensures Grouped([], team, [], map[], [])
  {}

  method CollectTeams(ghost players: seq<Player>, ghost team: Teams, ids: seq<int>, teams: map<int, set<Player>>,
      ghost ffa: seq<Player>) returns (sets: seq<set<Player>>)
    requires HasTeam(players, team) && Grouped(players, team, ids, teams, ffa)
    ensures sets == TeamsOf(players, team, TeamIds(players, team)) && ffa == FfaPlayers(players, team)
  {
    sets := [];
    for i := 0 to |ids|
      invariant sets == TeamsOf(players, team, ids[..i])
    {
      var id := ids[i];
      assert ids[..i + 1][..i] == ids[..i] && id in ids;
      sets := sets + [teams[id]];
    }
    assert ids[..|ids|] == ids;
  }

  // ----- The ended game

  datatype TeamSummary = TeamSummary(outcome: GameOutcome, players: set<Player>)

  datatype EndedGame = EndedGame(validity: Validity, teams: seq<TeamSummary>)

  function Summaries(outcomes: seq<GameOutcome>, sets: seq<set<Player>>): (teams: seq<TeamSummary>)
    requires |outcomes| == |sets|
    ensures |teams| == |sets| && forall i | 0 <= i < |sets| :: teams[i] == TeamSummary(outcomes[i], sets[i])
  {
    if sets == [] then []
    else
      var n := |sets| - 1;
      Summaries(outcomes[..n], sets[..n]) + [TeamSummary(outcomes[n], sets[n])]
  }

  function FromBasic(validity: Validity, outcomes: seq<GameOutcome>, sets: seq<set<Player>>):
    Result<EndedGame, Failure>
  {
    if |sets| != |outcomes| then Err(ValueError) else Ok(EndedGame(validity, Summaries(outcomes, sets)))
  }

  function OutcomesOf(teams: seq<TeamSummary>): (outcomes: seq<GameOutcome>)
    ensures |outcomes| == |teams| && forall i | 0 <= i < |teams| :: outcomes[i] == teams[i].outcome
  {
    if teams == [] then [] else OutcomesOf(teams[..|teams| - 1]) + [teams[|teams| - 1].outcome]
  }

  /** Two disjoint teams that are not empty, one of which won and the other lost, or which drew. */
  ghost predicate Ratable(info: EndedGame) {
    && |info.teams| == 2 && Consistent(OutcomesOf(info.teams))
    && info.teams[0].players != {} && info.teams[1].players != {}
    && info.teams[0].players * info.teams[1].players == {}
  }

  function Undecided(n: nat): (outcomes: seq<GameOutcome>)
    ensures |outcomes| == n && forall i | 0 <= i < n :: outcomes[i] == UNDECIDED
  {
    if n == 0 then [] else Undecided(n - 1) + [UNDECIDED]
  }

  class Game {
    const players: seq<Player>
    const team: Teams
    const army: map<Player, Option<int>>
    const results: GameResultReports
    /** The score that counts for an army. */
    const score: int -> int
    /** A ladder game with the outcome override switched on. */
    const overrides: bool
    var launched: bool
    var validity: Validity

    constructor (players: seq<Player>, team: Teams, army: map<Player, Option<int>>, results: GameResultReports,
                 score: int -> int, overrides: bool)
      ensures this.players == players && this.team == team && this.army == army && this.results == results
      ensures this.score == score && this.overrides == overrides && !launched && validity == VALID
    {
      this.players, this.team, this.army, this.results := players, team, army, results;
      this.score, this.overrides, launched, validity := score, overrides, false, VALID;
    }

    ghost predicate Valid()
      reads this, results
    {
      results.Valid() && Distinct(players) && forall p | p in players :: p in team && p in army
    }

    ghost function PlayerOutcome(p: Player): ArmyOutcome
      requires p in army
      reads results`back
    {
      if army[p].None? then UNKNOWN else Decision(results.ReportsOf(army[p].value))
    }

    method GetPlayerOutcome(p: Player) returns (outcome: ArmyOutcome)
      requires Valid() && p in army
      modifies results`outcomes, results`dirtyArmies
      ensures Valid() && outcome == PlayerOutcome(p)
    {
      if army[p].None? {
        return UNKNOWN;
      }
      outcome := results.Outcome(army[p].value);
    }

    /** What the players of a team say, without repetition. */
    method TeamOutcomes(members: set<Player>) returns (outcomes: set<ArmyOutcome>)
      requires Valid() && forall p | p in members :: p in army
      modifies results`outcomes, results`dirtyArmies
      ensures Valid() && outcomes == set p | p in members :: PlayerOutcome(p)
    {
      outcomes := {};
      var left, done := members, {};
      while left != {}
        invariant left + done == members && Valid()
        invariant outcomes == set p | p in done :: PlayerOutcome(p)
        decreases left
      {
        var p :| p in left;
        var outcome := GetPlayerOutcome(p);
        outcomes, left, done := outcomes + {outcome}, left - {p}, done + {p};
      }
      assert done == members;
    }

    ghost predicate Known(sets: seq<set<Player>>) {
      forall i, p | 0 <= i < |sets| && p in sets[i] :: p in army
    }

    /** What the players of each team say. */
    ghost function Said(sets: seq<set<Player>>): seq<set<ArmyOutcome>>
      requires Known(sets)
      reads results`back
    {
      if sets == [] then []
      else
        var n := |sets| - 1;
        Said(sets[..n]) + [set p | p in sets[n] :: PlayerOutcome(p)]
    }

    method PartialOutcomes(sets: seq<set<Player>>) returns (partial: seq<set<ArmyOutcome>>)
      requires Valid() && Known(sets)
      modifies results`outcomes, results`dirtyArmies
      ensures Valid() && partial == Said(sets)
    {
      partial := [];
      for i := 0 to |sets|
        invariant Valid() && partial == Said(sets[..i])
      {
        var outcomes := TeamOutcomes(sets[i]);
        assert sets[..i + 1][..i] == sets[..i];
        partial := partial + [outcomes];
      }
      assert sets[..|sets|] == sets;
    }

    /** The score of some player of the team. */
    ghost predicate ScoredBy(n: int, members: set<Player>)
      requires forall p | p in members :: p in army
    {
      exists p | p in members :: n == ScoreOf(p)
    }

    function ScoreOf(p: Player): int
      requires p in army
    {
      if army[p].None? then 0 else score(army[p].value)
    }

    method TeamScore(members: set<Player>) returns (n: int)
      requires members != {} && forall p | p in members :: p in army
      ensures ScoredBy(n, members)
    {
      var p :| p in members;
      n := ScoreOf(p);
    }

    /** In a ladder game of two the scores decide; a single team makes it fail. */
    method OutcomeOverrideHook(sets: seq<set<Player>>) returns (r: Result<Option<seq<GameOutcome>>, Failure>)
      requires |sets| <= |players| && Known(sets) && NonEmpty(sets)
      ensures !overrides || |players| > 2 ==> r == Ok(None)
      ensures overrides && |players| <= 2 && |sets| < 2 ==> r == Err(IndexError)
      ensures overrides && |players| <= 2 && |sets| >= 2 ==>
        |sets| == 2 && exists a, b :: ScoredBy(a, sets[0]) && ScoredBy(b, sets[1]) && r == Ok(Some(ByScores(a, b)))
    {
      if !overrides || |players| > 2 {
        return Ok(None);
      }
      if |sets| < 2 {
        return Err(IndexError);
      }
      var a := TeamScore(sets[0]);
      var b := TeamScore(sets[1]);
      return Ok(Some(ByScores(a, b)));
    }

    /** The override applies to games of at most two players and needs two teams. */
    predicate Overridden() {
      overrides && |players| <= 2
    }

    /**
     * How the outcomes of the teams are found: by the scores in an overridden game, else by what the players say, in
     * which case a game that cannot be resolved does not stay valid.
     */
    ghost predicate Decided(sets: seq<set<Player>>, before: Validity, r: Result<seq<GameOutcome>, Failure>)
      requires Known(sets)
      reads `validity, results`back
    {
      if Overridden() then
        && validity == before
        && if |sets| < 2 then r == Err(IndexError)
           else |sets| == 2 && exists a, b :: ScoredBy(a, sets[0]) && ScoredBy(b, sets[1]) && r == Ok(ByScores(a, b))
      else if ResolveGame(Said(sets)).Ok? then
        r == ResolveGame(Said(sets)) && validity == before
      else
        r == Ok(Undecided(|sets|)) && validity == if before.VALID? then UNKNOWN_RESULT else before
    }

    lemma {:induction false} DecidedFits(sets: seq<set<Player>>, before: Validity, r: Result<seq<GameOutcome>, Failure>)
      requires Known(sets) && Decided(sets, before, r)
      ensures r.Err? <==> Overridden() && |sets| < 2
      ensures Overridden() && r.Ok? ==> |sets| == 2
      ensures r.Err? ==> r.error == IndexError
      ensures r.Ok? ==> |r.value| == |sets| && (validity.VALID? ==> Consistent(r.value))
    {
      SaidLength(sets);
      ResolvedIff(Said(sets));
      hide Said, ResolveGame, ScoredBy, Undecided;
    }

    /** The outcomes of the teams, and whether the game stays valid. */
    method DecideOutcomes(sets: seq<set<Player>>) returns (r: Result<seq<GameOutcome>, Failure>)
      requires Valid() && Known(sets) && |sets| <= |players| && NonEmpty(sets)
      modifies `validity, results`outcomes, results`dirtyArmies
      ensures Valid()
      ensures Decided(sets, old(validity), r)
    {
      hide Undecided, ScoredBy, ResolveGame, Distinct, NonEmpty;
      var partial := PartialOutcomes(sets);
      var hook := OutcomeOverrideHook(sets);
      if hook.Err? {
        return Err(hook.error);
      }
      if hook.value.Some? {
        return Ok(hook.value.value);
      }
      var resolved := ResolveGame(partial);
      if resolved.Ok? {
        return resolved;
      }
      if validity.VALID? {
        validity := UNKNOWN_RESULT;
      }
      return Ok(Undecided(|sets|));
    }

    lemma {:induction false} SaidLength(sets: seq<set<Player>>)
      requires Known(sets)
      ensures |Said(sets)| == |sets|
      decreases |sets|
    {
      if sets != [] { SaidLength(sets[..|sets| - 1]); }
    }

    lemma {:induction false} KnownPartition(sets: seq<set<Player>>)
      requires IsPartition(sets, players) && forall p | p in players :: p in army
      ensures Known(sets) && NonEmpty(sets)
    {
      assert forall i, p | 0 <= i < |sets| && p in sets[i] :: p in players;
    }

    /** The game was launched, every player has a team and an army, and the override has two teams to compare. */
    ghost predicate CanResolve()
      reads `launched
    {
      && launched && HasTeam(players, team) && (forall p | p in players :: p in army && army[p].Some?)
      && (Overridden() ==> |TeamSets(players, team)| == 2)
    }

    /** The teams of a launched game, if every player has a team and an army. */
    method RatedTeams() returns (r: Result<seq<set<Player>>, Failure>)
      requires Distinct(players) && forall p | p in players :: p in team && p in army
      ensures r.Ok? <==> launched && HasTeam(players, team) && forall p | p in players :: army[p].Some?
      ensures r.Ok? ==> r.value == TeamSets(players, team) && IsPartition(r.value, players) && |r.value| <= |players|
      ensures r.Err? ==> r.error == GameError || r.error == AssertionError
    {
      if !launched {
        return Err(GameError);
      }
      r := GetTeamSets(players, team);
      if r.Ok? {
        TeamSetsPartition(players, team);
        if exists p | p in players :: army[p].None? {
          return Err(AssertionError);
        }
      }
    }

    /** What comes out: the game's teams, and outcomes that can be rated if the game is still valid. */
    ghost predicate Fits(info: EndedGame)
      reads `validity
    {
      && info.validity == validity && (validity.VALID? ==> Ratable(info))
      && HasTeam(players, team) && PlayersOf(info.teams) == TeamSets(players, team)
    }

    /** The second half of the pipeline: the outcomes of the teams, and the summary of the game. */
    method SummarizeTeams(sets: seq<set<Player>>) returns (r: Result<EndedGame, Failure>)
      requires Valid() && IsPartition(sets, players) && |sets| <= |players|
      modifies `validity, results`outcomes, results`dirtyArmies
      ensures Valid()
      ensures r.Ok? <==> (Overridden() ==> |sets| == 2)
      ensures if r.Err? then r.error == IndexError
              else && r.value.validity == validity && PlayersOf(r.value.teams) == sets
                   && (validity.VALID? ==> Ratable(r.value))
    {
      assert forall p | p in players :: p in army;
      hide Valid, Distinct, Undecided, Said, ResolveGame, ScoredBy, Known, IsPartition, NonEmpty, Consistent, FromBasic,
           Ratable, PlayersOf, ByScores, Decided;
      KnownPartition(sets);
      ghost var before := validity;
      var outcomes := DecideOutcomes(sets);
      DecidedFits(sets, before, outcomes);
      if outcomes.Err? {
        return Err(IndexError);
      }
      r := FromBasic(validity, outcomes.value, sets);
      FromBasicFits(validity, outcomes.value, sets, players);
    }

    /** The whole pipeline; a game that comes out as valid can be rated. */
    method ResolveGameResults() returns (r: Result<EndedGame, Failure>)
      requires Valid()
      modifies `validity, results`outcomes, results`dirtyArmies
      ensures Valid()
      ensures r.Ok? <==> CanResolve()
      ensures if r.Ok? then Fits(r.value) else r.error in {GameError, AssertionError, IndexError}
    {
      assert Distinct(players) && forall p | p in players :: p in team && p in army;
      hide Valid, TeamSets, Distinct, HasTeam, IsPartition, Ratable, PlayersOf;
      var sets := RatedTeams();
      if sets.Err? {
        return Err(sets.error);
      }
      r := SummarizeTeams(sets.value);
    }
  }

  function ByScores(a: int, b: int): (outcomes: seq<GameOutcome>)
    ensures Consistent(outcomes)
    ensures outcomes == [WON, LOST] <==> a > b
    ensures outcomes == [LOST, WON] <==> a < b
  {
    if a > b then [WON, LOST] else if a < b then [LOST, WON] else [DRAWN, DRAWN]
  }

  function PlayersOf(teams: seq<TeamSummary>): (sets: seq<set<Player>>)
    ensures |sets| == |teams| && forall i | 0 <= i < |teams| :: sets[i] == teams[i].players
  {
    if teams == [] then [] else PlayersOf(teams[..|teams| - 1]) + [teams[|teams| - 1].players]
  }

  lemma {:induction false} FromBasicFits(validity: Validity, outcomes: seq<GameOutcome>, sets: seq<set<Player>>,
      players: seq<Player>)
    requires |outcomes| == |sets| && IsPartition(sets, players)
    ensures var info := FromBasic(validity, outcomes, sets);
      && info.Ok? && info.value.validity == validity && PlayersOf(info.value.teams) == sets
      && (Consistent(outcomes) ==> Ratable(info.value))
  {
    var teams := Summaries(outcomes, sets);
    assert PlayersOf(teams) == sets;
    assert OutcomesOf(teams) == outcomes;
  }

  // ----- Rating it

  function FromGameInfo(info: EndedGame): Result<seq<TeamSummary>, Failure> {
    if |info.teams| != 2 then Err(ValueError) else Ok(info.teams)
  }

  function RanksFromTeamOutcomes(outcomes: seq<GameOutcome>): Result<seq<int>, Failure> {
    if outcomes == [DRAWN, DRAWN] then Ok([0, 0])
    else if outcomes == [WON, LOST] then Ok([0, 1])
    else if outcomes == [LOST, WON] then Ok([1, 0])
    else Err(GameRatingError)
  }

  /** The outcome each player gets; a player of several teams would get the last one's. */
  function OutcomeMap(teams: seq<TeamSummary>): map<Player, GameOutcome> {
    if teams == [] then map[]
    else
      var last := teams[|teams| - 1];
      OutcomeMap(teams[..|teams| - 1]) + map p | p in last.players :: last.outcome
  }

  /** A game can be turned into ranks exactly if it has two teams with outcomes that fit together. */
  lemma {:induction false} RanksIff(info: EndedGame)
    ensures (FromGameInfo(info).Ok? && RanksFromTeamOutcomes(OutcomesOf(info.teams)).Ok?)
      <==> |info.teams| == 2 && Consistent(OutcomesOf(info.teams))
  {}

  /**
   * From what the players report to the ranks: a game without an override can be rated exactly if its reports resolve,
   * a team ranks first exactly if somebody in it claims victory, and the teams rank equal exactly if nobody does.
   */
  lemma {:induction false} ReportsDecideRanks(reports: seq<set<ArmyOutcome>>, sets: seq<set<Player>>,
      players: seq<Player>, validity: Validity)
    requires |reports| == |sets| && IsPartition(sets, players)
    ensures var resolved := ResolveGame(reports);
      var outcomes := if resolved.Ok? then resolved.value else Undecided(|sets|);
      var info := FromBasic(validity, outcomes, sets);
      && info.Ok?
      && var ranks := RanksFromTeamOutcomes(OutcomesOf(info.value.teams));
         && (FromGameInfo(info.value).Ok? && ranks.Ok? <==> resolved.Ok?)
         && (resolved.Ok? ==>
               && |ranks.value| == 2
               && (forall i | 0 <= i < 2 :: ranks.value[i] < ranks.value[1 - i] <==> VICTORY in reports[i])
               && (ranks.value[0] == ranks.value[1] <==> VICTORY !in reports[0] + reports[1]))
  {
    var resolved := ResolveGame(reports);
    ResolvedIff(reports);
    if resolved.Ok? { ClaimsRank(reports, resolved.value); }
    var outcomes := if resolved.Ok? then resolved.value else Undecided(|sets|);
    hide ResolveGame, IsPartition;
    FromBasicFits(validity, outcomes, sets, players);
    var info := FromBasic(validity, outcomes, sets).value;
    assert OutcomesOf(info.teams) == outcomes;
    RanksIff(info);
    if resolved.Err? && |sets| == 2 { assert outcomes[0] == UNDECIDED; }
    hide FromBasic, OutcomesOf, RanksFromTeamOutcomes;
  }

  lemma {:induction false} ClaimsRank(reports: seq<set<ArmyOutcome>>, outcomes: seq<GameOutcome>)
    requires ResolveGame(reports) == Ok(outcomes) && |reports| == 2
    ensures var ranks := RanksFromTeamOutcomes(outcomes);
      && ranks.Ok? && |ranks.value| == 2
      && (forall i | 0 <= i < 2 :: ranks.value[i] < ranks.value[1 - i] <==> VICTORY in reports[i])
      && (ranks.value[0] == ranks.value[1] <==> VICTORY !in reports[0] + reports[1])
  {}

  /**
   * Rating a published valid game cannot fail, the winners get the better rank, and every player is given the outcome
   * of their own team.
   */
  lemma {:induction false} RatableRates(info: EndedGame)
    requires Ratable(info)
    ensures FromGameInfo(info).Ok?
    ensures var ranks := RanksFromTeamOutcomes(OutcomesOf(info.teams));
      && ranks.Ok? && |ranks.value| == 2
      && (ranks.value[0] < ranks.value[1] <==> info.teams[0].outcome == WON)
      && (ranks.value[1] < ranks.value[0] <==> info.teams[1].outcome == WON)
      && (ranks.value[0] == ranks.value[1] <==> info.teams[0].outcome == info.teams[1].outcome == DRAWN)
    ensures OutcomeMap(info.teams).Keys == info.teams[0].players + info.teams[1].players
    ensures forall i, p | 0 <= i < 2 && p in info.teams[i].players :: OutcomeMap(info.teams)[p] == info.teams[i].outcome
  {
    var teams := info.teams;
    assert OutcomesOf(teams) == [teams[0].outcome, teams[1].outcome];
    assert teams[..1][..0] == [] && teams[..1][0] == teams[0];
    assert OutcomeMap(teams[..1]) == map p | p in teams[0].players :: teams[0].outcome;
    forall p | p in teams[0].players ensures p !in teams[1].players {
      assert p !in teams[0].players * teams[1].players;
    }
  }
}
