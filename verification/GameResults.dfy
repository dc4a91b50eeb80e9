/** The results that players report for the armies of a game, and what is made of them. */
module GameResults {
  import opened Lists
  import opened Searches
  import opened Sorting

  datatype ArmyOutcome = VICTORY | DEFEAT | DRAW | UNKNOWN | CONFLICTING

  datatype ReportedOutcome = Victory | Defeat | Draw | MutualDraw

  function ToResolved(o: ReportedOutcome): ArmyOutcome {
    match o
    case Victory => VICTORY
    case Defeat => DEFEAT
    case Draw => DRAW
    case MutualDraw => DRAW
  }

  datatype Report = Report(reporter: int, army: int, outcome: ReportedOutcome)

  // ----- The decision

  /** The distinct players who reported this outcome. */
  function Voters(reports: seq<Report>, o: ReportedOutcome): set<int> {
    set r | r in reports && r.outcome == o :: r.reporter
  }

  function Votes(reports: seq<Report>, o: ReportedOutcome): nat {
    |Voters(reports, o)|
  }

  /**
   * The outcome `o` is decided: it is the only one reported, or it has several voters and every other outcome at most
   * one, or it is ahead of every other outcome by three voters.
   */
  ghost predicate Wins(reports: seq<Report>, o: ReportedOutcome) {
    var n := Votes(reports, o);
    n > 0 && (
      || (forall p | p != o :: Votes(reports, p) == 0)
      || (n > 1 && forall p | p != o :: Votes(reports, p) <= 1)
      || (forall p | p != o :: n >= Votes(reports, p) + 3))
  }

  ghost function Decision(reports: seq<Report>): ArmyOutcome {
    if reports == [] then UNKNOWN
    else if exists o :: Wins(reports, o) then
      WinnerUnique(reports);
      var o :| Wins(reports, o);
      ToResolved(o)
    else CONFLICTING
  }

  /** At most one outcome is decided, and it has strictly more voters than any other. */
  lemma {:induction false} WinnerUnique(reports: seq<Report>)
    ensures forall o, p | Wins(reports, o) && p != o :: Votes(reports, p) < Votes(reports, o)
    ensures forall o, p | Wins(reports, o) && Wins(reports, p) :: o == p
  {}

  lemma {:induction false} SameWinners(a: seq<Report>, b: seq<Report>)
    requires forall o :: Votes(a, o) == Votes(b, o)
    ensures forall o :: Wins(a, o) <==> Wins(b, o)
  {
    hide Votes;
    forall o ensures Wins(a, o) <==> Wins(b, o) {
      assert Votes(a, o) == Votes(b, o);
      assert forall p :: Votes(a, p) == Votes(b, p);
    }
  }

  /** Only who reported what matters: neither the order of the reports nor how often one of them is repeated. */
  lemma {:induction false} DecisionOfSet(a: seq<Report>, b: seq<Report>)
    requires forall r :: r in a <==> r in b
    ensures Decision(a) == Decision(b)
  {
    forall o ensures Votes(a, o) == Votes(b, o) { assert Voters(a, o) == Voters(b, o); }
    assert a == [] <==> b == [] by {
      if a != [] { assert a[0] in a; }
      if b != [] { assert b[0] in b; }
    }
    hide Votes;
    SameWinners(a, b);
    WinnerUnique(a);
    WinnerUnique(b);
  }

  // ----- Computing it

  type Tally = map<ReportedOutcome, set<int>>

  /** The tally of these reports: an outcome is in it if somebody reported it. */
  ghost predicate IsTally(tally: Tally, reports: seq<Report>) {
    && (forall o :: o in tally <==> Voters(reports, o) != {})
    && (forall o | o in tally :: tally[o] == Voters(reports, o))
  }

  /** The place of an outcome's name among all names; ties are broken by it. */
  function NameRank(o: ReportedOutcome): nat {
    match o
    case Defeat => 0
    case Draw => 1
    case MutualDraw => 2
    case Victory => 3
  }

  /** The most voters come first, and the last name among those with as many. */
  function SortKey(tally: Tally): ReportedOutcome -> real {
    o => -((if o in tally then 4 * |tally[o]| else 0) + NameRank(o)) as real
  }

  function Reported(tally: Tally, names: seq<ReportedOutcome>): seq<ReportedOutcome> {
    if names == [] then []
    else (if names[0] in tally then [names[0]] else []) + Reported(tally, names[1..])
  }

  lemma {:induction false} VotersSnoc(reports: seq<Report>, r: Report, o: ReportedOutcome)
    ensures Voters(reports + [r], o) == Voters(reports, o) + if r.outcome == o then {r.reporter} else {}
  {}

  method CountVoters(reports: seq<Report>) returns (tally: Tally)
    ensures IsTally(tally, reports)
  {
    tally := map[];
    for i := 0 to |reports|
      invariant IsTally(tally, reports[..i])
    {
      var r := reports[i];
      assert reports[..i + 1] == reports[..i] + [r];
      forall o
        ensures Voters(reports[..i + 1], o) == Voters(reports[..i], o) + if r.outcome == o then {r.reporter} else {}
      {
        VotersSnoc(reports[..i], r, o);
      }
      hide Voters;
      tally := tally[r.outcome := (if r.outcome in tally then tally[r.outcome] else {}) + {r.reporter}];
    }
    assert reports[..|reports|] == reports;
  }

  // ----- From the sorted outcomes to the decision

  lemma {:induction false} ReportedMember(tally: Tally, names: seq<ReportedOutcome>, o: ReportedOutcome)
    requires Distinct(names)
    ensures o in Reported(tally, names) <==> o in names && o in tally
    ensures Distinct(Reported(tally, names))
    decreases |names|
  {
    if names != [] {
      ReportedMember(tally, names[1..], o);
      ReportedMember(tally, names[1..], names[0]);
      var rest := Reported(tally, names[1..]);
      assert ([names[0]] + rest)[1..] == rest && [] + rest == rest && names == [names[0]] + names[1..];
    }
  }

  /** The first of the sorted outcomes is ahead of all others, the second is the best of the rest. */
  lemma {:induction false} SortedOutcomes(tally: Tally, names: seq<ReportedOutcome>)
    requires Distinct(names) && |names| >= 2 && forall o :: o in names <==> o in tally
    ensures var sorted := SortBy(names, SortKey(tally));
      && sorted[0] in tally && sorted[1] in tally && sorted[0] != sorted[1]
      && forall p | p in tally && p != sorted[0] :: |tally[p]| <= |tally[sorted[1]]| <= |tally[sorted[0]]|
  {
    var key := SortKey(tally);
    var sorted := SortBy(names, key);
    SortBySorted(names, key);
    forall o ensures o in sorted <==> o in names { SortByMember(names, key, o); }
    assert Distinct(sorted) by { SortByDistinct(names, key); }
    DistinctIndices(sorted, 0, 1);
    assert sorted[0] in sorted && sorted[1] in sorted;
    forall p | p in tally && p != sorted[0] ensures |tally[p]| <= |tally[sorted[1]]| <= |tally[sorted[0]]| {
      var j :| 0 <= j < |sorted| && sorted[j] == p;
      SortedIndices(sorted, key, 1, j);
      SortedIndices(sorted, key, 0, 1);
      KeyOrder(tally, sorted[1], p);
      KeyOrder(tally, sorted[0], sorted[1]);
    }
  }

  lemma {:induction false} KeyOrder(tally: Tally, o: ReportedOutcome, p: ReportedOutcome)
    requires o in tally && p in tally && SortKey(tally)(o) <= SortKey(tally)(p)
    ensures |tally[p]| <= |tally[o]|
  {}

  lemma {:induction false} SortByDistinct(names: seq<ReportedOutcome>, key: ReportedOutcome -> real)
    requires Distinct(names)
    ensures Distinct(SortBy(names, key))
  {
    forall o ensures Occurrences(SortBy(names, key), o) <= 1 {
      SortByOccurrences(names, key, o);
      DistinctOnce(names, o);
    }
    OnceDistinct(SortBy(names, key));
  }

  /** A single reported outcome is decided. */
  lemma {:induction false} OnlyOutcome(tally: Tally, reports: seq<Report>, o: ReportedOutcome)
    requires IsTally(tally, reports) && tally.Keys == {o}
    ensures Decision(reports) == ToResolved(o)
  {
    forall p | p != o ensures Votes(reports, p) == 0 { assert p !in tally.Keys; }
    assert o in tally && Voters(reports, o) != {};
    assert Wins(reports, o);
    WinnerUnique(reports);
    assert reports != [];
  }

  /** With several outcomes the votes of the first two decide. */
  lemma {:induction false} TopDecides(tally: Tally, reports: seq<Report>, top: ReportedOutcome, second: ReportedOutcome)
    requires IsTally(tally, reports) && top in tally && second in tally && top != second
    requires forall p | p in tally && p != top :: |tally[p]| <= |tally[second]| <= |tally[top]|
    ensures var (n, m) := (|tally[top]|, |tally[second]|);
      Decision(reports) == if (n > 1 && 1 >= m) || n >= m + 3 then ToResolved(top) else CONFLICTING
  {
    var (n, m) := (|tally[top]|, |tally[second]|);
    forall p | p != top ensures Votes(reports, p) <= m <= n {
      if p in tally { assert tally[p] == Voters(reports, p); }
    }
    assert Votes(reports, top) == n && Votes(reports, second) == m > 0;
    assert reports != [] by { assert Voters(reports, top) != {}; }
    hide Votes;
    WinnerUnique(reports);
    if (n > 1 && 1 >= m) || n >= m + 3 {
      assert Wins(reports, top);
    } else {
      forall o ensures !Wins(reports, o) {
        assert o != top ==> Votes(reports, o) <= Votes(reports, top);
      }
    }
  }

  method ComputeOutcome(reports: seq<Report>) returns (outcome: ArmyOutcome)
    ensures outcome == Decision(reports)
  {
    var voters := CountVoters(reports);
    var names := Reported(voters, [Victory, Defeat, Draw, MutualDraw]);
    NamesCounted(voters);
    hide IsTally, Decision, SortKey, Reported;
    if |names| == 0 {
      NothingReported(voters, reports);
      return UNKNOWN;
    }
    if |names| == 1 {
      assert voters.Keys == {names[0]} by { assert forall o :: o in names <==> o == names[0]; }
      OnlyOutcome(voters, reports, names[0]);
      return ToResolved(names[0]);
    }
    var sorted := SortBy(names, SortKey(voters));
    SortedOutcomes(voters, names);
    var topVotes, runnerUpVotes := |voters[sorted[0]]|, |voters[sorted[1]]|;
    TopDecides(voters, reports, sorted[0], sorted[1]);
    if (topVotes > 1 && 1 >= runnerUpVotes) || topVotes >= runnerUpVotes + 3 {
      outcome := ToResolved(sorted[0]);
    } else {
      outcome := CONFLICTING;
    }
  }

  lemma {:induction false} NamesCounted(tally: Tally)
    ensures var names := Reported(tally, [Victory, Defeat, Draw, MutualDraw]);
      Distinct(names) && forall o :: o in names <==> o in tally
  {
    var all := [Victory, Defeat, Draw, MutualDraw];
    assert Distinct(all) by { assert all[1..][1..][1..][1..] == []; }
    forall o ensures o in Reported(tally, all) <==> o in tally {
      ReportedMember(tally, all, o);
      assert o in all by {
        if o == Victory { assert all[0] == o; }
        assert all[1] == Defeat && all[2] == Draw && all[3] == MutualDraw;
      }
    }
    ReportedMember(tally, all, Victory);
  }

  lemma {:induction false} NothingReported(tally: Tally, reports: seq<Report>)
    requires IsTally(tally, reports) && forall o :: o !in tally
    ensures Decision(reports) == UNKNOWN
  {
    assert reports == [] || reports[0].reporter in Voters(reports, reports[0].outcome);
  }

  // ----- The reports of a game

  class GameResultReports {
    var back: map<int, seq<Report>>
    var outcomes: map<int, ArmyOutcome>
    var dirtyArmies: set<int>

    function ReportsOf(army: int): seq<Report>
      reads `back
    {
      if army in back then back[army] else []
    }

    /** A cached outcome that is not dirty is what would be computed now. */
    ghost predicate Valid()
      reads this
    {
      forall army | army in outcomes && army !in dirtyArmies :: outcomes[army] == Decision(ReportsOf(army))
    }

    constructor ()
      ensures Valid() && forall army :: ReportsOf(army) == []
    {
      back, outcomes, dirtyArmies := map[], map[], {};
    }

    method Add(result: Report)
      requires Valid()
      modifies this
      ensures Valid() && ReportsOf(result.army) == old(ReportsOf(result.army)) + [result]
      ensures forall army | army != result.army :: ReportsOf(army) == old(ReportsOf(army))
    {
      back := back[result.army := ReportsOf(result.army) + [result]];
      dirtyArmies := dirtyArmies + {result.army};
    }

    /** Whatever has been asked before, the answer is the decision over all reports for the army. */
    method Outcome(army: int) returns (outcome: ArmyOutcome)
      requires Valid()
      modifies `outcomes, `dirtyArmies
      ensures Valid() && outcome == Decision(ReportsOf(army))
    {
      hide Decision;
      if army !in outcomes || army in dirtyArmies {
        var computed := ComputeOutcome(ReportsOf(army));
        outcomes := outcomes[army := computed];
        dirtyArmies := dirtyArmies - {army};
      }
      return outcomes[army];
    }
  }
}
