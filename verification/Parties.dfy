/** Party membership as a state machine; accepting an invite is split where it waits for the network. */
module Parties {

  type Player = nat

  /** The factions a member may play, by number. */
  type Factions = seq<nat>

  const ALL_FACTIONS: Factions := [1, 2, 3, 4]

  datatype Info = Info(owner: Player, members: map<Player, Factions>, invited: set<Player>)

  /** An accepted invite whose recipient has left their old party and waits to be added to the new one. */
  datatype Waiting<P> = Waiting(party: P, factions: Factions)

  /** All party objects with their contents, and the party each player is mapped to. */
  datatype State<!P(==)> = State(parties: map<P, Info>, mapping: map<Player, P>, waiting: map<Player, Waiting<P>>)

  /** The members of a party are exactly the players that are mapped to it. */
  ghost predicate Inv<P>(s: State<P>) {
    && (forall p | p in s.mapping :: s.mapping[p] in s.parties && p in s.parties[s.mapping[p]].members)
    && (forall id, p | id in s.parties && p in s.parties[id].members :: p in s.mapping && s.mapping[p] == id)
    && (forall p | p in s.waiting :: s.waiting[p].party in s.parties)
  }

  lemma {:induction false} MappedMember<P>(s: State<P>, p: Player)
    requires Inv(s)
    ensures p in s.mapping ==> s.mapping[p] in s.parties && p in s.parties[s.mapping[p]].members
  {}

  lemma {:induction false} NeverInTwoParties<P>(s: State<P>, a: P, b: P, p: Player)
    requires Inv(s) && a in s.parties && b in s.parties && p in s.parties[a].members && p in s.parties[b].members
    ensures a == b
  {
    assert s.mapping[p] == a && s.mapping[p] == b;
  }

  // ----- The operations

  /** The player's party; a new one if they have none. */
  function GetParty<P>(s: State<P>, p: Player, newId: P): State<P> {
    if p in s.mapping then s
    else s.(parties := s.parties[newId := Info(p, map[p := ALL_FACTIONS], {})], mapping := s.mapping[p := newId])
  }

  function Invite<P>(s: State<P>, sender: Player, recipient: Player, newId: P): State<P>
    requires sender in s.mapping ==> s.mapping[sender] in s.parties
  {
    var t := GetParty(s, sender, newId);
    var id := t.mapping[sender];
    var info := t.parties[id];
    if info.owner != sender then t
    else t.(parties := t.parties[id := info.(invited := info.invited + {recipient})])
  }

  /** Leaving; a party without its owner is disbanded. */
  function Leave<P>(s: State<P>, p: Player): State<P>
    requires p in s.mapping && s.mapping[p] in s.parties
  {
    var id := s.mapping[p];
    var info := s.parties[id];
    var members := info.members - {p};
    if info.owner !in members then
      s.(parties := s.parties[id := Info(info.owner, map[], {})], mapping := s.mapping - info.members.Keys - {p})
    else
      s.(parties := s.parties[id := info.(members := members)], mapping := s.mapping - {p})
  }

  function Kick<P>(s: State<P>, owner: Player, kicked: Player): State<P>
    requires owner in s.mapping ==> s.mapping[owner] in s.parties
  {
    if owner !in s.mapping then s
    else
      var id := s.mapping[owner];
      var info := s.parties[id];
      if info.owner != owner || kicked !in info.members then s
      else
        s.(parties := s.parties[
             id := Info(owner, info.members - {kicked}, if kicked == owner then {} else info.invited)],
           mapping := s.mapping - {kicked})
  }

  function SetFactions<P>(s: State<P>, p: Player, factions: Factions, newId: P): State<P>
    requires p in s.mapping ==> s.mapping[p] in s.parties
  {
    var t := GetParty(s, p, newId);
    var id := t.mapping[p];
    var info := t.parties[id];
    t.(parties := t.parties[id := info.(members := info.members[p := factions])])
  }

  function Join<P>(s: State<P>, p: Player, id: P, factions: Factions): State<P>
    requires id in s.parties
  {
    var info := s.parties[id];
    s.(parties := s.parties[id := info.(members := info.members[p := factions])], mapping := s.mapping[p := id])
  }

  predicate CanAccept<P>(s: State<P>, recipient: Player, sender: Player)
    requires sender in s.mapping ==> s.mapping[sender] in s.parties
  {
    sender in s.mapping && recipient in s.parties[s.mapping[sender]].invited
  }

  /** Up to the point where accepting waits: a player with a party leaves it first, one without joins at once. */
  function AcceptStart<P>(s: State<P>, recipient: Player, sender: Player): State<P>
    requires Inv(s)
  {
    if !CanAccept(s, recipient, sender) then s
    else
      var id := s.mapping[sender];
      if recipient in s.mapping then
        var factions := s.parties[s.mapping[recipient]].members[recipient];
        var t := Leave(s, recipient);
        t.(waiting := t.waiting[recipient := Waiting(id, factions)])
      else Join(s, recipient, id, ALL_FACTIONS)
  }

  /** From there on: the party is the one found before the wait, whatever has happened to it. */
  function AcceptFinish<P>(s: State<P>, recipient: Player): State<P>
    requires recipient in s.waiting && s.waiting[recipient].party in s.parties
  {
    var w := s.waiting[recipient];
    Join(s, recipient, w.party, w.factions).(waiting := s.waiting - {recipient})
  }

  // ----- What they do to the single players and parties

  /** Everybody keeps the party they had, and all other parties stay as they are. */
  ghost predicate OthersStay<P>(s: State<P>, t: State<P>, own: P, leaving: set<Player>) {
    && (forall q :: q in t.mapping <==> q in s.mapping && q !in leaving)
    && (forall q | q in t.mapping :: t.mapping[q] == s.mapping[q])
    && t.parties.Keys == s.parties.Keys && (forall id | id in s.parties && id != own :: t.parties[id] == s.parties[id])
    && t.waiting == s.waiting
  }

  /**
   * A player who leaves takes nobody along while the owner stays; when the owner leaves, or has left before, the party
   * is empty and all its members are without one.
   */
  lemma {:induction false} LeaveEffect<P>(s: State<P>, p: Player)
    requires Inv(s) && p in s.mapping
    ensures var t, own := Leave(s, p), s.mapping[p];
      var before, after := s.parties[own], t.parties[own];
      if before.owner in before.members && before.owner != p then
        && OthersStay(s, t, own, {p})
        && after == before.(members := before.members - {p})
      else
        && OthersStay(s, t, own, set q | q in s.mapping && s.mapping[q] == own)
        && after == Info(before.owner, map[], {})
  {
    var own := s.mapping[p];
    assert p in s.parties[own].members;
    forall q ensures q in s.parties[own].members <==> q in s.mapping && s.mapping[q] == own {}
  }

  /** Kicking takes exactly that member out, for the owner of the party only; the invites go with the owner. */
  lemma {:induction false} KickEffect<P>(s: State<P>, owner: Player, kicked: Player)
    requires Inv(s)
    ensures var t := Kick(s, owner, kicked);
      if owner in s.mapping && s.parties[s.mapping[owner]].owner == owner
         && kicked in s.mapping && s.mapping[kicked] == s.mapping[owner]
      then
        var own := s.mapping[owner];
        && OthersStay(s, t, own, {kicked})
        && t.parties[own] == Info(owner, s.parties[own].members - {kicked},
                                  if kicked == owner then {} else s.parties[own].invited)
      else t == s
  {
    if owner in s.mapping {
      assert kicked in s.parties[s.mapping[owner]].members <==>
             kicked in s.mapping && s.mapping[kicked] == s.mapping[owner];
    }
  }

  /** A player without a party gets one of their own; nobody else is concerned. */
  lemma {:induction false} GetPartyEffect<P>(s: State<P>, p: Player, newId: P)
    requires Inv(s) && (p in s.mapping || newId !in s.parties)
    ensures var t := GetParty(s, p, newId);
      && p in t.mapping && t.mapping[p] in t.parties && p in t.parties[t.mapping[p]].members
      && (p in s.mapping ==> t == s)
      && (p !in s.mapping ==> t.mapping[p] == newId && t.parties[newId] == Info(p, map[p := ALL_FACTIONS], {}))
      && t.mapping.Keys == s.mapping.Keys + {p} && (forall q | q in s.mapping :: t.mapping[q] == s.mapping[q])
      && s.parties.Keys <= t.parties.Keys && (forall id | id in s.parties :: t.parties[id] == s.parties[id])
      && t.waiting == s.waiting
  {}

  /** Only an owner can invite, into their own party, and only the recipient; nobody's membership changes by it. */
  lemma {:induction false} InviteEffect<P>(s: State<P>, sender: Player, recipient: Player, newId: P)
    requires Inv(s) && (sender in s.mapping || newId !in s.parties)
    ensures var t, u := Invite(s, sender, recipient, newId), GetParty(s, sender, newId);
      && sender in u.mapping && u.mapping[sender] in u.parties && t.mapping == u.mapping && t.waiting == u.waiting
      && t.parties.Keys == u.parties.Keys
      && forall id | id in u.parties ::
           t.parties[id] == if id == u.mapping[sender] && u.parties[id].owner == sender
                            then u.parties[id].(invited := u.parties[id].invited + {recipient}) else u.parties[id]
  {
    GetPartyEffect(s, sender, newId);
  }

  /** Choosing factions changes this player's factions and nothing else. */
  lemma {:induction false} FactionsEffect<P>(s: State<P>, p: Player, factions: Factions, newId: P)
    requires Inv(s) && (p in s.mapping || newId !in s.parties)
    ensures var t, u := SetFactions(s, p, factions, newId), GetParty(s, p, newId);
      && p in u.mapping && u.mapping[p] in u.parties && t.mapping == u.mapping && t.waiting == u.waiting
      && t.parties.Keys == u.parties.Keys
      && forall id | id in u.parties ::
           && t.parties[id].owner == u.parties[id].owner && t.parties[id].invited == u.parties[id].invited
           && t.parties[id].members.Keys == u.parties[id].members.Keys
           && forall q | q in u.parties[id].members ::
                t.parties[id].members[q] == if q == p then factions else u.parties[id].members[q]
  {
    GetPartyEffect(s, p, newId);
    var u := GetParty(s, p, newId);
    GetPartyKeeps(s, p, newId);
    hide GetParty;
    forall id | id in u.parties && p in u.parties[id].members ensures id == u.mapping[p] {}
  }

  /**
   * An accepted invite leads into the sender's party: with all factions for a player who had no party, and with the
   * factions chosen before for one who leaves a party for it. Without an invite nothing happens.
   */
  lemma {:induction false} AcceptEffect<P>(s: State<P>, recipient: Player, sender: Player)
    requires Inv(s)
    ensures var t := AcceptStart(s, recipient, sender);
      if sender in s.mapping && recipient in s.parties[s.mapping[sender]].invited then
        var party := s.mapping[sender];
        if recipient in s.mapping then
          && recipient in s.parties[s.mapping[recipient]].members && recipient !in t.mapping
          && t == Leave(s, recipient).(waiting := s.waiting[recipient :=
                    Waiting(party, s.parties[s.mapping[recipient]].members[recipient])])
        else
          && t.mapping == s.mapping[recipient := party] && t.waiting == s.waiting && t.parties.Keys == s.parties.Keys
          && (forall id | id in s.parties && id != party :: t.parties[id] == s.parties[id])
          && t.parties[party]
             == s.parties[party].(members := s.parties[party].members[recipient := ALL_FACTIONS])
      else t == s
  {
    if recipient in s.mapping { LeaveKeeps(s, recipient); }
  }

  /** The wait ends with the recipient in the remembered party, with the remembered factions. */
  lemma {:induction false} ResumeEffect<P>(s: State<P>, recipient: Player)
    requires Inv(s) && recipient in s.waiting
    ensures var t, w := AcceptFinish(s, recipient), s.waiting[recipient];
      && t.mapping == s.mapping[recipient := w.party] && t.waiting == s.waiting - {recipient}
      && t.parties.Keys == s.parties.Keys
      && (forall id | id in s.parties && id != w.party :: t.parties[id] == s.parties[id])
      && t.parties[w.party].owner == s.parties[w.party].owner
      && t.parties[w.party].invited == s.parties[w.party].invited
      && t.parties[w.party].members == s.parties[w.party].members[recipient := w.factions]
  {}

  // ----- What they keep

  lemma {:induction false} GetPartyKeeps<P>(s: State<P>, p: Player, newId: P)
    requires Inv(s) && (p in s.mapping || newId !in s.parties)
    ensures Inv(GetParty(s, p, newId))
  {}

  lemma {:induction false} InviteKeeps<P>(s: State<P>, sender: Player, recipient: Player, newId: P)
    requires Inv(s) && (sender in s.mapping || newId !in s.parties)
    ensures Inv(Invite(s, sender, recipient, newId))
  {
    GetPartyKeeps(s, sender, newId);
  }

  lemma {:induction false} LeaveMembers<P>(s: State<P>, p: Player, id: P, q: Player)
    requires Inv(s) && p in s.mapping
    ensures var t := Leave(s, p);
      id in t.parties && q in t.parties[id].members ==> q in t.mapping && t.mapping[q] == id
  {
    var own := s.mapping[p];
    assert id in s.parties && q in s.parties[id].members ==> q in s.mapping && s.mapping[q] == id;
    assert q in s.parties[own].members ==> s.mapping[q] == own;
  }

  lemma {:induction false} LeaveMapping<P>(s: State<P>, p: Player, q: Player)
    requires Inv(s) && p in s.mapping
    ensures var t := Leave(s, p);
      q in t.mapping ==> q != p && t.mapping[q] in t.parties && q in t.parties[t.mapping[q]].members
  {
    assert q in s.mapping ==> q in s.parties[s.mapping[q]].members;
  }

  lemma {:induction false} LeaveFrame<P>(s: State<P>, p: Player)
    requires p in s.mapping && s.mapping[p] in s.parties
    ensures Leave(s, p).parties.Keys == s.parties.Keys && Leave(s, p).waiting == s.waiting
  {}

  lemma {:induction false} LeaveKeeps<P>(s: State<P>, p: Player)
    requires Inv(s) && p in s.mapping
    ensures Inv(Leave(s, p)) && p !in Leave(s, p).mapping && Leave(s, p).parties.Keys == s.parties.Keys
  {
    hide Leave;
    var t := Leave(s, p);
    LeaveFrame(s, p);
    forall id, q ensures id in t.parties && q in t.parties[id].members ==> q in t.mapping && t.mapping[q] == id {
      LeaveMembers(s, p, id, q);
    }
    forall q ensures q in t.mapping ==> q != p && t.mapping[q] in t.parties && q in t.parties[t.mapping[q]].members {
      LeaveMapping(s, p, q);
    }
  }

  lemma {:induction false} KickKeeps<P>(s: State<P>, owner: Player, kicked: Player)
    requires Inv(s)
    ensures Inv(Kick(s, owner, kicked))
  {
    var t := Kick(s, owner, kicked);
    forall id, q | id in t.parties && q in t.parties[id].members ensures q in t.mapping && t.mapping[q] == id {
      assert id in s.parties && q in s.parties[id].members;
      assert owner in s.mapping && kicked in s.parties[s.mapping[owner]].members ==>
        s.mapping[kicked] == s.mapping[owner];
    }
    forall q | q in t.mapping ensures t.mapping[q] in t.parties && q in t.parties[t.mapping[q]].members {
      assert q in s.parties[s.mapping[q]].members;
    }
  }

  /** Joining keeps the invariant exactly if the player is not a member of another party. */
  lemma {:induction false} JoinKeepsIff<P>(s: State<P>, p: Player, id: P, factions: Factions)
    requires Inv(s) && id in s.parties
    ensures Inv(Join(s, p, id, factions)) <==> p !in s.mapping || s.mapping[p] == id
  {
    var t := Join(s, p, id, factions);
    if p in s.mapping && s.mapping[p] != id {
      assert p in t.parties[s.mapping[p]].members && t.mapping[p] == id;
      assert !Inv(t);
    } else {
      forall q | q in t.mapping ensures t.mapping[q] in t.parties && q in t.parties[t.mapping[q]].members {
        if q != p { assert q in s.parties[s.mapping[q]].members; }
      }
      assert Inv(t);
    }
  }

  lemma {:induction false} SetFactionsKeeps<P>(s: State<P>, p: Player, factions: Factions, newId: P)
    requires Inv(s) && (p in s.mapping || newId !in s.parties)
    ensures Inv(SetFactions(s, p, factions, newId))
  {
    GetPartyKeeps(s, p, newId);
    var t := GetParty(s, p, newId);
    MappedMember(t, p);
    JoinKeepsIff(t, p, t.mapping[p], factions);
    assert t.mapping[p := t.mapping[p]] == t.mapping;
    hide Inv, GetParty;
  }

  lemma {:induction false} WaitKeeps<P>(s: State<P>, p: Player, w: Waiting<P>)
    requires Inv(s) && w.party in s.parties
    ensures Inv(s.(waiting := s.waiting[p := w]))
  {}

  lemma {:induction false} AcceptStartKeeps<P>(s: State<P>, recipient: Player, sender: Player)
    requires Inv(s)
    ensures Inv(AcceptStart(s, recipient, sender))
  {
    if CanAccept(s, recipient, sender) {
      var id := s.mapping[sender];
      if recipient in s.mapping {
        var factions := s.parties[s.mapping[recipient]].members[recipient];
        LeaveKeeps(s, recipient);
        hide Inv, Leave;
        WaitKeeps(Leave(s, recipient), recipient, Waiting(id, factions));
      } else {
        JoinKeepsIff(s, recipient, id, ALL_FACTIONS);
      }
    }
  }

  /**
   * After the wait the recipient is added without another look at their party: the invariant survives exactly if they
   * have none by then, or are in the new one already.
   */
  lemma {:induction false} AcceptFinishIff<P>(s: State<P>, recipient: Player)
    requires Inv(s) && recipient in s.waiting
    ensures Inv(AcceptFinish(s, recipient))
      <==> recipient !in s.mapping || s.mapping[recipient] == s.waiting[recipient].party
  {
    var w := s.waiting[recipient];
    var t := Join(s, recipient, w.party, w.factions);
    JoinKeepsIff(s, recipient, w.party, w.factions);
    var u := AcceptFinish(s, recipient);
    assert Inv(t) ==> Inv(u);
    if !Inv(t) {
      assert recipient in t.parties[s.mapping[recipient]].members && t.mapping[recipient] == w.party;
    }
  }

  /** It can fail: player 2 leaves their party for player 1's, and asks for a new one before the wait is over. */
  lemma {:induction false} AcceptCanBreak()
    ensures exists s: State<nat>, t: State<nat> ::
      (Inv(s) && 2 in s.mapping && CanAccept(s, 2, 1) && t == GetParty(AcceptStart(s, 2, 1), 2, 30) && 2 in t.waiting
       && t.waiting[2].party in t.parties && !Inv(AcceptFinish(t, 2)))
  {
    var s: State<nat> := State(
      map[10 := Info(1, map[1 := ALL_FACTIONS], {2}), 20 := Info(2, map[2 := ALL_FACTIONS], {})],
      map[1 := 10, 2 := 20], map[]);
    assert Inv(s) && CanAccept(s, 2, 1);
    var left := AcceptStart(s, 2, 1);
    AcceptStartKeeps(s, 2, 1);
    assert 2 !in left.mapping && left.waiting[2].party == 10;
    var t := GetParty(left, 2, 30);
    GetPartyKeeps(left, 2, 30);
    AcceptFinishIff(t, 2);
  }

  // ----- Runs

  datatype Step<P> =
    | Create(player: Player, newId: P)
    | Ask(player: Player, recipient: Player, newId: P)
    | Accept(player: Player, sender: Player)
    | Resume(player: Player)
    | Expel(player: Player, kicked: Player)
    | Quit(player: Player)
    | Choose(player: Player, factions: Factions, newId: P)
    | Disconnect(player: Player)

  /** A connection handles one command after the other: while a player waits, they give no other command. */
  predicate Enabled<P>(s: State<P>, step: Step<P>) {
    match step
    case Create(p, newId) => p !in s.waiting && newId !in s.parties
    case Ask(p, _, newId) => p !in s.waiting && newId !in s.parties
    case Accept(p, _) => p !in s.waiting
    case Resume(p) => p in s.waiting
    case Expel(p, _) => p !in s.waiting
    case Quit(p) => p !in s.waiting
    case Choose(p, _, newId) => p !in s.waiting && newId !in s.parties
    case Disconnect(p) => true
  }

  function Apply<P>(s: State<P>, step: Step<P>): State<P>
    requires Inv(s) && Enabled(s, step)
  {
    match step
    case Create(p, newId) => GetParty(s, p, newId)
    case Ask(p, recipient, newId) => Invite(s, p, recipient, newId)
    case Accept(p, sender) => AcceptStart(s, p, sender)
    case Resume(p) => AcceptFinish(s, p)
    case Expel(p, kicked) => Kick(s, p, kicked)
    case Quit(p) => if p in s.mapping then Leave(s, p) else s
    case Choose(p, factions, newId) => SetFactions(s, p, factions, newId)
    case Disconnect(p) => if p in s.mapping then Leave(s, p) else s
  }

  /** The invariant, and nobody who waits has a party. */
  ghost predicate Safe<P>(s: State<P>) {
    Inv(s) && forall p | p in s.waiting :: p !in s.mapping
  }

  lemma {:induction false} StepKeeps<P>(s: State<P>, step: Step<P>)
    requires Safe(s) && Enabled(s, step)
    ensures Safe(Apply(s, step))
  {
    hide Inv;
    match step
    case Create(p, newId) => GetPartyKeeps(s, p, newId);
    case Ask(p, recipient, newId) => InviteKeeps(s, p, recipient, newId);
    case Accept(p, sender) =>
      AcceptStartKeeps(s, p, sender);
      if p in s.mapping { LeaveKeeps(s, p); }
    case Resume(p) => AcceptFinishIff(s, p);
    case Expel(p, kicked) => KickKeeps(s, p, kicked);
    case Quit(p) => if p in s.mapping { LeaveKeeps(s, p); }
    case Choose(p, factions, newId) => SetFactionsKeeps(s, p, factions, newId);
    case Disconnect(p) => if p in s.mapping { LeaveKeeps(s, p); }
  }

  /** Every step is enabled where it is taken. */
  ghost predicate CanRun<P>(s: State<P>, steps: seq<Step<P>>)
    requires Safe(s)
    decreases |steps|
  {
    steps == [] || (Enabled(s, steps[0]) && (StepKeeps(s, steps[0]); CanRun(Apply(s, steps[0]), steps[1..])))
  }

  /** Over every run in which connections handle one command at a time, members and mapping agree. */
  ghost function After<P>(s: State<P>, steps: seq<Step<P>>): (t: State<P>)
    requires Safe(s) && CanRun(s, steps)
    ensures Safe(t)
    decreases |steps|
  {
    if steps == [] then s
    else
      StepKeeps(s, steps[0]);
      After(Apply(s, steps[0]), steps[1..])
  }

  function Nobody<P>(): (s: State<P>)
    ensures Safe(s)
  {
    State(map[], map[], map[])
  }

  /** From an empty server no run puts a player into two parties. */
  lemma {:induction false} OnePartyEach<P>(steps: seq<Step<P>>, a: P, b: P, p: Player)
    requires CanRun(Nobody<P>(), steps)
    ensures var t := After(Nobody<P>(), steps);
      a in t.parties && b in t.parties && p in t.parties[a].members && p in t.parties[b].members ==> a == b
  {
    var t := After(Nobody<P>(), steps);
    if a in t.parties && b in t.parties && p in t.parties[a].members && p in t.parties[b].members {
      NeverInTwoParties(t, a, b, p);
    }
  }
}
