/** Party objects and the service that maps players to them. */
module PartyServiceModule {
  import opened Parties

  class PlayerParty {
    const owner: Player
    var members: map<Player, Factions>
    var invited: set<Player>

    constructor (owner: Player)
      ensures this.owner == owner && Now() == Info(owner, map[owner := ALL_FACTIONS], {})
    {
      this.owner := owner;
      members, invited := map[owner := ALL_FACTIONS], {};
    }

    function Now(): Info
      reads this
    {
      Info(owner, members, invited)
    }

    predicate IsDisbanded()
      reads this
    {
      owner !in members
    }

    method AddMember(p: Player, factions: Factions)
      modifies this
      ensures Now() == old(Now()).(members := old(members)[p := factions])
    {
      members := members[p := factions];
    }

    method RemovePlayer(p: Player)
      requires p in members
      modifies this
      ensures Now() == Info(owner, old(members) - {p}, if p == owner then {} else old(invited))
    {
      members := members - {p};
      if p == owner {
        invited := {};
      }
    }

    method AddInvitedPlayer(p: Player)
      modifies this
      ensures Now() == old(Now()).(invited := old(invited) + {p})
    {
      invited := invited + {p};
    }

    method SetFactions(p: Player, factions: Factions)
      requires p in members
      modifies this
      ensures Now() == old(Now()).(members := old(members)[p := factions])
    {
      members := members[p := factions];
    }

    method Clear()
      modifies this
      ensures Now() == Info(owner, map[], {})
    {
      members, invited := map[], {};
    }
  }

  class PartyService {
    var playerParties: map<Player, PlayerParty>
    /** What is left to do for players in the middle of accepting an invite. */
    var waiting: map<Player, Waiting<PlayerParty>>
    /** All parties that were ever created. */
    ghost var parties: set<PlayerParty>

    ghost function Now(): State<PlayerParty>
      reads this, parties
    {
      State(map q | q in parties :: q.Now(), playerParties, waiting)
    }

    ghost predicate Valid()
      reads this, parties
    {
      Inv(Now())
    }

    constructor ()
      ensures Valid() && Now() == Nobody<PlayerParty>() && parties == {}
    {
      playerParties, waiting, parties := map[], map[], {};
    }

    /** The player's party, which is created if they have none. */
    method PartyOf(p: Player) returns (party: PlayerParty)
      requires Valid()
      modifies `playerParties, `parties
      ensures Valid() && p in playerParties && playerParties[p] == party && party in parties
      ensures if p in old(playerParties) then party == old(playerParties)[p] else fresh(party)
      ensures fresh(parties - old(parties)) && old(parties) <= parties
      ensures Now() == Parties.GetParty(old(Now()), p, party)
    {
      hide Inv;
      MappedMember(Now(), p);
      if p in playerParties {
        return playerParties[p];
      }
      ghost var before := Now();
      party := new PlayerParty(p);
      GetPartyKeeps(before, p, party);
      parties := parties + {party};
      playerParties := playerParties[p := party];
      assert Now() == Parties.GetParty(before, p, party);
    }

    /** Returns whether the sender owns their party and could invite. */
    method InvitePlayerToParty(sender: Player, recipient: Player) returns (ok: bool, party: PlayerParty)
      requires Valid()
      modifies this, parties
      ensures Valid() && fresh(parties - old(parties)) && old(parties) <= parties
      ensures sender !in old(playerParties) ==> fresh(party)
      ensures Now() == Parties.Invite(old(Now()), sender, recipient, party)
      ensures ok <==> party.owner == sender
    {
      hide Inv, Parties.GetParty;
      ghost var before := Now();
      party := PartyOf(sender);
      InviteKeeps(before, sender, recipient, party);
      if party.owner != sender {
        return false, party;
      }
      party.AddInvitedPlayer(recipient);
      assert Now().parties == Parties.Invite(before, sender, recipient, party).parties;
      return true, party;
    }

    method SetFactions(p: Player, factions: Factions) returns (party: PlayerParty)
      requires Valid()
      modifies this, parties
      ensures Valid() && fresh(parties - old(parties)) && old(parties) <= parties
      ensures p !in old(playerParties) ==> fresh(party)
      ensures Now() == Parties.SetFactions(old(Now()), p, factions, party)
    {
      hide Inv, Parties.GetParty;
      ghost var before := Now();
      party := PartyOf(p);
      ghost var middle := Now();
      MappedMember(middle, p);
      SetFactionsKeeps(before, p, factions, party);
      party.SetFactions(p, factions);
      assert Now().parties == middle.parties[party := party.Now()];
    }

    /** Takes everybody out of a party; nobody turns out to be in another one. */
    method RemoveParty(party: PlayerParty)
      requires party in parties && forall p | p in party.members :: p in playerParties && playerParties[p] == party
      modifies this`playerParties, party
      ensures playerParties == old(playerParties) - old(party.members).Keys
      ensures party.Now() == Info(party.owner, map[], {})
    {
      var left := party.members.Keys;
      while left != {}
        invariant left <= party.members.Keys && party.members == old(party.members)
        invariant playerParties == old(playerParties) - (party.members.Keys - left)
        modifies this`playerParties
        decreases left
      {
        var p :| p in left;
        assert p in playerParties && playerParties[p] == party;
        playerParties := playerParties - {p};
        left := left - {p};
      }
      party.Clear();
    }

    method RemovePlayerFromParty(p: Player)
      requires Valid() && p in playerParties
      modifies this`playerParties, parties
      ensures Valid() && Now() == Leave(old(Now()), p) && p !in playerParties
    {
      hide Inv, Leave;
      ghost var before := Now();
      var party := playerParties[p];
      LeaveKeeps(before, p);
      MappedMember(before, p);
      OthersMapped(before, party);
      OneRemoved(before, p);
      TakeOut(p, party);
      if party.IsDisbanded() {
        RemoveParty(party);
      }
      assert Now().parties == before.parties[party := party.Now()];
    }

    /** Returns false for a player without a party. */
    method LeaveParty(p: Player) returns (ok: bool)
      requires Valid()
      modifies this`playerParties, parties
      ensures Valid() && p !in playerParties && (ok <==> p in old(playerParties))
      ensures Now() == if ok then Leave(old(Now()), p) else old(Now())
    {
      ok := p in playerParties;
      if ok { RemovePlayerFromParty(p); }
    }

    method OnConnectionLost(p: Player)
      requires Valid()
      modifies this`playerParties, parties
      ensures Valid() && Now() == if p in old(playerParties) then Leave(old(Now()), p) else old(Now())
    {
      if p in playerParties { RemovePlayerFromParty(p); }
    }

    method TakeOut(p: Player, party: PlayerParty)
      requires party in parties && p in party.members
      modifies this`playerParties, party
      ensures Now() == old(Now()).(
        parties := old(Now()).parties[party := Info(party.owner, old(party.members) - {p},
                                                    if p == party.owner then {} else old(party.invited))],
        mapping := old(playerParties) - {p})
    {
      ghost var before := Now();
      party.RemovePlayer(p);
      playerParties := playerParties - {p};
      assert Now().parties == before.parties[party := party.Now()];
    }

    /** Returns false if the kicking player has no party or does not own it. */
    method KickPlayerFromParty(owner: Player, kicked: Player) returns (ok: bool)
      requires Valid()
      modifies this`playerParties, parties
      ensures Valid() && Now() == Kick(old(Now()), owner, kicked)
      ensures ok <==> owner in old(playerParties) && old(playerParties)[owner].owner == owner
    {
      ghost var before := Now();
      KickKeeps(before, owner, kicked);
      MappedMember(before, owner);
      MappedMember(before, kicked);
      hide Inv, Kick;
      if owner !in playerParties {
        return false;
      }
      var party := playerParties[owner];
      if party.owner != owner {
        return false;
      }
      if kicked !in party.members {
        return true;
      }
      TakeOut(kicked, party);
      return true;
    }

    /** Accepting up to the wait: returns whether the invite was good and whether the recipient has to wait. */
    method BeginAcceptInvite(recipient: Player, sender: Player, expired: bool, searching: bool)
      returns (ok: bool, waits: bool)
      requires Valid()
      modifies this`playerParties, this`waiting, parties
      ensures Valid()
      ensures ok <==> CanAccept(old(Now()), recipient, sender) && !expired && !searching
      ensures Now() == if ok then AcceptStart(old(Now()), recipient, sender) else old(Now())
      ensures waits <==> ok && recipient in old(playerParties)
    {
      hide Inv, Leave;
      ghost var before := Now();
      MappedMember(before, sender);
      MappedMember(before, recipient);
      if sender !in playerParties || recipient !in playerParties[sender].invited || expired || searching {
        return false, false;
      }
      AcceptStartKeeps(before, recipient, sender);
      var party := playerParties[sender];
      if recipient in playerParties {
        var factions := playerParties[recipient].members[recipient];
        RemovePlayerFromParty(recipient);
        ghost var left := Now();
        waiting := waiting[recipient := Waiting(party, factions)];
        assert Now().parties == left.parties;
        return true, true;
      }
      AddToParty(recipient, party, ALL_FACTIONS);
      return true, false;
    }

    method AddToParty(p: Player, party: PlayerParty, factions: Factions)
      requires party in parties
      modifies this`playerParties, party
      ensures Now() == Join(old(Now()), p, party, factions)
    {
      ghost var before := Now();
      party.AddMember(p, factions);
      playerParties := playerParties[p := party];
      assert Now().parties == before.parties[party := party.Now()];
    }

    /** The rest of accepting, after the wait. */
    method FinishAcceptInvite(recipient: Player)
      requires Valid() && recipient in waiting
      requires recipient !in playerParties || playerParties[recipient] == waiting[recipient].party
      modifies this`playerParties, this`waiting, parties
      ensures Valid() && Now() == AcceptFinish(old(Now()), recipient)
    {
      ghost var before := Now();
      AcceptFinishIff(before, recipient);
      var party, factions := waiting[recipient].party, waiting[recipient].factions;
      assert party in parties;
      hide Inv, Join;
      AddToParty(recipient, party, factions);
      ghost var joined := Now();
      waiting := waiting - {recipient};
      assert Now().parties == joined.parties;
    }
  }

  /** Leaving, in terms of the one party that changes. */
  lemma {:induction false} OneRemoved(s: State<PlayerParty>, p: Player)
    requires p in s.mapping && s.mapping[p] in s.parties
    ensures var party := s.mapping[p];
      var info := s.parties[party];
      var members := info.members - {p};
      Leave(s, p) ==
        if info.owner in members then
          s.(parties := s.parties[party := Info(info.owner, members, if p == info.owner then {} else info.invited)],
             mapping := s.mapping - {p})
        else
          s.(parties := s.parties[party := Info(info.owner, map[], {})],
             mapping := s.mapping - {p} - members.Keys)
  {
    var party := s.mapping[p];
    var info := s.parties[party];
    assert s.mapping - {p} - (info.members - {p}).Keys == s.mapping - info.members.Keys - {p};
  }

  lemma {:induction false} OthersMapped(s: State<PlayerParty>, party: PlayerParty)
    requires Inv(s) && party in s.parties
    ensures forall q | q in s.parties[party].members :: q in s.mapping && s.mapping[q] == party
  {}
}
