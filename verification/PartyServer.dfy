/** The party handlers over live contexts. */
module PartyServer {
  import opened Options
  import opened Party

  class Context {
    var charId: int
    var party: PartyState

    constructor (charId: int)
      ensures this.charId == charId && party == NO_PARTY
    {
      this.charId, party := charId, NO_PARTY;
    }
  }

  /** `partyHasMember`. */
  method FindMember(p: PartyState, u: nat) returns (found: bool)
    ensures found == HasMember(p, u)
  {
    for i := 0 to |p.members|
      invariant forall k :: 0 <= k < i ==> p.members[k].user != u
    {
      if p.members[i].user == u {
        return true;
      }
    }
    return false;
  }

  /** `partyMemberByCharacterID`, as an index. */
  method FindByChar(ms: seq<Member>, c: int) returns (i: nat)
    ensures i == FindChar(ms, c)
  {
    assert ms[0..] == ms;
    i := 0;
    while i < |ms| && ms[i].charId != c
      invariant 0 <= i <= |ms| && FindChar(ms, c) == i + FindChar(ms[i..], c)
    {
      assert ms[i..][1..] == ms[i + 1..];
      i := i + 1;
    }
  }

  /** The remaining members, in order. */
  method Remaining(ms: seq<Member>, u: nat) returns (rest: seq<Member>)
    ensures rest == Without(ms, u)
  {
    rest := [];
    assert ms[0..] == ms;
    for i := 0 to |ms|
      invariant Without(ms, u) == rest + Without(ms[i..], u)
    {
      assert ms[i..][1..] == ms[i + 1..];
      if ms[i].user != u {
        rest := rest + [ms[i]];
      }
    }
  }

  class Server {
    var sessions: map<nat, Context>
    var sequence: int

    ghost predicate Valid()
      reads this
    {
      forall u, v :: u in sessions && v in sessions && u != v ==> sessions[u] != sessions[v]
    }

    ghost function Seats(): map<nat, Seat>
      reads this, sessions.Values
    {
      map u | u in sessions :: Seat(sessions[u].charId, sessions[u].party)
    }

    ghost function Snapshot(): World
      reads this, sessions.Values
    {
      World(Seats(), sequence)
    }

    constructor ()
      ensures Valid() && Snapshot() == World(map[], 1000)
    {
      sessions, sequence := map[], 1000;
    }

    lemma Shown()
      ensures Snapshot().seats.Keys == sessions.Keys
      ensures forall u :: u in sessions ==> Snapshot().seats[u] == Seat(sessions[u].charId, sessions[u].party)
    {
    }

    /** Initialized puts a character on the session and leaves its party alone. */
    method Initialized(u: nat, c: int)
      requires Valid()
      modifies this`sessions, sessions.Values
      ensures Valid()
      ensures Snapshot() == EnterStep(old(Snapshot()), u, c)
    {
      if u in sessions {
        sessions[u].charId := c;
      } else {
        var context := new Context(c);
        sessions := sessions[u := context];
      }
      assert Seats() == EnterStep(old(Snapshot()), u, c).seats;
    }

    /** The party side of OnClientDisconnect. */
    method OnClientDisconnect(u: nat)
      requires Valid()
      modifies this`sessions, sessions.Values
      ensures Valid()
      ensures Snapshot() == DisconnectStep(old(Snapshot()), u)
    {
      hide LeaveStep;
      var left := LeaveParty(u);
      sessions := sessions - {u};
      assert Seats() == DisconnectStep(old(Snapshot()), u).seats;
    }

    method ClearPartyState(u: nat)
      requires Valid()
      modifies sessions.Values
      ensures Valid() && sessions == old(sessions)
      ensures Snapshot() == Clear(old(Snapshot()), u)
    {
      if u in sessions {
        sessions[u].party := NO_PARTY;
      }
    }

    /** A copy into every member's context, skipping repeats and members who are gone. */
    method ApplyPartyState(p: PartyState)
      requires Valid()
      modifies sessions.Values
      ensures Valid() && sessions == old(sessions)
      ensures Snapshot() == Install(old(Snapshot()), p)
    {
      var seen: set<nat> := {};
      for i := 0 to |p.members|
        invariant sessions == old(sessions)
        invariant forall u :: u in seen <==> exists k :: 0 <= k < i && p.members[k].user == u
        invariant forall u :: u in sessions ==> sessions[u].party == if u in seen then p else old(sessions[u].party)
        invariant forall u :: u in sessions ==> sessions[u].charId == old(sessions[u].charId)
      {
        var u := p.members[i].user;
        if u in seen {
          continue;
        }
        seen := seen + {u};
        if u in sessions {
          sessions[u].party := p;
        }
      }
      assert forall u :: u in sessions ==> (u in seen <==> HasMember(p, u));
    }

    method MakePartyState(i: nat, t: nat) returns (ok: bool, p: PartyState)
      requires Valid() && i in sessions && t in sessions
      modifies this`sequence
      ensures Valid() && sessions == old(sessions)
      ensures MakeParty(old(Snapshot()), i, t) == if ok then Some(p) else None
      ensures Snapshot() == Founded(old(Snapshot()), i, t)
    {
      Shown();
      var inviter, target := sessions[i], sessions[t];
      p := inviter.party;
      if inviter.party.id != 0 && target.party.id != 0 {
        return false, NO_PARTY;
      }
      if p.id == 0 {
        p := target.party;
      }
      if p.id == 0 {
        sequence := sequence + 1;
        p := p.(id := sequence, leader := i, leaderChar := inviter.charId, normalLoot := LOOT_FREE,
                ownerLoot := LOOT_DICE);
      }
      if |p.members| >= MAX_MEMBERS {
        return false, NO_PARTY;
      }
      var has := FindMember(p, i);
      if !has {
        p := p.(members := p.members + [Member(i, inviter.charId)]);
      }
      has := FindMember(p, t);
      if !has {
        if |p.members| >= MAX_MEMBERS {
          return false, NO_PARTY;
        }
        p := p.(members := p.members + [Member(t, target.charId)]);
      }
      return true, p;
    }

    /** The accept branch of PartyInviteResult. */
    method AcceptInvite(i: nat, t: nat)
      requires Valid()
      modifies this`sequence, sessions.Values
      ensures Valid() && sessions == old(sessions)
      ensures Snapshot() == AcceptStep(old(Snapshot()), i, t)
    {
      Shown();
      if i !in sessions || t !in sessions || i == t {
        return;
      }
      var ok, p := MakePartyState(i, t);
      if !ok {
        return;
      }
      ApplyPartyState(p);
    }

    method LeaveParty(u: nat) returns (left: bool)
      requires Valid()
      modifies sessions.Values
      ensures Valid() && sessions == old(sessions)
      ensures Snapshot() == LeaveStep(old(Snapshot()), u)
      ensures left == (u in sessions && old(Snapshot()).seats[u].party.id != 0)
    {
      Shown();
      hide Install, Seats, Without;
      if u !in sessions {
        return false;
      }
      var party := sessions[u].party;
      if party.id == 0 {
        return false;
      }
      var rest := Remaining(party.members, u);
      ClearPartyState(u);
      if |rest| == 0 {
        return true;
      }
      if |rest| == 1 {
        ClearPartyState(rest[0].user);
        return true;
      }
      party := party.(members := rest);
      if party.leader == u {
        party := party.(leader := rest[0].user, leaderChar := rest[0].charId);
      }
      ApplyPartyState(party);
      return true;
    }

    method PartyKickout(u: nat, c: int)
      requires Valid()
      modifies sessions.Values
      ensures Valid() && sessions == old(sessions)
      ensures Snapshot() == KickStep(old(Snapshot()), u, c)
    {
      Shown();
      hide Install, Seats, Without, FindChar;
      if u !in sessions {
        return;
      }
      var party := sessions[u].party;
      if party.id == 0 || party.leader != u {
        return;
      }
      var i := FindByChar(party.members, c);
      if i == |party.members| || party.members[i].user == u {
        return;
      }
      var kicked := party.members[i].user;
      var rest := Remaining(party.members, kicked);
      ClearPartyState(kicked);
      if |rest| <= 1 {
        if |rest| == 1 {
          ClearPartyState(rest[0].user);
        }
        return;
      }
      ApplyPartyState(party.(members := rest));
    }

    method PartyLeaderChange(u: nat, c: int)
      requires Valid()
      modifies sessions.Values
      ensures Valid() && sessions == old(sessions)
      ensures Snapshot() == LeaderStep(old(Snapshot()), u, c)
    {
      Shown();
      hide Install, Seats, FindChar;
      if u !in sessions {
        return;
      }
      var party := sessions[u].party;
      if party.id == 0 || party.leader != u {
        return;
      }
      var i := FindByChar(party.members, c);
      if i == |party.members| || party.members[i].user == u {
        return;
      }
      ApplyPartyState(party.(leader := party.members[i].user, leaderChar := party.members[i].charId));
    }

    method PartyAuthChange(u: nat, leaderOnly: bool)
      requires Valid()
      modifies sessions.Values
      ensures Valid() && sessions == old(sessions)
      ensures Snapshot() == AuthStep(old(Snapshot()), u, leaderOnly)
    {
      Shown();
      hide Install, Seats;
      if u !in sessions {
        return;
      }
      var party := sessions[u].party;
      if party.id == 0 || party.leader != u {
        return;
      }
      ApplyPartyState(party.(leaderOnly := leaderOnly));
    }

    method PartyLootingType(u: nat, normal: int, owner: int)
      requires Valid()
      modifies sessions.Values
      ensures Valid() && sessions == old(sessions)
      ensures Snapshot() == LootStep(old(Snapshot()), u, normal, owner)
    {
      Shown();
      hide Install, Seats;
      if normal < LOOT_FREE || normal > LOOT_LEADER || owner < LOOT_DICE || owner > LOOT_AUCTION {
        return;
      }
      if u !in sessions {
        return;
      }
      var party := sessions[u].party;
      if party.id == 0 || party.leader != u {
        return;
      }
      ApplyPartyState(party.(normalLoot := normal, ownerLoot := owner));
    }
  }
}
