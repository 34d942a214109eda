/** The character a party lists each member under, and when that is still the member's character. */
module PartyNames {
  import opened Options
  import opened Party

  /** A seat's own entry in its party names its character. By agreement every copy then does. */
  predicate NamedAt(w: World, u: nat)
    requires u in w.seats
  {
    forall m :: m in w.seats[u].party.members && m.user == u ==> m.charId == w.seats[u].charId
  }

  predicate Named(w: World) {
    forall u :: u in w.seats ==> NamedAt(w, u)
  }

  /** Another character is entered on a session that is in a party. */
  predicate Renames(w: World, e: Event) {
    e.Enter? && e.u in w.seats && w.seats[e.u].party != NO_PARTY && w.seats[e.u].charId != e.charId
  }

  /** Where names are right, every member of every party held is listed under its character. */
  lemma MemberNamed(w: World, u: nat, m: Member)
    requires PartiesOk(w) && Named(w) && u in w.seats && m in w.seats[u].party.members
    ensures m.user in w.seats && m.charId == w.seats[m.user].charId
  {
    MemberSeat(w, u, m);
    assert NamedAt(w, m.user);
  }

  lemma InstallNames(w: World, q: PartyState)
    requires Named(w) && forall m :: m in q.members && m.user in w.seats ==> m.charId == w.seats[m.user].charId
    ensures Named(Install(w, q))
  {
    hide HasMember;
    var w' := Install(w, q);
    forall u | u in w'.seats ensures NamedAt(w', u) {
      assert NamedAt(w, u);
    }
  }

  lemma ClearNames(w: World, u: nat)
    requires Named(w)
    ensures Named(Clear(w, u)) && Clear(w, u).seats.Keys == w.seats.Keys
    ensures forall v :: v in w.seats ==> Clear(w, u).seats[v].charId == w.seats[v].charId
  {
    var w' := Clear(w, u);
    forall v | v in w'.seats ensures NamedAt(w', v) {
      assert NamedAt(w, v);
    }
  }

  /** Fewer members of a party that was named right, installed after one of them was cleared. */
  lemma RestNames(w: World, u: nat, gone: nat, q: PartyState)
    requires PartiesOk(w) && Named(w) && u in w.seats
    requires forall m :: m in q.members ==> m in w.seats[u].party.members
    ensures Named(Install(Clear(w, gone), q)) && Named(Install(w, q))
  {
    ClearNames(w, gone);
    hide PartiesOk, Named, Clear, Install;
    forall m | m in q.members ensures m.user in w.seats && m.charId == w.seats[m.user].charId {
      MemberNamed(w, u, m);
    }
    InstallNames(Clear(w, gone), q);
    InstallNames(w, q);
  }

  lemma AcceptNames(w: World, i: nat, t: nat)
    requires PartiesOk(w) && Named(w)
    ensures Named(AcceptStep(w, i, t))
  {
    if i in w.seats && t in w.seats && i != t {
      assert Named(Founded(w, i, t)) by {
        forall v | v in w.seats ensures NamedAt(Founded(w, i, t), v) {
          assert NamedAt(w, v);
        }
      }
      if MakeParty(w, i, t).Some? {
        MadeParty(w, i, t);
        var q := MakeParty(w, i, t).value;
        hide PartiesOk, Named, MakeParty, Install;
        forall m | m in q.members && m.user in w.seats ensures m.charId == w.seats[m.user].charId {
          if m in w.seats[i].party.members {
            MemberNamed(w, i, m);
          } else if m in w.seats[t].party.members {
            MemberNamed(w, t, m);
          }
        }
        InstallNames(Founded(w, i, t), q);
      }
    }
  }

  lemma LeaveNames(w: World, u: nat)
    requires PartiesOk(w) && Named(w)
    ensures Named(LeaveStep(w, u))
  {
    hide PartiesOk, Named, Install, Clear, Without;
    if u in w.seats && w.seats[u].party.id != 0 {
      var p := w.seats[u].party;
      var rest := Without(p.members, u);
      WithoutMembers(p.members, u);
      ClearNames(w, u);
      if |rest| == 1 {
        ClearNames(Clear(w, u), rest[0].user);
      } else if |rest| > 1 {
        var q := p.(members := rest);
        RestNames(w, u, u, if p.leader == u then q.(leader := rest[0].user, leaderChar := rest[0].charId) else q);
      }
    }
  }

  lemma KickNames(w: World, u: nat, c: int)
    requires PartiesOk(w) && Named(w)
    ensures Named(KickStep(w, u, c))
  {
    hide PartiesOk, Named, Install, Clear, Without, FindChar;
    if Leads(w, u) {
      var p := w.seats[u].party;
      var i := FindChar(p.members, c);
      if i < |p.members| && p.members[i].user != u {
        var gone := p.members[i].user;
        var rest := Without(p.members, gone);
        WithoutMembers(p.members, gone);
        ClearNames(w, gone);
        if |rest| == 1 {
          ClearNames(Clear(w, gone), rest[0].user);
        } else if |rest| > 1 {
          RestNames(w, u, gone, p.(members := rest));
        }
      }
    }
  }

  lemma SettersName(w: World, e: Event)
    requires PartiesOk(w) && Named(w) && (e.LeaderChange? || e.AuthChange? || e.LootingType?)
    ensures Named(Step(w, e))
  {
    hide PartiesOk, Named, Install, Clear, FindChar;
    if Leads(w, e.u) {
      var p := w.seats[e.u].party;
      match e
      case LeaderChange(u, c) =>
        var i := FindChar(p.members, c);
        if i < |p.members| {
          RestNames(w, u, u, p.(leader := p.members[i].user, leaderChar := p.members[i].charId));
        }
      case AuthChange(u, b) => RestNames(w, u, u, p.(leaderOnly := b));
      case LootingType(u, n, o) =>
        if 0 <= n && 0 <= o {
          RestNames(w, u, u, p.(normalLoot := n, ownerLoot := o));
        }
    }
  }

  lemma DisconnectNames(w: World, u: nat)
    requires PartiesOk(w) && Named(w)
    ensures Named(DisconnectStep(w, u))
  {
    LeaveNames(w, u);
    hide LeaveStep;
    var left, w' := LeaveStep(w, u), DisconnectStep(w, u);
    forall v | v in w'.seats ensures NamedAt(w', v) {
      assert NamedAt(left, v);
    }
  }

  lemma EnterNames(w: World, u: nat, c: int)
    requires PartiesOk(w) && Named(w)
    ensures Named(EnterStep(w, u, c)) <==> !Renames(w, Enter(u, c))
  {
    var w' := EnterStep(w, u, c);
    if Renames(w, Enter(u, c)) {
      HoldersAreMembers(w, w.seats[u].party, u);
      assert NamedAt(w, u) && !NamedAt(w', u);
    } else {
      forall v | v in w'.seats ensures NamedAt(w', v) {
        if v in w.seats {
          assert NamedAt(w, v);
        }
      }
    }
  }

  /** One step keeps every member listed under its character if and only if it does not enter another character on a
      session that is in a party. */
  lemma NamesKept(w: World, e: Event)
    requires PartiesOk(w) && Named(w)
    ensures Named(Step(w, e)) <==> !Renames(w, e)
  {
    hide PartiesOk, Named, AcceptStep, LeaveStep, KickStep, DisconnectStep, EnterStep;
    match e
    case Enter(u, c) => EnterNames(w, u, c);
    case Accept(i, t) => AcceptNames(w, i, t);
    case Leave(u) => LeaveNames(w, u);
    case Disconnect(u) => DisconnectNames(w, u);
    case Kick(u, c) => KickNames(w, u, c);
    case LeaderChange(u, c) => SettersName(w, e);
    case AuthChange(u, b) => SettersName(w, e);
    case LootingType(u, n, o) => SettersName(w, e);
  }

  /** In every run in which nobody enters another character while in a party, members are listed under their
      characters. */
  lemma {:induction false} NamedAlways(w: World, es: seq<Event>, n: nat)
    requires PartiesOk(w) && Named(w) && w.sequence >= 0 && n <= |es|
    requires forall k :: 0 <= k < n ==> !Renames(After(w, es, k), es[k])
    ensures Named(After(w, es, n))
    decreases n
  {
    hide PartiesOk, Named, Renames, Step;
    if n > 0 {
      NamedAlways(w, es, n - 1);
      RunKeeps(w, es, n - 1);
      NamesKept(After(w, es, n - 1), es[n - 1]);
    }
  }

  // --- An input at which the name goes stale. ---

  const PAIR := PartyState(1001, 2, 16, false, LOOT_FREE, LOOT_DICE, [Member(2, 16), Member(1, 80)])

  /** Users 1 (character 80) and 2 (character 16) share a party. User 1 enters character 81: the party agrees as before
      and lists it under 80, so a kick of 81 does nothing. */
  lemma AnotherCharacterListed()
    ensures var w := World(map[1 := Seat(80, PAIR), 2 := Seat(16, PAIR)], 1001);
            var w' := Step(w, Enter(1, 81));
            && PartiesOk(w) && Named(w) && Renames(w, Enter(1, 81)) && PartiesOk(w') && !Named(w')
            && Step(w', Kick(2, 81)) == w'
  {
    var w := World(map[1 := Seat(80, PAIR), 2 := Seat(16, PAIR)], 1001);
    assert PAIR.members[0] == Member(2, 16) && PAIR.members[1] == Member(1, 80);
    assert SeatOk(w, 1) && SeatOk(w, 2);
    assert PartiesOk(w);
    var w' := Step(w, Enter(1, 81));
    EnterKeeps(w, 1, 81);
    EnterNames(w, 1, 81);
    assert w'.seats[2].party.members[1..][1..] == [];
  }
}
