/** What joining, leaving and kicking do to everyone in the world, in a state the handlers can reach. */
module PartyEffects {
  import opened Party

  /** Whoever is a member of `q` holds `q`; nobody else's seat changes. */
  predicate HeldByAll(w: World, w': World, q: PartyState) {
    && w'.seats.Keys == w.seats.Keys
    && forall v :: v in w.seats ==> w'.seats[v] == if HasMember(q, v) then w.seats[v].(party := q) else w.seats[v]
  }

  /** There is room for one more and not both are in a party already. */
  predicate CanJoin(a: PartyState, b: PartyState) {
    (a == NO_PARTY || b == NO_PARTY) && |a.members| < 7 && |b.members| < 7
  }

  lemma IdMeansParty(w: World, u: nat)
    requires PartiesOk(w) && u in w.seats
    ensures var p := w.seats[u].party; (p.id == 0 <==> p == NO_PARTY) && (p != NO_PARTY ==> HasMember(p, u))
  {
    SeatOf(w, u);
  }

  lemma MadeWhenRoom(w: World, i: nat, t: nat)
    requires PartiesOk(w) && i in w.seats && t in w.seats && i != t
    ensures MakeParty(w, i, t).Some? <==> CanJoin(w.seats[i].party, w.seats[t].party)
  {
    IdMeansParty(w, i);
    IdMeansParty(w, t);
    hide PartiesOk;
    var a, b := w.seats[i].party, w.seats[t].party;
    if a == NO_PARTY && b != NO_PARTY {
      JoinHas(b, MemberOf(w, i), t);
    }
  }

  lemma JoinHas(p: PartyState, m: Member, v: nat)
    ensures HasMember(Join(p, m), v) <==> HasMember(p, v) || v == m.user
    ensures |Join(p, m).members| <= |p.members| + 1
  {
    if !HasMember(p, m.user) {
      AppendedHas(p, m, v);
    }
  }

  lemma AppendedHas(p: PartyState, m: Member, v: nat)
    ensures HasMember(p.(members := p.members + [m]), v) <==> HasMember(p, v) || v == m.user
  {
    var q := p.(members := p.members + [m]);
    assert q.members[|p.members|] == m;
    if HasMember(p, v) {
      var k :| 0 <= k < |p.members| && p.members[k].user == v;
      assert q.members[k].user == v;
    }
  }

  lemma InstallHolds(w: World, w0: World, q: PartyState)
    requires w.seats == w0.seats
    ensures HeldByAll(w0, Install(w, q), q)
  {
  }

  /** Accepting an invitation: refused exactly when both have a party or there is no room. Otherwise one party has
      the members of both sides, its settings are those of the side that had one, or a new party led by the
      inviter, and every member holds it. */
  lemma AcceptJoins(w: World, i: nat, t: nat)
    requires PartiesOk(w) && i in w.seats && t in w.seats && i != t
    ensures var a, b, w' := w.seats[i].party, w.seats[t].party, AcceptStep(w, i, t);
            if !CanJoin(a, b) then w' == w
            else
              && i in w'.seats && t in w'.seats && w'.seats[i].party == w'.seats[t].party
              && var q := w'.seats[i].party;
              && HeldByAll(w, w', q)
              && (forall v :: HasMember(q, v) <==> HasMember(a, v) || HasMember(b, v) || v == i || v == t)
              && (a != NO_PARTY ==> q.(members := a.members) == a) && (b != NO_PARTY ==> q.(members := b.members) == b)
              && (a != NO_PARTY ==> q.members == a.members + [Member(t, w.seats[t].charId)])
              && (b != NO_PARTY ==> q.members == b.members + [Member(i, w.seats[i].charId)])
              && (a == NO_PARTY && b == NO_PARTY ==>
                  && q.members == [Member(i, w.seats[i].charId), Member(t, w.seats[t].charId)]
                  && q.id == w.sequence + 1 == w'.sequence && q.leader == i && q.leaderChar == w.seats[i].charId
                  && !q.leaderOnly && q.normalLoot == 1 && q.ownerLoot == 1)
  {
    MadeWhenRoom(w, i, t);
    IdMeansParty(w, i);
    IdMeansParty(w, t);
    var a, b := w.seats[i].party, w.seats[t].party;
    if CanJoin(a, b) {
      MadeParty(w, i, t);
      var q := MakeParty(w, i, t).value;
      hide PartiesOk, MakeParty, Install;
      InstallHolds(Founded(w, i, t), w, q);
      forall v ensures HasMember(q, v) <==> HasMember(a, v) || HasMember(b, v) || v == i || v == t {
        if a != NO_PARTY {
          AppendedHas(a, MemberOf(w, t), v);
          NobodyInNone(v);
        } else if b != NO_PARTY {
          AppendedHas(b, MemberOf(w, i), v);
          NobodyInNone(v);
        } else {
          PairHas(q, v);
          NobodyInNone(v);
        }
      }
    }
  }

  lemma PairHas(q: PartyState, v: nat)
    requires |q.members| == 2
    ensures HasMember(q, v) <==> v == q.members[0].user || v == q.members[1].user
  {
  }

  /** `gone` leaves party `p`. A pair is dissolved; of a larger party everyone else holds what is left of it, with
      the members in their old order, and outsiders notice nothing. */
  predicate Departed(w: World, w': World, p: PartyState, gone: nat, q: PartyState) {
    w'.seats.Keys == w.seats.Keys && forall v :: v in w.seats ==> DepartedAt(w.seats[v], w'.seats[v], p, gone, q, v)
  }

  predicate DepartedAt(s: Seat, s': Seat, p: PartyState, gone: nat, q: PartyState, v: nat) {
    s' == if !HasMember(p, v) then s else s.(party := if v == gone || |p.members| == 2 then NO_PARTY else q)
  }

  lemma {:induction false} WithoutCount(ms: seq<Member>, k: nat)
    requires DistinctUsers(ms) && k < |ms|
    ensures Without(ms, ms[k].user) == ms[..k] + ms[k + 1..]
    decreases |ms|
  {
    var u := ms[k].user;
    if k == 0 {
      NobodyElse(ms[1..], u);
    } else {
      WithoutCount(ms[1..], k - 1);
      assert ms[..k] == [ms[0]] + ms[1..][..k - 1];
    }
  }

  lemma RestHas(p: PartyState, q: PartyState, gone: nat, v: nat)
    requires q.members == Without(p.members, gone)
    ensures HasMember(q, v) <==> HasMember(p, v) && v != gone
  {
    WithoutMembers(p.members, gone);
    MemberHas(p, v);
    MemberHas(q, v);
    hide Without, HasMember;
    if HasMember(p, v) && v != gone {
      var m :| m in p.members && m.user == v;
      assert m in q.members;
    }
  }

  lemma ClearedAt(w: World, gone: nat, last: nat, v: nat)
    requires v in w.seats
    ensures v in Clear(Clear(w, gone), last).seats
    ensures Clear(Clear(w, gone), last).seats[v] ==
      if v == gone || v == last then w.seats[v].(party := NO_PARTY) else w.seats[v]
  {
  }

  lemma InstalledAt(w: World, gone: nat, q: PartyState, v: nat)
    requires v in w.seats && !HasMember(q, gone)
    ensures v in Install(Clear(w, gone), q).seats
    ensures Install(Clear(w, gone), q).seats[v] ==
      if HasMember(q, v) then w.seats[v].(party := q)
      else if v == gone then w.seats[v].(party := NO_PARTY) else w.seats[v]
  {
    hide HasMember;
  }

  lemma SameSeats(w: World, gone: nat, last: nat, q: PartyState)
    requires gone in w.seats
    ensures Clear(Clear(w, gone), last).seats.Keys == w.seats.Keys
      && Install(Clear(w, gone), q).seats.Keys == w.seats.Keys
  {
    hide HasMember;
  }

  lemma RestCount(w: World, u: nat, gone: nat)
    requires PartiesOk(w) && u in w.seats && w.seats[u].party != NO_PARTY && HasMember(w.seats[u].party, gone)
    ensures gone in w.seats && |Without(w.seats[u].party.members, gone)| == |w.seats[u].party.members| - 1 >= 1
  {
    var p := w.seats[u].party;
    SeatOf(w, u);
    var k :| 0 <= k < |p.members| && p.members[k].user == gone;
    WithoutCount(p.members, k);
    assert p.members[k] in p.members;
  }

  /** Clearing the one who goes and installing what is left, or clearing the last one too. */
  lemma DepartureDone(w: World, u: nat, gone: nat, q: PartyState, w': World)
    requires PartiesOk(w) && u in w.seats && w.seats[u].party != NO_PARTY && HasMember(w.seats[u].party, gone)
    requires q.members == Without(w.seats[u].party.members, gone)
    requires w' == if |q.members| == 1 then Clear(Clear(w, gone), q.members[0].user) else Install(Clear(w, gone), q)
    ensures Departed(w, w', w.seats[u].party, gone, q)
  {
    var p := w.seats[u].party;
    RestCount(w, u, gone);
    hide PartiesOk, Without, HasMember, Install, Clear;
    SameSeats(w, gone, q.members[0].user, q);
    RestHas(p, q, gone, gone);
    forall v | v in w.seats ensures DepartedAt(w.seats[v], w'.seats[v], p, gone, q, v) {
      RestHas(p, q, gone, v);
      if |q.members| == 1 {
        SingleHas(q, v);
        ClearedAt(w, gone, q.members[0].user, v);
      } else {
        InstalledAt(w, gone, q, v);
      }
    }
  }

  lemma SingleHas(q: PartyState, v: nat)
    requires |q.members| == 1
    ensures HasMember(q, v) <==> v == q.members[0].user
  {
  }

  /** The party without the leaver; the first of the rest leads it if the leaver did. */
  function LedAgain(p: PartyState, u: nat, rest: seq<Member>): PartyState
    requires rest != []
  {
    var q := p.(members := rest);
    if p.leader == u then q.(leader := rest[0].user, leaderChar := rest[0].charId) else q
  }

  lemma LeaveRemoves(w: World, u: nat)
    requires PartiesOk(w) && u in w.seats && w.seats[u].party != NO_PARTY
    ensures var p := w.seats[u].party;
            var rest := Without(p.members, u);
            && |rest| == |p.members| - 1 >= 1
            && Departed(w, LeaveStep(w, u), p, u, LedAgain(p, u, rest))
  {
    var p := w.seats[u].party;
    IdMeansParty(w, u);
    RestCount(w, u, u);
    var rest := Without(p.members, u);
    hide PartiesOk, Install, Clear, Without, HasMember, Departed;
    DepartureDone(w, u, u, LedAgain(p, u, rest), LeaveStep(w, u));
  }

  /** The sender leads the party it is in. */
  predicate Led(w: World, u: nat) {
    u in w.seats && w.seats[u].party != NO_PARTY && w.seats[u].party.leader == u
  }

  lemma LedIs(w: World, u: nat)
    requires PartiesOk(w)
    ensures Leads(w, u) <==> Led(w, u)
  {
    if u in w.seats {
      IdMeansParty(w, u);
    }
  }

  /** The first member listed under character `c`, and not the sender. */
  predicate Names(p: PartyState, u: nat, c: int, i: int) {
    && 0 <= i < |p.members| && p.members[i].charId == c && p.members[i].user != u
    && forall k :: 0 <= k < i ==> p.members[k].charId != c
  }

  lemma FoundNamed(p: PartyState, u: nat, c: int)
    ensures var i := FindChar(p.members, c);
            forall j :: Names(p, u, c, j) <==> j == i && i < |p.members| && p.members[i].user != u
  {
  }

  /** A kick takes effect exactly when the leader names another member's character, and then removes that member. */
  lemma KickRemoves(w: World, u: nat, c: int, i: int)
    requires PartiesOk(w) && Led(w, u) && Names(w.seats[u].party, u, c, i)
    ensures var p := w.seats[u].party;
            var gone := p.members[i].user;
            Departed(w, KickStep(w, u, c), p, gone, p.(members := Without(p.members, gone)))
  {
    var p := w.seats[u].party;
    FoundNamed(p, u, c);
    LedIs(w, u);
    var gone := p.members[i].user;
    assert HasMember(p, gone);
    RestCount(w, u, gone);
    hide PartiesOk, Install, Clear, Without, FindChar, HasMember, Departed;
    DepartureDone(w, u, gone, p.(members := Without(p.members, gone)), KickStep(w, u, c));
  }

  lemma KickRefused(w: World, u: nat, c: int)
    requires PartiesOk(w) && (Led(w, u) ==> forall i :: !Names(w.seats[u].party, u, c, i))
    ensures KickStep(w, u, c) == w && LeaderStep(w, u, c) == w
  {
    LedIs(w, u);
    if Led(w, u) {
      var p := w.seats[u].party;
      FoundNamed(p, u, c);
      assert !Names(p, u, c, FindChar(p.members, c));
    }
    hide PartiesOk, Install, Clear, Without, FindChar, Names;
  }

  // --- Settings. ---

  /** Everyone in the party of `u` holds it with these settings, and nothing else has changed. */
  predicate SetTo(w: World, w': World, u: nat, q: PartyState)
    requires u in w.seats
  {
    && HeldByAll(w, w', q) && w'.sequence == w.sequence
    && forall v :: v in w.seats ==> (w'.seats[v].party == q <==> HasMember(w.seats[u].party, v))
  }

  lemma InstalledForAll(w: World, u: nat, q: PartyState)
    requires PartiesOk(w) && u in w.seats && w.seats[u].party != NO_PARTY
    requires q.members == w.seats[u].party.members && q.id == w.seats[u].party.id
    ensures SetTo(w, Install(w, q), u, q)
  {
    var p, w' := w.seats[u].party, Install(w, q);
    InstallHolds(w, w, q);
    IdMeansParty(w, u);
    forall v | v in w.seats ensures w'.seats[v].party == q <==> HasMember(p, v) {
      IdMeansParty(w, v);
      assert HasMember(q, v) <==> HasMember(p, v);
    }
    hide HeldByAll, Install, PartiesOk;
  }

  /** The leader hands the party over to another member: to that one, for everyone in it. */
  lemma LeaderHandsOver(w: World, u: nat, c: int, i: int)
    requires PartiesOk(w) && Led(w, u) && Names(w.seats[u].party, u, c, i)
    ensures var p := w.seats[u].party;
            SetTo(w, LeaderStep(w, u, c), u, p.(leader := p.members[i].user, leaderChar := c))
  {
    var p := w.seats[u].party;
    FoundNamed(p, u, c);
    LedIs(w, u);
    InstalledForAll(w, u, p.(leader := p.members[i].user, leaderChar := c));
    hide PartiesOk, Install, FindChar, SetTo;
  }

  lemma AuthSet(w: World, u: nat, leaderOnly: bool)
    requires PartiesOk(w)
    ensures if Led(w, u) then SetTo(w, AuthStep(w, u, leaderOnly), u, w.seats[u].party.(leaderOnly := leaderOnly))
            else AuthStep(w, u, leaderOnly) == w
  {
    LedIs(w, u);
    if Led(w, u) {
      InstalledForAll(w, u, w.seats[u].party.(leaderOnly := leaderOnly));
    }
    hide PartiesOk, Install, SetTo;
  }

  /** Looting changes are the leader's, to one of three ways for common goods and one of two for rare ones. */
  lemma LootSet(w: World, u: nat, normal: int, owner: int)
    requires PartiesOk(w)
    ensures if Led(w, u) && 1 <= normal <= 3 && 1 <= owner <= 2 then
              SetTo(w, LootStep(w, u, normal, owner), u, w.seats[u].party.(normalLoot := normal, ownerLoot := owner))
            else LootStep(w, u, normal, owner) == w
  {
    LedIs(w, u);
    if Led(w, u) && 1 <= normal <= 3 && 1 <= owner <= 2 {
      InstalledForAll(w, u, w.seats[u].party.(normalLoot := normal, ownerLoot := owner));
    }
    hide PartiesOk, Install, SetTo;
  }

  /** A connection that ends leaves its party like any leaver, and its seat is gone; whoever enters keeps the party of
      the session. */
  lemma SeatsComeAndGo(w: World, u: nat, c: int)
    ensures var gone, came := DisconnectStep(w, u), EnterStep(w, u, c);
            && gone.seats == LeaveStep(w, u).seats - {u} && u !in gone.seats
            && u in came.seats && came.seats[u].charId == c && came.seats - {u} == w.seats - {u}
            && came.seats[u].party == if u in w.seats then w.seats[u].party else NO_PARTY
  {
    hide LeaveStep;
  }

  /** Leaving without a party changes nothing. */
  lemma NothingToLeave(w: World, u: nat)
    requires PartiesOk(w) && (u in w.seats ==> w.seats[u].party == NO_PARTY)
    ensures LeaveStep(w, u) == w
  {
  }
}
