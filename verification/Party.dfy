/** Parties (cmd/gameserver/packet/party.go). A party has no home of its own: every member's context holds a
    full copy, and the handlers keep the copies equal. */
module Party {
  import opened Options

  const MAX_MEMBERS: nat := 7
  const LOOT_FREE: nat := 1
  const LOOT_LEADER: nat := 3
  const LOOT_DICE: nat := 1
  const LOOT_AUCTION: nat := 2

  datatype Member = Member(user: nat, charId: int)

  datatype PartyState = PartyState(id: int, leader: nat, leaderChar: int, leaderOnly: bool, normalLoot: nat,
                                   ownerLoot: nat, members: seq<Member>)

  const NO_PARTY := PartyState(0, 0, 0, false, 0, 0, [])

  datatype Seat = Seat(charId: int, party: PartyState)

  /** `seats` are the sessions with a character; a session keeps its character in the lobby. `sequence` is the last
      party id given out. */
  datatype World = World(seats: map<nat, Seat>, sequence: int)

  predicate HasMember(p: PartyState, u: nat) {
    exists i :: 0 <= i < |p.members| && p.members[i].user == u
  }

  /** Where a character stands in the list, or the length when it does not. */
  function FindChar(ms: seq<Member>, c: int): (i: nat)
    ensures i <= |ms| && (i < |ms| ==> ms[i].charId == c)
    ensures forall k :: 0 <= k < i ==> ms[k].charId != c
  {
    if ms == [] || ms[0].charId == c then 0 else 1 + FindChar(ms[1..], c)
  }

  function Without(ms: seq<Member>, u: nat): seq<Member> {
    if ms == [] then []
    else if ms[0].user == u then Without(ms[1..], u)
    else [ms[0]] + Without(ms[1..], u)
  }

  // --- The two ways contexts are written. ---

  /** `applyPartyState`: every member present gets a copy. */
  function Install(w: World, p: PartyState): World {
    w.(seats := map u | u in w.seats :: if HasMember(p, u) then w.seats[u].(party := p) else w.seats[u])
  }

  /** `clearPartyState`. */
  function Clear(w: World, u: nat): World {
    if u in w.seats then w.(seats := w.seats[u := w.seats[u].(party := NO_PARTY)]) else w
  }

  // --- Handlers. ---

  function MemberOf(w: World, u: nat): Member
    requires u in w.seats
  {
    Member(u, w.seats[u].charId)
  }

  function Join(p: PartyState, m: Member): PartyState {
    if HasMember(p, m.user) then p else p.(members := p.members + [m])
  }

  /** `makePartyState`: the inviter's party, else the target's, else a new one led by the inviter. */
  function MakeParty(w: World, i: nat, t: nat): Option<PartyState>
    requires i in w.seats && t in w.seats
  {
    var a, b := w.seats[i].party, w.seats[t].party;
    if a.id != 0 && b.id != 0 then None
    else
      var base := if a.id != 0 then a else if b.id != 0 then b
                  else b.(id := w.sequence + 1, leader := i, leaderChar := w.seats[i].charId,
                          normalLoot := LOOT_FREE, ownerLoot := LOOT_DICE);
      if |base.members| >= MAX_MEMBERS then None
      else
        var withInviter := Join(base, MemberOf(w, i));
        if !HasMember(withInviter, t) && |withInviter.members| >= MAX_MEMBERS then None
        else Some(Join(withInviter, MemberOf(w, t)))
  }

  /** An id is drawn whenever neither side has a party. */
  function Founded(w: World, i: nat, t: nat): World
    requires i in w.seats && t in w.seats
  {
    if w.seats[i].party.id == 0 && w.seats[t].party.id == 0 then w.(sequence := w.sequence + 1) else w
  }

  /** The accept branch of `PartyInviteResult`, for any inviter and target. */
  function AcceptStep(w: World, i: nat, t: nat): World {
    if i !in w.seats || t !in w.seats || i == t then w
    else
      var made := MakeParty(w, i, t);
      if made.None? then Founded(w, i, t) else Install(Founded(w, i, t), made.value)
  }

  function LeaveStep(w: World, u: nat): World {
    if u !in w.seats || w.seats[u].party.id == 0 then w
    else
      var p := w.seats[u].party;
      var rest := Without(p.members, u);
      var left := Clear(w, u);
      if |rest| == 0 then left
      else if |rest| == 1 then Clear(left, rest[0].user)
      else
        var q := p.(members := rest);
        Install(left, if p.leader == u then q.(leader := rest[0].user, leaderChar := rest[0].charId) else q)
  }

  predicate Leads(w: World, u: nat) {
    u in w.seats && w.seats[u].party.id != 0 && w.seats[u].party.leader == u
  }

  function KickStep(w: World, u: nat, c: int): World {
    if !Leads(w, u) then w
    else
      var p := w.seats[u].party;
      var i := FindChar(p.members, c);
      if i == |p.members| || p.members[i].user == u then w
      else
        var kicked := p.members[i].user;
        var rest := Without(p.members, kicked);
        var out := Clear(w, kicked);
        if |rest| == 0 then out
        else if |rest| == 1 then Clear(out, rest[0].user)
        else Install(out, p.(members := rest))
  }

  function LeaderStep(w: World, u: nat, c: int): World {
    if !Leads(w, u) then w
    else
      var p := w.seats[u].party;
      var i := FindChar(p.members, c);
      if i == |p.members| || p.members[i].user == u then w
      else Install(w, p.(leader := p.members[i].user, leaderChar := p.members[i].charId))
  }

  function AuthStep(w: World, u: nat, leaderOnly: bool): World {
    if !Leads(w, u) then w else Install(w, w.seats[u].party.(leaderOnly := leaderOnly))
  }

  function LootStep(w: World, u: nat, normal: int, owner: int): World {
    if !(LOOT_FREE <= normal <= LOOT_LEADER && LOOT_DICE <= owner <= LOOT_AUCTION) || !Leads(w, u) then w
    else Install(w, w.seats[u].party.(normalLoot := normal, ownerLoot := owner))
  }

  datatype Event =
    | Enter(u: nat, charId: int)
    | Accept(inviter: nat, target: nat)
    | Leave(u: nat)
    | Disconnect(u: nat)
    | Kick(u: nat, charId: int)
    | LeaderChange(u: nat, charId: int)
    | AuthChange(u: nat, leaderOnly: bool)
    | LootingType(u: nat, normal: int, owner: int)

  /** A session may enter another character at any time; its party stays as it is. */
  function EnterStep(w: World, u: nat, c: int): World {
    w.(seats := w.seats[u := Seat(c, if u in w.seats then w.seats[u].party else NO_PARTY)])
  }

  function DisconnectStep(w: World, u: nat): World {
    var left := LeaveStep(w, u);
    left.(seats := left.seats - {u})
  }

  function Step(w: World, e: Event): World {
    match e
    case Enter(u, c) => EnterStep(w, u, c)
    case Accept(i, t) => AcceptStep(w, i, t)
    case Leave(u) => LeaveStep(w, u)
    case Disconnect(u) => DisconnectStep(w, u)
    case Kick(u, c) => KickStep(w, u, c)
    case LeaderChange(u, c) => LeaderStep(w, u, c)
    case AuthChange(u, b) => AuthStep(w, u, b)
    case LootingType(u, n, o) => LootStep(w, u, n, o)
  }

  /** The world after the first `n` events. */
  function After(w: World, es: seq<Event>, n: nat): World
    requires n <= |es|
  {
    if n == 0 then w else Step(After(w, es, n - 1), es[n - 1])
  }

  // --- Agreement. ---

  predicate DistinctUsers(ms: seq<Member>) {
    forall i, j :: 0 <= i < j < |ms| ==> ms[i].user != ms[j].user
  }

  /** A party of its own making sense: 2 to 7 distinct members, led by one of them. */
  predicate Shaped(p: PartyState) {
    && p.id > 0 && 2 <= |p.members| <= MAX_MEMBERS && DistinctUsers(p.members)
    && Member(p.leader, p.leaderChar) in p.members
  }

  /** Every member listed is there and holds this very party. The character it was listed under need not be the one
      it has now; PartyNames says when it is. */
  predicate Agreed(w: World, p: PartyState) {
    forall m :: m in p.members ==> m.user in w.seats && w.seats[m.user].party == p
  }

  predicate SeatOk(w: World, u: nat)
    requires u in w.seats
  {
    var p := w.seats[u].party;
    p == NO_PARTY || (Shaped(p) && p.id <= w.sequence && HasMember(p, u) && Agreed(w, p))
  }

  predicate PartiesOk(w: World) {
    && (forall u :: u in w.seats ==> SeatOk(w, u))
    && (forall u, v :: u in w.seats && v in w.seats && w.seats[u].party.id == w.seats[v].party.id != 0
                       ==> w.seats[u].party == w.seats[v].party)
  }

  /** Replacing party `p` by `q`: members of `q` hold it, former members of `p` left out hold none, nobody else
      notices. `p` is NO_PARTY when `q` is newly founded, `q` is NO_PARTY when `p` is disbanded. */
  predicate Replaced(w: World, w': World, p: PartyState, q: PartyState) {
    && w'.seats.Keys == w.seats.Keys && w'.sequence >= w.sequence
    && forall u :: u in w.seats ==> ReplacedAt(w.seats[u], w'.seats[u], p, q, u)
  }

  predicate ReplacedAt(s: Seat, s': Seat, p: PartyState, q: PartyState, u: nat) {
    && s'.charId == s.charId
    && s'.party == if HasMember(q, u) then q else if p != NO_PARTY && s.party == p then NO_PARTY else s.party
  }

  predicate MayReplace(w: World, sequence: int, p: PartyState, q: PartyState) {
    q == NO_PARTY ||
    (&& Shaped(q) && q.id <= sequence
     && (q.id > w.sequence || (p != NO_PARTY && q.id == p.id && exists u :: u in w.seats && w.seats[u].party == p))
     && (forall m :: m in q.members ==> m.user in w.seats
                                        && (w.seats[m.user].party == NO_PARTY || w.seats[m.user].party == p)))
  }

  lemma MemberHas(p: PartyState, u: nat)
    ensures HasMember(p, u) <==> exists m :: m in p.members && m.user == u
  {
    if HasMember(p, u) {
      var i :| 0 <= i < |p.members| && p.members[i].user == u;
      assert p.members[i] in p.members;
    }
    if m: Member :| m in p.members && m.user == u {
      var i :| 0 <= i < |p.members| && p.members[i] == m;
    }
  }

  lemma NobodyInNone(u: nat)
    ensures !HasMember(NO_PARTY, u)
  {
  }

  lemma ReplacedMember(w: World, w': World, p: PartyState, q: PartyState, m: Member)
    requires Replaced(w, w', p, q) && q != NO_PARTY && MayReplace(w, w'.sequence, p, q) && m in q.members
    ensures m.user in w'.seats && w'.seats[m.user].party == q
  {
    MemberHas(q, m.user);
  }

  /** A party other than the two involved keeps every member it had. */
  lemma BystanderAgreed(w: World, w': World, p: PartyState, q: PartyState, r: PartyState)
    requires Replaced(w, w', p, q) && MayReplace(w, w'.sequence, p, q)
    requires Agreed(w, r) && r != NO_PARTY && r != p
    ensures Agreed(w', r)
  {
    forall m | m in r.members ensures m.user in w'.seats && w'.seats[m.user].party == r {
      MemberHas(q, m.user);
    }
  }

  lemma ReplaceKeepsSeat(w: World, w': World, p: PartyState, q: PartyState, u: nat)
    requires PartiesOk(w) && Replaced(w, w', p, q) && MayReplace(w, w'.sequence, p, q) && u in w'.seats
    ensures SeatOk(w', u)
  {
    assert SeatOk(w, u);
    var r := w'.seats[u].party;
    if r != NO_PARTY {
      if HasMember(q, u) {
        forall m | m in q.members ensures m.user in w'.seats && w'.seats[m.user].party == q {
          ReplacedMember(w, w', p, q, m);
        }
      } else {
        BystanderAgreed(w, w', p, q, r);
      }
    }
  }

  lemma ReplaceKeepsIds(w: World, w': World, p: PartyState, q: PartyState, u: nat, v: nat)
    requires PartiesOk(w) && Replaced(w, w', p, q) && MayReplace(w, w'.sequence, p, q) && u in w'.seats && v in w'.seats
    requires w'.seats[u].party.id == w'.seats[v].party.id != 0
    ensures w'.seats[u].party == w'.seats[v].party
  {
    assert SeatOk(w, u) && SeatOk(w, v);
    hide Agreed, Shaped;
  }

  lemma ReplaceKeeps(w: World, w': World, p: PartyState, q: PartyState)
    requires PartiesOk(w) && Replaced(w, w', p, q) && MayReplace(w, w'.sequence, p, q)
    ensures PartiesOk(w')
  {
    hide SeatOk, Replaced, MayReplace;
    forall u | u in w'.seats ensures SeatOk(w', u) {
      ReplaceKeepsSeat(w, w', p, q, u);
    }
    forall u, v | u in w'.seats && v in w'.seats && w'.seats[u].party.id == w'.seats[v].party.id != 0
      ensures w'.seats[u].party == w'.seats[v].party
    {
      ReplaceKeepsIds(w, w', p, q, u, v);
    }
  }

  lemma {:induction false} WithoutMembers(ms: seq<Member>, u: nat)
    ensures forall m :: m in Without(ms, u) <==> m in ms && m.user != u
    ensures DistinctUsers(ms) ==> DistinctUsers(Without(ms, u))
    ensures |Without(ms, u)| <= |ms|
    ensures (exists m :: m in ms && m.user == u) ==> |Without(ms, u)| < |ms|
    ensures DistinctUsers(ms) ==> |Without(ms, u)| >= |ms| - 1
  {
    if ms != [] {
      var rest := Without(ms[1..], u);
      WithoutMembers(ms[1..], u);
      assert ms == [ms[0]] + ms[1..];
      if DistinctUsers(ms) {
        assert DistinctUsers(ms[1..]);
        if ms[0].user == u {
          NobodyElse(ms[1..], u);
        } else {
          forall i | 0 <= i < |rest| ensures rest[i].user != ms[0].user {
            assert rest[i] in ms[1..];
          }
        }
      }
    }
  }

  lemma {:induction false} NobodyElse(ms: seq<Member>, u: nat)
    requires forall i :: 0 <= i < |ms| ==> ms[i].user != u
    ensures Without(ms, u) == ms
  {
    if ms != [] {
      NobodyElse(ms[1..], u);
    }
  }

  /** The seats that hold a given party are those of its members. */
  lemma HoldersAreMembers(w: World, p: PartyState, v: nat)
    requires PartiesOk(w) && p != NO_PARTY && v in w.seats && w.seats[v].party == p
    ensures exists m :: m in p.members && m.user == v
  {
    assert SeatOk(w, v);
    MemberHas(p, v);
  }

  lemma SeatOf(w: World, u: nat)
    requires PartiesOk(w) && u in w.seats
    ensures SeatOk(w, u)
  {
  }

  /** Members of a held party are in the world and hold it. */
  lemma MemberSeat(w: World, u: nat, m: Member)
    requires PartiesOk(w) && u in w.seats && m in w.seats[u].party.members
    ensures m.user in w.seats && w.seats[m.user].party == w.seats[u].party
  {
    assert SeatOk(w, u);
  }

  /** A party `q` with members of `p` only may take its place. */
  lemma SubsetMayReplace(w: World, u: nat, q: PartyState)
    requires PartiesOk(w) && u in w.seats && w.seats[u].party != NO_PARTY
    requires Shaped(q) && q.id == w.seats[u].party.id && forall m :: m in q.members ==> m in w.seats[u].party.members
    ensures MayReplace(w, w.sequence, w.seats[u].party, q)
  {
    SeatOf(w, u);
    hide PartiesOk, Shaped;
    forall m | m in q.members ensures m.user in w.seats && w.seats[m.user].party == w.seats[u].party {
      MemberSeat(w, u, m);
    }
  }

  lemma ShrunkAt(w: World, u: nat, q: PartyState, v: nat)
    requires PartiesOk(w) && u in w.seats && w.seats[u].party != NO_PARTY && v in w.seats
    requires q.members == Without(w.seats[u].party.members, u)
    ensures v in Install(Clear(w, u), q).seats
    ensures ReplacedAt(w.seats[v], Install(Clear(w, u), q).seats[v], w.seats[u].party, q, v)
  {
    var p := w.seats[u].party;
    WithoutMembers(p.members, u);
    MemberHas(q, v);
    hide PartiesOk, Without, HasMember;
    if w.seats[v].party == p {
      HoldersAreMembers(w, p, v);
      if v != u {
        var m :| m in p.members && m.user == v;
        assert m in q.members;
      }
    }
  }

  /** A member goes and at least two stay. */
  lemma ShrunkKeeps(w: World, u: nat, q: PartyState)
    requires PartiesOk(w) && u in w.seats && w.seats[u].party != NO_PARTY
    requires q.members == Without(w.seats[u].party.members, u) && |q.members| >= 2 && q.id == w.seats[u].party.id
    requires Member(q.leader, q.leaderChar) in q.members
    ensures PartiesOk(Install(Clear(w, u), q))
  {
    var p := w.seats[u].party;
    SeatOf(w, u);
    WithoutMembers(p.members, u);
    SubsetMayReplace(w, u, q);
    var w' := Install(Clear(w, u), q);
    assert w'.seats.Keys == w.seats.Keys && w'.sequence == w.sequence;
    hide *;
    forall v | v in w.seats ensures ReplacedAt(w.seats[v], w'.seats[v], p, q, v) {
      ShrunkAt(w, u, q, v);
    }
    ShrunkDone(w, w', p, q);
  }

  lemma ShrunkDone(w: World, w': World, p: PartyState, q: PartyState)
    requires PartiesOk(w) && w'.seats.Keys == w.seats.Keys && w'.sequence == w.sequence
      && MayReplace(w, w.sequence, p, q)
    requires forall u :: u in w.seats ==> ReplacedAt(w.seats[u], w'.seats[u], p, q, u)
    ensures PartiesOk(w')
  {
    hide PartiesOk, MayReplace, ReplacedAt;
    ReplaceKeeps(w, w', p, q);
  }

  /** Nobody but the leaver and the one left over holds the party. */
  lemma LastTwo(w: World, u: nat, v: nat, rest: seq<Member>)
    requires PartiesOk(w) && u in w.seats && w.seats[u].party != NO_PARTY && v in w.seats
      && w.seats[v].party == w.seats[u].party
    requires rest == Without(w.seats[u].party.members, u) && |rest| <= 1
    ensures v == u || (|rest| == 1 && v == rest[0].user)
  {
    var p := w.seats[u].party;
    WithoutMembers(p.members, u);
    hide PartiesOk, Without;
    HoldersAreMembers(w, p, v);
    var m :| m in p.members && m.user == v;
    assert m.user != u ==> m in rest;
  }

  function Disbanded(w: World, u: nat, rest: seq<Member>): World {
    if |rest| == 0 then Clear(w, u) else Clear(Clear(w, u), rest[0].user)
  }

  lemma DisbandedAt(w: World, u: nat, rest: seq<Member>, v: nat)
    requires PartiesOk(w) && u in w.seats && w.seats[u].party != NO_PARTY && v in w.seats
    requires rest == Without(w.seats[u].party.members, u) && |rest| <= 1
    ensures Disbanded(w, u, rest).seats.Keys == w.seats.Keys && Disbanded(w, u, rest).sequence == w.sequence
    ensures ReplacedAt(w.seats[v], Disbanded(w, u, rest).seats[v], w.seats[u].party, NO_PARTY, v)
  {
    var p := w.seats[u].party;
    if |rest| == 1 {
      WithoutMembers(p.members, u);
      assert rest[0] in rest;
      MemberSeat(w, u, rest[0]);
    }
    hide PartiesOk, Without, HasMember;
    NobodyInNone(v);
    if w.seats[v].party == p {
      LastTwo(w, u, v, rest);
    }
  }

  /** A member goes and at most one stays: the party ends. */
  lemma DisbandKeeps(w: World, u: nat, rest: seq<Member>)
    requires PartiesOk(w) && u in w.seats && w.seats[u].party != NO_PARTY
    requires rest == Without(w.seats[u].party.members, u) && |rest| <= 1
    ensures PartiesOk(Disbanded(w, u, rest))
  {
    var p := w.seats[u].party;
    assert MayReplace(w, w.sequence, p, NO_PARTY);
    hide *;
    DisbandedAt(w, u, rest, u);
    forall v | v in w.seats ensures ReplacedAt(w.seats[v], Disbanded(w, u, rest).seats[v], p, NO_PARTY, v) {
      DisbandedAt(w, u, rest, v);
    }
    ShrunkDone(w, Disbanded(w, u, rest), p, NO_PARTY);
  }

  /** Same members, other settings. */
  lemma SettingsKeep(w: World, u: nat, q: PartyState)
    requires PartiesOk(w) && u in w.seats && w.seats[u].party != NO_PARTY
    requires q.members == w.seats[u].party.members && q.id == w.seats[u].party.id
    requires Member(q.leader, q.leaderChar) in q.members
    ensures PartiesOk(Install(w, q))
  {
    var p := w.seats[u].party;
    SeatOf(w, u);
    SubsetMayReplace(w, u, q);
    hide PartiesOk, Agreed, Shaped, HasMember, MayReplace;
    forall v | v in w.seats ensures ReplacedAt(w.seats[v], Install(w, q).seats[v], p, q, v) {
      if w.seats[v].party == p {
        HoldersAreMembers(w, p, v);
        MemberHas(q, v);
      }
    }
    ReplaceKeeps(w, Install(w, q), p, q);
  }

  /** One more member for an existing party. */
  lemma JoinKeeps(w: World, u: nat, m: Member)
    requires PartiesOk(w) && u in w.seats && w.seats[u].party != NO_PARTY && |w.seats[u].party.members| < MAX_MEMBERS
    requires m.user in w.seats && m == MemberOf(w, m.user) && w.seats[m.user].party == NO_PARTY
    ensures var p := w.seats[u].party; PartiesOk(Install(w, p.(members := p.members + [m])))
  {
    var p := w.seats[u].party;
    var q := p.(members := p.members + [m]);
    SeatOf(w, u);
    hide PartiesOk, Agreed;
    forall k | k in p.members ensures k.user in w.seats && w.seats[k.user].party == p {
      MemberSeat(w, u, k);
    }
    forall i | 0 <= i < |p.members| ensures p.members[i].user != m.user {
      assert p.members[i] in p.members;
    }
    assert Member(p.leader, p.leaderChar) in q.members;
    forall v | v in w.seats && w.seats[v].party == p ensures HasMember(q, v) {
      HoldersAreMembers(w, p, v);
      var k :| k in p.members && k.user == v;
      assert k in q.members;
      MemberHas(q, v);
    }
    ReplaceKeeps(w, Install(w, q), p, q);
  }

  /** Two players without a party found one. */
  lemma FoundKeeps(w: World, i: nat, t: nat)
    requires PartiesOk(w) && w.sequence >= 0 && i in w.seats && t in w.seats && i != t
    requires w.seats[i].party == NO_PARTY && w.seats[t].party == NO_PARTY
    ensures PartiesOk(Install(w.(sequence := w.sequence + 1),
                              PartyState(w.sequence + 1, i, w.seats[i].charId, false, LOOT_FREE, LOOT_DICE,
                                         [MemberOf(w, i), MemberOf(w, t)])))
  {
    var q := PartyState(w.sequence + 1, i, w.seats[i].charId, false, LOOT_FREE, LOOT_DICE,
                        [MemberOf(w, i), MemberOf(w, t)]);
    hide PartiesOk;
    assert Shaped(q) by {
      assert q.members[0] == Member(q.leader, q.leaderChar);
    }
    assert MayReplace(w, w.sequence + 1, NO_PARTY, q);
    hide Shaped, MayReplace, HasMember;
    ReplaceKeeps(w, Install(w.(sequence := w.sequence + 1), q), NO_PARTY, q);
  }

  /** What an accepted invitation makes, party by party. */
  lemma InsiderHolds(w: World, u: nat, v: nat)
    requires PartiesOk(w) && u in w.seats
    ensures HasMember(w.seats[u].party, v) ==> v in w.seats && w.seats[v].party == w.seats[u].party
  {
    if HasMember(w.seats[u].party, v) {
      MemberHas(w.seats[u].party, v);
      var m :| m in w.seats[u].party.members && m.user == v;
      MemberSeat(w, u, m);
    }
  }

  lemma MadeParty(w: World, i: nat, t: nat)
    requires PartiesOk(w) && i in w.seats && t in w.seats && i != t && MakeParty(w, i, t).Some?
    ensures var a, b, q := w.seats[i].party, w.seats[t].party, MakeParty(w, i, t).value;
            if a != NO_PARTY then b == NO_PARTY && |a.members| < MAX_MEMBERS
              && q == a.(members := a.members + [MemberOf(w, t)])
            else if b != NO_PARTY then |b.members| < MAX_MEMBERS && q == b.(members := b.members + [MemberOf(w, i)])
            else q == PartyState(w.sequence + 1, i, w.seats[i].charId, false, LOOT_FREE, LOOT_DICE,
                                 [MemberOf(w, i), MemberOf(w, t)])
  {
    SeatOf(w, i);
    SeatOf(w, t);
    var a, b := w.seats[i].party, w.seats[t].party;
    InsiderHolds(w, i, t);
    InsiderHolds(w, t, i);
    hide PartiesOk, Agreed;
    if a == NO_PARTY && b != NO_PARTY {
      var k :| 0 <= k < |b.members| && b.members[k].user == t;
      assert (b.members + [MemberOf(w, i)])[k].user == t;
    }
  }

  lemma DrawnKeeps(w: World, i: nat, t: nat)
    requires PartiesOk(w) && i in w.seats && t in w.seats
    ensures PartiesOk(Founded(w, i, t))
  {
    forall v | v in w.seats ensures SeatOk(Founded(w, i, t), v) {
      assert SeatOk(w, v);
    }
  }

  lemma AcceptKeeps(w: World, i: nat, t: nat)
    requires PartiesOk(w) && w.sequence >= 0
    ensures PartiesOk(AcceptStep(w, i, t))
  {
    if i in w.seats && t in w.seats && i != t {
      RestLed(w, i, i);
      RestLed(w, t, t);
      hide PartiesOk, MakeParty, Install, Without, MemberOf;
      if MakeParty(w, i, t).None? {
        DrawnKeeps(w, i, t);
        return;
      }
      MadeParty(w, i, t);
      if w.seats[i].party != NO_PARTY {
        JoinKeeps(w, i, MemberOf(w, t));
      } else if w.seats[t].party != NO_PARTY {
        JoinKeeps(w, t, MemberOf(w, i));
      } else {
        FoundKeeps(w, i, t);
      }
    }
  }

  /** What remains when a member of a party goes: someone, and the leader unless it went itself. */
  lemma RestLed(w: World, u: nat, gone: nat)
    requires PartiesOk(w) && u in w.seats
    ensures var p := w.seats[u].party;
            && (p.id == 0 <==> p == NO_PARTY)
            && (p != NO_PARTY ==> |Without(p.members, gone)| > 0)
            && (p != NO_PARTY && p.leader != gone ==> Member(p.leader, p.leaderChar) in Without(p.members, gone))
  {
    SeatOf(w, u);
    WithoutMembers(w.seats[u].party.members, gone);
  }

  lemma LeaverIsOut(w: World, u: nat)
    requires PartiesOk(w)
    ensures LeaveStep(w, u).seats.Keys == w.seats.Keys
    ensures u in w.seats ==> LeaveStep(w, u).seats[u].party == NO_PARTY
  {
    if u in w.seats {
      RestLed(w, u, u);
      hide PartiesOk;
      var p := w.seats[u].party;
      var q := p.(members := Without(p.members, u));
      WithoutMembers(p.members, u);
      MemberHas(q, u);
      hide Without;
      if |q.members| >= 2 && p.leader == u {
        MemberHas(q.(leader := q.members[0].user, leaderChar := q.members[0].charId), u);
      }
    }
  }

  lemma LeaveKeeps(w: World, u: nat)
    requires PartiesOk(w)
    ensures PartiesOk(LeaveStep(w, u))
    ensures LeaveStep(w, u).seats.Keys == w.seats.Keys
    ensures u in w.seats ==> LeaveStep(w, u).seats[u].party == NO_PARTY
  {
    LeaverIsOut(w, u);
    hide PartiesOk, Install, Clear, Without;
    if u in w.seats {
      RestLed(w, u, u);
      var p := w.seats[u].party;
      if p != NO_PARTY {
        var rest := Without(p.members, u);
        if |rest| <= 1 {
          DisbandKeeps(w, u, rest);
        } else {
          assert Member(rest[0].user, rest[0].charId) == rest[0];
          var q := p.(members := rest);
          ShrunkKeeps(w, u, if p.leader == u then q.(leader := rest[0].user, leaderChar := rest[0].charId) else q);
        }
      }
    }
  }

  lemma KickKeeps(w: World, u: nat, c: int)
    requires PartiesOk(w)
    ensures PartiesOk(KickStep(w, u, c))
  {
    hide PartiesOk, Install, Clear, Without, FindChar;
    if Leads(w, u) {
      var p := w.seats[u].party;
      var i := FindChar(p.members, c);
      if i < |p.members| && p.members[i].user != u {
        var kicked := p.members[i].user;
        RestLed(w, u, kicked);
        MemberSeat(w, u, p.members[i]);
        var rest := Without(p.members, kicked);
        if |rest| <= 1 {
          DisbandKeeps(w, kicked, rest);
        } else {
          ShrunkKeeps(w, kicked, p.(members := rest));
        }
      }
    }
  }

  lemma DisconnectKeeps(w: World, u: nat)
    requires PartiesOk(w)
    ensures PartiesOk(DisconnectStep(w, u))
  {
    LeaveKeeps(w, u);
    hide LeaveStep;
    var left, w' := LeaveStep(w, u), DisconnectStep(w, u);
    forall v | v in w'.seats ensures SeatOk(w', v) {
      SeatOf(left, v);
      var p := left.seats[v].party;
      hide PartiesOk;
      forall m | m in p.members ensures m.user in w'.seats && w'.seats[m.user].party == p {
        MemberSeat(left, v, m);
      }
    }
  }

  lemma LeadersParty(w: World, u: nat)
    requires PartiesOk(w) && Leads(w, u)
    ensures var p := w.seats[u].party; p != NO_PARTY && Member(p.leader, p.leaderChar) in p.members
  {
    SeatOf(w, u);
  }

  lemma LeaderKeeps(w: World, u: nat, c: int)
    requires PartiesOk(w)
    ensures PartiesOk(LeaderStep(w, u, c))
  {
    hide PartiesOk, Install, FindChar;
    if Leads(w, u) {
      LeadersParty(w, u);
      var p := w.seats[u].party;
      var i := FindChar(p.members, c);
      if i < |p.members| {
        assert p.members[i] == Member(p.members[i].user, p.members[i].charId);
        SettingsKeep(w, u, p.(leader := p.members[i].user, leaderChar := p.members[i].charId));
      }
    }
  }

  lemma SettersKeep(w: World, u: nat, leaderOnly: bool, normal: int, owner: int)
    requires PartiesOk(w)
    ensures PartiesOk(AuthStep(w, u, leaderOnly)) && PartiesOk(LootStep(w, u, normal, owner))
  {
    hide PartiesOk, Install;
    if Leads(w, u) {
      LeadersParty(w, u);
      var p := w.seats[u].party;
      SettingsKeep(w, u, p.(leaderOnly := leaderOnly));
      if 0 <= normal && 0 <= owner {
        SettingsKeep(w, u, p.(normalLoot := normal, ownerLoot := owner));
      }
    }
  }

  lemma StepKeeps(w: World, e: Event)
    requires PartiesOk(w) && w.sequence >= 0
    ensures PartiesOk(Step(w, e)) && Step(w, e).sequence >= w.sequence
  {
    hide Shaped, Agreed;
    match e
    case Enter(u, c) => EnterKeeps(w, u, c);
    case Accept(i, t) => AcceptKeeps(w, i, t);
    case Leave(u) => LeaveKeeps(w, u);
    case Disconnect(u) => DisconnectKeeps(w, u);
    case Kick(u, c) => KickKeeps(w, u, c);
    case LeaderChange(u, c) => LeaderKeeps(w, u, c);
    case AuthChange(u, b) => SettersKeep(w, u, b, 0, 0);
    case LootingType(u, n, o) => SettersKeep(w, u, false, n, o);
  }

  lemma EnterKeeps(w: World, u: nat, c: int)
    requires PartiesOk(w)
    ensures PartiesOk(EnterStep(w, u, c))
  {
    var w' := EnterStep(w, u, c);
    forall v | v in w'.seats ensures SeatOk(w', v) {
      if v in w.seats {
        assert SeatOk(w, v);
      }
    }
  }

  /** In every run all members of a party hold the same party, with 2 to 7 distinct members, led by one of them. */
  lemma {:induction false} RunKeeps(w: World, es: seq<Event>, n: nat)
    requires PartiesOk(w) && w.sequence >= 0 && n <= |es|
    ensures PartiesOk(After(w, es, n)) && After(w, es, n).sequence >= 0
    decreases n
  {
    hide Step, PartiesOk;
    if n > 0 {
      RunKeeps(w, es, n - 1);
      StepKeeps(After(w, es, n - 1), es[n - 1]);
    }
  }

  /** Distinct parties share no member. */
  lemma PartiesDisjoint(w: World, u: nat, v: nat, x: nat)
    requires PartiesOk(w) && u in w.seats && v in w.seats
    requires HasMember(w.seats[u].party, x) && HasMember(w.seats[v].party, x)
    ensures w.seats[u].party == w.seats[v].party
  {
    InsiderHolds(w, u, x);
    InsiderHolds(w, v, x);
  }
}
