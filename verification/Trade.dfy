/** The two-party trade of cmd/gameserver/packet/trade.go as a state machine: every packet handler is one
    step over the players in the world and the Master's tables. */
module Trade {
  import opened Economy

  const MAX_SLOT: nat := 255

  datatype Status = Idle | Pending | Open
  datatype Role = NoRole | Requester | Target

  /** An inventory item on offer: the slot it lies in, what it is, and its place in the trade window. */
  datatype Offer = Offer(slot: Slot, goods: Goods, tradeSlot: nat)

  datatype TradeState = TradeState(status: Status, role: Role, opponent: nat, opponentChar: int, items: seq<Offer>,
                                   alz: U64, submitted: bool, destinations: seq<Slot>)

  const NO_TRADE := TradeState(Idle, NoRole, 0, 0, [], 0, false, [])

  type Bag = map<Slot, Goods>

  datatype Player = Player(charId: int, alz: U64, inventory: Bag, trade: TradeState)

  /** The character list a session has cached: each character's Alz as it was when the list was loaded. */
  type Roster = map<int, U64>

  /** `players` are the sessions with a character, by user index. A session keeps its character in the lobby, so it
      stays here until the connection ends. */
  datatype World = World(players: map<nat, Player>, rosters: map<nat, Roster>, db: Db)

  datatype OpenAction = RequestCancel | Accept | Reject | AutoReject
  datatype CloseAction = Submit | SubmitCancel | TradeCancel

  /** How the call to the Master goes: answered, never made, or carried out with the answer lost. */
  datatype Rpc = Answered | Unreachable | ReplyLost

  datatype Event =
    | ListChars(u: nat, account: int)
    | Enter(u: nat, charId: int)
    | Request(u: nat, target: nat, targetChar: int)
    | OpenEvent(u: nat, open: OpenAction)
    | CloseEvent(u: nat, close: CloseAction)
    | AddItem(u: nat, slot: Slot, tradeSlot: nat)
    | AddAlz(u: nat, amount: int)
    | RemoveItem(u: nat, tradeSlot: nat, slot: Slot)
    | RequestList(u: nat, slots: seq<Slot>, rpc: Rpc)
    | Lobby(u: nat)
    | Disconnect(u: nat)
    | Other(u: nat, alz: U64, inventory: Bag)

  // --- Helpers of the handlers. ---

  function Get(inv: Bag, s: Slot): Goods {
    if s in inv then inv[s] else NO_GOODS
  }

  /** `tradeOfferExists`: the slot or the window place is taken by an earlier offer. */
  predicate OfferExists(items: seq<Offer>, slot: Slot, tradeSlot: nat) {
    exists i :: 0 <= i < |items| && (items[i].slot == slot || items[i].tradeSlot == tradeSlot)
  }

  predicate Matches(o: Offer, tradeSlot: nat, slot: Slot) {
    o.tradeSlot == tradeSlot && o.slot == slot
  }

  /** `tradeOfferIndex`: the first offer in both places, or the number of offers when there is none. */
  function OfferIndex(items: seq<Offer>, tradeSlot: nat, slot: Slot): (i: nat)
    ensures i <= |items|
  {
    if items == [] || Matches(items[0], tradeSlot, slot) then 0 else 1 + OfferIndex(items[1..], tradeSlot, slot)
  }

  lemma {:induction false} OfferIndexIsFirst(items: seq<Offer>, tradeSlot: nat, slot: Slot)
    ensures var i := OfferIndex(items, tradeSlot, slot);
            && (i < |items| ==> Matches(items[i], tradeSlot, slot))
            && forall k :: 0 <= k < i ==> !Matches(items[k], tradeSlot, slot)
  {
    if items != [] && !Matches(items[0], tradeSlot, slot) {
      OfferIndexIsFirst(items[1..], tradeSlot, slot);
      var i := OfferIndex(items, tradeSlot, slot);
      forall k | 0 <= k < i ensures !Matches(items[k], tradeSlot, slot) {
        assert k > 0 ==> items[k] == items[1..][k - 1];
      }
    }
  }

  predicate Distinct(slots: seq<Slot>) {
    forall i, j :: 0 <= i < j < |slots| ==> slots[i] != slots[j]
  }

  /** `tradePair`: an open trade whose opponent is another player in the world. */
  predicate Paired(w: World, u: nat) {
    && u in w.players && w.players[u].trade.status == Open
    && w.players[u].trade.opponent != u && w.players[u].trade.opponent in w.players
  }

  function Peer(w: World, u: nat): nat
    requires u in w.players
  {
    w.players[u].trade.opponent
  }

  /** Both sides of a pair are in the open window; `edits` asks that the acting side has not submitted. */
  predicate InWindow(w: World, u: nat, edits: bool) {
    && Paired(w, u) && w.players[Peer(w, u)].trade.status == Open
    && (edits ==> !w.players[u].trade.submitted)
  }

  function SetTrade(w: World, u: nat, t: TradeState): (r: World)
    requires u in w.players
    ensures r.players.Keys == w.players.Keys && r.db == w.db && r.rosters == w.rosters
  {
    w.(players := w.players[u := w.players[u].(trade := t)])
  }

  /** Any change to an offer withdraws the opponent's approval. */
  function Edit(w: World, u: nat, t: TradeState): World
    requires Paired(w, u)
  {
    var v := Peer(w, u);
    SetTrade(SetTrade(w, u, t), v, w.players[v].trade.(submitted := false))
  }

  function Reset(w: World, u: nat, v: nat): World
    requires u in w.players && v in w.players
  {
    SetTrade(SetTrade(w, u, NO_TRADE), v, NO_TRADE)
  }

  // --- Handlers. ---

  function RequestStep(w: World, u: nat, v: nat, targetChar: int): World {
    if u !in w.players || w.players[u].charId <= 0 || v == u || v !in w.players || w.players[v].charId != targetChar
       || w.players[u].trade.status != Idle || w.players[v].trade.status != Idle then w
    else
      SetTrade(SetTrade(w, u, NO_TRADE.(status := Pending, role := Requester, opponent := v,
                                        opponentChar := targetChar)),
               v, NO_TRADE.(status := Pending, role := Target, opponent := u, opponentChar := w.players[u].charId))
  }

  predicate CanAnswer(w: World, u: nat, a: OpenAction) {
    && u in w.players && Peer(w, u) in w.players && Peer(w, u) != u
    && var s, p := w.players[u].trade, w.players[Peer(w, u)].trade;
    && s.status == Pending && p.status == Pending && p.opponent == u && p.opponentChar == w.players[u].charId
    && s.role == if a == RequestCancel then Requester else Target
  }

  function OpenStep(w: World, u: nat, a: OpenAction): World {
    if !CanAnswer(w, u, a) then w
    else
      var v := Peer(w, u);
      if a == Accept then
        SetTrade(SetTrade(w, u, w.players[u].trade.(status := Open)), v, w.players[v].trade.(status := Open))
      else Reset(w, u, v)
  }

  function CloseStep(w: World, u: nat, a: CloseAction): World {
    if !InWindow(w, u, false) then w
    else match a
      case Submit => if w.players[u].trade.submitted then w else SetTrade(w, u, w.players[u].trade.(submitted := true))
      case SubmitCancel => SetTrade(w, u, w.players[u].trade.(submitted := false))
      case TradeCancel => Reset(w, u, Peer(w, u))
  }

  function AddItemStep(w: World, u: nat, slot: Slot, tradeSlot: nat): World {
    if slot > MAX_SLOT || tradeSlot > MAX_SLOT || !InWindow(w, u, true) then w
    else
      var p := w.players[u];
      var goods := Get(p.inventory, slot);
      if goods.kind == 0 || OfferExists(p.trade.items, slot, tradeSlot) then w
      else Edit(w, u, p.trade.(items := p.trade.items + [Offer(slot, goods, tradeSlot)]))
  }

  function AddAlzStep(w: World, u: nat, amount: int): World {
    if amount < 0 || !InWindow(w, u, true) || amount > w.players[u].alz then w
    else Edit(w, u, w.players[u].trade.(alz := amount))
  }

  function RemoveItemStep(w: World, u: nat, tradeSlot: nat, slot: Slot): World {
    if !InWindow(w, u, true) then w
    else
      var t := w.players[u].trade;
      var i := OfferIndex(t.items, tradeSlot, slot);
      if i == |t.items| then w else Edit(w, u, t.(items := t.items[..i] + t.items[i + 1..]))
  }

  predicate AcceptsList(w: World, u: nat, slots: seq<Slot>) {
    && |slots| <= MAX_SLOT && (forall i :: 0 <= i < |slots| ==> slots[i] <= MAX_SLOT) && Distinct(slots)
    && InWindow(w, u, false)
    && w.players[u].trade.submitted && w.players[Peer(w, u)].trade.submitted
    && |slots| == |w.players[Peer(w, u)].trade.items|
    && forall i :: 0 <= i < |slots| ==> Get(w.players[u].inventory, slots[i]).kind == 0
  }

  function NoteList(w: World, u: nat, slots: seq<Slot>): World
    requires u in w.players
  {
    SetTrade(w, u, w.players[u].trade.(destinations := slots))
  }

  /** Both destination lists are in: the exchange goes to the Master. */
  predicate Ready(w: World, u: nat) {
    Paired(w, u) && |w.players[Peer(w, u)].trade.destinations| == |w.players[u].trade.items|
  }

  function Transfers(items: seq<Offer>, targets: seq<Slot>): seq<Transfer>
    requires |items| == |targets|
  {
    seq(|items|, i requires 0 <= i < |items| => Transfer(items[i].slot, items[i].goods, targets[i]))
  }

  /** What completeTrade asks of the Master. */
  function Exchange(w: World, u: nat): TradeRequest
    requires Ready(w, u) && |w.players[u].trade.destinations| == |w.players[Peer(w, u)].trade.items|
  {
    var p, q := w.players[u], w.players[Peer(w, u)];
    TradeRequest(p.charId, q.charId, Transfers(p.trade.items, q.trade.destinations),
                 Transfers(q.trade.items, p.trade.destinations), p.trade.alz, q.trade.alz)
  }

  function Slots(items: seq<Offer>): set<Slot> {
    set i | 0 <= i < |items| :: items[i].slot
  }

  /** The incoming items in their destination slots. */
  function Landed(items: seq<Offer>, targets: seq<Slot>): Bag
    requires |items| == |targets|
  {
    if items == [] then map[]
    else
      var n := |items| - 1;
      Landed(items[..n], targets[..n])[targets[n] := items[n].goods]
  }

  function SlotSet(slots: seq<Slot>): set<Slot> {
    set i | 0 <= i < |slots| :: slots[i]
  }

  predicate InPlace(m: Bag, items: seq<Offer>, targets: seq<Slot>)
    requires |items| == |targets|
  {
    forall i :: 0 <= i < |targets| ==> targets[i] in m && m[targets[i]] == items[i].goods
  }

  lemma SlotSetOneMore(slots: seq<Slot>)
    requires slots != []
    ensures SlotSet(slots) == SlotSet(slots[..|slots| - 1]) + {slots[|slots| - 1]}
  {
    assert slots == slots[..|slots| - 1] + [slots[|slots| - 1]];
  }

  lemma {:induction false} LandedContents(items: seq<Offer>, targets: seq<Slot>)
    requires |items| == |targets|
    ensures Landed(items, targets).Keys == SlotSet(targets)
    ensures Distinct(targets) ==> InPlace(Landed(items, targets), items, targets)
  {
    if items != [] {
      var n := |items| - 1;
      LandedContents(items[..n], targets[..n]);
      SlotSetOneMore(targets);
      var before, m := Landed(items[..n], targets[..n]), Landed(items, targets);
      assert m == before[targets[n] := items[n].goods];
      hide Landed, SlotSet;
      if Distinct(targets) {
        assert Distinct(targets[..n]);
        forall i | 0 <= i < n ensures targets[i] in m && m[targets[i]] == items[i].goods {
          assert targets[..n][i] in before;
          assert targets[..n][i] == targets[i] && items[..n][i] == items[i] && targets[i] != targets[n];
        }
      }
    }
  }

  /** The in-memory side of a completed trade for one player. */
  function Settle(p: Player, incoming: seq<Offer>, alz: U64): Player
    requires |incoming| == |p.trade.destinations|
  {
    p.(inventory := (p.inventory - Slots(p.trade.items)) + Landed(incoming, p.trade.destinations),
       alz := alz, trade := NO_TRADE)
  }

  function Complete(w: World, u: nat, rpc: Rpc): World
    requires Ready(w, u) && |w.players[u].trade.destinations| == |w.players[Peer(w, u)].trade.items|
  {
    var v := Peer(w, u);
    if rpc == Unreachable then Reset(w, u, v)
    else
      var (db, reply) := TradeItems(w.db, Exchange(w, u));
      if rpc == ReplyLost || !reply.Traded? then Reset(w.(db := db), u, v)
      else
        var p, q := w.players[u], w.players[v];
        w.(players := w.players[u := Settle(p, q.trade.items, reply.firstAlz)]
                               [v := Settle(q, p.trade.items, reply.secondAlz)], db := db)
  }

  function RequestListStep(w: World, u: nat, slots: seq<Slot>, rpc: Rpc): World {
    if !AcceptsList(w, u, slots) then w
    else
      var noted := NoteList(w, u, slots);
      if Ready(noted, u) then Complete(noted, u, rpc) else noted
  }

  /** `CancelTrade`, on going to the lobby or losing the connection. */
  function CancelStep(w: World, u: nat): World {
    if u !in w.players || w.players[u].trade.status == Idle then w
    else
      var v := Peer(w, u);
      if v == u || v !in w.players then SetTrade(w, u, NO_TRADE)
      else if w.players[v].trade.opponent == u then Reset(w, u, v)
      else SetTrade(w, u, NO_TRADE)
  }

  /** Going back to the lobby ends the trade and drops the cached list; the character stays on the session. */
  function LobbyStep(w: World, u: nat): World {
    var c := CancelStep(w, u);
    c.(rosters := c.rosters - {u})
  }

  function DisconnectStep(w: World, u: nat): World {
    var c := LobbyStep(w, u);
    c.(players := c.players - {u})
  }

  // --- Steps outside the trade handlers, reduced to what they may do to the shared state. ---

  function RowsOf(inv: Storage, c: int): Bag {
    map p | p in inv && p.owner == c :: p.slot := inv[p]
  }

  /** The characters of an account, eight ids to each. */
  function Loaded(db: Db, account: int): Roster {
    map c | c in db.alz && c / 8 == account :: db.alz[c]
  }

  function ListStep(w: World, u: nat, account: int): World {
    w.(rosters := w.rosters[u := Loaded(w.db, account)])
  }

  /** The list a session enters from: the cached one, unless that is empty. */
  function RosterFor(w: World, u: nat, c: int): Roster {
    if u in w.rosters && w.rosters[u] != map[] then w.rosters[u] else Loaded(w.db, c / 8)
  }

  predicate Admitted(w: World, u: nat, c: int) {
    c in RosterFor(w, u, c)
  }

  function TradeOf(w: World, u: nat): TradeState {
    if u in w.players then w.players[u].trade else NO_TRADE
  }

  /** A character enters with the inventory the Master has stored and the Alz of the list. A session may enter another
      character at any time; a trade in progress stays as it is. */
  function EnterStep(w: World, u: nat, c: int): World {
    var roster := RosterFor(w, u, c);
    var listed := w.(rosters := w.rosters[u := roster]);
    if c !in roster then listed
    else listed.(players := w.players[u := Player(c, roster[c], RowsOf(w.db.inventory, c), TradeOf(w, u))])
  }

  function StoreRows(inv: Storage, c: int, rows: Bag): Storage {
    (map p | p in inv && p.owner != c :: inv[p]) + (map s | s in rows :: Place(c, s) := rows[s])
  }

  /** Any other handler that changes a player's items or Alz in memory and at the Master alike. */
  function OtherStep(w: World, u: nat, alz: U64, inventory: Bag): World {
    if u !in w.players then w
    else
      var p := w.players[u];
      w.(players := w.players[u := p.(alz := alz, inventory := inventory)],
         db := w.db.(alz := w.db.alz[p.charId := alz], inventory := StoreRows(w.db.inventory, p.charId, inventory)))
  }

  function Step(w: World, e: Event): World {
    match e
    case ListChars(u, account) => ListStep(w, u, account)
    case Enter(u, c) => EnterStep(w, u, c)
    case Request(u, v, c) => RequestStep(w, u, v, c)
    case OpenEvent(u, a) => OpenStep(w, u, a)
    case CloseEvent(u, a) => CloseStep(w, u, a)
    case AddItem(u, s, t) => AddItemStep(w, u, s, t)
    case AddAlz(u, n) => AddAlzStep(w, u, n)
    case RemoveItem(u, t, s) => RemoveItemStep(w, u, t, s)
    case RequestList(u, slots, rpc) => RequestListStep(w, u, slots, rpc)
    case Lobby(u) => LobbyStep(w, u)
    case Disconnect(u) => DisconnectStep(w, u)
    case Other(u, alz, inv) => OtherStep(w, u, alz, inv)
  }

  /** The world after the first `n` events. */
  function After(w: World, es: seq<Event>, n: nat): World
    requires n <= |es|
  {
    if n == 0 then w else Step(After(w, es, n - 1), es[n - 1])
  }
}
