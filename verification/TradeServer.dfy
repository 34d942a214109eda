/** The trade handlers over live player contexts (cmd/gameserver/packet/trade.go). A handler works on the
    contexts of the two players it pairs; the Master is reached through its own object. */
module TradeServer {
  import opened Economy
  import opened Trade
  import opened TradeEffects
  import opened MasterObject
  import Ledger

  class Context {
    var charId: int
    var alz: U64
    var inventory: Bag
    var trade: TradeState

    constructor (charId: int, alz: U64, inventory: Bag)
      ensures this.charId == charId && Value() == Player(charId, alz, inventory, NO_TRADE)
    {
      this.charId, this.alz, this.inventory, this.trade := charId, alz, inventory, NO_TRADE;
    }

    ghost function Value(): Player
      reads this
    {
      Player(charId, alz, inventory, trade)
    }
  }

  /** `tradeOfferExists`. */
  method FindOffer(items: seq<Offer>, slot: Slot, tradeSlot: nat) returns (found: bool)
    ensures found == OfferExists(items, slot, tradeSlot)
  {
    for i := 0 to |items|
      invariant forall k :: 0 <= k < i ==> items[k].slot != slot && items[k].tradeSlot != tradeSlot
    {
      if items[i].slot == slot || items[i].tradeSlot == tradeSlot {
        return true;
      }
    }
    return false;
  }

  /** `tradeOfferIndex`, with -1 for no match. */
  method FindOfferIndex(items: seq<Offer>, tradeSlot: nat, slot: Slot) returns (index: int)
    ensures index == (var i := OfferIndex(items, tradeSlot, slot); if i == |items| then -1 else i)
  {
    OfferIndexIsFirst(items, tradeSlot, slot);
    for i := 0 to |items|
      invariant forall k :: 0 <= k < i ==> !Matches(items[k], tradeSlot, slot)
    {
      if items[i].tradeSlot == tradeSlot && items[i].slot == slot {
        return i;
      }
    }
    return -1;
  }

  /** The destination list of a packet: within range and without repeats. */
  method CheckSlots(slots: seq<Slot>) returns (ok: bool)
    ensures ok == ((forall i :: 0 <= i < |slots| ==> slots[i] <= MAX_SLOT) && Distinct(slots))
  {
    var seen: set<Slot> := {};
    for i := 0 to |slots|
      invariant forall k :: 0 <= k < i ==> slots[k] <= MAX_SLOT
      invariant Distinct(slots[..i])
      invariant forall s :: s in seen <==> s in slots[..i]
    {
      if slots[i] > MAX_SLOT {
        return false;
      }
      if slots[i] in seen {
        return false;
      }
      seen := seen + {slots[i]};
      assert slots[..i + 1] == slots[..i] + [slots[i]];
    }
    assert slots[..|slots|] == slots;
    return true;
  }

  method AllFree(inv: Bag, slots: seq<Slot>) returns (free: bool)
    ensures free == forall i :: 0 <= i < |slots| ==> Get(inv, slots[i]).kind == 0
  {
    for i := 0 to |slots|
      invariant forall k :: 0 <= k < i ==> Get(inv, slots[k]).kind == 0
    {
      if slots[i] in inv && inv[slots[i]].kind != 0 {
        return false;
      }
    }
    return true;
  }

  method MakeTransfers(items: seq<Offer>, targets: seq<Slot>) returns (ts: seq<Transfer>)
    requires |items| == |targets|
    ensures ts == Transfers(items, targets)
  {
    ts := [];
    for i := 0 to |items|
      invariant |ts| == i && forall k :: 0 <= k < i ==> ts[k] == Transfers(items, targets)[k]
    {
      ts := ts + [Transfer(items[i].slot, items[i].goods, targets[i])];
    }
  }

  /** RemoveLocal for every item given. */
  method RemoveGiven(inv: Bag, given: seq<Offer>) returns (out: Bag)
    ensures out == inv - Slots(given)
  {
    out := inv;
    for i := 0 to |given|
      invariant out == inv - Slots(given[..i])
    {
      assert given[..i + 1] == given[..i] + [given[i]];
      assert Slots(given[..i + 1]) == Slots(given[..i]) + {given[i].slot};
      out := out - {given[i].slot};
    }
    assert given[..|given|] == given;
  }

  /** SetLocal for every item received. */
  method SetReceived(inv: Bag, received: seq<Offer>, targets: seq<Slot>) returns (out: Bag)
    requires |received| == |targets|
    ensures out == inv + Landed(received, targets)
  {
    out := inv;
    for i := 0 to |received|
      invariant out == inv + Landed(received[..i], targets[..i])
    {
      LandOneMore(received, targets, i);
      hide Landed;
      out := out[targets[i] := received[i].goods];
    }
    assert received[..|received|] == received && targets[..|targets|] == targets;
  }

  lemma LandOneMore(items: seq<Offer>, targets: seq<Slot>, i: nat)
    requires i < |items| == |targets|
    ensures Landed(items[..i + 1], targets[..i + 1]) == Landed(items[..i], targets[..i])[targets[i] := items[i].goods]
  {
    assert items[..i + 1][..i] == items[..i] && targets[..i + 1][..i] == targets[..i];
  }

  lemma SetSame(w: World, v: nat)
    requires v in w.players
    ensures SetTrade(w, v, w.players[v].trade) == w
  {
  }

  lemma ListMeans(w: World, u: nat, slots: seq<Slot>)
    requires AcceptsList(w, u, slots)
    ensures Paired(w, u) && |slots| == |w.players[Peer(w, u)].trade.items|
  {
  }

  class Server {
    /** Sessions with a character, by user index. */
    var sessions: map<nat, Context>
    /** The character lists the sessions have cached. */
    var rosters: map<nat, Roster>
    const master: Master

    /** Two sessions never share a context. */
    ghost predicate Valid()
      reads this
    {
      forall u, v :: u in sessions && v in sessions && u != v ==> sessions[u] != sessions[v]
    }

    ghost function Players(): map<nat, Player>
      reads this, sessions.Values
    {
      map u | u in sessions :: sessions[u].Value()
    }

    ghost function Snapshot(): World
      reads this, sessions.Values, master
    {
      World(Players(), rosters, master.Tables())
    }

    /** What the snapshot shows of each session. */
    lemma Shown()
      ensures Snapshot().players.Keys == sessions.Keys
      ensures forall u :: u in sessions ==>
                Snapshot().players[u] == Player(sessions[u].charId, sessions[u].alz, sessions[u].inventory,
                                                sessions[u].trade)
    {
    }

    /** One assignment to the trade state of a context. */
    method Assign(u: nat, t: TradeState)
      requires Valid() && u in sessions
      modifies sessions[u]
      ensures Valid() && sessions[u].Value() == old(sessions[u].Value()).(trade := t)
      ensures Snapshot() == SetTrade(old(Snapshot()), u, t)
    {
      sessions[u].trade := t;
    }

    constructor (master: Master)
      ensures Valid() && this.master == master && sessions == map[] && rosters == map[]
    {
      this.master, sessions, rosters := master, map[], map[];
    }

    method SetRosters(r: map<nat, Roster>)
      requires Valid()
      modifies this`rosters
      ensures Valid() && Snapshot() == old(Snapshot()).(rosters := r)
    {
      rosters := r;
    }

    /** A character on a session, new or not. */
    method PutCharacter(u: nat, c: int, alz: U64, rows: Bag)
      requires Valid()
      modifies this`sessions, sessions.Values
      ensures Valid()
      ensures Snapshot() == (var w := old(Snapshot());
                             w.(players := w.players[u := Player(c, alz, rows, TradeOf(w, u))]))
    {
      Shown();
      hide Players;
      if u in sessions {
        Overwrite(u, c, alz, rows);
      } else {
        Admit(u, c, alz, rows);
      }
    }

    method Overwrite(u: nat, c: int, alz: U64, rows: Bag)
      requires Valid() && u in sessions
      modifies sessions[u]
      ensures Valid() && Players() == old(Players())[u := Player(c, alz, rows, old(sessions[u].trade))]
    {
      var context := sessions[u];
      context.charId, context.alz, context.inventory := c, alz, rows;
    }

    method Admit(u: nat, c: int, alz: U64, rows: Bag)
      requires Valid() && u !in sessions
      modifies this`sessions
      ensures Valid() && Players() == old(Players())[u := Player(c, alz, rows, NO_TRADE)]
    {
      var context := new Context(c, alz, rows);
      sessions := sessions[u := context];
    }

    method Drop(u: nat)
      requires Valid()
      modifies this`sessions
      ensures Valid()
      ensures Snapshot() == (var w := old(Snapshot()); w.(players := w.players - {u}))
    {
      sessions := sessions - {u};
    }

    /** Initialized: the character is looked up in the cached list, which is loaded only if it is empty, and put on the
        session. A trade of the session is left alone. */
    method Initialized(u: nat, c: int)
      requires Valid()
      modifies this, sessions.Values
      ensures Valid()
      ensures Snapshot() == EnterStep(old(Snapshot()), u, c)
    {
      hide Players, RowsOf, Loaded;
      var roster: Roster := if u in rosters then rosters[u] else map[];
      if roster == map[] {
        roster := Loaded(Db(master.alz, master.inventory, master.warehouse, master.mail, master.nextMail), c / 8);
      }
      SetRosters(rosters[u := roster]);
      if c in roster {
        PutCharacter(u, c, roster[c], RowsOf(master.inventory, c));
      }
    }

    /** Uninitialze: the trade is cancelled and the list dropped; the context keeps its character. */
    method Uninitialze(u: nat)
      requires Valid()
      modifies this, sessions.Values
      ensures Valid() && sessions == old(sessions)
      ensures Snapshot() == LobbyStep(old(Snapshot()), u)
    {
      hide Players, CancelStep;
      CancelTrade(u);
      SetRosters(rosters - {u});
    }

    /** OnClientDisconnect. */
    method OnClientDisconnect(u: nat)
      requires Valid()
      modifies this, sessions.Values
      ensures Valid()
      ensures Snapshot() == DisconnectStep(old(Snapshot()), u)
    {
      hide Players, LobbyStep;
      Uninitialze(u);
      Drop(u);
    }

    method ReserveTradeRequest(u: nat, v: nat, targetChar: int) returns (ok: bool)
      requires Valid() && u in sessions && v in sessions && u != v
      modifies sessions[u], sessions[v]
      ensures Valid()
      ensures ok == (old(sessions[u].trade.status) == Idle && old(sessions[v].trade.status) == Idle)
      ensures Snapshot() == if ok then
                SetTrade(SetTrade(old(Snapshot()), u,
                                  NO_TRADE.(status := Pending, role := Requester, opponent := v,
                                            opponentChar := targetChar)),
                         v, NO_TRADE.(status := Pending, role := Target, opponent := u,
                                      opponentChar := old(sessions[u].charId)))
              else old(Snapshot())
    {
      Shown();
      hide Players, SetTrade;
      if sessions[u].trade.status != Idle || sessions[v].trade.status != Idle {
        return false;
      }
      Assign(u, TradeState(Pending, Requester, v, targetChar, [], 0, false, []));
      Assign(v, TradeState(Pending, Target, u, sessions[u].charId, [], 0, false, []));
      return true;
    }

    method TradeRequest(u: nat, v: nat, targetChar: int)
      requires Valid()
      modifies sessions.Values
      ensures Valid() && sessions == old(sessions)
      ensures Snapshot() == RequestStep(old(Snapshot()), u, v, targetChar)
      ensures Asked(old(Snapshot()), Snapshot(), u, v, targetChar)
    {
      Shown();
      RequestEffect(Snapshot(), u, v, targetChar);
      hide Players, SetTrade, Asked;
      if u !in sessions {
        return;
      }
      if sessions[u].charId <= 0 || v == u {
        return;
      }
      if v !in sessions || sessions[v].charId != targetChar {
        return;
      }
      var ok := ReserveTradeRequest(u, v, targetChar);
    }

    method TradeOpenEvent(u: nat, a: OpenAction)
      requires Valid()
      modifies sessions.Values
      ensures Valid() && sessions == old(sessions)
      ensures Snapshot() == OpenStep(old(Snapshot()), u, a)
    {
      Shown();
      hide Players, SetTrade;
      if u !in sessions {
        return;
      }
      var sender := sessions[u];
      var state := sender.trade;
      if state.opponent !in sessions || state.opponent == u {
        return;
      }
      var target := sessions[state.opponent];
      var valid := state.status == Pending && target.trade.status == Pending
                   && target.trade.opponent == u && target.trade.opponentChar == sender.charId;
      if a == RequestCancel {
        valid := valid && state.role == Requester;
      } else {
        valid := valid && state.role == Target;
      }
      assert valid == CanAnswer(Snapshot(), u, a);
      hide CanAnswer;
      if !valid {
        return;
      }
      if a == Accept {
        Assign(u, sender.trade.(status := Open));
        Assign(state.opponent, target.trade.(status := Open));
      } else {
        Assign(u, NO_TRADE);
        Assign(state.opponent, NO_TRADE);
      }
    }

    /** `tradePair`. */
    method TradePair(u: nat) returns (ok: bool)
      requires Valid()
      ensures ok == Paired(Snapshot(), u)
    {
      Shown();
      hide Players, SetTrade;
      if u !in sessions {
        return false;
      }
      var state := sessions[u].trade;
      if state.status != Open || state.opponent == u {
        return false;
      }
      return state.opponent in sessions;
    }

    method TradeCloseEvent(u: nat, a: CloseAction)
      requires Valid()
      modifies sessions.Values
      ensures Valid() && sessions == old(sessions)
      ensures Snapshot() == CloseStep(old(Snapshot()), u, a)
    {
      Shown();
      hide Players, SetTrade;
      var ok := TradePair(u);
      if !ok {
        return;
      }
      var current := sessions[u];
      var v := current.trade.opponent;
      var peer := sessions[v];
      if current.trade.status != Open || peer.trade.status != Open {
        return;
      }
      match a
      case Submit =>
        if current.trade.submitted {
          return;
        }
        Assign(u, current.trade.(submitted := true));
      case SubmitCancel =>
        Assign(u, current.trade.(submitted := false));
      case TradeCancel =>
        Assign(u, NO_TRADE);
        Assign(v, NO_TRADE);
    }

    /** A changed offer: the opponent's approval is withdrawn. */
    method EditOffer(u: nat, v: nat, t: TradeState)
      requires Valid() && Paired(Snapshot(), u) && v == Peer(Snapshot(), u)
      modifies sessions[u], sessions[v]
      ensures Valid()
      ensures Snapshot() == Edit(old(Snapshot()), u, t)
    {
      Shown();
      hide Players, SetTrade;
      Assign(u, t);
      Shown();
      SetSame(Snapshot(), v);
      if sessions[v].trade.submitted {
        Assign(v, sessions[v].trade.(submitted := false));
      }
    }

    method TradeAddItem(u: nat, slot: Slot, tradeSlot: nat)
      requires Valid()
      modifies sessions.Values
      ensures Valid() && sessions == old(sessions)
      ensures Snapshot() == AddItemStep(old(Snapshot()), u, slot, tradeSlot)
    {
      Shown();
      hide Players, SetTrade, Edit, OfferExists;
      if slot > MAX_SLOT || tradeSlot > MAX_SLOT {
        return;
      }
      var ok := TradePair(u);
      if !ok {
        return;
      }
      var current := sessions[u];
      var v := current.trade.opponent;
      var peer := sessions[v];
      if current.trade.status != Open || current.trade.submitted || peer.trade.status != Open {
        return;
      }
      var goods := if slot in current.inventory then current.inventory[slot] else NO_GOODS;
      var taken := FindOffer(current.trade.items, slot, tradeSlot);
      if goods.kind == 0 || taken {
        return;
      }
      EditOffer(u, v, current.trade.(items := current.trade.items + [Offer(slot, goods, tradeSlot)]));
    }

    method TradeAddAlz(u: nat, amount: int)
      requires Valid()
      modifies sessions.Values
      ensures Valid() && sessions == old(sessions)
      ensures Snapshot() == AddAlzStep(old(Snapshot()), u, amount)
    {
      Shown();
      hide Players, SetTrade;
      if amount < 0 {
        return;
      }
      var ok := TradePair(u);
      if !ok {
        return;
      }
      var current := sessions[u];
      var v := current.trade.opponent;
      var peer := sessions[v];
      if current.trade.status != Open || current.trade.submitted || peer.trade.status != Open || amount > current.alz {
        return;
      }
      EditOffer(u, v, current.trade.(alz := amount));
    }

    method TradeRemoveItem(u: nat, tradeSlot: nat, slot: Slot)
      requires Valid()
      modifies sessions.Values
      ensures Valid() && sessions == old(sessions)
      ensures Snapshot() == RemoveItemStep(old(Snapshot()), u, tradeSlot, slot)
    {
      Shown();
      hide Players, SetTrade, Edit, OfferIndex;
      var ok := TradePair(u);
      if !ok {
        return;
      }
      var current := sessions[u];
      var v := current.trade.opponent;
      var peer := sessions[v];
      if current.trade.status != Open || current.trade.submitted || peer.trade.status != Open {
        return;
      }
      var items := current.trade.items;
      var index := FindOfferIndex(items, tradeSlot, slot);
      if index < 0 {
        return;
      }
      EditOffer(u, v, current.trade.(items := items[..index] + items[index + 1..]));
    }

    /** The offers of the pair, put to the Master's request form. */
    method BuildRequest(u: nat, v: nat) returns (r: TradeRequest)
      requires u in sessions && v in sessions
      requires |sessions[u].trade.destinations| == |sessions[v].trade.items|
      requires |sessions[v].trade.destinations| == |sessions[u].trade.items|
      ensures r == Economy.TradeRequest.TradeRequest(sessions[u].charId, sessions[v].charId,
                     Transfers(sessions[u].trade.items, sessions[v].trade.destinations),
                     Transfers(sessions[v].trade.items, sessions[u].trade.destinations),
                     sessions[u].trade.alz, sessions[v].trade.alz)
    {
      var first, second := sessions[u], sessions[v];
      var toSecond := MakeTransfers(first.trade.items, second.trade.destinations);
      var toFirst := MakeTransfers(second.trade.items, first.trade.destinations);
      r := Economy.TradeRequest.TradeRequest(first.charId, second.charId, toSecond, toFirst, first.trade.alz,
                                             second.trade.alz);
    }

    /** The in-memory side of a successful exchange. */
    method SettleBoth(u: nat, v: nat, firstAlz: U64, secondAlz: U64)
      requires Valid() && u in sessions && v in sessions && u != v
      requires |sessions[u].trade.destinations| == |sessions[v].trade.items|
      requires |sessions[v].trade.destinations| == |sessions[u].trade.items|
      modifies sessions[u], sessions[v]
      ensures Valid()
      ensures Players() == old(Players())[u := Settle(old(Players())[u], old(Players())[v].trade.items, firstAlz)]
                                         [v := Settle(old(Players())[v], old(Players())[u].trade.items, secondAlz)]
    {
      hide Settle;
      var firstItems, secondItems := sessions[u].trade.items, sessions[v].trade.items;
      SettleOne(u, secondItems, firstAlz);
      SettleOne(v, firstItems, secondAlz);
    }

    method SettleOne(u: nat, incoming: seq<Offer>, alz: U64)
      requires Valid() && u in sessions && |incoming| == |sessions[u].trade.destinations|
      modifies sessions[u]
      ensures sessions[u].Value() == Settle(old(sessions[u].Value()), incoming, alz)
    {
      var context := sessions[u];
      var bag := RemoveGiven(context.inventory, context.trade.items);
      bag := SetReceived(bag, incoming, context.trade.destinations);
      context.inventory := bag;
      context.alz := alz;
      context.trade := NO_TRADE;
    }

    /** The exchange itself: one Master transaction, then both contexts; anything but success aborts. */
    method CompleteTrade(u: nat, rpc: Rpc)
      requires Valid() && Ready(Snapshot(), u)
      requires |sessions[u].trade.destinations| == |sessions[sessions[u].trade.opponent].trade.items|
      modifies sessions.Values, master
      ensures Valid() && sessions == old(sessions)
      ensures Snapshot() == Complete(old(Snapshot()), u, rpc)
    {
      Shown();
      hide Settle, SetTrade, Economy.TradeItems, Players, Transfers, Ledger.Accounted;
      var v := sessions[u].trade.opponent;
      var request := BuildRequest(u, v);
      assert request == Exchange(Snapshot(), u);
      if rpc == Unreachable {
        AbortCompletedTrade(u, v);
        return;
      }
      ghost var players: map<nat, Player> := Players();
      var reply := master.TradeItems(request);
      assert Players() == players;
      if rpc == ReplyLost || !reply.Traded? {
        AbortCompletedTrade(u, v);
        return;
      }
      SettleBoth(u, v, reply.firstAlz, reply.secondAlz);
    }

    method AbortCompletedTrade(u: nat, v: nat)
      requires Valid() && u in sessions && v in sessions
      modifies sessions[u], sessions[v]
      ensures Valid()
      ensures Snapshot() == Reset(old(Snapshot()), u, v)
    {
      Shown();
      hide Players, SetTrade;
      Assign(u, NO_TRADE);
      Assign(v, NO_TRADE);
    }

    /** The checks of a destination list before anything is written. */
    method ListAcceptable(u: nat, slots: seq<Slot>) returns (ok: bool)
      requires Valid()
      ensures ok == AcceptsList(Snapshot(), u, slots)
    {
      Shown();
      hide Players;
      if |slots| > MAX_SLOT {
        return false;
      }
      var fine := CheckSlots(slots);
      if !fine {
        return false;
      }
      ok := TradePair(u);
      if !ok {
        return false;
      }
      var current := sessions[u];
      var peer := sessions[current.trade.opponent];
      if current.trade.status != Open || !current.trade.submitted
         || peer.trade.status != Open || !peer.trade.submitted || |slots| != |peer.trade.items| {
        return false;
      }
      ok := AllFree(current.inventory, slots);
    }

    method TradeRequestList(u: nat, slots: seq<Slot>, rpc: Rpc)
      requires Valid()
      modifies sessions.Values, master
      ensures Valid() && sessions == old(sessions)
      ensures Snapshot() == RequestListStep(old(Snapshot()), u, slots, rpc)
    {
      Shown();
      var ok := ListAcceptable(u, slots);
      if !ok {
        return;
      }
      ListMeans(Snapshot(), u, slots);
      hide Complete, Players, SetTrade, AcceptsList;
      var current := sessions[u];
      var peer := sessions[current.trade.opponent];
      Assign(u, current.trade.(destinations := slots));
      assert Snapshot() == NoteList(old(Snapshot()), u, slots);
      Shown();
      var ready := |peer.trade.destinations| == |current.trade.items|;
      if ready {
        CompleteTrade(u, rpc);
      }
    }

    /** On leaving the world: the leaver is always reset, the peer only while it still points back. */
    method CancelTrade(u: nat)
      requires Valid()
      modifies sessions.Values
      ensures Valid()
      ensures Snapshot() == CancelStep(old(Snapshot()), u)
    {
      Shown();
      hide Players, SetTrade;
      if u !in sessions {
        return;
      }
      var current := sessions[u];
      var state := current.trade;
      if state.status == Idle {
        return;
      }
      if state.opponent !in sessions || state.opponent == u {
        Assign(u, NO_TRADE);
        return;
      }
      var peer := sessions[state.opponent];
      var peerLinked := peer.trade.opponent == u;
      Assign(u, NO_TRADE);
      if peerLinked {
        Assign(state.opponent, NO_TRADE);
      }
    }
  }
}
