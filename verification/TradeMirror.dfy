/** The game server's in-memory inventories and Alz against the Master's rows. */
module TradeMirror {
  import opened Numbers
  import opened Economy
  import opened Ledger
  import opened Trade
  import opened TradeSafety
  import opened TradeApproval

  /** Memory holds exactly what the Master has stored for this character. */
  ghost predicate Mirrors(charId: int, alz: U64, inv: Bag, db: Db) {
    && charId in db.alz && db.alz[charId] == alz
    && forall s: Slot :: (s in inv <==> Place(charId, s) in db.inventory)
                         && (s in inv ==> inv[s] == db.inventory[Place(charId, s)])
  }

  ghost predicate PlayerMirrors(w: World, u: nat)
    requires u in w.players
  {
    Mirrors(w.players[u].charId, w.players[u].alz, w.players[u].inventory, w.db)
  }

  /** Every memory is the Master's rows, and no character has two memories. */
  ghost predicate InSync(w: World) {
    && (forall u :: u in w.players ==> PlayerMirrors(w, u))
    && (forall u, v :: u in w.players && v in w.players && u != v ==> w.players[u].charId != w.players[v].charId)
  }

  /** Who holds what after one direction of an exchange. */
  lemma MoveAllRows(inv: Storage, source: int, dest: int, ts: seq<Transfer>, s: Slot)
    requires source != dest && TransfersOk(inv, source, dest, ts)
    ensures var m := MoveAll(inv, source, dest, ts);
            && (Place(source, s) in m <==> Place(source, s) in inv && forall i :: 0 <= i < |ts| ==> ts[i].slot != s)
            && (Place(source, s) in m ==> m[Place(source, s)] == inv[Place(source, s)])
            && (Place(dest, s) in m <==> Place(dest, s) in inv || exists i :: 0 <= i < |ts| && ts[i].target == s)
            && (forall i :: 0 <= i < |ts| && ts[i].target == s ==> m[Place(dest, s)] == ts[i].goods)
            && (Place(dest, s) in inv ==> m[Place(dest, s)] == inv[Place(dest, s)])
  {
    var p, q := Place(source, s), Place(dest, s);
    ArrivalsContents(dest, ts);
    assert p !in Arrivals(dest, ts) && q !in Sources(source, ts);
    assert p in Sources(source, ts) <==> exists i :: 0 <= i < |ts| && ts[i].slot == s;
    if q in Arrivals(dest, ts) {
      var k :| 0 <= k < |ts| && q == Place(dest, ts[k].target);
      assert TransferOk(inv, source, dest, ts[k]);
    }
  }

  lemma MoveAllElsewhere(inv: Storage, source: int, dest: int, ts: seq<Transfer>, p: Place)
    requires p.owner != source && p.owner != dest
    ensures var m := MoveAll(inv, source, dest, ts);
            (p in m <==> p in inv) && (p in inv ==> m[p] == inv[p])
  {
    ArrivalsContents(dest, ts);
    assert p !in Arrivals(dest, ts) && p !in Sources(source, ts);
  }

  /** One slot of the settled inventory: emptied if offered, filled if a destination, else as before. */
  lemma SettledSlot(p: Player, incoming: seq<Offer>, alz: U64, s: Slot)
    requires |incoming| == |p.trade.destinations| && Distinct(p.trade.destinations)
    ensures var inv := Settle(p, incoming, alz).inventory;
            var d := p.trade.destinations;
            && (s in inv <==> (s in p.inventory && forall i :: 0 <= i < |p.trade.items| ==> p.trade.items[i].slot != s)
                              || exists i :: 0 <= i < |d| && d[i] == s)
            && (forall i :: 0 <= i < |d| && d[i] == s ==> inv[s] == incoming[i].goods)
            && ((forall i :: 0 <= i < |d| ==> d[i] != s) && s in inv ==> inv[s] == p.inventory[s])
  {
    LandedContents(incoming, p.trade.destinations);
    assert s in Slots(p.trade.items) <==> exists i :: 0 <= i < |p.trade.items| && p.trade.items[i].slot == s;
  }

  lemma TargetsDistinct(items: seq<Offer>, targets: seq<Slot>)
    requires |items| == |targets| && DistinctSlots(Transfers(items, targets))
    ensures Distinct(targets)
  {
    var ts := Transfers(items, targets);
    forall i, j | 0 <= i < j < |targets| ensures targets[i] != targets[j] {
      assert ts[i].target != ts[j].target;
    }
  }

  /** One slot of character `c` after an exchange in which `out` left and `inc` arrived. */
  ghost predicate SlotAfter(inv: Storage, after: Storage, c: int, out: seq<Transfer>, inc: seq<Transfer>, s: Slot) {
    var p := Place(c, s);
    && (p in after <==> || (p in inv && forall i :: 0 <= i < |out| ==> out[i].slot != s)
                        || exists i :: 0 <= i < |inc| && inc[i].target == s)
    && (forall i :: 0 <= i < |inc| && inc[i].target == s ==> after[p] == inc[i].goods)
    && ((forall i :: 0 <= i < |inc| ==> inc[i].target != s) && p in after ==> after[p] == inv[p])
  }

  /** Both sides of an exchange, slot by slot. */
  lemma ExchangedSlot(inv: Storage, a: int, b: int, ts: seq<Transfer>, back: seq<Transfer>, s: Slot)
    requires a != b && TransfersOk(inv, a, b, ts) && TransfersOk(inv, b, a, back)
    ensures var after := MoveAll(MoveAll(inv, a, b, ts), b, a, back);
            SlotAfter(inv, after, a, ts, back, s) && SlotAfter(inv, after, b, back, ts, s)
  {
    hide MoveAll;
    var half := MoveAll(inv, a, b, ts);
    OtherDirectionStillOk(inv, a, b, ts, back);
    MoveAllRows(inv, a, b, ts, s);
    MoveAllRows(half, b, a, back, s);
    assert forall i :: 0 <= i < |back| ==> TransferOk(inv, b, a, back[i]);
    assert forall i :: 0 <= i < |ts| ==> TransferOk(inv, a, b, ts[i]);
  }

  /** The in-memory settlement of one side agrees with the rows the exchange leaves it. */
  lemma SideSettles(p: Player, incoming: seq<Offer>, outTargets: seq<Slot>, alz: U64, inv: Storage, after: Storage,
                    s: Slot)
    requires |incoming| == |p.trade.destinations| && |p.trade.items| == |outTargets| && Distinct(p.trade.destinations)
    requires (s in p.inventory <==> Place(p.charId, s) in inv)
      && (s in p.inventory ==> p.inventory[s] == inv[Place(p.charId, s)])
    requires SlotAfter(inv, after, p.charId, Transfers(p.trade.items, outTargets),
                       Transfers(incoming, p.trade.destinations), s)
    ensures var bag := Settle(p, incoming, alz).inventory;
            (s in bag <==> Place(p.charId, s) in after) && (s in bag ==> bag[s] == after[Place(p.charId, s)])
  {
    hide Settle;
    SettledSlot(p, incoming, alz, s);
    var out, inc := Transfers(p.trade.items, outTargets), Transfers(incoming, p.trade.destinations);
    assert forall i :: 0 <= i < |out| ==> out[i].slot == p.trade.items[i].slot;
    assert forall i :: 0 <= i < |inc| ==> inc[i].target == p.trade.destinations[i] && inc[i].goods == incoming[i].goods;
    if exists i :: 0 <= i < |inc| && inc[i].target == s {
      var i :| 0 <= i < |inc| && inc[i].target == s;
      assert p.trade.destinations[i] == s;
    }
  }

  lemma TradedMeans(db: Db, r: TradeRequest)
    requires TradeItems(db, r).1.Traded?
    ensures var (after, reply) := TradeItems(db, r);
            && r.first != r.second && r.first in after.alz && r.second in after.alz
            && after.alz[r.first] == reply.firstAlz && after.alz[r.second] == reply.secondAlz
            && TransfersOk(db.inventory, r.first, r.second, r.firstItems)
            && TransfersOk(db.inventory, r.second, r.first, r.secondItems)
            && after.inventory == MoveAll(MoveAll(db.inventory, r.first, r.second, r.firstItems),
                                          r.second, r.first, r.secondItems)
  {
    hide MoveAll, TransfersOk;
  }

  /** What completeTrade leaves in memory for one side is what the Master stored for it. */
  lemma SideMirrors(p: Player, incoming: seq<Offer>, outTargets: seq<Slot>, db: Db, after: Db, alz: U64)
    requires |incoming| == |p.trade.destinations| && |p.trade.items| == |outTargets| && Distinct(p.trade.destinations)
    requires Mirrors(p.charId, p.alz, p.inventory, db) && p.charId in after.alz && after.alz[p.charId] == alz
    requires forall s: Slot :: SlotAfter(db.inventory, after.inventory, p.charId, Transfers(p.trade.items, outTargets),
                                         Transfers(incoming, p.trade.destinations), s)
    ensures Mirrors(p.charId, alz, Settle(p, incoming, alz).inventory, after)
  {
    hide Settle, SlotAfter, Transfers;
    var bag := Settle(p, incoming, alz).inventory;
    forall s: Slot ensures (s in bag <==> Place(p.charId, s) in after.inventory)
                           && (s in bag ==> bag[s] == after.inventory[Place(p.charId, s)]) {
      SideSettles(p, incoming, outTargets, alz, db.inventory, after.inventory, s);
    }
  }

  lemma BothSettle(w: World, u: nat)
    requires Ready(w, u) && |w.players[u].trade.destinations| == |w.players[Peer(w, u)].trade.items|
    requires TradeItems(w.db, Exchange(w, u)).1.Traded? && PlayerMirrors(w, u) && PlayerMirrors(w, Peer(w, u))
    ensures var (db, reply) := TradeItems(w.db, Exchange(w, u));
            var p, q := w.players[u], w.players[Peer(w, u)];
            && Mirrors(p.charId, reply.firstAlz, Settle(p, q.trade.items, reply.firstAlz).inventory, db)
            && Mirrors(q.charId, reply.secondAlz, Settle(q, p.trade.items, reply.secondAlz).inventory, db)
  {
    hide TradeItems, MoveAll, Settle, SlotAfter, Mirrors;
    var p, q := w.players[u], w.players[Peer(w, u)];
    var r := Exchange(w, u);
    var (db, reply) := TradeItems(w.db, r);
    TradedMeans(w.db, r);
    TargetsDistinct(q.trade.items, p.trade.destinations);
    TargetsDistinct(p.trade.items, q.trade.destinations);
    forall s: Slot ensures SlotAfter(w.db.inventory, db.inventory, p.charId, r.firstItems, r.secondItems, s)
                           && SlotAfter(w.db.inventory, db.inventory, q.charId, r.secondItems, r.firstItems, s) {
      ExchangedSlot(w.db.inventory, r.first, r.second, r.firstItems, r.secondItems, s);
    }
    SideMirrors(p, q.trade.items, q.trade.destinations, w.db, db, reply.firstAlz);
    SideMirrors(q, p.trade.items, p.trade.destinations, w.db, db, reply.secondAlz);
  }

  /** A trade leaves every other character's rows and Alz alone. */
  lemma BystanderMirrors(db: Db, r: TradeRequest, charId: int, alz: U64, inv: Bag)
    requires Mirrors(charId, alz, inv, db) && charId != r.first && charId != r.second
    ensures Mirrors(charId, alz, inv, TradeItems(db, r).0)
  {
    var after := TradeItems(db, r).0;
    if after != db {
      var half := MoveAll(db.inventory, r.first, r.second, r.firstItems);
      forall s: Slot ensures (s in inv <==> Place(charId, s) in after.inventory)
                             && (s in inv ==> inv[s] == after.inventory[Place(charId, s)]) {
        MoveAllElsewhere(db.inventory, r.first, r.second, r.firstItems, Place(charId, s));
        MoveAllElsewhere(half, r.second, r.first, r.secondItems, Place(charId, s));
      }
    }
  }

  /** A refused or failed exchange changes nothing at the Master: all or nothing. */
  lemma AllOrNothing(db: Db, r: TradeRequest)
    ensures !TradeItems(db, r).1.Traded? ==> TradeItems(db, r).0 == db
  {
  }

  lemma TradedKeepsSync(w: World, u: nat)
    requires InSync(w) && Ready(w, u) && |w.players[u].trade.destinations| == |w.players[Peer(w, u)].trade.items|
    requires TradeItems(w.db, Exchange(w, u)).1.Traded?
    ensures InSync(Complete(w, u, Answered))
  {
    hide TradeItems, Settle, Mirrors, Exchange;
    var v := Peer(w, u);
    var w' := Complete(w, u, Answered);
    var r := Exchange(w, u);
    var reply := TradeItems(w.db, r).1;
    assert PlayerMirrors(w, u) && PlayerMirrors(w, v);
    BothSettle(w, u);
    SettleKeepsName(w.players[u], w.players[v].trade.items, reply.firstAlz);
    SettleKeepsName(w.players[v], w.players[u].trade.items, reply.secondAlz);
    ExchangeNames(w, u);
    forall x | x in w'.players ensures PlayerMirrors(w', x) {
      if x != u && x != v {
        assert PlayerMirrors(w, x);
        BystanderMirrors(w.db, r, w.players[x].charId, w.players[x].alz, w.players[x].inventory);
      }
    }
  }

  lemma ExchangeNames(w: World, u: nat)
    requires Ready(w, u) && |w.players[u].trade.destinations| == |w.players[Peer(w, u)].trade.items|
    ensures Exchange(w, u).first == w.players[u].charId && Exchange(w, u).second == w.players[Peer(w, u)].charId
  {
  }

  lemma CompleteKeepsSync(w: World, u: nat, rpc: Rpc)
    requires InSync(w) && Ready(w, u) && |w.players[u].trade.destinations| == |w.players[Peer(w, u)].trade.items|
    requires rpc != ReplyLost
    ensures InSync(Complete(w, u, rpc))
  {
    hide TradeItems, Settle, InSync, Exchange;
    AllOrNothing(w.db, Exchange(w, u));
    if rpc == Answered && TradeItems(w.db, Exchange(w, u)).1.Traded? {
      TradedKeepsSync(w, u);
    } else {
      QuietKeepsSync(w, Complete(w, u, rpc));
    }
  }

  // --- The Master's verdict, foretold from memory. ---

  /** What one side must still be good for: the Alz, every item where and as it was offered, a free slot of another
      number for it on the other side, and a purse that can take what comes. */
  predicate Deliverable(p: Player, q: Player)
    requires |q.trade.destinations| == |p.trade.items|
  {
    && p.charId > 0 && p.trade.alz <= p.alz && p.alz - p.trade.alz + q.trade.alz <= MAX_U64
    && forall k :: 0 <= k < |p.trade.items| ==>
         ItemDeliverable(p.inventory, q.inventory, p.trade.items[k], q.trade.destinations[k])
  }

  predicate ItemDeliverable(from: Bag, to: Bag, o: Offer, target: Slot) {
    o.slot in from && from[o.slot] == o.goods && target !in to && o.slot != target
  }

  lemma TransfersFromMemory(p: Player, q: Player, db: Db)
    requires |q.trade.destinations| == |p.trade.items| && OffersReal(p.trade.items) && Distinct(q.trade.destinations)
    requires Mirrors(p.charId, p.alz, p.inventory, db) && Mirrors(q.charId, q.alz, q.inventory, db)
    ensures TransfersOk(db.inventory, p.charId, q.charId, Transfers(p.trade.items, q.trade.destinations)) <==>
            forall k :: 0 <= k < |p.trade.items| ==>
              ItemDeliverable(p.inventory, q.inventory, p.trade.items[k], q.trade.destinations[k])
  {
    var ts := Transfers(p.trade.items, q.trade.destinations);
    assert DistinctSlots(ts);
    forall k | 0 <= k < |ts|
      ensures TransferOk(db.inventory, p.charId, q.charId, ts[k]) <==>
              ItemDeliverable(p.inventory, q.inventory, p.trade.items[k], q.trade.destinations[k])
    {
      assert ts[k] == Transfer(p.trade.items[k].slot, p.trade.items[k].goods, q.trade.destinations[k]);
    }
  }

  /** When memory and Master are in step, the Master accepts an exchange if and only if both sides can still
      deliver. In particular an item is never moved into the slot number it came from. */
  lemma MasterAgrees(w: World, u: nat)
    requires InSync(w) && Linked(w) && Ready(w, u)
    requires |w.players[u].trade.destinations| == |w.players[Peer(w, u)].trade.items|
    ensures var p, q := w.players[u], w.players[Peer(w, u)];
            TradeItems(w.db, Exchange(w, u)).1.Traded? <==> Deliverable(p, q) && Deliverable(q, p)
  {
    var v := Peer(w, u);
    var p, q := w.players[u], w.players[v];
    assert LinkOk(w, u) && LinkOk(w, v);
    assert p.charId != q.charId;
    InSyncMeans(w, u);
    InSyncMeans(w, v);
    TransfersFromMemory(p, q, w.db);
    TransfersFromMemory(q, p, w.db);
    hide InSync, Linked, LinkOk, TransfersOk, Transfers, ItemDeliverable, MoveAll;
  }

  // --- When the Master has committed but its answer is lost. ---

  predicate MovesNothing(r: TradeRequest) {
    r.firstItems == [] && r.secondItems == [] && r.firstAlz == r.secondAlz
  }

  lemma NothingMoved(db: Db, r: TradeRequest)
    requires TradeItems(db, r).1.Traded? && MovesNothing(r)
    ensures TradeItems(db, r).0 == db
  {
    MoveNothing(db.inventory, r.first, r.second, r.firstItems);
    MoveNothing(db.inventory, r.second, r.first, r.secondItems);
  }

  /** A slot given away is empty at the Master afterwards: nothing can have arrived in it. */
  lemma GivenSlotEmpties(inv: Storage, after: Storage, a: int, b: int, out: seq<Transfer>, inc: seq<Transfer>)
    requires TransfersOk(inv, a, b, out) && TransfersOk(inv, b, a, inc) && out != []
    requires SlotAfter(inv, after, a, out, inc, out[0].slot)
    ensures Place(a, out[0].slot) in inv && Place(a, out[0].slot) !in after
  {
    assert TransferOk(inv, a, b, out[0]);
    forall i | 0 <= i < |inc| ensures inc[i].target != out[0].slot {
      assert TransferOk(inv, b, a, inc[i]);
    }
  }

  lemma SomethingMoved(db: Db, r: TradeRequest, a: U64, bagA: Bag, b: U64, bagB: Bag)
    requires TradeItems(db, r).1.Traded? && !MovesNothing(r)
    requires Mirrors(r.first, a, bagA, db) && Mirrors(r.second, b, bagB, db)
    ensures !(Mirrors(r.first, a, bagA, TradeItems(db, r).0) && Mirrors(r.second, b, bagB, TradeItems(db, r).0))
  {
    TradedMeans(db, r);
    var after := TradeItems(db, r).0;
    hide MoveAll, TransfersOk, SlotAfter;
    if r.firstItems != [] {
      ExchangedSlot(db.inventory, r.first, r.second, r.firstItems, r.secondItems, r.firstItems[0].slot);
      GivenSlotEmpties(db.inventory, after.inventory, r.first, r.second, r.firstItems, r.secondItems);
      assert r.firstItems[0].slot in bagA;
    } else if r.secondItems != [] {
      ExchangedSlot(db.inventory, r.first, r.second, r.firstItems, r.secondItems, r.secondItems[0].slot);
      GivenSlotEmpties(db.inventory, after.inventory, r.second, r.first, r.secondItems, r.firstItems);
      assert r.secondItems[0].slot in bagB;
    }
  }

  lemma LostVerdict(w: World, u: nat)
    requires InSync(w) && Ready(w, u) && |w.players[u].trade.destinations| == |w.players[Peer(w, u)].trade.items|
    ensures InSync(Complete(w, u, ReplyLost)) <==>
            !TradeItems(w.db, Exchange(w, u)).1.Traded? || MovesNothing(Exchange(w, u))
  {
    hide TradeItems, InSync, Exchange, Mirrors;
    var v, w', r := Peer(w, u), Complete(w, u, ReplyLost), Exchange(w, u);
    AllOrNothing(w.db, r);
    if !TradeItems(w.db, r).1.Traded? {
      QuietKeepsSync(w, w');
    } else if MovesNothing(r) {
      NothingMoved(w.db, r);
      QuietKeepsSync(w, w');
    } else {
      ExchangeNames(w, u);
      InSyncMeans(w, u);
      InSyncMeans(w, v);
      var p, q := w.players[u], w.players[v];
      SomethingMoved(w.db, r, p.alz, p.inventory, q.alz, q.inventory);
      if InSync(w') {
        InSyncMeans(w', u);
        InSyncMeans(w', v);
      }
    }
  }

  /** Aborting on a lost answer leaves memory in step with the Master exactly when one side could no longer deliver,
      so that the Master refused, or there was nothing to move. */
  lemma LostReply(w: World, u: nat)
    requires InSync(w) && Linked(w) && Ready(w, u)
    requires |w.players[u].trade.destinations| == |w.players[Peer(w, u)].trade.items|
    ensures var p, q := w.players[u], w.players[Peer(w, u)];
            InSync(Complete(w, u, ReplyLost)) <==>
            !(Deliverable(p, q) && Deliverable(q, p)) || MovesNothing(Exchange(w, u))
  {
    hide InSync, Linked, Complete, Exchange, TradeItems, Deliverable, MovesNothing;
    LostVerdict(w, u);
    MasterAgrees(w, u);
  }

  lemma InSyncMeans(w: World, u: nat)
    requires InSync(w) && u in w.players
    ensures Mirrors(w.players[u].charId, w.players[u].alz, w.players[u].inventory, w.db)
  {
    assert PlayerMirrors(w, u);
  }

  /** Steps that change only trade states, or let someone go. */
  lemma QuietKeepsSync(w: World, w': World)
    requires InSync(w) && OnlyTrades(w, w')
    ensures InSync(w')
  {
    forall x | x in w'.players ensures PlayerMirrors(w', x) {
      assert PlayerMirrors(w, x) && SamePerson(w.players[x], w'.players[x]);
    }
    forall x, y | x in w'.players && y in w'.players && x != y ensures w'.players[x].charId != w'.players[y].charId {
      assert SamePerson(w.players[x], w'.players[x]) && SamePerson(w.players[y], w'.players[y]);
    }
  }

  predicate SamePerson(p: Player, q: Player) {
    p.charId == q.charId && p.alz == q.alz && p.inventory == q.inventory
  }

  predicate OnlyTrades(w: World, w': World) {
    && w'.db == w.db && w'.players.Keys <= w.players.Keys
    && forall x :: x in w'.players ==> SamePerson(w.players[x], w'.players[x])
  }

  lemma TwoSetsQuiet(w: World, u: nat, t: TradeState, v: nat, t': TradeState)
    requires u in w.players && v in w.players
    ensures OnlyTrades(w, SetTrade(w, u, t))
    ensures OnlyTrades(w, SetTrade(SetTrade(w, u, t), v, t'))
  {
  }

  lemma EditQuiet(w: World, u: nat, t: TradeState)
    requires Paired(w, u)
    ensures OnlyTrades(w, Edit(w, u, t))
  {
    hide SetTrade, OnlyTrades;
    TwoSetsQuiet(w, u, t, Peer(w, u), w.players[Peer(w, u)].trade.(submitted := false));
  }

  lemma CancelQuiet(w: World, u: nat)
    ensures OnlyTrades(w, CancelStep(w, u))
  {
    if u in w.players && w.players[u].trade.status != Idle {
      hide SetTrade, OnlyTrades;
      var v := Peer(w, u);
      TwoSetsQuiet(w, u, NO_TRADE, if v in w.players then v else u, NO_TRADE);
    }
  }

  lemma HandshakeQuiet(w: World, u: nat, v: nat, c: int, a: OpenAction)
    ensures OnlyTrades(w, RequestStep(w, u, v, c)) && OnlyTrades(w, OpenStep(w, u, a))
  {
    var p, q := RequestStep(w, u, v, c), OpenStep(w, u, a);
    if p != w {
      TwoSetsQuiet(w, u, p.players[u].trade, v, p.players[v].trade);
    }
    if CanAnswer(w, u, a) {
      TwoSetsQuiet(w, u, if a == Accept then w.players[u].trade.(status := Open) else NO_TRADE,
                   Peer(w, u), if a == Accept then w.players[Peer(w, u)].trade.(status := Open) else NO_TRADE);
    }
  }

  lemma CloseQuiet(w: World, u: nat, a: CloseAction)
    ensures OnlyTrades(w, CloseStep(w, u, a))
  {
    if InWindow(w, u, false) {
      hide SetTrade, OnlyTrades;
      TwoSetsQuiet(w, u, w.players[u].trade.(submitted := a == Submit), u, NO_TRADE);
      TwoSetsQuiet(w, u, NO_TRADE, Peer(w, u), NO_TRADE);
      SameQuiet(w);
    }
  }

  lemma SameQuiet(w: World)
    ensures OnlyTrades(w, w)
  {
  }

  lemma QuietEvents(w: World, e: Event)
    requires !e.Enter? && !e.RequestList? && !e.Other?
    ensures OnlyTrades(w, Trade.Step(w, e))
  {
    SameQuiet(w);
    hide OnlyTrades, Edit, SetTrade, CancelStep, RequestStep, OpenStep, CloseStep, OfferExists, OfferIndex;
    var w' := Trade.Step(w, e);
    match e {
      case Request(u, v, c) => HandshakeQuiet(w, u, v, c, Accept);
      case OpenEvent(u, a) => HandshakeQuiet(w, u, u, 0, a);
      case CloseEvent(u, a) => CloseQuiet(w, u, a);
      case AddItem(u, s, t) =>
        if InWindow(w, u, true) {
          var p := w.players[u];
          EditQuiet(w, u, p.trade.(items := p.trade.items + [Offer(s, Get(p.inventory, s), t)]));
        }
      case AddAlz(u, n) =>
        if InWindow(w, u, true) && 0 <= n <= w.players[u].alz {
          EditQuiet(w, u, w.players[u].trade.(alz := n));
        }
      case RemoveItem(u, t, s) =>
        if InWindow(w, u, true) {
          var items := w.players[u].trade.items;
          var i := OfferIndex(items, t, s);
          if i < |items| {
            EditQuiet(w, u, w.players[u].trade.(items := items[..i] + items[i + 1..]));
          }
        }
      case Lobby(u) => LeaveQuiet(w, u);
      case Disconnect(u) => LeaveQuiet(w, u);
      case ListChars(u, account) => RosterQuiet(w, Trade.Step(w, e));
    }
  }

  lemma RosterQuiet(w: World, w': World)
    requires w'.players == w.players && w'.db == w.db
    ensures OnlyTrades(w, w')
  {
  }

  lemma LeaveQuiet(w: World, u: nat)
    ensures OnlyTrades(w, LobbyStep(w, u)) && OnlyTrades(w, DisconnectStep(w, u))
  {
    hide CancelStep;
    CancelQuiet(w, u);
  }

  /** A character enters from a cached list whose Alz for it is no longer what the Master has. */
  predicate StaleEntry(w: World, e: Event) {
    && e.Enter? && Admitted(w, e.u, e.charId)
    && !(e.charId in w.db.alz && w.db.alz[e.charId] == RosterFor(w, e.u, e.charId)[e.charId])
  }

  /** A character enters on one session while another has it. */
  predicate SharedEntry(w: World, e: Event) {
    e.Enter? && Admitted(w, e.u, e.charId) && exists v :: v in w.players && v != e.u && w.players[v].charId == e.charId
  }

  lemma EnteredMirrors(w: World, u: nat, c: int)
    requires Admitted(w, u, c)
    ensures var w' := EnterStep(w, u, c);
            u in w'.players && (PlayerMirrors(w', u) <==> !StaleEntry(w, Enter(u, c)))
  {
    hide RosterFor;
    forall s: Slot ensures (s in RowsOf(w.db.inventory, c) <==> Place(c, s) in w.db.inventory) {
    }
  }

  lemma EnterKeepsSync(w: World, u: nat, c: int)
    requires InSync(w)
    ensures InSync(EnterStep(w, u, c)) <==> !StaleEntry(w, Enter(u, c)) && !SharedEntry(w, Enter(u, c))
  {
    var w' := EnterStep(w, u, c);
    if Admitted(w, u, c) {
      EnteredMirrors(w, u, c);
      hide RosterFor, RowsOf, StaleEntry, Mirrors;
      if v :| v in w.players && v != u && w.players[v].charId == c {
        assert w'.players[v].charId == w'.players[u].charId;
      }
      forall x | x in w'.players && x != u ensures PlayerMirrors(w', x) {
        assert PlayerMirrors(w, x);
      }
    } else {
      RosterQuiet(w, w');
      QuietKeepsSync(w, w');
    }
  }

  lemma OtherKeepsSync(w: World, u: nat, alz: U64, inv: Bag)
    requires InSync(w)
    ensures InSync(OtherStep(w, u, alz, inv))
  {
    var w' := OtherStep(w, u, alz, inv);
    if u in w.players {
      var c := w.players[u].charId;
      forall x | x in w'.players ensures PlayerMirrors(w', x) {
        assert PlayerMirrors(w, x);
        forall s: Slot ensures x != u ==>
          (Place(w.players[x].charId, s) in w'.db.inventory <==> Place(w.players[x].charId, s) in w.db.inventory) {
        }
        forall s: Slot ensures x == u ==> (Place(c, s) in w'.db.inventory <==> s in inv) {
        }
      }
    }
  }

  /** The Master commits an exchange that moves something, and its answer is lost. */
  predicate UnheardCommit(w: World, e: Event) {
    && Commits(w, e) && e.rpc == ReplyLost && !MovesNothing(Committed(w, e))
    && var noted := NoteList(w, e.u, e.slots);
    && var p, q := noted.players[e.u], noted.players[Peer(noted, e.u)];
    && Deliverable(p, q) && Deliverable(q, p)
  }

  /** The steps at which memory falls out of step with the Master: at a shared entry two memories of one character begin
      to be kept, of which each change reaches only one. */
  predicate LosesSync(w: World, e: Event) {
    UnheardCommit(w, e) || StaleEntry(w, e) || SharedEntry(w, e)
  }

  lemma NotedLinked(w: World, u: nat, slots: seq<Slot>)
    requires Linked(w) && AcceptsList(w, u, slots)
    ensures Linked(NoteList(w, u, slots))
  {
    assert LinkOk(w, u) && LinkOk(w, Peer(w, u));
    SetKeepsLinks(w, u, w.players[u].trade.(destinations := slots));
  }

  lemma ListKeepsSync(w: World, u: nat, slots: seq<Slot>, rpc: Rpc)
    requires InSync(w) && Linked(w)
    ensures InSync(RequestListStep(w, u, slots, rpc)) <==> !UnheardCommit(w, RequestList(u, slots, rpc))
  {
    hide InSync, Linked, Complete, Exchange, TradeItems, MovesNothing, Deliverable;
    if AcceptsList(w, u, slots) {
      var noted := NoteList(w, u, slots);
      QuietKeepsSync(w, noted);
      NotedLinked(w, u, slots);
      if Ready(noted, u) {
        if rpc == ReplyLost {
          LostReply(noted, u);
        } else {
          CompleteKeepsSync(noted, u, rpc);
        }
      }
    }
  }

  /** One step keeps memory and Master in step if and only if it is neither an unheard commit, nor an entry from a stale
      list, nor an entry of a character that another session has. */
  lemma SyncKept(w: World, e: Event)
    requires InSync(w) && Linked(w)
    ensures InSync(Trade.Step(w, e)) <==> !LosesSync(w, e)
  {
    hide InSync, Linked, OnlyTrades, EnterStep, RequestListStep, OtherStep, Committed, MovesNothing, Deliverable;
    match e
    case Enter(u, c) => EnterKeepsSync(w, u, c);
    case RequestList(u, slots, rpc) => ListKeepsSync(w, u, slots, rpc);
    case Other(u, alz, inv) => OtherKeepsSync(w, u, alz, inv);
    case _ =>
      QuietEvents(w, e);
      QuietKeepsSync(w, Trade.Step(w, e));
  }

  /** In every run without such a step, every player's inventory and Alz in memory are the Master's rows, completed
      trades included. */
  lemma {:induction false} InSyncAlways(w: World, es: seq<Event>, n: nat)
    requires InSync(w) && Linked(w) && n <= |es|
    requires forall k :: 0 <= k < n ==> !LosesSync(After(w, es, k), es[k])
    ensures InSync(After(w, es, n))
    decreases n
  {
    hide InSync, Linked, Trade.Step, LosesSync;
    if n > 0 {
      InSyncAlways(w, es, n - 1);
      LinkedAlways(w, es, n - 1);
      SyncKept(After(w, es, n - 1), es[n - 1]);
    }
  }
}
