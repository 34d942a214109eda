/** What every run of the trade protocol keeps. */
module TradeSafety {
  import opened Economy
  import opened Trade

  // --- Links are symmetric. ---

  predicate Complementary(a: Role, b: Role) {
    (a == Requester && b == Target) || (a == Target && b == Requester)
  }

  predicate OffersDistinct(items: seq<Offer>) {
    forall i, j :: 0 <= i < j < |items| ==> items[i].slot != items[j].slot && items[i].tradeSlot != items[j].tradeSlot
  }

  predicate OffersReal(items: seq<Offer>) {
    OffersDistinct(items) && forall i :: 0 <= i < |items| ==> items[i].goods.kind != 0
  }

  /** An idle player carries no trace of a trade; any other has a different player as opponent, in the same
      phase, pointing back, in the complementary role. The character the opponent was recorded under need not be the
      one it has now; `Named` says when it is. */
  predicate LinkOk(w: World, u: nat)
    requires u in w.players
  {
    var t := w.players[u].trade;
    if t.status == Idle then t == NO_TRADE
    else
      && t.opponent != u && t.opponent in w.players
      && var p := w.players[t.opponent];
      && p.trade.status == t.status && p.trade.opponent == u && Complementary(t.role, p.trade.role)
      && OffersReal(t.items) && Distinct(t.destinations)
      && (t.status == Pending ==> t.items == [] && t.alz == 0 && !t.submitted && t.destinations == [])
  }

  predicate Linked(w: World) {
    forall u :: u in w.players ==> LinkOk(w, u)
  }

  /** Rewriting the trades of two players linked to no third keeps everyone else's links. */
  lemma TwoRewritten(w: World, u: nat, v: nat, w': World)
    requires Linked(w) && u in w.players && v in w.players
    requires w'.players.Keys == w.players.Keys
    requires forall x :: x in w.players && x != u && x != v ==> w'.players[x] == w.players[x]
    requires w.players[u].trade.status != Idle ==> w.players[u].trade.opponent == v
    requires w.players[v].trade.status != Idle ==> w.players[v].trade.opponent == u
    requires LinkOk(w', u) && LinkOk(w', v)
    ensures Linked(w')
  {
    forall x | x in w'.players && x != u && x != v ensures LinkOk(w', x) {
      assert LinkOk(w, x);
      var t := w.players[x].trade;
      if t.status != Idle {
        assert LinkOk(w, t.opponent);
        assert t.opponent != u && t.opponent != v;
      }
    }
  }

  lemma EditKeepsLinks(w: World, u: nat, t: TradeState)
    requires Linked(w) && InWindow(w, u, false)
    requires var s := w.players[u].trade;
             t.(items := s.items, alz := s.alz, submitted := s.submitted, destinations := s.destinations) == s
    requires OffersReal(t.items) && Distinct(t.destinations)
    ensures Linked(Edit(w, u, t))
  {
    var v := Peer(w, u);
    assert LinkOk(w, u) && LinkOk(w, v);
    TwoRewritten(w, u, v, Edit(w, u, t));
  }

  lemma SetKeepsLinks(w: World, u: nat, t: TradeState)
    requires Linked(w) && InWindow(w, u, false)
    requires var s := w.players[u].trade;
             t.(items := s.items, alz := s.alz, submitted := s.submitted, destinations := s.destinations) == s
    requires OffersReal(t.items) && Distinct(t.destinations)
    ensures Linked(SetTrade(w, u, t))
  {
    var v := Peer(w, u);
    assert LinkOk(w, u) && LinkOk(w, v);
    TwoRewritten(w, u, v, SetTrade(w, u, t));
  }

  lemma ResetKeepsLinks(w: World, u: nat, v: nat, db: Db)
    requires Linked(w) && u in w.players && w.players[u].trade.status != Idle && v == Peer(w, u)
    ensures v in w.players && Linked(Reset(w.(db := db), u, v))
  {
    assert LinkOk(w, u) && LinkOk(w, v);
    TwoRewritten(w, u, v, Reset(w.(db := db), u, v));
  }

  lemma RequestKeepsLinks(w: World, u: nat, v: nat, c: int)
    requires Linked(w)
    ensures Linked(RequestStep(w, u, v, c))
  {
    var w' := RequestStep(w, u, v, c);
    if w' != w {
      TwoRewritten(w, u, v, w');
    }
  }

  lemma OpenKeepsLinks(w: World, u: nat, a: OpenAction)
    requires Linked(w)
    ensures Linked(OpenStep(w, u, a))
  {
    if CanAnswer(w, u, a) {
      var v := Peer(w, u);
      assert LinkOk(w, u) && LinkOk(w, v);
      TwoRewritten(w, u, v, OpenStep(w, u, a));
    }
  }

  lemma SettleKeepsName(p: Player, incoming: seq<Offer>, alz: U64)
    requires |incoming| == |p.trade.destinations|
    ensures var q := Settle(p, incoming, alz); q.charId == p.charId && q.alz == alz && q.trade == NO_TRADE
  {
  }

  lemma CompleteKeepsLinks(w: World, u: nat, rpc: Rpc)
    requires Linked(w) && InWindow(w, u, false) && Ready(w, u)
    requires |w.players[u].trade.destinations| == |w.players[Peer(w, u)].trade.items|
    ensures Linked(Complete(w, u, rpc))
  {
    hide TradeItems, Exchange, Settle;
    var v := Peer(w, u);
    assert LinkOk(w, u) && LinkOk(w, v);
    var reply := TradeItems(w.db, Exchange(w, u)).1;
    if reply.Traded? {
      SettleKeepsName(w.players[u], w.players[v].trade.items, reply.firstAlz);
      SettleKeepsName(w.players[v], w.players[u].trade.items, reply.secondAlz);
    }
    TwoRewritten(w, u, v, Complete(w, u, rpc));
  }

  lemma CancelKeepsLinks(w: World, u: nat)
    requires Linked(w)
    ensures Linked(CancelStep(w, u))
    ensures CancelStep(w, u).players.Keys == w.players.Keys
    ensures u in w.players ==> CancelStep(w, u).players[u].trade == NO_TRADE
  {
    if u in w.players {
      assert LinkOk(w, u);
      if w.players[u].trade.status != Idle {
        ResetKeepsLinks(w, u, Peer(w, u), w.db);
      }
    }
  }

  lemma LobbyKeepsLinks(w: World, u: nat)
    requires Linked(w)
    ensures Linked(LobbyStep(w, u)) && LobbyStep(w, u).players.Keys == w.players.Keys
    ensures u in w.players ==> LobbyStep(w, u).players[u].trade == NO_TRADE
  {
    CancelKeepsLinks(w, u);
    SamePlayers(CancelStep(w, u), LobbyStep(w, u));
  }

  lemma SamePlayers(w: World, w': World)
    requires Linked(w) && w'.players == w.players
    ensures Linked(w')
  {
    forall x | x in w'.players ensures LinkOk(w', x) {
      assert LinkOk(w, x);
    }
  }

  lemma DisconnectKeepsLinks(w: World, u: nat)
    requires Linked(w)
    ensures Linked(DisconnectStep(w, u))
  {
    LobbyKeepsLinks(w, u);
    var c, w' := LobbyStep(w, u), DisconnectStep(w, u);
    forall x | x in w'.players ensures LinkOk(w', x) {
      assert LinkOk(c, x);
      if c.players[x].trade.status != Idle {
        assert LinkOk(c, c.players[x].trade.opponent);
      }
    }
  }

  lemma QuietKeepsLinks(w: World, u: nat, w': World)
    requires Linked(w) && w.players.Keys <= w'.players.Keys <= w.players.Keys + {u}
    requires forall x :: x in w.players ==> w'.players[x].trade == w.players[x].trade
    requires u in w'.players && u !in w.players ==> w'.players[u].trade == NO_TRADE
    ensures Linked(w')
  {
    forall x | x in w'.players ensures LinkOk(w', x) {
      if x in w.players {
        assert LinkOk(w, x);
      }
    }
  }

  /** Trade links stay symmetric through request, accept, reject, edits, submit, commit, abort, cancel and leave. */
  lemma LinksKept(w: World, e: Event)
    requires Linked(w)
    ensures Linked(Trade.Step(w, e))
  {
    hide LinkOk, OffersReal;
    var w' := Trade.Step(w, e);
    if w' == w { return; }
    match e
    case ListChars(u, account) => QuietKeepsLinks(w, u, w');
    case Enter(u, c) => QuietKeepsLinks(w, u, w');
    case Request(u, v, c) => RequestKeepsLinks(w, u, v, c);
    case OpenEvent(u, a) => OpenKeepsLinks(w, u, a);
    case CloseEvent(u, a) => CloseKeepsLinks(w, u, a);
    case AddItem(u, s, t) => AddItemKeepsLinks(w, u, s, t);
    case AddAlz(u, n) => AddAlzKeepsLinks(w, u, n);
    case RemoveItem(u, t, s) => RemoveItemKeepsLinks(w, u, t, s);
    case RequestList(u, slots, rpc) => ListKeepsLinks(w, u, slots, rpc);
    case Lobby(u) => LobbyKeepsLinks(w, u);
    case Disconnect(u) => DisconnectKeepsLinks(w, u);
    case Other(u, alz, inv) => QuietKeepsLinks(w, u, w');
  }

  lemma CloseKeepsLinks(w: World, u: nat, a: CloseAction)
    requires Linked(w)
    ensures Linked(CloseStep(w, u, a))
  {
    if InWindow(w, u, false) {
      assert LinkOk(w, u);
      SetKeepsLinks(w, u, w.players[u].trade.(submitted := a == Submit));
      ResetKeepsLinks(w, u, Peer(w, u), w.db);
    }
  }

  lemma AddItemKeepsLinks(w: World, u: nat, slot: Slot, tradeSlot: nat)
    requires Linked(w)
    ensures Linked(AddItemStep(w, u, slot, tradeSlot))
  {
    if AddItemStep(w, u, slot, tradeSlot) != w {
      assert LinkOk(w, u);
      var p := w.players[u];
      var items := p.trade.items + [Offer(slot, Get(p.inventory, slot), tradeSlot)];
      assert OffersReal(items);
      EditKeepsLinks(w, u, p.trade.(items := items));
    }
  }

  lemma AddAlzKeepsLinks(w: World, u: nat, amount: int)
    requires Linked(w)
    ensures Linked(AddAlzStep(w, u, amount))
  {
    if AddAlzStep(w, u, amount) != w {
      assert LinkOk(w, u);
      EditKeepsLinks(w, u, w.players[u].trade.(alz := amount));
    }
  }

  lemma RemoveItemKeepsLinks(w: World, u: nat, tradeSlot: nat, slot: Slot)
    requires Linked(w)
    ensures Linked(RemoveItemStep(w, u, tradeSlot, slot))
  {
    if RemoveItemStep(w, u, tradeSlot, slot) != w {
      assert LinkOk(w, u);
      var t := w.players[u].trade;
      var i := OfferIndex(t.items, tradeSlot, slot);
      EditKeepsLinks(w, u, t.(items := t.items[..i] + t.items[i + 1..]));
    }
  }

  lemma ListKeepsLinks(w: World, u: nat, slots: seq<Slot>, rpc: Rpc)
    requires Linked(w)
    ensures Linked(RequestListStep(w, u, slots, rpc))
  {
    if AcceptsList(w, u, slots) {
      assert LinkOk(w, u) && LinkOk(w, Peer(w, u));
      SetKeepsLinks(w, u, w.players[u].trade.(destinations := slots));
      if Ready(NoteList(w, u, slots), u) {
        CompleteKeepsLinks(NoteList(w, u, slots), u, rpc);
      }
    }
  }

  lemma {:induction false} LinkedAlways(w: World, es: seq<Event>, n: nat)
    requires Linked(w) && n <= |es|
    ensures Linked(After(w, es, n))
    decreases n
  {
    hide Linked, Trade.Step;
    if n > 0 {
      LinkedAlways(w, es, n - 1);
      LinksKept(After(w, es, n - 1), es[n - 1]);
    }
  }
}
