/** Where the state of a trade comes from: over every run, each thing a player sees in its trade goes back to the packet
    that put it there and has stood since. */
module TradeHistory {
  import opened Economy
  import opened Trade
  import opened TradeSafety
  import opened TradeApproval
  import opened TradeSlots
  import opened TradeEffects

  /** Packets that end a trade, from either side of it. */
  predicate Ends(w: World, e: Event, u: nat) {
    && (e.u == u || e.u == TradeOf(w, u).opponent)
    && (e.Lobby? || e.Disconnect? || e.RequestList? || (e.OpenEvent? && e.open != Accept)
        || (e.CloseEvent? && e.close == TradeCancel))
  }

  /** An edit of `u`'s offer that takes effect. */
  predicate Edits(w: World, e: Event, u: nat) {
    e.u == u && Editable(w, u) && (e.AddItem? || e.AddAlz? || e.RemoveItem?)
  }

  /** What the items on offer are after an edit by their owner. */
  ghost predicate ItemsFollow(w: World, e: Event, u: nat, items: seq<Offer>)
    requires u in w.players
  {
    var p := w.players[u];
    var was := p.trade.items;
    match e
    case AddItem(_, slot, tradeSlot) =>
      && CanOffer(p, slot, tradeSlot) && slot in p.inventory
      && items == was + [Offer(slot, p.inventory[slot], tradeSlot)]
    case RemoveItem(_, tradeSlot, slot) =>
      exists i :: OffersAt(was, i, tradeSlot, slot) && items == was[..i] + was[i + 1..]
    case _ => items == was
  }

  predicate AlzFollows(w: World, e: Event, u: nat, alz: U64)
    requires u in w.players
  {
    if e.AddAlz? then 0 <= e.amount <= w.players[u].alz && alz == e.amount else alz == w.players[u].trade.alz
  }

  /** Every way the trade of `u` may change in one step, told by the packet and who sends it. */
  ghost predicate Caused(w: World, e: Event, u: nat) {
    var t, t' := TradeOf(w, u), TradeOf(Trade.Step(w, e), u);
    || t' == t
    || (t' == NO_TRADE && Ends(w, e, u))
    || (t == NO_TRADE && e.Request? && e.u == u && t'.status == Pending && t'.role == Requester
        && t'.opponent == e.target && t'.opponentChar == e.targetChar && t'.items == [] && t'.alz == 0)
    || (t == NO_TRADE && e.Request? && e.target == u && t'.status == Pending && t'.role == Target && t'.opponent == e.u
        && t'.items == [] && t'.alz == 0)
    || (e.OpenEvent? && e.open == Accept && t.status == Pending && t' == t.(status := Open)
        && e.u == (if t.role == Target then u else t.opponent))
    || (e.CloseEvent? && e.u == u && t.status == Open && t' == t.(submitted := e.close == Submit))
    || (e.RequestList? && e.u == u && t.status == Open && t' == t.(destinations := e.slots))
    || (u in w.players && Edits(w, e, u) && t' == t.(items := t'.items, alz := t'.alz)
        && ItemsFollow(w, e, u, t'.items) && AlzFollows(w, e, u, t'.alz))
    || (Edits(w, e, t.opponent) && t.status == Open && t' == t.(submitted := false))
  }

  lemma RequestCaused(w: World, x: nat, v: nat, c: int, u: nat)
    requires Linked(w)
    ensures Caused(w, Request(x, v, c), u)
  {
    hide RequestStep;
    RequestEffect(w, x, v, c);
    if x in w.players && v in w.players {
      assert LinkOk(w, x) && LinkOk(w, v);
    }
    hide Linked;
  }

  /** The two sides of a trade see each other. */
  lemma SidesMeet(w: World, u: nat)
    requires Linked(w) && u in w.players && w.players[u].trade.status != Idle
    ensures var t := w.players[u].trade;
            && t.opponent in w.players && t.opponent != u
            && var s := w.players[t.opponent].trade;
            s.opponent == u && s.status == t.status && Complementary(t.role, s.role)
  {
    assert LinkOk(w, u);
  }

  lemma AnswerCaused(w: World, x: nat, a: OpenAction, u: nat)
    requires Linked(w)
    ensures Caused(w, OpenEvent(x, a), u)
  {
    hide OpenStep, Linked;
    AnswerEffect(w, x, a);
    if MayAnswer(w, x, a) {
      SidesMeet(w, x);
    }
  }

  lemma CloseCaused(w: World, x: nat, a: CloseAction, u: nat)
    requires Linked(w)
    ensures Caused(w, CloseEvent(x, a), u)
  {
    hide CloseStep, Linked;
    CloseEffect(w, x, a);
    if x in w.players && w.players[x].trade.status == Open {
      SidesMeet(w, x);
    }
  }

  lemma EditCaused(w: World, e: Event, u: nat, items: seq<Offer>, alz: U64)
    requires Linked(w) && Edits(w, e, e.u) && e.u in w.players && Offered(w, Trade.Step(w, e), e.u, items, alz)
    requires ItemsFollow(w, e, e.u, items) && AlzFollows(w, e, e.u, alz)
    ensures Caused(w, e, u)
  {
    hide Trade.Step, Linked, ItemsFollow, AlzFollows;
    SidesMeet(w, e.u);
  }

  lemma SameCaused(w: World, e: Event, u: nat)
    requires TradeOf(Trade.Step(w, e), u) == TradeOf(w, u)
    ensures Caused(w, e, u)
  {
    hide Trade.Step;
  }

  lemma AddItemCaused(w: World, x: nat, slot: Slot, tradeSlot: nat, u: nat)
    requires Linked(w)
    ensures Caused(w, AddItem(x, slot, tradeSlot), u)
  {
    hide AddItemStep, Linked, Offered, Caused;
    var e := AddItem(x, slot, tradeSlot);
    assert Trade.Step(w, e) == AddItemStep(w, x, slot, tradeSlot);
    hide Trade.Step;
    AddItemEffect(w, x, slot, tradeSlot);
    if Editable(w, x) && CanOffer(w.players[x], slot, tradeSlot) {
      var p := w.players[x];
      EditCaused(w, e, u, p.trade.items + [Offer(slot, p.inventory[slot], tradeSlot)], p.trade.alz);
    } else {
      SameCaused(w, e, u);
    }
  }

  lemma AddAlzCaused(w: World, x: nat, amount: int, u: nat)
    requires Linked(w)
    ensures Caused(w, AddAlz(x, amount), u)
  {
    hide AddAlzStep, Linked, Offered, Caused;
    var e := AddAlz(x, amount);
    assert Trade.Step(w, e) == AddAlzStep(w, x, amount);
    hide Trade.Step;
    AddAlzEffect(w, x, amount);
    if Editable(w, x) && 0 <= amount <= w.players[x].alz {
      EditCaused(w, e, u, w.players[x].trade.items, amount);
    } else {
      SameCaused(w, e, u);
    }
  }

  lemma RemoveItemCaused(w: World, x: nat, tradeSlot: nat, slot: Slot, u: nat)
    requires Linked(w)
    ensures Caused(w, RemoveItem(x, tradeSlot, slot), u)
  {
    hide RemoveItemStep, Linked, Offered, Caused, OffersAt;
    var e := RemoveItem(x, tradeSlot, slot);
    assert Trade.Step(w, e) == RemoveItemStep(w, x, tradeSlot, slot);
    hide Trade.Step;
    if Editable(w, x) && exists i :: OffersAt(w.players[x].trade.items, i, tradeSlot, slot) {
      var t := w.players[x].trade;
      var i :| OffersAt(t.items, i, tradeSlot, slot);
      RemoveItemEffect(w, x, tradeSlot, slot, i);
      IndexIn(t.items, i, tradeSlot, slot);
      EditCaused(w, e, u, t.items[..i] + t.items[i + 1..], t.alz);
    } else {
      NothingRemoved(w, x, tradeSlot, slot);
      SameCaused(w, e, u);
    }
  }

  lemma IndexIn(items: seq<Offer>, i: int, tradeSlot: nat, slot: Slot)
    requires OffersAt(items, i, tradeSlot, slot)
    ensures 0 <= i < |items|
  {
  }

  lemma ListCaused(w: World, x: nat, slots: seq<Slot>, rpc: Rpc, u: nat)
    requires Linked(w)
    ensures Caused(w, RequestList(x, slots, rpc), u)
  {
    hide Linked, RequestListStep;
    if AcceptsList(w, x, slots) {
      SidesMeet(w, x);
      if |w.players[Peer(w, x)].trade.destinations| == |w.players[x].trade.items| {
        SettledEnds(w, x, slots, rpc);
      } else {
        ListNoted(w, x, slots, rpc);
      }
      hide AcceptsList;
    } else {
      Refused(w, x, slots, rpc);
    }
  }

  lemma Refused(w: World, x: nat, slots: seq<Slot>, rpc: Rpc)
    requires !AcceptsList(w, x, slots)
    ensures RequestListStep(w, x, slots, rpc) == w
  {
    hide AcceptsList;
  }

  lemma SettledEnds(w: World, x: nat, slots: seq<Slot>, rpc: Rpc)
    requires Linked(w) && AcceptsList(w, x, slots)
    requires |w.players[Peer(w, x)].trade.destinations| == |w.players[x].trade.items|
    ensures var w' := RequestListStep(w, x, slots, rpc);
            && TradeOf(w', x) == NO_TRADE && TradeOf(w', Peer(w, x)) == NO_TRADE
            && forall y :: y != x && y != Peer(w, x) ==> TradeOf(w', y) == TradeOf(w, y)
  {
    hide Linked, Complete;
    SidesMeet(w, x);
    CompleteClears(NoteList(w, x, slots), x, rpc);
  }

  lemma LeaveCaused(w: World, e: Event, u: nat)
    requires Linked(w) && (e.Lobby? || e.Disconnect?)
    ensures Caused(w, e, u)
  {
    hide Linked, LobbyStep;
    LobbyEffect(w, e.u);
    DisconnectEffect(w, e.u);
    if e.u in w.players && w.players[e.u].trade.status != Idle {
      SidesMeet(w, e.u);
    }
    hide DisconnectStep;
  }

  lemma OutsideCaused(w: World, e: Event, u: nat)
    requires e.ListChars? || e.Enter? || e.Other?
    ensures Caused(w, e, u)
  {
    hide RowsOf, StoreRows, Loaded;
    assert TradeOf(Trade.Step(w, e), u) == TradeOf(w, u);
  }

  /** Nothing about a trade changes but for one of these reasons. */
  lemma EveryChangeCaused(w: World, e: Event, u: nat)
    requires Linked(w)
    ensures Caused(w, e, u)
  {
    hide Linked, Trade.Step, Caused;
    match e
    case Request(x, v, c) => RequestCaused(w, x, v, c, u);
    case OpenEvent(x, a) => AnswerCaused(w, x, a, u);
    case CloseEvent(x, a) => CloseCaused(w, x, a, u);
    case AddItem(x, s, t) => AddItemCaused(w, x, s, t, u);
    case AddAlz(x, n) => AddAlzCaused(w, x, n, u);
    case RemoveItem(x, t, s) => RemoveItemCaused(w, x, t, s, u);
    case RequestList(x, slots, rpc) => ListCaused(w, x, slots, rpc, u);
    case Lobby(x) => LeaveCaused(w, e, u);
    case Disconnect(x) => LeaveCaused(w, e, u);
    case _ => OutsideCaused(w, e, u);
  }

  // --- Over whole runs. ---

  /** In a trade, on this side of it and with this opponent. */
  predicate Beside(t: TradeState, role: Role, opponent: nat) {
    t.status != Idle && t.role == role && t.opponent == opponent
  }

  lemma IdleIsEmpty(w: World, u: nat)
    requires Linked(w)
    ensures TradeOf(w, u).status == Idle <==> TradeOf(w, u) == NO_TRADE
  {
    if u in w.players {
      assert LinkOk(w, u);
    }
  }

  lemma SidesCaused(w: World, e: Event, u: nat)
    requires Linked(w) && TradeOf(Trade.Step(w, e), u).status != Idle
    ensures var t, t' := TradeOf(w, u), TradeOf(Trade.Step(w, e), u);
            && (t.status != Idle ==> Beside(t, t'.role, t'.opponent))
            && (t.status == Idle ==>
                 && t'.status == Pending && e.Request?
                 && e.u == (if t'.role == Requester then u else t'.opponent)
                 && e.target == (if t'.role == Requester then t'.opponent else u))
            && (t.status != Open && t'.status == Open ==>
                 && t.status == Pending && e == OpenEvent(if t'.role == Target then u else t'.opponent, Accept))
  {
    EveryChangeCaused(w, e, u);
    IdleIsEmpty(w, u);
    hide Trade.Step, ItemsFollow, AlzFollows, Linked, Edits, Ends;
  }

  /** Whoever is in a trade has asked for it, or its opponent has asked it: the side it is on says which, and the trade
      has stood between these two since. */
  lemma {:induction false} AskedBefore(w: World, es: seq<Event>, n: nat, u: nat) returns (k: nat)
    requires Linked(w) && n <= |es| && TradeOf(w, u) == NO_TRADE && TradeOf(After(w, es, n), u).status != Idle
    ensures var t := TradeOf(After(w, es, n), u);
            && k < n && es[k].Request?
            && es[k].u == (if t.role == Requester then u else t.opponent)
            && es[k].target == (if t.role == Requester then t.opponent else u)
            && forall m :: k < m <= n ==> Beside(TradeOf(After(w, es, m), u), t.role, t.opponent)
    decreases n
  {
    hide Trade.Step, Linked, After, TradeOf;
    AfterIs(w, es, n);
    var before := After(w, es, n - 1);
    LinkedAlways(w, es, n - 1);
    SidesCaused(before, es[n - 1], u);
    if TradeOf(before, u).status == Idle {
      k := n - 1;
    } else {
      k := AskedBefore(w, es, n - 1, u);
    }
  }

  /** An open trade was accepted by the side that had been asked, while the request stood, and has been open since. */
  lemma {:induction false} AcceptedBefore(w: World, es: seq<Event>, n: nat, u: nat) returns (k: nat)
    requires Linked(w) && n <= |es| && TradeOf(w, u) == NO_TRADE && TradeOf(After(w, es, n), u).status == Open
    ensures var t := TradeOf(After(w, es, n), u);
            && k < n && es[k] == OpenEvent(if t.role == Target then u else t.opponent, Accept)
            && TradeOf(After(w, es, k), u).status == Pending && Beside(TradeOf(After(w, es, k), u), t.role, t.opponent)
            && forall m :: k < m <= n ==>
                 TradeOf(After(w, es, m), u).status == Open && Beside(TradeOf(After(w, es, m), u), t.role, t.opponent)
    decreases n
  {
    hide Trade.Step, Linked, After, TradeOf;
    AfterIs(w, es, n);
    var before := After(w, es, n - 1);
    LinkedAlways(w, es, n - 1);
    SidesCaused(before, es[n - 1], u);
    if TradeOf(before, u).status == Open {
      k := AcceptedBefore(w, es, n - 1, u);
    } else {
      k := n - 1;
    }
  }

  /** In every run a trade is open only if one player asked another and that other accepted. */
  lemma OpenedByBoth(w: World, es: seq<Event>, n: nat, u: nat) returns (i: nat, k: nat)
    requires Linked(w) && n <= |es| && TradeOf(w, u) == NO_TRADE && TradeOf(After(w, es, n), u).status == Open
    ensures i < k < n && es[i].Request? && es[k] == OpenEvent(es[i].target, Accept)
    ensures var v := TradeOf(After(w, es, n), u).opponent;
            (es[i].u == u && es[i].target == v) || (es[i].u == v && es[i].target == u)
    ensures forall m :: i < m <= n ==> TradeOf(After(w, es, m), u).status != Idle
  {
    hide Trade.Step, Linked, After, TradeOf;
    k := AcceptedBefore(w, es, n, u);
    i := AskedBefore(w, es, k, u);
    LinkedAlways(w, es, n);
    SideIsOne(After(w, es, n), u);
  }

  lemma SideIsOne(w: World, u: nat)
    requires Linked(w) && TradeOf(w, u).status != Idle
    ensures TradeOf(w, u).role == Requester || TradeOf(w, u).role == Target
  {
    SidesMeet(w, u);
  }

  function ItemsOf(w: World, u: nat): seq<Offer> { TradeOf(w, u).items }

  /** An offer comes from its owner's packet and from its owner's inventory at that moment; it goes by its owner's
      packet or with the trade. */
  lemma OfferCaused(w: World, e: Event, u: nat, o: Offer)
    requires Linked(w)
    ensures o in ItemsOf(Trade.Step(w, e), u) && o !in ItemsOf(w, u) ==>
              && e == AddItem(u, o.slot, o.tradeSlot) && u in w.players
              && o.slot in w.players[u].inventory && w.players[u].inventory[o.slot] == o.goods
    ensures o in ItemsOf(w, u) && o !in ItemsOf(Trade.Step(w, e), u) ==>
              e == RemoveItem(u, o.tradeSlot, o.slot) || (TradeOf(Trade.Step(w, e), u) == NO_TRADE && Ends(w, e, u))
  {
    hide Trade.Step, Linked, AlzFollows, CanOffer, Ends;
    EveryChangeCaused(w, e, u);
    var was, now := ItemsOf(w, u), ItemsOf(Trade.Step(w, e), u);
    if u in w.players && Edits(w, e, u) && ItemsFollow(w, e, u, now) {
      if e.RemoveItem? && o in was && o !in now {
        var i :| OffersAt(was, i, e.tradeSlot, e.slot) && now == was[..i] + was[i + 1..];
        OnlyAt(was, i, o);
      }
    }
  }

  lemma OnlyAt(was: seq<Offer>, i: int, o: Offer)
    requires 0 <= i < |was| && o in was
    ensures was[i] == o || o in was[..i] + was[i + 1..]
  {
    var k :| 0 <= k < |was| && was[k] == o;
    var now := was[..i] + was[i + 1..];
    assert k < i ==> now[k] == o;
    assert k > i ==> now[k - 1] == o;
  }

  /** Over every run each offer was made by its owner, of what lay in that slot then, and has been on offer since. */
  lemma {:induction false} OfferedBefore(w: World, es: seq<Event>, n: nat, u: nat, o: Offer) returns (k: nat)
    requires Linked(w) && n <= |es| && TradeOf(w, u) == NO_TRADE && o in ItemsOf(After(w, es, n), u)
    ensures k < n && es[k] == AddItem(u, o.slot, o.tradeSlot)
    ensures var made := After(w, es, k);
            u in made.players && o.slot in made.players[u].inventory && made.players[u].inventory[o.slot] == o.goods
    ensures forall m :: k < m <= n ==> o in ItemsOf(After(w, es, m), u)
    decreases n
  {
    hide Trade.Step, Linked, After;
    AfterIs(w, es, n);
    var before := After(w, es, n - 1);
    LinkedAlways(w, es, n - 1);
    OfferCaused(before, es[n - 1], u, o);
    hide ItemsOf;
    if o in ItemsOf(before, u) {
      k := OfferedBefore(w, es, n - 1, u, o);
    } else {
      k := n - 1;
    }
  }

  /** The step is an amount of Alz set by `u` that is taken. */
  predicate SetsAlz(w: World, e: Event, u: nat) {
    e.AddAlz? && e.u == u && Editable(w, u) && 0 <= e.amount <= w.players[u].alz
  }

  lemma AlzCaused(w: World, e: Event, u: nat)
    requires Linked(w)
    ensures var t, t' := TradeOf(w, u), TradeOf(Trade.Step(w, e), u);
            && (SetsAlz(w, e, u) ==> t'.alz == e.amount)
            && (!SetsAlz(w, e, u) ==> t'.alz == t.alz || t' == NO_TRADE)
  {
    hide Linked, ItemsFollow;
    if SetsAlz(w, e, u) {
      AddAlzEffect(w, u, e.amount);
      hide AddAlzStep;
    } else {
      hide Trade.Step;
      EveryChangeCaused(w, e, u);
    }
  }

  /** Over every run the Alz a player offers is the last amount it set. */
  lemma {:induction false} AlzSetBefore(w: World, es: seq<Event>, n: nat, u: nat) returns (k: nat)
    requires Linked(w) && n <= |es| && TradeOf(w, u) == NO_TRADE && TradeOf(After(w, es, n), u).alz > 0
    ensures k < n && es[k] == AddAlz(u, TradeOf(After(w, es, n), u).alz) && SetsAlz(After(w, es, k), es[k], u)
    ensures forall m :: k < m < n ==> !SetsAlz(After(w, es, m), es[m], u)
    decreases n
  {
    hide Trade.Step, Linked, After, TradeOf, SetsAlz;
    AfterIs(w, es, n);
    var before := After(w, es, n - 1);
    LinkedAlways(w, es, n - 1);
    AlzCaused(before, es[n - 1], u);
    if SetsAlz(before, es[n - 1], u) {
      k := n - 1;
      IsAddAlz(before, es[n - 1], u);
    } else {
      k := AlzSetBefore(w, es, n - 1, u);
    }
  }

  lemma IsAddAlz(w: World, e: Event, u: nat)
    requires SetsAlz(w, e, u)
    ensures e == AddAlz(u, e.amount)
  {
  }
}
