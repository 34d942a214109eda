/** What each trade packet does, seen from outside: when it takes effect, what it leaves on either side, and that
    everything else stands. */
module TradeEffects {
  import opened Economy
  import opened Trade
  import opened TradeSafety
  import opened TradeApproval
  import opened TradeMirror

  /** Nothing but the trades of these two sides may differ. */
  predicate OnlySides(w: World, w': World, u: nat, v: nat) {
    && w'.players.Keys == w.players.Keys && w'.rosters == w.rosters && w'.db == w.db
    && forall x :: x in w.players ==>
         && w'.players[x].(trade := w.players[x].trade) == w.players[x]
         && (x != u && x != v ==> w'.players[x] == w.players[x])
  }

  /** Two idle players stand in a request afterwards: the sender asks, the one named is asked. Otherwise nothing
      happens. */
  predicate Asked(w: World, w': World, u: nat, v: nat, c: int) {
    if && u in w.players && v in w.players && u != v && w.players[u].charId > 0 && w.players[v].charId == c
       && w.players[u].trade.status == Idle && w.players[v].trade.status == Idle
    then
      && OnlySides(w, w', u, v)
      && w'.players[u].trade == TradeState(Pending, Requester, v, c, [], 0, false, [])
      && w'.players[v].trade == TradeState(Pending, Target, u, w.players[u].charId, [], 0, false, [])
    else w' == w
  }

  lemma RequestEffect(w: World, u: nat, v: nat, c: int)
    ensures Asked(w, RequestStep(w, u, v, c), u, v, c)
  {
  }

  /** The sender of this answer is on the side it is for: only who asked may withdraw, and only who was asked may
      accept or reject. */
  predicate MayAnswer(w: World, u: nat, a: OpenAction) {
    && u in w.players && w.players[u].trade.status == Pending
    && (a == RequestCancel <==> w.players[u].trade.role == Requester)
    && w.players[u].trade.opponent in w.players
    && w.players[w.players[u].trade.opponent].trade.opponentChar == w.players[u].charId
  }

  lemma AnswerEffect(w: World, u: nat, a: OpenAction)
    requires Linked(w)
    ensures var w' := OpenStep(w, u, a);
            if MayAnswer(w, u, a) then
              var v := w.players[u].trade.opponent;
              && OnlySides(w, w', u, v) && v != u
              && (a == Accept ==>
                   && w'.players[u].trade == w.players[u].trade.(status := Open)
                   && w'.players[v].trade == w.players[v].trade.(status := Open))
              && (a != Accept ==> w'.players[u].trade == NO_TRADE && w'.players[v].trade == NO_TRADE)
            else w' == w
  {
    AnswerGuard(w, u, a);
    if CanAnswer(w, u, a) {
      SetBoth(w, u, Peer(w, u), w.players[u].trade.(status := Open), w.players[Peer(w, u)].trade.(status := Open));
      SetBoth(w, u, Peer(w, u), NO_TRADE, NO_TRADE);
      CanAnswerMeans(w, u, a);
    }
    hide Linked, MayAnswer, CanAnswer, SetTrade, OnlySides;
  }

  lemma CanAnswerMeans(w: World, u: nat, a: OpenAction)
    requires CanAnswer(w, u, a)
    ensures u in w.players && Peer(w, u) in w.players && Peer(w, u) != u
  {
  }

  lemma SetBoth(w: World, u: nat, v: nat, t: TradeState, t': TradeState)
    requires u in w.players && v in w.players && u != v
    ensures var w' := SetTrade(SetTrade(w, u, t), v, t');
            OnlySides(w, w', u, v) && w'.players[u].trade == t && w'.players[v].trade == t'
  {
  }

  lemma AnswerGuard(w: World, u: nat, a: OpenAction)
    requires Linked(w)
    ensures CanAnswer(w, u, a) <==> MayAnswer(w, u, a)
  {
    if u in w.players {
      assert LinkOk(w, u);
    }
  }


  /** Submitting and withdrawing set exactly the sender's approval; a cancel ends the trade on both sides. */
  lemma CloseEffect(w: World, u: nat, a: CloseAction)
    requires Linked(w)
    ensures var w' := CloseStep(w, u, a);
            if u in w.players && w.players[u].trade.status == Open then
              var v := w.players[u].trade.opponent;
              && v in w.players && v != u && OnlySides(w, w', u, v)
              && (a == TradeCancel ==> w'.players[u].trade == NO_TRADE && w'.players[v].trade == NO_TRADE)
              && (a != TradeCancel ==>
                   && w'.players[u].trade == w.players[u].trade.(submitted := a == Submit)
                   && w'.players[v].trade == w.players[v].trade)
            else w' == w
  {
    if u in w.players {
      assert LinkOk(w, u);
    }
  }

  /** The trade window is open for edits by `u`. */
  predicate Editable(w: World, u: nat) {
    u in w.players && w.players[u].trade.status == Open && !w.players[u].trade.submitted
  }

  /** The offer of `u` is now this, nothing else about the trade but the other side's approval has changed. */
  predicate Offered(w: World, w': World, u: nat, items: seq<Offer>, alz: U64)
    requires u in w.players
  {
    var v := w.players[u].trade.opponent;
    && v in w.players && v != u && OnlySides(w, w', u, v)
    && w'.players[u].trade == w.players[u].trade.(items := items, alz := alz)
    && w'.players[v].trade == w.players[v].trade.(submitted := false)
  }

  predicate CanOffer(p: Player, slot: Slot, tradeSlot: nat) {
    && slot <= 255 && tradeSlot <= 255 && slot in p.inventory && p.inventory[slot].kind != 0
    && forall i :: 0 <= i < |p.trade.items| ==> p.trade.items[i].slot != slot && p.trade.items[i].tradeSlot != tradeSlot
  }

  lemma EditEffect(w: World, u: nat, items: seq<Offer>, alz: U64)
    requires Linked(w) && Editable(w, u)
    ensures InWindow(w, u, true)
    ensures Offered(w, Edit(w, u, w.players[u].trade.(items := items, alz := alz)), u, items, alz)
  {
    assert LinkOk(w, u);
  }

  lemma WindowIsEditable(w: World, u: nat)
    requires Linked(w)
    ensures InWindow(w, u, true) <==> Editable(w, u)
  {
    if u in w.players {
      assert LinkOk(w, u);
    }
  }

  /** A new offer is what lies in the slot at that moment, behind the earlier ones. */
  lemma AddItemEffect(w: World, u: nat, slot: Slot, tradeSlot: nat)
    requires Linked(w)
    ensures var w' := AddItemStep(w, u, slot, tradeSlot);
            if Editable(w, u) && CanOffer(w.players[u], slot, tradeSlot) then
              var p := w.players[u];
              Offered(w, w', u, p.trade.items + [Offer(slot, p.inventory[slot], tradeSlot)], p.trade.alz)
            else w' == w
  {
    WindowIsEditable(w, u);
    if Editable(w, u) {
      var p := w.players[u];
      EditEffect(w, u, p.trade.items + [Offer(slot, Get(p.inventory, slot), tradeSlot)], p.trade.alz);
    }
    hide Linked, InWindow, Edit, Offered, Editable;
  }

  lemma AddAlzEffect(w: World, u: nat, amount: int)
    requires Linked(w)
    ensures var w' := AddAlzStep(w, u, amount);
            if Editable(w, u) && 0 <= amount <= w.players[u].alz then
              Offered(w, w', u, w.players[u].trade.items, amount)
            else w' == w
  {
    WindowIsEditable(w, u);
    if Editable(w, u) && 0 <= amount <= w.players[u].alz {
      EditEffect(w, u, w.players[u].trade.items, amount);
    }
    hide Linked, InWindow, Edit, Offered;
  }

  predicate OffersAt(items: seq<Offer>, i: int, tradeSlot: nat, slot: Slot) {
    0 <= i < |items| && items[i].tradeSlot == tradeSlot && items[i].slot == slot
  }

  /** Exactly the offer in both places goes, and the others keep their order. */
  lemma RemoveItemEffect(w: World, u: nat, tradeSlot: nat, slot: Slot, i: int)
    requires Linked(w) && Editable(w, u) && OffersAt(w.players[u].trade.items, i, tradeSlot, slot)
    ensures var t := w.players[u].trade;
            Offered(w, RemoveItemStep(w, u, tradeSlot, slot), u, t.items[..i] + t.items[i + 1..], t.alz)
  {
    hide Linked, InWindow, Edit, Offered, OfferIndex;
    var t := w.players[u].trade;
    WindowIsEditable(w, u);
    OnlyOneAt(w, u, tradeSlot, slot);
    EditEffect(w, u, t.items[..i] + t.items[i + 1..], t.alz);
  }

  /** Nothing happens without such an offer, or outside the window. */
  lemma NothingRemoved(w: World, u: nat, tradeSlot: nat, slot: Slot)
    requires Linked(w) && (Editable(w, u) ==> forall i :: !OffersAt(w.players[u].trade.items, i, tradeSlot, slot))
    ensures RemoveItemStep(w, u, tradeSlot, slot) == w
  {
    hide Linked, InWindow, Edit, OfferIndex, OffersAt;
    WindowIsEditable(w, u);
    if Editable(w, u) {
      OnlyOneAt(w, u, tradeSlot, slot);
      var items := w.players[u].trade.items;
      assert !OffersAt(items, OfferIndex(items, tradeSlot, slot), tradeSlot, slot);
    }
  }

  /** There is at most one such offer, and the search finds it. */
  lemma OnlyOneAt(w: World, u: nat, tradeSlot: nat, slot: Slot)
    requires Linked(w) && Editable(w, u)
    ensures var items := w.players[u].trade.items;
            var k := OfferIndex(items, tradeSlot, slot);
            forall i :: OffersAt(items, i, tradeSlot, slot) <==> k < |items| && i == k
  {
    assert LinkOk(w, u);
    var items := w.players[u].trade.items;
    OfferIndexIsFirst(items, tradeSlot, slot);
    var k := OfferIndex(items, tradeSlot, slot);
    hide OfferIndex, Linked, LinkOk;
    forall i ensures OffersAt(items, i, tradeSlot, slot) <==> k < |items| && i == k {
      assert 0 <= i < |items| ==> (Matches(items[i], tradeSlot, slot) <==> OffersAt(items, i, tradeSlot, slot));
    }
  }

  /** Taking an offer back undoes it, but for the other side's approval. */
  lemma RemoveUndoesAdd(w: World, u: nat, slot: Slot, tradeSlot: nat)
    requires Linked(w) && Editable(w, u) && CanOffer(w.players[u], slot, tradeSlot)
    ensures var w' := RemoveItemStep(AddItemStep(w, u, slot, tradeSlot), u, tradeSlot, slot);
            Offered(w, w', u, w.players[u].trade.items, w.players[u].trade.alz)
  {
    hide AddItemStep, RemoveItemStep, Linked, CanOffer;
    var half := AddItemStep(w, u, slot, tradeSlot);
    AddItemEffect(w, u, slot, tradeSlot);
    AddItemKeepsLinks(w, u, slot, tradeSlot);
    var items, n := half.players[u].trade.items, |w.players[u].trade.items|;
    SlotThere(w.players[u], slot, tradeSlot);
    assert OffersAt(items, n, tradeSlot, slot);
    RemoveItemEffect(half, u, tradeSlot, slot, n);
    assert items[..n] + items[n + 1..] == w.players[u].trade.items;
  }

  lemma SlotThere(p: Player, slot: Slot, tradeSlot: nat)
    requires CanOffer(p, slot, tradeSlot)
    ensures slot in p.inventory && p.inventory[slot].kind != 0
  {
  }

  // --- Destination lists and the exchange. ---

  /** When a destination list is taken: both sides have submitted, and it names for each of the other side's offers a
      free slot of its own. */
  lemma ListAccepted(w: World, u: nat, slots: seq<Slot>)
    requires Linked(w)
    ensures AcceptsList(w, u, slots) <==>
            && u in w.players && w.players[u].trade.status == Open && w.players[u].trade.submitted
            && var v := w.players[u].trade.opponent;
            && v in w.players && w.players[v].trade.submitted && |slots| == |w.players[v].trade.items| <= 255
            && (forall i, j :: 0 <= i < j < |slots| ==> slots[i] != slots[j])
            && forall i :: 0 <= i < |slots| ==>
                 slots[i] <= 255 && (slots[i] in w.players[u].inventory ==> w.players[u].inventory[slots[i]].kind == 0)
  {
    if u in w.players {
      assert LinkOk(w, u);
    }
  }

  /** An accepted list that is the first to come is noted, and nothing else happens. */
  lemma ListNoted(w: World, u: nat, slots: seq<Slot>, rpc: Rpc)
    requires Linked(w) && AcceptsList(w, u, slots)
    requires var v := Peer(w, u); |w.players[v].trade.destinations| != |w.players[u].trade.items|
    ensures var w' := RequestListStep(w, u, slots, rpc);
            && OnlySides(w, w', u, u)
            && w'.players[u].trade == w.players[u].trade.(destinations := slots)
  {
  }

  /** What one side of an exchange that is carried out holds afterwards: the balance the Master names, the incoming
      items in the slots it chose, and of its own everything it did not offer. */
  predicate Settled(p: Player, incoming: seq<Offer>, slots: seq<Slot>, alz: U64, after: Player)
    requires |incoming| == |slots|
  {
    && after.charId == p.charId && after.alz == alz && after.trade == NO_TRADE
    && (forall i :: 0 <= i < |slots| ==> slots[i] in after.inventory && after.inventory[slots[i]] == incoming[i].goods)
    && (forall s :: s in after.inventory && s !in slots ==> s in p.inventory && after.inventory[s] == p.inventory[s])
    && (forall s :: s in p.inventory && s !in slots ==>
          (s in after.inventory <==> forall i :: 0 <= i < |p.trade.items| ==> p.trade.items[i].slot != s))
  }

  lemma SettlesAs(p: Player, incoming: seq<Offer>, alz: U64)
    requires |incoming| == |p.trade.destinations| && Distinct(p.trade.destinations)
    ensures Settled(p, incoming, p.trade.destinations, alz, Settle(p, incoming, alz))
  {
    LandedContents(incoming, p.trade.destinations);
    hide Landed;
    var slots := p.trade.destinations;
    forall s ensures s in SlotSet(slots) <==> s in slots {
      if s in slots {
        var i :| 0 <= i < |slots| && slots[i] == s;
      }
    }
  }

  /** An accepted list that is the second to come puts the exchange to the Master, at most once, and ends the trade on
      both sides; both sides settle exactly when the Master answers that it has carried it out. */
  lemma ListCompletes(w: World, u: nat, slots: seq<Slot>, rpc: Rpc)
    requires Linked(w) && AcceptsList(w, u, slots)
    requires var v := Peer(w, u); |w.players[v].trade.destinations| == |w.players[u].trade.items|
    ensures var v, w' := Peer(w, u), RequestListStep(w, u, slots, rpc);
            var r := Exchange(NoteList(w, u, slots), u);
            var (db, reply) := TradeItems(w.db, r);
            && w'.db == (if rpc == Unreachable then w.db else db)
            && w'.players.Keys == w.players.Keys && w'.rosters == w.rosters
            && (forall x :: x in w.players && x != u && x != v ==> w'.players[x] == w.players[x])
            && (rpc == Answered && reply.Traded? ==>
                 && Settled(w.players[u], w.players[v].trade.items, slots, reply.firstAlz, w'.players[u])
                 && Settled(w.players[v], w.players[u].trade.items, w.players[v].trade.destinations, reply.secondAlz,
                            w'.players[v]))
            && (!(rpc == Answered && reply.Traded?) ==>
                 && w'.players[u] == w.players[u].(trade := NO_TRADE)
                 && w'.players[v] == w.players[v].(trade := NO_TRADE))
  {
    hide TradeItems, Settle, Exchange, Settled;
    assert LinkOk(w, u) && LinkOk(w, Peer(w, u));
    hide Linked;
    var noted := NoteList(w, u, slots);
    var p, q := noted.players[u], noted.players[Peer(w, u)];
    var reply := TradeItems(w.db, Exchange(noted, u)).1;
    if rpc == Answered && reply.Traded? {
      SettlesAs(p, q.trade.items, reply.firstAlz);
      SettlesAs(q, p.trade.items, reply.secondAlz);
      NotedSettles(w.players[u], slots, q.trade.items, reply.firstAlz, Settle(p, q.trade.items, reply.firstAlz));
    }
  }

  /** Naming the destinations changes nothing that settling looks at besides. */
  lemma NotedSettles(p: Player, slots: seq<Slot>, incoming: seq<Offer>, alz: U64, after: Player)
    requires |incoming| == |slots|
    ensures Settled(p.(trade := p.trade.(destinations := slots)), incoming, slots, alz, after)
            <==> Settled(p, incoming, slots, alz, after)
  {
  }

  // --- Leaving and entering. ---

  /** Whoever leaves is out of its trade, and so is the other side; the cached list is dropped. */
  lemma LobbyEffect(w: World, u: nat)
    requires Linked(w)
    ensures var w' := LobbyStep(w, u);
            && u !in w'.rosters && w'.rosters == w.rosters - {u} && w'.db == w.db
            && (u !in w.players ==> w'.players == w.players)
            && (u in w.players ==>
                 && OnlySides(w, w'.(rosters := w.rosters), u, w.players[u].trade.opponent)
                 && w'.players[u].trade == NO_TRADE
                 && (w.players[u].trade.status != Idle ==>
                      w.players[u].trade.opponent in w.players
                      && w'.players[w.players[u].trade.opponent].trade == NO_TRADE)
                 && (w.players[u].trade.status == Idle ==> w'.players == w.players))
  {
    if u in w.players {
      assert LinkOk(w, u);
      if w.players[u].trade.status != Idle {
        assert LinkOk(w, w.players[u].trade.opponent);
      }
    }
  }

  lemma DisconnectEffect(w: World, u: nat)
    ensures var w' := DisconnectStep(w, u);
            u !in w'.players && w'.players == LobbyStep(w, u).players - {u} && u !in w'.rosters
            && w'.rosters == w.rosters - {u} && w'.db == w.db
  {
  }

  /** The session holds the character as the Master has it now. */
  ghost predicate Current(w: World, u: nat, c: int) {
    u in w.players && w.players[u].charId == c && PlayerMirrors(w, u)
  }

  /** Entering touches no other session and no trade; a character that is not on the list is not entered. */
  lemma EnterEffect(w: World, u: nat, c: int)
    ensures var w' := EnterStep(w, u, c);
            && w'.db == w.db
            && (forall x :: x != u && x in w.players ==> x in w'.players && w'.players[x] == w.players[x])
            && (Admitted(w, u, c) ==>
                 u in w'.players && w'.players[u].charId == c && w'.players[u].trade == TradeOf(w, u))
            && (!Admitted(w, u, c) ==> w'.players == w.players)
  {
    hide Loaded, RowsOf;
  }

  /** A character entered right after its account's list was loaded, or after the lobby dropped the list, is as the
      Master has it: only an older list can make an entry stale. */
  lemma FreshEntry(w: World, u: nat, c: int)
    requires u !in w.rosters || w.rosters[u] == map[] || w.rosters[u] == Loaded(w.db, c / 8)
    ensures var w' := EnterStep(w, u, c);
            && (c in w.db.alz ==> Current(w', u, c))
            && (c !in w.db.alz ==> w'.players == w.players)
  {
    LoadedHolds(w.db, c);
    EnterEffect(w, u, c);
    if c in w.db.alz {
      EnteredMirrors(w, u, c);
    }
    hide RowsOf, Loaded;
  }

  lemma LoadedHolds(db: Db, c: int)
    ensures (c in Loaded(db, c / 8) <==> c in db.alz) && (c in db.alz ==> Loaded(db, c / 8)[c] == db.alz[c])
  {
  }

  lemma EntryAfterLobbyOrList(w: World, u: nat, c: int)
    requires c in w.db.alz
    ensures Current(EnterStep(LobbyStep(w, u), u, c), u, c)
    ensures Current(EnterStep(ListStep(w, u, c / 8), u, c), u, c)
  {
    hide Current, Loaded, EnterStep;
    FreshEntry(LobbyStep(w, u), u, c);
    FreshEntry(ListStep(w, u, c / 8), u, c);
  }
}
