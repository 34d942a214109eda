/** A committed trade exchanges exactly what both sides last approved. */
module TradeApproval {
  import opened Options
  import opened Economy
  import opened Trade
  import opened TradeSafety

  predicate Submitted(w: World, u: nat) {
    u in w.players && w.players[u].trade.submitted
  }

  /** Everything a player faces when pressing submit: both offers, and the two characters behind them. */
  datatype Deal = Deal(opponent: nat, myChar: int, theirChar: int, mine: seq<Offer>, myAlz: U64,
                       theirs: seq<Offer>, theirAlz: U64)

  /** The same offers between the same sessions, whoever their characters are. */
  predicate SameTerms(a: Deal, b: Deal) {
    a.(myChar := b.myChar, theirChar := b.theirChar) == b
  }

  function DealOf(w: World, u: nat): Deal
    requires Paired(w, u)
  {
    var p, q := w.players[u], w.players[Peer(w, u)];
    Deal(Peer(w, u), p.charId, q.charId, p.trade.items, p.trade.alz, q.trade.items, q.trade.alz)
  }

  lemma SubmittedPaired(w: World, u: nat)
    requires Linked(w) && Submitted(w, u)
    ensures Paired(w, u) && InWindow(w, u, false)
  {
    assert LinkOk(w, u);
  }

  /** A step that edits an offer: the deal may change only for the two involved, and neither is left submitted. */
  lemma EditWithdraws(w: World, x: nat, t: TradeState, u: nat)
    requires Linked(w) && InWindow(w, x, true) && !t.submitted
    requires t.status == Open && t.opponent == Peer(w, x)
    requires Submitted(w, u) && Submitted(Edit(w, x, t), u)
    ensures Paired(Edit(w, x, t), u) && DealOf(Edit(w, x, t), u) == DealOf(w, u)
  {
    assert LinkOk(w, u) && LinkOk(w, x) && LinkOk(w, Peer(w, x)) && LinkOk(w, Peer(w, u));
  }

  /** Rewriting one trade without touching its offers leaves every deal alone. */
  lemma SameOffers(w: World, x: nat, t: TradeState, u: nat)
    requires Linked(w) && x in w.players && Paired(w, u)
    requires var s := w.players[x].trade; t.(submitted := s.submitted, destinations := s.destinations) == s
    ensures Paired(SetTrade(w, x, t), u) && DealOf(SetTrade(w, x, t), u) == DealOf(w, u)
  {
  }

  /** Changing trades of players other than `u` and its opponent leaves `u`'s deal alone. */
  lemma OthersChanged(w: World, w': World, u: nat)
    requires Paired(w, u) && u in w'.players && Peer(w, u) in w'.players
    requires w'.players[u].trade == w.players[u].trade
    requires w'.players[Peer(w, u)].trade == w.players[Peer(w, u)].trade
    ensures Paired(w', u) && SameTerms(DealOf(w', u), DealOf(w, u))
  {
  }

  ghost predicate DealStands(w: World, w': World, u: nat) {
    Paired(w, u) && Paired(w', u) && SameTerms(DealOf(w', u), DealOf(w, u))
  }

  lemma OpenKeepsDeal(w: World, x: nat, a: OpenAction, u: nat)
    requires Linked(w) && Submitted(w, u) && Submitted(OpenStep(w, x, a), u)
    ensures DealStands(w, OpenStep(w, x, a), u)
  {
    SubmittedPaired(w, u);
    assert LinkOk(w, u) && LinkOk(w, Peer(w, u));
    if CanAnswer(w, x, a) {
      assert LinkOk(w, x);
      OthersChanged(w, OpenStep(w, x, a), u);
    }
  }

  lemma CloseKeepsDeal(w: World, x: nat, a: CloseAction, u: nat)
    requires Linked(w) && Submitted(w, u) && Submitted(CloseStep(w, x, a), u)
    ensures DealStands(w, CloseStep(w, x, a), u)
  {
    SubmittedPaired(w, u);
    var w' := CloseStep(w, x, a);
    assert LinkOk(w, u) && LinkOk(w, Peer(w, u));
    if InWindow(w, x, false) {
      assert LinkOk(w, x) && LinkOk(w, Peer(w, x));
      if a == TradeCancel {
        OthersChanged(w, w', u);
      } else {
        SameOffers(w, x, w'.players[x].trade, u);
      }
    }
  }

  lemma EditsKeepDeal(w: World, e: Event, u: nat)
    requires e.AddItem? || e.AddAlz? || e.RemoveItem?
    requires Linked(w) && Submitted(w, u) && Submitted(Trade.Step(w, e), u)
    ensures DealStands(w, Trade.Step(w, e), u)
  {
    hide OfferExists, OfferIndex, LinkOk;
    SubmittedPaired(w, u);
    var w' := Trade.Step(w, e);
    if w' != w {
      EditWithdraws(w, e.u, w'.players[e.u].trade, u);
    }
  }

  lemma LeaveKeepsDeal(w: World, e: Event, u: nat)
    requires e.Lobby? || e.Disconnect?
    requires Linked(w) && Submitted(w, u) && Submitted(Trade.Step(w, e), u)
    ensures DealStands(w, Trade.Step(w, e), u)
  {
    var x := e.u;
    SubmittedPaired(w, u);
    assert LinkOk(w, u) && LinkOk(w, Peer(w, u));
    if x in w.players {
      assert LinkOk(w, x);
    }
    OthersChanged(w, Trade.Step(w, e), u);
  }

  /** While a player stays submitted, no step changes what either side offers. */
  lemma DealKept(w: World, e: Event, u: nat)
    requires Linked(w) && Submitted(w, u) && Submitted(Trade.Step(w, e), u)
    ensures DealStands(w, Trade.Step(w, e), u)
  {
    hide RequestListStep, OpenStep, CloseStep, AddItemStep, AddAlzStep, RemoveItemStep, LobbyStep, DisconnectStep;
    hide EnterStep, ListStep, RowsOf, StoreRows, LinkOk, SameTerms;
    match e
    case OpenEvent(x, a) => OpenKeepsDeal(w, x, a, u);
    case CloseEvent(x, a) => CloseKeepsDeal(w, x, a, u);
    case AddItem(x, s, t) => EditsKeepDeal(w, e, u);
    case AddAlz(x, n) => EditsKeepDeal(w, e, u);
    case RemoveItem(x, t, s) => EditsKeepDeal(w, e, u);
    case RequestList(x, slots, rpc) => ListKeepsDeal(w, x, slots, rpc, u);
    case Lobby(x) => LeaveKeepsDeal(w, e, u);
    case Disconnect(x) => LeaveKeepsDeal(w, e, u);
    case _ => QuietKeepsDeal(w, e, u);
  }

  lemma QuietKeepsDeal(w: World, e: Event, u: nat)
    requires e.ListChars? || e.Enter? || e.Request? || e.Other?
    requires Linked(w) && Submitted(w, u)
    ensures DealStands(w, Trade.Step(w, e), u)
  {
    hide RowsOf, StoreRows;
    SubmittedPaired(w, u);
    assert LinkOk(w, u) && LinkOk(w, Peer(w, u));
    OthersChanged(w, Trade.Step(w, e), u);
  }

  /** Commit or abort, both trades end and nobody else's is touched. */
  lemma CompleteClears(w: World, x: nat, rpc: Rpc)
    requires Ready(w, x) && |w.players[x].trade.destinations| == |w.players[Peer(w, x)].trade.items|
    ensures var w' := Complete(w, x, rpc);
            && w'.players.Keys == w.players.Keys
            && w'.players[x].trade == NO_TRADE && w'.players[Peer(w, x)].trade == NO_TRADE
            && forall y :: y in w.players && y != x && y != Peer(w, x) ==> w'.players[y] == w.players[y]
  {
    hide TradeItems, Exchange, Settle;
    var v := Peer(w, x);
    var reply := TradeItems(w.db, Exchange(w, x)).1;
    if reply.Traded? {
      SettleKeepsName(w.players[x], w.players[v].trade.items, reply.firstAlz);
      SettleKeepsName(w.players[v], w.players[x].trade.items, reply.secondAlz);
    }
  }

  lemma ListSubmitsNobody(w: World, x: nat, slots: seq<Slot>, rpc: Rpc, u: nat)
    requires Submitted(RequestListStep(w, x, slots, rpc), u)
    ensures Submitted(w, u)
  {
    hide Complete;
    if AcceptsList(w, x, slots) && Ready(NoteList(w, x, slots), x) {
      CompleteClears(NoteList(w, x, slots), x, rpc);
    }
  }

  lemma ListKeepsDeal(w: World, x: nat, slots: seq<Slot>, rpc: Rpc, u: nat)
    requires Linked(w) && Submitted(w, u) && Submitted(RequestListStep(w, x, slots, rpc), u)
    ensures DealStands(w, RequestListStep(w, x, slots, rpc), u)
  {
    hide Complete;
    SubmittedPaired(w, u);
    var w' := RequestListStep(w, x, slots, rpc);
    if !AcceptsList(w, x, slots) { return; }
    var noted := NoteList(w, x, slots);
    assert LinkOk(w, u) && LinkOk(w, x) && LinkOk(w, Peer(w, x)) && LinkOk(w, Peer(w, u));
    SameOffers(w, x, noted.players[x].trade, u);
    if Ready(noted, x) {
      CompleteClears(noted, x, rpc);
      assert u != x && u != Peer(w, x);
      assert Peer(w, u) != x && Peer(w, u) != Peer(w, x);
      OthersChanged(w, w', u);
    }
  }

  /** Only a player's own submit makes it submitted, and that step changes no offer. */
  lemma OnlySubmitSubmits(w: World, e: Event, u: nat)
    requires Linked(w) && !Submitted(w, u) && Submitted(Trade.Step(w, e), u)
    ensures e == CloseEvent(u, Submit)
    ensures Paired(w, u) && Paired(Trade.Step(w, e), u) && DealOf(w, u) == DealOf(Trade.Step(w, e), u)
  {
    hide RequestListStep, OfferExists, OfferIndex, StoreRows, RowsOf, LinkOk;
    match e {
      case RequestList(x, slots, rpc) => ListSubmitsNobody(w, x, slots, rpc, u);
      case _ =>
    }
  }

  ghost predicate SubmittedThrough(w: World, es: seq<Event>, i: nat, n: nat, u: nat) {
    i <= n <= |es| && forall k :: i <= k <= n ==> Submitted(After(w, es, k), u)
  }

  lemma {:induction false} DealKeptThrough(w: World, es: seq<Event>, i: nat, n: nat, u: nat)
    requires Linked(w) && SubmittedThrough(w, es, i, n, u)
    ensures Paired(After(w, es, i), u) && Paired(After(w, es, n), u)
    ensures SameTerms(DealOf(After(w, es, n), u), DealOf(After(w, es, i), u))
    decreases n
  {
    hide Trade.Step, Linked;
    if n == i {
      LinkedAlways(w, es, n);
      SubmittedPaired(After(w, es, n), u);
    } else {
      assert SubmittedThrough(w, es, i, n - 1, u);
      DealKeptThrough(w, es, i, n - 1, u);
      LinkedAlways(w, es, n - 1);
      assert Submitted(After(w, es, n), u) && Submitted(After(w, es, n - 1), u);
      DealKept(After(w, es, n - 1), es[n - 1], u);
    }
  }

  /** A submitted player has a last submit of its own, and has stayed submitted ever since. */
  lemma {:induction false} LastSubmit(w: World, es: seq<Event>, n: nat, u: nat) returns (i: nat)
    requires Linked(w) && n <= |es| && !Submitted(w, u) && Submitted(After(w, es, n), u)
    ensures i < n && es[i] == CloseEvent(u, Submit) && !Submitted(After(w, es, i), u)
    ensures SubmittedThrough(w, es, i + 1, n, u)
    decreases n
  {
    hide Trade.Step, Linked;
    var before := After(w, es, n - 1);
    LinkedAlways(w, es, n - 1);
    if Submitted(before, u) {
      i := LastSubmit(w, es, n - 1, u);
    } else {
      OnlySubmitSubmits(before, es[n - 1], u);
      i := n - 1;
    }
  }

  /** The step at which an exchange is put to the Master. */
  predicate Commits(w: World, e: Event) {
    e.RequestList? && e.rpc != Unreachable && AcceptsList(w, e.u, e.slots) && Ready(NoteList(w, e.u, e.slots), e.u)
  }

  function Committed(w: World, e: Event): TradeRequest
    requires Commits(w, e)
  {
    Exchange(NoteList(w, e.u, e.slots), e.u)
  }

  /** The request carries these offers, from these players. */
  predicate Carries(r: TradeRequest, firstItems: seq<Offer>, firstAlz: U64, secondItems: seq<Offer>, secondAlz: U64) {
    && r.firstAlz == firstAlz && r.secondAlz == secondAlz
    && |r.firstItems| == |firstItems| && |r.secondItems| == |secondItems|
    && (forall k :: 0 <= k < |firstItems| ==>
          r.firstItems[k].slot == firstItems[k].slot && r.firstItems[k].goods == firstItems[k].goods)
    && (forall k :: 0 <= k < |secondItems| ==>
          r.secondItems[k].slot == secondItems[k].slot && r.secondItems[k].goods == secondItems[k].goods)
  }

  /** In every run that starts with nobody submitted, an exchange put to the Master carries exactly the two
      offers as each player saw them at its own last submit. The characters that pay are those that were there at
      that submit if and only if no other was entered on their sessions since. */
  lemma CommittedWasApproved(w: World, es: seq<Event>, n: nat) returns (i: nat, j: nat)
    requires Linked(w) && n < |es| && (forall x :: !Submitted(w, x)) && Commits(After(w, es, n), es[n])
    ensures var u, v := es[n].u, Peer(After(w, es, n), es[n].u);
            && i < n && es[i] == CloseEvent(u, Submit) && Paired(After(w, es, i), u)
            && j < n && es[j] == CloseEvent(v, Submit) && Paired(After(w, es, j), v)
            && var a, b := DealOf(After(w, es, i), u), DealOf(After(w, es, j), v);
            && a.opponent == v && b.opponent == u
            && Carries(Committed(After(w, es, n), es[n]), a.mine, a.myAlz, a.theirs, a.theirAlz)
            && Carries(Committed(After(w, es, n), es[n]), b.theirs, b.theirAlz, b.mine, b.myAlz)
            && var r := Committed(After(w, es, n), es[n]);
            && (r.first == a.myChar <==> SameCharacter(w, es, i, n, u))
            && (r.second == a.theirChar <==> SameCharacter(w, es, i, n, v))
            && (r.second == b.myChar <==> SameCharacter(w, es, j, n, v))
            && (r.first == b.theirChar <==> SameCharacter(w, es, j, n, u))
  {
    var now := After(w, es, n);
    var u := es[n].u;
    var v := Peer(now, u);
    LinkedAlways(w, es, n);
    BothCommit(now, es[n]);
    hide After, Linked, Committed, Commits, Carries, SameCharacter;
    i := ApprovedAt(w, es, n, u);
    j := ApprovedAt(w, es, n, v);
  }

  /** At a commit both sides are submitted, and the request is made of the deal they face. */
  lemma BothCommit(w: World, e: Event)
    requires Linked(w) && Commits(w, e)
    ensures var u, v := e.u, Peer(w, e.u);
            && Paired(w, u) && Paired(w, v) && Submitted(w, u) && Submitted(w, v) && Peer(w, v) == u
            && var a, b, r := DealOf(w, u), DealOf(w, v), Committed(w, e);
            && Carries(r, a.mine, a.myAlz, a.theirs, a.theirAlz) && Carries(r, b.theirs, b.theirAlz, b.mine, b.myAlz)
            && r.first == a.myChar == b.theirChar && r.second == b.myChar == a.theirChar
  {
    assert LinkOk(w, e.u);
  }

  /** The terms a submitted player faces now are those it faced when it last pressed submit, and either character is
      the same if and only if no other was entered on that session since. */
  lemma ApprovedAt(w: World, es: seq<Event>, n: nat, u: nat) returns (i: nat)
    requires Linked(w) && n <= |es| && !Submitted(w, u) && Submitted(After(w, es, n), u)
    ensures i < n && es[i] == CloseEvent(u, Submit)
    ensures Paired(After(w, es, i), u) && Paired(After(w, es, n), u)
    ensures var was, now := DealOf(After(w, es, i), u), DealOf(After(w, es, n), u);
            && SameTerms(was, now)
            && (now.myChar == was.myChar <==> SameCharacter(w, es, i, n, u))
            && (now.theirChar == was.theirChar <==> SameCharacter(w, es, i, n, now.opponent))
  {
    hide Trade.Step, Linked;
    i := LastSubmit(w, es, n, u);
    LinkedAlways(w, es, i);
    assert Submitted(After(w, es, i + 1), u);
    OnlySubmitSubmits(After(w, es, i), es[i], u);
    var v := Peer(After(w, es, i), u);
    forall k | i <= k <= n ensures u in After(w, es, k).players && v in After(w, es, k).players {
      if k > i {
        DealKeptThrough(w, es, i + 1, k, u);
      }
    }
    DealKeptThrough(w, es, i + 1, n, u);
    CharacterThrough(w, es, i, n, u);
    CharacterThrough(w, es, i, n, v);
  }

  // --- Whose offers they are. ---

  /** The step puts a character on session `u`. */
  predicate Enters(w: World, e: Event, u: nat) {
    e.Enter? && e.u == u && Admitted(w, u, e.charId)
  }

  lemma CharacterStep(w: World, e: Event, u: nat)
    requires u in w.players && u in Trade.Step(w, e).players
    ensures Trade.Step(w, e).players[u].charId == if Enters(w, e, u) then e.charId else w.players[u].charId
  {
    hide OfferExists, OfferIndex, StoreRows, RowsOf, RequestListStep, AddItemStep, AddAlzStep, RemoveItemStep,
      EnterStep;
    match e {
      case RequestList(x, slots, rpc) => ListKeepsCharacters(w, x, slots, rpc, u);
      case AddItem(x, s, t) => EditKeepsCharacters(w, e, u);
      case AddAlz(x, n) => EditKeepsCharacters(w, e, u);
      case RemoveItem(x, t, s) => EditKeepsCharacters(w, e, u);
      case Enter(x, c) => EnterSetsCharacter(w, x, c, u);
      case _ =>
    }
  }

  lemma EnterSetsCharacter(w: World, x: nat, c: int, u: nat)
    requires u in w.players
    ensures var w' := EnterStep(w, x, c);
            u in w'.players && w'.players[u].charId == if x == u && Admitted(w, u, c) then c else w.players[u].charId
  {
    hide RowsOf, Loaded;
  }

  lemma EditKeepsCharacters(w: World, e: Event, u: nat)
    requires u in w.players && (e.AddItem? || e.AddAlz? || e.RemoveItem?)
    ensures u in Trade.Step(w, e).players && Trade.Step(w, e).players[u].charId == w.players[u].charId
  {
    hide OfferExists, OfferIndex;
  }

  lemma ListKeepsCharacters(w: World, x: nat, slots: seq<Slot>, rpc: Rpc, u: nat)
    requires u in w.players
    ensures var w' := RequestListStep(w, x, slots, rpc);
            u in w'.players && w'.players[u].charId == w.players[u].charId
  {
    hide TradeItems, Exchange, Settle;
    if AcceptsList(w, x, slots) && Ready(NoteList(w, x, slots), x) {
      var noted := NoteList(w, x, slots);
      var v := Peer(noted, x);
      var reply := TradeItems(noted.db, Exchange(noted, x)).1;
      if reply.Traded? {
        SettleKeepsName(noted.players[x], noted.players[v].trade.items, reply.firstAlz);
        SettleKeepsName(noted.players[v], noted.players[x].trade.items, reply.secondAlz);
      }
    }
  }

  /** The last character put on session `u` between two points of a run. */
  function LastEntry(w: World, es: seq<Event>, i: nat, n: nat, u: nat): Option<int>
    requires i <= n <= |es|
    decreases n
  {
    if n == i then None
    else if Enters(After(w, es, n - 1), es[n - 1], u) then Some(es[n - 1].charId)
    else LastEntry(w, es, i, n - 1, u)
  }

  /** No character was entered on the session since, or the last one entered is the one it had. */
  predicate SameCharacter(w: World, es: seq<Event>, i: nat, n: nat, u: nat)
    requires i <= n <= |es| && u in After(w, es, i).players
  {
    var entry := LastEntry(w, es, i, n, u);
    entry == None || entry == Some(After(w, es, i).players[u].charId)
  }

  lemma {:induction false} CharacterThrough(w: World, es: seq<Event>, i: nat, n: nat, u: nat)
    requires i <= n <= |es| && forall k :: i <= k <= n ==> u in After(w, es, k).players
    ensures After(w, es, n).players[u].charId == After(w, es, i).players[u].charId <==> SameCharacter(w, es, i, n, u)
    ensures var entry := LastEntry(w, es, i, n, u);
            After(w, es, n).players[u].charId == if entry.Some? then entry.value else After(w, es, i).players[u].charId
    decreases n
  {
    hide Trade.Step, Enters;
    if i < n {
      CharacterThrough(w, es, i, n - 1, u);
      assert u in After(w, es, n).players && u in After(w, es, n - 1).players;
      CharacterStep(After(w, es, n - 1), es[n - 1], u);
    }
  }
}
