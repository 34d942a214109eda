/** The character a trade records its opponent under, and when that is still the opponent's character. */
module TradeNames {
  import opened Economy
  import opened Trade
  import opened TradeSafety
  import opened TradeApproval

  predicate NamedAt(w: World, u: nat)
    requires u in w.players
  {
    var t := w.players[u].trade;
    t.status != Idle ==> t.opponent in w.players && t.opponentChar == w.players[t.opponent].charId
  }

  predicate Named(w: World) {
    forall u :: u in w.players ==> NamedAt(w, u)
  }

  /** Another character is entered on a session that is in a trade. */
  predicate Renames(w: World, e: Event) {
    && e.Enter? && Admitted(w, e.u, e.charId) && e.u in w.players
    && w.players[e.u].trade.status != Idle && w.players[e.u].charId != e.charId
  }

  lemma SamePairNames(w: World, w': World)
    requires Named(w) && w.players.Keys == w'.players.Keys
    requires forall x :: x in w.players ==> w'.players[x].charId == w.players[x].charId
    requires forall x :: x in w.players ==> NameKept(w.players[x].trade, w'.players[x].trade)
    ensures Named(w')
  {
    forall x | x in w'.players ensures NamedAt(w', x) {
      assert NamedAt(w, x) && NameKept(w.players[x].trade, w'.players[x].trade);
    }
  }

  /** The trade is over, or its opponent and the opponent's name are as before. */
  predicate NameKept(t: TradeState, t': TradeState) {
    t'.status == Idle || (t.status != Idle && t'.opponent == t.opponent && t'.opponentChar == t.opponentChar)
  }

  lemma RequestNames(w: World, u: nat, v: nat, c: int)
    requires Named(w)
    ensures Named(RequestStep(w, u, v, c))
  {
    var w' := RequestStep(w, u, v, c);
    forall x | x in w'.players ensures NamedAt(w', x) {
      assert NamedAt(w, x);
    }
  }

  lemma DisconnectNames(w: World, u: nat)
    requires Linked(w) && Named(w)
    ensures Named(DisconnectStep(w, u)) && Named(LobbyStep(w, u))
  {
    if u in w.players {
      assert LinkOk(w, u);
    }
    var w' := DisconnectStep(w, u);
    forall x | x in w'.players ensures NamedAt(w', x) {
      assert NamedAt(w, x) && LinkOk(w, x);
    }
    forall x | x in w.players ensures NamedAt(LobbyStep(w, u), x) {
      assert NamedAt(w, x) && LinkOk(w, x);
    }
  }

  lemma EnterNames(w: World, u: nat, c: int)
    requires Linked(w) && Named(w)
    ensures Named(EnterStep(w, u, c)) <==> !Renames(w, Enter(u, c))
  {
    var w' := EnterStep(w, u, c);
    if Renames(w, Enter(u, c)) {
      var v := Peer(w, u);
      assert LinkOk(w, u) && LinkOk(w, v) && NamedAt(w, v);
      assert !NamedAt(w', v);
    } else {
      forall x | x in w'.players ensures NamedAt(w', x) {
        if x in w.players {
          assert NamedAt(w, x) && LinkOk(w, x);
        }
      }
    }
  }

  lemma ListNames(w: World, x: nat, slots: seq<Slot>, rpc: Rpc)
    requires Named(w)
    ensures Named(RequestListStep(w, x, slots, rpc))
  {
    hide Complete;
    var w' := RequestListStep(w, x, slots, rpc);
    if AcceptsList(w, x, slots) && Ready(NoteList(w, x, slots), x) {
      CompleteClears(NoteList(w, x, slots), x, rpc);
    }
    forall u | u in w.players ensures w'.players[u].charId == w.players[u].charId {
      ListKeepsCharacters(w, x, slots, rpc, u);
    }
    SamePairNames(w, w');
  }

  predicate Plain(e: Event) {
    e.ListChars? || e.OpenEvent? || e.CloseEvent? || e.AddItem? || e.AddAlz? || e.RemoveItem? || e.Other?
  }

  lemma EditKeepsName(w: World, e: Event, x: nat)
    requires x in w.players && (e.AddItem? || e.AddAlz? || e.RemoveItem?)
    ensures var w' := Trade.Step(w, e);
            w'.players.Keys == w.players.Keys && w'.players[x].charId == w.players[x].charId
            && NameKept(w.players[x].trade, w'.players[x].trade)
  {
    hide OfferExists, OfferIndex;
  }

  lemma PlainKeepsName(w: World, e: Event, x: nat)
    requires x in w.players && Plain(e)
    ensures var w' := Trade.Step(w, e);
            w'.players.Keys == w.players.Keys && w'.players[x].charId == w.players[x].charId
            && NameKept(w.players[x].trade, w'.players[x].trade)
  {
    hide AddItemStep, AddAlzStep, RemoveItemStep, StoreRows;
    if e.AddItem? || e.AddAlz? || e.RemoveItem? {
      EditKeepsName(w, e, x);
    }
  }

  lemma NobodyThere(w: World, e: Event)
    requires Plain(e) && w.players == map[]
    ensures Trade.Step(w, e).players == map[]
  {
  }

  lemma PlainNames(w: World, e: Event)
    requires Named(w) && Plain(e)
    ensures Named(Trade.Step(w, e))
  {
    hide Trade.Step, NameKept, Plain;
    var w' := Trade.Step(w, e);
    if x :| x in w.players {
      PlainKeepsName(w, e, x);
      forall x | x in w.players
        ensures w'.players[x].charId == w.players[x].charId && NameKept(w.players[x].trade, w'.players[x].trade)
      {
        PlainKeepsName(w, e, x);
      }
      SamePairNames(w, w');
    } else {
      assert w.players == map[];
      NobodyThere(w, e);
    }
  }

  /** One step keeps every opponent named right if and only if it does not enter another character on a session that
      is in a trade. */
  lemma NamesKept(w: World, e: Event)
    requires Linked(w) && Named(w)
    ensures Named(Trade.Step(w, e)) <==> !Renames(w, e)
  {
    hide *;
    match e
    case Enter(u, c) => EnterNames(w, u, c); StepEnters(w, u, c);
    case Request(u, v, c) => RequestNames(w, u, v, c); OnlyEnterRenames(w, e);
    case RequestList(u, slots, rpc) => ListNames(w, u, slots, rpc); OnlyEnterRenames(w, e);
    case Lobby(u) => DisconnectNames(w, u); OnlyEnterRenames(w, e);
    case Disconnect(u) => DisconnectNames(w, u); OnlyEnterRenames(w, e);
    case _ => OnlyEnterRenames(w, e); PlainNames(w, e);
  }

  lemma StepEnters(w: World, u: nat, c: int)
    ensures Trade.Step(w, Enter(u, c)) == EnterStep(w, u, c)
  {
  }

  lemma OnlyEnterRenames(w: World, e: Event)
    requires !e.Enter?
    ensures !Renames(w, e)
    ensures match e
            case Request(u, v, c) => Trade.Step(w, e) == RequestStep(w, u, v, c)
            case RequestList(u, slots, rpc) => Trade.Step(w, e) == RequestListStep(w, u, slots, rpc)
            case Lobby(u) => Trade.Step(w, e) == LobbyStep(w, u)
            case Disconnect(u) => Trade.Step(w, e) == DisconnectStep(w, u)
            case _ => Plain(e)
  {
  }

  /** In every run in which nobody enters another character in the middle of a trade, a trade names its opponent. */
  lemma {:induction false} NamedAlways(w: World, es: seq<Event>, n: nat)
    requires Linked(w) && Named(w) && n <= |es|
    requires forall k :: 0 <= k < n ==> !Renames(After(w, es, k), es[k])
    ensures Named(After(w, es, n))
    decreases n
  {
    hide Linked, Named, Renames, Trade.Step;
    if n > 0 {
      NamedAlways(w, es, n - 1);
      LinkedAlways(w, es, n - 1);
      NamesKept(After(w, es, n - 1), es[n - 1]);
    }
  }
}
