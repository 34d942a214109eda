/** The destination slots of a committed trade, and when they were named for the offers that are exchanged. */
module TradeSlots {
  import opened Economy
  import opened Trade
  import opened TradeSafety
  import opened TradeApproval

  function Destinations(w: World, v: nat): seq<Slot> {
    if v in w.players then w.players[v].trade.destinations else []
  }

  /** The step is a destination list of `v` that is accepted. */
  predicate Lists(w: World, e: Event, v: nat) {
    e.RequestList? && e.u == v && AcceptsList(w, v, e.slots)
  }

  /** What a step leaves of a player's list: nothing, the list it names, or the one it had. */
  predicate Follows(w: World, e: Event, w': World, v: nat) {
    || Destinations(w', v) == []
    || (Lists(w, e, v) && Destinations(w', v) == e.slots)
    || (!Lists(w, e, v) && Destinations(w', v) == Destinations(w, v))
  }

  lemma ListFollows(w: World, x: nat, slots: seq<Slot>, rpc: Rpc, v: nat)
    ensures Follows(w, RequestList(x, slots, rpc), RequestListStep(w, x, slots, rpc), v)
  {
    hide Complete;
    if AcceptsList(w, x, slots) && Ready(NoteList(w, x, slots), x) {
      CompleteClears(NoteList(w, x, slots), x, rpc);
    }
  }

  lemma EditFollows(w: World, e: Event, v: nat)
    requires e.AddItem? || e.AddAlz? || e.RemoveItem?
    ensures Follows(w, e, Trade.Step(w, e), v)
  {
    hide OfferExists, OfferIndex;
  }

  lemma StepFollows(w: World, e: Event, v: nat)
    ensures Follows(w, e, Trade.Step(w, e), v)
  {
    hide RequestListStep, AddItemStep, AddAlzStep, RemoveItemStep, RowsOf, StoreRows, Loaded;
    match e {
      case RequestList(x, slots, rpc) => ListFollows(w, x, slots, rpc, v);
      case AddItem(x, s, t) => EditFollows(w, e, v);
      case AddAlz(x, n) => EditFollows(w, e, v);
      case RemoveItem(x, t, s) => EditFollows(w, e, v);
      case _ =>
    }
  }

  /** `v` has sent an accepted list from point `s` on. */
  ghost predicate ListedSince(w: World, es: seq<Event>, s: nat, n: nat, v: nat)
    requires n <= |es|
  {
    exists k :: s <= k < n && Lists(After(w, es, k), es[k], v)
  }

  lemma AfterIs(w: World, es: seq<Event>, n: nat)
    requires n <= |es|
    ensures After(w, es, n) == if n == 0 then w else Trade.Step(After(w, es, n - 1), es[n - 1])
  {
    hide Trade.Step;
  }

  /** The list a player stands by was named by its last accepted list, and has stood since. */
  lemma {:induction false} ListNamed(w: World, es: seq<Event>, n: nat, v: nat) returns (m: nat)
    requires n <= |es| && Destinations(w, v) == [] && Destinations(After(w, es, n), v) != []
    ensures m < n && Lists(After(w, es, m), es[m], v) && es[m].slots == Destinations(After(w, es, n), v)
    ensures forall k :: m < k <= n ==> Destinations(After(w, es, k), v) == es[m].slots
    ensures forall k :: m < k < n ==> !Lists(After(w, es, k), es[k], v)
    decreases n
  {
    hide Trade.Step, Lists, Destinations, After;
    AfterIs(w, es, n);
    var before := After(w, es, n - 1);
    StepFollows(before, es[n - 1], v);
    if Lists(before, es[n - 1], v) {
      m := n - 1;
    } else {
      m := ListNamed(w, es, n - 1, v);
    }
  }

  /** The later of the two last submits is over. */
  function SinceBoth(i: nat, j: nat): nat { if i < j then j + 1 else i + 1 }

  /** The targets of the transfers are these slots, in order. */
  predicate Lands(ts: seq<Transfer>, slots: seq<Slot>) {
    |ts| == |slots| && forall k :: 0 <= k < |ts| ==> ts[k].target == slots[k]
  }

  lemma CommitLands(w: World, e: Event)
    requires Commits(w, e)
    ensures e.u in w.players
    ensures var v, r := Peer(w, e.u), Committed(w, e);
            v != e.u && Lands(r.secondItems, e.slots) && Lands(r.firstItems, Destinations(w, v))
  {
  }

  lemma SinceIs(i: nat, j: nat)
    ensures i < SinceBoth(i, j) && j < SinceBoth(i, j) && (SinceBoth(i, j) == i + 1 || SinceBoth(i, j) == j + 1)
  {
  }

  lemma SinceNamed(w: World, es: seq<Event>, since: nat, n: nat, v: nat, m: nat)
    requires m < n <= |es| && since <= n && Lists(After(w, es, m), es[m], v)
    requires forall k :: m < k < n ==> !Lists(After(w, es, k), es[k], v)
    ensures m >= since <==> ListedSince(w, es, since, n, v)
  {
    hide Lists, After;
  }

  /** Where the goods of a committed exchange land, in every run that starts with no trade under way. What the
      committing side receives lands in the slots it names in this very step. What its opponent receives lands in the
      slots of the opponent's last accepted list; that list was named after both had last submitted if and only if the
      opponent has sent one since, and in any case if it had none standing by then. */
  lemma SlotsNamed(w: World, es: seq<Event>, n: nat, i: nat, j: nat) returns (m: nat)
    requires n < |es| && Commits(After(w, es, n), es[n]) && i < n && j < n
    requires Destinations(w, Peer(After(w, es, n), es[n].u)) == []
    ensures var v, r := Peer(After(w, es, n), es[n].u), Committed(After(w, es, n), es[n]);
            var since := SinceBoth(i, j);
            && Lands(r.secondItems, es[n].slots)
            && (r.firstItems != [] ==>
                && m < n && Lists(After(w, es, m), es[m], v) && Lands(r.firstItems, es[m].slots)
                && (m >= since <==> ListedSince(w, es, since, n, v))
                && (Destinations(After(w, es, since), v) == [] ==> m >= since))
  {
    hide *;
    var now := After(w, es, n);
    CommitLands(now, es[n]);
    SinceIs(i, j);
    var v := Peer(now, es[n].u);
    m := 0;
    if Committed(now, es[n]).firstItems != [] {
      m := ListNamed(w, es, n, v);
      SinceNamed(w, es, SinceBoth(i, j), n, v, m);
    }
  }
}
