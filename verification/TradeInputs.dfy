/** Inputs at which a promise about trades fails. */
module TradeInputs {
  import opened Economy
  import opened Trade
  import opened TradeSafety
  import opened TradeApproval
  import opened TradeNames
  import opened TradeSlots
  import opened TradeMirror

  function Submitter(opponent: nat, opponentChar: int, role: Role, alz: U64): TradeState {
    TradeState(Open, role, opponent, opponentChar, [], alz, true, [])
  }

  /** Users 1 and 2 have both submitted: character 80 gives 5 Alz to character 16. */
  function BothSubmitted(): World {
    World(map[1 := Player(80, 9, map[], Submitter(2, 16, Requester, 5)),
              2 := Player(16, 0, map[], Submitter(1, 80, Target, 0))],
          map[], Db(map[16 := 0, 80 := 9, 81 := 7], map[], map[], map[], 0))
  }

  /** What is left when user 1 enters character 81 of the same account. */
  function Switched(): World {
    var w := BothSubmitted();
    w.(players := w.players[1 := w.players[1].(charId := 81, alz := 7)], rosters := map[1 := map[80 := 9, 81 := 7]])
  }

  lemma EntersSwitched()
    ensures Admitted(BothSubmitted(), 1, 81) && Trade.Step(BothSubmitted(), Enter(1, 81)) == Switched()
  {
    var w := BothSubmitted();
    TwoCharacters(w.db);
    hide Loaded, Trade.Step, Admitted;
    EntersAfresh(w, 1, 81, map[80 := 9, 81 := 7]);
  }

  lemma EntersAfresh(w: World, u: nat, c: int, roster: Roster)
    requires u !in w.rosters && w.db.inventory == map[]
    requires Loaded(w.db, c / 8) == roster && c in roster
    ensures Admitted(w, u, c)
    ensures Trade.Step(w, Enter(u, c)) ==
      w.(players := w.players[u := Player(c, roster[c], map[], TradeOf(w, u))], rosters := w.rosters[u := roster])
  {
    hide Loaded;
    assert RowsOf(w.db.inventory, c) == map[];
  }

  lemma TwoCharacters(db: Db)
    requires db.alz == map[16 := 0, 80 := 9, 81 := 7]
    ensures Loaded(db, 10) == map[80 := 9, 81 := 7]
  {
    var roster := Loaded(db, 10);
    assert 80 in roster && 81 in roster && 16 !in roster;
    assert roster.Keys == {80, 81};
  }

  lemma BothLinked()
    ensures Linked(BothSubmitted()) && Named(BothSubmitted()) && Linked(Switched()) && !Named(Switched())
  {
    assert !NamedAt(Switched(), 2);
  }

  lemma SwitchedCommits()
    ensures Commits(Switched(), RequestList(1, [], Answered))
    ensures Committed(Switched(), RequestList(1, [], Answered)) ==
      Economy.TradeRequest.TradeRequest(81, 16, [], [], 5, 0)
  {
    var w := Switched();
    assert InWindow(w, 1, false);
    assert AcceptsList(w, 1, []);
    assert NoteList(w, 1, []).players == w.players;
    assert Transfers([], []) == [];
  }

  /** The trade goes on with its links intact, its opponent still records 80, and it is 81 that pays. */
  lemma AnotherCharacterPays()
    ensures var w, e := BothSubmitted(), Enter(1, 81);
            var w' := Trade.Step(w, e);
            && Linked(w) && Named(w) && Renames(w, e) && Linked(w') && !Named(w')
            && w'.players[1].charId == 81 && w'.players[2].trade.opponentChar == 80
            && Commits(w', RequestList(1, [], Answered))
            && Committed(w', RequestList(1, [], Answered)) == Economy.TradeRequest.TradeRequest(81, 16, [], [], 5, 0)
  {
    EntersSwitched();
    BothLinked();
    SwitchedCommits();
    hide Trade.Step, Linked, Named, Commits, Committed, Admitted;
  }

  // --- A lost answer. ---

  lemma BothInSync()
    ensures InSync(BothSubmitted())
  {
  }

  lemma FiveAlzCommits()
    ensures UnheardCommit(BothSubmitted(), RequestList(1, [], ReplyLost))
  {
    var w := BothSubmitted();
    assert InWindow(w, 1, false);
    assert AcceptsList(w, 1, []);
    assert NoteList(w, 1, []).players == w.players;
    assert Transfers([], []) == [];
  }

  /** Both sides have submitted, character 80 giving 5 of its 9 Alz and no items. The answer is lost: the Master has
      moved the Alz, and memory says 9. */
  lemma LostAnswerDiverges()
    ensures var w, e := BothSubmitted(), RequestList(1, [], ReplyLost);
            InSync(w) && Linked(w) && LosesSync(w, e) && !InSync(Trade.Step(w, e))
  {
    BothInSync();
    BothLinked();
    FiveAlzCommits();
    hide InSync, Linked, Trade.Step, UnheardCommit;
    SyncKept(BothSubmitted(), RequestList(1, [], ReplyLost));
  }

  // --- An entry from a stale list. ---

  /** User 1 loaded its list when character 80 had 9 Alz; it has 4 now, in memory and at the Master. */
  function Outdated(): World {
    World(map[1 := Player(80, 4, map[], NO_TRADE)], map[1 := map[80 := 9]], Db(map[80 := 4], map[], map[], map[], 0))
  }

  /** Entering the same character again takes the 9 from the list. */
  lemma StaleListDiverges()
    ensures var w, e := Outdated(), Enter(1, 80);
            InSync(w) && Linked(w) && LosesSync(w, e) && !InSync(Trade.Step(w, e))
  {
    var w := Outdated();
    assert RosterFor(w, 1, 80) == map[80 := 9];
    assert StaleEntry(w, Enter(1, 80));
    SyncKept(w, Enter(1, 80));
  }

  // --- One character on two sessions. ---

  /** With one character on two sessions, a change through one leaves the other's memory behind. */
  lemma OneChangeReachesOne(w: World, u: nat, v: nat, alz: U64, inventory: Bag)
    requires u in w.players && v in w.players && u != v && w.players[u].charId == w.players[v].charId
    requires alz != w.players[v].alz
    ensures var w' := Trade.Step(w, Other(u, alz, inventory)); v in w'.players && !PlayerMirrors(w', v)
  {
    hide StoreRows;
  }

  function Alone(): World {
    World(map[1 := Player(80, 9, map[], NO_TRADE)], map[], Db(map[80 := 9], map[], map[], map[], 0))
  }

  function Shared(): World {
    var w := Alone();
    w.(players := w.players[2 := w.players[1]], rosters := map[2 := map[80 := 9]])
  }

  lemma SecondEntry()
    ensures Admitted(Alone(), 2, 80) && Trade.Step(Alone(), Enter(2, 80)) == Shared()
  {
    OneCharacter(Alone().db);
    hide Loaded, Trade.Step, Admitted;
    EntersAfresh(Alone(), 2, 80, map[80 := 9]);
  }

  lemma OneCharacter(db: Db)
    requires db.alz == map[80 := 9]
    ensures Loaded(db, 10) == map[80 := 9]
  {
    assert Loaded(db, 10).Keys == {80};
  }

  lemma AloneInOrder()
    ensures InSync(Alone()) && Linked(Alone()) && 1 in Alone().players && Alone().players[1].charId == 80
  {
  }

  lemma AloneShares()
    requires Admitted(Alone(), 2, 80)
    ensures LosesSync(Alone(), Enter(2, 80))
  {
    AloneInOrder();
    hide Admitted;
  }

  lemma SharedMeans()
    ensures var p := Shared().players; 1 in p && 2 in p && p[1].charId == p[2].charId && p[2].alz == 9
  {
  }

  /** Character 80 is on session 1; session 2 enters it too, and then session 1 spends 5 Alz: session 2 still has 9. */
  lemma SharedCharacterDiverges()
    ensures var shared := Trade.Step(Alone(), Enter(2, 80));
            var later := Trade.Step(shared, Other(1, 4, map[]));
            && InSync(Alone()) && Linked(Alone()) && LosesSync(Alone(), Enter(2, 80)) && !InSync(shared)
            && 2 in later.players && !PlayerMirrors(later, 2)
  {
    hide *;
    SecondEntry();
    AloneInOrder();
    AloneShares();
    SharedMeans();
    OneChangeReachesOne(Shared(), 1, 2, 4, map[]);
    SyncKept(Alone(), Enter(2, 80));
  }

  // --- Slots named for another offer. ---

  const SWORD := Goods(7, 0, 0, 0)
  const RING := Goods(8, 0, 0, 0)
  const HELM := Goods(9, 0, 0, 0)

  function Side(opponent: nat, role: Role, items: seq<Offer>, submitted: bool, slots: seq<Slot>): TradeState {
    TradeState(Open, role, opponent, if opponent == 1 then 80 else 16, items, 0, submitted, slots)
  }

  /** User 1 (character 80) offers a sword; user 2 (character 16) has a ring and a helm. */
  function Counter(submitted1: bool, slots1: seq<Slot>, items2: seq<Offer>, submitted2: bool): World {
    World(map[1 := Player(80, 0, map[0 := SWORD], Side(2, Requester, [Offer(0, SWORD, 0)], submitted1, slots1)),
              2 := Player(16, 0, map[1 := RING, 2 := HELM], Side(1, Target, items2, submitted2, []))],
          map[], Db(map[16 := 0, 80 := 0], map[], map[], map[], 0))
  }

  function Stage(k: nat): World
    requires k <= 8
  {
    var ring, helm := [Offer(1, RING, 0)], [Offer(2, HELM, 0)];
    if k == 0 then Counter(false, [], ring, false)
    else if k == 1 then Counter(true, [], ring, false)
    else if k == 2 then Counter(true, [], ring, true)
    else if k == 3 then Counter(true, [9], ring, true)
    else if k == 4 then Counter(true, [9], ring, false)
    else if k == 5 then Counter(false, [9], [], false)
    else if k == 6 then Counter(false, [9], helm, false)
    else if k == 7 then Counter(true, [9], helm, false)
    else Counter(true, [9], helm, true)
  }

  /** Both submit, user 1 lists slot 9, user 2 withdraws and swaps the ring for the helm, both submit again, and user 2
      lists slot 6. */
  function Swap(): seq<Event> {
    [CloseEvent(1, Submit), CloseEvent(2, Submit), RequestList(1, [9], Answered), CloseEvent(2, SubmitCancel),
     RemoveItem(2, 0, 1), AddItem(2, 2, 0), CloseEvent(1, Submit), CloseEvent(2, Submit), RequestList(2, [6], Answered)]
  }

  lemma FirstSubmits(slots: seq<Slot>, items: seq<Offer>)
    ensures Trade.Step(Counter(false, slots, items, false), CloseEvent(1, Submit)) == Counter(true, slots, items, false)
  {
  }

  lemma SecondSubmits(slots: seq<Slot>, items: seq<Offer>)
    ensures Trade.Step(Counter(true, slots, items, false), CloseEvent(2, Submit)) == Counter(true, slots, items, true)
  {
  }

  lemma SecondWithdraws(slots: seq<Slot>, items: seq<Offer>)
    ensures Trade.Step(Counter(true, slots, items, true), CloseEvent(2, SubmitCancel)) ==
      Counter(true, slots, items, false)
  {
  }

  lemma FirstLists()
    ensures Trade.Step(Stage(2), RequestList(1, [9], Answered)) == Stage(3)
  {
    var w := Stage(2);
    assert InWindow(w, 1, false);
    assert AcceptsList(w, 1, [9]);
    assert NoteList(w, 1, [9]).players == Stage(3).players;
  }

  lemma SecondEdits(slots: seq<Slot>, items: seq<Offer>, submitted1: bool, edited: seq<Offer>)
    ensures var w := Counter(submitted1, slots, items, false);
            && InWindow(w, 2, true) && Paired(w, 2)
            && Edit(w, 2, w.players[2].trade.(items := edited)) == Counter(false, slots, edited, false)
  {
  }

  lemma SecondRemoves()
    ensures Trade.Step(Stage(4), RemoveItem(2, 0, 1)) == Stage(5)
  {
    var ring := [Offer(1, RING, 0)];
    assert OfferIndex(ring, 0, 1) == 0 && ring[..0] + ring[1..] == [];
    SecondEdits([9], ring, true, []);
    hide Edit, InWindow, OfferIndex;
  }

  lemma SecondAdds()
    ensures Trade.Step(Stage(5), AddItem(2, 2, 0)) == Stage(6)
  {
    assert [] + [Offer(2, HELM, 0)] == [Offer(2, HELM, 0)];
    assert !OfferExists([], 2, 0);
    SecondEdits([9], [], false, [Offer(2, HELM, 0)]);
    hide Edit, InWindow, OfferExists;
  }

  lemma StageStep(k: nat)
    requires k < 8
    ensures Trade.Step(Stage(k), Swap()[k]) == Stage(k + 1)
  {
    hide Trade.Step, Counter;
    FirstSubmits([], [Offer(1, RING, 0)]);
    SecondSubmits([], [Offer(1, RING, 0)]);
    SecondWithdraws([9], [Offer(1, RING, 0)]);
    FirstSubmits([9], [Offer(2, HELM, 0)]);
    SecondSubmits([9], [Offer(2, HELM, 0)]);
    FirstLists();
    SecondRemoves();
    SecondAdds();
  }

  lemma {:induction false} StageAfter(k: nat)
    requires k <= 8
    ensures After(Stage(0), Swap(), k) == Stage(k)
  {
    hide Trade.Step, Stage, Swap;
    EventsCounted();
    if k > 0 {
      StageAfter(k - 1);
      StageStep(k - 1);
    }
  }

  lemma EventsCounted()
    ensures |Swap()| == 9
  {
  }

  lemma SwapCommits()
    ensures Commits(Stage(8), Swap()[8])
    ensures Committed(Stage(8), Swap()[8]) ==
      Economy.TradeRequest.TradeRequest(16, 80, [Transfer(2, HELM, 9)], [Transfer(0, SWORD, 6)], 0, 0)
  {
    var w := Stage(8);
    assert InWindow(w, 2, false);
    assert AcceptsList(w, 2, [6]);
    var noted := NoteList(w, 2, [6]);
    assert noted.players[1] == w.players[1] && noted.players[2].trade.items == [Offer(2, HELM, 0)];
    assert Ready(noted, 2);
    assert Transfers([Offer(2, HELM, 0)], [9]) == [Transfer(2, HELM, 9)];
    assert Transfers([Offer(0, SWORD, 0)], [6]) == [Transfer(0, SWORD, 6)];
  }

  /** The helm is put into slot 9, which user 1 named for the ring: the last submits are steps 6 and 7, and user 1 has
      listed no slot since. */
  lemma StaleSlotUsed()
    ensures |Swap()| == 9
    ensures var w, now := Stage(0), After(Stage(0), Swap(), 8);
            && Commits(now, Swap()[8]) && Committed(now, Swap()[8]).firstItems == [Transfer(2, HELM, 9)]
            && Lists(After(w, Swap(), 2), Swap()[2], 1) && !ListedSince(w, Swap(), SinceBoth(6, 7), 8, 1)
  {
    EventsCounted();
    StageAfter(2);
    StageAfter(8);
    SwapCommits();
    assert AcceptsList(Stage(2), 1, [9]) by {
      assert InWindow(Stage(2), 1, false);
    }
    hide Trade.Step, After, Commits, Committed, Stage, AcceptsList;
  }
}
