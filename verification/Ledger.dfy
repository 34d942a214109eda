/** Conservation over the Master's transactions: Alz falls only by attachment fees, goods never change. */
module Ledger {
  import opened Totals
  import opened Economy

  function Balance(a: U64): nat { a }
  function Enclosed(m: Mail): nat { m.alz }
  function One(g: Goods): multiset<Goods> { multiset{g} }
  function Attached(m: Mail): multiset<Goods> { if m.goods.kind == 0 then multiset{} else multiset{m.goods} }

  /** All Alz there is: in purses and in the post. */
  ghost function TotalAlz(db: Db): nat {
    Sum<int, U64>(db.alz, Balance) + Sum(db.mail, Enclosed)
  }

  /** All goods there are: carried, stored and in the post. */
  ghost function TotalGoods(db: Db): multiset<Goods> {
    Bag(db.inventory, One) + Bag(db.warehouse, One) + Bag(db.mail, Attached)
  }

  // --- Trade. ---

  lemma TakeAndPut(inv: Storage, gone: set<Place>, come: Storage, x: Place, y: Place, g: Goods)
    requires x !in come && x != y
    ensures (inv - (gone + {x})) + come[y := g] == (((inv - gone) + come) - {x})[y := g]
  {
  }

  lemma OneMoreTransfer(source: int, dest: int, ts: seq<Transfer>, n: nat)
    requires n < |ts|
    ensures Sources(source, ts[..n + 1]) == Sources(source, ts[..n]) + {Place(source, ts[n].slot)}
    ensures Arrivals(dest, ts[..n + 1]) == Arrivals(dest, ts[..n])[Place(dest, ts[n].target) := ts[n].goods]
  {
    var a, b := ts[..n], ts[..n + 1];
    assert b[..n] == a && b[n] == ts[n];
    forall p | p in Sources(source, b) ensures p in Sources(source, a) + {Place(source, ts[n].slot)} {
      var i :| 0 <= i < |b| && p == Place(source, b[i].slot);
      assert i < n ==> a[i] == b[i];
    }
    forall p | p in Sources(source, a) ensures p in Sources(source, b) {
      var i :| 0 <= i < |a| && p == Place(source, a[i].slot);
      assert a[i] == b[i];
    }
  }

  /** Moving a prefix and then one more row is moving the longer prefix; the row is still there to take
      and its target still free. */
  lemma MoveAllOneMore(inv: Storage, source: int, dest: int, ts: seq<Transfer>, n: nat)
    requires source != dest && n < |ts| && TransfersOk(inv, source, dest, ts)
    ensures var before := MoveAll(inv, source, dest, ts[..n]);
            var t := ts[n];
            && Place(source, t.slot) in before && before[Place(source, t.slot)] == t.goods
            && Place(dest, t.target) !in before
            && MoveAll(inv, source, dest, ts[..n + 1]) ==
              (before - {Place(source, t.slot)})[Place(dest, t.target) := t.goods]
  {
    var x, y := Place(source, ts[n].slot), Place(dest, ts[n].target);
    assert TransferOk(inv, source, dest, ts[n]);
    OneMoreTransfer(source, dest, ts, n);
    var a := ts[..n];
    ArrivalsContents(dest, a);
    assert x !in Sources(source, a);
    assert y !in Arrivals(dest, a);
    assert x !in Arrivals(dest, a);
    TakeAndPut(inv, Sources(source, a), Arrivals(dest, a), x, y, ts[n].goods);
  }

  lemma MoveNothing(inv: Storage, source: int, dest: int, ts: seq<Transfer>)
    requires ts == []
    ensures MoveAll(inv, source, dest, ts) == inv
  {
    assert Sources(source, ts) == {};
  }

  lemma {:induction false} MoveAllKeepsGoods(inv: Storage, source: int, dest: int, ts: seq<Transfer>, n: nat)
    requires source != dest && n <= |ts| && TransfersOk(inv, source, dest, ts)
    ensures Bag(MoveAll(inv, source, dest, ts[..n]), One) == Bag(inv, One)
    decreases n
  {
    hide Totals.Sum, Totals.Bag, Economy.Arrivals, Economy.Sources;
    if n == 0 {
      MoveNothing(inv, source, dest, ts[..0]);
    } else {
      MoveAllKeepsGoods(inv, source, dest, ts, n - 1);
      MoveAllOneMore(inv, source, dest, ts, n - 1);
      var before := MoveAll(inv, source, dest, ts[..n - 1]);
      BagMove(before, One, Place(source, ts[n - 1].slot), Place(dest, ts[n - 1].target));
    }
  }

  /** The first direction takes nothing the second still has to take, and fills no slot the second needs. */
  lemma OtherDirectionStillOk(inv: Storage, source: int, dest: int, ts: seq<Transfer>, back: seq<Transfer>)
    requires source != dest && TransfersOk(inv, source, dest, ts) && TransfersOk(inv, dest, source, back)
    ensures TransfersOk(MoveAll(inv, source, dest, ts), dest, source, back)
  {
    var moved := MoveAll(inv, source, dest, ts);
    ArrivalsContents(dest, ts);
    forall i | 0 <= i < |back| ensures TransferOk(moved, dest, source, back[i]) {
      assert TransferOk(inv, dest, source, back[i]);
      assert forall k :: 0 <= k < |ts| ==> TransferOk(inv, source, dest, ts[k]);
    }
  }

  lemma TradeConserves(db: Db, r: TradeRequest)
    ensures var after := TradeItems(db, r).0;
            TotalAlz(after) == TotalAlz(db) && TotalGoods(after) == TotalGoods(db)
  {
    hide Totals.Sum, Totals.Bag, Economy.Arrivals, Economy.Sources;
    if !TradeFaulty(db, r) && TradeAccepted(db, r) {
      var a := db.alz[r.first] - r.firstAlz + r.secondAlz;
      var b := db.alz[r.second] - r.secondAlz + r.firstAlz;
      SumPut<int, U64>(db.alz, Balance, r.first, a);
      SumPut<int, U64>(db.alz[r.first := a], Balance, r.second, b);
      var inv := db.inventory;
      var half := MoveAll(inv, r.first, r.second, r.firstItems);
      assert r.firstItems[..|r.firstItems|] == r.firstItems && r.secondItems[..|r.secondItems|] == r.secondItems;
      MoveAllKeepsGoods(inv, r.first, r.second, r.firstItems, |r.firstItems|);
      OtherDirectionStillOk(inv, r.first, r.second, r.firstItems, r.secondItems);
      MoveAllKeepsGoods(half, r.second, r.first, r.secondItems, |r.secondItems|);
    }
  }

  // --- Storage. ---

  lemma StorageMoveConserves(db: Db, c: int, from: StorageType, a: Slot, to: StorageType, b: Slot)
    ensures var after := StorageMove(db, c, from, a, to, b).0;
            TotalAlz(after) == TotalAlz(db) && TotalGoods(after) == TotalGoods(db)
  {
    hide Totals.Sum, Totals.Bag;
    var after := StorageMove(db, c, from, a, to, b).0;
    if after != db {
      var src, dst := Table(db, from), Table(db, to);
      var x, y := Place(c, a), Place(c, b);
      if from == to {
        BagMove(src, One, x, y);
      } else {
        BagTakeOut(src, One, x);
        BagPut(dst, One, y, src[x]);
        var g := multiset{src[x]};
        assert Bag(src, One) == g + Bag(src - {x}, One);
        assert Bag(dst[y := src[x]], One) == Bag(dst, One) + g;
        assert Bag(src - {x}, One) + Bag(dst[y := src[x]], One) == Bag(src, One) + Bag(dst, One);
      }
    }
  }

  // --- Mail. ---

  lemma PutMail(db: Db, id: int, m: Mail)
    requires id in db.mail && m.alz == db.mail[id].alz && m.goods == db.mail[id].goods
    ensures Sum(db.mail[id := m], Enclosed) == Sum(db.mail, Enclosed)
    ensures Bag(db.mail[id := m], Attached) == Bag(db.mail, Attached)
  {
    hide Totals.Sum, Totals.Bag;
    SumPut(db.mail, Enclosed, id, m);
    BagRewrite(db.mail, Attached, id, m);
  }

  lemma PostedMeans(db: Db, s: SendRequest)
    requires Posted(db, s)
    ensures var after := SendMail(db, s).0;
            && s.sender in db.alz && s.alz + Fee(s) <= db.alz[s.sender]
            && after.alz == db.alz[s.sender := db.alz[s.sender] - s.alz - Fee(s)]
            && after.warehouse == db.warehouse
            && after.mail == db.mail[db.nextMail := Mail(s.sender, s.receiver, User, 0, s.alz, s.goods, false, false)]
            && (s.hasItem ==> s.goods.kind != 0 && Place(s.sender, s.slot) in db.inventory
                              && db.inventory[Place(s.sender, s.slot)] == s.goods
                              && after.inventory == db.inventory - {Place(s.sender, s.slot)})
            && (!s.hasItem ==> after.inventory == db.inventory)
  {
  }

  /** A send conserves goods exactly when it does not claim an item it does not attach. */
  lemma SendConserves(db: Db, s: SendRequest)
    requires forall id :: id in db.mail ==> id < db.nextMail
    ensures TotalAlz(SendMail(db, s).0) + Charged(db, Send(s)) == TotalAlz(db)
    ensures TotalGoods(SendMail(db, s).0) == TotalGoods(db) <==> (!Posted(db, s) || Honest(Send(s)))
  {
    hide Totals.Sum, Totals.Bag, Mailbox;
    if Posted(db, s) {
      PostedMeans(db, s);
      hide SendMail, Fee;
      var after := SendMail(db, s).0;
      var m := after.mail[db.nextMail];
      SumPut(db.mail, Enclosed, db.nextMail, m);
      SumPut<int, U64>(db.alz, Balance, s.sender, db.alz[s.sender] - s.alz - Fee(s));
      PostedGoods(db, s, after, m);
    }
  }

  lemma PostedGoods(db: Db, s: SendRequest, after: Db, m: Mail)
    requires db.nextMail !in db.mail && after.warehouse == db.warehouse
    requires m.goods == s.goods && after.mail == db.mail[db.nextMail := m]
    requires s.hasItem ==> s.goods.kind != 0 && Place(s.sender, s.slot) in db.inventory
                           && db.inventory[Place(s.sender, s.slot)] == s.goods
    requires after.inventory == if s.hasItem then db.inventory - {Place(s.sender, s.slot)} else db.inventory
    ensures TotalGoods(after) == TotalGoods(db) <==> Honest(Send(s))
  {
    hide Totals.Bag;
    BagPut(db.mail, Attached, db.nextMail, m);
    assert Bag(after.mail, Attached) == Bag(db.mail, Attached) + Attached(m);
    if s.hasItem {
      BagTakeOut(db.inventory, One, Place(s.sender, s.slot));
      assert Bag(db.inventory, One) == Bag(after.inventory, One) + multiset{s.goods};
      assert TotalGoods(after) == TotalGoods(db);
    } else if s.goods.kind == 0 {
      assert TotalGoods(after) == TotalGoods(db);
    } else {
      assert TotalGoods(after)[s.goods] == TotalGoods(db)[s.goods] + 1;
    }
  }

  lemma TakeAlzConserves(db: Db, c: int, id: int)
    ensures var after := ReceiveMailAlz(db, c, id).0;
            TotalAlz(after) == TotalAlz(db) && TotalGoods(after) == TotalGoods(db)
  {
    hide Totals.Sum, Totals.Bag;
    var after := ReceiveMailAlz(db, c, id).0;
    if after != db {
      SumPut(db.mail, Enclosed, id, after.mail[id]);
      BagRewrite(db.mail, Attached, id, after.mail[id]);
      SumPut<int, U64>(db.alz, Balance, c, after.alz[c]);
    }
  }

  lemma TakeItemConserves(db: Db, c: int, id: int, slot: Slot)
    ensures var after := ReceiveMailItem(db, c, id, slot).0;
            TotalAlz(after) == TotalAlz(db) && TotalGoods(after) == TotalGoods(db)
  {
    hide Totals.Sum, Totals.Bag;
    var after := ReceiveMailItem(db, c, id, slot).0;
    if ReceiveMailItem(db, c, id, slot).1 == ActionDone {
      var s := if slot == AUTO_SLOT then FirstFree(db.inventory, c, 0) else slot;
      var g := db.mail[id].goods;
      SumPut(db.mail, Enclosed, id, after.mail[id]);
      BagPut(db.mail, Attached, id, after.mail[id]);
      BagPut(db.inventory, One, Place(c, s), g);
      assert Bag(after.inventory, One) == Bag(db.inventory, One) + multiset{g};
      assert Bag(after.mail, Attached) + multiset{g} == Bag(db.mail, Attached);
    }
  }

  lemma ReturnConserves(db: Db, c: int, id: int)
    ensures var after := ReturnMail(db, c, id).0;
            TotalAlz(after) == TotalAlz(db) && TotalGoods(after) == TotalGoods(db)
  {
    hide Totals.Sum, Totals.Bag;
    var after := ReturnMail(db, c, id).0;
    if ReturnMail(db, c, id).1 == ReturnOK {
      PutMail(db, id, after.mail[id]);
    }
  }

  /** Flagging a mail as deleted and cleaning up loses nothing if a mail deleted by its receiver is empty. */
  lemma FlagConserves(db: Db, id: int, m: Mail)
    requires id in db.mail && m.alz == db.mail[id].alz && m.goods == db.mail[id].goods
    requires m.deletedReceiver ==> m.alz == 0 && m.goods.kind == 0
    ensures Sum(Cleanup(db.mail[id := m], id), Enclosed) == Sum(db.mail, Enclosed)
    ensures Bag(Cleanup(db.mail[id := m], id), Attached) == Bag(db.mail, Attached)
  {
    hide Totals.Sum, Totals.Bag;
    var flagged := db.mail[id := m];
    PutMail(db, id, m);
    SumTakeOut(flagged, Enclosed, id);
    BagTakeOut(flagged, Attached, id);
  }

  // --- What keeps cleanup harmless and mailboxes bounded. ---

  predicate MailSane(m: Mail) {
    && (m.deletedReceiver ==> Empty(m))
    && !(m.deletedReceiver && m.deletedSender)
  }

  /** A mail deleted by its receiver is empty, none is deleted by both, ids are below the counter, and no
      mailbox is over its limit. */
  ghost predicate PostInvariant(db: Db) {
    && (forall id :: id in db.mail ==> id < db.nextMail && MailSane(db.mail[id]))
    && BoxesBounded(db.mail)
  }

  ghost predicate BoxesBounded(mail: map<int, Mail>) {
    forall c :: |Mailbox(mail, c)| <= MAX_MAILBOX
  }

  lemma FewerInBox(small: set<int>, big: set<int>)
    requires small <= big
    ensures |small| <= |big|
  {
    if small != big {
      assert |big - small| + |small| == |big|;
    }
  }

  lemma OneMoreInBox(after: set<int>, before: set<int>, id: int)
    requires after <= before + {id}
    ensures |after| <= |before| + 1
  {
    FewerInBox(after, before + {id});
    assert id in before ==> before + {id} == before;
  }

  /** Rewriting one mail: mailboxes other than its receiver's only shrink, and its receiver's grows by at most one. */
  lemma BoxesAfterPut(db: Db, id: int, m: Mail)
    requires BoxesBounded(db.mail)
    requires m.deletedReceiver || Receivable(db, m.receiver, id) || |Mailbox(db.mail, m.receiver)| < MAX_MAILBOX
    ensures BoxesBounded(db.mail[id := m])
  {
    var mail := db.mail[id := m];
    forall c ensures |Mailbox(mail, c)| <= MAX_MAILBOX {
      var before, after := Mailbox(db.mail, c), Mailbox(mail, c);
      if c == m.receiver && !m.deletedReceiver && !Receivable(db, m.receiver, id) {
        OneMoreInBox(after, before, id);
      } else {
        assert after <= before;
        FewerInBox(after, before);
      }
    }
  }

  lemma BoxesAfterCleanup(mail: map<int, Mail>, id: int)
    requires BoxesBounded(mail)
    ensures BoxesBounded(Cleanup(mail, id))
  {
    var cleaned := Cleanup(mail, id);
    forall c ensures |Mailbox(cleaned, c)| <= MAX_MAILBOX {
      FewerInBox(Mailbox(cleaned, c), Mailbox(mail, c));
    }
  }

  function WithMail(mail: map<int, Mail>, id: int, m: Mail): map<int, Mail> { mail[id := m] }

  /** Whatever one mail is stored, the mailbox stays within its limit. */
  ghost predicate RoomFor(mail: map<int, Mail>, c: int) {
    forall id, m :: |Mailbox(WithMail(mail, id, m), c)| <= MAX_MAILBOX
  }

  lemma RoomBelow(mail: map<int, Mail>, c: int)
    ensures |Mailbox(mail, c)| < MAX_MAILBOX ==> RoomFor(mail, c)
  {
    if |Mailbox(mail, c)| < MAX_MAILBOX {
      forall id, m ensures |Mailbox(WithMail(mail, id, m), c)| <= MAX_MAILBOX {
        OneMoreInBox(Mailbox(WithMail(mail, id, m), c), Mailbox(mail, c), id);
      }
    }
  }

  predicate Empty(m: Mail) { m.alz == 0 && m.goods.kind == 0 }

  /** The physical delete keeps every mailbox bounded, and loses nothing if what a receiver deleted is empty. */
  lemma CleanupHarmless(db: Db, id: int)
    ensures BoxesBounded(db.mail) ==> BoxesBounded(Cleanup(db.mail, id))
    ensures (id in db.mail && db.mail[id].deletedReceiver ==> Empty(db.mail[id])) ==>
              && TotalAlz(db.(mail := Cleanup(db.mail, id))) == TotalAlz(db)
              && TotalGoods(db.(mail := Cleanup(db.mail, id))) == TotalGoods(db)
  {
    hide Totals.Sum, Totals.Bag, Mailbox;
    if BoxesBounded(db.mail) {
      BoxesAfterCleanup(db.mail, id);
    }
    if id in db.mail && (db.mail[id].deletedReceiver ==> Empty(db.mail[id])) {
      assert db.mail[id := db.mail[id]] == db.mail;
      FlagConserves(db, id, db.mail[id]);
    }
  }

  lemma PutKeepsPost(db: Db, id: int, m: Mail, after: Db)
    requires PostInvariant(db) && id < after.nextMail && db.nextMail <= after.nextMail && MailSane(m)
    requires m.deletedReceiver || Receivable(db, m.receiver, id) || |Mailbox(db.mail, m.receiver)| < MAX_MAILBOX
    requires after.mail == db.mail[id := m]
    ensures PostInvariant(after)
  {
    hide Mailbox;
    BoxesAfterPut(db, id, m);
  }

  lemma FlagKeepsPost(db: Db, id: int, m: Mail, after: Db)
    requires PostInvariant(db) && id in db.mail && after.nextMail == db.nextMail
    requires m.receiver == db.mail[id].receiver && (db.mail[id].deletedReceiver ==> m.deletedReceiver)
    requires m.deletedReceiver ==> m.alz == 0 && m.goods.kind == 0
    requires after.mail == Cleanup(db.mail[id := m], id)
    ensures PostInvariant(after)
  {
    hide Mailbox;
    BoxesAfterPut(db, id, m);
    BoxesAfterCleanup(db.mail[id := m], id);
  }

  lemma PostInvariantKept(db: Db, r: Request)
    requires PostInvariant(db)
    ensures PostInvariant(Step(db, r))
  {
    hide PostInvariant, TradeAccepted, TradeFaulty, FirstFree;
    var after := Step(db, r);
    if after.mail == db.mail {
      SamePost(db, after);
    } else {
      PostRow(db, r);
      match r
      case Send(s) => PutKeepsPost(db, db.nextMail, after.mail[db.nextMail], after);
      case TakeAlz(c, id) => PutKeepsPost(db, id, after.mail[id], after);
      case TakeItem(c, id, slot) => PutKeepsPost(db, id, after.mail[id], after);
      case Return(c, id) => PutKeepsPost(db, id, after.mail[id], after);
      case DeleteReceived(c, id) => FlagKeepsPost(db, id, db.mail[id].(deletedReceiver := true), after);
      case DeleteSent(c, id) => FlagKeepsPost(db, id, db.mail[id].(deletedSender := true), after);
    }
  }

  lemma PostRow(db: Db, r: Request)
    requires PostInvariant(db)
    ensures forall id :: id in db.mail ==> id < db.nextMail && MailSane(db.mail[id])
  {
  }

  lemma SamePost(db: Db, after: Db)
    requires PostInvariant(db) && after.mail == db.mail && after.nextMail >= db.nextMail
    ensures PostInvariant(after)
  {
  }

  lemma StepConserves(db: Db, r: Request)
    requires PostInvariant(db) && Honest(r)
    ensures TotalAlz(Step(db, r)) + Charged(db, r) == TotalAlz(db)
    ensures TotalGoods(Step(db, r)) == TotalGoods(db)
  {
    hide Totals.Sum, Totals.Bag, TradeItems, StorageMove, SendMail, ReceiveMailAlz, ReceiveMailItem, ReturnMail, Fee;
    match r
    case Trade(t) => TradeConserves(db, t);
    case Store(c, from, a, to, b) => StorageMoveConserves(db, c, from, a, to, b);
    case Send(s) => SendConserves(db, s);
    case TakeAlz(c, id) => TakeAlzConserves(db, c, id);
    case TakeItem(c, id, slot) => TakeItemConserves(db, c, id, slot);
    case Return(c, id) => ReturnConserves(db, c, id);
    case DeleteReceived(c, id) =>
      if Step(db, r) != db {
        FlagConserves(db, id, db.mail[id].(deletedReceiver := true));
      }
    case DeleteSent(c, id) =>
      if Step(db, r) != db {
        FlagConserves(db, id, db.mail[id].(deletedSender := true));
      }
  }

  /** What a handler owes the ledger: in a post that is in order, it leaves the post in order, lowers the total of Alz
      by exactly the fee it charges, and keeps the goods unless it is told to post an item it does not have. */
  ghost predicate Accounted(db: Db, r: Request, after: Db) {
    PostInvariant(db) ==>
      && PostInvariant(after) && TotalAlz(after) + Charged(db, r) == TotalAlz(db)
      && (Honest(r) ==> TotalGoods(after) == TotalGoods(db))
  }

  lemma StepAccounted(db: Db, r: Request)
    ensures Accounted(db, r, Step(db, r))
  {
    if PostInvariant(db) {
      PostInvariantKept(db, r);
      if Honest(r) {
        StepConserves(db, r);
      } else {
        PostRow(db, r);
        hide PostInvariant, SendMail, TotalAlz, TotalGoods, Charged;
        SendConserves(db, r.send);
      }
    }
  }

  /** Over every run of trades, storage moves and mail: the total of Alz falls by exactly the attachment
      fees charged, the multiset of goods is constant, and the post stays in order. */
  lemma {:induction false} RunConserves(db: Db, rs: seq<Request>)
    requires PostInvariant(db) && forall r :: r in rs ==> Honest(r)
    ensures TotalAlz(Run(db, rs)) + AllCharged(db, rs) == TotalAlz(db)
    ensures TotalGoods(Run(db, rs)) == TotalGoods(db)
    ensures PostInvariant(Run(db, rs))
    decreases |rs|
  {
    hide Step;
    if rs != [] {
      StepConserves(db, rs[0]);
      PostInvariantKept(db, rs[0]);
      RunConserves(Step(db, rs[0]), rs[1..]);
    }
  }

  /** The physical delete removes only mail that holds nothing: a row that vanishes was empty. */
  lemma OnlyEmptyMailVanishes(db: Db, r: Request, id: int)
    requires PostInvariant(db) && id in db.mail && id !in Step(db, r).mail
    ensures db.mail[id].alz == 0 && db.mail[id].goods.kind == 0
  {
  }

  /** Character 8 sends goods to character 16 in a request that says it attaches none: they come out of nothing. */
  lemma UnattachedGoodsAppear()
    ensures var db := Db(map[8 := 0, 16 := 0], map[], map[], map[], 1);
            var s := SendRequest(8, 16, true, 0, 0, Goods(7, 0, 0, 0), false);
            PostInvariant(db) && Posted(db, s) && TotalGoods(SendMail(db, s).0) != TotalGoods(db)
  {
    var db := Db(map[8 := 0, 16 := 0], map[], map[], map[], 1);
    var s := SendRequest(8, 16, true, 0, 0, Goods(7, 0, 0, 0), false);
    assert forall c :: Mailbox(db.mail, c) == {};
    SendConserves(db, s);
  }
}
