/** Who holds what: the Alz and the goods of each character, carried, stored and waiting in its mail, and how every
    request moves them between characters. */
module Holdings {
  import opened Numbers
  import opened Totals
  import opened Economy
  import opened Ledger

  /** The rows of `x`. */
  function Of(m: Storage, x: int): Storage {
    map p | p in m && p.owner == x :: m[p]
  }

  /** The mail addressed to `x`. */
  function PostOf(mail: map<int, Mail>, x: int): map<int, Mail> {
    map id | id in mail && mail[id].receiver == x :: mail[id]
  }

  function Purse(alz: map<int, U64>, x: int): nat {
    if x in alz then alz[x] else 0
  }

  ghost function AlzInPost(mail: map<int, Mail>, x: int): nat { Sum(PostOf(mail, x), Enclosed) }
  ghost function GoodsInPost(mail: map<int, Mail>, x: int): multiset<Goods> { Bag(PostOf(mail, x), Attached) }
  ghost function GoodsIn(m: Storage, x: int): multiset<Goods> { Bag(Of(m, x), One) }

  /** The Alz that is `x`'s: in its purse and in the mail addressed to it. */
  ghost function AlzHeld(db: Db, x: int): nat {
    Purse(db.alz, x) + AlzInPost(db.mail, x)
  }

  /** The goods that are `x`'s: carried, stored and in the mail addressed to it. */
  ghost function GoodsHeld(db: Db, x: int): multiset<Goods> {
    GoodsIn(db.inventory, x) + GoodsIn(db.warehouse, x) + GoodsInPost(db.mail, x)
  }

  // --- Writing one row. ---

  /** `x` keeps what it has, but for `gain` more and `loss` less. */
  predicate Shifted(before: multiset<Goods>, after: multiset<Goods>, gain: multiset<Goods>, loss: multiset<Goods>) {
    after + loss == before + gain
  }

  function If(b: bool, g: multiset<Goods>): multiset<Goods> { if b then g else multiset{} }

  lemma RowAdded(m: Storage, p: Place, g: Goods, x: int)
    requires p !in m
    ensures GoodsIn(m[p := g], x) == GoodsIn(m, x) + If(p.owner == x, multiset{g})
  {
    hide Totals.Bag;
    if p.owner == x {
      BagPut(Of(m, x), One, p, g);
      assert Of(m[p := g], x) == Of(m, x)[p := g];
      assert Bag(Of(m, x)[p := g], One) + multiset{} == Bag(Of(m, x)[p := g], One);
    } else {
      assert Of(m[p := g], x) == Of(m, x);
    }
  }

  lemma RowTaken(m: Storage, p: Place, x: int)
    requires p in m
    ensures GoodsIn(m, x) == GoodsIn(m - {p}, x) + If(p.owner == x, multiset{m[p]})
  {
    assert m == (m - {p})[p := m[p]];
    RowAdded(m - {p}, p, m[p], x);
  }

  function AlzTo(m: Mail, x: int): nat { if m.receiver == x then m.alz else 0 }

  function GoodsTo(m: Mail, x: int): multiset<Goods> { If(m.receiver == x, Attached(m)) }

  lemma MailAdded(mail: map<int, Mail>, id: int, m: Mail, x: int)
    requires id !in mail
    ensures AlzInPost(mail[id := m], x) == AlzInPost(mail, x) + AlzTo(m, x)
    ensures GoodsInPost(mail[id := m], x) == GoodsInPost(mail, x) + GoodsTo(m, x)
  {
    hide Totals.Bag, Totals.Sum, Attached;
    if m.receiver == x {
      SumPut(PostOf(mail, x), Enclosed, id, m);
      BagPut(PostOf(mail, x), Attached, id, m);
      var post := PostOf(mail, x)[id := m];
      assert PostOf(mail[id := m], x) == post;
      assert Bag(post, Attached) + multiset{} == Bag(post, Attached);
    } else {
      assert PostOf(mail[id := m], x) == PostOf(mail, x);
    }
  }

  lemma MailGone(mail: map<int, Mail>, id: int, x: int)
    requires id in mail
    ensures AlzInPost(mail, x) == AlzInPost(mail - {id}, x) + AlzTo(mail[id], x)
    ensures GoodsInPost(mail, x) == GoodsInPost(mail - {id}, x) + GoodsTo(mail[id], x)
  {
    assert mail == (mail - {id})[id := mail[id]];
    MailAdded(mail - {id}, id, mail[id], x);
  }

  lemma MailRewritten(mail: map<int, Mail>, id: int, m: Mail, x: int)
    requires id in mail
    ensures AlzInPost(mail[id := m], x) + AlzTo(mail[id], x) == AlzInPost(mail, x) + AlzTo(m, x)
    ensures GoodsInPost(mail[id := m], x) + GoodsTo(mail[id], x) == GoodsInPost(mail, x) + GoodsTo(m, x)
  {
    MailGone(mail, id, x);
    MailAdded(mail - {id}, id, m, x);
    assert (mail - {id})[id := m] == mail[id := m];
    hide *;
    var rest := GoodsInPost(mail - {id}, x);
    assert rest + GoodsTo(m, x) + GoodsTo(mail[id], x) == rest + GoodsTo(mail[id], x) + GoodsTo(m, x);
  }

  // --- What a request moves. ---

  function GoodsOf(ts: seq<Transfer>): multiset<Goods> {
    if ts == [] then multiset{} else GoodsOf(ts[..|ts| - 1]) + multiset{ts[|ts| - 1].goods}
  }

  predicate Granted(db: Db, r: Request) {
    match r
    case Trade(t) => TradeItems(db, t).1.Traded?
    case Send(s) => Posted(db, s)
    case Return(c, id) => ReturnMail(db, c, id).1 == ReturnOK
    case _ => false
  }

  /** What one request moves from `x` to others: a trade what `x` puts up, a mail what is enclosed and the fee, a
      returned mail what it holds. Nothing else moves anything from anyone. */
  function AlzOut(db: Db, r: Request, x: int): nat {
    if !Granted(db, r) then 0
    else match r
      case Trade(t) => (if x == t.first then t.firstAlz else 0) + (if x == t.second then t.secondAlz else 0)
      case Send(s) => if x == s.sender then s.alz + Fee(s) else 0
      case Return(c, id) => if x == c then db.mail[id].alz else 0
      case _ => 0
  }

  /** What it moves to `x`: in a trade what the other side puts up, a mail to its receiver, a returned mail to its
      sender. */
  function AlzIn(db: Db, r: Request, x: int): nat {
    if !Granted(db, r) then 0
    else match r
      case Trade(t) => (if x == t.first then t.secondAlz else 0) + (if x == t.second then t.firstAlz else 0)
      case Send(s) => if x == s.receiver then s.alz else 0
      case Return(c, id) => if x == db.mail[id].sender then db.mail[id].alz else 0
      case _ => 0
  }

  function GoodsOut(db: Db, r: Request, x: int): multiset<Goods> {
    if !Granted(db, r) then multiset{}
    else match r
      case Trade(t) => If(x == t.first, GoodsOf(t.firstItems)) + If(x == t.second, GoodsOf(t.secondItems))
      case Send(s) => If(x == s.sender && s.hasItem, multiset{s.goods})
      case Return(c, id) => If(x == c, Attached(db.mail[id]))
      case _ => multiset{}
  }

  function GoodsCome(db: Db, r: Request, x: int): multiset<Goods> {
    if !Granted(db, r) then multiset{}
    else match r
      case Trade(t) => If(x == t.first, GoodsOf(t.secondItems)) + If(x == t.second, GoodsOf(t.firstItems))
      case Send(s) => If(x == s.receiver && s.goods.kind != 0, multiset{s.goods})
      case Return(c, id) => If(x == db.mail[id].sender, Attached(db.mail[id]))
      case _ => multiset{}
  }

  /** The law of one request. */
  ghost predicate Moves(db: Db, r: Request, after: Db, x: int) {
    && AlzHeld(after, x) + AlzOut(db, r, x) == AlzHeld(db, x) + AlzIn(db, r, x)
    && Shifted(GoodsHeld(db, x), GoodsHeld(after, x), GoodsCome(db, r, x), GoodsOut(db, r, x))
  }

  // --- Trade. ---

  /** Moving one row of `source` to `dest`. */
  lemma OneRowHeld(m: Storage, from: Place, to: Place, g: Goods, x: int)
    requires from in m && m[from] == g && to !in m
    ensures GoodsIn(m, x) == GoodsIn(m - {from}, x) + If(from.owner == x, multiset{g})
    ensures GoodsIn((m - {from})[to := g], x) == GoodsIn(m - {from}, x) + If(to.owner == x, multiset{g})
  {
    RowTaken(m, from, x);
    RowAdded(m - {from}, to, g, x);
  }

  lemma GoodsOfMore(ts: seq<Transfer>, n: nat)
    requires 0 < n <= |ts|
    ensures GoodsOf(ts[..n]) == GoodsOf(ts[..n - 1]) + multiset{ts[n - 1].goods}
    ensures GoodsOf(ts[..0]) == multiset{}
  {
    assert ts[..n][..n - 1] == ts[..n - 1];
  }

  lemma {:induction false} MoveAllHeld(inv: Storage, source: int, dest: int, ts: seq<Transfer>, n: nat, x: int)
    requires source != dest && n <= |ts| && TransfersOk(inv, source, dest, ts)
    ensures GoodsIn(MoveAll(inv, source, dest, ts[..n]), x) + If(x == source, GoodsOf(ts[..n]))
            == GoodsIn(inv, x) + If(x == dest, GoodsOf(ts[..n]))
    decreases n
  {
    hide *;
    if n == 0 {
      MoveNothing(inv, source, dest, ts[..0]);
      NothingHeld(ts[..0], x == source, x == dest);
    } else {
      MoveAllHeld(inv, source, dest, ts, n - 1, x);
      MoveAllOneMore(inv, source, dest, ts, n - 1);
      GoodsOfMore(ts, n);
      var before := MoveAll(inv, source, dest, ts[..n - 1]);
      var t := ts[n - 1];
      var from, to := Place(source, t.slot), Place(dest, t.target);
      OneRowHeld(before, from, to, t.goods, x);
      OneMoreHeld(GoodsIn(inv, x), GoodsIn(before, x), GoodsIn(before - {from}, x), GoodsOf(ts[..n - 1]), t.goods,
                  x == source, x == dest);
    }
  }

  lemma NothingHeld(ts: seq<Transfer>, out: bool, come: bool)
    requires ts == []
    ensures If(out, GoodsOf(ts)) == If(come, GoodsOf(ts)) == multiset{}
  {
  }

  lemma OneMoreHeld(all: multiset<Goods>, before: multiset<Goods>, taken: multiset<Goods>, moved: multiset<Goods>,
                    g: Goods, out: bool, come: bool)
    requires before + If(out, moved) == all + If(come, moved)
    requires before == taken + If(out, multiset{g})
    ensures taken + If(come, multiset{g}) + If(out, moved + multiset{g}) == all + If(come, moved + multiset{g})
  {
    forall h ensures (taken + If(come, multiset{g}) + If(out, moved + multiset{g}))[h]
                     == (all + If(come, moved + multiset{g}))[h] {
      assert (before + If(out, moved))[h] == (all + If(come, moved))[h];
    }
  }

  lemma TradeGoods(db: Db, t: TradeRequest, x: int)
    requires TradeItems(db, t).1.Traded?
    ensures GoodsIn(TradeItems(db, t).0.inventory, x) + GoodsOut(db, Trade(t), x)
            == GoodsIn(db.inventory, x) + GoodsCome(db, Trade(t), x)
  {
    hide Totals.Bag, Economy.Arrivals, Economy.Sources, GoodsIn, MoveAll, GoodsOf, TransfersOk, Of;
    var inv := db.inventory;
    var half := MoveAll(inv, t.first, t.second, t.firstItems);
    assert t.firstItems[..|t.firstItems|] == t.firstItems && t.secondItems[..|t.secondItems|] == t.secondItems;
    MoveAllHeld(inv, t.first, t.second, t.firstItems, |t.firstItems|, x);
    OtherDirectionStillOk(inv, t.first, t.second, t.firstItems, t.secondItems);
    MoveAllHeld(half, t.second, t.first, t.secondItems, |t.secondItems|, x);
    Chain(GoodsIn(inv, x), GoodsIn(half, x), GoodsIn(TradeItems(db, t).0.inventory, x),
          If(x == t.first, GoodsOf(t.firstItems)), If(x == t.second, GoodsOf(t.firstItems)),
          If(x == t.second, GoodsOf(t.secondItems)), If(x == t.first, GoodsOf(t.secondItems)));
  }

  lemma Chain(a: multiset<Goods>, b: multiset<Goods>, c: multiset<Goods>, out: multiset<Goods>, come: multiset<Goods>,
              out2: multiset<Goods>, come2: multiset<Goods>)
    requires b + out == a + come && c + out2 == b + come2
    ensures c + (out + out2) == a + (come2 + come)
  {
    forall h ensures (c + (out + out2))[h] == (a + (come2 + come))[h] {
      assert (b + out)[h] == (a + come)[h] && (c + out2)[h] == (b + come2)[h];
    }
  }

  lemma TradeMoves(db: Db, t: TradeRequest, x: int)
    ensures Moves(db, Trade(t), Step(db, Trade(t)), x)
  {
    var (after, reply) := TradeItems(db, t);
    TradeTables(db, t, x);
    if reply.Traded? {
      TradeGoods(db, t, x);
      hide TradeItems, TradeAccepted, TradeFaulty, GoodsIn, AlzInPost, GoodsInPost, AlzIn, AlzOut, GoodsOut,
           GoodsCome, Purse;
      SpreadBoth(GoodsIn(db.inventory, x), GoodsIn(after.inventory, x), GoodsOut(db, Trade(t), x),
                 GoodsCome(db, Trade(t), x), GoodsIn(db.warehouse, x), GoodsInPost(db.mail, x));
    }
  }

  lemma TradeTables(db: Db, t: TradeRequest, x: int)
    ensures var (after, reply) := TradeItems(db, t);
            && after.warehouse == db.warehouse && after.mail == db.mail && (!reply.Traded? ==> after == db)
            && Purse(after.alz, x) + AlzOut(db, Trade(t), x) == Purse(db.alz, x) + AlzIn(db, Trade(t), x)
  {
    hide TransfersOk, MoveAll;
  }

  /** What moves in one table moves in the total. */
  lemma SpreadBoth(a: multiset<Goods>, b: multiset<Goods>, out: multiset<Goods>, come: multiset<Goods>,
                   w: multiset<Goods>, p: multiset<Goods>)
    requires b + out == a + come
    ensures Shifted(a + w + p, b + w + p, come, out)
  {
    forall h ensures (b + w + p + out)[h] == (a + w + p + come)[h] {
      assert (b + out)[h] == (a + come)[h];
    }
  }

  // --- Storage. ---

  /** A row moved within a table, or from one table to another, stays its owner's. */
  lemma MovedWithin(m: Storage, p: Place, q: Place, x: int)
    requires p in m && q !in m && p.owner == q.owner
    ensures GoodsIn((m - {p})[q := m[p]], x) == GoodsIn(m, x)
  {
    RowTaken(m, p, x);
    RowAdded(m - {p}, q, m[p], x);
  }

  lemma MovedAcross(m: Storage, n: Storage, p: Place, q: Place, x: int)
    requires p in m && q !in n && p.owner == q.owner
    ensures GoodsIn(m - {p}, x) + GoodsIn(n[q := m[p]], x) == GoodsIn(m, x) + GoodsIn(n, x)
  {
    RowTaken(m, p, x);
    RowAdded(n, q, m[p], x);
    hide *;
    var a, g, b := GoodsIn(m - {p}, x), If(p.owner == x, multiset{m[p]}), GoodsIn(n, x);
    assert a + (b + g) == a + g + b;
  }

  lemma StoreTables(db: Db, c: int, from: StorageType, a: Slot, to: StorageType, b: Slot, x: int)
    ensures var after := StorageMove(db, c, from, a, to, b).0;
            && GoodsIn(after.inventory, x) + GoodsIn(after.warehouse, x)
               == GoodsIn(db.inventory, x) + GoodsIn(db.warehouse, x)
            && after.alz == db.alz && after.mail == db.mail
  {
    hide GoodsIn;
    if StorageMove(db, c, from, a, to, b).0 != db {
      var src, dst := Table(db, from), Table(db, to);
      if from == to {
        MovedWithin(src, Place(c, a), Place(c, b), x);
      } else {
        MovedAcross(src, dst, Place(c, a), Place(c, b), x);
        Swap(GoodsIn(src - {Place(c, a)}, x), GoodsIn(dst[Place(c, b) := src[Place(c, a)]], x));
        Swap(GoodsIn(src, x), GoodsIn(dst, x));
      }
    }
  }

  lemma Swap(a: multiset<Goods>, b: multiset<Goods>)
    ensures a + b == b + a
  {
  }

  lemma StoreMoves(db: Db, c: int, from: StorageType, a: Slot, to: StorageType, b: Slot, x: int)
    ensures Moves(db, Store(c, from, a, to, b), Step(db, Store(c, from, a, to, b)), x)
  {
    hide StorageMove, GoodsIn, AlzInPost, GoodsInPost;
    StoreTables(db, c, from, a, to, b, x);
  }

  // --- Mail. ---

  lemma SendMoves(db: Db, s: SendRequest, x: int)
    requires db.nextMail !in db.mail
    ensures Moves(db, Send(s), Step(db, Send(s)), x)
  {
    hide AlzInPost, GoodsInPost, GoodsIn, Mailbox;
    if Posted(db, s) {
      PostedMeans(db, s);
      hide Fee;
      var after := SendMail(db, s).0;
      var m := after.mail[db.nextMail];
      MailAdded(db.mail, db.nextMail, m, x);
      if s.hasItem {
        RowTaken(db.inventory, Place(s.sender, s.slot), x);
      }
      hide SendMail;
      SentGoods(GoodsIn(db.inventory, x), GoodsIn(after.inventory, x), GoodsIn(db.warehouse, x),
                GoodsInPost(db.mail, x), GoodsOut(db, Send(s), x), GoodsCome(db, Send(s), x));
      SentPurse(db, after, s, x);
    }
  }

  lemma SentGoods(a: multiset<Goods>, b: multiset<Goods>, w: multiset<Goods>, p: multiset<Goods>, out: multiset<Goods>,
                  come: multiset<Goods>)
    requires a == b + out
    ensures Shifted(a + w + p, b + w + (p + come), come, out)
  {
  }

  lemma SentPurse(db: Db, after: Db, s: SendRequest, x: int)
    requires s.sender in db.alz && s.alz + Fee(s) <= db.alz[s.sender]
    requires after.alz == db.alz[s.sender := db.alz[s.sender] - s.alz - Fee(s)]
    ensures Purse(after.alz, x) + (if x == s.sender then s.alz + Fee(s) else 0) == Purse(db.alz, x)
  {
    hide Fee;
  }

  lemma TakeAlzMoves(db: Db, c: int, id: int, x: int)
    ensures Moves(db, TakeAlz(c, id), Step(db, TakeAlz(c, id)), x)
  {
    hide AlzInPost, GoodsInPost, GoodsIn;
    var (after, reply) := ReceiveMailAlz(db, c, id);
    if reply == ActionDone {
      MailRewritten(db.mail, id, after.mail[id], x);
      Cancel(GoodsInPost(after.mail, x), GoodsInPost(db.mail, x), GoodsTo(db.mail[id], x));
    }
  }

  lemma TakeItemMoves(db: Db, c: int, id: int, slot: Slot, x: int)
    ensures Moves(db, TakeItem(c, id, slot), Step(db, TakeItem(c, id, slot)), x)
  {
    hide AlzInPost, GoodsInPost, GoodsIn, FirstFree;
    var (after, reply) := ReceiveMailItem(db, c, id, slot);
    if reply == ActionDone {
      var s := if slot == AUTO_SLOT then FirstFree(db.inventory, c, 0) else slot;
      MailRewritten(db.mail, id, after.mail[id], x);
      RowAdded(db.inventory, Place(c, s), db.mail[id].goods, x);
      assert GoodsInPost(after.mail, x) + GoodsTo(db.mail[id], x) == GoodsInPost(db.mail, x);
      TakenGoods(GoodsIn(db.inventory, x), GoodsInPost(after.mail, x), GoodsTo(db.mail[id], x),
                 GoodsIn(db.warehouse, x));
    }
  }

  lemma TakenGoods(a: multiset<Goods>, p: multiset<Goods>, g: multiset<Goods>, w: multiset<Goods>)
    ensures Shifted(a + w + (p + g), a + g + w + p, multiset{}, multiset{})
  {
  }

  lemma ReturnMeans(db: Db, c: int, id: int)
    ensures var (after, reply) := ReturnMail(db, c, id);
            && (reply != ReturnOK ==> after == db)
            && (reply == ReturnOK ==>
                 && id in db.mail && db.mail[id].receiver == c && id in after.mail
                 && after == db.(mail := db.mail[id := after.mail[id]]) && after.mail[id].receiver == db.mail[id].sender
                 && after.mail[id].alz == db.mail[id].alz && after.mail[id].goods == db.mail[id].goods)
  {
    hide Mailbox;
  }

  lemma ReturnMoves(db: Db, c: int, id: int, x: int)
    ensures Moves(db, Return(c, id), Step(db, Return(c, id)), x)
  {
    hide AlzInPost, GoodsInPost, GoodsIn, ReturnMail, Purse;
    ReturnMeans(db, c, id);
    var (after, reply) := ReturnMail(db, c, id);
    if reply == ReturnOK {
      MailRewritten(db.mail, id, after.mail[id], x);
      ReturnedGoods(GoodsIn(db.inventory, x), GoodsIn(db.warehouse, x), GoodsInPost(db.mail, x),
                    GoodsInPost(after.mail, x), GoodsTo(db.mail[id], x), GoodsTo(after.mail[id], x));
    }
  }

  lemma ReturnedGoods(a: multiset<Goods>, w: multiset<Goods>, p: multiset<Goods>, q: multiset<Goods>,
                      out: multiset<Goods>, come: multiset<Goods>)
    requires q + out == p + come
    ensures Shifted(a + w + p, a + w + q, come, out)
  {
    assert a + w + q + out == a + w + (q + out);
  }

  /** A mail flagged as deleted stays its receiver's; one physically deleted held nothing. */
  lemma FlagMoves(db: Db, id: int, m: Mail, x: int)
    requires id in db.mail && m.receiver == db.mail[id].receiver && m.alz == db.mail[id].alz
      && m.goods == db.mail[id].goods
    requires m.deletedReceiver ==> Empty(m)
    ensures AlzInPost(Cleanup(db.mail[id := m], id), x) == AlzInPost(db.mail, x)
    ensures GoodsInPost(Cleanup(db.mail[id := m], id), x) == GoodsInPost(db.mail, x)
  {
    hide AlzInPost, GoodsInPost;
    var flagged := db.mail[id := m];
    MailRewritten(db.mail, id, m, x);
    Cancel(GoodsInPost(flagged, x), GoodsInPost(db.mail, x), GoodsTo(m, x));
    MailGone(flagged, id, x);
    assert GoodsInPost(flagged - {id}, x) + multiset{} == GoodsInPost(flagged - {id}, x);
  }

  /** Every request moves what its sides hold exactly as it says, and no one else's: taking attachments, moving between
      inventory and warehouse and deleting mail move nothing between characters. */
  lemma StepMoves(db: Db, r: Request, x: int)
    requires PostInvariant(db)
    ensures Moves(db, r, Step(db, r), x)
  {
    PostRow(db, r);
    hide PostInvariant, AlzInPost, GoodsInPost, GoodsIn, TradeItems, StorageMove, SendMail, ReceiveMailAlz,
         ReceiveMailItem, ReturnMail, Fee;
    match r
    case Trade(t) => TradeMoves(db, t, x);
    case Store(c, from, a, to, b) => StoreMoves(db, c, from, a, to, b, x);
    case Send(s) => SendMoves(db, s, x);
    case TakeAlz(c, id) => TakeAlzMoves(db, c, id, x);
    case TakeItem(c, id, slot) => TakeItemMoves(db, c, id, slot, x);
    case Return(c, id) => ReturnMoves(db, c, id, x);
    case DeleteReceived(c, id) =>
      if Step(db, r) != db {
        FlagMoves(db, id, db.mail[id].(deletedReceiver := true), x);
      }
    case DeleteSent(c, id) =>
      if Step(db, r) != db {
        FlagMoves(db, id, db.mail[id].(deletedSender := true), x);
      }
  }

  /** What a handler owes each character: it moves what it says, and nothing else of anyone's. */
  ghost predicate Fair(db: Db, r: Request, after: Db) {
    PostInvariant(db) ==> forall x :: Moves(db, r, after, x)
  }

  lemma StepFair(db: Db, r: Request)
    ensures Fair(db, r, Step(db, r))
  {
    hide PostInvariant, Moves, Step;
    if PostInvariant(db) {
      forall x ensures Moves(db, r, Step(db, r), x) {
        StepMoves(db, r, x);
      }
    }
  }

  // --- Runs. ---

  function AllAlzOut(db: Db, rs: seq<Request>, x: int): nat
    decreases |rs|
  {
    if rs == [] then 0 else AlzOut(db, rs[0], x) + AllAlzOut(Step(db, rs[0]), rs[1..], x)
  }

  function AllAlzIn(db: Db, rs: seq<Request>, x: int): nat
    decreases |rs|
  {
    if rs == [] then 0 else AlzIn(db, rs[0], x) + AllAlzIn(Step(db, rs[0]), rs[1..], x)
  }

  function AllGoodsOut(db: Db, rs: seq<Request>, x: int): multiset<Goods>
    decreases |rs|
  {
    if rs == [] then multiset{} else GoodsOut(db, rs[0], x) + AllGoodsOut(Step(db, rs[0]), rs[1..], x)
  }

  function AllGoodsIn(db: Db, rs: seq<Request>, x: int): multiset<Goods>
    decreases |rs|
  {
    if rs == [] then multiset{} else GoodsCome(db, rs[0], x) + AllGoodsIn(Step(db, rs[0]), rs[1..], x)
  }

  /** Over every run each character holds what it held before, and what trades and mail brought it, and no longer what
      they took from it. */
  lemma {:induction false} RunMoves(db: Db, rs: seq<Request>, x: int)
    requires PostInvariant(db)
    ensures var after := Run(db, rs);
            && AlzHeld(after, x) + AllAlzOut(db, rs, x) == AlzHeld(db, x) + AllAlzIn(db, rs, x)
            && Shifted(GoodsHeld(db, x), GoodsHeld(after, x), AllGoodsIn(db, rs, x), AllGoodsOut(db, rs, x))
    decreases |rs|
  {
    hide Step, PostInvariant, AlzHeld, GoodsHeld, AlzIn, AlzOut, GoodsCome, GoodsOut;
    if rs != [] {
      var next := Step(db, rs[0]);
      StepMoves(db, rs[0], x);
      PostInvariantKept(db, rs[0]);
      RunMoves(next, rs[1..], x);
      TwoShifts(GoodsHeld(db, x), GoodsHeld(next, x), GoodsHeld(Run(db, rs), x), GoodsCome(db, rs[0], x),
                GoodsOut(db, rs[0], x), AllGoodsIn(next, rs[1..], x), AllGoodsOut(next, rs[1..], x));
    }
  }

  lemma TwoShifts(a: multiset<Goods>, b: multiset<Goods>, c: multiset<Goods>, come: multiset<Goods>,
                  out: multiset<Goods>, come2: multiset<Goods>, out2: multiset<Goods>)
    requires Shifted(a, b, come, out) && Shifted(b, c, come2, out2)
    ensures Shifted(a, c, come + come2, out + out2)
  {
    forall h ensures (c + (out + out2))[h] == (a + (come + come2))[h] {
      assert (b + out)[h] == (a + come)[h] && (c + out2)[h] == (b + come2)[h];
    }
  }
}
