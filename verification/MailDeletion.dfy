/** Deleting mail takes several statements outside a transaction (cmd/masterserver/rpc/mail.go): a look at the
    attachments, a flag, and a physical delete. Here each statement is a step of its own, and any requests and any other
    statements may come in between. */
module MailDeletion {
  import opened Totals
  import opened Economy
  import opened Ledger

  /** `looked` remembers which handlers have seen their mail without attachments; they may flag it at any later time,
      and more than once. */
  datatype State = State(db: Db, looked: set<(int, int)>)

  datatype Event =
    | Whole(request: Request)
    | Look(c: int, id: int)
    | FlagReceived(c: int, id: int)
    | FlagSent(c: int, id: int)
    | Clean(id: int)

  /** A request that is one transaction, or one of the statements of a delete. */
  predicate Possible(e: Event) {
    e.Whole? ==> !e.request.DeleteReceived? && !e.request.DeleteSent?
  }

  /** `UPDATE ... SET deleted_receiver = 1 WHERE id, receiver and not deleted`. */
  function FlaggedReceived(db: Db, c: int, id: int): Db {
    if Receivable(db, c, id) then db.(mail := db.mail[id := db.mail[id].(deletedReceiver := true)]) else db
  }

  predicate Sendable(db: Db, c: int, id: int) {
    id in db.mail && db.mail[id].sender == c && !db.mail[id].deletedSender
  }

  /** `UPDATE ... SET deleted_sender = 1 WHERE id, sender and not deleted`. */
  function FlaggedSent(db: Db, c: int, id: int): Db {
    if Sendable(db, c, id) then db.(mail := db.mail[id := db.mail[id].(deletedSender := true)]) else db
  }

  function Cleaned(db: Db, id: int): Db { db.(mail := Cleanup(db.mail, id)) }

  function Advance(s: State, e: Event): State {
    match e
    case Whole(r) => s.(db := Step(s.db, r))
    case Look(c, id) =>
      if Receivable(s.db, c, id) && Empty(s.db.mail[id]) then s.(looked := s.looked + {(c, id)}) else s
    case FlagReceived(c, id) => if (c, id) in s.looked then s.(db := FlaggedReceived(s.db, c, id)) else s
    case FlagSent(c, id) => s.(db := FlaggedSent(s.db, c, id))
    case Clean(id) => s.(db := Cleaned(s.db, id))
  }

  function After(s: State, es: seq<Event>, n: nat): State
    requires n <= |es|
  {
    if n == 0 then s else Advance(After(s, es, n - 1), es[n - 1])
  }

  function Cost(s: State, e: Event): nat {
    if e.Whole? then Charged(s.db, e.request) else 0
  }

  function AllCost(s: State, es: seq<Event>, n: nat): nat
    requires n <= |es|
  {
    if n == 0 then 0 else AllCost(s, es, n - 1) + Cost(After(s, es, n - 1), es[n - 1])
  }

  predicate HonestEvent(e: Event) { e.Whole? ==> Honest(e.request) }

  /** The order of the post while deletes are under way: a mail may be flagged by both sides and still be there. */
  ghost predicate OpenPost(db: Db) {
    && (forall id :: id in db.mail ==> id < db.nextMail && (db.mail[id].deletedReceiver ==> Empty(db.mail[id])))
    && BoxesBounded(db.mail)
  }

  /** A mail once seen without attachments has none, if it is still there. */
  predicate SeenEmpty(s: State) {
    forall x :: x in s.looked ==> x.1 < s.db.nextMail && (x.1 in s.db.mail ==> Empty(s.db.mail[x.1]))
  }

  ghost predicate InOrder(s: State) { OpenPost(s.db) && SeenEmpty(s) }

  // --- Attachments only shrink, and ids are not used again. ---

  predicate Shrinks(db: Db, after: Db) {
    && after.nextMail >= db.nextMail
    && forall id :: id in after.mail && id < db.nextMail ==>
         id in db.mail && (Empty(db.mail[id]) ==> Empty(after.mail[id]))
  }

  lemma RequestShrinks(db: Db, r: Request)
    requires !r.DeleteReceived? && !r.DeleteSent?
    ensures Shrinks(db, Step(db, r))
  {
    hide TradeAccepted, TradeFaulty, FirstFree, Mailbox, MoveAll;
  }

  lemma ShrinkKeepsSeen(s: State, after: Db)
    requires SeenEmpty(s) && Shrinks(s.db, after)
    ensures SeenEmpty(s.(db := after))
  {
  }

  // --- Transactions. ---

  lemma PutKeepsOpen(db: Db, id: int, m: Mail, after: Db)
    requires OpenPost(db) && id < after.nextMail && db.nextMail <= after.nextMail && (m.deletedReceiver ==> Empty(m))
    requires m.deletedReceiver || Receivable(db, m.receiver, id) || |Mailbox(db.mail, m.receiver)| < MAX_MAILBOX
    requires after.mail == db.mail[id := m]
    ensures OpenPost(after)
  {
    hide Mailbox;
    BoxesAfterPut(db, id, m);
  }

  lemma OpenIds(db: Db)
    requires OpenPost(db)
    ensures forall id :: id in db.mail ==> id < db.nextMail
    ensures forall id :: id in db.mail && db.mail[id].deletedReceiver ==> Empty(db.mail[id])
  {
  }

  lemma SameMail(db: Db, after: Db)
    requires OpenPost(db) && after.mail == db.mail && after.nextMail >= db.nextMail
    ensures OpenPost(after)
  {
  }

  lemma RequestKeepsOpen(db: Db, r: Request)
    requires OpenPost(db) && !r.DeleteReceived? && !r.DeleteSent?
    ensures OpenPost(Step(db, r))
  {
    hide OpenPost, TradeAccepted, TradeFaulty, FirstFree, MoveAll;
    var after := Step(db, r);
    if after.mail == db.mail {
      SameMail(db, after);
    } else {
      OpenIds(db);
      match r {
        case Send(s) => PutKeepsOpen(db, db.nextMail, after.mail[db.nextMail], after);
        case TakeAlz(c, id) => PutKeepsOpen(db, id, after.mail[id], after);
        case TakeItem(c, id, slot) => PutKeepsOpen(db, id, after.mail[id], after);
        case Return(c, id) => PutKeepsOpen(db, id, after.mail[id], after);
      }
    }
  }

  /** Alz and goods as they were, up to what was charged. */
  ghost predicate Balanced(db: Db, after: Db, charged: nat) {
    TotalAlz(after) + charged == TotalAlz(db) && TotalGoods(after) == TotalGoods(db)
  }

  lemma RequestBalances(db: Db, r: Request)
    requires OpenPost(db) && Honest(r) && !r.DeleteReceived? && !r.DeleteSent?
    ensures Balanced(db, Step(db, r), Charged(db, r))
  {
    OpenIds(db);
    hide OpenPost, TotalAlz, TotalGoods, TradeItems, StorageMove, SendMail, ReceiveMailAlz, ReceiveMailItem,
      ReturnMail, Fee;
    match r {
      case Trade(t) => TradeConserves(db, t);
      case Store(c, from, a, to, b) => StorageMoveConserves(db, c, from, a, to, b);
      case Send(s) => SendConserves(db, s);
      case TakeAlz(c, id) => TakeAlzConserves(db, c, id);
      case TakeItem(c, id, slot) => TakeItemConserves(db, c, id, slot);
      case Return(c, id) => ReturnConserves(db, c, id);
    }
  }

  // --- Statements. ---

  lemma FlagBalances(db: Db, id: int, m: Mail, after: Db)
    requires id in db.mail && m.alz == db.mail[id].alz && m.goods == db.mail[id].goods
    requires after == db.(mail := db.mail[id := m])
    ensures Balanced(db, after, 0)
  {
    hide Totals.Sum, Totals.Bag;
    PutMail(db, id, m);
  }

  /** Flagging a mail that has no attachments, at whatever time. */
  lemma FlagReceivedOk(db: Db, c: int, id: int)
    requires OpenPost(db) && (id in db.mail ==> Empty(db.mail[id]))
    ensures OpenPost(FlaggedReceived(db, c, id)) && Shrinks(db, FlaggedReceived(db, c, id))
    ensures Balanced(db, FlaggedReceived(db, c, id), 0)
  {
    var after := FlaggedReceived(db, c, id);
    OpenIds(db);
    if Receivable(db, c, id) {
      PutKeepsOpen(db, id, after.mail[id], after);
      FlagBalances(db, id, after.mail[id], after);
    }
  }

  lemma FlagSentOk(db: Db, c: int, id: int)
    requires OpenPost(db)
    ensures OpenPost(FlaggedSent(db, c, id)) && Shrinks(db, FlaggedSent(db, c, id))
    ensures Balanced(db, FlaggedSent(db, c, id), 0)
  {
    var after := FlaggedSent(db, c, id);
    OpenIds(db);
    if Sendable(db, c, id) {
      PutKeepsOpen(db, id, after.mail[id], after);
      FlagBalances(db, id, after.mail[id], after);
    }
  }

  /** The physical delete, at whatever time: what it takes is empty. */
  lemma CleanOk(db: Db, id: int)
    requires OpenPost(db)
    ensures OpenPost(Cleaned(db, id)) && Shrinks(db, Cleaned(db, id))
    ensures Balanced(db, Cleaned(db, id), 0)
    ensures id in db.mail && id !in Cleaned(db, id).mail ==> Empty(db.mail[id])
  {
    OpenIds(db);
    CleanupHarmless(db, id);
    hide TotalAlz, TotalGoods, BoxesBounded, Mailbox;
  }

  // --- Every interleaving. ---

  lemma AdvanceKeeps(s: State, e: Event)
    requires InOrder(s) && Possible(e) && HonestEvent(e)
    ensures InOrder(Advance(s, e)) && Balanced(s.db, Advance(s, e).db, Cost(s, e))
  {
    OpenIds(s.db);
    hide OpenPost, Balanced, Step, FlaggedReceived, FlaggedSent, Cleaned, Charged;
    match e
    case Whole(r) =>
      RequestKeepsOpen(s.db, r);
      RequestBalances(s.db, r);
      RequestShrinks(s.db, r);
      ShrinkKeepsSeen(s, Step(s.db, r));
    case Look(c, id) => SameBalance(s.db);
    case FlagReceived(c, id) =>
      SameBalance(s.db);
      if (c, id) in s.looked {
        FlagReceivedOk(s.db, c, id);
        ShrinkKeepsSeen(s, FlaggedReceived(s.db, c, id));
      }
    case FlagSent(c, id) =>
      FlagSentOk(s.db, c, id);
      ShrinkKeepsSeen(s, FlaggedSent(s.db, c, id));
    case Clean(id) =>
      CleanOk(s.db, id);
      ShrinkKeepsSeen(s, Cleaned(s.db, id));
  }

  lemma SameBalance(db: Db)
    ensures Balanced(db, db, 0)
  {
  }

  /** In every interleaving of requests and of the statements of deletes: the total of Alz falls by exactly the fees
      charged, the goods are constant, a mail deleted by its receiver is empty, and no mailbox is over its limit. */
  lemma {:induction false} InterleavedConserves(s: State, es: seq<Event>, n: nat)
    requires InOrder(s) && n <= |es| && forall k :: 0 <= k < n ==> Possible(es[k]) && HonestEvent(es[k])
    ensures InOrder(After(s, es, n)) && Balanced(s.db, After(s, es, n).db, AllCost(s, es, n))
    decreases n
  {
    hide InOrder, Advance, Possible, HonestEvent, TotalAlz, TotalGoods, Cost;
    if n > 0 {
      InterleavedConserves(s, es, n - 1);
      AdvanceKeeps(After(s, es, n - 1), es[n - 1]);
    }
  }

  /** Whatever comes in between, a mail that disappears at a step was empty. */
  lemma OnlyEmptyGoes(s: State, e: Event, id: int)
    requires InOrder(s) && Possible(e) && id in s.db.mail && id !in Advance(s, e).db.mail
    ensures Empty(s.db.mail[id])
  {
    match e
    case Clean(k) => CleanOk(s.db, k);
    case _ => RequestsKeepRows(s.db, e, id);
  }

  lemma RequestsKeepRows(db: Db, e: Event, id: int)
    requires Possible(e) && !e.Clean? && id in db.mail
    ensures e.Whole? ==> id in Step(db, e.request).mail
    ensures e.FlagReceived? ==> id in FlaggedReceived(db, e.c, e.id).mail
    ensures e.FlagSent? ==> id in FlaggedSent(db, e.c, e.id).mail
  {
    hide TradeAccepted, TradeFaulty, FirstFree, Mailbox, MoveAll;
  }

  /** Without anything in between, the statements are the delete. */
  lemma Uninterrupted(db: Db, c: int, id: int)
    requires PostInvariant(db) && c > 0 && id > 0
    ensures DeleteReceivedMail(db, c, id).0 ==
      (if Receivable(db, c, id) && Empty(db.mail[id]) then Cleaned(FlaggedReceived(db, c, id), id) else db)
    ensures DeleteSentMail(db, c, id).0 == (if Sendable(db, c, id) then Cleaned(FlaggedSent(db, c, id), id) else db)
  {
  }
}
