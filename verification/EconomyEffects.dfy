/** What each request of the Master does, seen from outside: when it is granted, who gains what by it and where it
    comes to lie, and that everything else stands. */
module EconomyEffects {
  import opened Numbers
  import opened Economy
  import opened Ledger

  /** Nothing but row `k` may differ. */
  ghost predicate OnlyRow<K, V>(before: map<K, V>, after: map<K, V>, k: K) {
    before - {k} == after - {k}
  }

  // --- Taking attachments. ---

  /** Alz in a mail goes to the purse of its receiver if it fits there, and nowhere else. */
  lemma TakeAlzEffect(db: Db, c: int, id: int)
    ensures var (after, reply) := ReceiveMailAlz(db, c, id);
            && (reply == ActionDone <==>
                 && 0 < c && 0 < id && id in db.mail && db.mail[id].receiver == c && !db.mail[id].deletedReceiver
                 && db.mail[id].alz > 0 && c in db.alz && db.alz[c] + db.mail[id].alz <= MAX_U64)
            && (reply != ActionDone ==> after == db)
            && (reply == ActionDone ==>
                 && c in after.alz && after.alz[c] == db.alz[c] + db.mail[id].alz && OnlyRow(db.alz, after.alz, c)
                 && id in after.mail && after.mail[id].alz == 0 && after.mail[id].goods == db.mail[id].goods
                 && Receivable(after, c, id) && OnlyRow(db.mail, after.mail, id)
                 && after.inventory == db.inventory && after.warehouse == db.warehouse)
  {
  }

  /** What was taken cannot be taken again, and a mail something was taken from cannot be returned. */
  lemma TakenAlz(db: Db, c: int, id: int)
    requires ReceiveMailAlz(db, c, id).1 == ActionDone
    ensures var after := ReceiveMailAlz(db, c, id).0;
            && ReceiveMailAlz(after, c, id) == (after, ActionRefused)
            && ReturnMail(after, c, id) == (after, ReturnLocked)
  {
    Locks(db.mail[id].state);
  }

  lemma Locks(state: bv8)
    ensures (state | (STATE_READ | STATE_ALZ_RECEIVED)) & STATE_LOCKED != 0
    ensures (state | (STATE_READ | STATE_ITEM_RECEIVED)) & STATE_LOCKED != 0
  {
  }

  /** Where an item taken out of a mail is put: in the slot asked for, if that is free, or with none asked for in the
      lowest free one. */
  predicate Landing(inv: Storage, c: int, slot: Slot, s: Slot) {
    && Place(c, s) !in inv
    && (slot != 0xFFFF ==> s == slot)
    && (slot == 0xFFFF ==> s < 256 && forall k: Slot :: k < s ==> Place(c, k) in inv)
  }

  /** An item in a mail comes to lie in its receiver's inventory, and nowhere else. */
  lemma TakeItemEffect(db: Db, c: int, id: int, slot: Slot)
    ensures var (after, reply) := ReceiveMailItem(db, c, id, slot);
            && (reply == ActionDone <==>
                 && 0 < c && 0 < id && id in db.mail && db.mail[id].receiver == c && !db.mail[id].deletedReceiver
                 && db.mail[id].goods.kind != 0 && c in db.alz && exists s :: Landing(db.inventory, c, slot, s))
            && (reply != ActionDone ==> after == db)
            && (reply == ActionDone ==>
                 && (forall s :: Landing(db.inventory, c, slot, s) ==>
                       && Place(c, s) in after.inventory && after.inventory[Place(c, s)] == db.mail[id].goods
                       && OnlyRow(db.inventory, after.inventory, Place(c, s)))
                 && id in after.mail && after.mail[id].goods.kind == 0 && after.mail[id].alz == db.mail[id].alz
                 && Receivable(after, c, id) && OnlyRow(db.mail, after.mail, id)
                 && after.alz == db.alz && after.warehouse == db.warehouse)
  {
    hide FirstFree;
    if slot == AUTO_SLOT {
      LowestFree(db.inventory, c);
    } else {
      assert Place(c, slot) !in db.inventory ==> Landing(db.inventory, c, slot, slot);
    }
  }

  lemma LowestFree(inv: Storage, c: int)
    ensures var f := FirstFree(inv, c, 0);
            && (f < 256 <==> exists s :: Landing(inv, c, AUTO_SLOT, s))
            && (forall s :: Landing(inv, c, AUTO_SLOT, s) ==> s == f)
  {
    var f := FirstFree(inv, c, 0);
    if f < 256 {
      assert Landing(inv, c, AUTO_SLOT, f);
    }
    forall s | Landing(inv, c, AUTO_SLOT, s) ensures s == f {
    }
  }

  lemma TakenItem(db: Db, c: int, id: int, slot: Slot, again: Slot)
    requires ReceiveMailItem(db, c, id, slot).1 == ActionDone
    ensures var after := ReceiveMailItem(db, c, id, slot).0;
            && ReceiveMailItem(after, c, id, again) == (after, ActionRefused)
            && ReturnMail(after, c, id) == (after, ReturnLocked)
  {
    Locks(db.mail[id].state);
  }

  /** Alz and item are independent: taking one first changes neither whether the other can be taken nor what is left in
      the end. */
  lemma EitherFirst(db: Db, c: int, id: int, slot: Slot)
    ensures var (paid, gotAlz) := ReceiveMailAlz(db, c, id);
            var (carried, gotItem) := ReceiveMailItem(db, c, id, slot);
            && ReceiveMailItem(paid, c, id, slot).1 == gotItem
            && ReceiveMailAlz(carried, c, id).1 == gotAlz
            && ReceiveMailItem(paid, c, id, slot).0 == ReceiveMailAlz(carried, c, id).0
  {
    ItemAfterAlz(db, c, id, slot);
    AlzAfterItem(db, c, id, slot);
    if ReceiveMailAlz(db, c, id).1 == ActionDone && ReceiveMailItem(db, c, id, slot).1 == ActionDone {
      BothTaken(db, c, id, slot);
    }
    hide *;
  }

  lemma ItemAfterAlz(db: Db, c: int, id: int, slot: Slot)
    ensures var (paid, gotAlz) := ReceiveMailAlz(db, c, id);
            && (gotAlz != ActionDone ==> paid == db)
            && ReceiveMailItem(paid, c, id, slot).1 == ReceiveMailItem(db, c, id, slot).1
            && (ReceiveMailItem(db, c, id, slot).1 != ActionDone ==> ReceiveMailItem(paid, c, id, slot).0 == paid)
  {
    hide FirstFree;
  }

  lemma AlzAfterItem(db: Db, c: int, id: int, slot: Slot)
    ensures var (carried, gotItem) := ReceiveMailItem(db, c, id, slot);
            && (gotItem != ActionDone ==> carried == db)
            && ReceiveMailAlz(carried, c, id).1 == ReceiveMailAlz(db, c, id).1
            && (ReceiveMailAlz(db, c, id).1 != ActionDone ==> ReceiveMailAlz(carried, c, id).0 == carried)
  {
    hide FirstFree;
  }

  lemma BothTaken(db: Db, c: int, id: int, slot: Slot)
    requires ReceiveMailAlz(db, c, id).1 == ActionDone && ReceiveMailItem(db, c, id, slot).1 == ActionDone
    ensures ReceiveMailItem(ReceiveMailAlz(db, c, id).0, c, id, slot).0
            == ReceiveMailAlz(ReceiveMailItem(db, c, id, slot).0, c, id).0
  {
    hide FirstFree;
    BitsCommute(db.mail[id].state);
    var paid, carried := ReceiveMailAlz(db, c, id).0, ReceiveMailItem(db, c, id, slot).0;
    var a, b := ReceiveMailItem(paid, c, id, slot).0, ReceiveMailAlz(carried, c, id).0;
    assert a.mail[id] == b.mail[id];
    assert a.mail == db.mail[id := a.mail[id]] && b.mail == db.mail[id := a.mail[id]];
  }

  lemma BitsCommute(state: bv8)
    ensures state | (STATE_READ | STATE_ALZ_RECEIVED) | (STATE_READ | STATE_ITEM_RECEIVED)
            == state | (STATE_READ | STATE_ITEM_RECEIVED) | (STATE_READ | STATE_ALZ_RECEIVED)
  {
  }

  // --- Moving between inventory and warehouse. ---

  /** A move is made if there is something to move and a free place for it, and then exactly that row lies elsewhere. */
  lemma StorageMoveEffect(db: Db, c: int, from: StorageType, a: Slot, to: StorageType, b: Slot)
    requires c > 0 && from != Unknown && to != Unknown && (from != to || a != b)
    ensures var (after, reply) := StorageMove(db, c, from, a, to, b);
            var src, dst := Place(c, a), Place(c, b);
            && (reply == Moved <==> src in Table(db, from) && dst !in Table(db, to))
            && (reply != Moved ==> after == db)
            && (reply == Moved ==>
                 && src !in Table(after, from) && dst in Table(after, to)
                 && Table(after, to)[dst] == Table(db, from)[src]
                 && (forall s, p :: s != Unknown && !(s == from && p == src) && !(s == to && p == dst) ==>
                       SameRow(db, after, s, p))
                 && after.alz == db.alz && after.mail == db.mail)
  {
    var after := StorageMove(db, c, from, a, to, b).0;
    forall s, p | !(s == from && p == Place(c, a)) && !(s == to && p == Place(c, b)) && s != Unknown
      ensures SameRow(db, after, s, p)
    {
    }
  }

  predicate SameRow(db: Db, after: Db, s: StorageType, p: Place) {
    && (p in Table(after, s) <==> p in Table(db, s))
    && (p in Table(db, s) ==> Table(after, s)[p] == Table(db, s)[p])
  }

  lemma StorageMoveAnswers(db: Db, c: int, from: StorageType, a: Slot, to: StorageType, b: Slot)
    ensures var (after, reply) := StorageMove(db, c, from, a, to, b);
            && (reply == MoveError <==> c <= 0 || from == Unknown || to == Unknown)
            && (reply != MoveError && from == to && a == b ==> (after, reply) == (db, Moved))
            && (reply != Moved ==> after == db)
  {
  }

  /** Moving back undoes a move. */
  lemma MovedBack(db: Db, c: int, from: StorageType, a: Slot, to: StorageType, b: Slot)
    requires StorageMove(db, c, from, a, to, b).1 == Moved
    ensures StorageMove(StorageMove(db, c, from, a, to, b).0, c, to, b, from, a) == (db, Moved)
  {
    if from != to || a != b {
      var src, dst := Table(db, from), Table(db, to);
      var x, y := Place(c, a), Place(c, b);
      assert (src - {x})[x := src[x]] == src;
      assert dst[y := src[x]] - {y} == dst;
      if from == to {
        assert ((src - {x})[y := src[x]] - {y})[x := src[x]] == src;
      }
    }
  }

  // --- Sending. ---

  /** A mail is sent if it can be paid for, what it attaches is there and there is room for it; the sender pays, and the
      receiver finds it in its mailbox. */
  lemma SendEffect(db: Db, s: SendRequest)
    requires forall id :: id in db.mail ==> id < db.nextMail
    ensures var (after, reply) := SendMail(db, s);
            var id := db.nextMail;
            && (!Posted(db, s) ==> after == db)
            && (Posted(db, s) ==>
                 && reply.mailId == id && id !in db.mail && s.sender in db.alz && s.sender != s.receiver
                 && s.sender in after.alz && OnlyRow(db.alz, after.alz, s.sender)
                 && reply.alz == after.alz[s.sender]
                 && (s.alz > 0 || s.hasItem ==> db.alz[s.sender] == after.alz[s.sender] + s.alz + 10000)
                 && (s.alz == 0 && !s.hasItem ==> db.alz[s.sender] == after.alz[s.sender])
                 && Mailbox(after.mail, s.receiver) == Mailbox(db.mail, s.receiver) + {id}
                 && after.mail[id].alz == s.alz && after.mail[id].goods == s.goods
                 && after.mail[id].sender == s.sender && !after.mail[id].deletedSender
                 && OnlyRow(db.mail, after.mail, id)
                 && (!s.hasItem ==> after.inventory == db.inventory)
                 && (s.hasItem ==>
                      && Place(s.sender, s.slot) in db.inventory && db.inventory[Place(s.sender, s.slot)] == s.goods
                      && Place(s.sender, s.slot) !in after.inventory
                      && OnlyRow(db.inventory, after.inventory, Place(s.sender, s.slot)))
                 && after.warehouse == db.warehouse && after.nextMail > id)
  {
  }

  /** The one condition under which a send goes through: by what the sender and the receiver have. */
  predicate CanPost(db: Db, s: SendRequest) {
    && 0 < s.sender && s.textOk && s.sender in db.alz && s.receiver in db.alz
    && s.sender / 8 != s.receiver / 8 && |Mailbox(db.mail, s.receiver)| < 100
    && s.alz + (if s.alz > 0 || s.hasItem then 10000 else 0) <= db.alz[s.sender]
    && (s.hasItem ==>
         s.goods.kind != 0 && Place(s.sender, s.slot) in db.inventory
           && db.inventory[Place(s.sender, s.slot)] == s.goods)
  }

  lemma PostedIff(db: Db, s: SendRequest)
    ensures Posted(db, s) <==> CanPost(db, s)
  {
    hide Mailbox;
  }

  /** Every other answer is true of the request. */
  lemma RefusalsTrue(db: Db, s: SendRequest)
    ensures var reply := SendMail(db, s).1;
            reply.SendAnswer? ==>
              && (reply.code == SendNotFoundCharacter ==> s.receiver !in db.alz)
              && (reply.code == SendSameAccount ==> s.sender / 8 == s.receiver / 8)
              && (reply.code == SendFullMailbox ==> |Mailbox(db.mail, s.receiver)| >= 100)
              && (reply.code == SendNotEnoughAlz ==> s.sender in db.alz && db.alz[s.sender] < s.alz)
              && (reply.code == SendNotEnoughFee ==>
                   s.sender in db.alz && s.alz <= db.alz[s.sender] < s.alz + 10000 && (s.alz > 0 || s.hasItem))
              && (reply.code == SendNotAttachableItem ==>
                   s.hasItem && !(Place(s.sender, s.slot) in db.inventory
                                  && db.inventory[Place(s.sender, s.slot)] == s.goods))
  {
    hide Mailbox;
  }

  // --- Returning. ---

  /** A mail nothing was taken from goes back to its sender if there is room for it: its mailbox gains it, that of the
      receiver loses it. */
  lemma ReturnEffect(db: Db, c: int, id: int)
    ensures var (after, reply) := ReturnMail(db, c, id);
            && (reply == ReturnOK <==>
                 && 0 < c && 0 < id && id in db.mail && db.mail[id].receiver == c && !db.mail[id].deletedReceiver
                 && db.mail[id].state & 6 == 0 && db.mail[id].sender in db.alz
                 && |Mailbox(db.mail, db.mail[id].sender)| < 100)
            && (reply != ReturnOK ==> after == db)
            && (reply == ReturnOK ==>
                 var x := db.mail[id].sender;
                 && Receivable(after, x, id) && after.mail[id].sender == c && after.mail[id].mailType == Returned
                 && after.mail[id].alz == db.mail[id].alz && after.mail[id].goods == db.mail[id].goods
                 && OnlyRow(db.mail, after.mail, id)
                 && Mailbox(after.mail, x) == Mailbox(db.mail, x) + {id}
                 && (x != c ==> Mailbox(after.mail, c) == Mailbox(db.mail, c) - {id})
                 && after == db.(mail := after.mail))
  {
    var (after, reply) := ReturnMail(db, c, id);
    if reply == ReturnOK {
      var x := db.mail[id].sender;
      forall j ensures j in Mailbox(after.mail, x) <==> j in Mailbox(db.mail, x) + {id} {
      }
    }
  }

  /** A returned mail can be sent back once more, and is then where it was, unread and marked as returned: there is room
      for it in the mailbox it came from. */
  lemma ReturnedAgain(db: Db, c: int, id: int)
    requires PostInvariant(db) && ReturnMail(db, c, id).1 == ReturnOK && c in db.alz && db.mail[id].sender > 0
    ensures var (after, reply) := ReturnMail(ReturnMail(db, c, id).0, db.mail[id].sender, id);
            && (reply == ReturnOK <==> db.mail[id].sender != c || |Mailbox(db.mail, c)| < 100)
            && (reply == ReturnOK ==> after == db.(mail := db.mail[id := db.mail[id].(mailType := Returned, state := 0,
                                                                                     deletedSender := false)]))
  {
    hide PostInvariant;
    ReturnEffect(db, c, id);
    BoxBound(db, c);
    var half := ReturnMail(db, c, id).0;
    assert (0 as bv8) & STATE_LOCKED == 0;
    if db.mail[id].sender != c {
      assert id in Mailbox(db.mail, c);
      assert |Mailbox(half.mail, c)| == |Mailbox(db.mail, c)| - 1;
    } else {
      assert half.mail == db.mail[id := half.mail[id]];
      assert Mailbox(half.mail, c) == Mailbox(db.mail, c);
    }
  }

  lemma BoxBound(db: Db, c: int)
    requires PostInvariant(db)
    ensures |Mailbox(db.mail, c)| <= 100
  {
  }

  // --- Deleting. ---

  /** An empty mail leaves its receiver's mailbox; the row stays as long as the sender has its copy. */
  lemma DeleteReceivedEffect(db: Db, c: int, id: int)
    ensures var (after, reply) := DeleteReceivedMail(db, c, id);
            && (reply == DeleteOK <==> 0 < c && 0 < id && Receivable(db, c, id) && Empty(db.mail[id]))
            && (reply != DeleteOK ==> after == db)
            && (reply == DeleteOK ==>
                 && Mailbox(after.mail, c) == Mailbox(db.mail, c) - {id} && OnlyRow(db.mail, after.mail, id)
                 && (id in after.mail <==> !db.mail[id].deletedSender)
                 && (id in after.mail ==> after.mail[id] == db.mail[id].(deletedReceiver := true))
                 && after == db.(mail := after.mail))
            && (reply == DeleteExistingAttachment ==> Receivable(db, c, id) && !Empty(db.mail[id]))
            && (reply == DeleteFail ==> !Receivable(db, c, id))
  {
  }

  /** A sent mail leaves its sender's list; every mailbox keeps it until its receiver has deleted it too. */
  lemma DeleteSentEffect(db: Db, c: int, id: int)
    ensures var (after, reply) := DeleteSentMail(db, c, id);
            && (reply == DeleteOK <==>
                 0 < c && 0 < id && id in db.mail && db.mail[id].sender == c && !db.mail[id].deletedSender)
            && (reply != DeleteOK ==> after == db)
            && (reply == DeleteOK ==>
                 && (forall x :: Mailbox(after.mail, x) == Mailbox(db.mail, x)) && OnlyRow(db.mail, after.mail, id)
                 && (id in after.mail <==> !db.mail[id].deletedReceiver)
                 && (id in after.mail ==> after.mail[id] == db.mail[id].(deletedSender := true))
                 && after == db.(mail := after.mail))
  {
  }

  /** Deleting on both sides takes the row away, in either order. */
  lemma BothDelete(db: Db, c: int, x: int, id: int)
    requires 0 < c && 0 < x && 0 < id && Receivable(db, c, id) && Empty(db.mail[id])
    requires db.mail[id].sender == x && !db.mail[id].deletedSender
    ensures DeleteSentMail(DeleteReceivedMail(db, c, id).0, x, id) == (db.(mail := db.mail - {id}), DeleteOK)
    ensures DeleteReceivedMail(DeleteSentMail(db, x, id).0, c, id) == (db.(mail := db.mail - {id}), DeleteOK)
  {
    var m := db.mail[id];
    var received, sent := db.mail[id := m.(deletedReceiver := true)], db.mail[id := m.(deletedSender := true)];
    var both := m.(deletedReceiver := true, deletedSender := true);
    assert received[id := both] - {id} == db.mail - {id};
    assert sent[id := both] - {id} == db.mail - {id};
  }

  // --- Trading. ---

  /** A trade is granted if both sides can pay and take and hold what they offer; then each purse loses what its own
      side puts up and gains what the other does. */
  lemma TradeEffect(db: Db, r: TradeRequest)
    ensures var (after, reply) := TradeItems(db, r);
            && (!reply.Traded? ==> after == db)
            && (reply.Traded? ==>
                 && 0 < r.first && 0 < r.second && r.first != r.second
                 && r.first in db.alz && r.second in db.alz && r.first in after.alz && r.second in after.alz
                 && after.alz[r.first] + r.firstAlz == db.alz[r.first] + r.secondAlz
                 && after.alz[r.second] + r.secondAlz == db.alz[r.second] + r.firstAlz
                 && r.firstAlz <= db.alz[r.first] && r.secondAlz <= db.alz[r.second]
                 && reply == Traded(after.alz[r.first], after.alz[r.second])
                 && (forall x :: x != r.first && x != r.second ==>
                       (x in db.alz <==> x in after.alz) && (x in db.alz ==> after.alz[x] == db.alz[x]))
                 && after.warehouse == db.warehouse && after.mail == db.mail)
  {
    hide MoveAll, TransfersOk;
  }
}
