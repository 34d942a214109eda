/** The Master's RPC handlers for trade, storage and mail (cmd/masterserver/rpc). A transaction works on a
    copy of the tables it writes; returning before the commit discards the copy. */
module MasterObject {
  import opened Numbers
  import opened Economy
  import opened Ledger
  import opened Holdings
  import opened EconomyEffects
  import opened MailDeletion

  /** Checks one direction of a trade against the stored rows, noting the slots already seen. */
  method ValidateTransfers(tx: Storage, source: int, dest: int, ts: seq<Transfer>) returns (ok: bool)
    ensures ok == TransfersOk(tx, source, dest, ts)
  {
    var sourceSlots: set<Slot>, targetSlots: set<Slot> := {}, {};
    var i := 0;
    while i < |ts|
      invariant 0 <= i <= |ts|
      invariant forall k :: 0 <= k < i ==> TransferOk(tx, source, dest, ts[k])
      invariant DistinctSlots(ts[..i])
      invariant forall s :: s in sourceSlots <==> exists k :: 0 <= k < i && ts[k].slot == s
      invariant forall s :: s in targetSlots <==> exists k :: 0 <= k < i && ts[k].target == s
    {
      var t := ts[i];
      assert t.slot == ts[i].slot && t.target == ts[i].target;
      if t.goods.kind == 0 || t.slot == t.target {
        assert !TransferOk(tx, source, dest, ts[i]);
        return false;
      }
      if t.slot in sourceSlots || t.target in targetSlots {
        return false;
      }
      sourceSlots, targetSlots := sourceSlots + {t.slot}, targetSlots + {t.target};
      var from := Place(source, t.slot);
      if from !in tx || tx[from] != t.goods {
        assert !TransferOk(tx, source, dest, ts[i]);
        return false;
      }
      if Place(dest, t.target) in tx {
        assert !TransferOk(tx, source, dest, ts[i]);
        return false;
      }
      assert ts[..i + 1] == ts[..i] + [t];
      i := i + 1;
    }
    assert ts[..i] == ts;
    ok := true;
  }

  /** Deletes and inserts row by row. A missing row or an occupied slot would fail the statement; after
      validation neither can happen, whatever the order. */
  method ApplyTransfers(tx: Storage, source: int, dest: int, ts: seq<Transfer>) returns (failed: bool, out: Storage)
    requires source != dest && TransfersOk(tx, source, dest, ts)
    ensures !failed && out == MoveAll(tx, source, dest, ts)
  {
    out := tx;
    MoveNothing(tx, source, dest, ts[..0]);
    var i := 0;
    while i < |ts|
      invariant 0 <= i <= |ts| && out == MoveAll(tx, source, dest, ts[..i])
    {
      hide MoveAll, TransfersOk;
      MoveAllOneMore(tx, source, dest, ts, i);
      var from, to := Place(source, ts[i].slot), Place(dest, ts[i].target);
      if from !in out || out[from] != ts[i].goods {
        return true, out;
      }
      out := out - {from};
      if to in out {
        return true, out;
      }
      out := out[to := ts[i].goods];
      i := i + 1;
    }
    assert ts[..i] == ts;
    failed := false;
  }

  /** The slot search of ReceiveMailItem; INVENTORY_SLOTS when every slot is taken. */
  method FindFreeSlot(tx: Storage, c: int) returns (s: nat)
    ensures s == FirstFree(tx, c, 0)
    ensures s <= INVENTORY_SLOTS && (s < INVENTORY_SLOTS ==> Place(c, s) !in tx)
    ensures forall k :: 0 <= k < s ==> Place(c, k) in tx
  {
    s := 0;
    while s < INVENTORY_SLOTS && Place(c, s) in tx
      invariant 0 <= s <= INVENTORY_SLOTS && FirstFree(tx, c, 0) == FirstFree(tx, c, s)
      invariant forall k :: 0 <= k < s ==> Place(c, k) in tx
    {
      s := s + 1;
    }
  }

  class Master {
    var alz: map<int, U64>
    var inventory: Storage
    var warehouse: Storage
    var mail: map<int, Mail>
    var nextMail: nat

    ghost function Tables(): Db
      reads this
    {
      Db(alz, inventory, warehouse, mail, nextMail)
    }

    method TradeItems(r: TradeRequest) returns (reply: TradeReply)
      modifies this
      ensures (Tables(), reply) == Economy.TradeItems(old(Tables()), r)
      ensures Accounted(old(Tables()), Trade(r), Tables())
      ensures Fair(old(Tables()), Trade(r), Tables())
    {
      StepAccounted(Tables(), Trade(r));
      StepFair(Tables(), Trade(r));
      hide Fair, Accounted;
      hide MoveAll, TransfersOk;
      if r.first <= 0 || r.second <= 0 || r.first == r.second {
        return TradeError;
      }
      if r.first !in alz || r.second !in alz {
        return TradeError;
      }
      var firstAlz, secondAlz := alz[r.first], alz[r.second];
      if r.firstAlz > firstAlz || r.secondAlz > secondAlz {
        return TradeRefused;
      }
      var ok := ValidateTransfers(inventory, r.first, r.second, r.firstItems);
      if ok {
        ok := ValidateTransfers(inventory, r.second, r.first, r.secondItems);
      }
      if !ok {
        return TradeRefused;
      }

      var newFirst := firstAlz - r.firstAlz;
      if MAX_U64 - newFirst < r.secondAlz {
        return TradeRefused;
      }
      newFirst := newFirst + r.secondAlz;
      var newSecond := secondAlz - r.secondAlz;
      if MAX_U64 - newSecond < r.firstAlz {
        return TradeRefused;
      }
      newSecond := newSecond + r.firstAlz;

      var failed, tx := ApplyTransfers(inventory, r.first, r.second, r.firstItems);
      if failed {
        return TradeError;
      }
      OtherDirectionStillOk(inventory, r.first, r.second, r.firstItems, r.secondItems);
      failed, tx := ApplyTransfers(tx, r.second, r.first, r.secondItems);
      if failed {
        return TradeError;
      }

      inventory := tx;
      alz := alz[r.first := newFirst];
      alz := alz[r.second := newSecond];
      return Traded(newFirst, newSecond);
    }

    method StorageMove(c: int, from: StorageType, a: Slot, to: StorageType, b: Slot) returns (reply: MoveReply)
      modifies this
      ensures (Tables(), reply) == Economy.StorageMove(old(Tables()), c, from, a, to, b)
      ensures Accounted(old(Tables()), Store(c, from, a, to, b), Tables())
      ensures Fair(old(Tables()), Store(c, from, a, to, b), Tables())
    {
      StepAccounted(Tables(), Store(c, from, a, to, b));
      StepFair(Tables(), Store(c, from, a, to, b));
      hide Fair, Accounted;
      if c <= 0 || from == Unknown || to == Unknown {
        return MoveError;
      }
      if from == to && a == b {
        return Moved;
      }
      var source := if from == Warehouse then warehouse else inventory;
      if Place(c, a) !in source {
        return MoveRefused;
      }
      var goods := source[Place(c, a)];
      var target := if to == Warehouse then warehouse else inventory;
      if Place(c, b) in target {
        return MoveRefused;
      }
      if from == to {
        source := (source - {Place(c, a)})[Place(c, b) := goods];
        if from == Warehouse {
          warehouse := source;
        } else {
          inventory := source;
        }
      } else {
        target := target[Place(c, b) := goods];
        source := source - {Place(c, a)};
        if to == Warehouse {
          inventory, warehouse := source, target;
        } else {
          inventory, warehouse := target, source;
        }
      }
      return Moved;
    }

    /** The count the mail handlers take before adding to a mailbox: below the limit, any one mail may be stored. */
    method CountMailbox(c: int) returns (n: nat)
      ensures n == |Mailbox(mail, c)|
      ensures n < MAX_MAILBOX ==> RoomFor(mail, c)
    {
      RoomBelow(mail, c);
      return |set id | id in mail && mail[id].receiver == c && !mail[id].deletedReceiver|;
    }

    method SendMail(r: SendRequest) returns (reply: SendReply)
      modifies this
      ensures (Tables(), reply) == Economy.SendMail(old(Tables()), r)
      ensures Accounted(old(Tables()), Send(r), Tables())
      ensures Fair(old(Tables()), Send(r), Tables())
    {
      StepAccounted(Tables(), Send(r));
      StepFair(Tables(), Send(r));
      hide Fair, Accounted, RoomFor, Mailbox;
      if r.sender <= 0 || !r.textOk || (r.hasItem && r.goods.kind == 0) {
        return SendError;
      }
      if r.receiver !in alz {
        return SendAnswer(SendNotFoundCharacter, 0, 0);
      }
      if r.sender / 8 == r.receiver / 8 {
        return SendAnswer(SendSameAccount, 0, 0);
      }
      var count := CountMailbox(r.receiver);
      if count >= MAX_MAILBOX {
        return SendAnswer(SendFullMailbox, 0, 0);
      }
      if r.sender !in alz {
        return SendError;
      }
      var have := alz[r.sender];
      var fee := 0;
      if r.alz > 0 || r.hasItem {
        fee := ATTACHMENT_FEE;
      }
      if r.alz > MAX_U64 - fee || have < r.alz + fee {
        if have < r.alz {
          return SendAnswer(SendNotEnoughAlz, 0, have);
        }
        return SendAnswer(SendNotEnoughFee, 0, have);
      }
      var newAlz := have - r.alz - fee;
      var tx := inventory;
      if r.hasItem {
        var from := Place(r.sender, r.slot);
        if from !in tx || tx[from] != r.goods {
          return SendAnswer(SendNotAttachableItem, 0, have);
        }
        tx := tx - {from};
      }
      var id := nextMail;
      mail := mail[id := Mail(r.sender, r.receiver, User, 0, r.alz, r.goods, false, false)];
      nextMail := nextMail + 1;
      alz := alz[r.sender := newAlz];
      inventory := tx;
      return SendAnswer(SendOK, id, newAlz);
    }

    method ReceiveMailAlz(c: int, id: int) returns (reply: ActionReply)
      modifies this
      ensures (Tables(), reply) == Economy.ReceiveMailAlz(old(Tables()), c, id)
      ensures Accounted(old(Tables()), TakeAlz(c, id), Tables())
      ensures Fair(old(Tables()), TakeAlz(c, id), Tables())
      ensures reply == ActionDone ==>
                && c in alz && id in mail && id in old(mail) && c in old(alz) && old(mail)[id].receiver == c
                && alz[c] == old(alz)[c] + old(mail)[id].alz && mail[id].alz == 0
                && OnlyRow(old(alz), alz, c) && OnlyRow(old(mail), mail, id)
    {
      StepAccounted(Tables(), TakeAlz(c, id));
      StepFair(Tables(), TakeAlz(c, id));
      TakeAlzEffect(Tables(), c, id);
      hide Fair, Accounted;
      if c <= 0 || id <= 0 {
        return ActionError;
      }
      if !(id in mail && mail[id].receiver == c && !mail[id].deletedReceiver) {
        return ActionRefused;
      }
      var row := mail[id];
      if row.alz == 0 {
        return ActionRefused;
      }
      if c !in alz {
        return ActionError;
      }
      var current := alz[c];
      if MAX_U64 - current < row.alz {
        return ActionRefused;
      }
      alz := alz[c := current + row.alz];
      mail := mail[id := row.(alz := 0, state := row.state | (STATE_READ | STATE_ALZ_RECEIVED))];
      return ActionDone;
    }

    method ReceiveMailItem(c: int, id: int, slot: Slot) returns (reply: ActionReply)
      modifies this
      ensures (Tables(), reply) == Economy.ReceiveMailItem(old(Tables()), c, id, slot)
      ensures Accounted(old(Tables()), TakeItem(c, id, slot), Tables())
      ensures Fair(old(Tables()), TakeItem(c, id, slot), Tables())
    {
      StepAccounted(Tables(), TakeItem(c, id, slot));
      StepFair(Tables(), TakeItem(c, id, slot));
      hide Fair, Accounted;
      hide FirstFree;
      if c <= 0 || id <= 0 {
        return ActionError;
      }
      if !(id in mail && mail[id].receiver == c && !mail[id].deletedReceiver) {
        return ActionRefused;
      }
      var row := mail[id];
      if row.goods.kind == 0 {
        return ActionRefused;
      }
      var s: nat := slot;
      if slot == AUTO_SLOT {
        s := FindFreeSlot(inventory, c);
        if s == INVENTORY_SLOTS {
          return ActionRefused;
        }
      }
      if Place(c, s) in inventory {
        return ActionRefused;
      }
      if c !in alz {
        return ActionError;
      }
      inventory := inventory[Place(c, s) := row.goods];
      mail := mail[id := row.(goods := NO_GOODS, state := row.state | (STATE_READ | STATE_ITEM_RECEIVED))];
      return ActionDone;
    }

    method ReturnMail(c: int, id: int) returns (reply: ReturnReply)
      modifies this
      ensures (Tables(), reply) == Economy.ReturnMail(old(Tables()), c, id)
      ensures Accounted(old(Tables()), Return(c, id), Tables())
      ensures Fair(old(Tables()), Return(c, id), Tables())
    {
      StepAccounted(Tables(), Return(c, id));
      StepFair(Tables(), Return(c, id));
      hide Fair, Accounted, RoomFor, Mailbox;
      if c <= 0 || id <= 0 {
        return ReturnError;
      }
      if !(id in mail && mail[id].receiver == c && !mail[id].deletedReceiver) {
        return ReturnFail;
      }
      var row := mail[id];
      if row.state & STATE_LOCKED != 0 {
        return ReturnLocked;
      }
      if row.sender !in alz {
        return ReturnNotFoundCharacter;
      }
      var count := CountMailbox(row.sender);
      if count >= MAX_MAILBOX {
        return ReturnFullMailbox;
      }
      mail := mail[id := row.(sender := row.receiver, receiver := row.sender, mailType := Returned, state := 0,
                              deletedSender := false, deletedReceiver := false)];
      return ReturnOK;
    }

    method CleanupDeletedMail(id: int)
      modifies this
      ensures Tables() == old(Tables()).(mail := Cleanup(old(mail), id))
      ensures BoxesBounded(old(mail)) ==> BoxesBounded(mail)
      ensures (id in old(mail) && old(mail)[id].deletedReceiver ==> Empty(old(mail)[id])) ==>
                TotalAlz(Tables()) == TotalAlz(old(Tables())) && TotalGoods(Tables()) == TotalGoods(old(Tables()))
      ensures old(OpenPost(Tables())) ==> OpenPost(Tables()) && Balanced(old(Tables()), Tables(), 0)
    {
      CleanupHarmless(Tables(), id);
      if OpenPost(Tables()) {
        CleanOk(Tables(), id);
      }
      hide BoxesBounded, TotalAlz, TotalGoods, OpenPost, Balanced;
      if id in mail && mail[id].deletedSender && mail[id].deletedReceiver {
        mail := mail - {id};
      }
    }

    /** The look of DeleteReceivedMail: whether the mail is the character's to delete, and what is attached to it. */
    method SelectAttachments(c: int, id: int) returns (found: bool, alz: nat, kind: nat)
      ensures found == Receivable(Tables(), c, id)
      ensures found ==> (alz == 0 && kind == 0 <==> Empty(mail[id]))
    {
      if !(id in mail && mail[id].receiver == c && !mail[id].deletedReceiver) {
        return false, 0, 0;
      }
      return true, mail[id].alz, mail[id].goods.kind;
    }

    /** The flag of DeleteReceivedMail. On a mail without attachments it keeps the post in order and the totals,
        whatever has happened since the look. */
    method MarkDeletedReceiver(c: int, id: int) returns (rows: nat)
      modifies this
      ensures Tables() == FlaggedReceived(old(Tables()), c, id)
      ensures rows == if Receivable(old(Tables()), c, id) then 1 else 0
      ensures old(OpenPost(Tables())) && (id in old(mail) ==> Empty(old(mail)[id])) ==>
                OpenPost(Tables()) && Balanced(old(Tables()), Tables(), 0)
    {
      if OpenPost(Tables()) && (id in mail ==> Empty(mail[id])) {
        FlagReceivedOk(Tables(), c, id);
      }
      hide OpenPost, Balanced;
      if id in mail && mail[id].receiver == c && !mail[id].deletedReceiver {
        mail := mail[id := mail[id].(deletedReceiver := true)];
        return 1;
      }
      return 0;
    }

    /** The flag of DeleteSentMail: at any time it keeps the post in order and the totals. */
    method MarkDeletedSender(c: int, id: int) returns (rows: nat)
      modifies this
      ensures Tables() == FlaggedSent(old(Tables()), c, id)
      ensures rows == if Sendable(old(Tables()), c, id) then 1 else 0
      ensures old(OpenPost(Tables())) ==> OpenPost(Tables()) && Balanced(old(Tables()), Tables(), 0)
    {
      if OpenPost(Tables()) {
        FlagSentOk(Tables(), c, id);
      }
      hide OpenPost, Balanced;
      if id in mail && mail[id].sender == c && !mail[id].deletedSender {
        mail := mail[id := mail[id].(deletedSender := true)];
        return 1;
      }
      return 0;
    }

    method DeleteReceivedMail(c: int, id: int) returns (reply: DeleteReply)
      modifies this
      ensures (Tables(), reply) == Economy.DeleteReceivedMail(old(Tables()), c, id)
      ensures Accounted(old(Tables()), DeleteReceived(c, id), Tables())
      ensures Fair(old(Tables()), DeleteReceived(c, id), Tables())
    {
      StepAccounted(Tables(), DeleteReceived(c, id));
      StepFair(Tables(), DeleteReceived(c, id));
      hide Fair, Accounted, OpenPost, Balanced, BoxesBounded, TotalAlz, TotalGoods;
      if c <= 0 || id <= 0 {
        return DeleteError;
      }
      var found, alz, kind := SelectAttachments(c, id);
      if !found {
        return DeleteFail;
      }
      if alz != 0 || kind != 0 {
        return DeleteExistingAttachment;
      }
      var rows := MarkDeletedReceiver(c, id);
      if rows != 1 {
        return DeleteFail;
      }
      CleanupDeletedMail(id);
      return DeleteOK;
    }

    method DeleteSentMail(c: int, id: int) returns (reply: DeleteReply)
      modifies this
      ensures (Tables(), reply) == Economy.DeleteSentMail(old(Tables()), c, id)
      ensures Accounted(old(Tables()), DeleteSent(c, id), Tables())
      ensures Fair(old(Tables()), DeleteSent(c, id), Tables())
    {
      StepAccounted(Tables(), DeleteSent(c, id));
      StepFair(Tables(), DeleteSent(c, id));
      hide Fair, Accounted, OpenPost, Balanced, BoxesBounded, TotalAlz, TotalGoods;
      if c <= 0 || id <= 0 {
        return DeleteError;
      }
      var rows := MarkDeletedSender(c, id);
      if rows != 1 {
        return DeleteFail;
      }
      CleanupDeletedMail(id);
      return DeleteOK;
    }
  }
}
