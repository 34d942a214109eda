/** The Master's economy tables and its transactions as serial, all-or-nothing steps. */
module Economy {
  import opened Numbers

  const ATTACHMENT_FEE: nat := 10000
  const MAX_MAILBOX: nat := 100
  const AUTO_SLOT: nat := 0xFFFF
  const INVENTORY_SLOTS: nat := 256

  type U64 = n: nat | n <= MAX_U64
  type Slot = n: nat | n <= 0xFFFF

  /** An item without the slot it lies in; kind 0 is no item. */
  datatype Goods = Goods(kind: nat, serials: nat, option: int, expire: nat)

  const NO_GOODS := Goods(0, 0, 0, 0)

  /** Primary key of the inventory and warehouse tables. */
  datatype Place = Place(owner: int, slot: Slot)

  type Storage = map<Place, Goods>

  const STATE_READ: bv8 := 1
  const STATE_ALZ_RECEIVED: bv8 := 2
  const STATE_ITEM_RECEIVED: bv8 := 4
  const STATE_LOCKED: bv8 := 6

  datatype MailType = User | Returned

  datatype Mail = Mail(sender: int, receiver: int, mailType: MailType, state: bv8, alz: U64, goods: Goods,
                       deletedSender: bool, deletedReceiver: bool)

  /** `alz` is the characters table. */
  datatype Db = Db(alz: map<int, U64>, inventory: Storage, warehouse: Storage, mail: map<int, Mail>, nextMail: nat)

  // --- Trade. ---

  datatype Transfer = Transfer(slot: Slot, goods: Goods, target: Slot)

  datatype TradeRequest = TradeRequest(first: int, second: int, firstItems: seq<Transfer>, secondItems: seq<Transfer>,
                                       firstAlz: U64, secondAlz: U64)

  /** What the Master answers: an RPC error, a refusal, or the new balances. */
  datatype TradeReply = TradeError | TradeRefused | Traded(firstAlz: U64, secondAlz: U64)

  predicate TransferOk(inv: Storage, source: int, dest: int, t: Transfer) {
    && t.goods.kind != 0 && t.slot != t.target
    && Place(source, t.slot) in inv && inv[Place(source, t.slot)] == t.goods
    && Place(dest, t.target) !in inv
  }

  predicate DistinctSlots(ts: seq<Transfer>) {
    forall i, j :: 0 <= i < j < |ts| ==> ts[i].slot != ts[j].slot && ts[i].target != ts[j].target
  }

  predicate TransfersOk(inv: Storage, source: int, dest: int, ts: seq<Transfer>) {
    && (forall i :: 0 <= i < |ts| ==> TransferOk(inv, source, dest, ts[i]))
    && DistinctSlots(ts)
  }

  function Sources(source: int, ts: seq<Transfer>): set<Place> {
    set i | 0 <= i < |ts| :: Place(source, ts[i].slot)
  }

  /** The rows the other side receives. */
  function Arrivals(dest: int, ts: seq<Transfer>): Storage {
    if ts == [] then map[]
    else
      var n := |ts| - 1;
      Arrivals(dest, ts[..n])[Place(dest, ts[n].target) := ts[n].goods]
  }

  function Targets(dest: int, ts: seq<Transfer>): set<Place> {
    set i | 0 <= i < |ts| :: Place(dest, ts[i].target)
  }

  lemma TargetsOneMore(dest: int, ts: seq<Transfer>)
    requires ts != []
    ensures Targets(dest, ts) == Targets(dest, ts[..|ts| - 1]) + {Place(dest, ts[|ts| - 1].target)}
  {
    var n := |ts| - 1;
    assert ts == ts[..n] + [ts[n]];
  }

  predicate Delivered(m: Storage, dest: int, ts: seq<Transfer>) {
    forall i :: 0 <= i < |ts| ==> Place(dest, ts[i].target) in m && m[Place(dest, ts[i].target)] == ts[i].goods
  }

  lemma {:induction false} ArrivalsContents(dest: int, ts: seq<Transfer>)
    ensures Arrivals(dest, ts).Keys == Targets(dest, ts)
    ensures DistinctSlots(ts) ==> Delivered(Arrivals(dest, ts), dest, ts)
  {
    if ts != [] {
      var n := |ts| - 1;
      ArrivalsContents(dest, ts[..n]);
      TargetsOneMore(dest, ts);
      if DistinctSlots(ts) {
        var before, m := Arrivals(dest, ts[..n]), Arrivals(dest, ts);
        assert DistinctSlots(ts[..n]);
        forall i | 0 <= i < n ensures Place(dest, ts[i].target) in m && m[Place(dest, ts[i].target)] == ts[i].goods {
          assert ts[..n][i] == ts[i] && ts[i].target != ts[n].target;
          assert Place(dest, ts[..n][i].target) in before;
        }
      }
    }
  }

  /** One direction: the source rows go, the same goods appear on the other side. */
  function MoveAll(inv: Storage, source: int, dest: int, ts: seq<Transfer>): Storage {
    (inv - Sources(source, ts)) + Arrivals(dest, ts)
  }

  predicate TradeAccepted(db: Db, r: TradeRequest) {
    && r.first in db.alz && r.second in db.alz
    && r.firstAlz <= db.alz[r.first] && r.secondAlz <= db.alz[r.second]
    && TransfersOk(db.inventory, r.first, r.second, r.firstItems)
    && TransfersOk(db.inventory, r.second, r.first, r.secondItems)
    && db.alz[r.first] - r.firstAlz + r.secondAlz <= MAX_U64
    && db.alz[r.second] - r.secondAlz + r.firstAlz <= MAX_U64
  }

  predicate TradeFaulty(db: Db, r: TradeRequest) {
    r.first <= 0 || r.second <= 0 || r.first == r.second || r.first !in db.alz || r.second !in db.alz
  }

  function TradeItems(db: Db, r: TradeRequest): (Db, TradeReply) {
    if TradeFaulty(db, r) then (db, TradeError)
    else if !TradeAccepted(db, r) then (db, TradeRefused)
    else
      var a := db.alz[r.first] - r.firstAlz + r.secondAlz;
      var b := db.alz[r.second] - r.secondAlz + r.firstAlz;
      (db.(alz := db.alz[r.first := a][r.second := b],
           inventory := MoveAll(MoveAll(db.inventory, r.first, r.second, r.firstItems),
                                r.second, r.first, r.secondItems)),
       Traded(a, b))
  }

  // --- Inventory to warehouse and back. ---

  datatype StorageType = Inventory | Warehouse | Unknown

  function Table(db: Db, s: StorageType): Storage {
    if s == Warehouse then db.warehouse else db.inventory
  }

  function WithTable(db: Db, s: StorageType, m: Storage): Db {
    if s == Warehouse then db.(warehouse := m) else db.(inventory := m)
  }

  datatype MoveReply = MoveError | MoveRefused | Moved

  function StorageMove(db: Db, c: int, from: StorageType, a: Slot, to: StorageType, b: Slot): (Db, MoveReply) {
    if c <= 0 || from == Unknown || to == Unknown then (db, MoveError)
    else if from == to && a == b then (db, Moved)
    else if Place(c, a) !in Table(db, from) || Place(c, b) in Table(db, to) then (db, MoveRefused)
    else
      var goods := Table(db, from)[Place(c, a)];
      var taken := WithTable(db, from, Table(db, from) - {Place(c, a)});
      (WithTable(taken, to, Table(taken, to)[Place(c, b) := goods]), Moved)
  }

  // --- Mail. ---

  datatype SendCode = SendOK | SendNotAttachableItem | SendNotEnoughAlz | SendNotEnoughFee
                    | SendNotFoundCharacter | SendSameAccount | SendFullMailbox

  datatype SendReply = SendError | SendAnswer(code: SendCode, mailId: nat, alz: U64)

  /** `receiver` is the row the name lookup returned, if any; `textOk` says the text fields are within bounds. */
  datatype SendRequest = SendRequest(sender: int, receiver: int, textOk: bool, alz: U64, slot: Slot, goods: Goods,
                                     hasItem: bool)

  /** The undeleted received mails of a character. */
  function Mailbox(mail: map<int, Mail>, c: int): set<int> {
    set id | id in mail && mail[id].receiver == c && !mail[id].deletedReceiver
  }

  function Fee(r: SendRequest): nat {
    if r.alz > 0 || r.hasItem then ATTACHMENT_FEE else 0
  }

  function SendMail(db: Db, r: SendRequest): (Db, SendReply) {
    if r.sender <= 0 || !r.textOk || (r.hasItem && r.goods.kind == 0) then (db, SendError)
    else if r.receiver !in db.alz then (db, SendAnswer(SendNotFoundCharacter, 0, 0))
    else if r.sender / 8 == r.receiver / 8 then (db, SendAnswer(SendSameAccount, 0, 0))
    else if |Mailbox(db.mail, r.receiver)| >= MAX_MAILBOX then (db, SendAnswer(SendFullMailbox, 0, 0))
    else if r.sender !in db.alz then (db, SendError)
    else
      var have := db.alz[r.sender];
      if have < r.alz + Fee(r) then
        (db, SendAnswer(if have < r.alz then SendNotEnoughAlz else SendNotEnoughFee, 0, have))
      else
        var from := Place(r.sender, r.slot);
        if r.hasItem && (from !in db.inventory || db.inventory[from] != r.goods) then
          (db, SendAnswer(SendNotAttachableItem, 0, have))
        else
          var m := Mail(r.sender, r.receiver, User, 0, r.alz, r.goods, false, false);
          (db.(alz := db.alz[r.sender := have - r.alz - Fee(r)],
               inventory := if r.hasItem then db.inventory - {from} else db.inventory,
               mail := db.mail[db.nextMail := m], nextMail := db.nextMail + 1),
           SendAnswer(SendOK, db.nextMail, have - r.alz - Fee(r)))
  }

  datatype ActionReply = ActionError | ActionRefused | ActionDone

  /** The mail an action may touch: addressed to the character and not deleted by it. */
  predicate Receivable(db: Db, c: int, id: int) {
    id in db.mail && db.mail[id].receiver == c && !db.mail[id].deletedReceiver
  }

  function ReceiveMailAlz(db: Db, c: int, id: int): (Db, ActionReply) {
    if c <= 0 || id <= 0 then (db, ActionError)
    else if !Receivable(db, c, id) || db.mail[id].alz == 0 then (db, ActionRefused)
    else if c !in db.alz then (db, ActionError)
    else
      var m := db.mail[id];
      if MAX_U64 - db.alz[c] < m.alz then (db, ActionRefused)
      else
        (db.(alz := db.alz[c := db.alz[c] + m.alz],
             mail := db.mail[id := m.(alz := 0, state := m.state | (STATE_READ | STATE_ALZ_RECEIVED))]),
         ActionDone)
  }

  /** The lowest free slot at or above `from`, or INVENTORY_SLOTS when there is none below it. */
  function FirstFree(inv: Storage, c: int, from: nat): (s: nat)
    requires from <= INVENTORY_SLOTS
    ensures from <= s <= INVENTORY_SLOTS
    ensures s < INVENTORY_SLOTS ==> Place(c, s) !in inv
    ensures forall k :: from <= k < s ==> Place(c, k) in inv
    decreases INVENTORY_SLOTS - from
  {
    if from == INVENTORY_SLOTS || Place(c, from) !in inv then from else FirstFree(inv, c, from + 1)
  }

  /** An inventory row needs its character: the insert fails on the table's foreign key otherwise. */
  function ReceiveMailItem(db: Db, c: int, id: int, slot: Slot): (Db, ActionReply) {
    if c <= 0 || id <= 0 then (db, ActionError)
    else if !Receivable(db, c, id) || db.mail[id].goods.kind == 0 then (db, ActionRefused)
    else
      var s := if slot == AUTO_SLOT then FirstFree(db.inventory, c, 0) else slot;
      if slot == AUTO_SLOT && s == INVENTORY_SLOTS then (db, ActionRefused)
      else if Place(c, s) in db.inventory then (db, ActionRefused)
      else if c !in db.alz then (db, ActionError)
      else
        var m := db.mail[id];
        (db.(inventory := db.inventory[Place(c, s) := m.goods],
             mail := db.mail[id := m.(goods := NO_GOODS, state := m.state | (STATE_READ | STATE_ITEM_RECEIVED))]),
         ActionDone)
  }

  datatype ReturnReply =
    ReturnError | ReturnFail | ReturnLocked | ReturnNotFoundCharacter | ReturnFullMailbox | ReturnOK

  function ReturnMail(db: Db, c: int, id: int): (Db, ReturnReply) {
    if c <= 0 || id <= 0 then (db, ReturnError)
    else if !Receivable(db, c, id) then (db, ReturnFail)
    else
      var m := db.mail[id];
      if m.state & STATE_LOCKED != 0 then (db, ReturnLocked)
      else if m.sender !in db.alz then (db, ReturnNotFoundCharacter)
      else if |Mailbox(db.mail, m.sender)| >= MAX_MAILBOX then (db, ReturnFullMailbox)
      else
        (db.(mail := db.mail[id := m.(sender := m.receiver, receiver := m.sender, mailType := Returned, state := 0,
                                      deletedSender := false, deletedReceiver := false)]),
         ReturnOK)
  }

  /** The physical delete: only a mail both sides have deleted. */
  function Cleanup(mail: map<int, Mail>, id: int): map<int, Mail> {
    if id in mail && mail[id].deletedSender && mail[id].deletedReceiver then mail - {id} else mail
  }

  datatype DeleteReply = DeleteError | DeleteFail | DeleteExistingAttachment | DeleteOK

  function DeleteReceivedMail(db: Db, c: int, id: int): (Db, DeleteReply) {
    if c <= 0 || id <= 0 then (db, DeleteError)
    else if !Receivable(db, c, id) then (db, DeleteFail)
    else if db.mail[id].alz != 0 || db.mail[id].goods.kind != 0 then (db, DeleteExistingAttachment)
    else (db.(mail := Cleanup(db.mail[id := db.mail[id].(deletedReceiver := true)], id)), DeleteOK)
  }

  function DeleteSentMail(db: Db, c: int, id: int): (Db, DeleteReply) {
    if c <= 0 || id <= 0 then (db, DeleteError)
    else if id !in db.mail || db.mail[id].sender != c || db.mail[id].deletedSender then (db, DeleteFail)
    else (db.(mail := Cleanup(db.mail[id := db.mail[id].(deletedSender := true)], id)), DeleteOK)
  }

  // --- Runs. ---

  datatype Request =
    | Trade(trade: TradeRequest)
    | Store(c: int, from: StorageType, a: Slot, to: StorageType, b: Slot)
    | Send(send: SendRequest)
    | TakeAlz(c: int, id: int)
    | TakeItem(c: int, id: int, slot: Slot)
    | Return(c: int, id: int)
    | DeleteReceived(c: int, id: int)
    | DeleteSent(c: int, id: int)

  function Step(db: Db, r: Request): Db {
    match r
    case Trade(t) => TradeItems(db, t).0
    case Store(c, from, a, to, b) => StorageMove(db, c, from, a, to, b).0
    case Send(s) => SendMail(db, s).0
    case TakeAlz(c, id) => ReceiveMailAlz(db, c, id).0
    case TakeItem(c, id, slot) => ReceiveMailItem(db, c, id, slot).0
    case Return(c, id) => ReturnMail(db, c, id).0
    case DeleteReceived(c, id) => DeleteReceivedMail(db, c, id).0
    case DeleteSent(c, id) => DeleteSentMail(db, c, id).0
  }

  function Run(db: Db, rs: seq<Request>): Db
    decreases |rs|
  {
    if rs == [] then db else Run(Step(db, rs[0]), rs[1..])
  }

  predicate Posted(db: Db, s: SendRequest) {
    var reply := SendMail(db, s).1;
    reply.SendAnswer? && reply.code == SendOK
  }

  /** The attachment fee this request costs the economy. */
  function Charged(db: Db, r: Request): nat {
    if r.Send? && Posted(db, r.send) then Fee(r.send) else 0
  }

  function AllCharged(db: Db, rs: seq<Request>): nat
    decreases |rs|
  {
    if rs == [] then 0 else Charged(db, rs[0]) + AllCharged(Step(db, rs[0]), rs[1..])
  }

  /** A send without an attachment carries an empty item, as the packet handler builds it. */
  predicate Honest(r: Request) {
    r.Send? ==> r.send.hasItem || r.send.goods.kind == 0
  }
}
