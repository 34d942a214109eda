# Freya: verified models of the game server's stateful core

Freya is a game server: a Master process that owns the database, game servers that hold characters in memory, and
a binary TCP protocol to the client. This project models the parts of it that carry state over many steps and proves
what those parts keep over every run:

- **Wire layer.** `Words`, `Cipher`, `EncryptionObject`, `Stream` and `SessionObject` cover the chained XOR cipher and
  the read loop that reassembles packets whose length only the cipher can tell. `Fields` and `Network` cover the typed
  packet writer and reader, and `Wire` joins the layers in both directions.
- **Economy.** `Economy` is the Master's tables and transactions as serial, all-or-nothing steps; `MasterObject` is the
  handlers, statement by statement. `Totals` and `Ledger` prove conservation of Alz and goods and the state of the post;
  `Holdings` says what each character holds and how every request moves it; `EconomyEffects` says when each request is
  granted and what it changes. `MailDeletion` interleaves the statements of a delete with anything else.
- **Trade.** `Trade` is the two-party handshake as a state machine over all players and the Master; `TradeServer` is the
  handlers over live contexts. `TradeEffects` says when each packet takes effect and what it leaves on either side;
  `TradeHistory` traces everything in a trade back to the packet that put it there. `TradeSafety`, `TradeApproval`,
  `TradeNames`, `TradeSlots` and `TradeMirror` prove what every run keeps; `TradeInputs` gives inputs at which a promise fails.
- **Parties.** `Party`, `PartyEffects`, `PartyNames` and `PartyServer`: party state replicated in every member's context.
- **Progression.** `SkillRank`, `SkillGain` and `Levels`: the experience loops against closed forms.
- **Skills, battle mode and buffs.** `BattleSkills` and `SkillBook` cover the skill rows, their repair and their mirror;
  `BattleMode` and `Buffs` cover timers guarded by generation numbers.
- **RPC.** `RpcClient`: the pending-call table under every interleaving of senders, reader and close.

Code that updates fields is modelled by classes whose methods are proved equal to one step of a specification over
values. The theorems are about that specification: over all inputs, all states the invariant allows, or all runs.

## Conventions

- Each packet handler, each database transaction, each statement of a mail delete and each critical section of the RPC
  client is one atomic step.
- `Options` and `Numbers` hold what several modules share.
- `Snapshot`, `Value`, `Tables` and `State` give the abstract value of an object.
- 16-, 32- and 64-bit limits are written out where the source depends on them; the exceptions are listed below.
- Bytes are bit-vectors in the cipher, which xors them, and numbers in the packet fields, which only do arithmetic.

## Where a promise fails, and exactly when

Each comes with a condition that is necessary and sufficient, and a lemma at a concrete input.

- A session may enter another character at any time, and neither its trade nor its party is touched. Links and party copies
  stay consistent, but the opponent or member is then recorded under a character it no longer has, and another character
  pays than the one that submitted: if and only if another character was entered on that session in between
  (`TradeNames.NamesKept`, `PartyNames.NamesKept`, `TradeApproval.CommittedWasApproved`; inputs
  `TradeInputs.AnotherCharacterPays`, `PartyNames.AnotherCharacterListed`).
- A character enters with the Alz of the session's cached list, which may be out of date. Memory and Master are in step
  afterwards if and only if the list is not (`TradeMirror.SyncKept`; input `TradeInputs.StaleListDiverges`).
- A session may enter a character that another session has; the code has no test. Two memories of it are then kept, and a
  change through one does not reach the other (`TradeMirror.SyncKept`; input `TradeInputs.SharedCharacterDiverges`).
- Neither a withdrawn submit nor an edit clears the destination slots, so goods may land in slots named for another offer.
  The slots of the side that did not send the last list were named after both had last submitted if and only if it has
  sent a list since (`TradeSlots.SlotsNamed`; input `TradeInputs.StaleSlotUsed`).
- A trade whose answer from the Master is lost is aborted in memory although the Master may have committed it. Memory and
  Master stay in step if and only if one side could no longer deliver, or the exchange moves nothing
  (`TradeMirror.LostReply`; input `TradeInputs.LostAnswerDiverges`).
- `SendMail` stores whatever item the request carries even when the request says it has none. Goods are conserved if and
  only if a send without an item carries an empty one, as the packet handler ensures (`Ledger.SendConserves`; input
  `Ledger.UnattachedGoodsAppear`).
- Skill experience is added to the bar in 32 bits. Experience grows by the gain, up to the cap, if and only if bar and gain
  fit; and a gain may be split in two if and only if they fit or the first part makes no difference to what is lost
  (`SkillGain.GainExact`, `SkillGain.SplitExact`; inputs `SkillGain.GainLost`, `SkillGain.SplitMatters`). These are inputs
  of the function: both of its callers pass at most 30 times a 16-bit number, and for those growth and splitting are
  exact without condition (`SkillGain.CalledGains`).
- A character at the full bar of a rank limit is not quite a fixed point: with a full point counter the rollback takes
  back a point that was never counted, and a gain that does not fit shortens the bar. It is one if and only if the counter
  is not full and bar and gain fit; after a gain that reached the cap, if and only if the last rank is finished or they
  fit (`SkillGain.FullBarExact`, `SkillGain.CappedExact`; inputs `SkillGain.FullCounterLosesPoint`,
  `SkillGain.FullBarWraps`).
- The packet writer neither sign-extends nor stores more than four bytes of a plain `int`. A field reads back unchanged
  if and only if it fits the pair of methods used for it (`Fields.FieldSurvives`; inputs `Fields.NarrowNegativeLost`,
  `Fields.WideIntLost`).
- `GrantBattleModeSkills` accepts a request for one skill in two slots, which it cannot meet. It meets a request if and
  only if no skill is asked for in two slots (`BattleSkills.GrantBattleModeSkills`; input
  `BattleSkills.TwoSlotsCannotBeMet`).
- The end timer of battle mode can fire one interval before the gauge is empty: exactly when the cost divides a gauge of
  at least two drains (`BattleMode.TicksBound`; input `BattleMode.TimerEndsEarly`).

## Model

| member | source | states |
|---|---|---|
| `Cipher.OpenSeal` | share/encryption/encryption.go:54-87 | For every table, key, multiple and length, undoing the chain returns the plaintext, one- to three-byte tails included. |
| `Cipher.SealOpen` | share/encryption/encryption.go:133-167 | The other direction: sealing what was opened returns the ciphertext, so both directions are bijections. |
| `Cipher.SealChain` | share/encryption/encryption.go:60-72 | At every position of a text of any length, a ciphertext word is the plaintext word under its key: the given key at first, then the table entry picked by the ciphertext word before it. |
| `Cipher.SealTail` | share/encryption/encryption.go:74-85 | Each of the last one to three bytes takes its own byte of the next key. |
| `Cipher.EncryptInjective` | share/encryption/encryption.go:41-88 | Server encryption keeps the length, is undone by the client and is injective, for every key table. |
| `Cipher.EncryptFirst` | share/encryption/encryption.go:54-58 | The first word the server sends is the plaintext word under the fixed key. |
| `Cipher.EncryptChain` | share/encryption/encryption.go:60-72 | Every later word is keyed by the first table's entry for the low fourteen bits of the word sent before it. |
| `Cipher.HandshakeNeverFails` | share/encryption/encryption.go:108-131 | The first packet fixes its own key, so neither its magic check nor its size check can fail, whatever the bytes. |
| `Cipher.SealedHeader` | share/encryption/encryption.go:95-143 | The server recovers the header word the client meant, in the handshake and afterwards. |
| `Cipher.HeaderShows` | share/encryption/encryption.go:108-131 | The magic check passes exactly when the plaintext begins with the magic key, and the size read ahead of decrypting is the one the plaintext shows, 14 in the handshake. |
| `Cipher.DecryptUndoesSeal` | share/encryption/encryption.go:91-182 | For every well-formed client packet the first four bytes give its length whatever follows, the magic check passes, and the plaintext returns with the checksum word cleared. |
| `Cipher.PlainChain` | share/encryption/encryption.go:133-154 | Of any packet, each body word is read under the table entry picked by the word before it (the header word for the first), out of the first table in the handshake and at even places of both afterwards. |
| `Cipher.AdvanceFollows` | share/encryption/encryption.go:169-179 | Packet by packet the server follows the key schedule by position: packet k is read under the entry at twice its place, counted round from the place of the handshake. |
| `Cipher.DecryptInjectiveUpToChecksum` | share/encryption/encryption.go:133-167 | After the handshake, equal-length packets that decrypt alike from one state differ at most in bytes 4 to 7. |
| `EncryptionObject.RemainderByte` | share/encryption/encryption.go:74-85 | The masked double XOR of the tail changes exactly the tail's bytes, each by its own key byte. |
| `EncryptionObject.PutRemainder` | share/encryption/encryption.go:156-167 | The tail code fills the last zero to three bytes of the buffer with the keyed tail and nothing else. |
| `EncryptionObject.Encryption.Init` | share/encryption/encryption.go:23-28 | A new cipher expects the handshake and starts at a place inside the key schedule. |
| `EncryptionObject.Encryption.GetPacketSize` | share/encryption/encryption.go:31-38 | For every packet a client seals at this place of the key schedule, the length announced at the head of the stream is its own, whatever has arrived behind it. |
| `EncryptionObject.Encryption.Encrypt` | share/encryption/encryption.go:41-88 | The word loop and tail compute the pure chain; short input is refused; every table index is in range. |
| `EncryptionObject.Encryption.DecryptBody` | share/encryption/encryption.go:133-167 | The decrypting loop computes the pure chain under either base multiple, every table index in range. |
| `EncryptionObject.Encryption.Decrypt` | share/encryption/encryption.go:91-182 | A packet that a client seals at this place of the key schedule is read as the client meant it; a bad magic key changes nothing; the next receive key is the entry at twice the place, which moves on by one. |
| `Stream.LookStable` | share/network/session.go:63-97 | A decision to take a packet or to close is never changed by bytes that arrive later. |
| `Stream.DrainSettles` | share/network/session.go:63-116 | After the inner loop nothing more can be taken without another read. |
| `Stream.DrainThenMore` | share/network/session.go:56-116 | Draining early and again after more bytes equals draining once with all of them. |
| `Stream.FeedTwice` | share/network/session.go:56-132 | Two reads have the effect of one read of both chunks. |
| `Stream.ChunkingIrrelevant` | share/network/session.go:55-132 | For every stream, every split into reads and every handler: packets delivered, cipher state, verdict and (while open) pending bytes equal those of a single read. |
| `Stream.DrainConserves` | share/network/session.go:91-100 | The inner loop takes exactly the bytes of the packets it delivers off the front. |
| `Stream.FeedConserves` | share/network/session.go:56-132 | While open, delivered bytes plus the buffer are the bytes received, in order. |
| `Stream.HeadOfStream` | share/network/session.go:70-97 | A packet sealed by a client at the head of the buffer is taken whole and reads as the client meant, whatever follows. |
| `Stream.DrainClientStream` | share/network/session.go:63-116 | A buffered client stream, each packet under the key of its place in the schedule, is delivered packet by packet. |
| `Stream.EndToEnd` | share/network/session.go:43-133 | Whatever well-formed packets a client sends and however the network cuts them, the server delivers exactly those in order, stays open, holds no leftover byte and is at the client's place in the key schedule. |
| `Stream.ClosedThere` | share/network/session.go:63-118 | A handler that closes the session ends it there: the packets up to the one it closed at are delivered and none behind it, however the network cuts the stream. |
| `Stream.TakenIffAnnounced` | share/network/session.go:71-100 | The head of the buffer is taken exactly when it is there as a whole and its plaintext shows the magic key and its length; announced too short or there without showing them it closes the session; otherwise it waits. |
| `Stream.DeliveredAnnounced` | share/network/session.go:62-124 | Whatever bytes come in whatever chunks, no packet is delivered that does not show the magic key and its length. |
| `SessionObject.Session.DrainBuffer` | share/network/session.go:62-124 | The inner loop refines the stream machine, and the loop's own first-packet flag always equals the cipher's. |
| `SessionObject.Session.Start` | share/network/session.go:55-133 | The read loop over any chunks refines the stream machine. |
| `Fields.GetPut` | share/network/writer.go:64-106 | Storing a number in n bytes and reading it back gives it modulo the width, negative numbers included. |
| `Fields.PutGet` | share/network/reader.go:68-146 | Reading bytes as a number and storing it gives the bytes back. |
| `Fields.PutByte` | share/network/writer.go:163-170 | Every byte of a stored number, the least significant first. |
| `Fields.WrapSum` | share/network/reader.go:55-127 | Shifting and adding in two's complement, wrapping at each step, equals adding first and wrapping once. |
| `Fields.GetStored` | share/network/writer.go:59-114 | What a field of any width holds of a value of any Go type: the value modulo the narrower of the two. |
| `Fields.FieldSurvives` | share/network/writer.go:59-114 | One field read back from anywhere in a buffer returns the value written if and only if it fits the method pair. |
| `Fields.PayloadSnoc` | share/network/writer.go:128-230 | A run of writer calls lays out the list of its fields. |
| `Fields.ReadBack` | share/network/reader.go:31-170 | For the layout of every sequence of fields, reading never panics, ends exactly at its end and returns the values if and only if all of them fit. |
| `Fields.MatchingReadBack` | share/network/reader.go:31-170 | With matching types the layout of every sequence of integers, strings and byte arrays reads back unchanged and the index ends at the length. |
| `Fields.HeaderReadsBack` | share/network/writer.go:236-247 | The header reads back and its size field equals the length if and only if that is below 65536. |
| `Fields.NarrowNegativeLost` | share/network/writer.go:65-66 | Concrete input: int8 -1 in a four-byte field reads back as 255. |
| `Fields.WideIntLost` | share/network/writer.go:83-87 | Concrete input: a plain int of 2^32 in an eight-byte field reads back as 0. |
| `Network.Writer.constructor` | share/network/writer.go:20-40 | A new writer holds magic, empty size and type. |
| `Network.Writer.CheckLength` | share/network/writer.go:43-54 | Growth makes the room asked for, keeps everything written and overshoots by less than a block. |
| `Network.Writer.GetType` | share/network/writer.go:59-114 | Room is made, then the bytes of a known type are the stored layout; an unknown type fails. |
| `Network.LowBytes` | share/network/writer.go:62-107 | The shifts fill the scratch bytes with the little-endian value and leave the rest zero. |
| `Network.Writer.WriteInteger` | share/network/writer.go:128-211 | Every integer method appends exactly its field across any growth; an unknown type writes nothing. |
| `Network.Writer.WriteBytes` | share/network/writer.go:214-230 | Strings and byte arrays are appended whole across any number of growths. |
| `Network.Writer.Finalize` | share/network/writer.go:236-247 | The result is what was written with the length modulo 65536 in the size field. |
| `Network.Reader.ReadHeader` | share/network/reader.go:16-28 | The client header is read from its ten bytes, and a shorter packet is a panic. |
| `Network.Reader.ReadUnsigned` | share/network/reader.go:43-146 | The unsigned methods return the little-endian number and advance by the width, or panic exactly when bytes are missing. |
| `Network.Reader.ReadSigned` | share/network/reader.go:31-127 | The signed methods, with every shift and addition wrapping, return the two's-complement number. |
| `Network.Reader.ReadBytes` | share/network/reader.go:149-170 | The next bytes and the index past them, or a panic exactly when they are not there or the length is negative. |
| `Network.WriteAll` | share/network/writer.go:128-230 | A writer called once per field appends the layout of the whole sequence, across any number of growths. |
| `Network.ReadFields` | share/network/reader.go:31-170 | A reader called once per shape returns what the layout holds, or panics exactly where bytes are missing. |
| `Network.WriteThenRead` | share/network/writer.go:20-247 | Through the objects: every sequence of fields written, finalized and read is read to its end without a panic, and its values return if and only if each fits its methods. |
| `Wire.SentReadsBack` | share/network/session.go:136-150 | Fields written, finalized, encrypted and opened by the client under any key table are the same packet, and read back if and only if each fits. |
| `Wire.DeliveredLong` | share/network/session.go:78-103 | Every packet the read loop delivers, from any stream in any chunks, is long enough for the reader's header. |
| `Wire.ReceivedReadsBack` | share/network/reader.go:16-28 | Any fields a client writes make a well-formed packet below 65536 bytes, and what the server delivers of it gives back its type, and its values if and only if each fits. |
| `Economy.ArrivalsContents` | cmd/masterserver/rpc/inventory.go:669-674 | With distinct targets the inserted rows are exactly the transferred goods at their targets. |
| `Economy.FirstFree` | cmd/masterserver/rpc/mail.go:390-408 | The lowest free slot below 256, if there is one. |
| `Ledger.MoveAllOneMore` | cmd/masterserver/rpc/inventory.go:652-677 | After validation, at every point of the loop the next row is still there to delete and its target still free. |
| `Ledger.OtherDirectionStillOk` | cmd/masterserver/rpc/inventory.go:577-598 | The first direction takes no row the second has to delete and fills no slot the second needs. |
| `Ledger.TradeConserves` | cmd/masterserver/rpc/inventory.go:538-615 | A trade changes neither the total Alz nor the multiset of goods, accepted or not. |
| `Ledger.StorageMoveConserves` | cmd/masterserver/rpc/inventory.go:434-533 | Moves between inventory and warehouse change neither. |
| `Ledger.SendConserves` | cmd/masterserver/rpc/mail.go:227-287 | A send lowers total Alz by exactly the fee charged, and keeps the goods if and only if it claims no item it does not attach. |
| `Ledger.TakeAlzConserves` | cmd/masterserver/rpc/mail.go:300-355 | Taking Alz out of a mail conserves Alz and goods. |
| `Ledger.TakeItemConserves` | cmd/masterserver/rpc/mail.go:357-441 | Taking an item out of a mail conserves Alz and goods. |
| `Ledger.ReturnConserves` | cmd/masterserver/rpc/mail.go:443-510 | Returning a mail conserves Alz and goods. |
| `Ledger.FlagConserves` | cmd/masterserver/rpc/mail.go:535-547 | Flagging and cleaning up conserves Alz and goods if what a receiver deletes is empty. |
| `Ledger.PostInvariantKept` | cmd/masterserver/rpc/mail.go:207-216 | Every step keeps: mail deleted by its receiver is empty, none is deleted by both, ids stay below the counter, no mailbox exceeds 100, returns included. |
| `Ledger.StepConserves` | cmd/masterserver/rpc/mail.go:171-579 | Every step lowers total Alz by exactly the fee it charges and keeps the multiset of goods. |
| `Ledger.RunConserves` | cmd/masterserver/rpc/mail.go:171-604 | Over every run of trades, moves and mail: Alz falls by exactly the fees, goods are constant, mailboxes stay bounded. |
| `Ledger.OnlyEmptyMailVanishes` | cmd/masterserver/rpc/mail.go:600-604 | A mail row that disappears held neither Alz nor an item. |
| `Ledger.StepAccounted` | cmd/masterserver/rpc/mail.go:171-604 | What every handler owes: the post stays in order, Alz falls by exactly the fee, goods are kept unless it is told to post an item it does not have. |
| `Ledger.CleanupHarmless` | cmd/masterserver/rpc/mail.go:600-604 | The physical delete keeps mailboxes bounded and loses nothing if what a receiver deleted is empty. |
| `Ledger.UnattachedGoodsAppear` | cmd/masterserver/rpc/mail.go:260-266 | Concrete input: goods sent from 8 to 16 in a request that attaches none come out of nothing. |
| `EconomyEffects.TakeAlzEffect` | cmd/masterserver/rpc/mail.go:313-343 | Alz in a mail goes to the purse of its receiver and nowhere else, exactly when the mail is there for it, has some, and it fits. |
| `EconomyEffects.TakenAlz` | cmd/masterserver/rpc/mail.go:330-343 | What was taken cannot be taken again, and the mail cannot be returned. |
| `EconomyEffects.TakeItemEffect` | cmd/masterserver/rpc/mail.go:370-431 | An item in a mail comes to lie in its receiver's inventory and nowhere else, in the slot asked for or the lowest free one, exactly when there is such a slot. |
| `EconomyEffects.TakenItem` | cmd/masterserver/rpc/mail.go:385-431 | Likewise for the item. |
| `EconomyEffects.EitherFirst` | cmd/masterserver/rpc/mail.go:326-329 | Alz and item are independent: taking one first changes neither whether the other can be taken nor what is left in the end. |
| `EconomyEffects.StorageMoveEffect` | cmd/masterserver/rpc/inventory.go:434-533 | A move is made exactly when there is something to move and a free place for it; then exactly that row lies elsewhere, and every other row of both tables stands. |
| `EconomyEffects.StorageMoveAnswers` | cmd/masterserver/rpc/inventory.go:434-450 | An error exactly for a bad character or table; a move onto itself succeeds without effect; what is not moved is not touched. |
| `EconomyEffects.MovedBack` | cmd/masterserver/rpc/inventory.go:434-533 | Moving back undoes a move, whatever the tables. |
| `EconomyEffects.SendEffect` | cmd/masterserver/rpc/mail.go:222-287 | A mail that is sent is in its receiver's mailbox with what was sent; the sender alone pays, Alz and fee, and what it attached is no longer carried. One that is refused changes nothing. |
| `EconomyEffects.PostedIff` | cmd/masterserver/rpc/mail.go:173-266 | A mail is sent exactly when both characters are there under different accounts, the mailbox has room, Alz and fee can be paid and what is attached is there. |
| `EconomyEffects.RefusalsTrue` | cmd/masterserver/rpc/mail.go:185-266 | Every reason given for a refusal is true of the request. |
| `EconomyEffects.ReturnEffect` | cmd/masterserver/rpc/mail.go:456-508 | A mail goes back exactly when nothing was taken from it and its sender is there and has room; then the sender's mailbox gains it and the receiver's loses it, with all it held. |
| `EconomyEffects.ReturnedAgain` | cmd/masterserver/rpc/mail.go:443-510 | A returned mail can be sent back, for there is room where it came from, and is then where it was. |
| `EconomyEffects.DeleteReceivedEffect` | cmd/masterserver/rpc/mail.go:512-552 | An empty mail leaves exactly its receiver's mailbox; the row goes exactly when the sender has deleted it too; every refusal names its reason. |
| `EconomyEffects.DeleteSentEffect` | cmd/masterserver/rpc/mail.go:554-579 | No mailbox changes; the row goes exactly when the receiver has deleted it too. |
| `EconomyEffects.BothDelete` | cmd/masterserver/rpc/mail.go:600-604 | Deleting on both sides takes the row away, in either order. |
| `EconomyEffects.TradeEffect` | cmd/masterserver/rpc/inventory.go:559-605 | Each purse loses what its own side puts up and gains what the other does, the answer is the two balances, and nobody else's purse moves; a refused trade changes nothing. |
| `Holdings.MoveAllHeld` | cmd/masterserver/rpc/inventory.go:652-677 | One direction of a trade takes exactly the listed goods from what the one holds and adds them to what the other holds. |
| `Holdings.StepMoves` | cmd/masterserver/rpc/mail.go:171-579 | What a character holds, carried, stored and in the mail addressed to it, changes by exactly what a granted trade, mail or return moves from and to it; taking attachments, storing and deleting move nothing between characters. |
| `Holdings.StepFair` | cmd/masterserver/rpc/mail.go:171-579 | The same for all characters at once, as every handler of the Master ensures. |
| `Holdings.RunMoves` | cmd/masterserver/rpc/mail.go:171-604 | Over every run each character holds what it held before, with what trades and mail brought it and without what they took. |
| `MailDeletion.FlagReceivedOk` | cmd/masterserver/rpc/mail.go:535-546 | Flagging a mail seen without attachments, whatever has happened since, keeps the post in order and the totals. |
| `MailDeletion.CleanOk` | cmd/masterserver/rpc/mail.go:600-604 | The physical delete at any time keeps the post in order and the totals, and what it takes is empty. |
| `MailDeletion.RequestShrinks` | cmd/masterserver/rpc/mail.go:327-431 | No transaction adds to the attachments of a mail, and no mail id is used again. |
| `MailDeletion.AdvanceKeeps` | cmd/masterserver/rpc/mail.go:522-575 | Every transaction and every statement of a delete keeps: mail deleted by its receiver is empty, mail once seen empty is empty, mailboxes are bounded, value is accounted for. |
| `MailDeletion.InterleavedConserves` | cmd/masterserver/rpc/mail.go:512-579 | In every interleaving of transactions and delete statements Alz falls by exactly the fees, goods are constant, and cleanup stays harmless. |
| `MailDeletion.OnlyEmptyGoes` | cmd/masterserver/rpc/mail.go:600-604 | Whatever comes in between, a mail that disappears was empty. |
| `MailDeletion.Uninterrupted` | cmd/masterserver/rpc/mail.go:512-579 | Without anything in between the statements are the whole delete. |
| `MasterObject.ValidateTransfers` | cmd/masterserver/rpc/inventory.go:617-650 | The loop accepts exactly real, distinct transfers of stored rows to distinct free slots. |
| `MasterObject.ApplyTransfers` | cmd/masterserver/rpc/inventory.go:652-677 | After validation no delete misses and no insert collides; the result is the whole move. |
| `MasterObject.FindFreeSlot` | cmd/masterserver/rpc/mail.go:391-408 | The slot found is free and every lower one is taken. |
| `MasterObject.Master.TradeItems` | cmd/masterserver/rpc/inventory.go:538-615 | The transaction and its answer are one all-or-nothing step; it conserves Alz and goods, and moves between the two characters exactly what each puts up. |
| `MasterObject.Master.StorageMove` | cmd/masterserver/rpc/inventory.go:434-533 | Both tables and both directions, refusals included, are one step that conserves Alz and goods and moves nothing between characters. |
| `MasterObject.Master.CountMailbox` | cmd/masterserver/rpc/mail.go:207-212 | Below the limit, whatever one mail is stored next leaves the mailbox within its limit. |
| `MasterObject.Master.SendMail` | cmd/masterserver/rpc/mail.go:171-288 | The handler is one send step with its refusals in order; it charges exactly the fee, keeps the post in order, and moves what is enclosed from the sender to the receiver. |
| `MasterObject.Master.ReceiveMailAlz` | cmd/masterserver/rpc/mail.go:300-355 | The Alz of the mail, all of it and once, goes to the purse of its receiver; every other purse and mail stands, every character holds what it held, and the post is kept in order. |
| `MasterObject.Master.ReceiveMailItem` | cmd/masterserver/rpc/mail.go:357-441 | The item moves once, to the asked or lowest free slot of its receiver; every character holds what it held; total Alz, goods and the order of the post are kept. |
| `MasterObject.Master.ReturnMail` | cmd/masterserver/rpc/mail.go:443-510 | Sender and receiver change places or the refusal is named; what the mail holds is the sender's again; no mailbox exceeds its limit, and total Alz and goods are kept. |
| `MasterObject.Master.CleanupDeletedMail` | cmd/masterserver/rpc/mail.go:600-604 | At any time mailboxes stay bounded, the post stays in order, and nothing of value goes if what receivers deleted is empty. |
| `MasterObject.Master.SelectAttachments` | cmd/masterserver/rpc/mail.go:522-534 | Whether the mail is the character's to delete, and whether anything is attached. |
| `MasterObject.Master.MarkDeletedReceiver` | cmd/masterserver/rpc/mail.go:535-546 | One flag statement: on a mail without attachments, whatever has happened since the look, post and totals are kept; the row count says whether it took. |
| `MasterObject.Master.DeleteReceivedMail` | cmd/masterserver/rpc/mail.go:512-552 | Its statements in order, run without interruption: a receiver can delete only what is empty, so total Alz and goods are kept and mail deleted by its receiver stays empty. |
| `MasterObject.Master.MarkDeletedSender` | cmd/masterserver/rpc/mail.go:563-574 | One flag statement: at any time post and totals are kept; the row count says whether it took. |
| `MasterObject.Master.DeleteSentMail` | cmd/masterserver/rpc/mail.go:554-579 | Its statements in order, run without interruption: total Alz and goods and the order of the post are kept. |
| `Trade.OfferIndexIsFirst` | cmd/gameserver/packet/trade.go:688-695 | The index found is the first offer matching both places. |
| `Trade.LandedContents` | cmd/gameserver/packet/trade.go:545-557 | With distinct destinations every incoming item ends up in its own slot. |
| `TradeSafety.CompleteKeepsLinks` | cmd/gameserver/packet/trade.go:498-577 | Commit and abort end both sides of the trade and touch nobody else's link. |
| `TradeSafety.CancelKeepsLinks` | cmd/gameserver/packet/trade.go:582-634 | Leaving resets both sides of a live trade and only those. |
| `TradeSafety.LinksKept` | cmd/gameserver/packet/trade.go:159-216 | Every handler keeps links symmetric: another player, same status, pointing back, complementary role, distinct real offers; entering a character and going to the lobby included. |
| `TradeSafety.LinkedAlways` | cmd/gameserver/packet/trade.go:757-795 | The same in every state any run reaches, whatever characters are entered on the sessions in between. |
| `TradeEffects.RequestEffect` | cmd/gameserver/packet/trade.go:757-795 | A request is taken exactly between two idle players under the characters named; the sender is then the one who asks, the one named the one who is asked, and nobody else notices. |
| `TradeEffects.AnswerEffect` | cmd/gameserver/packet/trade.go:159-182 | Only who was asked can accept or reject, only who asked can withdraw, and only under the character recorded; an accept opens the trade on both sides, anything else ends it on both. |
| `TradeEffects.CloseEffect` | cmd/gameserver/packet/trade.go:243-288 | In an open trade a submit or its withdrawal sets exactly the sender's approval; a cancel ends the trade on both sides. |
| `TradeEffects.AddItemEffect` | cmd/gameserver/packet/trade.go:326-346 | An offer is taken exactly when the slot holds an item and neither place is used; it is what lies there then, behind the earlier ones, and withdraws the other side's approval. |
| `TradeEffects.AddAlzEffect` | cmd/gameserver/packet/trade.go:377-389 | An amount is taken exactly when the player has it, and replaces the one before. |
| `TradeEffects.RemoveItemEffect` | cmd/gameserver/packet/trade.go:419-434 | Exactly the offer in both places goes, and the others keep their order. |
| `TradeEffects.NothingRemoved` | cmd/gameserver/packet/trade.go:419-426 | Without such an offer nothing happens. |
| `TradeEffects.RemoveUndoesAdd` | cmd/gameserver/packet/trade.go:305-435 | Taking an offer back leaves offer and amount as they were. |
| `TradeEffects.ListAccepted` | cmd/gameserver/packet/trade.go:446-488 | A destination list is taken exactly when both sides have submitted and it names, without repeats, a free slot for each of the other side's offers. |
| `TradeEffects.ListNoted` | cmd/gameserver/packet/trade.go:489-496 | The first list to come is noted and nothing else happens. |
| `TradeEffects.ListCompletes` | cmd/gameserver/packet/trade.go:498-577 | The second puts the exchange to the Master, at most once, and ends the trade on both sides; both sides then hold the Master's balances, the incoming items in the slots they chose and what they did not offer, exactly when the Master answers that it has carried it out, and otherwise what they held. |
| `TradeEffects.LobbyEffect` | cmd/gameserver/packet/initialized.go:360-374 | Whoever leaves is out of its trade and so is the other side; its cached list goes, and nobody else notices. |
| `TradeEffects.DisconnectEffect` | cmd/gameserver/event.go:52-64 | The session is gone as well. |
| `TradeEffects.EnterEffect` | cmd/gameserver/packet/initialized.go:56-81 | Entering touches no other session and no trade; a character that is not on the list is not entered. |
| `TradeEffects.FreshEntry` | cmd/gameserver/packet/initialized.go:56-81 | A character entered from a list just loaded, or with none cached, is as the Master has it. |
| `TradeEffects.EntryAfterLobbyOrList` | cmd/gameserver/packet/initialized.go:56-81 | So is one entered straight from the lobby, or right after its account's list was asked for. |
| `TradeHistory.EveryChangeCaused` | cmd/gameserver/packet/trade.go:119-634 | Nothing about a player's trade changes in a step but for one of nine reasons, each told by the packet and who sent it. |
| `TradeHistory.AskedBefore` | cmd/gameserver/packet/trade.go:757-795 | In every run whoever is in a trade has asked its opponent or been asked by it, as its side says, and the two have been together since. |
| `TradeHistory.AcceptedBefore` | cmd/gameserver/packet/trade.go:159-182 | In every run an open trade was accepted by the side that had been asked, while the request stood, and has been open since. |
| `TradeHistory.OpenedByBoth` | cmd/gameserver/packet/trade.go:159-182 | In every run a trade is open only if one of the two asked the other and then that other accepted. |
| `TradeHistory.OfferCaused` | cmd/gameserver/packet/trade.go:305-435 | An offer comes only from its owner's packet and what lay in that slot then; it goes only by its owner's packet or with the trade. |
| `TradeHistory.OfferedBefore` | cmd/gameserver/packet/trade.go:305-347 | In every run each offer was made by its owner, of what lay in that slot then, and has been on offer since. |
| `TradeHistory.AlzSetBefore` | cmd/gameserver/packet/trade.go:357-389 | In every run the Alz a player offers is the last amount it set. |
| `TradeNames.NamesKept` | cmd/gameserver/packet/initialized.go:286-291 | A step keeps every opponent recorded under its character if and only if it does not enter another character on a session that is in a trade. |
| `TradeNames.NamedAlways` | cmd/gameserver/packet/trade.go:782-793 | In every run without such a step a trade names its opponent. |
| `TradeInputs.AnotherCharacterPays` | cmd/gameserver/packet/trade.go:512-515 | Concrete input: both have submitted, user 1 enters 81 in place of 80, the links stand, the peer still records 80, and 81 pays. |
| `TradeApproval.DealKept` | cmd/gameserver/packet/trade.go:326-346 | While a player stays submitted no step changes its own or its opponent's items and Alz. |
| `TradeApproval.OnlySubmitSubmits` | cmd/gameserver/packet/trade.go:273-287 | Only a player's own submit makes it submitted, and that step changes no offer. |
| `TradeApproval.LastSubmit` | cmd/gameserver/packet/trade.go:273-287 | A submitted player has a last submit of its own since which it has stayed submitted. |
| `TradeApproval.DealKeptThrough` | cmd/gameserver/packet/trade.go:377-434 | Over any stretch of a run spent submitted both offers stand still. |
| `TradeApproval.ApprovedAt` | cmd/gameserver/packet/trade.go:273-287 | The terms a submitted player faces now are those it faced at its last submit, and either character is the same if and only if no other was entered on that session since. |
| `TradeApproval.CommittedWasApproved` | cmd/gameserver/packet/trade.go:477-532 | In every run, an exchange put to the Master carries exactly the two offers as each player saw them at its own last submit, and the characters that pay are those of that submit if and only if no other was entered on their sessions since. |
| `TradeSlots.StepFollows` | cmd/gameserver/packet/trade.go:489-489 | A step leaves a player's destination list empty, as it names it, or as it was; nothing else writes it. |
| `TradeSlots.ListNamed` | cmd/gameserver/packet/trade.go:489-489 | A list that stands was named by its player's last accepted list and has stood since. |
| `TradeSlots.SlotsNamed` | cmd/gameserver/packet/trade.go:489-532 | Where the goods of a committed exchange land: for one side in the slots of this very step, for the other in those of its last accepted list, named since both last submitted if and only if it has sent one since. |
| `TradeInputs.StaleSlotUsed` | cmd/gameserver/packet/trade.go:477-495 | Concrete input: user 1 names slot 9 for a ring, user 2 swaps it for a helm, both submit again, and the helm goes to slot 9. |
| `TradeMirror.ExchangedSlot` | cmd/masterserver/rpc/inventory.go:593-598 | Slot by slot, what both characters hold after an exchange. |
| `TradeMirror.SettledSlot` | cmd/gameserver/packet/trade.go:542-557 | Slot by slot, what the in-memory settlement leaves: emptied, filled or as before. |
| `TradeMirror.BothSettle` | cmd/gameserver/packet/trade.go:541-562 | After a commit both in-memory inventories and purses are the Master's rows. |
| `TradeMirror.BystanderMirrors` | cmd/masterserver/rpc/inventory.go:593-605 | Nobody else's rows or Alz are touched. |
| `TradeMirror.MasterAgrees` | cmd/masterserver/rpc/inventory.go:573-591 | In step, the Master accepts an exchange if and only if both sides still hold every item as offered, the destinations are free and of another slot number, and both purses can pay and take. |
| `TradeMirror.LostReply` | cmd/gameserver/packet/trade.go:534-539 | After a lost answer memory and Master agree if and only if one side could no longer deliver or the exchange moves nothing. |
| `TradeMirror.CompleteKeepsSync` | cmd/gameserver/packet/trade.go:518-577 | Committing, refusing or failing to reach the Master keeps memory and Master in step. |
| `TradeMirror.SyncKept` | cmd/gameserver/packet/trade.go:518-562 | One step of the world keeps memory and Master in step, with one memory for each character, if and only if it is neither an unheard commit that moves something, nor an entry from a stale list, nor an entry of a character that another session has. |
| `TradeMirror.InSyncAlways` | cmd/gameserver/packet/trade.go:518-562 | In every run without such a step every player's memory equals the Master's rows. |
| `TradeMirror.EnterKeepsSync` | cmd/gameserver/packet/initialized.go:56-81 | Entering a character keeps memory and Master in step if and only if the list it comes from has the Master's Alz and no other session has the character. |
| `TradeInputs.LostAnswerDiverges` | cmd/gameserver/packet/trade.go:535-539 | Concrete input: 5 of 9 Alz and no items, the answer lost; memory and Master differ. |
| `TradeInputs.StaleListDiverges` | cmd/gameserver/packet/initialized.go:56-74 | Concrete input: a list loaded at 9 Alz, 4 now; entering the character again takes the 9. |
| `TradeInputs.SharedCharacterDiverges` | cmd/gameserver/packet/initialized.go:76-81 | Concrete input: character 80 on two sessions; one spends 5 of 9 Alz and the other's memory still says 9. |
| `TradeServer.FindOffer` | cmd/gameserver/packet/trade.go:679-686 | Whether an earlier offer takes the slot or the window place. |
| `TradeServer.FindOfferIndex` | cmd/gameserver/packet/trade.go:688-695 | The first match, or -1 exactly when there is none. |
| `TradeServer.CheckSlots` | cmd/gameserver/packet/trade.go:458-469 | The destination list is in range and free of repeats. |
| `TradeServer.AllFree` | cmd/gameserver/packet/trade.go:483-488 | Every destination slot is empty. |
| `TradeServer.MakeTransfers` | cmd/gameserver/packet/trade.go:525-532 | Each offered item is paired with the other side's destination of the same index. |
| `TradeServer.RemoveGiven` | cmd/gameserver/packet/trade.go:542-544 | Exactly the offered slots are emptied. |
| `TradeServer.SetReceived` | cmd/gameserver/packet/trade.go:545-549 | The incoming items land over what was there, in order. |
| `TradeServer.Server.Initialized` | cmd/gameserver/packet/initialized.go:33-291 | One entering step: the cached list if it is not empty, the character and its stored items on the session, the trade untouched. |
| `TradeServer.Server.Uninitialze` | cmd/gameserver/packet/initialized.go:360-374 | One step to the lobby: the trade cancelled, the list dropped, the character kept. |
| `TradeServer.Server.OnClientDisconnect` | cmd/gameserver/event.go:52-64 | One disconnecting step: the trade cancelled on both sides and the session gone. |
| `TradeServer.Server.ReserveTradeRequest` | cmd/gameserver/packet/trade.go:757-795 | Two idle players become pending with complementary roles, or nothing changes. |
| `TradeServer.Server.TradeRequest` | cmd/gameserver/packet/trade.go:43-116 | Two idle players under the characters named stand in a request, the sender as the one who asks and the one named as the one who is asked; in any other case nothing happens. |
| `TradeServer.Server.TradeOpenEvent` | cmd/gameserver/packet/trade.go:119-216 | One accept, reject or cancel step, only for a matching pending request in the right role. |
| `TradeServer.Server.TradePair` | cmd/gameserver/packet/trade.go:636-657 | An open trade with another player who is still there. |
| `TradeServer.Server.TradeCloseEvent` | cmd/gameserver/packet/trade.go:243-288 | One submit, withdraw or cancel step. |
| `TradeServer.Server.EditOffer` | cmd/gameserver/packet/trade.go:340-346 | A changed offer withdraws the opponent's approval. |
| `TradeServer.Server.TradeAddItem` | cmd/gameserver/packet/trade.go:305-347 | One add-item step. |
| `TradeServer.Server.TradeAddAlz` | cmd/gameserver/packet/trade.go:357-389 | One add-Alz step. |
| `TradeServer.Server.TradeRemoveItem` | cmd/gameserver/packet/trade.go:399-435 | One remove-item step. |
| `TradeServer.Server.BuildRequest` | cmd/gameserver/packet/trade.go:508-532 | The request names both players and carries both offers with the other side's destinations. |
| `TradeServer.Server.SettleBoth` | cmd/gameserver/packet/trade.go:541-562 | Both contexts are settled and nobody else's changes. |
| `TradeServer.Server.CompleteTrade` | cmd/gameserver/packet/trade.go:498-566 | One Master transaction, then both contexts; anything but success aborts. |
| `TradeServer.Server.AbortCompletedTrade` | cmd/gameserver/packet/trade.go:568-577 | Both trades are cleared and nothing else. |
| `TradeServer.Server.ListAcceptable` | cmd/gameserver/packet/trade.go:446-488 | The checks of a destination list decide exactly whether it is taken. |
| `TradeServer.Server.TradeRequestList` | cmd/gameserver/packet/trade.go:446-496 | One destination-list step, completing the trade when both lists are in. |
| `TradeServer.Server.CancelTrade` | cmd/gameserver/packet/trade.go:582-628 | The leaver is always reset, the peer only while it points back. |
| `Party.AcceptKeeps` | cmd/gameserver/packet/party.go:227-249 | Accepting keeps agreement: all members hold the same party of 2 to 7 distinct members led by one of them. |
| `Party.LeaveKeeps` | cmd/gameserver/packet/party.go:313-372 | Leaving keeps agreement and the leaver has no party. |
| `Party.KickKeeps` | cmd/gameserver/packet/party.go:376-449 | Kicking keeps agreement. |
| `Party.LeaderKeeps` | cmd/gameserver/packet/party.go:452-487 | Changing the leader keeps agreement, the new leader being a member. |
| `Party.SettersKeep` | cmd/gameserver/packet/party.go:490-555 | Authority and looting changes keep agreement. |
| `Party.StepKeeps` | cmd/gameserver/packet/party.go:803-838 | Every step keeps agreement and never reissues a party id. |
| `Party.RunKeeps` | cmd/gameserver/packet/party.go:803-838 | Agreement holds in every state any run reaches, whatever characters are entered on the sessions in between. |
| `Party.PartiesDisjoint` | cmd/gameserver/packet/party.go:695-734 | Parties that share a member session are the same party. |
| `PartyNames.NamesKept` | cmd/gameserver/packet/initialized.go:286-291 | A step keeps every member listed under its character if and only if it does not enter another character on a session that is in a party. |
| `PartyNames.NamedAlways` | cmd/gameserver/packet/party.go:765-778 | In every run without such a step members are listed under their characters. |
| `PartyNames.AnotherCharacterListed` | cmd/gameserver/packet/party.go:794-801 | Concrete input: user 1 enters 81 in place of 80, the party agrees as before, lists it under 80, and a kick of 81 does nothing. |
| `PartyEffects.AcceptJoins` | cmd/gameserver/packet/party.go:695-734 | Accepting fails exactly when both have a party or there is no room; otherwise the members of both sides share one party, the new one last, with the settings of the side that had one or those of a new party led by the inviter, and outsiders are untouched. |
| `PartyEffects.LeaveRemoves` | cmd/gameserver/packet/party.go:327-372 | A pair dissolves; a larger party keeps its other members in order, and leadership passes to the first of them exactly when the leader left. |
| `PartyEffects.KickRemoves` | cmd/gameserver/packet/party.go:395-446 | When the leader names another member, that member and no other leaves the party. |
| `PartyEffects.KickRefused` | cmd/gameserver/packet/party.go:395-414 | Anyone else's kick or leader change, or one that names no other member, changes nothing. |
| `PartyEffects.LeaderHandsOver` | cmd/gameserver/packet/party.go:452-487 | The member named by the leader leads the party, for everyone in it, and nothing else has changed. |
| `PartyEffects.AuthSet` | cmd/gameserver/packet/party.go:490-517 | The leader's authority setting reaches every member; anyone else's changes nothing. |
| `PartyEffects.LootSet` | cmd/gameserver/packet/party.go:520-555 | The leader's looting settings, if they are among those there are, reach every member; any other request changes nothing. |
| `PartyEffects.SeatsComeAndGo` | cmd/gameserver/event.go:52-64 | A connection that ends leaves its party like any leaver, and its seat is gone; whoever enters keeps the party of the session. |
| `PartyServer.FindMember` | cmd/gameserver/packet/party.go:785-792 | Membership by user index. |
| `PartyServer.FindByChar` | cmd/gameserver/packet/party.go:794-801 | The first member with the character id. |
| `PartyServer.Remaining` | cmd/gameserver/packet/party.go:331-336 | The other members, in order. |
| `PartyServer.Server.Initialized` | cmd/gameserver/packet/initialized.go:286-291 | One entering step: the character changes, the party does not. |
| `PartyServer.Server.OnClientDisconnect` | cmd/gameserver/event.go:52-64 | One disconnecting step: the party is left and the session gone. |
| `PartyServer.Server.ClearPartyState` | cmd/gameserver/packet/party.go:829-838 | Exactly one context loses its party. |
| `PartyServer.Server.ApplyPartyState` | cmd/gameserver/packet/party.go:803-827 | Exactly the members present get the copy, repeats and absentees notwithstanding. |
| `PartyServer.Server.MakePartyState` | cmd/gameserver/packet/party.go:695-734 | The joined party or a refusal; an id is drawn exactly when neither side has a party. |
| `PartyServer.Server.AcceptInvite` | cmd/gameserver/packet/party.go:227-249 | One accept step of the world. |
| `PartyServer.Server.LeaveParty` | cmd/gameserver/packet/party.go:313-372 | One leave step, with its answer. |
| `PartyServer.Server.PartyKickout` | cmd/gameserver/packet/party.go:376-449 | One kick step. |
| `PartyServer.Server.PartyLeaderChange` | cmd/gameserver/packet/party.go:452-487 | One leader-change step. |
| `PartyServer.Server.PartyAuthChange` | cmd/gameserver/packet/party.go:490-517 | One authority step. |
| `PartyServer.Server.PartyLootingType` | cmd/gameserver/packet/party.go:520-555 | One looting step. |
| `SkillRank.LocateUnique` | cmd/gameserver/packet/skill.go:527-612 | Ordinary progress is the only track standing for its experience, so the closed form is the only possible one. |
| `SkillRank.LocatePhi` | cmd/gameserver/packet/skill.go:554-593 | The closed form stands for exactly the experience, or the threshold of the allowed rank if that is less. |
| `SkillRank.ClimbFrom` | cmd/gameserver/packet/skill.go:529-600 | From any place on the ladder the loop, with its promotions, cap and rollback, ends in the closed form; what found no place is what lies beyond the cap. |
| `SkillRank.Climb` | cmd/gameserver/packet/skill.go:529-600 | The same from any stored track, one with more points than its rank needs included. |
| `SkillRank.BankedBelowCap` | cmd/gameserver/packet/skill.go:543-553 | A place on the ladder has banked at most what its rank takes, and a point less while the rank is not full. |
| `SkillRank.PromoteRaises` | cmd/gameserver/packet/skill.go:580-586 | Leaving ranks adds to each stat, in 32 bits, the sum of what the bonus table holds for exactly those ranks. |
| `SkillRank.StatsRaised` | cmd/gameserver/packet/skill.go:580-586 | So does every gain, from any stored track. |
| `SkillRank.OverfullPromoted` | cmd/gameserver/packet/skill.go:543-588 | A track with more points than its rank needs is promoted by a full bar as one a point short of it would be. |
| `SkillRank.AddSkillExperience` | cmd/gameserver/packet/skill.go:477-612 | For every stored track, one with too many points or rank 0 included, track, points, stats and report are the closed form's, and each stat has grown by what the table holds for the ranks left behind. |
| `SkillGain.GainExact` | cmd/gameserver/packet/skill.go:527-593 | Experience after a gain is the old plus the gain, capped at the allowed rank's threshold, if and only if bar and gain fit in 32 bits; the rank never exceeds the allowed rank. |
| `SkillGain.ReportExact` | cmd/gameserver/packet/skill.go:554-597 | What is reported as applied: all of the gain below the cap, what was missing to the cap at the last rank, nothing at a limit; and whether a rank was gained. |
| `SkillGain.GainLost` | cmd/gameserver/packet/skill.go:527-527 | Concrete input: a bar of 5 and a gain of 2^32 - 1 leave a bar of 4. |
| `SkillRank.PointsExact` | cmd/gameserver/packet/skill.go:544-569 | Skill points grow with the track if and only if the 16-bit counter does not saturate on the way. |
| `SkillGain.SplitExact` | cmd/gameserver/packet/skill.go:527-612 | Granting g1 then g2 equals granting g1 + g2 in rank, rank experience, bar, points and stats if and only if the split is harmless, in particular whenever all fits in 32 bits. |
| `SkillGain.AnySplit` | cmd/gameserver/packet/skill.go:527-612 | A gain that fits may be cut into any number of parts. |
| `SkillGain.SplitMatters` | cmd/gameserver/packet/skill.go:527-527 | Concrete input: 5 and then 2^32 - 6 on a bar of 5 do not end where 2^32 - 1 does. |
| `SkillGain.CappedExact` | cmd/gameserver/packet/skill.go:527-578 | Once a gain that fits has reached the cap, a further gain changes nothing if and only if the last rank is finished or bar and gain fit in 32 bits. |
| `SkillGain.FullBarExact` | cmd/gameserver/packet/skill.go:527-570 | A character found at the full bar of a limit is a fixed point of a gain if and only if its point counter is not full and bar and gain fit in 32 bits. |
| `SkillGain.FullCounterLosesPoint` | cmd/gameserver/packet/skill.go:544-569 | Concrete input: a full bar, a full counter and a gain of 1 cost a point. |
| `SkillGain.FullBarWraps` | cmd/gameserver/packet/skill.go:527-527 | Concrete input: a full bar of 10, an empty counter and a gain of 2^32 - 1 leave a bar of 9. |
| `SkillGain.CalledGains` | cmd/gameserver/packet/skill.go:174-174 | For the gains the callers pass, growth and splitting are exact without further condition. |
| `SkillRank.FinishedStays` | cmd/gameserver/packet/skill.go:523-525 | The finished last rank is where any grant leaves it. |
| `Levels.LevelForExperience` | cmd/gameserver/clientdata/levels.go:28-44 | The loop terminates despite 16-bit levels, passes only levels whose threshold is met and stops at the first it cannot leave. |
| `Levels.LevelMonotone` | cmd/gameserver/clientdata/levels.go:28-44 | More experience never means a lower level, whatever the thresholds. |
| `Levels.LevelInTwo` | cmd/gameserver/clientdata/levels.go:28-44 | Levelling in two stages ends where one stage does. |
| `Levels.GrantEffect` | cmd/gameserver/packet/skill.go:337-361 | A grant that is taken adds thirty times the gain, leads to the level attained with the total and gives five points per level; one too large to multiply is taken only by a character without experience. |
| `Levels.RefusedOnly` | cmd/gameserver/packet/skill.go:337-361 | A grant is refused exactly when it is empty or the total or the points would not fit. |
| `Levels.Character.AddExperience` | cmd/gameserver/packet/skill.go:331-407 | A grant is taken unless empty, overflowing or unsaved, and then moves experience, level and points together. |
| `Levels.SplitGrowth` | cmd/gameserver/packet/skill.go:339-361 | Splitting a gain in two changes nothing, and points are exactly five per level gained. |
| `Levels.AnySplit` | cmd/gameserver/packet/skill.go:339-407 | The same for any number of parts. |
| `BattleSkills.CheckRequest` | cmd/masterserver/rpc/skill.go:109-118 | A request is accepted exactly when its skills are real, in reserved slots, one skill per slot. |
| `BattleSkills.RemoveUnwanted` | cmd/masterserver/rpc/skill.go:120-137 | Exactly the reserved rows not asked for go, and the report names them. |
| `BattleSkills.FillOne` | cmd/masterserver/rpc/skill.go:139-213 | One requested skill is kept, moved or inserted, and the report says which. |
| `BattleSkills.TurnFills` | cmd/masterserver/rpc/skill.go:139-213 | Each turn fills its slot without disturbing those filled before. |
| `BattleSkills.TurnFollowed` | cmd/gameserver/packet/battle_mode.go:374-385 | A mirror that applies what a turn reports equals the new rows. |
| `BattleSkills.GrantBattleModeSkills` | cmd/masterserver/rpc/skill.go:90-220 | Slots 70 to 81 end up holding exactly the requested skills if and only if none is asked for twice in different slots; one row per skill is kept, other rows are untouched unless called in, levels survive, the delta takes an old mirror to the new rows, and a second call changes and reports nothing. |
| `BattleSkills.ApplyDelta` | cmd/gameserver/packet/battle_mode.go:365-386 | The in-memory loops apply the delta that the grant's contract speaks of. |
| `BattleSkills.Arrive` | cmd/gameserver/packet/battle_mode.go:374-385 | In whatever order the list is scanned, a skill leaves its other slots and takes its own. |
| `BattleSkills.TwoSlotsCannotBeMet` | cmd/masterserver/rpc/skill.go:109-118 | Concrete input: skill 7 in slots 70 and 71 is accepted, and no rows with one row per skill meet it. |
| `SkillBook.Skills.UseSkillBook` | cmd/gameserver/packet/inventory.go:803-855 | A book is learned exactly when it is there, its skill is real and new and a slot of its range is free; it is used up and the skill takes the lowest such slot; the Master's tests never add a refusal, and memory stays equal. |
| `SkillBook.Skills.UpgradeSkill` | cmd/gameserver/packet/character.go:578-647 | One level more exactly when the skill is known below the highest level; the Master never refuses, and memory stays equal. |
| `SkillBook.RemoveSkillLocal` | share/models/skills/links.go:147-160 | In whatever order the quick slots are scanned, exactly those of the skill go. |
| `SkillBook.Skills.UntrainSkill` | cmd/masterserver/rpc/skill.go:258-345 | One level less exactly when skill, slot and level match and it is permitted and can be paid for; the price is taken in full, a skill at its first level goes and of the quick slots exactly its own, and memory stays equal. |
| `SkillBook.Skills.GrantBattleMode` | cmd/gameserver/packet/battle_mode.go:342-386 | The grant followed from its delta alone keeps memory equal and one row per skill, and touches nothing but skills. |
| `SkillBook.Skills.Serve` | cmd/masterserver/rpc/skill.go:11-345 | Over every run of learning, upgrading, untraining and granting there is one row per skill and memory equals what is stored. |
| `BattleMode.ModeOkAlways` | cmd/gameserver/packet/battle_mode.go:48-127 | In every run an inactive mode is fully cleared, a live one can pay its next drain, and an armed end timer belongs to the live activation. |
| `BattleMode.StaleCallback` | cmd/gameserver/packet/battle_mode.go:252-295 | Once an activation is over it stays over, and none of its callbacks changes anything in any later state. |
| `BattleMode.CallbackSettles` | cmd/gameserver/packet/battle_mode.go:235-295 | Every step keeps the mode in order, and a generation that is not live after it is over for good. |
| `BattleMode.StartEffect` | cmd/gameserver/packet/battle_mode.go:76-106 | A start takes effect exactly when it can be paid for and no mode is on; then the mode of the pressed skill is on, with a full gauge and under a new generation. |
| `BattleMode.StopEffect` | cmd/gameserver/packet/battle_mode.go:107-115 | An accepted stop leaves no mode and no timer, and every generation issued so far is over for good. |
| `BattleMode.EndEffect` | cmd/gameserver/packet/battle_mode.go:237-295 | The end timer ends the mode it was armed for, a reset any, a drain one whose gauge does not hold two drains; any other drain takes its cost. |
| `BattleMode.DrainsClosed` | cmd/gameserver/packet/battle_mode.go:282-294 | The drain ends the mode after max(1, gauge / cost) turns. |
| `BattleMode.TicksBound` | cmd/gameserver/packet/battle_mode.go:209-224 | The timer waits for at least one and at most as many intervals as the drain takes, one fewer exactly when the cost divides a gauge of two drains or more. |
| `BattleMode.TimerEndsEarly` | cmd/gameserver/packet/battle_mode.go:214-221 | Concrete input: a gauge of 5000 at 100 a drain gives 49 intervals and 50 drains. |
| `BattleMode.AliveWhile` | cmd/gameserver/packet/battle_mode.go:266-295 | Over every run without stop, reset or timer the mode is alive exactly while fewer drains than that have happened, the gauge has paid for each, and after a drain at least one more is left. |
| `BattleMode.StartedLasts` | cmd/gameserver/packet/battle_mode.go:76-295 | A mode that has been started lasts exactly as many drains as its gauge of 5000 pays for. |
| `BattleMode.Context.HandleBattleModeSkill` | cmd/gameserver/packet/battle_mode.go:48-127 | One start or stop step that keeps the mode in order and costs one lamp and the skill's mana exactly when it starts, with its answer: which refusal, and the balances after it. |
| `BattleMode.Context.ArmEndTimer` | cmd/gameserver/packet/battle_mode.go:158-169 | The end timer is kept only for the live activation; a timer not kept belongs to one that is over for good. |
| `BattleMode.Context.ResetBattleMode` | cmd/gameserver/packet/battle_mode.go:237-250 | Every generation issued so far is over for good. |
| `BattleMode.Context.FinishBattleMode` | cmd/gameserver/packet/battle_mode.go:252-264 | Ends the mode exactly when the generation is the live one; that generation is then over for good. |
| `BattleMode.Context.ConsumeBattleModeGauge` | cmd/gameserver/packet/battle_mode.go:266-295 | One drain; it reports the end exactly when the activation is no longer live, and then it is over for good. |
| `BattleMode.BattleModeDuration` | cmd/gameserver/packet/battle_mode.go:209-224 | The timer's duration never exceeds preparation plus the time the drain needs. |
| `Buffs.OthersConcat` | cmd/gameserver/context/buff.go:31-36 | Compaction keeps the order of the rest. |
| `Buffs.OthersContents` | cmd/gameserver/context/buff.go:61-71 | Exactly the buffs under other keys remain, and all of them unchanged if none matches. |
| `Buffs.CutAt` | cmd/gameserver/context/buff.go:84-92 | Expiry takes out exactly the instance it names and keeps the rest in order, or takes out nothing. |
| `Buffs.StepOk` | cmd/gameserver/context/buff.go:25-93 | Every step keeps keys distinct, generations distinct and none beyond the counter. |
| `Buffs.AlwaysOk` | cmd/gameserver/context/buff.go:25-93 | The same in every state any run reaches. |
| `Buffs.Survives` | cmd/gameserver/context/buff.go:25-93 | An instance survives a step if and only if it is not expired, removed or replaced by it. |
| `Buffs.AppliedThere` | cmd/gameserver/context/buff.go:25-52 | A buff that is applied is there afterwards with its level and effects, last, alone under its key, under a new generation. |
| `Buffs.BuffApplied` | cmd/gameserver/context/buff.go:25-93 | Over every run each buff there is goes back to the step that applied it, with its level, effects and generation. |
| `Buffs.StaleTimer` | cmd/gameserver/context/buff.go:80-93 | Once an issued generation is gone it stays gone, and its expiry changes nothing in any later state. |
| `Buffs.ReapplyMakesStale` | cmd/gameserver/context/buff.go:29-51 | After a buff is reapplied the earlier instance's timer never has an effect again. |
| `Buffs.Context.ApplyBuff` | cmd/gameserver/context/buff.go:25-52 | In-place compaction and append are one apply step, the token being the new generation. |
| `Buffs.Context.RemoveBuff` | cmd/gameserver/context/buff.go:56-75 | One remove step, answering whether anything matched and what is left. |
| `Buffs.Context.ExpireBuff` | cmd/gameserver/context/buff.go:80-93 | One expiry step by copying the tail down, answering whether the instance was there. |
| `RpcClient.StepKeeps` | share/rpc/client.go:133-354 | Every step keeps each call in exactly one place: waiting, in one goroutine's hand, or completed once. |
| `RpcClient.RunKeeps` | share/rpc/client.go:110-354 | The same under every interleaving. |
| `RpcClient.ExactlyOnce` | share/rpc/client.go:133-248 | No call is completed twice, a reply reaches only the call sent under its number, and once the read loop has ended with no send in progress every call has been completed once. |
| `RpcClient.AsDecided` | share/rpc/client.go:133-354 | In every interleaving each call gets at most one verdict - refused, failed to be written, answered, or lost - and what it is completed with is that verdict. |
| `RpcClient.ReplyDelivered` | share/rpc/client.go:210-245 | A call waiting under a number gets the reply read under it: whatever comes after, that is what it has been completed with, or is about to be. |
| `RpcClient.OutcomeMeans` | share/rpc/client.go:133-354 | A lost connection is reported only to calls waiting when the read loop ended, a failed write only to the call being written, a refusal only by a client that was shut, a reply only when it was read under the call's number. |
| `RpcClient.StaysShut` | share/rpc/client.go:251-260 | Once closed or shut down, a client in any interleaving refuses every send at once, leaves the table alone and sends no further call. |
| `RpcClient.Sweep` | share/rpc/client.go:146-149 | The final loop completes each call left in the table once and no other. |
| `RpcClient.ClientObject.SendRegister` | share/rpc/client.go:323-338 | A call is registered under the next number, exactly when the client is neither closed nor shut down nor disconnected; otherwise it is refused at once; every call stays in one place. |
| `RpcClient.ClientObject.SendFailed` | share/rpc/client.go:343-353 | A failed write takes its call out of the table and completes it with the error, unless somebody else has taken it; every other call stands, and every call stays in one place. |
| `RpcClient.ClientObject.ReadResponse` | share/rpc/client.go:210-245 | The call waiting under the number is taken out of the table and completed with this reply and nothing else; a reply without a call does nothing; every other call stands. |
| `RpcClient.ClientObject.TerminatePending` | share/rpc/client.go:133-151 | The end of the read loop completes exactly the calls left in the table, each once and with a lost connection, under both locks. |
| `RpcClient.ClientObject.CloseClient` | share/rpc/client.go:251-260 | After it no call ever goes out again, in any continuation, and every call already out keeps its one completion. |

## Left out

- Interleavings inside one handler or transaction: a trade or party handler reads a snapshot under one lock and writes under another; here it is one step.
- MasterObject.Master.DeleteReceivedMail: states the uninterrupted run; its statements are separate steps in MailDeletion, and so are those of DeleteSentMail.
- MasterObject.Master.DeleteSentMail: likewise.
- Sockets and end of stream: reads arrive as chunks, and a failed read closes the session without further effect on the model. What the packet handlers do is a function that says, from the packets seen so far, whether they have closed the session.
- Contents of the XOR key table: every theorem holds for every table of 0x8000 entries, so the generator and its seeds are not modelled.
- Network.Writer.WriteInteger: stands for the eight integer methods, which differ only in width; WriteBool is left out because it does not make room before writing.
- Database errors, dates, names and text of mail: statements succeed, the receiver lookup by name enters as the character it found, and text bounds enter as one flag.
- Economy: other writers of the same tables (shops, drops, stacking, equipment, quests) are not part of the ledger.
- Trade.Step: all other handlers are one event that changes a player's items and Alz in memory and at the Master alike; that they do so is assumed. Creating and deleting characters is left out.
- Trade packet sizes and notifications: malformed packets are dropped before the state is touched.
- Party invitations and party search: the accept branch is modelled for any inviter and target, because an invitation is cleared on one side only in some paths. Party ids do not wrap at 32 bits. Member level, name and style in the replicated state are not modelled.
- SkillRank.AddSkillExperience: the allowed rank and the rank tables are parameters with the guarantees the loader checks; the save to the Master and the recalculation of hit and mana points after a promotion are left out.
- Levels.Character.AddExperience: class rank and the recalculated hit, mana and spirit points are left out.
- SkillBook: answers of the Master are not lost, and no other handler changes items, Alz or quick slots in between.
- BattleMode.Step: every other handler that changes spirit or mana points is one event that sets them.
- Buffs and BattleMode: wall-clock expiry, BuffValue and 64-bit wrap of the generation counters are left out. The periodic job that calls the drain is the environment: drains may come in any number and order.
- RpcClient.ClientObject.ReadResponse: a reply stands for whatever the response carries: a result, an error of the server, or a body that could not be read.
- RpcClient.ExactlyOnce: one connection only, because the pending table is not emptied when a connection ends; sequence numbers do not wrap; Done channels have room.
- PvP, combat, mob movement, chat, authentication, configuration and client-data parsing are not modelled.
