/** The read loop of share/network/session.go. */
module SessionObject {
  import opened Words
  import Cipher
  import Stream
  import opened Options
  import opened EncryptionObject

  class Session {
    var buffer: Bytes
    var open: bool
    /** Payloads handed to the packet-received event, in order. */
    var delivered: seq<Bytes>
    const encryption: Encryption
    const handler: Stream.Handler

    ghost predicate Valid()
      reads this, encryption
    {
      encryption.Valid()
    }

    ghost function Snapshot(): Stream.Link
      reads this, encryption
    {
      Stream.Link(encryption.Snapshot(), buffer, delivered, open)
    }

    constructor (table: Cipher.KeyTable, startIdx: nat, handler: Stream.Handler)
      requires startIdx < Cipher.KEY_NUM
      ensures Valid() && fresh(encryption) && encryption.key == table && this.handler == handler
      ensures Snapshot() == Stream.Start(startIdx)
    {
      encryption := new Encryption.Init(table, startIdx);
      buffer, delivered, open, this.handler := [], [], true, handler;
    }

    /** The inner loop: takes every complete packet off the buffer. `firstPacket` is the loop's own flag;
        it never disagrees with the cipher's. */
    method DrainBuffer(first: bool) returns (firstPacket: bool)
      requires Valid() && first == encryption.isFirstPacket
      modifies this, encryption
      ensures Valid() && firstPacket == encryption.isFirstPacket
      ensures Snapshot() == Stream.Drain(encryption.key, handler, old(Snapshot()))
    {
      hide Cipher.State.MagicOk, Cipher.State.Plain, Cipher.State.PacketSize;
      firstPacket := first;
      var closeSession := false;
      while |buffer| > 0
        invariant Valid() && firstPacket == encryption.isFirstPacket && !closeSession
        invariant Stream.Drain(encryption.key, handler, Snapshot()) ==
          Stream.Drain(encryption.key, handler, old(Snapshot()))
        decreases |buffer|
      {
        if !open {
          break;
        }
        var minimumHeader := 4;
        if firstPacket {
          minimumHeader := Cipher.CONNECT_SIZE;
        }
        if |buffer| < minimumHeader {
          break;
        }
        var packetLength := encryption.GetPacketSize(buffer);
        if packetLength < Cipher.C2S_HEADER_SIZE {
          closeSession := true;
          break;
        }
        if |buffer| < packetLength {
          break;
        }
        ghost var before := Snapshot();
        PrefixSize(before.cipher, buffer, packetLength);
        var data := encryption.Decrypt(buffer[..packetLength]);
        if data.None? {
          closeSession := true;
          break;
        }
        assert Stream.Look(before.cipher, before.buffer) == Stream.Take(packetLength);
        buffer := buffer[packetLength..];
        firstPacket := false;
        delivered := delivered + [data.value];
        open := !handler(delivered);
        assert Snapshot() == Stream.TakePacket(encryption.key, handler, before, packetLength);
      }
      if closeSession {
        open := false;
      }
    }

    /** The outer loop over successful reads, up to the end of the stream or an earlier close. */
    method Start(chunks: seq<Bytes>)
      requires Valid() && encryption.isFirstPacket
      modifies this, encryption
      ensures Valid()
      ensures Snapshot() == Stream.FeedAll(encryption.key, handler, old(Snapshot()), chunks)
    {
      var firstPacket := true;
      var i := 0;
      assert chunks[0..] == chunks;
      while i < |chunks| && open
        invariant 0 <= i <= |chunks| && Valid() && firstPacket == encryption.isFirstPacket
        invariant Stream.FeedAll(encryption.key, handler, Snapshot(), chunks[i..])
               == Stream.FeedAll(encryption.key, handler, old(Snapshot()), chunks)
      {
        hide Stream.Drain;
        buffer := buffer + chunks[i];
        firstPacket := DrainBuffer(firstPacket);
        assert chunks[i..][1..] == chunks[i + 1..];
        i := i + 1;
      }
      ClosedReadsNothing(encryption.key, handler, Snapshot(), chunks[i..]);
    }
  }

  /** The size decision reads no further than the packet it is about. */
  lemma PrefixSize(s: Cipher.State, buffer: Bytes, n: nat)
    requires Cipher.C2S_HEADER_SIZE <= n <= |buffer|
    ensures s.PacketSize(buffer[..n]) == s.PacketSize(buffer)
  {
    hide ByteOf, FromBytes, Xor, HighHalf;
  }

  lemma {:induction false} ClosedReadsNothing(t: Cipher.KeyTable, h: Stream.Handler, l: Stream.Link, chunks: seq<Bytes>)
    requires l.cipher.Valid() && (!l.open || chunks == [])
    ensures Stream.FeedAll(t, h, l, chunks) == l
    decreases |chunks|
  {
    if chunks != [] {
      ClosedReadsNothing(t, h, l, chunks[1..]);
    }
  }
}
