/** The wire layers joined: typed fields through the writer, the cipher and the stream, and back. */
module Wire {
  import Words
  import opened Cipher
  import opened Fields
  import opened Stream

  // --- Bytes as numbers and as bits. ---

  function ToBits(n: Octet): bv8 {
    if n == 0 then 0 else ToBits(n - 1) + 1
  }

  lemma NextBits(b: bv8)
    requires b != 255
    ensures (b + 1) as int == b as int + 1
  {
  }

  lemma {:induction false} BitsOfNumber(n: Octet)
    ensures ToBits(n) as int == n
  {
    if n > 0 {
      BitsOfNumber(n - 1);
      NextBits(ToBits(n - 1));
    }
  }

  function Bits(o: Fields.Bytes): (b: Words.Bytes)
    ensures |b| == |o|
  {
    seq(|o|, i requires 0 <= i < |o| => ToBits(o[i]))
  }

  function Octets(b: Words.Bytes): (o: Fields.Bytes)
    ensures |o| == |b|
  {
    seq(|b|, i requires 0 <= i < |b| => b[i] as int)
  }

  lemma OctetsOfBits(o: Fields.Bytes)
    ensures Octets(Bits(o)) == o
  {
    forall i | 0 <= i < |o| ensures Octets(Bits(o))[i] == o[i] {
      BitsOfNumber(o[i]);
    }
  }

  // --- Server to client. ---

  /** Fields written, finalized and encrypted by the server, opened by the client: the packet comes out as it was, is
      read to its end, and gives the values back if and only if each fits its methods. */
  lemma SentReadsBack(t: KeyTable, magic: nat, code: nat, fs: seq<Field>)
    requires AllOk(fs)
    ensures var packet := Packet(magic, code, fs);
            var wire := EncryptSpec(t, Bits(packet));
            var seen := Octets(ClientOpen(t, wire));
            && S2C_HEADER_SIZE <= |wire| == |packet| && seen == packet
            && var r := ReadAll(seen, 6, Shapes(fs));
            && r.Values? && r.index == |packet| && (r.values == MeantAll(fs) <==> AllFit(fs))
  {
    hide *;
    var packet := Packet(magic, code, fs);
    EncryptInjective(t, Bits(packet), []);
    OctetsOfBits(packet);
    ReadBack(magic, code, fs);
    PacketLong(magic, code, fs);
  }

  lemma PacketLong(magic: nat, code: nat, fs: seq<Field>)
    requires AllOk(fs)
    ensures |Packet(magic, code, fs)| == 6 + |Payload(fs)| >= S2C_HEADER_SIZE
  {
  }

  // --- Client to server. ---

  predicate AllLong(packets: seq<Words.Bytes>) {
    forall i :: 0 <= i < |packets| ==> |packets[i]| >= C2S_HEADER_SIZE
  }

  lemma {:induction false} DrainLong(t: KeyTable, h: Handler, l: Link)
    requires l.cipher.Valid() && AllLong(l.delivered)
    ensures AllLong(Drain(t, h, l).delivered)
    decreases |l.buffer|
  {
    hide State.Plain, State.Advance, Look;
    if l.open {
      match Look(l.cipher, l.buffer)
      case Wait =>
      case Bad =>
      case Take(n) => DrainLong(t, h, TakePacket(t, h, l, n));
    }
  }

  /** Every packet the read loop delivers, from whatever stream in whatever chunks, is long enough for the reader's
      header, so creating the reader never panics. */
  lemma {:induction false} DeliveredLong(t: KeyTable, h: Handler, l: Link, chunks: seq<Words.Bytes>)
    requires l.cipher.Valid() && AllLong(l.delivered)
    ensures AllLong(FeedAll(t, h, l, chunks).delivered)
    decreases |chunks|
  {
    hide Drain;
    if chunks != [] {
      if l.open {
        DrainLong(t, h, l.(buffer := l.buffer + chunks[0]));
      }
      DeliveredLong(t, h, Feed(t, h, l, chunks[0]), chunks[1..]);
    }
  }

  /** A client packet: magic, size, checksum, type, fields. */
  function ClientPacket(check: int, code: nat, fs: seq<Field>): Fields.Bytes
    requires AllOk(fs)
  {
    Put(MAGIC_KEY, 2) + Put(10 + |Payload(fs)|, 2) + Put(check, 4) + Put(code, 2) + Payload(fs)
  }

  lemma ClientParts(a: Fields.Bytes, b: Fields.Bytes, c: Fields.Bytes, d: Fields.Bytes, rest: Fields.Bytes)
    requires |a| == |b| == |d| == 2 && |c| == 4
    ensures var p := a + b + c + d + rest;
            p[0..2] == a && p[2..4] == b && p[8..10] == d && p[10..] == rest
  {
  }

  lemma TwoOctets(v: nat)
    requires v < 0x10000
    ensures var low: int, high: int := Put(v, 2)[0], Put(v, 2)[1]; low + 256 * high == v
  {
    GetPutTwo(v);
    assert Put(v, 2)[1..][1..] == [];
  }

  lemma ClearedParts(p: Fields.Bytes)
    requires |p| >= C2S_HEADER_SIZE
    ensures var q := Octets(ZeroChecksum(Bits(p)));
            |q| == |p| && q[..4] == p[..4] && q[8..] == p[8..]
  {
    OctetsOfBits(p);
    hide ToBits;
    var q := Octets(ZeroChecksum(Bits(p)));
    forall i | 0 <= i < |p| && (i < 4 || i >= 8) ensures q[i] == p[i] {
      assert ZeroChecksum(Bits(p))[i] == Bits(p)[i];
      assert Octets(Bits(p))[i] == p[i];
    }
  }

  /** Any fields a client writes in a packet below 65536 bytes make a well-formed packet, and what the server delivers
      of it gives back its type, and its values if and only if each fits its methods. */
  lemma ReceivedReadsBack(check: int, code: nat, fs: seq<Field>)
    requires AllOk(fs) && code < 0x10000 && 10 + |Payload(fs)| < 0x10000
    ensures var p := ClientPacket(check, code, fs);
            && |p| >= C2S_HEADER_SIZE && WellFormed(false, Bits(p))
            && var q := Octets(ZeroChecksum(Bits(p)));
            && ReadField(q, 8, NumberShape(2, false)) == Got(Whole(code), 10)
            && var r := ReadAll(q, 10, Shapes(fs));
            && r.Values? && r.index == |p| && (r.values == MeantAll(fs) <==> AllFit(fs))
  {
    var p := ClientPacket(check, code, fs);
    ClientParts(Put(MAGIC_KEY, 2), Put(10 + |Payload(fs)|, 2), Put(check, 4), Put(code, 2), Payload(fs));
    assert |p| == 10 + |Payload(fs)|;
    HeaderWellFormed(p);
    hide ClientPacket;
    ClearedParts(p);
    var q := Octets(ZeroChecksum(Bits(p)));
    SameTail(p, q);
    hide *;
    ReadBackFrom(q, 10, fs);
    ReadTwo(q, 8);
    GetPutTwo(code);
  }

  lemma SameTail(p: Fields.Bytes, q: Fields.Bytes)
    requires |q| == |p| >= 10 && q[8..] == p[8..]
    ensures q[8..10] == p[8..10] && At(q, 10, p[10..])
  {
    assert q[8..][..2] == p[8..][..2] && q[8..][2..] == p[8..][2..];
    assert q[10..10 + |p[10..]|] == q[10..];
  }

  lemma BitsAt(p: Fields.Bytes, i: nat)
    requires i < |p|
    ensures Bits(p)[i] as int == p[i]
  {
    BitsOfNumber(p[i]);
    hide ToBits;
  }

  lemma HeaderWellFormed(p: Fields.Bytes)
    requires C2S_HEADER_SIZE <= |p| < 0x10000 && p[0..2] == Put(MAGIC_KEY, 2) && p[2..4] == Put(|p|, 2)
    ensures WellFormed(false, Bits(p))
  {
    TwoOctets(MAGIC_KEY);
    TwoOctets(|p|);
    assert p[0] == p[0..2][0] && p[1] == p[0..2][1] && p[2] == p[2..4][0] && p[3] == p[2..4][1];
    hide Put, Bits;
    BitsAt(p, 0);
    BitsAt(p, 1);
    BitsAt(p, 2);
    BitsAt(p, 3);
  }
}
