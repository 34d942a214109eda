/** The Encryption object of share/encryption/encryption.go: byte buffers filled word by word
    under a rolling key, proved against the pure cipher. */
module EncryptionObject {
  import opened Options
  import opened Words
  import opened Cipher

  function Mask(n: nat): bv32
    requires n < 4
  {
    if n == 0 then 0xFFFFFFFF else if n == 1 then 0xFFFFFF00 else if n == 2 then 0xFFFF0000 else 0xFF000000
  }

  function Pad(d: Bytes): (r: Bytes)
    requires |d| < 4
    ensures |r| == 4
  {
    d + seq(4 - |d|, _ => 0)
  }

  function Masked(r: bv32, key: bv32, n: nat): bv32
    requires n < 4
  {
    (r ^ key) ^ (key & Mask(n))
  }

  lemma RemainderOne(a: bv8, key: bv32)
    ensures ByteOf(Masked(FromBytes(a, 0, 0, 0), key, 1), 0) == XorByte(a, ByteOf(key, 0))
  {
  }

  lemma RemainderTwo(a: bv8, b: bv8, key: bv32)
    ensures ByteOf(Masked(FromBytes(a, b, 0, 0), key, 2), 0) == XorByte(a, ByteOf(key, 0))
    ensures ByteOf(Masked(FromBytes(a, b, 0, 0), key, 2), 1) == XorByte(b, ByteOf(key, 1))
  {
  }

  lemma RemainderThree(a: bv8, b: bv8, c: bv8, key: bv32)
    ensures ByteOf(Masked(FromBytes(a, b, c, 0), key, 3), 0) == XorByte(a, ByteOf(key, 0))
    ensures ByteOf(Masked(FromBytes(a, b, c, 0), key, 3), 1) == XorByte(b, ByteOf(key, 1))
    ensures ByteOf(Masked(FromBytes(a, b, c, 0), key, 3), 2) == XorByte(c, ByteOf(key, 2))
  {
  }

  /** The masked double XOR of the source touches exactly the bytes of the remainder, one key byte each. */
  lemma RemainderByte(d: Bytes, key: bv32, i: nat)
    requires i < |d| < 4
    ensures ByteOf(Masked(Word(Pad(d)), key, |d|), i) == XorByte(d[i], ByteOf(key, i))
  {
    hide ByteOf, FromBytes, XorByte, Masked;
    if |d| == 1 {
      RemainderOne(d[0], key);
    } else if |d| == 2 {
      RemainderTwo(d[0], d[1], key);
    } else {
      RemainderThree(d[0], d[1], d[2], key);
    }
  }

  method PutUint32(a: array<bv8>, j: nat, x: bv32)
    requires j + 4 <= a.Length
    modifies a
    ensures a[..j] == old(a[..j]) && a[j..j + 4] == PutWord(x) && a[j + 4..] == old(a[j + 4..])
  {
    hide ByteOf;
    a[j], a[j + 1], a[j + 2], a[j + 3] := ByteOf(x, 0), ByteOf(x, 1), ByteOf(x, 2), ByteOf(x, 3);
  }

  /** The last zero to three bytes, shared by both directions. */
  method PutRemainder(a: array<bv8>, j: nat, rest: Bytes, key: bv32)
    requires j + |rest| == a.Length && |rest| < 4
    modifies a
    ensures a[..] == old(a[..j]) + XorTail(key, rest)
  {
    hide ByteOf, FromBytes, XorByte, Masked;
    var padded := new bv8[4](i => 0);
    var n := |rest|;
    var k := 0;
    while k < n
      invariant 0 <= k <= n
      invariant padded[..k] == rest[..k]
      invariant forall i :: k <= i < 4 ==> padded[i] == 0
      modifies padded
    {
      padded[k] := rest[k];
      k := k + 1;
    }
    assert padded[..] == Pad(rest);
    var r := Word(padded[..]);
    r := Masked(r, key, n);
    forall i | 0 <= i < n ensures ByteOf(r, i) == XorByte(rest[i], ByteOf(key, i)) {
      RemainderByte(rest, key, i);
    }
    assert old(a[..j]) == a[..j];
    CopyBytes(a, j, rest, key, r);
  }

  method CopyBytes(a: array<bv8>, j: nat, ghost rest: Bytes, ghost key: bv32, r: bv32)
    requires j <= a.Length < j + 4 && |rest| == a.Length - j
    requires forall i :: 0 <= i < |rest| ==> ByteOf(r, i) == XorByte(rest[i], ByteOf(key, i))
    modifies a
    ensures a[..] == old(a[..j]) + XorTail(key, rest)
  {
    hide ByteOf, XorByte;
    var k := 0;
    while j + k < a.Length
      invariant 0 <= k <= |rest|
      invariant a[..j] == old(a[..j])
      invariant forall i :: 0 <= i < k ==> a[j + i] == ByteOf(r, i)
    {
      a[j + k] := ByteOf(r, k);
      k := k + 1;
    }
    assert forall i :: j <= i < a.Length ==> a[i] == ByteOf(r, i - j);
  }

  lemma SealUnfold(t: KeyTable, m: Multiple, key: bv32, data: Bytes, j: nat)
    requires j + 4 <= |data|
    ensures var c := Xor(Word(data[j..]), key);
            Seal(t, m, key, data[j..]) == PutWord(c) + Seal(t, m, KeyAfter(t, m, c), data[j + 4..])
  {
    hide ByteOf, FromBytes, Xor, KeyAfter;
    assert data[j..][4..] == data[j + 4..];
  }

  lemma OpenUnfold(t: KeyTable, m: Multiple, key: bv32, data: Bytes, j: nat)
    requires j + 4 <= |data|
    ensures var c := Word(data[j..]);
            Open(t, m, key, data[j..]) == PutWord(Xor(c, key)) + Open(t, m, KeyAfter(t, m, c), data[j + 4..])
  {
    hide ByteOf, FromBytes, Xor, KeyAfter;
    assert data[j..][4..] == data[j + 4..];
  }

  lemma ChainTail(t: KeyTable, m: Multiple, key: bv32, rest: Bytes)
    requires |rest| < 4
    ensures Seal(t, m, key, rest) == Open(t, m, key, rest) == XorTail(key, rest)
  {
  }

  lemma GrowPrefix(done: Bytes, word: Bytes, rest: Bytes, grown: Bytes)
    requires grown == done + word
    ensures grown + rest == done + (word + rest)
  {
  }

  /** `data` begins with a well-formed packet sealed by a client at this place of the key schedule. */
  predicate Heads(t: KeyTable, s: State, key: bv32, check: bv32, plain: Bytes, tail: Bytes, data: Bytes) {
    && WellFormed(s.first, plain) && (!s.first ==> key == s.recvKey)
    && data == ClientSeal(t, if s.first then 1 else 2, key, check, plain) + tail
  }

  lemma ReadsSealed(t: KeyTable, s: State, data: Bytes)
    requires |data| >= C2S_HEADER_SIZE
    ensures forall key, check, plain :: Heads(t, s, key, check, plain, [], data) ==>
              s.MagicOk(data) && |plain| >= C2S_HEADER_SIZE && s.Plain(t, data) == ZeroChecksum(plain)
  {
    forall key, check, plain | Heads(t, s, key, check, plain, [], data)
      ensures s.MagicOk(data) && |plain| >= C2S_HEADER_SIZE && s.Plain(t, data) == ZeroChecksum(plain)
    {
      var packet := ClientSeal(t, s.Multiplier(), key, check, plain);
      assert packet + [] == packet;
      DecryptUndoesSeal(t, s, key, check, plain, []);
    }
  }

  class Encryption {
    var recvXorKey: bv32
    var isFirstPacket: bool
    var baseMultiple: nat
    var recvXorKeyIdx: nat
    const key: KeyTable

    ghost predicate Valid()
      reads this
    {
      recvXorKeyIdx < KEY_NUM && baseMultiple == if isFirstPacket then 1 else 2
    }

    ghost function Snapshot(): State
      reads this
    {
      State(recvXorKey, isFirstPacket, recvXorKeyIdx)
    }

    /** The starting index is drawn at random below RecvXorKeyNum. */
    constructor Init(key: KeyTable, startIdx: nat)
      requires startIdx < KEY_NUM
      ensures Valid() && this.key == key && Snapshot() == State(0, true, startIdx)
    {
      recvXorKey, isFirstPacket, baseMultiple, recvXorKeyIdx := 0, true, 1, startIdx;
      this.key := key;
    }

    /** The length the head of the stream announces: for a client's packet, its own, whatever has arrived behind it. */
    method GetPacketSize(data: Bytes) returns (n: nat)
      requires Valid() && (isFirstPacket || |data| >= 4)
      ensures n == Snapshot().PacketSize(data)
      ensures forall key, check, plain, tail :: Heads(this.key, Snapshot(), key, check, plain, tail, data) ==>
                n == |plain|
    {
      ghost var s := Snapshot();
      forall key, check, plain, tail | Heads(this.key, s, key, check, plain, tail, data)
        ensures s.PacketSize(data) == |plain|
      {
        DecryptUndoesSeal(this.key, s, key, check, plain, tail);
      }
      hide Heads, ByteOf, FromBytes, Xor, Word;
      if !isFirstPacket {
        var header := Xor(Word(data), recvXorKey);
        return HighHalf(header);
      }
      return CONNECT_SIZE;
    }

    method Encrypt(data: Bytes) returns (r: Option<Bytes>)
      requires Valid()
      ensures r == if |data| < S2C_HEADER_SIZE then None else Some(EncryptSpec(key, data))
    {
      hide ByteOf, FromBytes, Xor, XorByte, PutWord, Word, KeyAfter, Seal;
      var iLen := |data|;
      if iLen < S2C_HEADER_SIZE {
        return None;
      }
      var payload := new bv8[iLen](i => 0);
      assert data[0..] == data;
      SealUnfold(key, 1, SEND_XOR_KEY, data, 0);
      var xorNum := Xor(Word(data), SEND_XOR_KEY);
      PutUint32(payload, 0, xorNum);
      var xorKey := KeyAfter(key, 1, xorNum);

      var words := (iLen - (S2C_HEADER_SIZE - 2)) / 4;
      var j, i := 4, 0;
      assert payload[..j] == PutWord(xorNum);
      while i < words
        invariant 0 <= i <= words && j == 4 + 4 * i <= iLen
        invariant payload[..j] + Seal(key, 1, xorKey, data[j..]) == EncryptSpec(key, data)
        modifies payload
      {
        ghost var done := payload[..j];
        SealUnfold(key, 1, xorKey, data, j);
        xorNum := Xor(Word(data[j..]), xorKey);
        PutUint32(payload, j, xorNum);
        xorKey := KeyAfter(key, 1, xorNum);
        GrowPrefix(done, PutWord(xorNum), Seal(key, 1, xorKey, data[j + 4..]), payload[..j + 4]);
        j, i := j + 4, i + 1;
      }
      ChainTail(key, 1, xorKey, data[j..]);
      PutRemainder(payload, j, data[j..], xorKey);
      return Some(payload[..]);
    }

    /** The part of Decrypt after the header checks: one plaintext packet under `headerKey`. */
    method DecryptBody(data: Bytes, headerKey: bv32, m: Multiple) returns (p: Bytes)
      requires |data| >= C2S_HEADER_SIZE
      ensures p == PutWord(Xor(Word(data), headerKey)) + [0, 0, 0, 0]
                   + Open(key, m, KeyAfter(key, m, Word(data)), data[8..])
    {
      hide ByteOf, FromBytes, Xor, XorByte, HighHalf, LowHalf, PutWord, Word, KeyAfter, Open;
      var packetLen := |data|;
      var payload := new bv8[packetLen](i => 0);
      assert payload[4..8] == [0, 0, 0, 0];
      var xorNum := Word(data);
      ghost var head := PutWord(Xor(xorNum, headerKey)) + [0, 0, 0, 0];
      PutUint32(payload, 0, Xor(xorNum, headerKey));
      var xorKey := KeyAfter(key, m, xorNum);

      var words := (packetLen - (C2S_HEADER_SIZE - 2)) / 4;
      var j, i := 8, 0;
      assert payload[..8] == payload[0..4] + payload[4..][..4];
      ghost var plain := head + Open(key, m, xorKey, data[8..]);
      while i < words
        invariant 0 <= i <= words && j == 8 + 4 * i <= packetLen
        invariant payload[..j] + Open(key, m, xorKey, data[j..]) == plain
        modifies payload
      {
        ghost var done := payload[..j];
        OpenUnfold(key, m, xorKey, data, j);
        xorNum := Word(data[j..]);
        ghost var word := PutWord(Xor(xorNum, xorKey));
        PutUint32(payload, j, Xor(xorNum, xorKey));
        xorKey := KeyAfter(key, m, xorNum);
        GrowPrefix(done, word, Open(key, m, xorKey, data[j + 4..]), payload[..j + 4]);
        j, i := j + 4, i + 1;
      }
      ChainTail(key, m, xorKey, data[j..]);
      PutRemainder(payload, j, data[j..], xorKey);
      return payload[..];
    }

    /** Decrypts one whole packet and rolls the receive key forward, to the entry at twice the place in the schedule: a
        client's packet is read as the client meant it. */
    method Decrypt(data: Bytes) returns (r: Option<Bytes>)
      requires Valid()
      requires |data| >= C2S_HEADER_SIZE && |data| == Snapshot().PacketSize(data)
      modifies this
      ensures Valid()
      ensures r == if old(Snapshot()).MagicOk(data) then Some(old(Snapshot()).Plain(key, data)) else None
      ensures Snapshot() == if r.Some? then old(Snapshot()).Advance(key) else old(Snapshot())
      ensures r.Some? ==> !isFirstPacket && recvXorKey == key[2 * old(recvXorKeyIdx)]
      ensures r.Some? ==> recvXorKeyIdx == (old(recvXorKeyIdx) + 1) % KEY_NUM
      ensures forall k, check, plain :: Heads(key, old(Snapshot()), k, check, plain, [], data) ==>
                r == Some(ZeroChecksum(plain))
    {
      ReadsSealed(key, Snapshot(), data);
      hide Heads, ByteOf, FromBytes, Xor, XorByte, HighHalf, LowHalf, PutWord, Word, KeyAfter, Open;
      ghost var s := Snapshot();
      if !isFirstPacket {
        var header := Xor(Word(data), recvXorKey);
        if LowHalf(header) != MAGIC_KEY {
          return None;
        }
      } else {
        HandshakeNeverFails(s, data);
        var header := Word(data);
        recvXorKey := Xor(header, CONNECT_HEADER);
        assert LowHalf(Xor(header, recvXorKey)) == MAGIC_KEY;
        assert HighHalf(Xor(header, recvXorKey)) == CONNECT_SIZE >= C2S_HEADER_SIZE;
      }

      var payload := DecryptBody(data, recvXorKey, baseMultiple);

      if isFirstPacket {
        isFirstPacket := false;
        baseMultiple := 2;
      }
      recvXorKey := key[recvXorKeyIdx * baseMultiple];
      recvXorKeyIdx := recvXorKeyIdx + 1;
      if recvXorKeyIdx >= KEY_NUM {
        recvXorKeyIdx := 0;
      }
      return Some(payload);
    }
  }
}
