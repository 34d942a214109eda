/** The chained XOR cipher of share/encryption as pure functions, and the two ends of it the
    server does not run: opening what the server sends, and sealing what the server decrypts. */
module Cipher {
  import opened Words

  const KEY_NUM := 0x4000
  const SEND_XOR_KEY: bv32 := 0x7AB38CF1
  const S2C_HEADER_SIZE := 6
  const C2S_HEADER_SIZE := 10
  const CONNECT_SIZE := 14
  const MAGIC_KEY := 0xB7E2
  /** `MagicKey | (Connect2SvrSize << 16)`. */
  const CONNECT_HEADER: bv32 := 0x000EB7E2

  /** Two key tables of RecvXorKeyNum entries, one after the other. */
  type KeyTable = t: seq<bv32> | |t| == 2 * KEY_NUM witness seq(2 * KEY_NUM, _ => 0)

  /** The base multiple is 1 for the handshake packet and 2 afterwards. */
  type Multiple = m: nat | 1 <= m <= 2 witness 1

  /** `KeyTable[(x & RecvXorKeyNumMask) * multiple]`. */
  function KeyAfter(t: KeyTable, m: Multiple, x: bv32): bv32 {
    var i := (x & 0x3FFF) as int;
    t[i * m]
  }

  // --- One direction of the chain: every word is keyed by the ciphertext word before it. ---

  function XorTail(key: bv32, d: Bytes): (r: Bytes)
    requires |d| < 4
    ensures |r| == |d|
  {
    seq(|d|, i requires 0 <= i < |d| => XorByte(d[i], ByteOf(key, i)))
  }

  function Seal(t: KeyTable, m: Multiple, key: bv32, data: Bytes): (r: Bytes)
    ensures |r| == |data|
    decreases |data|
  {
    if |data| < 4 then XorTail(key, data)
    else
      var c := Xor(Word(data), key);
      PutWord(c) + Seal(t, m, KeyAfter(t, m, c), data[4..])
  }

  function Open(t: KeyTable, m: Multiple, key: bv32, data: Bytes): (r: Bytes)
    ensures |r| == |data|
    decreases |data|
  {
    if |data| < 4 then XorTail(key, data)
    else
      var c := Word(data);
      PutWord(Xor(c, key)) + Open(t, m, KeyAfter(t, m, c), data[4..])
  }

  lemma {:induction false} OpenSeal(t: KeyTable, m: Multiple, key: bv32, data: Bytes)
    ensures Open(t, m, key, Seal(t, m, key, data)) == data
    decreases |data|
  {
    hide Words.Xor, Words.XorByte, Words.ByteOf, Words.FromBytes, KeyAfter;
    if |data| < 4 {
      forall i | 0 <= i < |data| ensures XorTail(key, XorTail(key, data))[i] == data[i] {
        XorByteTwice(data[i], ByteOf(key, i));
      }
    } else {
      var c := Xor(Word(data), key);
      var rest := Seal(t, m, KeyAfter(t, m, c), data[4..]);
      WordPut(c, rest);
      XorTwice(Word(data), key);
      PutWordOf(data);
      assert (PutWord(c) + rest)[4..] == rest;
      OpenSeal(t, m, KeyAfter(t, m, c), data[4..]);
    }
  }

  lemma {:induction false} SealOpen(t: KeyTable, m: Multiple, key: bv32, data: Bytes)
    ensures Seal(t, m, key, Open(t, m, key, data)) == data
    decreases |data|
  {
    hide Words.Xor, Words.XorByte, Words.ByteOf, Words.FromBytes, KeyAfter;
    if |data| < 4 {
      forall i | 0 <= i < |data| ensures XorTail(key, XorTail(key, data))[i] == data[i] {
        XorByteTwice(data[i], ByteOf(key, i));
      }
    } else {
      var c := Word(data);
      var rest := Open(t, m, KeyAfter(t, m, c), data[4..]);
      WordPut(Xor(c, key), rest);
      XorTwice(c, key);
      PutWordOf(data);
      assert (PutWord(Xor(c, key)) + rest)[4..] == rest;
      SealOpen(t, m, KeyAfter(t, m, c), data[4..]);
    }
  }

  // --- The chain by position. ---

  /** The key of word `j`: the given one for the first, and then the table entry the ciphertext word before selects. */
  function KeyAt(t: KeyTable, m: Multiple, key: bv32, sealed: Bytes, j: nat): bv32
    requires 4 * j <= |sealed|
  {
    if j == 0 then key
    else
      var before := Word(sealed[4 * (j - 1)..]) & 0x3FFF;
      t[(before as int) * m]
  }

  lemma KeyAtStep(t: KeyTable, m: Multiple, key: bv32, c: bv32, rest: Bytes, j: nat)
    requires 4 * j <= |rest|
    ensures KeyAt(t, m, key, PutWord(c) + rest, j + 1) == KeyAt(t, m, KeyAfter(t, m, c), rest, j)
  {
    var sealed := PutWord(c) + rest;
    WordPut(c, rest);
    if j == 0 {
      assert sealed[0..] == sealed;
    } else {
      assert sealed[4 * j..] == rest[4 * (j - 1)..];
    }
  }

  /** Every ciphertext word is the plaintext word under its key, at every position and for every length. */
  lemma {:induction false} SealChain(t: KeyTable, m: Multiple, key: bv32, data: Bytes, j: nat)
    requires 4 * j + 4 <= |data|
    ensures var sealed := Seal(t, m, key, data);
            Word(sealed[4 * j..]) == Xor(Word(data[4 * j..]), KeyAt(t, m, key, sealed, j))
    decreases j
  {
    hide Words.Xor, Words.ByteOf, Words.FromBytes, KeyAfter, KeyAt;
    var c := Xor(Word(data), key);
    var rest := Seal(t, m, KeyAfter(t, m, c), data[4..]);
    var sealed := Seal(t, m, key, data);
    assert sealed == PutWord(c) + rest;
    if j == 0 {
      assert sealed[0..] == sealed && data[0..] == data;
      WordPut(c, rest);
      FirstKey(t, m, key, sealed);
    } else {
      SealChain(t, m, KeyAfter(t, m, c), data[4..], j - 1);
      KeyAtStep(t, m, key, c, rest, j - 1);
      assert sealed[4 * j..] == rest[4 * (j - 1)..] && data[4 * j..] == data[4..][4 * (j - 1)..];
    }
  }

  /** The last one to three bytes each take their own byte of the next key. */
  lemma {:induction false} SealTail(t: KeyTable, m: Multiple, key: bv32, data: Bytes, j: nat, k: nat)
    requires 4 * j + k < |data| < 4 * j + 4
    ensures var sealed := Seal(t, m, key, data);
            sealed[4 * j + k] == XorByte(data[4 * j + k], ByteOf(KeyAt(t, m, key, sealed, j), k))
    decreases j
  {
    hide *;
    if j == 0 {
      ShortTail(t, m, key, data, k);
    } else {
      var c := Xor(Word(data), key);
      var rest := Seal(t, m, KeyAfter(t, m, c), data[4..]);
      SealUnfolds(t, m, key, data);
      SealTail(t, m, KeyAfter(t, m, c), data[4..], j - 1, k);
      KeyAtStep(t, m, key, c, rest, j - 1);
    }
  }

  lemma ShortTail(t: KeyTable, m: Multiple, key: bv32, data: Bytes, i: nat)
    requires i < |data| < 4
    ensures Seal(t, m, key, data)[i] == XorByte(data[i], ByteOf(KeyAt(t, m, key, Seal(t, m, key, data), 0), i))
  {
    hide Words.Xor, Words.XorByte, Words.ByteOf, Words.FromBytes;
  }

  lemma SealUnfolds(t: KeyTable, m: Multiple, key: bv32, data: Bytes)
    requires |data| >= 4
    ensures |PutWord(Xor(Word(data), key))| == 4
    ensures var c := Xor(Word(data), key);
            Seal(t, m, key, data) == PutWord(c) + Seal(t, m, KeyAfter(t, m, c), data[4..])
  {
    hide Words.Xor, Words.ByteOf, Words.FromBytes, KeyAfter;
  }

  lemma FirstKey(t: KeyTable, m: Multiple, key: bv32, sealed: Bytes)
    ensures KeyAt(t, m, key, sealed, 0) == key
  {
  }

  // --- Server to client. ---

  function EncryptSpec(t: KeyTable, data: Bytes): Bytes {
    Seal(t, 1, SEND_XOR_KEY, data)
  }

  /** What a client does to recover a packet sent by the server. */
  function ClientOpen(t: KeyTable, packet: Bytes): Bytes {
    Open(t, 1, SEND_XOR_KEY, packet)
  }

  /** Encrypt is a length-preserving injection for every table and every length,
      tails of one to three bytes included. */
  lemma EncryptInjective(t: KeyTable, p: Bytes, q: Bytes)
    ensures |EncryptSpec(t, p)| == |p|
    ensures ClientOpen(t, EncryptSpec(t, p)) == p
    ensures EncryptSpec(t, p) == EncryptSpec(t, q) ==> p == q
  {
    OpenSeal(t, 1, SEND_XOR_KEY, p);
    OpenSeal(t, 1, SEND_XOR_KEY, q);
  }

  /** What the server sends: the first word is keyed by the fixed key, every later one by the first table's entry for
      the low fourteen bits of the word sent before it. */
  lemma EncryptFirst(t: KeyTable, p: Bytes)
    requires |p| >= 4
    ensures Word(EncryptSpec(t, p)) == Word(p) ^ 0x7AB38CF1
  {
    hide Words.Word, Seal, KeyAt;
    var sent := EncryptSpec(t, p);
    SealChain(t, 1, SEND_XOR_KEY, p, 0);
    FirstKey(t, 1, SEND_XOR_KEY, sent);
    assert sent[0..] == sent && p[0..] == p;
  }

  lemma EncryptChain(t: KeyTable, p: Bytes, j: nat)
    requires 0 < j && 4 * j + 4 <= |p|
    ensures var sent := EncryptSpec(t, p);
            var before := Word(sent[4 * (j - 1)..]) & 0x3FFF;
            Word(sent[4 * j..]) == Xor(Word(p[4 * j..]), t[before as int])
  {
    hide *;
    SentIs(t, p);
    SealChain(t, 1, 0x7AB38CF1, p, j);
    LaterKey(t, 0x7AB38CF1, EncryptSpec(t, p), j);
  }

  lemma SentIs(t: KeyTable, p: Bytes)
    ensures EncryptSpec(t, p) == Seal(t, 1, 0x7AB38CF1, p)
  {
    hide Seal;
  }

  lemma LaterKey(t: KeyTable, key: bv32, sealed: Bytes, j: nat)
    requires 0 < 4 * j <= |sealed|
    ensures var before := Word(sealed[4 * (j - 1)..]) & 0x3FFF;
            KeyAt(t, 1, key, sealed, j) == t[before as int]
  {
    hide Words.Word;
  }

  // --- Client to server. ---

  datatype State = State(recvKey: bv32, first: bool, keyIdx: nat)
  {
    predicate Valid() { keyIdx < KEY_NUM }

    function Multiplier(): Multiple { if first then 1 else 2 }

    /** Where the packet at the head of `data` ends. */
    function PacketSize(data: Bytes): nat
      requires first || |data| >= 4
    {
      if first then CONNECT_SIZE else HighHalf(Xor(Word(data), recvKey))
    }

    /** The key the header word of `data` is read under: the handshake packet fixes its own. */
    function HeaderKey(data: Bytes): bv32
      requires |data| >= 4
    {
      if first then Xor(Word(data), CONNECT_HEADER) else recvKey
    }

    /** The state left by one decrypted packet. */
    function Advance(t: KeyTable): (s: State)
      requires Valid()
      ensures s.Valid() && !s.first
    {
      State(t[keyIdx * 2], false, if keyIdx + 1 >= KEY_NUM then 0 else keyIdx + 1)
    }

    predicate MagicOk(data: Bytes)
      requires |data| >= 4
    {
      LowHalf(Xor(Word(data), HeaderKey(data))) == MAGIC_KEY
    }

    /** The plaintext of one whole packet; the checksum word is never decrypted and reads zero. */
    function Plain(t: KeyTable, data: Bytes): (p: Bytes)
      requires |data| >= C2S_HEADER_SIZE
      ensures |p| == |data|
    {
      PutWord(Xor(Word(data), HeaderKey(data))) + [0, 0, 0, 0]
      + Open(t, Multiplier(), KeyAfter(t, Multiplier(), Word(data)), data[8..])
    }
  }

  /** Where a client is in the key schedule after `k` packets: packet `k` is sealed under the table entry at twice the
      place it has among the first KEY_NUM, counted round from the place of the handshake. */
  function Place(t: KeyTable, s: State, k: nat): (r: State)
    requires s.Valid()
    ensures r.Valid()
  {
    if k == 0 then s
    else State(t[2 * ((s.keyIdx + k - 1) % KEY_NUM)], false, (s.keyIdx + k) % KEY_NUM)
  }

  /** The server walks the same schedule one packet at a time. */
  lemma AdvanceFollows(t: KeyTable, s: State, k: nat)
    requires s.Valid()
    ensures Place(t, s, k).Advance(t) == Place(t, s, k + 1)
  {
    if k > 0 {
      NextInRing((s.keyIdx + k) as nat);
    }
  }

  lemma HandshakeOnce(t: KeyTable, s: State, k: nat)
    requires s.Valid()
    ensures !Place(t, s, k + 1).first
  {
  }

  lemma NextInRing(n: nat)
    ensures (n + 1) % KEY_NUM == if n % KEY_NUM + 1 >= KEY_NUM then 0 else n % KEY_NUM + 1
  {
  }

  /** What a client sends so that the server reads `plain`: `key` is the current receive key, or any
      key at all for the handshake packet; `check` is the checksum word the server ignores. */
  function ClientSeal(t: KeyTable, m: Multiple, key: bv32, check: bv32, plain: Bytes): (r: Bytes)
    requires |plain| >= C2S_HEADER_SIZE
    ensures |r| == |plain|
  {
    var c := Xor(Word(plain), key);
    PutWord(c) + PutWord(check) + Seal(t, m, KeyAfter(t, m, c), plain[8..])
  }

  /** A packet a client may send: magic key and its own length in the header. */
  predicate WellFormed(first: bool, plain: Bytes) {
    && C2S_HEADER_SIZE <= |plain| < 0x10000
    && (first ==> |plain| == CONNECT_SIZE)
    && (plain[0] as int) + 256 * (plain[1] as int) == MAGIC_KEY
    && (plain[2] as int) + 256 * (plain[3] as int) == |plain|
  }

  function ZeroChecksum(plain: Bytes): (r: Bytes)
    requires |plain| >= C2S_HEADER_SIZE
    ensures |r| == |plain|
  {
    plain[..4] + [0, 0, 0, 0] + plain[8..]
  }

  /** The handshake packet can fail neither header check: the key is derived from its own header. */
  lemma HandshakeNeverFails(s: State, data: Bytes)
    requires s.first && |data| >= 4
    ensures s.MagicOk(data) && Xor(Word(data), s.HeaderKey(data)) == CONNECT_HEADER
    ensures HighHalf(Xor(Word(data), s.HeaderKey(data))) == CONNECT_SIZE
  {
    XorSelf(Word(data));
    assert ByteOf(CONNECT_HEADER, 0) == 0xE2 && ByteOf(CONNECT_HEADER, 1) == 0xB7;
    assert ByteOf(CONNECT_HEADER, 2) == 0x0E && ByteOf(CONNECT_HEADER, 3) == 0x00;
  }

  lemma XorSelf(x: bv32)
    ensures Xor(x, Xor(x, CONNECT_HEADER)) == CONNECT_HEADER
  {
  }

  lemma WordHalves(b: Bytes)
    requires |b| >= 4
    ensures LowHalf(Word(b)) == (b[0] as int) + 256 * (b[1] as int)
    ensures HighHalf(Word(b)) == (b[2] as int) + 256 * (b[3] as int)
  {
    BytesOfWord(b[0], b[1], b[2], b[3]);
  }

  /** The header word of a well-formed handshake packet is fixed. */
  lemma ConnectHeaderWord(plain: Bytes)
    requires WellFormed(true, plain)
    ensures Word(plain) == CONNECT_HEADER
  {
    assert plain[0] as int < 256 && plain[1] as int < 256 && plain[2] as int < 256 && plain[3] as int < 256;
    assert plain[0] as int == 0xE2 && plain[1] as int == 0xB7 && plain[2] as int == 0x0E && plain[3] as int == 0;
    assert plain[0] == 0xE2 && plain[1] == 0xB7 && plain[2] == 0x0E && plain[3] == 0;
  }

  /** Where the parts of a sealed packet lie, whatever follows it on the stream. */
  lemma SealedParts(t: KeyTable, m: Multiple, key: bv32, check: bv32, plain: Bytes, tail: Bytes)
    requires |plain| >= C2S_HEADER_SIZE
    ensures var packet := ClientSeal(t, m, key, check, plain);
            var c := Xor(Word(plain), key);
            && Word(packet) == Word(packet + tail) == c
            && packet[8..] == Seal(t, m, KeyAfter(t, m, c), plain[8..])
  {
    hide Words.Xor, Words.ByteOf, Words.FromBytes, KeyAfter;
    var c := Xor(Word(plain), key);
    var body := Seal(t, m, KeyAfter(t, m, c), plain[8..]);
    var packet := ClientSeal(t, m, key, check, plain);
    assert packet == PutWord(c) + (PutWord(check) + body);
    assert packet + tail == PutWord(c) + (PutWord(check) + body + tail);
    WordPut(c, PutWord(check) + body);
    WordPut(c, PutWord(check) + body + tail);
  }

  /** The server recovers the header word the client meant. */
  lemma SealedHeader(t: KeyTable, s: State, key: bv32, check: bv32, plain: Bytes)
    requires WellFormed(s.first, plain)
    requires !s.first ==> key == s.recvKey
    ensures var packet := ClientSeal(t, s.Multiplier(), key, check, plain);
            Xor(Word(packet), s.HeaderKey(packet)) == Word(plain)
  {
    hide Words.Xor, Words.ByteOf, Words.FromBytes, Words.Word, Words.PutWord, KeyAfter, Seal;
    SealedParts(t, s.Multiplier(), key, check, plain, []);
    XorTwice(Word(plain), key);
    if s.first {
      ConnectHeaderWord(plain);
      HandshakeNeverFails(s, ClientSeal(t, s.Multiplier(), key, check, plain));
    }
  }

  /** Server decryption undoes client sealing, up to the checksum word; and the first four
      ciphertext bytes alone tell the server the length. `tail` is whatever follows on the stream. */
  lemma DecryptUndoesSeal(t: KeyTable, s: State, key: bv32, check: bv32, plain: Bytes, tail: Bytes)
    requires WellFormed(s.first, plain)
    requires !s.first ==> key == s.recvKey
    ensures var packet := ClientSeal(t, s.Multiplier(), key, check, plain);
            && s.PacketSize(packet + tail) == |plain|
            && s.MagicOk(packet)
            && s.Plain(t, packet) == ZeroChecksum(plain)
  {
    hide Words.Xor, Words.ByteOf, Words.FromBytes, Words.Word, Words.PutWord, Words.HighHalf, Words.LowHalf,
         KeyAfter, Seal, Open;
    var m := s.Multiplier();
    SealedParts(t, m, key, check, plain, tail);
    SealedHeader(t, s, key, check, plain);
    WordHalves(plain);
    PutWordOf(plain);
    OpenSeal(t, m, KeyAfter(t, m, Xor(Word(plain), key)), plain[8..]);
  }

  /** After the handshake, two packets of equal length that decrypt alike from the same state can
      differ only in bytes 4 to 7. */
  lemma DecryptInjectiveUpToChecksum(t: KeyTable, s: State, a: Bytes, b: Bytes)
    requires !s.first && |a| == |b| >= C2S_HEADER_SIZE
    requires s.Plain(t, a) == s.Plain(t, b)
    ensures a[..4] == b[..4] && a[8..] == b[8..]
  {
    hide Words.Xor, Words.XorByte, Words.ByteOf, Words.FromBytes, KeyAfter;
    var ha, hb := PutWord(Xor(Word(a), s.recvKey)), PutWord(Xor(Word(b), s.recvKey));
    var pa, pb := s.Plain(t, a), s.Plain(t, b);
    assert pa[..4] == ha && pb[..4] == hb;
    WordPut(Xor(Word(a), s.recvKey), []);
    WordPut(Xor(Word(b), s.recvKey), []);
    assert ha + [] == ha && hb + [] == hb;
    XorTwice(Word(a), s.recvKey);
    XorTwice(Word(b), s.recvKey);
    assert Word(a) == Word(b);
    PutWordOf(a);
    PutWordOf(b);
    var key := KeyAfter(t, 2, Word(a));
    assert pa[8..] == Open(t, 2, key, a[8..]) && pb[8..] == Open(t, 2, key, b[8..]);
    SealOpen(t, 2, key, a[8..]);
    SealOpen(t, 2, key, b[8..]);
  }

  /** What is checked of a packet's header is what its plaintext shows: the magic key in the first two bytes and, after
      the handshake, its length in the next two. */
  lemma HeaderShows(t: KeyTable, s: State, data: Bytes)
    requires |data| >= C2S_HEADER_SIZE
    ensures var p := s.Plain(t, data);
            && (s.MagicOk(data) <==> p[0] == 0xE2 && p[1] == 0xB7)
            && (!s.first ==> s.PacketSize(data) == (p[2] as int) + 256 * (p[3] as int))
            && (s.first ==> s.PacketSize(data) == 14)
  {
    hide Words.Xor, Words.FromBytes, Words.ByteOf, Open, KeyAfter;
    var x := Xor(Word(data), s.HeaderKey(data));
    var p := s.Plain(t, data);
    assert p[0] == ByteOf(x, 0) && p[1] == ByteOf(x, 1) && p[2] == ByteOf(x, 2) && p[3] == ByteOf(x, 3);
    MagicBytes(p[0], p[1]);
  }

  lemma MagicBytes(a: bv8, b: bv8)
    ensures (a as int) + 256 * (b as int) == MAGIC_KEY <==> a == 0xE2 && b == 0xB7
  {
    assert 0 <= a as int < 256 && 0 <= b as int < 256;
    if (a as int) + 256 * (b as int) == MAGIC_KEY {
      assert a as int == 0xE2 && b as int == 0xB7;
      assert a == 0xE2 && b == 0xB7;
    }
  }

  lemma BodyResealed(t: KeyTable, s: State, data: Bytes)
    requires |data| >= C2S_HEADER_SIZE
    ensures var m := if s.first then 1 else 2;
            Seal(t, m, KeyAfter(t, m, Word(data)), s.Plain(t, data)[8..]) == data[8..]
  {
    hide Words.Xor, Words.Word, Words.PutWord, KeyAfter, Open, Seal;
    var m := s.Multiplier();
    var key := KeyAfter(t, m, Word(data));
    assert s.Plain(t, data)[8..] == Open(t, m, key, data[8..]);
    SealOpen(t, m, key, data[8..]);
  }

  /** The key of a body word, counted from the start of the packet. */
  lemma BodyKey(t: KeyTable, m: Multiple, data: Bytes, j: nat)
    requires |data| >= 4 * j + 12
    ensures var before := Word(if j == 0 then data else data[4 + 4 * j..]) & 0x3FFF;
            KeyAt(t, m, KeyAfter(t, m, Word(data)), data[8..], j) == t[(before as int) * m]
  {
    hide Words.Word;
    if j > 0 {
      assert data[8..][4 * (j - 1)..] == data[4 + 4 * j..];
    }
  }

  /** What the server reads of a body, word by word: the first body word is keyed by the header word, every later one by
      the word before it, out of the first table in the handshake and by even places of both afterwards. */
  lemma PlainChain(t: KeyTable, s: State, data: Bytes, j: nat)
    requires |data| >= C2S_HEADER_SIZE && 4 * j + 12 <= |data|
    ensures var p := s.Plain(t, data);
            var before := Word(if j == 0 then data else data[4 + 4 * j..]) & 0x3FFF;
            Word(data[8 + 4 * j..]) == Xor(Word(p[8 + 4 * j..]), t[(before as int) * (if s.first then 1 else 2)])
  {
    hide *;
    var m: Multiple := if s.first then 1 else 2;
    var p := s.Plain(t, data);
    BodyResealed(t, s, data);
    BodyKey(t, m, data, j);
    SealChain(t, m, KeyAfter(t, m, Word(data)), p[8..], j);
    assert data[8..][4 * j..] == data[8 + 4 * j..] && p[8..][4 * j..] == p[8 + 4 * j..];
  }
}
