/** Little-endian 32-bit words over byte sequences, as the wire code reads and writes them. */
module Words {

  type Bytes = seq<bv8>

  /** Byte `i` of a word, least significant first. */
  function ByteOf(x: bv32, i: nat): bv8
    requires i < 4
  {
    if i == 0 then (x & 0xFF) as bv8
    else if i == 1 then ((x >> 8) & 0xFF) as bv8
    else if i == 2 then ((x >> 16) & 0xFF) as bv8
    else ((x >> 24) & 0xFF) as bv8
  }

  function FromBytes(a: bv8, b: bv8, c: bv8, d: bv8): bv32 {
    (a as bv32) | ((b as bv32) << 8) | ((c as bv32) << 16) | ((d as bv32) << 24)
  }

  /** The word held by the first four bytes of `b`. */
  function Word(b: Bytes): bv32
    requires |b| >= 4
  {
    FromBytes(b[0], b[1], b[2], b[3])
  }

  function PutWord(x: bv32): (b: Bytes)
    ensures |b| == 4
  {
    [ByteOf(x, 0), ByteOf(x, 1), ByteOf(x, 2), ByteOf(x, 3)]
  }

  /** The upper half of a word as a number: what the source computes with `int(x >> 16)`. */
  function HighHalf(x: bv32): (n: nat)
    ensures n < 0x10000
  {
    (ByteOf(x, 2) as int) + 256 * (ByteOf(x, 3) as int)
  }

  /** The lower half of a word as a number: `uint16(x)`. */
  function LowHalf(x: bv32): (n: nat)
    ensures n < 0x10000
  {
    (ByteOf(x, 0) as int) + 256 * (ByteOf(x, 1) as int)
  }

  lemma BytesOfWord(a: bv8, b: bv8, c: bv8, d: bv8)
    ensures var x := FromBytes(a, b, c, d);
            ByteOf(x, 0) == a && ByteOf(x, 1) == b && ByteOf(x, 2) == c && ByteOf(x, 3) == d
  {
  }

  lemma WordOfBytes(x: bv32)
    ensures FromBytes(ByteOf(x, 0), ByteOf(x, 1), ByteOf(x, 2), ByteOf(x, 3)) == x
  {
  }

  /** Reading back a stored word, whatever follows it. */
  lemma WordPut(x: bv32, rest: Bytes)
    ensures Word(PutWord(x) + rest) == x
  {
    WordOfBytes(x);
  }

  lemma PutWordOf(b: Bytes)
    requires |b| >= 4
    ensures PutWord(Word(b)) == b[..4]
  {
    BytesOfWord(b[0], b[1], b[2], b[3]);
  }

  function Xor(x: bv32, k: bv32): bv32 { x ^ k }

  function XorByte(x: bv8, k: bv8): bv8 { x ^ k }

  lemma XorTwice(x: bv32, k: bv32)
    ensures Xor(Xor(x, k), k) == x
  {
  }

  lemma XorByteTwice(x: bv8, k: bv8)
    ensures XorByte(XorByte(x, k), k) == x
  {
  }
}
