/** The typed fields of a packet: how the writer lays them out and what the reader makes of them
    (share/network/writer.go, share/network/reader.go). */
module Fields {
  import opened Numbers

  /** Bytes as numbers: these two files only do arithmetic on them. */
  type Octet = n: int | 0 <= n < 256

  type Bytes = seq<Octet>

  // --- Little-endian numbers of any width ---

  function Pow(n: nat): (p: int)
    ensures p > 0
  {
    if n == 0 then 1 else 256 * Pow(n - 1)
  }

  /** The `n` low bytes of `v`, least significant first; the division is an arithmetic shift by eight. */
  function Put(v: int, n: nat): (b: Bytes)
    ensures |b| == n
    decreases n
  {
    if n == 0 then [] else [v % 256] + Put(v / 256, n - 1)
  }

  function Get(b: Bytes): (v: int)
    ensures 0 <= v < Pow(|b|)
  {
    if b == [] then 0 else b[0] + 256 * Get(b[1..])
  }

  /** The number of the given width congruent to `v`, read as two's complement. */
  function Wrap(v: int, width: nat): int { Centred(v, Pow(width)) }

  /** The remainder of least magnitude. */
  function Centred(v: int, m: int): int
    requires m > 0
  {
    if 2 * (v % m) < m then v % m else v % m - m
  }

  lemma RemainderIs(v: int, m: int, k: int, r: int)
    requires 0 <= r < m && v == k * m + r
    ensures v % m == r
  {
    var d := v / m - k;
    assert d * m == (v / m) * m - k * m;
    MultipleBound(d, m);
  }

  lemma SameRemainder(v: int, m: int, k: int)
    requires m > 0
    ensures (v + k * m) % m == v % m
  {
    assert v + k * m == (v / m + k) * m + v % m;
    RemainderIs(v + k * m, m, v / m + k, v % m);
  }

  lemma NestedRemainder(v: int, m: int)
    requires m > 0
    ensures v % (256 * m) == v % 256 + 256 * (v / 256 % m)
  {
    var q, r := v / 256 / m, v / 256 % m;
    assert v == q * (256 * m) + (256 * r + v % 256) by {
      assert v / 256 == q * m + r;
      assert 256 * (q * m) == q * (256 * m);
    }
    RemainderIs(v, 256 * m, q, 256 * r + v % 256);
  }

  /** Storing a number and reading it back keeps it modulo the width. */
  lemma {:induction false} GetPut(v: int, n: nat)
    ensures Get(Put(v, n)) == v % Pow(n)
    decreases n
  {
    if n > 0 {
      GetPut(v / 256, n - 1);
      assert Put(v, n)[0] == v % 256 && Put(v, n)[1..] == Put(v / 256, n - 1);
      hide Put;
      NestedRemainder(v, Pow(n - 1));
    }
  }

  /** Reading bytes as a number and storing it gives the bytes. */
  lemma {:induction false} PutGet(b: Bytes)
    ensures Put(Get(b), |b|) == b
  {
    if b != [] {
      PutGet(b[1..]);
      var v := Get(b);
      assert v == b[0] + 256 * Get(b[1..]);
      assert Put(v, |b|) == [v % 256] + Put(v / 256, |b| - 1);
      hide Put, Get, Pow;
      assert v % 256 == b[0] && v / 256 == Get(b[1..]);
      assert b == [b[0]] + b[1..];
    }
  }

  lemma NestedQuotient(v: int, m: int)
    requires m > 0
    ensures v / (256 * m) == v / 256 / m
  {
    NestedRemainder(v, m);
    var a, b := v / (256 * m), v / 256 / m;
    assert v == a * (256 * m) + v % (256 * m) && v / 256 == b * m + v / 256 % m;
    assert a * (256 * m) == 256 * (a * m) && b * (256 * m) == 256 * (b * m);
    assert (a - b) * m == a * m - b * m == 0;
    if a != b {
      MultipleBound(a - b, m);
    }
  }

  /** Every byte of a stored number, the least significant first. */
  lemma {:induction false} PutByte(v: int, n: nat, i: nat)
    requires i < n
    ensures Put(v, n)[i] == v / Pow(i) % 256
    decreases i
  {
    if i > 0 {
      PutByte(v / 256, n - 1, i - 1);
      NestedQuotient(v, Pow(i - 1));
    }
  }

  lemma Regroup(x: int, p: int, y: int)
    ensures 256 * (x + p * y) == 256 * x + 256 * p * y
  {
  }

  lemma {:induction false} GetAppend(a: Bytes, b: Bytes)
    ensures Get(a + b) == Get(a) + Pow(|a|) * Get(b)
  {
    if a == [] {
      assert a + b == b;
    } else {
      var head, tail := a[0], a[1..];
      GetAppend(tail, b);
      assert (a + b)[0] == head && (a + b)[1..] == tail + b;
      assert Get(a + b) == head + 256 * Get(tail + b) && Get(a) == head + 256 * Get(tail);
      assert Pow(|a|) == 256 * Pow(|tail|);
      hide Get, Pow;
      Regroup(Get(tail), Pow(|tail|), Get(b));
    }
  }

  lemma {:induction false} PutLonger(v: int, n: nat, k: nat)
    requires n <= k
    ensures Put(v, k)[..n] == Put(v, n)
    decreases n
  {
    if n > 0 {
      PutLonger(v / 256, n - 1, k - 1);
      assert Put(v, k)[..n] == [v % 256] + Put(v / 256, k - 1)[..n - 1];
    }
  }

  lemma {:induction false} GetZeros(n: nat)
    ensures Get(Zeros(n)) == 0
  {
    if n > 0 {
      GetZeros(n - 1);
      assert Zeros(n)[1..] == Zeros(n - 1);
    }
  }

  function Zeros(n: nat): (b: Bytes)
    ensures |b| == n
  {
    seq(n, _ => 0)
  }

  lemma CentredSame(v: int, m: int) returns (k: int)
    requires m > 0
    ensures v == Centred(v, m) + k * m
  {
    k := if 2 * (v % m) < m then v / m else v / m + 1;
    assert (v / m + 1) * m == v / m * m + m;
  }

  lemma Distribute(a: int, b: int, m: int)
    ensures a * m + b * m == (a + b) * m
  {
  }

  /** Adding in two's complement step by step is adding first and wrapping once. */
  lemma WrapSum(a: int, b: int, width: nat)
    ensures Wrap(Wrap(a, width) + Wrap(b, width), width) == Wrap(a + b, width)
  {
    var m := Pow(width);
    var ka := CentredSame(a, m);
    var kb := CentredSame(b, m);
    Distribute(ka, kb, m);
    var sum := Centred(a, m) + Centred(b, m);
    assert a + b == sum + (ka + kb) * m;
    SameRemainder(sum, m, ka + kb);
    hide Pow;
  }

  // --- What the writer stores ---

  /** The Go types getType knows. A plain int is stored through its four low bytes. */
  datatype Kind = Int8 | Uint8 | Int16 | Uint16 | Int32 | Uint32 | Int | Int64 | Uint64 {
    function Width(): (n: nat)
      ensures 1 <= n <= 8
    {
      match this
      case Int8 | Uint8 => 1
      case Int16 | Uint16 => 2
      case Int32 | Uint32 | Int => 4
      case Int64 | Uint64 => 8
    }

    predicate Signed() { Int8? || Int16? || Int32? || Int? || Int64? }

    /** The values of the type; a plain int has 64 bits. */
    predicate Holds(v: int) {
      var bits := Pow(if Int? then 8 else Width());
      if Signed() then -bits <= 2 * v < bits else 0 <= v < bits
    }
  }

  /** The `width` bytes getType returns: the value's own bytes, padded with zeros, never sign-extended. */
  function Stored(kind: Kind, v: int, width: nat): (b: Bytes)
    requires width <= 8
    ensures |b| == width
  {
    (Put(v, kind.Width()) + Zeros(8 - kind.Width()))[..width]
  }

  function Min(a: nat, b: nat): nat { if a <= b then a else b }

  lemma GetStored(kind: Kind, v: int, width: nat)
    requires width <= 8
    ensures Get(Stored(kind, v, width)) == v % Pow(Min(kind.Width(), width))
  {
    var own := kind.Width();
    if width <= own {
      PutLonger(v, width, own);
      assert Stored(kind, v, width) == Put(v, width);
      GetPut(v, width);
    } else {
      assert Stored(kind, v, width) == Put(v, own) + Zeros(width - own);
      GetAppend(Put(v, own), Zeros(width - own));
      GetZeros(width - own);
      GetPut(v, own);
    }
  }

  // --- Fields, and reading them back ---

  datatype Field =
    | Number(kind: Kind, value: int, width: nat, signed: bool)
    | Raw(bytes: Bytes)
  {
    predicate Ok() { Number? ==> (width == 1 || width == 2 || width == 4 || width == 8) && kind.Holds(value) }

    function Layout(): (b: Bytes)
      requires Ok()
    {
      if Number? then Stored(kind, value, width) else bytes
    }

    function Shape(): (s: Shape)
      ensures s.length >= 0
    {
      if Number? then NumberShape(width, signed) else RawShape(|bytes|)
    }

    function Meant(): Value { if Number? then Whole(value) else Chunk(bytes) }
  }

  /** What a reader method is asked for; a string and a byte array are read the same way. */
  datatype Shape = NumberShape(length: int, signed: bool) | RawShape(length: int)

  datatype Value = Whole(value: int) | Chunk(bytes: Bytes)

  /** A read panics exactly when the bytes are not there. */
  datatype Read = Panic | Got(value: Value, index: nat)

  predicate InReach(b: Bytes, index: nat, length: int) {
    0 <= length && index + length <= |b|
  }

  function ReadField(b: Bytes, index: nat, s: Shape): (r: Read)
    ensures r.Got? <==> InReach(b, index, s.length)
    ensures r.Got? ==> r.index == index + s.length <= |b|
  {
    if !InReach(b, index, s.length) then Panic
    else
      var part := b[index..index + s.length];
      var v := match s
        case RawShape(_) => Chunk(part)
        case NumberShape(_, signed) => Whole(if signed then Wrap(Get(part), s.length) else Get(part));
      Got(v, index + s.length)
  }

  datatype ReadMany = Panics | Values(values: seq<Value>, index: nat)

  function ReadAll(b: Bytes, index: nat, shapes: seq<Shape>): ReadMany
    decreases |shapes|
  {
    if shapes == [] then Values([], index)
    else
      match ReadField(b, index, shapes[0])
      case Panic => Panics
      case Got(v, next) =>
        match ReadAll(b, next, shapes[1..])
        case Panics => Panics
        case Values(vs, end) => Values([v] + vs, end)
  }

  predicate AllOk(fs: seq<Field>) { fs == [] || (fs[0].Ok() && AllOk(fs[1..])) }

  function Payload(fs: seq<Field>): Bytes
    requires AllOk(fs)
  {
    if fs == [] then [] else fs[0].Layout() + Payload(fs[1..])
  }

  function Shapes(fs: seq<Field>): seq<Shape> {
    if fs == [] then [] else [fs[0].Shape()] + Shapes(fs[1..])
  }

  function MeantAll(fs: seq<Field>): seq<Value> {
    if fs == [] then [] else [fs[0].Meant()] + MeantAll(fs[1..])
  }

  /** Which numbers survive a write and a read of the given width and signedness. The last case is the one without
      sign extension: a narrow value read wide must not be negative. */
  predicate Fits(f: Field)
    requires f.Ok()
  {
    f.Number? ==>
      if f.signed && f.width <= f.kind.Width() then -Pow(f.width) <= 2 * f.value < Pow(f.width)
      else 0 <= f.value < Pow(Min(f.kind.Width(), f.width))
  }

  predicate AllFit(fs: seq<Field>)
    requires AllOk(fs)
  {
    fs == [] || (Fits(fs[0]) && AllFit(fs[1..]))
  }

  /** The writer and reader methods of the field's own Go type. A plain int has none. */
  predicate Matching(f: Field) {
    f.Number? ==> !f.kind.Int? && f.width == f.kind.Width() && f.signed == f.kind.Signed()
  }

  predicate AllMatching(fs: seq<Field>) { fs == [] || (Matching(fs[0]) && AllMatching(fs[1..])) }

  lemma {:induction false} MatchingFits(fs: seq<Field>)
    requires AllOk(fs) && AllMatching(fs)
    ensures AllFit(fs)
  {
    if fs != [] {
      MatchingFits(fs[1..]);
    }
  }

  /** The width of the type, and any narrower one, is half of the next power at most. */
  lemma {:induction false} PowGrows(a: nat, b: nat)
    requires a < b
    ensures 256 * Pow(a) <= Pow(b)
  {
    if a < b - 1 {
      PowGrows(a, b - 1);
    }
  }

  lemma ModIsSelf(v: int, m: int)
    requires m > 0
    ensures v % m == v <==> 0 <= v < m
  {
    if 0 <= v < m {
      RemainderIs(v, m, 0, v);
    }
  }

  lemma WrapIsSelf(v: int, width: nat)
    ensures Wrap(v % Pow(width), width) == v <==> -Pow(width) <= 2 * v < Pow(width)
  {
    var m := Pow(width);
    ModIsSelf(v % m, m);
    if -m <= 2 * v < 0 {
      RemainderIs(v, m, -1, v + m);
    } else if 0 <= 2 * v < m {
      RemainderIs(v, m, 0, v);
    }
  }

  lemma WrapSmall(n: int, width: nat)
    requires 0 <= 2 * n < Pow(width)
    ensures Wrap(n, width) == n
  {
    RemainderIs(n, Pow(width), 0, n);
  }

  /** `b` holds `x` at `index`. */
  predicate At(b: Bytes, index: nat, x: Bytes) {
    index + |x| <= |b| && b[index..index + |x|] == x
  }

  lemma AtParts(b: Bytes, index: nat, x: Bytes, y: Bytes)
    requires At(b, index, x + y)
    ensures At(b, index, x) && At(b, index + |x|, y)
  {
    var whole := b[index..index + |x + y|];
    assert b[index..index + |x|] == whole[..|x|] && b[index + |x|..index + |x| + |y|] == whole[|x|..];
  }

  /** One field read back: the value returns unchanged if and only if it fits. */
  lemma FieldSurvives(f: Field, b: Bytes, index: nat)
    requires f.Ok() && At(b, index, f.Layout())
    ensures var r := ReadField(b, index, f.Shape());
            r.Got? && f.Shape().length == |f.Layout()| && (r.value == f.Meant() <==> Fits(f))
  {
    if f.Number? {
      var own := f.kind.Width();
      GetStored(f.kind, f.value, f.width);
      hide Get, Put, Stored;
      if f.width <= own {
        if f.signed {
          WrapIsSelf(f.value, f.width);
        } else {
          ModIsSelf(f.value, Pow(f.width));
        }
      } else {
        PowGrows(own, f.width);
        ModIsSelf(f.value, Pow(own));
        if f.signed {
          WrapSmall(f.value % Pow(own), f.width);
        }
      }
    }
  }

  lemma ReadCons(b: Bytes, index: nat, s: Shape, rest: seq<Shape>)
    requires InReach(b, index, s.length) && ReadAll(b, index + s.length, rest).Values?
    ensures var more := ReadAll(b, index + s.length, rest);
            ReadAll(b, index, [s] + rest) == Values([ReadField(b, index, s).value] + more.values, more.index)
  {
    hide ReadField;
    assert ([s] + rest)[1..] == rest;
  }

  lemma ConsEqual(v: Value, vs: seq<Value>, w: Value, ws: seq<Value>)
    ensures [v] + vs == [w] + ws <==> v == w && vs == ws
  {
    if [v] + vs == [w] + ws {
      assert vs == ([v] + vs)[1..] && ws == ([w] + ws)[1..];
      assert v == ([v] + vs)[0] && w == ([w] + ws)[0];
    }
  }

  lemma {:induction false} ReadBackFrom(b: Bytes, index: nat, fs: seq<Field>)
    requires AllOk(fs) && At(b, index, Payload(fs))
    ensures var r := ReadAll(b, index, Shapes(fs));
            r.Values? && r.index == index + |Payload(fs)| && (r.values == MeantAll(fs) <==> AllFit(fs))
    decreases |fs|
  {
    hide *;
    if fs == [] {
      NoFields(b, index);
    } else {
      var f, tail := fs[0], fs[1..];
      ListStep(fs);
      AtParts(b, index, f.Layout(), Payload(tail));
      FieldSurvives(f, b, index);
      var next := index + |f.Layout()|;
      ReadBackFrom(b, next, tail);
      ReadCons(b, index, f.Shape(), Shapes(tail));
      ConsEqual(ReadField(b, index, f.Shape()).value, ReadAll(b, next, Shapes(tail)).values, f.Meant(), MeantAll(tail));
    }
  }

  lemma NoFields(b: Bytes, index: nat)
    ensures Payload([]) == [] && AllFit([]) && MeantAll([]) == [] && ReadAll(b, index, Shapes([])) == Values([], index)
  {
  }

  lemma ListStep(fs: seq<Field>)
    requires AllOk(fs) && fs != []
    ensures fs[0].Ok() && AllOk(fs[1..]) && Payload(fs) == fs[0].Layout() + Payload(fs[1..])
    ensures Shapes(fs) == [fs[0].Shape()] + Shapes(fs[1..]) && MeantAll(fs) == [fs[0].Meant()] + MeantAll(fs[1..])
    ensures AllFit(fs) <==> Fits(fs[0]) && AllFit(fs[1..])
  {
  }

  /** Writing one more field appends its layout, so a run of writer calls lays out the list of its fields. */
  lemma {:induction false} PayloadSnoc(fs: seq<Field>, f: Field)
    requires AllOk(fs) && f.Ok()
    ensures AllOk(fs + [f]) && Payload(fs + [f]) == Payload(fs) + f.Layout()
    decreases |fs|
  {
    if fs == [] {
      assert fs + [f] == [f] && [f][1..] == [];
    } else {
      assert (fs + [f])[0] == fs[0] && (fs + [f])[1..] == fs[1..] + [f];
      PayloadSnoc(fs[1..], f);
    }
  }

  // --- Whole packets ---

  /** A finalized packet: magic, size, type, fields. */
  function Packet(magic: nat, code: nat, fs: seq<Field>): Bytes
    requires AllOk(fs)
  {
    Put(magic, 2) + Put(6 + |Payload(fs)|, 2) + Put(code, 2) + Payload(fs)
  }

  /** For every sequence of fields, reading the finalized packet never panics, ends exactly at its end, and returns
      the values written if and only if each of them fits the method pair used for it. */
  lemma ReadBack(magic: nat, code: nat, fs: seq<Field>)
    requires AllOk(fs)
    ensures var p := Packet(magic, code, fs);
            var r := ReadAll(p, 6, Shapes(fs));
            r.Values? && r.index == |p| && (r.values == MeantAll(fs) <==> AllFit(fs))
  {
    var header := Put(magic, 2) + Put(6 + |Payload(fs)|, 2) + Put(code, 2);
    assert At(header + Payload(fs), 6, Payload(fs));
    ReadBackFrom(header + Payload(fs), 6, fs);
  }

  /** Fields written and read by the methods of their own type always survive. */
  lemma MatchingReadBack(magic: nat, code: nat, fs: seq<Field>)
    requires AllOk(fs) && AllMatching(fs)
    ensures ReadAll(Packet(magic, code, fs), 6, Shapes(fs)) == Values(MeantAll(fs), |Packet(magic, code, fs)|)
  {
    MatchingFits(fs);
    ReadBack(magic, code, fs);
  }

  /** The header reads back, and the size field is the length if and only if that is below 65536. */
  lemma HeaderReadsBack(magic: nat, code: nat, fs: seq<Field>)
    requires AllOk(fs) && magic < 0x10000 && code < 0x10000
    ensures var p := Packet(magic, code, fs);
            var two := NumberShape(2, false);
            && |p| == 6 + |Payload(fs)|
            && ReadField(p, 0, two) == Got(Whole(magic), 2)
            && ReadField(p, 2, two) == Got(Whole(|p| % 0x10000), 4)
            && ReadField(p, 4, two) == Got(Whole(code), 6)
            && (ReadField(p, 2, two).value == Whole(|p|) <==> |p| < 0x10000)
  {
    var p := Packet(magic, code, fs);
    Slices(Put(magic, 2), Put(|p|, 2), Put(code, 2), Payload(fs));
    ReadTwo(p, 0);
    ReadTwo(p, 2);
    ReadTwo(p, 4);
    hide *;
    GetPutTwo(magic);
    GetPutTwo(|p|);
    GetPutTwo(code);
  }

  lemma GetPutTwo(v: int)
    ensures Get(Put(v, 2)) == v % 0x10000
    ensures 0 <= v < 0x10000 <==> v % 0x10000 == v
  {
    GetPut(v, 2);
    hide Put, Get;
    assert Pow(2) == 256 * Pow(1) && Pow(1) == 256 * Pow(0);
  }

  lemma Slices(a: Bytes, b: Bytes, c: Bytes, rest: Bytes)
    requires |a| == |b| == |c| == 2
    ensures var p := a + b + c + rest;
            p[0..2] == a && p[2..4] == b && p[4..6] == c
  {
  }

  lemma ReadTwo(p: Bytes, index: nat)
    requires index + 2 <= |p|
    ensures ReadField(p, index, NumberShape(2, false)) == Got(Whole(Get(p[index..index + 2])), index + 2)
  {
  }

  /** A value that does not survive: a narrow negative number read wide comes back as its unsigned byte. */
  lemma NarrowNegativeLost()
    ensures var f := Number(Int8, -1, 4, true);
            f.Ok() && ReadField(f.Layout(), 0, f.Shape()) == Got(Whole(255), 4)
  {
    assert Pow(1) == 256 && Pow(4) == 0x1_0000_0000;
    ReadsAs(Int8, -1, 4);
    hide Get, Put, Stored, Pow;
    WrapSmall(255, 4);
  }

  /** Another: a plain int loses everything above its four low bytes even in an eight-byte field. */
  lemma WideIntLost()
    ensures var f := Number(Int, 0x1_0000_0000, 8, true);
            f.Ok() && ReadField(f.Layout(), 0, f.Shape()) == Got(Whole(0), 8)
  {
    assert Pow(4) == 0x1_0000_0000 && Pow(8) == 0x1_0000_0000_0000_0000;
    ReadsAs(Int, 0x1_0000_0000, 8);
    hide Get, Put, Stored, Pow;
    WrapSmall(0, 8);
  }

  lemma ReadsAs(kind: Kind, v: int, width: nat)
    requires width <= 8
    ensures ReadField(Stored(kind, v, width), 0, NumberShape(width, true)) ==
      Got(Whole(Wrap(v % Pow(Min(kind.Width(), width)), width)), width)
  {
    GetStored(kind, v, width);
    hide Get, Put, Pow, Wrap;
    assert Stored(kind, v, width)[0..width] == Stored(kind, v, width);
  }
}
