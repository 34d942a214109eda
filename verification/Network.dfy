/** The packet writer over a growing buffer and the packet reader (share/network/writer.go, share/network/reader.go). */
module Network {
  import opened Fields

  const BLOCK: nat := 1024

  /** The argument of a writer method: a number of a known Go type, or anything else. */
  datatype Argument = Known(kind: Kind, value: int) | Unknown

  class Writer {
    var buffer: array<Octet>
    var index: nat

    /** There is always room for the header, which Finalize patches. */
    ghost predicate Valid()
      reads this
    {
      index <= buffer.Length && buffer.Length >= BLOCK
    }

    ghost function Written(): Bytes
      requires Valid()
      reads this, buffer
    {
      buffer[..index]
    }

    constructor (code: nat, magic: nat)
      requires code < 0x10000 && magic < 0x10000
      ensures Valid() && fresh(buffer)
      ensures Written() == Put(magic, 2) + Put(0, 2) + Put(code, 2)
    {
      buffer := new Octet[BLOCK](_ => 0);
      index := 0;
      new;
      StoredOwn(magic);
      StoredOwn(0);
      StoredOwn(code);
      hide Put, Stored;
      var ok := WriteInteger(Known(Uint16, magic), 2);
      ok := WriteInteger(Known(Uint16, 0), 2);
      ok := WriteInteger(Known(Uint16, code), 2);
    }

    /** Grows the buffer by whole blocks until `length` more bytes fit, keeping what was written. */
    method CheckLength(length: nat)
      requires Valid()
      modifies this`buffer
      ensures Valid() && index + length <= buffer.Length && (buffer == old(buffer) || fresh(buffer))
      ensures Written() == old(Written())
      ensures buffer.Length == old(buffer.Length) || buffer.Length < index + length + BLOCK
      decreases index + length - buffer.Length
    {
      if buffer.Length < index + length {
        var tmp := new Octet[buffer.Length + BLOCK](_ => 0);
        for i := 0 to buffer.Length
          invariant buffer == old(buffer) && tmp[..i] == buffer[..i]
        {
          tmp[i] := buffer[i];
        }
        ghost var was := Written();
        assert tmp[..index] == was by {
          assert tmp[..index] == tmp[..buffer.Length][..index];
        }
        buffer := tmp;
        CheckLength(length);
      }
    }

    /** The bytes of a value of a known type, after making room. */
    method GetType(obj: Argument, length: nat) returns (ok: bool, bytes: Bytes)
      requires Valid() && length <= 8
      modifies this`buffer
      ensures Valid() && index + length <= buffer.Length && (buffer == old(buffer) || fresh(buffer))
      ensures Written() == old(Written())
      ensures ok == obj.Known? && (ok ==> bytes == Stored(obj.kind, obj.value, length))
    {
      CheckLength(length);
      if obj.Unknown? {
        return false, [];
      }
      var tmp := LowBytes(obj.kind, obj.value);
      return true, tmp[..length];
    }

    /** The integer methods differ only in the number of bytes they store. An argument of another type ends in a
        panic, with nothing written. */
    method WriteInteger(obj: Argument, width: nat) returns (ok: bool)
      requires Valid() && (width == 1 || width == 2 || width == 4 || width == 8)
      modifies this, buffer
      ensures Valid() && (buffer == old(buffer) || fresh(buffer))
      ensures ok == obj.Known?
      ensures Written() == old(Written()) + if ok then Stored(obj.kind, obj.value, width) else []
    {
      var t;
      ok, t := GetType(obj, width);
      if ok {
        CopyIn(t);
      }
    }

    /** A string or a byte array. */
    method WriteBytes(data: Bytes)
      requires Valid()
      modifies this, buffer
      ensures Valid() && (buffer == old(buffer) || fresh(buffer))
      ensures Written() == old(Written()) + data
    {
      CheckLength(|data|);
      CopyIn(data);
    }

    method CopyIn(data: Bytes)
      requires Valid() && index + |data| <= buffer.Length
      modifies this`index, buffer
      ensures Valid() && Written() == old(Written()) + data
    {
      ghost var was := Written();
      for i := 0 to |data|
        invariant index == old(index) && buffer[..index] == was
        invariant buffer[index..index + i] == data[..i]
      {
        buffer[index + i] := data[i];
      }
      index := index + |data|;
    }

    /** Patches the size into the header and copies the packet out. */
    method Finalize() returns (result: Bytes)
      requires Valid() && index >= 6
      modifies buffer
      ensures Valid() && Written() == result
      ensures result == old(Written())[..2] + Put(index, 2) + old(Written())[4..]
    {
      ghost var was := Written();
      buffer[2] := index % 256;
      buffer[3] := index / 256 % 256;
      assert Put(index, 2) == [index % 256, index / 256 % 256] by {
        assert Put(index / 256, 1) == [index / 256 % 256] + Put(index / 256 / 256, 0);
      }
      result := buffer[..index];
    }
  }

  /** The eight scratch bytes of getType, filled from the low end by repeated shifts. */
  method LowBytes(kind: Kind, value: int) returns (tmp: Bytes)
    ensures tmp == Put(value, kind.Width()) + Zeros(8 - kind.Width())
  {
    var n: nat := kind.Width();
    tmp := [];
    var rest := value;
    hide Put;
    for i := 0 to n
      invariant |tmp| == i && tmp + Put(rest, n - i) == Put(value, n)
    {
      PutStep(rest, n - i);
      assert tmp + ([rest % 256] + Put(rest / 256, n - i - 1)) == (tmp + [rest % 256]) + Put(rest / 256, n - i - 1);
      tmp := tmp + [rest % 256];
      rest := rest / 256;
    }
    assert tmp + Put(rest, 0) == tmp;
    tmp := tmp + Zeros(8 - n);
  }

  lemma PutStep(v: int, n: nat)
    requires n > 0
    ensures Put(v, n) == [v % 256] + Put(v / 256, n - 1)
  {
  }

  lemma StoredOwn(v: int)
    ensures Stored(Uint16, v, 2) == Put(v, 2)
  {
  }

  /** Finalizing a header followed by the layout of the fields gives the packet. */
  lemma FinalizedIsPacket(magic: nat, code: nat, fs: seq<Field>, written: Bytes)
    requires AllOk(fs)
    requires written == Put(magic, 2) + Put(0, 2) + Put(code, 2) + Payload(fs)
    ensures written[..2] + Put(|written|, 2) + written[4..] == Packet(magic, code, fs)
  {
    Patched(Put(magic, 2), Put(0, 2), Put(code, 2), Payload(fs), Put(|written|, 2));
  }

  lemma Patched(a: Bytes, b: Bytes, c: Bytes, rest: Bytes, size: Bytes)
    requires |a| == |b| == |c| == 2
    ensures var w := a + b + c + rest;
            w[..2] + size + w[4..] == a + size + c + rest
  {
    var w := a + b + c + rest;
    assert w[..2] == a && w[4..] == c + rest;
  }

  class Reader {
    const buffer: Bytes
    var index: nat
    var magic: int
    var size: int
    var checksum: int
    var code: int

    constructor (data: Bytes)
      ensures buffer == data && index == 0
    {
      buffer := data;
      index, magic, size, checksum, code := 0, 0, 0, 0, 0;
    }

    /** Reads the client header; a short packet is a panic. */
    method ReadHeader() returns (ok: bool)
      modifies this
      ensures ok <==> old(index) + 10 <= |buffer|
      ensures ok ==> index == old(index) + 10
      ensures ok ==>
        magic == Get(buffer[old(index)..old(index) + 2]) && size == Get(buffer[old(index) + 2..old(index) + 4])
      ensures ok ==>
        checksum == Get(buffer[old(index) + 4..old(index) + 8]) && code == Get(buffer[old(index) + 8..index])
    {
      hide Get;
      ok, magic := ReadUnsigned(2);
      if !ok { return; }
      ok, size := ReadUnsigned(2);
      if !ok { return; }
      ok, checksum := ReadUnsigned(4);
      if !ok { return; }
      ok, code := ReadUnsigned(2);
    }

    /** The unsigned integer methods, by width. */
    method ReadUnsigned(width: nat) returns (ok: bool, data: int)
      requires width == 1 || width == 2 || width == 4 || width == 8
      modifies this`index
      ensures var r := ReadField(buffer, old(index), NumberShape(width, false));
              ok == r.Got? && (ok ==> r == Got(Whole(data), index)) && (!ok ==> index == old(index))
    {
      data := 0;
      if |buffer| <= index + width - 1 {
        return false, 0;
      }
      ghost var part := buffer[index..index + width];
      hide Get;
      assert Get(part[..0]) == 0 by {
        GetPut(0, 0);
      }
      for i := 0 to width
        invariant index == old(index) && data == Get(part[..i])
      {
        GetOneMore(part, i);
        data := data + buffer[index + i] * Pow(i);
      }
      assert part[..width] == part;
      index := index + width;
      ok := true;
    }

    /** The signed integer methods: every shift and addition wraps at the width. */
    method ReadSigned(width: nat) returns (ok: bool, data: int)
      requires width == 1 || width == 2 || width == 4 || width == 8
      modifies this`index
      ensures var r := ReadField(buffer, old(index), NumberShape(width, true));
              ok == r.Got? && (ok ==> r == Got(Whole(data), index)) && (!ok ==> index == old(index))
    {
      data := 0;
      if |buffer| <= index + width - 1 {
        return false, 0;
      }
      ghost var part := buffer[index..index + width];
      hide Get, Wrap, Pow;
      assert Get(part[..0]) == 0 by {
        GetPut(0, 0);
      }
      WrapZero(width);
      for i := 0 to width
        invariant index == old(index) && data == Wrap(Get(part[..i]), width)
      {
        WrapOneMore(part, i, width);
        data := Wrap(data + Wrap(buffer[index + i] * Pow(i), width), width);
      }
      assert part[..width] == part;
      index := index + width;
      ok := true;
    }

    /** A string or a byte array of the given length; a negative length fails the slice. */
    method ReadBytes(length: int) returns (ok: bool, data: Bytes)
      modifies this`index
      ensures var r := ReadField(buffer, old(index), RawShape(length));
              ok == r.Got? && (ok ==> r == Got(Chunk(data), index)) && (!ok ==> index == old(index))
    {
      if |buffer| <= index + length - 1 || length < 0 {
        return false, [];
      }
      data := buffer[index..index + length];
      index := index + length;
      ok := true;
    }
  }

  lemma WrapZero(width: nat)
    ensures Wrap(0, width) == 0
  {
    WrapSmall(0, width);
  }

  lemma WrapOneMore(part: Bytes, i: nat, width: nat)
    requires i < |part|
    ensures Wrap(Wrap(Get(part[..i]), width) + Wrap(part[i] * Pow(i), width), width) == Wrap(Get(part[..i + 1]), width)
  {
    GetOneMore(part, i);
    WrapSum(Get(part[..i]), part[i] * Pow(i), width);
  }

  lemma GetOneMore(part: Bytes, i: nat)
    requires i < |part|
    ensures Get(part[..i + 1]) == Get(part[..i]) + part[i] * Pow(i)
  {
    assert part[..i + 1] == part[..i] + [part[i]];
    GetAppend(part[..i], [part[i]]);
    assert Get([part[i]]) == part[i];
  }

  // --- Whole sequences of fields, through the objects. ---

  /** One writer call per field. */
  method WriteAll(w: Writer, fs: seq<Field>)
    requires w.Valid() && AllOk(fs)
    modifies w, w.buffer
    ensures w.Valid() && (w.buffer == old(w.buffer) || fresh(w.buffer))
    ensures w.Written() == old(w.Written()) + Payload(fs)
    decreases |fs|
  {
    if fs == [] {
      assert w.Written() + [] == w.Written();
      return;
    }
    ghost var was := w.Written();
    ListStep(fs);
    hide Payload, AllOk, Stored, AllFit, Shapes, MeantAll;
    if fs[0].Number? {
      var ok := w.WriteInteger(Known(fs[0].kind, fs[0].value), fs[0].width);
    } else {
      w.WriteBytes(fs[0].bytes);
    }
    assert w.Written() == was + fs[0].Layout();
    WriteAll(w, fs[1..]);
    assert was + fs[0].Layout() + Payload(fs[1..]) == was + (fs[0].Layout() + Payload(fs[1..]));
  }

  /** The shapes a reader has methods for. */
  predicate Readable(shapes: seq<Shape>) {
    forall i :: 0 <= i < |shapes| && shapes[i].NumberShape? ==>
      shapes[i].length == 1 || shapes[i].length == 2 || shapes[i].length == 4 || shapes[i].length == 8
  }

  lemma {:induction false} ShapesReadable(fs: seq<Field>)
    requires AllOk(fs)
    ensures |Shapes(fs)| == |fs| && Readable(Shapes(fs))
  {
    if fs != [] {
      ShapesReadable(fs[1..]);
      hide Get, Put, Stored, Pow, AllFit, Payload;
    }
  }

  method ReadOne(r: Reader, s: Shape) returns (ok: bool, v: Value)
    requires Readable([s])
    modifies r`index
    ensures var one := ReadField(r.buffer, old(r.index), s);
            ok == one.Got? && (ok ==> one == Got(v, r.index)) && (!ok ==> r.index == old(r.index))
  {
    assert [s][0] == s;
    match s
    case RawShape(length) =>
      var data;
      ok, data := r.ReadBytes(length);
      v := Chunk(data);
    case NumberShape(length, signed) =>
      var data;
      if signed {
        ok, data := r.ReadSigned(length);
      } else {
        ok, data := r.ReadUnsigned(length);
      }
      v := Whole(data);
  }

  /** One reader call per shape; a panic ends it. */
  method ReadFields(r: Reader, shapes: seq<Shape>) returns (ok: bool, vs: seq<Value>)
    requires Readable(shapes)
    modifies r`index
    ensures var many := ReadAll(r.buffer, old(r.index), shapes);
            ok == many.Values? && (ok ==> many == Values(vs, r.index))
    decreases |shapes|
  {
    if shapes == [] {
      return true, [];
    }
    hide ReadField;
    var v;
    ok, v := ReadOne(r, shapes[0]);
    if !ok {
      return false, [];
    }
    ok, vs := ReadFields(r, shapes[1..]);
    vs := [v] + vs;
  }

  /** A packet written field by field, finalized, and read field by field after its header: nothing panics, the
      packet is read to its end, and the values come back if and only if each fits its methods. */
  method WriteThenRead(magic: nat, code: nat, fs: seq<Field>) returns (packet: Bytes, vs: seq<Value>, index: nat)
    requires magic < 0x10000 && code < 0x10000 && AllOk(fs)
    ensures packet == Packet(magic, code, fs) && index == |packet|
    ensures vs == MeantAll(fs) <==> AllFit(fs)
  {
    var w := new Writer(code, magic);
    hide Payload, Shapes, MeantAll, AllFit, ReadAll, Put, Get;
    WriteAll(w, fs);
    ghost var written := w.Written();
    FinalizedIsPacket(magic, code, fs, written);
    packet := w.Finalize();
    var r := new Reader(packet);
    var ok, skipped := r.ReadBytes(6);
    ShapesReadable(fs);
    ReadBack(magic, code, fs);
    ok, vs := ReadFields(r, Shapes(fs));
    index := r.index;
  }
}
