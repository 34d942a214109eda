/** Reassembly of client packets from a TCP stream, as a function of the bytes received so far.
    The receive key of the cipher decides where each packet ends, so framing and decryption are one
    state machine. */
module Stream {
  import opened Words
  import opened Cipher

  /** Whether the packet handlers have closed the session once they have seen these packets; the last is the newest. */
  type Handler = seq<Bytes> -> bool

  datatype Link = Link(cipher: State, buffer: Bytes, delivered: seq<Bytes>, open: bool)

  function Start(keyIdx: nat): Link {
    Link(State(0, true, keyIdx), [], [], true)
  }

  /** What the head of the buffer allows: wait for more bytes, close on an error, or take a packet. */
  datatype Turn = Wait | Bad | Take(size: nat)

  function Look(cipher: State, buffer: Bytes): (turn: Turn)
    ensures turn.Take? ==> C2S_HEADER_SIZE <= turn.size <= |buffer|
  {
    if |buffer| < (if cipher.first then CONNECT_SIZE else 4) then Wait
    else
      var n := cipher.PacketSize(buffer);
      if n < C2S_HEADER_SIZE then Bad
      else if |buffer| < n then Wait
      else if !cipher.MagicOk(buffer[..n]) then Bad
      else Take(n)
  }

  /** One packet off the head of the buffer. */
  function TakePacket(t: KeyTable, h: Handler, l: Link, n: nat): Link
    requires l.cipher.Valid() && C2S_HEADER_SIZE <= n <= |l.buffer|
  {
    var p := l.cipher.Plain(t, l.buffer[..n]);
    Link(l.cipher.Advance(t), l.buffer[n..], l.delivered + [p], !h(l.delivered + [p]))
  }

  function Drain(t: KeyTable, h: Handler, l: Link): (r: Link)
    requires l.cipher.Valid()
    ensures r.cipher.Valid()
    decreases |l.buffer|
  {
    if !l.open then l
    else match Look(l.cipher, l.buffer)
      case Wait => l
      case Bad => l.(open := false)
      case Take(n) => Drain(t, h, TakePacket(t, h, l, n))
  }

  /** One successful read of `chunk`; a closed session reads nothing more. */
  function Feed(t: KeyTable, h: Handler, l: Link, chunk: Bytes): (r: Link)
    requires l.cipher.Valid()
    ensures r.cipher.Valid()
  {
    if l.open then Drain(t, h, l.(buffer := l.buffer + chunk)) else l
  }

  function FeedAll(t: KeyTable, h: Handler, l: Link, chunks: seq<Bytes>): (r: Link)
    requires l.cipher.Valid()
    ensures r.cipher.Valid()
    decreases |chunks|
  {
    if chunks == [] then l else FeedAll(t, h, Feed(t, h, l, chunks[0]), chunks[1..])
  }

  function Concat(chunks: seq<Bytes>): Bytes {
    if chunks == [] then [] else chunks[0] + Concat(chunks[1..])
  }

  function Size(packets: seq<Bytes>): nat {
    if packets == [] then 0 else Size(packets[..|packets| - 1]) + |packets[|packets| - 1]|
  }

  /** Equal in everything but the unread bytes of a session already closed. */
  predicate Alike(a: Link, b: Link) {
    && a.cipher == b.cipher && a.delivered == b.delivered && a.open == b.open
    && (a.open ==> a.buffer == b.buffer)
  }

  /** Nothing more can be taken without another read. */
  predicate Settled(l: Link) {
    !l.open || Look(l.cipher, l.buffer).Wait?
  }

  /** More bytes never change a decision already made. */
  lemma LookStable(cipher: State, buffer: Bytes, more: Bytes)
    requires !Look(cipher, buffer).Wait?
    ensures Look(cipher, buffer + more) == Look(cipher, buffer)
  {
    hide Words.ByteOf, Words.FromBytes, Words.Xor, Words.HighHalf, Words.LowHalf;
    if !cipher.first {
      assert Word(buffer + more) == Word(buffer);
    }
    var n := cipher.PacketSize(buffer);
    if n <= |buffer| {
      assert (buffer + more)[..n] == buffer[..n];
    }
  }

  lemma {:induction false} DrainSettles(t: KeyTable, h: Handler, l: Link)
    requires l.cipher.Valid()
    ensures Settled(Drain(t, h, l))
    decreases |l.buffer|
  {
    hide Look;
    if l.open {
      match Look(l.cipher, l.buffer)
      case Wait =>
      case Bad =>
      case Take(n) => DrainSettles(t, h, TakePacket(t, h, l, n));
    }
  }

  /** Draining early and then again after more bytes equals draining once with all of them. */
  lemma {:induction false} DrainThenMore(t: KeyTable, h: Handler, l: Link, more: Bytes)
    requires l.cipher.Valid() && l.open
    ensures Alike(Feed(t, h, Drain(t, h, l), more), Drain(t, h, l.(buffer := l.buffer + more)))
    decreases |l.buffer|
  {
    hide Look, State.Plain;
    var whole := l.(buffer := l.buffer + more);
    match Look(l.cipher, l.buffer)
    case Wait =>
    case Bad =>
      LookStable(l.cipher, l.buffer, more);
    case Take(n) =>
      LookStable(l.cipher, l.buffer, more);
      assert whole.buffer[..n] == l.buffer[..n] && whole.buffer[n..] == l.buffer[n..] + more;
      var next := TakePacket(t, h, l, n);
      assert TakePacket(t, h, whole, n) == next.(buffer := next.buffer + more);
      if next.open {
        DrainThenMore(t, h, next, more);
      }
  }

  lemma {:induction false} FeedAlike(t: KeyTable, h: Handler, a: Link, b: Link, chunks: seq<Bytes>)
    requires a.cipher.Valid() && b.cipher.Valid() && Alike(a, b)
    ensures Alike(FeedAll(t, h, a, chunks), FeedAll(t, h, b, chunks))
    decreases |chunks|
  {
    hide Drain;
    if chunks != [] {
      FeedAlike(t, h, Feed(t, h, a, chunks[0]), Feed(t, h, b, chunks[0]), chunks[1..]);
    }
  }

  lemma FeedTwice(t: KeyTable, h: Handler, l: Link, x: Bytes, y: Bytes)
    requires l.cipher.Valid()
    ensures Alike(Feed(t, h, Feed(t, h, l, x), y), Feed(t, h, l, x + y))
  {
    hide Look;
    if l.open {
      DrainThenMore(t, h, l.(buffer := l.buffer + x), y);
      assert l.buffer + x + y == l.buffer + (x + y);
    }
  }

  /** Chunking is irrelevant: for every stream and every split of it into reads, the packets delivered,
      the cipher state, the verdict and (while open) the pending bytes are those of one single read. */
  lemma {:induction false} ChunkingIrrelevant(t: KeyTable, h: Handler, l: Link, chunks: seq<Bytes>)
    requires l.cipher.Valid() && Settled(l)
    ensures Alike(FeedAll(t, h, l, chunks), Feed(t, h, l, Concat(chunks)))
    decreases |chunks|
  {
    hide Look;
    if chunks == [] {
      assert l.buffer + [] == l.buffer;
    } else {
      var next := Feed(t, h, l, chunks[0]);
      if l.open {
        DrainSettles(t, h, l.(buffer := l.buffer + chunks[0]));
      }
      ChunkingIrrelevant(t, h, next, chunks[1..]);
      FeedTwice(t, h, l, chunks[0], Concat(chunks[1..]));
    }
  }

  lemma TakeConserves(t: KeyTable, h: Handler, l: Link, n: nat)
    requires l.cipher.Valid() && C2S_HEADER_SIZE <= n <= |l.buffer|
    ensures var next := TakePacket(t, h, l, n);
            && next.buffer == l.buffer[n..] && next.cipher.Valid()
            && Size(next.delivered) == Size(l.delivered) + n
  {
    hide State.Plain, State.Advance;
    var next := TakePacket(t, h, l, n);
    assert next.delivered[..|next.delivered| - 1] == l.delivered;
  }

  /** Bytes are neither lost nor repeated: an open session has taken exactly the first
      `Size(delivered)` bytes off what it had, and still holds the rest in order. */
  lemma {:induction false} DrainConserves(t: KeyTable, h: Handler, l: Link)
    requires l.cipher.Valid()
    ensures var r := Drain(t, h, l);
            var taken := Size(r.delivered) - Size(l.delivered);
            && 0 <= taken <= |l.buffer|
            && r.buffer == l.buffer[taken..]
    decreases |l.buffer|
  {
    hide Look, State.Plain, State.Advance, Size, TakePacket;
    if l.open {
      match Look(l.cipher, l.buffer)
      case Wait =>
      case Bad =>
      case Take(n) =>
        var next := TakePacket(t, h, l, n);
        TakeConserves(t, h, l, n);
        DrainConserves(t, h, next);
        var k := Size(Drain(t, h, l).delivered) - Size(next.delivered);
        assert l.buffer[n..][k..] == l.buffer[n + k..];
    }
  }

  /** Every byte received is either in a delivered packet or still in the buffer. */
  lemma FeedConserves(t: KeyTable, h: Handler, keyIdx: nat, chunks: seq<Bytes>)
    requires keyIdx < KEY_NUM
    ensures var r := FeedAll(t, h, Start(keyIdx), chunks);
            var all := Concat(chunks);
            r.open ==> Size(r.delivered) <= |all| && r.buffer == all[Size(r.delivered)..]
  {
    hide Settled, Drain, FeedAll, Concat;
    var l := Start(keyIdx);
    StartSettled(keyIdx);
    ChunkingIrrelevant(t, h, l, chunks);
    var all := Concat(chunks);
    assert l.buffer + all == all;
    DrainConserves(t, h, l.(buffer := all));
    assert Size([]) == 0;
  }

  lemma StartSettled(keyIdx: nat)
    ensures Settled(Start(keyIdx))
  {
  }

  // --- The two ends together. ---

  /** A packet as a client composes it, with the checksum word it attaches and the key it uses
      should this be the handshake. */
  datatype Outgoing = Outgoing(plain: Bytes, check: bv32, handshakeKey: bv32)

  function ClientSend(t: KeyTable, s: State, o: Outgoing): (r: Bytes)
    requires WellFormed(s.first, o.plain)
    ensures |r| == |o.plain|
  {
    if s.first then ClientSeal(t, 1, o.handshakeKey, o.check, o.plain)
    else ClientSeal(t, 2, s.recvKey, o.check, o.plain)
  }

  predicate AllWellFormed(first: bool, out: seq<Outgoing>) {
    out == [] || (WellFormed(first, out[0].plain) && AllWellFormed(false, out[1..]))
  }

  /** The byte stream of a client that has sent `k` packets since `s`, each packet under the key of its place. */
  function ClientStream(t: KeyTable, s: State, k: nat, out: seq<Outgoing>): Bytes
    requires s.Valid() && AllWellFormed(Place(t, s, k).first, out)
    decreases |out|
  {
    if out == [] then []
    else ClientSend(t, Place(t, s, k), out[0]) + ClientStream(t, s, k + 1, out[1..])
  }

  function Plains(out: seq<Outgoing>): seq<Bytes>
    requires forall o :: o in out ==> |o.plain| >= C2S_HEADER_SIZE
  {
    seq(|out|, i requires 0 <= i < |out| => ZeroChecksum(out[i].plain))
  }

  /** The handlers let every one of `ps` pass, having seen `seen` before. */
  predicate LetsPass(h: Handler, seen: seq<Bytes>, ps: seq<Bytes>)
    decreases |ps|
  {
    ps == [] || (!h(seen + [ps[0]]) && LetsPass(h, seen + [ps[0]], ps[1..]))
  }

  lemma PlainsCons(out: seq<Outgoing>)
    requires out != [] && forall o :: o in out ==> |o.plain| >= C2S_HEADER_SIZE
    ensures |Plains(out)| > 0 && Plains(out)[0] == ZeroChecksum(out[0].plain) && Plains(out)[1..] == Plains(out[1..])
  {
    hide ZeroChecksum;
  }

  lemma TakeHead(t: KeyTable, h: Handler, l: Link, o: Outgoing, rest: Bytes)
    requires l.cipher.Valid() && WellFormed(l.cipher.first, o.plain) && l.buffer == ClientSend(t, l.cipher, o) + rest
    ensures Look(l.cipher, l.buffer) == Take(|o.plain|)
    ensures var seen := l.delivered + [ZeroChecksum(o.plain)];
            TakePacket(t, h, l, |o.plain|) == Link(l.cipher.Advance(t), rest, seen, !h(seen))
  {
    hide ClientSend, State.Plain, State.Advance, Look, ZeroChecksum;
    HeadOfStream(t, l.cipher, o, rest);
    assert l.buffer[..|o.plain|] == ClientSend(t, l.cipher, o) && l.buffer[|o.plain|..] == rest;
  }

  lemma {:induction false} DrainClientStream(t: KeyTable, h: Handler, l: Link, s: State, k: nat, out: seq<Outgoing>)
    requires s.Valid() && l.cipher == Place(t, s, k) && l.open && AllWellFormed(l.cipher.first, out)
    requires forall o :: o in out ==> |o.plain| >= C2S_HEADER_SIZE
    requires LetsPass(h, l.delivered, Plains(out))
    requires l.buffer == ClientStream(t, s, k, out)
    ensures Drain(t, h, l) == Link(Place(t, s, k + |out|), [], l.delivered + Plains(out), true)
    decreases |out|
  {
    hide ClientSend, State.Plain, State.Advance, WellFormed, Look, ZeroChecksum, TakePacket, Place;
    if out == [] {
      NothingToTake(l.cipher);
    } else {
      HandshakeOnce(t, s, k);
      var o, rest := out[0], ClientStream(t, s, k + 1, out[1..]);
      var p := ZeroChecksum(o.plain);
      PlainsCons(out);
      hide Plains;
      TakeHead(t, h, l, o, rest);
      AdvanceFollows(t, s, k);
      var next := TakePacket(t, h, l, |o.plain|);
      DrainClientStream(t, h, next, s, k + 1, out[1..]);
      assert l.delivered + [p] + Plains(out[1..]) == l.delivered + Plains(out);
    }
  }

  /** The handlers let `n` packets pass and close the session at the next. */
  predicate ClosesAfter(h: Handler, seen: seq<Bytes>, ps: seq<Bytes>, n: nat)
    decreases n
  {
    && n < |ps|
    && (if n == 0 then h(seen + [ps[0]]) else !h(seen + [ps[0]]) && ClosesAfter(h, seen + [ps[0]], ps[1..], n - 1))
  }

  lemma {:induction false} DrainClosing(t: KeyTable, h: Handler, l: Link, s: State, k: nat, out: seq<Outgoing>, n: nat)
    requires s.Valid() && l.cipher == Place(t, s, k) && l.open && AllWellFormed(l.cipher.first, out)
    requires forall o :: o in out ==> |o.plain| >= C2S_HEADER_SIZE
    requires ClosesAfter(h, l.delivered, Plains(out), n)
    requires l.buffer == ClientStream(t, s, k, out)
    ensures var r := Drain(t, h, l);
            && !r.open && r.cipher == Place(t, s, k + n + 1)
            && r.delivered == l.delivered + Plains(out)[..n + 1]
    decreases n
  {
    hide ClientSend, State.Plain, State.Advance, WellFormed, Look, ZeroChecksum, TakePacket, Place;
    HandshakeOnce(t, s, k);
    var o, rest := out[0], ClientStream(t, s, k + 1, out[1..]);
    var p := ZeroChecksum(o.plain);
    PlainsCons(out);
    hide Plains;
    TakeHead(t, h, l, o, rest);
    AdvanceFollows(t, s, k);
    var next := TakePacket(t, h, l, |o.plain|);
    if n == 0 {
      assert Plains(out)[..1] == [p];
    } else {
      DrainClosing(t, h, next, s, k + 1, out[1..], n - 1);
      assert Plains(out)[..n + 1] == [p] + Plains(out[1..])[..n];
      assert l.delivered + [p] + Plains(out[1..])[..n] == l.delivered + Plains(out)[..n + 1];
    }
  }

  lemma NothingToTake(s: State)
    ensures Look(s, []).Wait?
  {
  }

  lemma HeadOfStream(t: KeyTable, s: State, o: Outgoing, rest: Bytes)
    requires WellFormed(s.first, o.plain)
    ensures var packet := ClientSend(t, s, o);
            && Look(s, packet + rest) == Take(|packet|)
            && s.Plain(t, packet) == ZeroChecksum(o.plain)
  {
    hide ClientSeal, State.Plain, State.MagicOk, State.PacketSize;
    var packet := ClientSend(t, s, o);
    DecryptUndoesSeal(t, s, if s.first then o.handshakeKey else s.recvKey, o.check, o.plain, rest);
    assert (packet + rest)[..|packet|] == packet;
  }

  /** End to end: whatever well-formed packets a client sends, with whatever checksums and handshake key,
      and however the network cuts the stream into reads, the server delivers exactly those packets in
      order (checksum words cleared), stays open, holds no leftover byte and is at the client's place in
      the key schedule. */
  lemma EndToEnd(t: KeyTable, h: Handler, keyIdx: nat, out: seq<Outgoing>, chunks: seq<Bytes>)
    requires keyIdx < KEY_NUM && AllWellFormed(true, out)
    requires Concat(chunks) == ClientStream(t, Start(keyIdx).cipher, 0, out)
    requires (forall o :: o in out ==> |o.plain| >= C2S_HEADER_SIZE) && LetsPass(h, [], Plains(out))
    ensures FeedAll(t, h, Start(keyIdx), chunks)
            == Link(Place(t, Start(keyIdx).cipher, |out|), [], Plains(out), true)
  {
    hide Look, ClientStream, ZeroChecksum, Settled, Drain, FeedAll;
    var l := Start(keyIdx);
    StartSettled(keyIdx);
    ChunkingIrrelevant(t, h, l, chunks);
    assert l.buffer + Concat(chunks) == Concat(chunks);
    DrainClientStream(t, h, l.(buffer := Concat(chunks)), l.cipher, 0, out);
    assert l.delivered + Plains(out) == Plains(out);
  }

  /** A handler that closes the session ends it there: the packets up to the one it closed at are delivered and none
      of those behind it, however the network cuts the stream. */
  lemma ClosedThere(t: KeyTable, h: Handler, keyIdx: nat, out: seq<Outgoing>, chunks: seq<Bytes>, n: nat)
    requires keyIdx < KEY_NUM && AllWellFormed(true, out)
    requires Concat(chunks) == ClientStream(t, Start(keyIdx).cipher, 0, out)
    requires (forall o :: o in out ==> |o.plain| >= C2S_HEADER_SIZE) && ClosesAfter(h, [], Plains(out), n)
    ensures var r := FeedAll(t, h, Start(keyIdx), chunks); !r.open && r.delivered == Plains(out)[..n + 1]
  {
    hide Look, ClientStream, ZeroChecksum, Settled, Drain, FeedAll;
    var l := Start(keyIdx);
    StartSettled(keyIdx);
    ChunkingIrrelevant(t, h, l, chunks);
    assert l.buffer + Concat(chunks) == Concat(chunks);
    DrainClosing(t, h, l.(buffer := Concat(chunks)), l.cipher, 0, out, n);
  }

  // --- What is delivered at all. ---

  /** The magic key in its first two bytes and its own length in the next two. */
  predicate Announced(p: Bytes) {
    |p| >= 10 && p[0] == 0xE2 && p[1] == 0xB7 && |p| == (p[2] as int) + 256 * (p[3] as int)
  }

  /** A packet is taken only if it is announced; one there as a whole but not announced closes the session, and so does
      one said to be shorter than a header. */
  lemma TakenIffAnnounced(t: KeyTable, s: State, buffer: Bytes)
    requires |buffer| >= (if s.first then 14 else 4)
    ensures var n := s.PacketSize(buffer);
            && (n < 10 ==> Look(s, buffer).Bad?)
            && (10 <= n <= |buffer| ==>
                 if Announced(s.Plain(t, buffer[..n])) then Look(s, buffer) == Take(n) else Look(s, buffer).Bad?)
            && (10 <= n && |buffer| < n ==> Look(s, buffer).Wait?)
  {
    hide State.Plain, State.MagicOk, State.PacketSize, Announced;
    var n := s.PacketSize(buffer);
    if 10 <= n <= |buffer| {
      var data := buffer[..n];
      HeadSize(s, buffer, n);
      AnnouncedIffMagic(t, s, data);
      assert Look(s, buffer) == if s.MagicOk(data) then Take(n) else Bad;
    }
  }

  lemma AnnouncedIffMagic(t: KeyTable, s: State, data: Bytes)
    requires |data| >= 10 && |data| == s.PacketSize(data)
    ensures Announced(s.Plain(t, data)) <==> s.MagicOk(data)
  {
    hide State.Plain, State.MagicOk, State.PacketSize;
    HeaderShows(t, s, data);
    if s.first {
      HandshakeShows(t, s, data);
    }
  }

  lemma HeadSize(s: State, buffer: Bytes, n: nat)
    requires 10 <= n <= |buffer|
    ensures s.PacketSize(buffer[..n]) == s.PacketSize(buffer)
  {
    hide Words.Xor, Words.FromBytes, Words.ByteOf, Words.HighHalf;
  }

  lemma HandshakeShows(t: KeyTable, s: State, data: Bytes)
    requires s.first && |data| >= 10
    ensures var p := s.Plain(t, data); p[0] == 0xE2 && p[1] == 0xB7 && p[2] == 14 && p[3] == 0
  {
    hide Words.Xor, Words.FromBytes, Open, KeyAfter;
    var p := s.Plain(t, data);
    XorSelf(Word(data));
    assert p[0] == ByteOf(CONNECT_HEADER, 0) && p[1] == ByteOf(CONNECT_HEADER, 1);
    assert p[2] == ByteOf(CONNECT_HEADER, 2) && p[3] == ByteOf(CONNECT_HEADER, 3);
  }

  predicate AllAnnounced(packets: seq<Bytes>) {
    forall i :: 0 <= i < |packets| ==> Announced(packets[i])
  }

  lemma {:induction false} DrainAnnounced(t: KeyTable, h: Handler, l: Link)
    requires l.cipher.Valid() && AllAnnounced(l.delivered)
    ensures AllAnnounced(Drain(t, h, l).delivered)
    decreases |l.buffer|
  {
    hide State.Plain, State.Advance, State.PacketSize, State.MagicOk, Announced;
    if l.open && Look(l.cipher, l.buffer).Take? {
      var n := Look(l.cipher, l.buffer).size;
      TakenIffAnnounced(t, l.cipher, l.buffer);
      DrainAnnounced(t, h, TakePacket(t, h, l, n));
    }
  }

  /** Whatever bytes come in whatever chunks, no packet is delivered that does not show the magic key and its length. */
  lemma {:induction false} DeliveredAnnounced(t: KeyTable, h: Handler, l: Link, chunks: seq<Bytes>)
    requires l.cipher.Valid() && AllAnnounced(l.delivered)
    ensures AllAnnounced(FeedAll(t, h, l, chunks).delivered)
    decreases |chunks|
  {
    hide Drain, Announced;
    if chunks != [] {
      if l.open {
        DrainAnnounced(t, h, l.(buffer := l.buffer + chunks[0]));
      }
      DeliveredAnnounced(t, h, Feed(t, h, l, chunks[0]), chunks[1..]);
    }
  }
}
