/** Length-prefixed framing of proxy packets on a byte stream. */
module SocketPackets {
  import opened Basics
  import opened Bytes
  import opened Datatypes
  import opened Cursor
  import opened ControlCodec

  const MAXIMUM_PACKET_SIZE: nat := 1024 * 64

  /** What one decoding attempt gives; slicing outside a buffer panics. */
  datatype FrameResult = NeedMore | Packet(packet: SocketPacket) | Failed(error: PacketError) | Panicked

  // What a frame is

  lemma {:induction false} BitOrTop(a: nat, k: nat)
    requires a < Pow2(k + 1)
    ensures BitOr(a, Pow2(k)) == if a < Pow2(k) then a + Pow2(k) else a
  {
    if k == 0 {
      assert BitOr(a / 2, 0) == 0;
    } else {
      BitOrTop(a / 2, k - 1);
    }
  }

  lemma SetTopBit(n: u16)
    ensures BitOr(n, 0x8000) == n % 0x8000 + 0x8000
  {
    hide Pow2, BitOr;
    Pow2Values();
    Pow2Next(14);
    Pow2Next(15);
    BitOrTop(n, 15);
  }

  /** `n | 1 << 15`. */
  function WithTopBit(n: u16): (h: u16)
    ensures h == n % 0x8000 + 0x8000
  {
    SetTopBit(n);
    BitOr(n, 0x8000)
  }

  lemma LowBits(n: nat)
    ensures n % 0x1_0000 % 0x8000 == n % 0x8000
  {
    var q, r := n / 0x1_0000, n % 0x1_0000;
    assert n == 0x8000 * (2 * q + r / 0x8000) + r % 0x8000;
  }

  /** `length as u16`, with the top bit marking a data frame. */
  function Header(length: nat, isData: bool): (h: u16)
    ensures h == if isData then length % 0x8000 + 0x8000 else length % 0x1_0000
  {
    LowBits(length);
    if isData then WithTopBit(length % 0x1_0000) else length % 0x1_0000
  }

  /** A data frame carries the client id and the raw bytes, a control frame a serialised body. */
  function EncodeFrame(p: SocketPacket): seq<byte> {
    if p.ProxyData? then Be16(Header(|p.data| + 2, true)) + (Be16(p.clientId % 0x1_0000) + p.data)
    else Be16(Header(|Serialize(p)|, false)) + Serialize(p)
  }

  function EncodeFrames(ps: seq<SocketPacket>): seq<byte> {
    if ps == [] then [] else EncodeFrame(ps[0]) + EncodeFrames(ps[1..])
  }

  /** One decoding attempt: its result and what it leaves of the buffer. */
  function DecodeFrame(b: seq<byte>): (FrameResult, seq<byte>) {
    if |b| < 2 then (NeedMore, b)
    else
      var start := U16At(b, 0);
      var length: nat := start % 0x8000;
      if |b| < length + 2 then (NeedMore, b)
      else if length > MAXIMUM_PACKET_SIZE then (Failed(TooLong), b)
      else if start >= 0x8000 then
        if length < 2 then (Panicked, b[2..])
        else (Packet(ProxyData(U16At(b, 2), b[4..2 + length])), b[2 + length..])
      else
        var body := Deserialize(b[2..2 + length]);
        (if body.Field? then Packet(body.value) else Failed(EncodingError), b[2 + length..])
  }

  /** All a buffer holds: the packets in order, the rest, and what stopped the decoder. */
  datatype Decoded = Decoded(packets: seq<SocketPacket>, rest: seq<byte>, stop: FrameResult)

  function DecodeAll(b: seq<byte>): Decoded
    decreases |b|
  {
    var (r, rest) := DecodeFrame(b);
    if r.Packet? then
      var more := DecodeAll(rest);
      Decoded([r.packet] + more.packets, more.rest, more.stop)
    else Decoded([], rest, r)
  }

  // Decoding attempts on arbitrary bytes

  /**
   Asking for more leaves the buffer alone, a packet or a bad body takes
   exactly its header and length, the size limit is never hit, and slicing
   goes wrong exactly on a complete data frame too short for its client id.
   */
  lemma DecodeFrameOutcomes(b: seq<byte>)
    ensures var (r, rest) := DecodeFrame(b);
            && (r.NeedMore? <==> |b| < 2 || |b| < U16At(b, 0) % 0x8000 + 2)
            && (r.NeedMore? ==> rest == b)
            && (r.Packet? || r == Failed(EncodingError) ==> rest == b[U16At(b, 0) % 0x8000 + 2..])
            && r != Failed(TooLong)
            && (r.Panicked? <==> |b| >= 2 && 0x8000 <= U16At(b, 0) < 0x8002 && |b| >= U16At(b, 0) - 0x8000 + 2)
  {
  }

  /** An answered attempt gives the same answer when more bytes have arrived. */
  lemma FrameStable(a: seq<byte>, b: seq<byte>)
    requires !DecodeFrame(a).0.NeedMore?
    ensures DecodeFrame(a + b) == (DecodeFrame(a).0, DecodeFrame(a).1 + b)
  {
    hide Deserialize;
    var length := U16At(a, 0) % 0x8000;
    assert (a + b)[..2 + length] == a[..2 + length];
    assert (a + b)[2..2 + length] == a[2..2 + length];
    assert (a + b)[2 + length..] == a[2 + length..] + b;
    assert (a + b)[2..] == a[2..] + b;
    assert length >= 2 ==> (a + b)[4..2 + length] == a[4..2 + length];
  }

  // Chunking

  lemma {:induction false} DecodeAllSplit(a: seq<byte>, b: seq<byte>)
    ensures var whole, first := DecodeAll(a + b), DecodeAll(a);
            if first.stop.NeedMore? then
              var second := DecodeAll(first.rest + b);
              whole == Decoded(first.packets + second.packets, second.rest, second.stop)
            else whole == Decoded(first.packets, first.rest + b, first.stop)
    decreases |a|
  {
    hide DecodeFrame;
    DecodeFrameOutcomes(a);
    var (r, rest) := DecodeFrame(a);
    if !r.NeedMore? {
      FrameStable(a, b);
    }
    if r.Packet? {
      FrameShrinks(a);
      DecodeAllSplit(rest, b);
    }
  }

  lemma FrameShrinks(b: seq<byte>)
    requires DecodeFrame(b).0.Packet?
    ensures |DecodeFrame(b).1| < |b|
  {
    hide Deserialize;
  }

  /** A stream decoder that is fed chunk by chunk; it takes nothing after a failure. */
  function Feed(d: Decoded, chunk: seq<byte>): Decoded {
    if d.stop.NeedMore? then
      var more := DecodeAll(d.rest + chunk);
      Decoded(d.packets + more.packets, more.rest, more.stop)
    else d
  }

  function FeedAll(d: Decoded, chunks: seq<seq<byte>>): Decoded
    decreases |chunks|
  {
    if chunks == [] then d else FeedAll(Feed(d, chunks[0]), chunks[1..])
  }

  lemma {:induction false} FeedAllIs(d: Decoded, chunks: seq<seq<byte>>)
    requires d.stop.NeedMore? && DecodeAll(d.rest) == Decoded([], d.rest, NeedMore)
    ensures var whole, fed := DecodeAll(d.rest + Flatten(chunks)), FeedAll(d, chunks);
            && fed.packets == d.packets + whole.packets && fed.stop == whole.stop
            && (fed.stop.NeedMore? ==> fed.rest == whole.rest)
    decreases |chunks|
  {
    hide DecodeAll;
    if chunks == [] {
      assert d.rest + Flatten(chunks) == d.rest;
    } else {
      var step, rest := Feed(d, chunks[0]), Flatten(chunks[1..]);
      assert d.rest + Flatten(chunks) == d.rest + chunks[0] + rest;
      DecodeAllSplit(d.rest + chunks[0], rest);
      if step.stop.NeedMore? {
        DecodeAllRest(d.rest + chunks[0]);
        FeedAllIs(step, chunks[1..]);
      } else {
        FeedAllStopped(step, chunks[1..]);
      }
    }
  }

  /** What is left when more is needed holds no packet. */
  lemma {:induction false} DecodeAllRest(b: seq<byte>)
    requires DecodeAll(b).stop.NeedMore?
    ensures DecodeAll(DecodeAll(b).rest) == Decoded([], DecodeAll(b).rest, NeedMore)
    decreases |b|
  {
    hide Deserialize;
    var (r, rest) := DecodeFrame(b);
    if r.Packet? { DecodeAllRest(rest); }
  }

  lemma {:induction false} FeedAllStopped(d: Decoded, chunks: seq<seq<byte>>)
    requires !d.stop.NeedMore?
    ensures FeedAll(d, chunks) == d
    decreases |chunks|
  {
    if chunks != [] { FeedAllStopped(d, chunks[1..]); }
  }

  const FRESH := Decoded([], [], NeedMore)

  /** However a stream is cut, the same packets come out and the decoder stops for the same reason. */
  lemma AnyChunking(chunks: seq<seq<byte>>)
    ensures var whole, fed := DecodeAll(Flatten(chunks)), FeedAll(FRESH, chunks);
            && fed.packets == whole.packets && fed.stop == whole.stop
            && (fed.stop.NeedMore? ==> fed.rest == whole.rest)
  {
    hide FeedAll, Flatten;
    FeedAllIs(FRESH, chunks);
    assert [] + Flatten(chunks) == Flatten(chunks);
  }

  // Encoding

  /** What the two length fields and the id field can carry. */
  predicate Encodable(p: SocketPacket) {
    && WellTyped(p)
    && if p.ProxyData? then |p.data| + 2 < 0x8000 && p.clientId < 0x1_0000 else |Serialize(p)| < 0x8000
  }

  lemma DataFrameDecodes(p: SocketPacket, suffix: seq<byte>)
    requires WellTyped(p) && p.ProxyData?
    ensures var length := (|p.data| + 2) % 0x8000;
            DecodeFrame(EncodeFrame(p) + suffix) ==
            if length < 2 then (Panicked, (EncodeFrame(p) + suffix)[2..])
            else (Packet(ProxyData(p.clientId % 0x1_0000, p.data[..length - 2])), p.data[length - 2..] + suffix)
  {
    hide Deserialize, Header, EncodeFrame, U16At, Be16;
    var b := EncodeFrame(p) + suffix;
    var length := (|p.data| + 2) % 0x8000;
    DataFrameBytes(p, suffix);
    if length >= 2 {
      assert b[4..2 + length] == b[4..][..length - 2] == p.data[..length - 2];
      assert b[2 + length..] == b[4..][length - 2..] == p.data[length - 2..] + suffix;
    }
  }

  lemma DataFrameBytes(p: SocketPacket, suffix: seq<byte>)
    requires p.ProxyData?
    ensures var b := EncodeFrame(p) + suffix;
            && |b| == 4 + |p.data| + |suffix| && b[4..] == p.data + suffix
            && U16At(b, 0) == (|p.data| + 2) % 0x8000 + 0x8000 && U16At(b, 2) == p.clientId % 0x1_0000
  {
    hide Header, U16At, Be16;
    var b, h, id := EncodeFrame(p) + suffix, Header(|p.data| + 2, true), p.clientId % 0x1_0000;
    assert b == Be16(h) + Be16(id) + (p.data + suffix);
    assert b[0..2] == Be16(h) && b[2..4] == Be16(id);
    Be16At(b, 0, h);
    Be16At(b, 2, id);
  }

  lemma ControlFrameDecodes(p: SocketPacket, suffix: seq<byte>)
    requires Encodable(p) && !p.ProxyData?
    ensures DecodeFrame(EncodeFrame(p) + suffix) == (Packet(p), suffix)
  {
    hide Deserialize, Serialize, EncodeFrame, U16At;
    var body := Serialize(p);
    ControlFrameBytes(p, suffix);
    SerializeRoundTrip(p, []);
    assert body + [] == body;
  }

  lemma ControlFrameBytes(p: SocketPacket, suffix: seq<byte>)
    requires Encodable(p) && !p.ProxyData?
    ensures var b, body := EncodeFrame(p) + suffix, Serialize(p);
            && |body| < 0x8000 && |b| == 2 + |body| + |suffix|
            && U16At(b, 0) == |body| && b[2..2 + |body|] == body && b[2 + |body|..] == suffix
  {
    hide Serialize, Header, U16At, Be16;
    var b, body := EncodeFrame(p) + suffix, Serialize(p);
    assert b == Be16(|body|) + (body + suffix);
    assert b[0..2] == Be16(|body|);
    Be16At(b, 0, |body|);
  }

  lemma LongControlFrame(p: SocketPacket, suffix: seq<byte>)
    requires WellTyped(p) && !p.ProxyData? && |Serialize(p)| >= 0x8000
    ensures DecodeFrame(EncodeFrame(p) + suffix).0 != Packet(p)
  {
    hide Deserialize, Serialize, Header;
    var body := Serialize(p);
    var b := EncodeFrame(p) + suffix;
    var h := |body| % 0x1_0000;
    assert b == Be16(h) + (body + suffix);
    assert b[0..2] == Be16(h) && b[2..] == body + suffix;
    Be16At(b, 0, h);
    if h < 0x8000 {
      assert b[2..2 + h] == body[..h];
      TruncatedBody(p, h);
    }
  }

  /**
   Decoding an encoded packet gives it back, and then with exactly what followed
   it left over, if and only if the frame fields can carry it.
   */
  lemma FaithfulExactlyWhenEncodable(p: SocketPacket, suffix: seq<byte>)
    requires WellTyped(p)
    ensures DecodeFrame(EncodeFrame(p) + suffix) == (Packet(p), suffix) <==> Encodable(p)
    ensures DecodeFrame(EncodeFrame(p) + suffix).0 == Packet(p) <==> Encodable(p)
  {
    hide EncodeFrame, DecodeFrame, Serialize;
    if p.ProxyData? {
      DataFrameDecodes(p, suffix);
      var length := (|p.data| + 2) % 0x8000;
      if Encodable(p) {
        assert p.data[..length - 2] == p.data && p.data[length - 2..] + suffix == suffix;
      }
    } else if Encodable(p) {
      ControlFrameDecodes(p, suffix);
    } else {
      LongControlFrame(p, suffix);
    }
  }

  /** The first bit tells the two kinds of frame apart. */
  lemma KindBit(p: SocketPacket)
    requires Encodable(p)
    ensures EncodeFrame(p)[0] >= 0x80 <==> p.ProxyData?
  {
    hide Serialize, Header;
  }

  /** Encoding a list of packets and decoding the bytes gives the list and an empty buffer. */
  lemma {:induction false} FramesRoundTrip(ps: seq<SocketPacket>)
    requires forall p | p in ps :: Encodable(p)
    ensures DecodeAll(EncodeFrames(ps)) == Decoded(ps, [], NeedMore)
  {
    hide EncodeFrame, DecodeFrame, Encodable;
    if ps == [] {
      DecodeFrameOutcomes([]);
    } else {
      EncodableIsWellTyped(ps[0]);
      FaithfulExactlyWhenEncodable(ps[0], EncodeFrames(ps[1..]));
      FramesRoundTrip(ps[1..]);
    }
  }

  /** A stream of frames is read as the packets written to it if and only if every one of them can be carried. */
  lemma {:induction false} StreamFaithfulExactly(ps: seq<SocketPacket>)
    requires forall p | p in ps :: WellTyped(p)
    ensures DecodeAll(EncodeFrames(ps)) == Decoded(ps, [], NeedMore) <==> forall p | p in ps :: Encodable(p)
  {
    hide EncodeFrame, DecodeFrame, Encodable, WellTyped;
    if forall p | p in ps :: Encodable(p) {
      FramesRoundTrip(ps);
    } else if DecodeAll(EncodeFrames(ps)) == Decoded(ps, [], NeedMore) {
      FaithfulExactlyWhenEncodable(ps[0], EncodeFrames(ps[1..]));
      assert ps == [ps[0]] + ps[1..];
      StreamFaithfulExactly(ps[1..]);
      assert false;
    }
  }

  /** An incomplete frame asks for more. */
  lemma CutFrame(p: SocketPacket, n: nat)
    requires Encodable(p) && n < |EncodeFrame(p)|
    ensures DecodeFrame(EncodeFrame(p)[..n]) == (NeedMore, EncodeFrame(p)[..n])
  {
    hide EncodeFrame, DecodeFrame, Encodable;
    var e := EncodeFrame(p);
    EncodableIsWellTyped(p);
    FaithfulExactlyWhenEncodable(p, []);
    assert e + [] == e && e[..n] + e[n..] == e;
    DecodeFrameOutcomes(e[..n]);
    if !DecodeFrame(e[..n]).0.NeedMore? { FrameStable(e[..n], e[n..]); }
  }

  /** What has arrived of a stream so far is read as the first packets written to it, and the decoder waits for more. */
  lemma {:induction false} StreamSoFar(ps: seq<SocketPacket>, b: seq<byte>)
    requires forall p | p in ps :: Encodable(p)
    requires b <= EncodeFrames(ps)
    ensures var d := DecodeAll(b);
            d.packets <= ps && d.stop == NeedMore && EncodeFrames(d.packets) + d.rest == b
  {
    hide EncodeFrame, DecodeFrame, Encodable;
    if ps == [] {
      DecodeFrameOutcomes([]);
    } else {
      var e := EncodeFrame(ps[0]);
      if |b| < |e| {
        CutFrame(ps[0], |b|);
        assert e[..|b|] == EncodeFrames(ps)[..|b|] == b;
      } else {
        var rest := b[|e|..];
        assert b == e + rest by { assert b[..|e|] == EncodeFrames(ps)[..|e|] == e; }
        assert rest <= EncodeFrames(ps[1..]);
        EncodableIsWellTyped(ps[0]);
        FaithfulExactlyWhenEncodable(ps[0], rest);
        StreamSoFar(ps[1..], rest);
        var more := DecodeAll(rest);
        var d := DecodeAll(b);
        assert d.packets == [ps[0]] + more.packets && d.packets[1..] == more.packets;
        assert EncodeFrames(d.packets) + d.rest == e + (EncodeFrames(more.packets) + more.rest);
      }
    }
  }

  /** The same in whatever pieces it has arrived. */
  lemma StreamRoundTripSoFar(ps: seq<SocketPacket>, chunks: seq<seq<byte>>)
    requires forall p | p in ps :: Encodable(p)
    requires Flatten(chunks) <= EncodeFrames(ps)
    ensures var d := FeedAll(FRESH, chunks);
            && d.packets <= ps && d.stop == NeedMore && EncodeFrames(d.packets) + d.rest == Flatten(chunks)
            && (Flatten(chunks) == EncodeFrames(ps) ==> d == Decoded(ps, [], NeedMore))
  {
    hide FeedAll, Flatten, Encodable, EncodeFrames, DecodeAll;
    StreamSoFar(ps, Flatten(chunks));
    AnyChunking(chunks);
    if Flatten(chunks) == EncodeFrames(ps) { StreamRoundTrip(ps, chunks); }
  }

  lemma EncodableIsWellTyped(p: SocketPacket)
    requires Encodable(p)
    ensures WellTyped(p)
  {
  }

  /** The whole of the codec: any list of carriable packets crosses any chunking unharmed. */
  lemma StreamRoundTrip(ps: seq<SocketPacket>, chunks: seq<seq<byte>>)
    requires forall p | p in ps :: Encodable(p)
    requires Flatten(chunks) == EncodeFrames(ps)
    ensures FeedAll(FRESH, chunks) == Decoded(ps, [], NeedMore)
  {
    FramesRoundTrip(ps);
    AnyChunking(chunks);
  }

  /** No frame is a proper prefix of another. */
  lemma PrefixFree(p: SocketPacket, q: SocketPacket)
    requires Encodable(p) && Encodable(q) && EncodeFrame(p) <= EncodeFrame(q)
    ensures p == q
  {
    hide EncodeFrame, DecodeFrame, Serialize;
    var a, b := EncodeFrame(p), EncodeFrame(q);
    FaithfulExactlyWhenEncodable(p, b[|a|..]);
    FaithfulExactlyWhenEncodable(q, []);
    assert b + [] == b && a + b[|a|..] == b;
  }

  // The bytes of a frame

  /** Sixteen bits of header, most significant first: the kind and the length; then id and data, or a body. */
  lemma FrameLayout(p: SocketPacket)
    requires Encodable(p)
    ensures p.ProxyData? ==>
              var n := |p.data| + 2;
              EncodeFrame(p) == [0x80 + n / 256, n % 256] + ([p.clientId / 256, p.clientId % 256] + p.data)
    ensures !p.ProxyData? ==>
              EncodeFrame(p) == [|Serialize(p)| / 256, |Serialize(p)| % 256] + Serialize(p)
  {
    hide Serialize, WithTopBit;
  }

  /**
   A complete frame on arbitrary bytes: any data frame with room for its id is a
   packet of the rest, a control frame is a packet exactly if its body begins with
   what the packet is serialised to, and otherwise an error.
   */
  lemma FrameMeaning(b: seq<byte>)
    requires |b| >= 2 && |b| >= U16At(b, 0) % 0x8000 + 2
    ensures var length, r := U16At(b, 0) % 0x8000, DecodeFrame(b).0;
            if b[0] >= 0x80 then
              length >= 2 ==> r == Packet(ProxyData(U16At(b, 2), b[4..2 + length]))
            else
              && (forall p | WellTyped(p) :: r == Packet(p) <==> Serialize(p) <= b[2..2 + length])
              && (r.Packet? ==> WellTyped(r.packet) && Serialize(r.packet) <= b[2..2 + length])
              && (r.Packet? || r == Failed(EncodingError))
  {
    var length := U16At(b, 0) % 0x8000;
    hide Deserialize, Serialize;
    if b[0] < 0x80 {
      var body := b[2..2 + length];
      forall p | WellTyped(p)
        ensures DecodeFrame(b).0 == Packet(p) <==> Serialize(p) <= body
      {
        DeserializeExactly(body, p);
      }
      DeserializeExactly(body, Unknown);
    }
  }

  /** After the packets of a stream the decoder stops at the first frame that gives none. */
  lemma {:induction false} StopsAtFailure(ps: seq<SocketPacket>, rest: seq<byte>)
    requires (forall p | p in ps :: Encodable(p)) && !DecodeFrame(rest).0.Packet?
    ensures DecodeAll(EncodeFrames(ps) + rest) == Decoded(ps, DecodeFrame(rest).1, DecodeFrame(rest).0)
  {
    hide EncodeFrame, DecodeFrame, Encodable;
    if ps == [] {
      assert EncodeFrames(ps) + rest == rest;
    } else {
      var e, more := EncodeFrame(ps[0]), EncodeFrames(ps[1..]);
      assert EncodeFrames(ps) + rest == e + (more + rest);
      EncodableIsWellTyped(ps[0]);
      FaithfulExactlyWhenEncodable(ps[0], more + rest);
      StopsAtFailure(ps[1..], rest);
    }
  }

  // The codec

  method EncodeInto(p: SocketPacket, buf: BytesMut)
    modifies buf
    ensures buf.data == old(buf.data) + EncodeFrame(p)
  {
    hide WithTopBit, Serialize, U16At, Be16, Header;
    if p.ProxyData? {
      var length := |p.data| + 2;
      LowBits(length);
      buf.PutU16(WithTopBit(length % 0x1_0000));
      buf.PutU16(p.clientId % 0x1_0000);
      buf.Put(p.data);
      return;
    }
    var packet := Serialize(p);
    buf.PutU16(|packet| % 0x1_0000);
    buf.Put(packet);
  }

  method DecodeFrom(buf: BytesMut) returns (r: FrameResult)
    modifies buf
    ensures (r, buf.data) == DecodeFrame(old(buf.data))
  {
    hide Deserialize;
    if |buf.data| < 2 {
      return NeedMore;
    }
    var start := U16At(buf.data, 0);
    var length: nat := start % 0x8000;
    var isDataPacket := start >= 0x8000;
    if |buf.data| < length + 2 {
      return NeedMore;
    }
    if length > MAXIMUM_PACKET_SIZE {
      return Failed(TooLong);
    }
    buf.Advance(2);
    if isDataPacket {
      if length < 2 {
        return Panicked;
      }
      var clientId := buf.GetU16();
      var data := buf.SplitTo(length - 2);
      assert data == old(buf.data)[4..2 + length] && buf.data == old(buf.data)[2 + length..];
      assert clientId == U16At(old(buf.data), 2);
      return Packet(ProxyData(clientId, data));
    }
    var body := buf.SplitTo(length);
    assert body == old(buf.data)[2..2 + length] && buf.data == old(buf.data)[2 + length..];
    var result := Deserialize(body);
    if result.Missing? {
      return Failed(EncodingError);
    }
    return Packet(result.value);
  }

  /** The read loop of a framed connection: decode until the buffer needs more or a frame fails. */
  method ReceiveChunk(buf: BytesMut, chunk: seq<byte>) returns (packets: seq<SocketPacket>, stop: FrameResult)
    modifies buf
    ensures Decoded(packets, buf.data, stop) == DecodeAll(old(buf.data) + chunk)
  {
    hide DecodeFrame;
    buf.Put(chunk);
    packets := [];
    while true
      invariant var d := DecodeAll(buf.data);
                DecodeAll(old(buf.data) + chunk) == Decoded(packets + d.packets, d.rest, d.stop)
      decreases |buf.data|
    {
      ghost var before := buf.data;
      stop := DecodeFrom(buf);
      if !stop.Packet? {
        return;
      }
      FrameShrinks(before);
      packets := packets + [stop.packet];
    }
  }
}
