/**
 The packets of the proxy protocol and the serialised form of their bodies:
 a little-endian 32-bit variant tag and then the fields in order, integers
 little-endian at full width, strings and byte vectors behind a 64-bit length,
 fixed arrays bare. Bytes after the last field are ignored.
 */
module ControlCodec {
  import opened Basics
  import opened Unicode
  import opened Cursor

  type Bytes32 = s: seq<byte> | |s| == 32 witness seq(32, _ => 0)
  type Bytes64 = s: seq<byte> | |s| == 64 witness seq(64, _ => 0)

  datatype ProxyHelloPacket = ProxyHelloPacket(version: u16, hostname: string, publicKey: Bytes32)

  datatype SocketPacket =
    | ProxyHello(hello: ProxyHelloPacket)
    | ProxyAuthRequest(challenge: Bytes64)
    | ProxyAuthResponse(signature: Bytes64)
    | ProxyHelloResponse(version: u16)
    | ProxyJoin(joined: usize)
    | ProxyDisconnect(left: usize)
    | ProxyDisconnectAck(acked: usize)
    | ProxyError(message: string)
    | ProxyData(clientId: usize, data: seq<byte>)
    | ProxyPing(ping: u16)
    | ProxyPong(pong: u16)
    | Unknown

  /** Lengths fit the machine's integers, as those of every Rust value do. */
  predicate WellTyped(p: SocketPacket) {
    match p
    case ProxyHello(h) => |EncodeUtf8(h.hostname)| <= USIZE_MAX
    case ProxyError(s) => |EncodeUtf8(s)| <= USIZE_MAX
    case ProxyData(_, data) => |data| <= USIZE_MAX
    case _ => true
  }

  // Writing

  /** The low `width` bytes of `n`, least significant first. */
  function Le(n: nat, width: nat): (r: seq<byte>)
    ensures |r| == width
  {
    if width == 0 then [] else [n % 256] + Le(n / 256, width - 1)
  }

  function EncodeVec(bytes: seq<byte>): seq<byte> {
    Le(|bytes|, 8) + bytes
  }

  function Tag(p: SocketPacket): nat {
    match p
    case ProxyHello(_) => 0
    case ProxyAuthRequest(_) => 1
    case ProxyAuthResponse(_) => 2
    case ProxyHelloResponse(_) => 3
    case ProxyJoin(_) => 4
    case ProxyDisconnect(_) => 5
    case ProxyDisconnectAck(_) => 6
    case ProxyError(_) => 7
    case ProxyData(_, _) => 8
    case ProxyPing(_) => 9
    case ProxyPong(_) => 10
    case Unknown => 11
  }

  function EncodeFields(p: SocketPacket): seq<byte> {
    match p
    case ProxyHello(h) => Le(h.version, 2) + (EncodeVec(EncodeUtf8(h.hostname)) + (Le(0, 4) + h.publicKey))
    case ProxyAuthRequest(c) => c
    case ProxyAuthResponse(s) => s
    case ProxyHelloResponse(v) => Le(v, 2)
    case ProxyJoin(id) => Le(id, 8)
    case ProxyDisconnect(id) => Le(id, 8)
    case ProxyDisconnectAck(id) => Le(id, 8)
    case ProxyError(s) => EncodeVec(EncodeUtf8(s))
    case ProxyData(id, data) => Le(id, 8) + EncodeVec(data)
    case ProxyPing(n) => Le(n, 2)
    case ProxyPong(n) => Le(n, 2)
    case Unknown => []
  }

  function Serialize(p: SocketPacket): seq<byte> {
    Le(Tag(p), 4) + EncodeFields(p)
  }

  // Reading

  /** A field read at a position: its value and the position after it. */
  datatype Field<+T> = Missing | Field(value: T, next: nat)

  function FromLe(s: seq<byte>): (n: nat)
    ensures n < Pow2(8 * |s|)
  {
    if s == [] then 0
    else
      Pow2Eight(8 * |s[1..]|);
      s[0] + 256 * FromLe(s[1..])
  }

  lemma Pow2Eight(k: nat)
    ensures Pow2(k + 8) == 256 * Pow2(k)
  {
    Pow2Seven(k);
  }

  lemma Pow2Widths()
    ensures Pow2(16) == 0x1_0000 && Pow2(32) == 0x1_0000_0000 && Pow2(64) == 0x1_0000_0000_0000_0000
  {
    hide Pow2;
    Pow2Next(0);
    Pow2Eight(0); Pow2Eight(8); Pow2Eight(16); Pow2Eight(24);
    Pow2Eight(32); Pow2Eight(40); Pow2Eight(48); Pow2Eight(56);
  }

  function BytesAt(b: seq<byte>, pos: nat, n: nat): (r: Field<seq<byte>>)
    ensures r.Field? ==> |r.value| == n && r.next == pos + n <= |b|
  {
    if pos + n > |b| then Missing else Field(b[pos..pos + n], pos + n)
  }

  function LeAt(b: seq<byte>, pos: nat, width: nat): (r: Field<nat>)
    ensures r.Field? ==> r.next == pos + width <= |b| && r.value < Pow2(8 * width)
  {
    var bytes := BytesAt(b, pos, width);
    if bytes.Missing? then Missing else Field(FromLe(bytes.value), bytes.next)
  }

  function U16Field(b: seq<byte>, pos: nat): Field<u16> {
    Pow2Widths();
    var r := LeAt(b, pos, 2);
    if r.Missing? then Missing else Field(r.value, r.next)
  }

  function UsizeField(b: seq<byte>, pos: nat): Field<usize> {
    Pow2Widths();
    var r := LeAt(b, pos, 8);
    if r.Missing? then Missing else Field(r.value, r.next)
  }

  function VecAt(b: seq<byte>, pos: nat): Field<seq<byte>> {
    var n := LeAt(b, pos, 8);
    if n.Missing? then Missing else BytesAt(b, n.next, n.value)
  }

  function StringAt(b: seq<byte>, pos: nat): Field<string> {
    var r := VecAt(b, pos);
    if r.Missing? then Missing
    else match DecodeUtf8(r.value)
      case None => Missing
      case Some(s) => Field(s, r.next)
  }

  function MapField<T, U>(f: Field<T>, wrap: T -> U): Field<U> {
    if f.Missing? then Missing else Field(wrap(f.value), f.next)
  }

  function HelloAt(b: seq<byte>, pos: nat): Field<SocketPacket> {
    var version := U16Field(b, pos);
    if version.Missing? then Missing else
    var host := StringAt(b, version.next);
    if host.Missing? then Missing else
    var auth := LeAt(b, host.next, 4);
    if auth.Missing? || auth.value != 0 then Missing else
    var key := BytesAt(b, auth.next, 32);
    if key.Missing? then Missing
    else Field(ProxyHello(ProxyHelloPacket(version.value, host.value, key.value)), key.next)
  }

  function DataAt(b: seq<byte>, pos: nat): Field<SocketPacket> {
    var id := UsizeField(b, pos);
    if id.Missing? then Missing else
    var data := VecAt(b, id.next);
    if data.Missing? then Missing else Field(ProxyData(id.value, data.value), data.next)
  }

  function FieldsAt(b: seq<byte>, pos: nat, tag: nat): Field<SocketPacket> {
    match tag
    case 0 => HelloAt(b, pos)
    case 1 => var r := BytesAt(b, pos, 64); if r.Missing? then Missing else Field(ProxyAuthRequest(r.value), r.next)
    case 2 => var r := BytesAt(b, pos, 64); if r.Missing? then Missing else Field(ProxyAuthResponse(r.value), r.next)
    case 3 => MapField(U16Field(b, pos), v => ProxyHelloResponse(v))
    case 4 => MapField(UsizeField(b, pos), id => ProxyJoin(id))
    case 5 => MapField(UsizeField(b, pos), id => ProxyDisconnect(id))
    case 6 => MapField(UsizeField(b, pos), id => ProxyDisconnectAck(id))
    case 7 => MapField(StringAt(b, pos), s => ProxyError(s))
    case 8 => DataAt(b, pos)
    case 9 => MapField(U16Field(b, pos), n => ProxyPing(n))
    case 10 => MapField(U16Field(b, pos), n => ProxyPong(n))
    case 11 => Field(Unknown, pos)
    case _ => Missing
  }

  /** The packet a body starts with, and where it ends. */
  function Deserialize(b: seq<byte>): Field<SocketPacket> {
    var tag := LeAt(b, 0, 4);
    if tag.Missing? then Missing else FieldsAt(b, tag.next, tag.value)
  }

  // Every field survives

  lemma {:induction false} LeRoundTrip(n: nat, width: nat)
    requires n < Pow2(8 * width)
    ensures FromLe(Le(n, width)) == n
  {
    if width > 0 {
      Pow2Eight(8 * (width - 1));
      LeRoundTrip(n / 256, width - 1);
      assert Le(n, width)[1..] == Le(n / 256, width - 1);
    }
  }

  lemma LeAtRoundTrip(b: seq<byte>, pos: nat, n: nat, width: nat)
    requires n < Pow2(8 * width) && MatchesAt(b, pos, Le(n, width))
    ensures LeAt(b, pos, width) == Field(n, pos + width)
  {
    LeRoundTrip(n, width);
  }

  lemma NumbersRoundTrip(b: seq<byte>, pos: nat)
    ensures forall n: u16 | MatchesAt(b, pos, Le(n, 2)) :: U16Field(b, pos) == Field(n, pos + 2)
    ensures forall n: usize | MatchesAt(b, pos, Le(n, 8)) :: UsizeField(b, pos) == Field(n, pos + 8)
  {
    Pow2Widths();
    forall n: u16 | MatchesAt(b, pos, Le(n, 2)) ensures U16Field(b, pos) == Field(n, pos + 2) {
      LeAtRoundTrip(b, pos, n, 2);
    }
    forall n: usize | MatchesAt(b, pos, Le(n, 8)) ensures UsizeField(b, pos) == Field(n, pos + 8) {
      LeAtRoundTrip(b, pos, n, 8);
    }
  }

  lemma VecRoundTrip(b: seq<byte>, pos: nat, v: seq<byte>)
    requires |v| <= USIZE_MAX && MatchesAt(b, pos, EncodeVec(v))
    ensures VecAt(b, pos) == Field(v, pos + |EncodeVec(v)|)
  {
    Pow2Widths();
    SplitMatch(b, pos, Le(|v|, 8), v);
    LeAtRoundTrip(b, pos, |v|, 8);
  }

  lemma StringRoundTrip(b: seq<byte>, pos: nat, s: string)
    requires |EncodeUtf8(s)| <= USIZE_MAX && MatchesAt(b, pos, EncodeVec(EncodeUtf8(s)))
    ensures StringAt(b, pos) == Field(s, pos + |EncodeVec(EncodeUtf8(s))|)
  {
    hide EncodeVec, VecAt, EncodeUtf8, DecodeUtf8;
    VecRoundTrip(b, pos, EncodeUtf8(s));
    Utf8RoundTrip(s);
  }

  lemma HelloRoundTrip(b: seq<byte>, pos: nat, h: ProxyHelloPacket)
    requires WellTyped(ProxyHello(h)) && MatchesAt(b, pos, EncodeFields(ProxyHello(h)))
    ensures HelloAt(b, pos) == Field(ProxyHello(h), pos + |EncodeFields(ProxyHello(h))|)
  {
    hide EncodeVec, StringAt, EncodeUtf8, LeAt, U16Field;
    var host := EncodeVec(EncodeUtf8(h.hostname));
    SplitMatch(b, pos, Le(h.version, 2), host + (Le(0, 4) + h.publicKey));
    NumbersRoundTrip(b, pos);
    SplitMatch(b, pos + 2, host, Le(0, 4) + h.publicKey);
    StringRoundTrip(b, pos + 2, h.hostname);
    SplitMatch(b, pos + 2 + |host|, Le(0, 4), h.publicKey);
    Pow2Widths();
    LeAtRoundTrip(b, pos + 2 + |host|, 0, 4);
  }

  lemma FieldsRoundTrip(b: seq<byte>, pos: nat, p: SocketPacket)
    requires WellTyped(p) && MatchesAt(b, pos, EncodeFields(p))
    ensures FieldsAt(b, pos, Tag(p)) == Field(p, pos + |EncodeFields(p)|)
  {
    hide HelloAt, EncodeVec, StringAt, VecAt, EncodeUtf8, U16Field, UsizeField;
    NumbersRoundTrip(b, pos);
    match p {
      case ProxyHello(h) => HelloRoundTrip(b, pos, h);
      case ProxyError(s) => StringRoundTrip(b, pos, s);
      case ProxyData(id, data) =>
        SplitMatch(b, pos, Le(id, 8), EncodeVec(data));
        VecRoundTrip(b, pos + 8, data);
      case _ =>
    }
  }

  /** Deserialising what was serialised gives the packet back and ends where it ends. */
  lemma SerializeRoundTrip(p: SocketPacket, suffix: seq<byte>)
    requires WellTyped(p)
    ensures Deserialize(Serialize(p) + suffix) == Field(p, |Serialize(p)|)
  {
    hide EncodeFields, FieldsAt, LeAt;
    var b := Serialize(p) + suffix;
    assert b[0..|Serialize(p)|] == Serialize(p);
    SplitMatch(b, 0, Le(Tag(p), 4), EncodeFields(p));
    Pow2Widths();
    LeAtRoundTrip(b, 0, Tag(p), 4);
    FieldsRoundTrip(b, 4, p);
  }

  // A body that is read does not depend on what follows

  lemma BytesExtend(a: seq<byte>, b: seq<byte>, pos: nat, n: nat)
    requires a <= b && BytesAt(a, pos, n).Field?
    ensures BytesAt(b, pos, n) == BytesAt(a, pos, n)
  {
    assert a[pos..pos + n] == b[pos..pos + n];
  }

  lemma VecExtend(a: seq<byte>, b: seq<byte>, pos: nat)
    requires a <= b && VecAt(a, pos).Field?
    ensures VecAt(b, pos) == VecAt(a, pos) && VecAt(a, pos).next <= |a|
  {
    BytesExtend(a, b, pos, 8);
    var n := LeAt(a, pos, 8);
    BytesExtend(a, b, n.next, n.value);
  }

  lemma HelloExtend(a: seq<byte>, b: seq<byte>, pos: nat)
    requires a <= b && HelloAt(a, pos).Field?
    ensures HelloAt(b, pos) == HelloAt(a, pos) && HelloAt(a, pos).next <= |a|
  {
    hide VecAt, DecodeUtf8;
    BytesExtend(a, b, pos, 2);
    VecExtend(a, b, pos + 2);
    var host := StringAt(a, pos + 2);
    BytesExtend(a, b, host.next, 4);
    BytesExtend(a, b, host.next + 4, 32);
  }

  lemma DataExtend(a: seq<byte>, b: seq<byte>, pos: nat)
    requires a <= b && DataAt(a, pos).Field?
    ensures DataAt(b, pos) == DataAt(a, pos) && DataAt(a, pos).next <= |a|
  {
    hide VecAt;
    BytesExtend(a, b, pos, 8);
    VecExtend(a, b, pos + 8);
  }

  lemma FieldsExtend(a: seq<byte>, b: seq<byte>, pos: nat, tag: nat)
    requires a <= b && pos <= |a| && FieldsAt(a, pos, tag).Field?
    ensures FieldsAt(b, pos, tag) == FieldsAt(a, pos, tag) && FieldsAt(a, pos, tag).next <= |a|
  {
    hide HelloAt, DataAt, VecAt, DecodeUtf8, FromLe;
    match tag {
      case 0 => HelloExtend(a, b, pos);
      case 7 => VecExtend(a, b, pos);
      case 8 => DataExtend(a, b, pos);
      case _ =>
        if BytesAt(a, pos, 2).Field? { BytesExtend(a, b, pos, 2); }
        if BytesAt(a, pos, 8).Field? { BytesExtend(a, b, pos, 8); }
        if BytesAt(a, pos, 64).Field? { BytesExtend(a, b, pos, 64); }
    }
  }

  lemma DeserializeExtend(a: seq<byte>, b: seq<byte>)
    requires a <= b && Deserialize(a).Field?
    ensures Deserialize(b) == Deserialize(a) && Deserialize(a).next <= |a|
  {
    hide FieldsAt, FromLe;
    BytesExtend(a, b, 0, 4);
    FieldsExtend(a, b, 4, LeAt(a, 0, 4).value);
  }

  /** A serialised body cut short is never read as a packet. */
  lemma TruncatedBody(p: SocketPacket, n: nat)
    requires WellTyped(p) && n < |Serialize(p)|
    ensures Deserialize(Serialize(p)[..n]).Missing?
  {
    hide Serialize, Deserialize;
    var body := Serialize(p);
    assert body + [] == body;
    SerializeRoundTrip(p, []);
    if Deserialize(body[..n]).Field? {
      DeserializeExtend(body[..n], body);
      assert false;
    }
  }

  // The bytes of a body

  /** The least significant byte comes first. */
  lemma LeBytes(n: nat, width: nat)
    requires width > 0
    ensures Le(n, width)[0] == n % 256 && Le(n, width)[1..] == Le(n / 256, width - 1)
    ensures Le(n, 1) == [n % 256] && Le(n, 2) == [n % 256, n / 256 % 256]
  {
  }

  lemma TagBytes(tag: byte)
    ensures Le(tag, 4) == [tag, 0, 0, 0]
  {
    LeBytes(tag, 4);
    LeBytes(0, 3);
    LeBytes(0, 2);
  }

  /** The variant number, in declaration order, and then the fields. */
  lemma Layout(p: SocketPacket)
    ensures match p
            case ProxyHello(h) =>
              var host := EncodeUtf8(h.hostname);
              Serialize(p) ==
              [0, 0, 0, 0] + (Le(h.version, 2) + ((Le(|host|, 8) + host) + ([0, 0, 0, 0] + h.publicKey)))
            case ProxyAuthRequest(challenge) => Serialize(p) == [1, 0, 0, 0] + challenge
            case ProxyAuthResponse(signature) => Serialize(p) == [2, 0, 0, 0] + signature
            case ProxyHelloResponse(version) => Serialize(p) == [3, 0, 0, 0] + Le(version, 2)
            case ProxyJoin(id) => Serialize(p) == [4, 0, 0, 0] + Le(id, 8)
            case ProxyDisconnect(id) => Serialize(p) == [5, 0, 0, 0] + Le(id, 8)
            case ProxyDisconnectAck(id) => Serialize(p) == [6, 0, 0, 0] + Le(id, 8)
            case ProxyError(m) => Serialize(p) == [7, 0, 0, 0] + (Le(|EncodeUtf8(m)|, 8) + EncodeUtf8(m))
            case ProxyData(id, data) => Serialize(p) == [8, 0, 0, 0] + (Le(id, 8) + (Le(|data|, 8) + data))
            case ProxyPing(n) => Serialize(p) == [9, 0, 0, 0] + Le(n, 2)
            case ProxyPong(n) => Serialize(p) == [10, 0, 0, 0] + Le(n, 2)
            case Unknown => Serialize(p) == [11, 0, 0, 0]
  {
    TagBytes(Tag(p));
    TagBytes(0);
    hide Le, EncodeUtf8;
  }

  // A body is read only if it is one

  lemma {:induction false} LeExact(s: seq<byte>)
    ensures Le(FromLe(s), |s|) == s
  {
    if s != [] {
      LeExact(s[1..]);
      assert FromLe(s) % 256 == s[0] && FromLe(s) / 256 == FromLe(s[1..]);
    }
  }

  lemma LeAtExact(b: seq<byte>, pos: nat, width: nat)
    requires LeAt(b, pos, width).Field?
    ensures MatchesAt(b, pos, Le(LeAt(b, pos, width).value, width))
  {
    LeExact(b[pos..pos + width]);
  }

  lemma VecAtExact(b: seq<byte>, pos: nat)
    requires VecAt(b, pos).Field?
    ensures var v := VecAt(b, pos);
            && |v.value| <= USIZE_MAX && v.next == pos + 8 + |v.value| <= |b|
            && b[pos..pos + 8] == Le(|v.value|, 8) && b[pos + 8..v.next] == v.value
  {
    hide FromLe, Le, Pow2;
    Pow2Widths();
    LeAtExact(b, pos, 8);
  }

  lemma StringAtExact(b: seq<byte>, pos: nat)
    requires StringAt(b, pos).Field?
    ensures var f := StringAt(b, pos);
            && |EncodeUtf8(f.value)| <= USIZE_MAX && f.next == pos + 8 + |EncodeUtf8(f.value)| <= |b|
            && b[pos..pos + 8] == Le(|EncodeUtf8(f.value)|, 8) && b[pos + 8..f.next] == EncodeUtf8(f.value)
  {
    hide VecAt, EncodeUtf8, DecodeUtf8;
    VecAtExact(b, pos);
    Utf8Exact(VecAt(b, pos).value);
  }

  lemma JoinSlices(b: seq<byte>, i: nat, j: nat, k: nat)
    requires i <= j <= k <= |b|
    ensures b[i..k] == b[i..j] + b[j..k]
  {
  }

  lemma HelloParts(b: seq<byte>, pos: nat)
    requires HelloAt(b, pos).Field?
    ensures var f, host := HelloAt(b, pos), StringAt(b, pos + 2);
            && f.value.ProxyHello? && host.Field? && f.value.hello.hostname == host.value
            && LeAt(b, pos, 2).Field? && f.value.hello.version == LeAt(b, pos, 2).value
            && LeAt(b, host.next, 4) == Field(0, host.next + 4)
            && f.next == host.next + 36 <= |b| && f.value.hello.publicKey == b[host.next + 4..f.next]
  {
    hide StringAt;
  }

  lemma HelloExact(b: seq<byte>, pos: nat)
    requires HelloAt(b, pos).Field?
    ensures var f := HelloAt(b, pos);
            && WellTyped(f.value) && pos <= f.next <= |b| && f.value.ProxyHello?
            && b[pos..f.next] == EncodeFields(f.value)
  {
    HelloParts(b, pos);
    LeAtExact(b, pos, 2);
    StringAtExact(b, pos + 2);
    var f, host := HelloAt(b, pos), StringAt(b, pos + 2).next;
    LeAtExact(b, host, 4);
    hide HelloAt, StringAt, EncodeUtf8, Le, LeAt;
    JoinSlices(b, pos + 2, pos + 10, host);
    HelloBytes(b, pos, host, f.next, f.value.hello);
  }

  lemma HelloBytes(b: seq<byte>, pos: nat, host: nat, next: nat, h: ProxyHelloPacket)
    requires pos + 2 <= host && host + 4 <= next <= |b|
    requires b[pos..pos + 2] == Le(h.version, 2) && b[pos + 2..host] == EncodeVec(EncodeUtf8(h.hostname))
    requires b[host..host + 4] == Le(0, 4) && b[host + 4..next] == h.publicKey
    ensures b[pos..next] == EncodeFields(ProxyHello(h))
  {
    hide EncodeUtf8, Le, EncodeVec;
    JoinSlices(b, pos, pos + 2, next);
    JoinSlices(b, pos + 2, host, next);
    JoinSlices(b, host, host + 4, next);
  }

  lemma DataExact(b: seq<byte>, pos: nat)
    requires DataAt(b, pos).Field?
    ensures var f := DataAt(b, pos);
            && WellTyped(f.value) && pos <= f.next <= |b| && f.value.ProxyData?
            && b[pos..f.next] == EncodeFields(f.value)
  {
    hide VecAt, FromLe, Le;
    var next := DataAt(b, pos).next;
    LeAtExact(b, pos, 8);
    VecAtExact(b, pos + 8);
    JoinSlices(b, pos, pos + 8, next);
    JoinSlices(b, pos + 8, pos + 16, next);
  }

  lemma NumberExact(b: seq<byte>, pos: nat)
    ensures U16Field(b, pos).Field? ==> pos + 2 <= |b| && b[pos..pos + 2] == Le(U16Field(b, pos).value, 2)
    ensures UsizeField(b, pos).Field? ==> pos + 8 <= |b| && b[pos..pos + 8] == Le(UsizeField(b, pos).value, 8)
  {
    if LeAt(b, pos, 2).Field? { LeAtExact(b, pos, 2); }
    if LeAt(b, pos, 8).Field? { LeAtExact(b, pos, 8); }
  }

  lemma FieldsExact(b: seq<byte>, pos: nat, tag: nat)
    requires pos <= |b| && FieldsAt(b, pos, tag).Field?
    ensures var f := FieldsAt(b, pos, tag);
            && WellTyped(f.value) && Tag(f.value) == tag && pos <= f.next <= |b|
            && b[pos..f.next] == EncodeFields(f.value)
  {
    hide HelloAt, DataAt, StringAt, VecAt, EncodeUtf8, FromLe, Le, LeAt;
    NumberExact(b, pos);
    match tag {
      case 0 => HelloExact(b, pos);
      case 7 =>
        StringAtExact(b, pos);
        JoinSlices(b, pos, pos + 8, StringAt(b, pos).next);
      case 8 => DataExact(b, pos);
      case _ =>
    }
  }

  /** A body is read as a packet exactly if it begins with what the packet is serialised to. */
  lemma DeserializeExactly(b: seq<byte>, p: SocketPacket)
    requires WellTyped(p)
    ensures Deserialize(b) == Field(p, |Serialize(p)|) <==> Serialize(p) <= b
    ensures Deserialize(b).Field? ==> WellTyped(Deserialize(b).value) && Serialize(Deserialize(b).value) <= b
    ensures Deserialize(b).Field? ==> Deserialize(b).next == |Serialize(Deserialize(b).value)|
  {
    if Serialize(p) <= b {
      SerializeRoundTrip(p, b[|Serialize(p)|..]);
      assert b == Serialize(p) + b[|Serialize(p)|..];
    }
    if Deserialize(b).Field? { BodyExact(b); }
  }

  lemma BodyExact(b: seq<byte>)
    requires Deserialize(b).Field?
    ensures var f := Deserialize(b);
            WellTyped(f.value) && Serialize(f.value) <= b && f.next == |Serialize(f.value)|
  {
    hide FieldsAt, EncodeFields, FromLe, Le;
    var f := Deserialize(b);
    LeAtExact(b, 0, 4);
    FieldsExact(b, 4, LeAt(b, 0, 4).value);
    JoinSlices(b, 0, 4, f.next);
    assert b[..f.next] == b[0..f.next];
  }
}
