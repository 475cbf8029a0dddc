/** The incremental parser of the first packet a Minecraft client sends. */
module Minecraft {
  import opened Basics
  import opened Datatypes
  import opened Unicode
  import opened Cursor
  import opened Bytes

  const OLD_MINECRAFT_START: seq<byte> := [
    0xFE, 0x01, 0xFA, 0x00, 0x0B, 0x00, 0x4D, 0x00, 0x43, 0x00, 0x7C, 0x00, 0x50, 0x00, 0x69, 0x00,
    0x6E, 0x00, 0x67, 0x00, 0x48, 0x00, 0x6F, 0x00, 0x73, 0x00, 0x74
  ]

  const FORGE_STRING: string := "\0FORGE"

  datatype PacketType = Legacy | Ping | Connect | UnknownType

  datatype HelloPacket = HelloPacket(
    length: nat, pkgType: PacketType, id: i32, version: i32, hostname: string, forge: bool, port: u32)

  // What the three grammars accept

  function TypeOfState(state: i32): PacketType {
    match state
    case 1 => Ping
    case 2 => Connect
    case _ => UnknownType
  }

  predicate EndsWith(s: string, suffix: string) {
    |s| >= |suffix| && s[|s| - |suffix|..] == suffix
  }

  /** Everything before the first NUL. */
  function BeforeNul(s: string): string {
    if s == [] || s[0] == '\0' then [] else [s[0]] + BeforeNul(s[1..])
  }

  function ParseOldPing(d: seq<byte>): Verdict<HelloPacket> {
    if |d| < 27 then Incomplete
    else if !MatchesAt(d, 0, OLD_MINECRAFT_START) then Malformed(NotValid)
    else if |d| < 30 then Incomplete
    else
      var host := Utf16StringAt(d, 30);
      match host.verdict
      case Incomplete => Incomplete
      case Malformed(e) => Malformed(e)
      case Parsed(s) =>
        if 7 + 2 * |EncodeUtf8(s)| != U16At(d, 27) then Malformed(NotValid)
        else if |d| - host.next < 4 then Incomplete
        else Parsed(HelloPacket(host.next + 4, Legacy, 0, d[29], s, false, U32At(d, host.next)))
  }

  function ParseOldConnect(d: seq<byte>): Verdict<HelloPacket> {
    if !MatchesAt(d, 0, [0x02]) then Malformed(NotMatching)
    else if |d| < 2 then Incomplete
    else
      var user := Utf16StringAt(d, 2);
      match user.verdict
      case Incomplete => Incomplete
      case Malformed(e) => Malformed(e)
      case Parsed(_) =>
        var host := Utf16StringAt(d, user.next);
        match host.verdict
        case Incomplete => Incomplete
        case Malformed(e) => Malformed(e)
        case Parsed(s) =>
          if |d| - host.next < 4 then Incomplete
          else Parsed(HelloPacket(host.next + 4, Legacy, 0, d[1], s, false, U32At(d, host.next)))
  }

  // A modern handshake, one field at a time

  function HandshakeState(d: seq<byte>, pos: nat, version: i32, host: string, port: u16): Verdict<HelloPacket>
    requires pos <= |d|
  {
    var state := VarintAt(d, pos);
    match state.verdict
    case Incomplete => Incomplete
    case Malformed(e) => Malformed(e)
    case Parsed(n) =>
      Parsed(HelloPacket(
               state.next, TypeOfState(n), 0, version, BeforeNul(host), EndsWith(host, FORGE_STRING), port))
  }

  function HandshakePort(d: seq<byte>, pos: nat, pkgLength: i32, version: i32, host: string): Verdict<HelloPacket>
    requires pos <= |d|
  {
    if |d| - pos < 2 then Incomplete
    else if pos + 2 != SignExtend(pkgLength) then Malformed(NotValid)
    else HandshakeState(d, pos + 2, version, host, U16At(d, pos))
  }

  function HandshakeHost(d: seq<byte>, pos: nat, pkgLength: i32, version: i32): Verdict<HelloPacket>
    requires pos <= |d|
  {
    var host := Utf8StringAt(d, pos);
    match host.verdict
    case Incomplete => Incomplete
    case Malformed(e) => Malformed(e)
    case Parsed(s) => HandshakePort(d, host.next, pkgLength, version, s)
  }

  function HandshakeVersion(d: seq<byte>, pos: nat, pkgLength: i32): Verdict<HelloPacket>
    requires pos <= |d|
  {
    var version := VarintAt(d, pos);
    match version.verdict
    case Incomplete => Incomplete
    case Malformed(e) => Malformed(e)
    case Parsed(v) => HandshakeHost(d, version.next, pkgLength, v)
  }

  function HandshakeId(d: seq<byte>, pos: nat, pkgLength: i32): Verdict<HelloPacket>
    requires pos <= |d|
  {
    var id := VarintAt(d, pos);
    match id.verdict
    case Incomplete => Incomplete
    case Malformed(e) => Malformed(e)
    case Parsed(n) => if n != 0 then Malformed(NotMatching) else HandshakeVersion(d, id.next, pkgLength)
  }

  function ParseHandshake(d: seq<byte>): Verdict<HelloPacket> {
    var length := VarintAt(d, 0);
    match length.verdict
    case Incomplete => Incomplete
    case Malformed(e) => Malformed(e)
    case Parsed(n) => HandshakeId(d, length.next, n)
  }

  function ParseHello(d: seq<byte>): Verdict<HelloPacket> {
    if |d| < 2 then Incomplete
    else if MatchesAt(d, 0, OLD_MINECRAFT_START[..2]) then ParseOldPing(d)
    else if MatchesAt(d, 0, [0x02]) then ParseOldConnect(d)
    else ParseHandshake(d)
  }

  // The verdict is stable, and a packet depends on its own bytes alone

  /** The answers on a shorter buffer and on an extension of it agree as an incremental parser's must. */
  ghost predicate Agree(a: seq<byte>, v: Verdict<HelloPacket>, b: seq<byte>, w: Verdict<HelloPacket>, pos: nat) {
    && (!v.Incomplete? ==> w == v)
    && (w.Parsed? ==> pos < w.value.length <= |b|)
    && (w.Parsed? && w.value.length <= |a| ==> v == w)
  }

  /** The same for one field; `slack` is how far the reader looks beyond what it takes. */
  ghost predicate FieldAgree<T>(a: seq<byte>, r: Read<T>, b: seq<byte>, s: Read<T>, pos: nat, slack: nat) {
    && (!r.verdict.Incomplete? ==> s == r)
    && (s.verdict.Parsed? ==> pos < s.next <= |b|)
    && (s.verdict.Parsed? && s.next + slack <= |a| ==> r == s)
    && (r.verdict.Parsed? ==> r.next <= |a|)
  }

  lemma VarintAgree(a: seq<byte>, b: seq<byte>, pos: nat)
    requires a <= b && pos <= |a|
    ensures FieldAgree(a, VarintAt(a, pos), b, VarintAt(b, pos), pos, 0)
  {
    VarintWindow(a, b, pos);
    VarintVerdicts(a, pos);
    VarintVerdicts(b, pos);
  }

  lemma Utf8Agree(a: seq<byte>, b: seq<byte>, pos: nat)
    requires a <= b && pos <= |a|
    ensures FieldAgree(a, Utf8StringAt(a, pos), b, Utf8StringAt(b, pos), pos, 0)
  {
    Utf8StringWindow(a, b, pos);
    VarintVerdicts(a, pos);
    VarintVerdicts(b, pos);
  }

  lemma Utf16Agree(a: seq<byte>, b: seq<byte>, pos: nat)
    requires a <= b && pos <= |a|
    ensures FieldAgree(a, Utf16StringAt(a, pos), b, Utf16StringAt(b, pos), pos, 1)
  {
    Utf16StringWindow(a, b, pos);
  }

  lemma OldPingWindow(a: seq<byte>, b: seq<byte>)
    requires a <= b
    ensures Agree(a, ParseOldPing(a), b, ParseOldPing(b), 0)
  {
    hide Utf16StringAt;
    if |a| >= 27 {
      assert a[0..27] == b[0..27];
    }
    if |a| >= 30 {
      Utf16Agree(a, b, 30);
    } else if |b| >= 30 {
      Utf16Agree(b, b, 30);
    }
  }

  lemma OldConnectWindow(a: seq<byte>, b: seq<byte>)
    requires a <= b && a != []
    ensures Agree(a, ParseOldConnect(a), b, ParseOldConnect(b), 0)
  {
    hide Utf16StringAt;
    assert a[0..1] == b[0..1];
    if |a| >= 2 {
      Utf16Agree(a, b, 2);
    }
    if |b| >= 2 {
      Utf16Agree(b, b, 2);
      var user := Utf16StringAt(b, 2);
      if user.verdict.Parsed? {
        Utf16Agree(b, b, user.next);
        if |a| >= 2 && user.next <= |a| {
          Utf16Agree(a, b, user.next);
        }
      }
    }
  }

  lemma HandshakeStateWindow(a: seq<byte>, b: seq<byte>, pos: nat, version: i32, host: string, port: u16)
    requires a <= b && pos <= |a|
    ensures Agree(a, HandshakeState(a, pos, version, host, port), b, HandshakeState(b, pos, version, host, port), pos)
  {
    hide VarintAt, TypeOfState, BeforeNul, EndsWith;
    VarintAgree(a, b, pos);
  }

  lemma HandshakePortWindow(a: seq<byte>, b: seq<byte>, pos: nat, pkgLength: i32, version: i32, host: string)
    requires a <= b && pos <= |a|
    ensures Agree(a, HandshakePort(a, pos, pkgLength, version, host),
                  b, HandshakePort(b, pos, pkgLength, version, host), pos)
  {
    hide HandshakeState;
    if |b| - pos >= 2 {
      HandshakeStateWindow(b, b, pos + 2, version, host, U16At(b, pos));
    }
    if |a| - pos >= 2 {
      HandshakeStateWindow(a, b, pos + 2, version, host, U16At(b, pos));
    }
  }

  lemma HandshakeHostWindow(a: seq<byte>, b: seq<byte>, pos: nat, pkgLength: i32, version: i32)
    requires a <= b && pos <= |a|
    ensures Agree(a, HandshakeHost(a, pos, pkgLength, version), b, HandshakeHost(b, pos, pkgLength, version), pos)
  {
    hide HandshakePort, Utf8StringAt;
    Utf8Agree(a, b, pos);
    var host := Utf8StringAt(b, pos);
    if host.verdict.Parsed? {
      HandshakePortWindow(b, b, host.next, pkgLength, version, host.verdict.value);
      if host.next <= |a| {
        HandshakePortWindow(a, b, host.next, pkgLength, version, host.verdict.value);
      }
    }
  }

  lemma HandshakeVersionWindow(a: seq<byte>, b: seq<byte>, pos: nat, pkgLength: i32)
    requires a <= b && pos <= |a|
    ensures Agree(a, HandshakeVersion(a, pos, pkgLength), b, HandshakeVersion(b, pos, pkgLength), pos)
  {
    hide HandshakeHost, VarintAt;
    VarintAgree(a, b, pos);
    var version := VarintAt(b, pos);
    if version.verdict.Parsed? {
      HandshakeHostWindow(b, b, version.next, pkgLength, version.verdict.value);
      if version.next <= |a| {
        HandshakeHostWindow(a, b, version.next, pkgLength, version.verdict.value);
      }
    }
  }

  lemma HandshakeIdWindow(a: seq<byte>, b: seq<byte>, pos: nat, pkgLength: i32)
    requires a <= b && pos <= |a|
    ensures Agree(a, HandshakeId(a, pos, pkgLength), b, HandshakeId(b, pos, pkgLength), pos)
  {
    hide HandshakeVersion, VarintAt;
    VarintAgree(a, b, pos);
    var id := VarintAt(b, pos);
    if id.verdict.Parsed? {
      HandshakeVersionWindow(b, b, id.next, pkgLength);
      if id.next <= |a| {
        HandshakeVersionWindow(a, b, id.next, pkgLength);
      }
    }
  }

  lemma HandshakeWindow(a: seq<byte>, b: seq<byte>)
    requires a <= b
    ensures Agree(a, ParseHandshake(a), b, ParseHandshake(b), 0)
  {
    hide HandshakeId, VarintAt;
    VarintAgree(a, b, 0);
    var length := VarintAt(b, 0);
    if length.verdict.Parsed? {
      HandshakeIdWindow(b, b, length.next, length.verdict.value);
      if length.next <= |a| {
        HandshakeIdWindow(a, b, length.next, length.verdict.value);
      }
    }
  }

  lemma HelloWindow(a: seq<byte>, b: seq<byte>)
    requires a <= b
    ensures Agree(a, ParseHello(a), b, ParseHello(b), 0)
  {
    hide ParseHandshake, ParseOldPing, ParseOldConnect;
    OldPingWindow(b, b);
    HandshakeWindow(b, b);
    if |b| >= 2 { OldConnectWindow(b, b); }
    if |a| >= 2 {
      assert a[0..2] == b[0..2] && a[0..1] == b[0..1];
      OldPingWindow(a, b);
      OldConnectWindow(a, b);
      HandshakeWindow(a, b);
    } else if ParseHello(b).Parsed? {
      ShortestHello(b);
    }
  }

  /** No grammar accepts a single byte. */
  lemma ShortestHello(b: seq<byte>)
    requires ParseHello(b).Parsed?
    ensures ParseHello(b).value.length >= 2
  {
    var one := b[..1];
    OldPingWindow(one, b);
    OldConnectWindow(one, b);
    HandshakeWindow(one, b);
  }

  /** Once the parser has answered, no further byte changes the answer. */
  lemma VerdictStable(d: seq<byte>, more: seq<byte>)
    requires !ParseHello(d).Incomplete?
    ensures ParseHello(d + more) == ParseHello(d)
  {
    HelloWindow(d, d + more);
  }

  /**
   A packet takes exactly its own bytes: they lie inside the buffer, they parse
   alone to the same packet, and no shorter prefix has an answer yet.
   */
  lemma ExactConsumption(d: seq<byte>)
    requires ParseHello(d).Parsed?
    ensures var p := ParseHello(d).value;
            && 0 < p.length <= |d|
            && ParseHello(d[..p.length]) == Parsed(p)
            && forall k | 0 <= k < p.length :: ParseHello(d[..k]).Incomplete?
  {
    var p := ParseHello(d).value;
    HelloWindow(d, d);
    HelloWindow(d[..p.length], d);
    forall k | 0 <= k < p.length
      ensures ParseHello(d[..k]).Incomplete?
    {
      HelloWindow(d[..k], d);
      HelloWindow(d[..k], d[..k]);
    }
  }

  // Printing and parsing a modern handshake

  /** `from_packet_without_len`: the content behind its length. */
  function WithLength(content: seq<byte>): seq<byte> {
    EncodeVarint(|content| % 0x1_0000_0000) + content
  }

  function HandshakeBody(version: i32, host: string, port: u16, state: i32): seq<byte> {
    EncodeVarint(0) + (EncodeVarint(ToU32(version)) + HandshakeTail(host, port, state))
  }

  function EncodeHandshake(version: i32, host: string, port: u16, state: i32): seq<byte> {
    WithLength(HandshakeBody(version, host, port, state))
  }

  lemma Utf8StringLength(s: string)
    ensures |EncodeUtf8String(s)| >= 1 + |EncodeUtf8(s)|
  {
  }

  lemma HandshakeTailParses(d: seq<byte>, pos: nat, pkgLength: i32, version: i32, host: string, port: u16, state: i32)
    requires |EncodeUtf8(host)| < 0x8000_0000
    requires MatchesAt(d, pos, HandshakeTail(host, port, state))
    ensures HandshakeHost(d, pos, pkgLength, version) ==
            var stateAt := pos + |EncodeUtf8String(host)| + 2;
            if stateAt == SignExtend(pkgLength) then
              Parsed(HelloPacket(stateAt + |EncodeVarint(ToU32(state))|, TypeOfState(state), 0, version,
                                 BeforeNul(host), EndsWith(host, FORGE_STRING), port))
            else Malformed(NotValid)
  {
    hide Utf8StringAt, VarintAt, EncodeUtf8String, TypeOfState, BeforeNul, EndsWith;
    var s, e := EncodeUtf8String(host), EncodeVarint(ToU32(state));
    SplitMatch(d, pos, s, Be16(port) + e);
    Utf8StringRoundTrip(d, pos, host);
    SplitMatch(d, pos + |s|, Be16(port), e);
    Be16At(d, pos + |s|, port);
    VarintRoundTrip(d, pos + |s| + 2, state);
  }

  function HandshakeTail(host: string, port: u16, state: i32): seq<byte> {
    EncodeUtf8String(host) + (Be16(port) + EncodeVarint(ToU32(state)))
  }

  lemma HandshakeHead(d: seq<byte>, version: i32, tail: seq<byte>, body: seq<byte>)
    requires body == EncodeVarint(0) + (EncodeVarint(ToU32(version)) + tail)
    requires |body| < 0x8000_0000 && MatchesAt(d, 0, EncodeVarint(|body|) + body)
    ensures var next := |EncodeVarint(|body|)| + 1 + |EncodeVarint(ToU32(version))|;
            MatchesAt(d, next, tail) && ParseHandshake(d) == HandshakeHost(d, next, |body|, version)
  {
    hide VarintAt, EncodeVarint, HandshakeHost, HandshakeId, MatchesAt;
    var l := EncodeVarint(|body|);
    SplitMatch(d, 0, l, body);
    VarintRoundTrip(d, 0, |body|);
    HandshakeFields(d, |l|, |body|, version, tail);
  }

  lemma HandshakeBodyLength(version: i32, host: string, port: u16, state: i32)
    ensures HandshakeBody(version, host, port, state) ==
            EncodeVarint(0) + (EncodeVarint(ToU32(version)) + HandshakeTail(host, port, state))
    ensures |HandshakeBody(version, host, port, state)| ==
            3 + |EncodeVarint(ToU32(version))| + |EncodeUtf8String(host)| + |EncodeVarint(ToU32(state))|
  {
    assert |EncodeVarint(0)| == 1;
    hide EncodeVarint, EncodeUtf8String;
  }

  lemma HandshakeParses(d: seq<byte>, version: i32, host: string, port: u16, state: i32)
    requires |HandshakeBody(version, host, port, state)| < 0x8000_0000
    requires MatchesAt(d, 0, EncodeHandshake(version, host, port, state))
    ensures ParseHandshake(d) ==
            var body := |HandshakeBody(version, host, port, state)|;
            if |EncodeVarint(body)| == |EncodeVarint(ToU32(state))| then
              Parsed(HelloPacket(|EncodeVarint(body)| + body, TypeOfState(state), 0, version,
                                 BeforeNul(host), EndsWith(host, FORGE_STRING), port))
            else Malformed(NotValid)
  {
    HandshakeBodyLength(version, host, port, state);
    hide HandshakeBody, HandshakeTail, MatchesAt, EncodeVarint, EncodeUtf8String, EncodeUtf8;
    hide TypeOfState, BeforeNul, EndsWith, HandshakeHost, ParseHandshake;
    var tail := HandshakeTail(host, port, state);
    var body := |HandshakeBody(version, host, port, state)|;
    HandshakeHead(d, version, tail, HandshakeBody(version, host, port, state));
    Utf8StringLength(host);
    HandshakeTailParses(d, |EncodeVarint(body)| + 1 + |EncodeVarint(ToU32(version))|, body, version, host, port, state);
  }

  /** A zero packet id and a version lead on to the hostname. */
  lemma HandshakeFields(d: seq<byte>, pos: nat, pkgLength: i32, version: i32, tail: seq<byte>)
    requires MatchesAt(d, pos, EncodeVarint(0) + (EncodeVarint(ToU32(version)) + tail))
    ensures var next := pos + 1 + |EncodeVarint(ToU32(version))|;
            MatchesAt(d, next, tail) && HandshakeId(d, pos, pkgLength) == HandshakeHost(d, next, pkgLength, version)
  {
    hide VarintAt, HandshakeHost;
    var v := EncodeVarint(ToU32(version));
    SplitMatch(d, pos, EncodeVarint(0), v + tail);
    VarintRoundTrip(d, pos, 0);
    SplitMatch(d, pos + 1, v, tail);
    VarintRoundTrip(d, pos + 1, version);
  }

  /** The smallest handshake body is six bytes, and a body of 254 is the one whose length reads as FE 01. */
  lemma HandshakeStart(version: i32, host: string, port: u16, state: i32)
    requires |HandshakeBody(version, host, port, state)| < 0x8000_0000
    ensures var body := HandshakeBody(version, host, port, state);
            var e := EncodeHandshake(version, host, port, state);
            && |body| >= 6 && |e| == |EncodeVarint(|body|)| + |body|
            && e[0] != 0x02
            && (e[0] == 0xFE && e[1] == 0x01 <==> |body| == 254)
            && (|body| == 254 ==> e[2] == 0x00)
  {
    hide EncodeUtf8String;
    var body := HandshakeBody(version, host, port, state);
    var n := |body|;
    assert EncodeVarint(0) == [0];
    assert |EncodeUtf8String(host)| >= 1 by { Utf8StringLength(host); }
    assert body[0] == 0;
    var l := EncodeVarint(n);
    assert n < 0x80 ==> l == [n];
    assert n >= 0x80 ==> l == [n % 128 + 0x80] + EncodeVarint(n / 128);
    assert 0x80 <= n < 0x4000 ==> EncodeVarint(n / 128) == [n / 128];
    assert n >= 0x4000 ==> EncodeVarint(n / 128)[0] == n / 128 % 128 + 0x80;
    assert EncodeHandshake(version, host, port, state) == l + body;
  }

  /** True exactly when the parser takes a canonically printed handshake. */
  predicate HandshakeAccepted(version: i32, host: string, port: u16, state: i32) {
    var body := |HandshakeBody(version, host, port, state)|;
    && body < 0x8000_0000
    && |EncodeVarint(body)| == |EncodeVarint(ToU32(state))|
    && body != 254
  }

  /**
   Parsing a printed handshake, whatever follows it. The length field is
   compared with the position after the port, so it has to take as many bytes
   as the next-state field; and a 254-byte body is taken for a legacy ping.
   Otherwise every field comes back: 1 asks for the status, 2 logs in, and any
   other next state is of no known type.
   */
  lemma HandshakeRoundTrip(version: i32, host: string, port: u16, state: i32, suffix: seq<byte>)
    requires |HandshakeBody(version, host, port, state)| < 0x8000_0000
    ensures var e := EncodeHandshake(version, host, port, state);
            ParseHello(e + suffix) ==
            if HandshakeAccepted(version, host, port, state) then
              Parsed(HelloPacket(|e|, if state == 1 then Ping else if state == 2 then Connect else UnknownType,
                                 0, version, BeforeNul(host), EndsWith(host, FORGE_STRING), port))
            else Malformed(NotValid)
  {
    hide HandshakeBody, EncodeHandshake, ParseHandshake, BeforeNul, EndsWith;
    var e := EncodeHandshake(version, host, port, state);
    var d := e + suffix;
    HandshakeStart(version, host, port, state);
    assert d[0..|e|] == e;
    HandshakeParses(d, version, host, port, state);
    assert d[0..2] == [d[0], d[1]] && d[0..1] == [d[0]];
    assert OLD_MINECRAFT_START[..2] == [0xFE, 0x01];
    if |HandshakeBody(version, host, port, state)| == 254 {
      EncodeVarintAtMostFive(254);
      assert d[0..27][2] == e[2] != OLD_MINECRAFT_START[2];
    }
  }

  /** For a ping or a login the condition is a body of at most 127 bytes. */
  lemma ShortHandshakeAccepted(version: i32, host: string, port: u16, state: i32)
    requires state == 1 || state == 2
    ensures HandshakeAccepted(version, host, port, state) <==> |HandshakeBody(version, host, port, state)| <= 127
  {
    hide HandshakeBody;
    var body := |HandshakeBody(version, host, port, state)|;
    assert EncodeVarint(ToU32(state)) == [state];
    if 127 < body < 0x8000_0000 {
      assert EncodeVarint(body) == [body % 128 + 0x80] + EncodeVarint(body / 128);
    }
  }

  lemma ShortVarint(n: u32)
    requires n < 0x4000
    ensures |EncodeVarint(n)| == if n < 128 then 1 else 2
  {
    assert EncodeVarint(n / 128) == [n / 128];
  }

  lemma LettersBody(n: nat, state: i32)
    requires n < 0x4000
    ensures |HandshakeBody(1, Letters(n), 25565, state)| ==
            4 + |EncodeVarint(n)| + n + |EncodeVarint(ToU32(state))|
  {
    hide HandshakeBody, EncodeVarint, EncodeUtf8, EncodeUtf16;
    LettersTakeOne(n);
    HandshakeBodyLength(1, Letters(n), 25565, state);
    ShortVarint(1);
  }

  /** A login with a body of 128 bytes: the length field takes two bytes, the next state one. */
  lemma RefusedLogin()
    ensures |HandshakeBody(1, Letters(122), 25565, 2)| == 128
    ensures ParseHello(EncodeHandshake(1, Letters(122), 25565, 2)) == Malformed(NotValid)
  {
    hide HandshakeBody, EncodeHandshake, ParseHello;
    LettersBody(122, 2);
    ShortVarint(122);
    ShortVarint(2);
    ShortHandshakeAccepted(1, Letters(122), 25565, 2);
    HandshakeRoundTrip(1, Letters(122), 25565, 2, []);
    var e := EncodeHandshake(1, Letters(122), 25565, 2);
    assert e + [] == e;
  }

  /** A body of 254 bytes whose two fields do take the same room is refused as well: it begins like a legacy ping. */
  lemma RefusedAsLegacyPing()
    ensures var body := |HandshakeBody(1, Letters(246), 25565, 128)|;
            body == 254 && |EncodeVarint(body)| == |EncodeVarint(ToU32(128))|
    ensures ParseHello(EncodeHandshake(1, Letters(246), 25565, 128)) == Malformed(NotValid)
  {
    hide HandshakeBody, EncodeHandshake, ParseHello;
    LettersBody(246, 128);
    ShortVarint(246);
    ShortVarint(128);
    ShortVarint(254);
    HandshakeRoundTrip(1, Letters(246), 25565, 128, []);
    var e := EncodeHandshake(1, Letters(246), 25565, 128);
    assert e + [] == e;
  }

  predicate NulFree(s: string) {
    forall i | 0 <= i < |s| :: s[i] != '\0'
  }

  /** The name is cut at the first NUL, wherever others follow. */
  lemma {:induction false} CutAtFirstNul(host: string, rest: string)
    requires NulFree(host)
    ensures BeforeNul(host + "\0" + rest) == host
  {
    var s := host + "\0" + rest;
    if host != [] {
      CutAtFirstNul(host[1..], rest);
      assert s[1..] == host[1..] + "\0" + rest && s[0] == host[0];
    }
  }

  /** The flag is set exactly for names that end in the marker. */
  lemma MarkedExactly(s: string)
    ensures EndsWith(s, FORGE_STRING) <==> exists front: string :: s == front + "\0FORGE"
  {
    if EndsWith(s, FORGE_STRING) { assert s == s[..|s| - 6] + "\0FORGE"; }
    if front: string :| s == front + "\0FORGE" { assert s[|s| - 6..] == "\0FORGE"; }
  }

  lemma {:induction false} NoNulToCut(host: string)
    requires NulFree(host)
    ensures BeforeNul(host) == host
  {
    if host != [] { NoNulToCut(host[1..]); }
  }

  /** A plain hostname comes back as it is; one marked by Forge loses the marker and sets the flag. */
  lemma HostnameRecovered(host: string)
    requires NulFree(host)
    ensures BeforeNul(host) == host && !EndsWith(host, FORGE_STRING)
    ensures BeforeNul(host + FORGE_STRING) == host && EndsWith(host + FORGE_STRING, FORGE_STRING)
  {
    hide BeforeNul;
    NoNulToCut(host);
    CutAtFirstNul(host, "FORGE");
    var marked := host + FORGE_STRING;
    assert marked == host + "\0" + "FORGE" && marked[|host|..] == FORGE_STRING;
    assert |host| >= 6 ==> host[|host| - 6..][0] == host[|host| - 6] != '\0' == FORGE_STRING[0];
  }

  // Printing and parsing the legacy packets

  function EncodeOldConnect(version: byte, user: string, host: string, port: u32): seq<byte>
    requires |EncodeUtf16(user)| < 0x1_0000 && |EncodeUtf16(host)| < 0x1_0000
  {
    [0x02, version] + (EncodeUtf16String(user) + (EncodeUtf16String(host) + Be32(port)))
  }

  /** Both strings and the port of a legacy login survive, whatever follows. */
  lemma OldConnectRoundTrip(version: byte, user: string, host: string, port: u32, suffix: seq<byte>)
    requires |EncodeUtf16(user)| < 0x1_0000 && |EncodeUtf16(host)| < 0x1_0000
    ensures var e := EncodeOldConnect(version, user, host, port);
            ParseHello(e + suffix) == Parsed(HelloPacket(|e|, Legacy, 0, version, host, false, port))
  {
    hide EncodeUtf16String, Utf16StringAt, EncodeUtf16, ParseOldConnect;
    var e := EncodeOldConnect(version, user, host, port);
    var d := e + suffix;
    assert d[0..|e|] == e;
    SplitMatch(d, 0, [0x02, version], EncodeUtf16String(user) + (EncodeUtf16String(host) + Be32(port)));
    assert d[0] == 0x02 && d[1] == version;
    OldConnectFields(d, user, host, port);
  }

  lemma OldConnectFields(d: seq<byte>, user: string, host: string, port: u32)
    requires |EncodeUtf16(user)| < 0x1_0000 && |EncodeUtf16(host)| < 0x1_0000
    requires |d| >= 2 && d[0] == 0x02
    requires MatchesAt(d, 2, EncodeUtf16String(user) + (EncodeUtf16String(host) + Be32(port)))
    ensures ParseOldConnect(d) ==
            Parsed(HelloPacket(6 + |EncodeUtf16String(user)| + |EncodeUtf16String(host)|,
                               Legacy, 0, d[1], host, false, port))
  {
    hide EncodeUtf16String, Utf16StringAt, EncodeUtf16;
    var u, h := EncodeUtf16String(user), EncodeUtf16String(host);
    SplitMatch(d, 2, u, h + Be32(port));
    Utf16StringRoundTrip(d, 2, user);
    SplitMatch(d, 2 + |u|, h, Be32(port));
    Utf16StringRoundTrip(d, 2 + |u|, host);
    Be32At(d, 2 + |u| + |h|, port);
    assert d[0..1] == [0x02];
  }

  /** A legacy ping counts what follows its length field in UTF-16 units. */
  function EncodeOldPing(version: byte, host: string, port: u32): seq<byte>
    requires 7 + 2 * |EncodeUtf16(host)| < 0x1_0000
  {
    OLD_MINECRAFT_START +
    (Be16(7 + 2 * |EncodeUtf16(host)|) + ([version] + (EncodeUtf16String(host) + Be32(port))))
  }

  /** The parser counts in UTF-8 bytes, so it takes a well-formed ping exactly when the hostname is ASCII. */
  lemma OldPingRoundTrip(version: byte, host: string, port: u32, suffix: seq<byte>)
    requires 7 + 2 * |EncodeUtf16(host)| < 0x1_0000
    ensures var e := EncodeOldPing(version, host, port);
            ParseHello(e + suffix) ==
            if Ascii(host) then Parsed(HelloPacket(|e|, Legacy, 0, version, host, false, port))
            else Malformed(NotValid)
  {
    hide EncodeUtf16String, Utf16StringAt, EncodeUtf16, EncodeUtf8, ParseOldPing;
    var e := EncodeOldPing(version, host, port);
    var d := e + suffix;
    var rest: u16 := 7 + 2 * |EncodeUtf16(host)|;
    assert d[0..|e|] == e;
    var fields := [version] + (EncodeUtf16String(host) + Be32(port));
    SplitMatch(d, 0, OLD_MINECRAFT_START, Be16(rest) + fields);
    assert d[0..2] == d[0..27][..2] == OLD_MINECRAFT_START[..2];
    SplitMatch(d, 27, Be16(rest), fields);
    Be16At(d, 27, rest);
    OldPingFields(d, version, host, port);
  }

  /** One letter outside ASCII is enough. */
  lemma RefusedPing()
    ensures |EncodeUtf16("\U{00E9}")| == 1
    ensures ParseHello(EncodeOldPing(74, "\U{00E9}", 25565)) == Malformed(NotValid)
  {
    var host := "\U{00E9}";
    assert host[1..] == "";
    assert !Ascii(host) by { assert host[0] as int == 0xE9; }
    assert |EncodeUtf16(host)| == 1;
    hide EncodeOldPing, ParseHello, EncodeUtf16, Ascii;
    OldPingRoundTrip(74, host, 25565, []);
    assert EncodeOldPing(74, host, 25565) + [] == EncodeOldPing(74, host, 25565);
  }

  lemma OldPingFields(d: seq<byte>, version: byte, host: string, port: u32)
    requires 7 + 2 * |EncodeUtf16(host)| < 0x1_0000
    requires MatchesAt(d, 0, OLD_MINECRAFT_START)
    requires MatchesAt(d, 29, [version] + (EncodeUtf16String(host) + Be32(port)))
    requires U16At(d, 27) == 7 + 2 * |EncodeUtf16(host)|
    ensures ParseOldPing(d) ==
            if Ascii(host) then
              Parsed(HelloPacket(34 + |EncodeUtf16String(host)|, Legacy, 0, version, host, false, port))
            else Malformed(NotValid)
  {
    hide EncodeUtf16String, Utf16StringAt, EncodeUtf16, EncodeUtf8;
    var h := EncodeUtf16String(host);
    SplitMatch(d, 29, [version], h + Be32(port));
    assert d[29] == d[29..30][0] == version;
    SplitMatch(d, 30, h, Be32(port));
    Utf16StringRoundTrip(d, 30, host);
    Be32At(d, 30 + |h|, port);
    Utf8AtLeastUtf16(host);
  }

  /** What a packet writer frames, a packet reader unframes. */
  lemma WithLengthRoundTrip(content: seq<byte>, suffix: seq<byte>)
    requires |content| < 0x8000_0000
    ensures var d := WithLength(content) + suffix;
            var length := VarintAt(d, 0);
            && length.verdict == Parsed(|content|)
            && length.next + |content| <= |d|
            && d[length.next..length.next + |content|] == content
  {
    var d := WithLength(content) + suffix;
    assert d[0..|WithLength(content)|] == WithLength(content);
    SplitMatch(d, 0, EncodeVarint(|content|), content);
    VarintRoundTrip(d, 0, |content|);
  }

  // The parser

  method OldPingPkg(cursor: ReadCursor) returns (r: Verdict<HelloPacket>)
    requires cursor.Valid() && cursor.pos == 0
    modifies cursor
    ensures cursor.Valid() && r == ParseOldPing(cursor.data)
    ensures r.Parsed? ==> cursor.pos == r.value.length
  {
    if cursor.Remaining() < |OLD_MINECRAFT_START| {
      return Incomplete;
    }
    var correct := cursor.MatchBytes(OLD_MINECRAFT_START);
    if !correct {
      return Malformed(NotValid);
    }
    if cursor.Remaining() < 3 {
      return Incomplete;
    }
    var restData := cursor.GetU16();
    var version := cursor.GetU8();
    var field := cursor.GetUtf16String();
    match field {
      case Incomplete => return Incomplete;
      case Malformed(e) => return Malformed(e);
      case Parsed(hostname) =>
        if 7 + |EncodeUtf8(hostname)| * 2 != restData {
          return Malformed(NotValid);
        }
        if cursor.Remaining() < 4 {
          return Incomplete;
        }
        var port := cursor.GetU32();
        return Parsed(HelloPacket(cursor.pos, Legacy, 0, version, hostname, false, port));
    }
  }

  method OldConnectPkg(cursor: ReadCursor) returns (r: Verdict<HelloPacket>)
    requires cursor.Valid() && cursor.pos == 0
    modifies cursor
    ensures cursor.Valid() && r == ParseOldConnect(cursor.data)
    ensures r.Parsed? ==> cursor.pos == r.value.length
  {
    var matches := cursor.MatchBytes([0x02]);
    if !matches {
      return Malformed(NotMatching);
    }
    if cursor.Remaining() < 1 {
      return Incomplete;
    }
    var version := cursor.GetU8();
    var username := cursor.GetUtf16String();
    match username {
      case Incomplete => return Incomplete;
      case Malformed(e) => return Malformed(e);
      case Parsed(_) =>
    }
    var field := cursor.GetUtf16String();
    match field {
      case Incomplete => return Incomplete;
      case Malformed(e) => return Malformed(e);
      case Parsed(hostname) =>
        if cursor.Remaining() < 4 {
          return Incomplete;
        }
        var port := cursor.GetU32();
        return Parsed(HelloPacket(cursor.pos, Legacy, 0, version, hostname, false, port));
    }
  }

  method NewPkg(cursor: ReadCursor) returns (r: Verdict<HelloPacket>)
    requires cursor.Valid() && cursor.pos == 0
    modifies cursor
    ensures cursor.Valid() && r == ParseHandshake(cursor.data)
    ensures r.Parsed? ==> cursor.pos == r.value.length
  {
    hide VarintAt, Utf8StringAt;
    var lengthField := cursor.GetVarint();
    if !lengthField.Parsed? {
      return if lengthField.Incomplete? then Incomplete else Malformed(lengthField.error);
    }
    var idField := cursor.GetVarint();
    if !idField.Parsed? {
      return if idField.Incomplete? then Incomplete else Malformed(idField.error);
    }
    if idField.value != 0 {
      return Malformed(NotMatching);
    }
    var versionField := cursor.GetVarint();
    if !versionField.Parsed? {
      return if versionField.Incomplete? then Incomplete else Malformed(versionField.error);
    }
    var hostField := cursor.GetUtf8String();
    if !hostField.Parsed? {
      return if hostField.Incomplete? then Incomplete else Malformed(hostField.error);
    }
    if cursor.Remaining() < 2 {
      return Incomplete;
    }
    var port := cursor.GetU16();
    if cursor.pos != SignExtend(lengthField.value) {
      return Malformed(NotValid);
    }
    var stateField := cursor.GetVarint();
    if !stateField.Parsed? {
      return if stateField.Incomplete? then Incomplete else Malformed(stateField.error);
    }
    var pkgType := TypeOfState(stateField.value);
    var forge := EndsWith(hostField.value, FORGE_STRING);
    var hostname := BeforeNul(hostField.value);
    return Parsed(HelloPacket(cursor.pos, pkgType, idField.value, versionField.value, hostname, forge, port));
  }

  method New(buf: seq<byte>) returns (r: Verdict<HelloPacket>)
    ensures r == ParseHello(buf)
  {
    if |buf| < 2 {
      return Incomplete;
    }
    var cursor := new ReadCursor(buf);
    var ping := cursor.MatchBytes(OLD_MINECRAFT_START[..2]);
    if ping {
      cursor.SetPosition(0);
      r := OldPingPkg(cursor);
      return;
    }
    var connect := cursor.MatchBytes([0x02]);
    if connect {
      cursor.SetPosition(0);
      r := OldConnectPkg(cursor);
      return;
    }
    r := NewPkg(cursor);
  }

  method FromPacketWithoutLen(content: seq<byte>) returns (packet: seq<byte>)
    ensures packet == WithLength(content)
  {
    var buf := new BytesMut([]);
    PutVarint(buf, ToI32(|content| % 0x1_0000_0000));
    buf.Put(content);
    return buf.data;
  }

  // The three grammars on arbitrary bytes

  /** The first two bytes choose the grammar, and nothing is said before they are there. */
  lemma GrammarChosen(d: seq<byte>)
    ensures ParseHello(d) == if |d| < 2 then Incomplete
                             else if d[0] == 0xFE && d[1] == 0x01 then ParseOldPing(d)
                             else if d[0] == 0x02 then ParseOldConnect(d)
                             else ParseHandshake(d)
  {
    hide ParseOldPing, ParseOldConnect, ParseHandshake;
    if |d| >= 2 { FirstTwo(d); }
  }

  lemma FirstTwo(d: seq<byte>)
    requires |d| >= 2
    ensures MatchesAt(d, 0, OLD_MINECRAFT_START[..2]) <==> d[0] == 0xFE && d[1] == 0x01
    ensures MatchesAt(d, 0, [0x02]) <==> d[0] == 0x02
  {
    assert OLD_MINECRAFT_START[..2] == [0xFE, 0x01];
    assert d[0..2] == [d[0], d[1]] && d[0..1] == [d[0]];
  }

  /** A legacy ping: "MC|PingHost" behind its marker, a length, a version, a hostname of matching length and a port. */
  lemma OldPingVerdict(d: seq<byte>)
    ensures ParseOldPing(d) ==
            if |d| < 27 then Incomplete
            else if d[..27] != [0xFE, 0x01, 0xFA, 0x00, 0x0B, 0x00, 0x4D, 0x00, 0x43, 0x00, 0x7C, 0x00, 0x50, 0x00,
                                0x69, 0x00, 0x6E, 0x00, 0x67, 0x00, 0x48, 0x00, 0x6F, 0x00, 0x73, 0x00, 0x74]
            then Malformed(NotValid)
            else if |d| < 30 || Utf16StringAt(d, 30).verdict.Incomplete? then Incomplete
            else if Utf16StringAt(d, 30).verdict.Malformed? then Malformed(NotValidStringEncoding)
            else
              var host, next := Utf16StringAt(d, 30).verdict.value, Utf16StringAt(d, 30).next;
              if U16At(d, 27) != 7 + 2 * |EncodeUtf8(host)| then Malformed(NotValid)
              else if |d| < next + 4 then Incomplete
              else Parsed(HelloPacket(next + 4, Legacy, 0, d[29], host, false, U32At(d, next)))
  {
    if |d| >= 30 { Utf16StringVerdicts(d, 30); }
    hide Utf16StringAt, EncodeUtf8;
    assert |d| >= 27 ==> d[0..27] == d[..27];
  }

  /** A legacy login: a version, a user name that is skipped, a hostname and a port. */
  lemma OldConnectVerdict(d: seq<byte>)
    requires |d| >= 2 && d[0] == 0x02
    ensures ParseOldConnect(d) ==
            var user := Utf16StringAt(d, 2);
            if user.verdict.Incomplete? then Incomplete
            else if user.verdict.Malformed? then Malformed(NotValidStringEncoding)
            else if user.next > |d| || Utf16StringAt(d, user.next).verdict.Incomplete? then Incomplete
            else if Utf16StringAt(d, user.next).verdict.Malformed? then Malformed(NotValidStringEncoding)
            else
              var host, next := Utf16StringAt(d, user.next).verdict.value, Utf16StringAt(d, user.next).next;
              if |d| < next + 4 then Incomplete
              else Parsed(HelloPacket(next + 4, Legacy, 0, d[1], host, false, U32At(d, next)))
  {
    Utf16StringVerdicts(d, 2);
    Utf16StringWindow(d, d, 2);
    var user := Utf16StringAt(d, 2);
    if user.verdict.Parsed? && user.next <= |d| { Utf16StringVerdicts(d, user.next); }
    assert d[0..1] == [0x02];
    hide Utf16StringAt;
  }

  /** The fields of a modern handshake, where each was found, and where the last one ends. */
  datatype Fields = Fields(length: i32, idAt: nat, versionAt: nat, version: i32, hostAt: nat, host: string,
                           portAt: nat, state: i32, end: nat)

  ghost predicate HasHost(d: seq<byte>, f: Fields) {
    && f.idAt <= |d| && f.versionAt <= |d| && f.hostAt <= |d| && f.portAt <= |d|
    && VarintAt(d, 0) == Read(Parsed(f.length), f.idAt)
    && VarintAt(d, f.idAt) == Read(Parsed(0), f.versionAt)
    && VarintAt(d, f.versionAt) == Read(Parsed(f.version), f.hostAt)
    && Utf8StringAt(d, f.hostAt) == Read(Parsed(f.host), f.portAt)
  }

  /** The fields are there, the packet id is zero, and the length is the position behind the port. */
  ghost predicate IsHandshake(d: seq<byte>, f: Fields) {
    && HasHost(d, f) && f.portAt + 2 <= |d| && SignExtend(f.length) == f.portAt + 2
    && VarintAt(d, f.portAt + 2) == Read(Parsed(f.state), f.end)
  }

  /** On any bytes: a modern handshake is accepted exactly if all its fields are there and fit, with these values. */
  lemma HandshakeAcceptedExactly(d: seq<byte>, p: HelloPacket)
    ensures ParseHandshake(d) == Parsed(p) <==>
            exists f :: IsHandshake(d, f) &&
              p == HelloPacket(f.end, if f.state == 1 then Ping else if f.state == 2 then Connect else UnknownType,
                               0, f.version, BeforeNul(f.host), EndsWith(f.host, "\0FORGE"), U16At(d, f.portAt))
  {
    hide VarintAt, Utf8StringAt, BeforeNul, EndsWith;
    PositionsInside(d);
    if ParseHandshake(d) == Parsed(p) {
      var length := VarintAt(d, 0);
      var id := VarintAt(d, length.next);
      var version := VarintAt(d, id.next);
      var host := Utf8StringAt(d, version.next);
      var state := VarintAt(d, host.next + 2);
      assert IsHandshake(d, Fields(length.verdict.value, length.next, id.next, version.verdict.value, version.next,
                                   host.verdict.value, host.next, state.verdict.value, state.next));
    }
  }

  /** The verdict is that of the first field that is not there, is no VarInt or string, or does not fit. */
  lemma HandshakeHeadVerdict(d: seq<byte>)
    ensures var r, length := ParseHandshake(d), VarintAt(d, 0);
            && (length.verdict.Incomplete? ==> r == Incomplete)
            && (length.verdict.Malformed? ==> r == Malformed(NotValid))
            && (length.verdict.Parsed? && length.next <= |d| ==>
            var id := VarintAt(d, length.next);
            && (id.verdict.Incomplete? ==> r == Incomplete)
            && (id.verdict.Malformed? ==> r == Malformed(NotValid))
            && (id.verdict.Parsed? && id.verdict.value != 0 ==> r == Malformed(NotMatching))
            && (id.verdict == Parsed(0) && id.next <= |d| ==>
            var version := VarintAt(d, id.next);
            && (version.verdict.Incomplete? ==> r == Incomplete)
            && (version.verdict.Malformed? ==> r == Malformed(NotValid))))
  {
    AllVarintErrors(d);
    hide VarintAt, HandshakeHost;
  }

  lemma AllVarintErrors(d: seq<byte>)
    ensures forall pos | 0 <= pos <= |d| && VarintAt(d, pos).verdict.Malformed? ::
              VarintAt(d, pos).verdict.error == NotValid
  {
  }

  lemma HandshakeTailVerdict(d: seq<byte>, length: i32, idAt: nat, versionAt: nat, version: i32, hostAt: nat)
    requires idAt <= |d| && versionAt <= |d| && hostAt <= |d|
    requires VarintAt(d, 0) == Read(Parsed(length), idAt) && VarintAt(d, idAt) == Read(Parsed(0), versionAt)
    requires VarintAt(d, versionAt) == Read(Parsed(version), hostAt)
    ensures var r, host := ParseHandshake(d), Utf8StringAt(d, hostAt);
            && (host.verdict.Incomplete? ==> r == Incomplete)
            && (host.verdict.Malformed? ==> r == Malformed(host.verdict.error))
            && (host.verdict.Parsed? && |d| < host.next + 2 ==> r == Incomplete)
            && (host.verdict.Parsed? && |d| >= host.next + 2 && SignExtend(length) != host.next + 2 ==>
                  r == Malformed(NotValid))
            && (host.verdict.Parsed? && |d| >= host.next + 2 && SignExtend(length) == host.next + 2 ==>
                  var state := VarintAt(d, host.next + 2);
                  && (state.verdict.Incomplete? ==> r == Incomplete)
                  && (state.verdict.Malformed? ==> r == Malformed(NotValid)))
  {
    assert ParseHandshake(d) == HandshakeHost(d, hostAt, length, version) by { hide VarintAt, HandshakeHost; }
    HostVerdict(d, hostAt, length, version);
    hide *;
  }

  lemma HostVerdict(d: seq<byte>, hostAt: nat, length: i32, version: i32)
    requires hostAt <= |d|
    ensures var r, host := HandshakeHost(d, hostAt, length, version), Utf8StringAt(d, hostAt);
            && (host.verdict.Incomplete? ==> r == Incomplete)
            && (host.verdict.Malformed? ==> r == Malformed(host.verdict.error))
            && (host.verdict.Parsed? && |d| < host.next + 2 ==> r == Incomplete)
            && (host.verdict.Parsed? && |d| >= host.next + 2 && SignExtend(length) != host.next + 2 ==>
                  r == Malformed(NotValid))
            && (host.verdict.Parsed? && |d| >= host.next + 2 && SignExtend(length) == host.next + 2 ==>
                  var state := VarintAt(d, host.next + 2);
                  && (state.verdict.Incomplete? ==> r == Incomplete)
                  && (state.verdict.Malformed? ==> r == Malformed(NotValid)))
  {
    AllVarintErrors(d);
    hide VarintAt, Utf8StringAt, BeforeNul, EndsWith;
  }

  lemma PositionsInside(d: seq<byte>)
    ensures forall pos | 0 <= pos <= |d| && VarintAt(d, pos).verdict.Parsed? :: VarintAt(d, pos).next <= |d|
    ensures forall pos | 0 <= pos <= |d| && Utf8StringAt(d, pos).verdict.Parsed? :: Utf8StringAt(d, pos).next <= |d|
  {
    hide VarintAt, Utf8StringAt;
    forall pos | 0 <= pos <= |d| && VarintAt(d, pos).verdict.Parsed? ensures VarintAt(d, pos).next <= |d| {
      VarintVerdicts(d, pos);
    }
    forall pos | 0 <= pos <= |d| && Utf8StringAt(d, pos).verdict.Parsed? ensures Utf8StringAt(d, pos).next <= |d| {
      VarintVerdicts(d, pos);
      Utf8StringVerdicts(d, pos);
    }
  }
}
