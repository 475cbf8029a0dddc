/**
 The two Unicode encodings the parsers meet. A Dafny `char` is a Unicode scalar
 value, as a Rust `char` is, so a Rust `String` is a `string` here and its
 `len()` is the length of its UTF-8 encoding.
 */
module Unicode {
  import opened Basics

  // UTF-8: RFC 3629

  function EncodeChar8(c: char): (r: seq<byte>)
    ensures 1 <= |r| <= 4
  {
    var v := c as int;
    if v < 0x80 then [v]
    else if v < 0x800 then [0xC0 + v / 64, 0x80 + v % 64]
    else if v < 0x1_0000 then [0xE0 + v / 4096, 0x80 + v / 64 % 64, 0x80 + v % 64]
    else [0xF0 + v / 0x4_0000, 0x80 + v / 4096 % 64, 0x80 + v / 64 % 64, 0x80 + v % 64]
  }

  predicate Tail(b: byte) {
    0x80 <= b <= 0xBF
  }

  /** Appends the six payload bits of a tail byte. */
  function AppendTail(high: nat, b: byte): nat
    requires Tail(b)
  {
    high * 64 + (b - 0x80)
  }

  /** One character by the byte ranges of section 4 of RFC 3629, with its length. */
  function DecodeChar8(b: seq<byte>): (r: Option<(char, nat)>)
    requires b != []
    ensures r.Some? ==> 1 <= r.value.1 <= |b|
  {
    if b[0] < 0x80 then Some((b[0] as char, 1))
    else if |b| >= 2 && 0xC2 <= b[0] <= 0xDF && Tail(b[1]) then
      Some((AppendTail(b[0] - 0xC0, b[1]) as char, 2))
    else if |b| >= 3 && 0xE0 <= b[0] <= 0xEF && Tail(b[1]) && Tail(b[2])
            && (b[0] == 0xE0 ==> b[1] >= 0xA0) && (b[0] == 0xED ==> b[1] <= 0x9F) then
      Some((AppendTail(AppendTail(b[0] - 0xE0, b[1]), b[2]) as char, 3))
    else if |b| >= 4 && 0xF0 <= b[0] <= 0xF4 && Tail(b[1]) && Tail(b[2]) && Tail(b[3])
            && (b[0] == 0xF0 ==> b[1] >= 0x90) && (b[0] == 0xF4 ==> b[1] <= 0x8F) then
      Some((AppendTail(AppendTail(AppendTail(b[0] - 0xF0, b[1]), b[2]), b[3]) as char, 4))
    else None
  }

  function EncodeUtf8(s: string): seq<byte> {
    if s == [] then [] else EncodeChar8(s[0]) + EncodeUtf8(s[1..])
  }

  /** `String::from_utf8`: None for anything that is not valid UTF-8. */
  function DecodeUtf8(b: seq<byte>): Option<string> {
    if b == [] then Some([])
    else match DecodeChar8(b)
      case None => None
      case Some((c, n)) =>
        match DecodeUtf8(b[n..])
        case None => None
        case Some(rest) => Some([c] + rest)
  }

  lemma DecodeEncode3(c: char, rest: seq<byte>)
    requires |EncodeChar8(c)| == 3
    ensures DecodeChar8(EncodeChar8(c) + rest) == Some((c, 3))
  {
    var v := c as int;
    var b := EncodeChar8(c) + rest;
    assert AppendTail(b[0] - 0xE0, b[1]) == v / 64;
    assert AppendTail(v / 64, b[2]) == v;
  }

  lemma DecodeEncode4(c: char, rest: seq<byte>)
    requires |EncodeChar8(c)| == 4
    ensures DecodeChar8(EncodeChar8(c) + rest) == Some((c, 4))
  {
    var v := c as int;
    var b := EncodeChar8(c) + rest;
    assert v / 4096 == v / 64 / 64 && v / 0x4_0000 == v / 64 / 64 / 64;
    assert AppendTail(b[0] - 0xF0, b[1]) == v / 64 / 64;
    assert AppendTail(v / 64 / 64, b[2]) == v / 64;
    assert AppendTail(v / 64, b[3]) == v;
  }

  lemma DecodeEncodeChar8(c: char, rest: seq<byte>)
    ensures DecodeChar8(EncodeChar8(c) + rest) == Some((c, |EncodeChar8(c)|))
  {
    var e := EncodeChar8(c);
    if |e| == 3 {
      DecodeEncode3(c, rest);
    } else if |e| == 4 {
      DecodeEncode4(c, rest);
    } else {
      assert |e| == 2 ==> AppendTail((e + rest)[0] - 0xC0, (e + rest)[1]) == c as int;
    }
  }

  lemma SplitTail(high: nat, b: byte)
    requires Tail(b)
    ensures AppendTail(high, b) / 64 == high && AppendTail(high, b) % 64 == b - 0x80
  {
  }

  lemma EncodeDecodeChar8(b: seq<byte>)
    requires b != [] && DecodeChar8(b).Some?
    ensures EncodeChar8(DecodeChar8(b).value.0) == b[..DecodeChar8(b).value.1]
  {
    var (c, n) := DecodeChar8(b).value;
    var v := c as int;
    if n == 2 {
      SplitTail(b[0] - 0xC0, b[1]);
    } else if n == 3 {
      SplitTail(b[0] - 0xE0, b[1]);
      SplitTail(AppendTail(b[0] - 0xE0, b[1]), b[2]);
      assert v / 4096 == v / 64 / 64;
    } else if n == 4 {
      var w := AppendTail(b[0] - 0xF0, b[1]);
      SplitTail(b[0] - 0xF0, b[1]);
      SplitTail(w, b[2]);
      SplitTail(AppendTail(w, b[2]), b[3]);
      assert v / 4096 == v / 64 / 64 && v / 0x4_0000 == v / 64 / 64 / 64;
    }
  }

  /** Every string survives encoding and decoding. */
  lemma {:induction false} Utf8RoundTrip(s: string)
    ensures DecodeUtf8(EncodeUtf8(s)) == Some(s)
  {
    if s != [] {
      var b := EncodeUtf8(s);
      DecodeEncodeChar8(s[0], EncodeUtf8(s[1..]));
      assert b[|EncodeChar8(s[0])|..] == EncodeUtf8(s[1..]);
      Utf8RoundTrip(s[1..]);
      assert [s[0]] + s[1..] == s;
    }
  }

  /** Accepted bytes are exactly the encoding of the result: no overlong or surrogate forms slip in. */
  lemma {:induction false} Utf8Exact(b: seq<byte>)
    requires DecodeUtf8(b).Some?
    ensures EncodeUtf8(DecodeUtf8(b).value) == b
  {
    if b != [] {
      var n := DecodeChar8(b).value.1;
      EncodeDecodeChar8(b);
      Utf8Exact(b[n..]);
      assert b == b[..n] + b[n..];
    }
  }

  // UTF-16: section 2 of RFC 2781

  function EncodeChar16(c: char): (r: seq<u16>)
    ensures 1 <= |r| <= 2
  {
    var v := c as int;
    if v < 0x1_0000 then [v]
    else [0xD800 + (v - 0x1_0000) / 0x400, 0xDC00 + (v - 0x1_0000) % 0x400]
  }

  /** Section 2.2 of RFC 2781: an unpaired surrogate is an error. */
  function DecodeChar16(u: seq<u16>): (r: Option<(char, nat)>)
    requires u != []
    ensures r.Some? ==> 1 <= r.value.1 <= |u|
  {
    if u[0] < 0xD800 || u[0] > 0xDFFF then Some((u[0] as char, 1))
    else if u[0] <= 0xDBFF && |u| >= 2 && 0xDC00 <= u[1] <= 0xDFFF then
      Some((((u[0] as int - 0xD800) * 0x400 + (u[1] as int - 0xDC00) + 0x1_0000) as char, 2))
    else None
  }

  function EncodeUtf16(s: string): seq<u16> {
    if s == [] then [] else EncodeChar16(s[0]) + EncodeUtf16(s[1..])
  }

  /** `char::decode_utf16` collected into a `Result<String, _>`. */
  function DecodeUtf16(u: seq<u16>): Option<string> {
    if u == [] then Some([])
    else match DecodeChar16(u)
      case None => None
      case Some((c, n)) =>
        match DecodeUtf16(u[n..])
        case None => None
        case Some(rest) => Some([c] + rest)
  }

  lemma DecodeEncodeChar16(c: char, rest: seq<u16>)
    ensures DecodeChar16(EncodeChar16(c) + rest) == Some((c, |EncodeChar16(c)|))
  {
  }

  lemma {:induction false} Utf16RoundTrip(s: string)
    ensures DecodeUtf16(EncodeUtf16(s)) == Some(s)
  {
    if s != [] {
      var u := EncodeUtf16(s);
      DecodeEncodeChar16(s[0], EncodeUtf16(s[1..]));
      assert u[|EncodeChar16(s[0])|..] == EncodeUtf16(s[1..]);
      Utf16RoundTrip(s[1..]);
      assert [s[0]] + s[1..] == s;
    }
  }

  predicate Ascii(s: string) {
    forall i | 0 <= i < |s| :: s[i] as int < 0x80
  }

  /** A string is never shorter in UTF-8 bytes than in UTF-16 units, and only ASCII breaks even. */
  lemma {:induction false} Utf8AtLeastUtf16(s: string)
    ensures |EncodeUtf8(s)| >= |EncodeUtf16(s)|
    ensures |EncodeUtf8(s)| == |EncodeUtf16(s)| <==> Ascii(s)
  {
    if s != [] {
      Utf8AtLeastUtf16(s[1..]);
      assert Ascii(s) <==> s[0] as int < 0x80 && Ascii(s[1..]) by {
        assert Ascii(s) ==> forall i | 0 <= i < |s[1..]| :: s[1..][i] == s[i + 1];
        assert forall i | 1 <= i < |s| :: s[i] == s[1..][i - 1];
      }
    }
  }

  function Letters(n: nat): (s: string)
    ensures |s| == n
  {
    seq(n, _ => 'a')
  }

  /** A plain letter is one byte and one unit. */
  lemma {:induction false} LettersTakeOne(n: nat)
    ensures |EncodeUtf8(Letters(n))| == |EncodeUtf16(Letters(n))| == n
  {
    if n > 0 {
      assert Letters(n)[1..] == Letters(n - 1);
      LettersTakeOne(n - 1);
    }
  }

  // Both encodings by example, one character of each length

  lemma EncodedByTheStandards()
    ensures EncodeUtf8("a") == [0x61] && EncodeUtf8("\U{00E9}") == [0xC3, 0xA9]
    ensures EncodeUtf8("\U{20AC}") == [0xE2, 0x82, 0xAC] && EncodeUtf8("\U{1F600}") == [0xF0, 0x9F, 0x98, 0x80]
    ensures EncodeUtf16("a") == [0x61] && EncodeUtf16("\U{20AC}") == [0x20AC]
    ensures EncodeUtf16("\U{1F600}") == [0xD83D, 0xDE00]
  {
    assert "a"[1..] == "" && "\U{00E9}"[1..] == "" && "\U{20AC}"[1..] == "" && "\U{1F600}"[1..] == "";
  }

  lemma EncodeDecodeChar16(u: seq<u16>)
    requires u != [] && DecodeChar16(u).Some?
    ensures var (c, n) := DecodeChar16(u).value; EncodeChar16(c) == u[..n]
  {
    if 0xD800 <= u[0] <= 0xDFFF {
      var high, low := u[0] as int - 0xD800, u[1] as int - 0xDC00;
      var v := high * 0x400 + low;
      assert v / 0x400 == high && v % 0x400 == low;
      assert u[..2] == [u[0], u[1]];
    } else {
      assert u[..1] == [u[0]];
    }
  }

  /** Accepted units are exactly the encoding of the result. */
  lemma {:induction false} Utf16Exact(u: seq<u16>)
    requires DecodeUtf16(u).Some?
    ensures EncodeUtf16(DecodeUtf16(u).value) == u
  {
    if u != [] {
      var n := DecodeChar16(u).value.1;
      EncodeDecodeChar16(u);
      Utf16Exact(u[n..]);
      assert u == u[..n] + u[n..];
    }
  }
}
