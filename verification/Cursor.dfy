/** Reading and writing the primitive fields of Minecraft packets. */
module Cursor {
  import opened Basics
  import opened Datatypes
  import opened Unicode
  import opened Bytes

  // What the readers mean

  /** The number of leading bytes at `pos` with the continuation bit set, up to `limit`. */
  function ContinuationRun(data: seq<byte>, pos: nat, limit: nat): (n: nat)
    ensures n <= limit && (pos <= |data| ==> pos + n <= |data|)
    decreases limit
  {
    if limit == 0 || pos >= |data| || data[pos] < 0x80 then 0
    else 1 + ContinuationRun(data, pos + 1, limit - 1)
  }

  /** The value of a sequence of base-128 digits, least significant first. */
  function Base128(s: seq<byte>): nat {
    if s == [] then 0 else s[0] % 128 + 128 * Base128(s[1..])
  }

  /** A VarInt: at most five bytes, the low seven bits of each a base-128 digit, modulo 2^32. */
  function VarintAt(data: seq<byte>, pos: nat): Read<i32>
    requires pos <= |data|
  {
    var n := ContinuationRun(data, pos, 5);
    if n == 5 then Read(Malformed(NotValid), pos + 5)
    else if pos + n == |data| then Read(Incomplete, |data|)
    else Read(Parsed(ToI32(Base128(data[pos..pos + n + 1]) % 0x1_0000_0000)), pos + n + 1)
  }

  /** A UTF-8 string behind its byte length. */
  function Utf8StringAt(data: seq<byte>, pos: nat): Read<string>
    requires pos <= |data|
  {
    var r := VarintAt(data, pos);
    match r.verdict
    case Incomplete => Read(Incomplete, r.next)
    case Malformed(e) => Read(Malformed(e), r.next)
    case Parsed(n) =>
      var size := SignExtend(n);
      if |data| - r.next < size then Read(Incomplete, r.next)
      else match DecodeUtf8(data[r.next..r.next + size])
        case Some(s) => Read(Parsed(s), r.next + size)
        case None => Read(Malformed(NotValidStringEncoding), r.next + size)
  }

  /** `n` big-endian 16-bit units. */
  function Units(data: seq<byte>, pos: nat, n: nat): (u: seq<u16>)
    requires pos + 2 * n <= |data|
    ensures |u| == n
  {
    seq(n, i requires 0 <= i < n => U16At(data, pos + 2 * i))
  }

  /** A UTF-16 string behind its unit count; the reader asks for one byte more than it takes. */
  function Utf16StringAt(data: seq<byte>, pos: nat): Read<string>
    requires pos <= |data|
  {
    if |data| - pos < 2 then Read(Incomplete, pos)
    else
      var size: nat := U16At(data, pos);
      if |data| - (pos + 2) <= 2 * size then Read(Incomplete, pos + 2)
      else match DecodeUtf16(Units(data, pos + 2, size))
        case Some(s) => Read(Parsed(s), pos + 2 + 2 * size)
        case None => Read(Malformed(NotValidStringEncoding), pos)
  }

  predicate MatchesAt(data: seq<byte>, pos: nat, bytes: seq<byte>) {
    pos + |bytes| <= |data| && data[pos..pos + |bytes|] == bytes
  }

  // What the writers mean

  function EncodeVarint(u: u32): (r: seq<byte>)
    ensures r != []
  {
    if u < 0x80 then [u] else [u % 128 + 0x80] + EncodeVarint(u / 128)
  }

  /** `string.len() as i32` keeps the low 32 bits of the length. */
  function EncodeUtf8String(s: string): seq<byte> {
    EncodeVarint(|EncodeUtf8(s)| % 0x1_0000_0000) + EncodeUtf8(s)
  }

  function EncodeUnits(u: seq<u16>): (r: seq<byte>)
    ensures |r| == 2 * |u|
  {
    if u == [] then [] else Be16(u[0]) + EncodeUnits(u[1..])
  }

  function EncodeUtf16String(s: string): seq<byte>
    requires |EncodeUtf16(s)| < 0x1_0000
  {
    Be16(|EncodeUtf16(s)|) + EncodeUnits(EncodeUtf16(s))
  }

  // Base-128 digits

  lemma Pow2Seven(k: nat)
    ensures Pow2(k + 7) == 128 * Pow2(k)
  {
    assert Pow2(k + 7) == 2 * Pow2(k + 6) == 4 * Pow2(k + 5) == 8 * Pow2(k + 4);
    assert Pow2(k + 4) == 2 * Pow2(k + 3) == 4 * Pow2(k + 2) == 8 * Pow2(k + 1) == 16 * Pow2(k);
  }

  lemma Pow2Next(k: nat)
    ensures Pow2(0) == 1 && Pow2(k + 1) == 2 * Pow2(k)
  {
  }

  lemma Pow2Values()
    ensures Pow2(0) == 1 && Pow2(7) == 0x80 && Pow2(14) == 0x4000 && Pow2(21) == 0x20_0000
    ensures Pow2(28) == 0x1000_0000 && Pow2(35) == 0x8_0000_0000
  {
    hide Pow2;
    Pow2Next(0);
    Pow2Seven(0); Pow2Seven(7); Pow2Seven(14); Pow2Seven(21); Pow2Seven(28);
  }

  lemma {:induction false} Base128Append(s: seq<byte>, b: byte)
    ensures Base128(s + [b]) == Base128(s) + b % 128 * Pow2(7 * |s|)
    ensures Base128(s) < Pow2(7 * |s|)
  {
    if s == [] {
      assert (s + [b])[1..] == [];
    } else {
      assert (s + [b])[1..] == s[1..] + [b];
      Base128Append(s[1..], b);
      Pow2Seven(7 * |s[1..]|);
      assert 128 * (b % 128 * Pow2(7 * |s[1..]|)) == b % 128 * Pow2(7 * |s|);
    }
  }

  predicate AllContinue(data: seq<byte>, from: nat, to: nat) {
    to <= |data| && forall i | from <= i < to :: data[i] >= 0x80
  }

  lemma {:induction false} ContinuationRunIs(data: seq<byte>, pos: nat, limit: nat, n: nat)
    requires n <= limit && AllContinue(data, pos, pos + n)
    requires n == limit || pos + n == |data| || data[pos + n] < 0x80
    ensures ContinuationRun(data, pos, limit) == n
    decreases n
  {
    if n > 0 {
      ContinuationRunIs(data, pos + 1, limit - 1, n - 1);
    }
  }

  lemma {:induction false} ContinuationRunMeaning(data: seq<byte>, pos: nat, limit: nat)
    requires pos <= |data|
    ensures var n := ContinuationRun(data, pos, limit);
            AllContinue(data, pos, pos + n) && (n == limit || pos + n == |data| || data[pos + n] < 0x80)
    decreases limit
  {
    if ContinuationRun(data, pos, limit) > 0 {
      ContinuationRunMeaning(data, pos + 1, limit - 1);
    }
  }

  /**
   The three verdicts on arbitrary bytes. The digits of an accepted VarInt are
   summed with no intermediate truncation, and the two refusals are exact.
   */
  lemma VarintVerdicts(data: seq<byte>, pos: nat)
    requires pos <= |data|
    ensures VarintAt(data, pos).verdict.Incomplete? <==>
            |data| - pos < 5 && AllContinue(data, pos, |data|)
    ensures VarintAt(data, pos).verdict.Malformed? <==>
            AllContinue(data, pos, pos + 5)
    ensures VarintAt(data, pos).verdict.Parsed? ==>
            var next := VarintAt(data, pos).next;
            && pos < next <= pos + 5 && next <= |data|
            && AllContinue(data, pos, next - 1) && data[next - 1] < 0x80
            && ToU32(VarintAt(data, pos).verdict.value) == Base128(data[pos..next]) % 0x1_0000_0000
            && (Base128(data[pos..next]) - VarintAt(data, pos).verdict.value) % 0x1_0000_0000 == 0
  {
    ContinuationRunMeaning(data, pos, 5);
  }

  /** The verdict read off the first byte that ends the run, if any of the first five does. */
  lemma VarintIs(data: seq<byte>, pos: nat, n: nat)
    requires n <= 5 && AllContinue(data, pos, pos + n)
    requires n == 5 || pos + n == |data| || data[pos + n] < 0x80
    ensures n == 5 ==> VarintAt(data, pos) == Read(Malformed(NotValid), pos + 5)
    ensures n < 5 && pos + n == |data| ==> VarintAt(data, pos) == Read(Incomplete, |data|)
    ensures n < 5 && pos + n < |data| ==>
              VarintAt(data, pos) == Read(Parsed(ToI32(Base128(data[pos..pos + n + 1]) % 0x1_0000_0000)), pos + n + 1)
  {
    ContinuationRunIs(data, pos, 5, n);
  }

  // Round trips

  lemma {:induction false} EncodeVarintShape(u: u32)
    ensures var e := EncodeVarint(u);
            && Base128(e) == u
            && e[|e| - 1] < 0x80
            && forall k | 0 <= k < |e| - 1 :: e[k] >= 0x80
  {
    var e := EncodeVarint(u);
    if u >= 0x80 {
      EncodeVarintShape(u / 128);
      assert e[1..] == EncodeVarint(u / 128);
      assert forall k | 1 <= k < |e| :: e[k] == e[1..][k - 1];
    } else {
      assert e[1..] == [];
    }
  }

  /** A value below 128^m takes at most m bytes. */
  lemma {:induction false} EncodeVarintLength(u: u32, m: nat)
    requires 1 <= m && u < Pow2(7 * m)
    ensures |EncodeVarint(u)| <= m
  {
    if u >= 0x80 {
      if m == 1 { Pow2Seven(0); }
      Pow2Seven(7 * (m - 1));
      EncodeVarintLength(u / 128, m - 1);
    }
  }

  lemma EncodeVarintAtMostFive(u: u32)
    ensures 1 <= |EncodeVarint(u)| <= 5
  {
    Pow2Values();
    EncodeVarintLength(u, 5);
  }

  /** Reading back what was written returns the value and takes exactly the bytes written. */
  lemma VarintRoundTrip(data: seq<byte>, pos: nat, v: i32)
    requires MatchesAt(data, pos, EncodeVarint(ToU32(v)))
    ensures VarintAt(data, pos) == Read(Parsed(v), pos + |EncodeVarint(ToU32(v))|)
  {
    hide VarintAt, EncodeVarint, Base128;
    var e := EncodeVarint(ToU32(v));
    EncodeVarintShape(ToU32(v));
    EncodeVarintAtMostFive(ToU32(v));
    assert data[pos..pos + |e|] == e;
    assert forall i | pos <= i < pos + |e| :: data[i] == data[pos..pos + |e|][i - pos];
    VarintIs(data, pos, |e| - 1);
  }

  /** No accepted byte sequence for a value is shorter than the written one. */
  lemma VarintMinimal(data: seq<byte>, pos: nat)
    requires pos <= |data| && VarintAt(data, pos).verdict.Parsed?
    ensures var r := VarintAt(data, pos);
            |EncodeVarint(ToU32(r.verdict.value))| <= r.next - pos
  {
    VarintVerdicts(data, pos);
    var r := VarintAt(data, pos);
    var digits := data[pos..r.next];
    var u := ToU32(r.verdict.value);
    EncodeVarintAtMostFive(u);
    Base128Append(digits, 0);
    if |digits| < 5 {
      assert u <= Base128(digits);
      EncodeVarintLength(u, |digits|);
    }
  }

  /** A written string is read back, and nothing after it is touched. */
  lemma Utf8StringRoundTrip(data: seq<byte>, pos: nat, s: string)
    requires |EncodeUtf8(s)| < 0x8000_0000
    requires MatchesAt(data, pos, EncodeUtf8String(s))
    ensures Utf8StringAt(data, pos) == Read(Parsed(s), pos + |EncodeUtf8String(s)|)
  {
    hide VarintAt, EncodeVarint, Utf8StringAt, EncodeUtf8, DecodeUtf8;
    var b := EncodeUtf8(s);
    SplitMatch(data, pos, EncodeVarint(|b|), b);
    VarintRoundTrip(data, pos, |b|);
    Utf8RoundTrip(s);
    Utf8StringIs(data, pos, |b|, s);
  }

  lemma Utf8StringIs(data: seq<byte>, pos: nat, size: nat, s: string)
    requires pos <= |data| && size < 0x8000_0000
    requires VarintAt(data, pos).verdict == Parsed(size)
    requires VarintAt(data, pos).next + size <= |data|
    requires var next := VarintAt(data, pos).next; DecodeUtf8(data[next..next + size]) == Some(s)
    ensures Utf8StringAt(data, pos) == Read(Parsed(s), VarintAt(data, pos).next + size)
  {
    hide VarintAt, DecodeUtf8;
  }

  /** Two fields that come next come one after the other. */
  lemma SplitMatch(data: seq<byte>, pos: nat, a: seq<byte>, b: seq<byte>)
    requires MatchesAt(data, pos, a + b)
    ensures MatchesAt(data, pos, a) && MatchesAt(data, pos + |a|, b)
    ensures pos + |a| + |b| <= |data|
  {
    var w := data[pos..pos + |a + b|];
    assert data[pos..pos + |a|] == w[..|a|] == a;
    assert data[pos + |a|..pos + |a| + |b|] == w[|a|..] == b;
  }

  lemma {:induction false} UnitsRoundTrip(data: seq<byte>, pos: nat, u: seq<u16>)
    requires MatchesAt(data, pos, EncodeUnits(u))
    ensures Units(data, pos, |u|) == u
    decreases u
  {
    if u != [] {
      SplitMatch(data, pos, Be16(u[0]), EncodeUnits(u[1..]));
      Be16At(data, pos, u[0]);
      UnitsRoundTrip(data, pos + 2, u[1..]);
      var got := Units(data, pos, |u|);
      assert got[0] == u[0];
      forall i | 1 <= i < |u| ensures got[i] == u[i] {
        assert pos + 2 * i == pos + 2 + 2 * (i - 1);
        assert Units(data, pos + 2, |u[1..]|)[i - 1] == u[1..][i - 1];
      }
    }
  }

  lemma Utf16StringRoundTrip(data: seq<byte>, pos: nat, s: string)
    requires |EncodeUtf16(s)| < 0x1_0000
    requires MatchesAt(data, pos, EncodeUtf16String(s))
    requires pos + |EncodeUtf16String(s)| < |data|
    ensures Utf16StringAt(data, pos) == Read(Parsed(s), pos + |EncodeUtf16String(s)|)
  {
    var u := EncodeUtf16(s);
    SplitMatch(data, pos, Be16(|u|), EncodeUnits(u));
    Be16At(data, pos, |u|);
    UnitsRoundTrip(data, pos + 2, u);
    Utf16RoundTrip(s);
  }

  // The string readers on arbitrary bytes

  /** A string is accepted exactly with the bytes that encode it, and refused exactly when they encode none. */
  lemma Utf8StringVerdicts(data: seq<byte>, pos: nat)
    requires pos <= |data|
    ensures var r, t := VarintAt(data, pos), Utf8StringAt(data, pos);
            && (r.verdict.Incomplete? ==> t.verdict.Incomplete?)
            && (r.verdict.Malformed? ==> t.verdict == Malformed(NotValid))
            && (r.verdict.Parsed? ==>
                  var size: nat := if r.verdict.value < 0 then 0x1_0000_0000_0000_0000 + r.verdict.value
                                   else r.verdict.value;
                  if |data| < r.next + size then t.verdict.Incomplete?
                  else
                    var bytes := data[r.next..r.next + size];
                    && t.next == r.next + size
                    && (forall s :: t.verdict == Parsed(s) <==> EncodeUtf8(s) == bytes)
                    && (t.verdict.Parsed? || t.verdict == Malformed(NotValidStringEncoding)))
  {
    hide VarintAt, DecodeUtf8, EncodeUtf8;
    var r := VarintAt(data, pos);
    VarintErrors(data, pos);
    if r.verdict.Parsed? {
      var size: nat := SignExtend(r.verdict.value);
      if r.next + size <= |data| { Utf8Answer(data[r.next..r.next + size]); }
    }
  }

  lemma VarintErrors(data: seq<byte>, pos: nat)
    requires pos <= |data|
    ensures VarintAt(data, pos).verdict.Malformed? ==> VarintAt(data, pos).verdict.error == NotValid
  {
  }

  lemma Utf8Answer(bytes: seq<byte>)
    ensures forall s :: DecodeUtf8(bytes) == Some(s) <==> EncodeUtf8(s) == bytes
  {
    hide DecodeUtf8, EncodeUtf8;
    if DecodeUtf8(bytes).Some? { Utf8Exact(bytes); }
    forall s ensures EncodeUtf8(s) == bytes ==> DecodeUtf8(bytes) == Some(s) { Utf8RoundTrip(s); }
  }

  /** The same for UTF-16: a count of units, the units, and one byte more than they take. */
  lemma Utf16StringVerdicts(data: seq<byte>, pos: nat)
    requires pos <= |data|
    ensures var t := Utf16StringAt(data, pos);
            if |data| < pos + 2 then t.verdict.Incomplete?
            else
              var size: nat := U16At(data, pos);
              if |data| <= pos + 2 + 2 * size then t.verdict.Incomplete?
              else
                && (forall s :: t.verdict == Parsed(s) <==>
                      |EncodeUtf16(s)| == size &&
                      forall i | 0 <= i < size :: EncodeUtf16(s)[i] == U16At(data, pos + 2 + 2 * i))
                && (t.verdict.Parsed? ==> t.next == pos + 2 + 2 * size)
                && (t.verdict.Parsed? || t == Read(Malformed(NotValidStringEncoding), pos))
  {
    hide DecodeUtf16, EncodeUtf16;
    if |data| >= pos + 2 {
      var size: nat := U16At(data, pos);
      if |data| > pos + 2 + 2 * size {
        var u := Units(data, pos + 2, size);
        Utf16Answer(u);
      }
    }
  }

  lemma Utf16Answer(u: seq<u16>)
    ensures forall s :: DecodeUtf16(u) == Some(s) <==> EncodeUtf16(s) == u
  {
    hide DecodeUtf16, EncodeUtf16;
    if DecodeUtf16(u).Some? { Utf16Exact(u); }
    forall s ensures EncodeUtf16(s) == u ==> DecodeUtf16(u) == Some(s) { Utf16RoundTrip(s); }
  }

  // Every reader looks only at the bytes it takes (the UTF-16 reader at one more)

  lemma VarintWindow(a: seq<byte>, b: seq<byte>, pos: nat)
    requires a <= b && pos <= |a|
    ensures !VarintAt(a, pos).verdict.Incomplete? ==> VarintAt(b, pos) == VarintAt(a, pos)
    ensures VarintAt(b, pos).verdict.Parsed? && VarintAt(b, pos).next <= |a| ==> VarintAt(a, pos) == VarintAt(b, pos)
  {
    ContinuationRunMeaning(a, pos, 5);
    ContinuationRunMeaning(b, pos, 5);
    var n := ContinuationRun(a, pos, 5);
    if n == 5 || pos + n < |a| {
      assert forall i | pos <= i < pos + n :: b[i] == a[i];
      ContinuationRunIs(b, pos, 5, n);
      assert pos + n < |a| ==> a[pos..pos + n + 1] == b[pos..pos + n + 1];
    }
  }

  lemma Utf8StringWindow(a: seq<byte>, b: seq<byte>, pos: nat)
    requires a <= b && pos <= |a|
    ensures !Utf8StringAt(a, pos).verdict.Incomplete? ==> Utf8StringAt(b, pos) == Utf8StringAt(a, pos)
    ensures Utf8StringAt(b, pos).verdict.Parsed? && Utf8StringAt(b, pos).next <= |a| ==>
              Utf8StringAt(a, pos) == Utf8StringAt(b, pos)
  {
    VarintWindow(a, b, pos);
    VarintVerdicts(a, pos);
    VarintVerdicts(b, pos);
    var r := VarintAt(b, pos);
    if r.verdict.Parsed? && r.next <= |a| {
      var size := SignExtend(r.verdict.value);
      if r.next + size <= |a| {
        assert a[r.next..r.next + size] == b[r.next..r.next + size];
      }
    }
  }

  lemma Utf16StringWindow(a: seq<byte>, b: seq<byte>, pos: nat)
    requires a <= b && pos <= |a|
    ensures !Utf16StringAt(a, pos).verdict.Incomplete? ==> Utf16StringAt(b, pos) == Utf16StringAt(a, pos)
    ensures Utf16StringAt(b, pos).verdict.Parsed? && Utf16StringAt(b, pos).next < |a| ==>
              Utf16StringAt(a, pos) == Utf16StringAt(b, pos)
  {
    if |a| - pos >= 2 {
      var size: nat := U16At(a, pos);
      if pos + 2 + 2 * size < |a| {
        assert Units(a, pos + 2, size) == Units(b, pos + 2, size);
      }
    }
  }

  // The readers

  function ShiftLeft32(d: nat, k: nat): u32 {
    d * Pow2(k) % 0x1_0000_0000
  }

  /** `tokio::io` cursor over a borrowed buffer. */
  class ReadCursor {
    const data: seq<byte>
    var pos: nat

    ghost predicate Valid()
      reads this
    {
      pos <= |data|
    }

    constructor (data: seq<byte>)
      ensures Valid() && this.data == data && pos == 0
    {
      this.data := data;
      pos := 0;
    }

    function Remaining(): nat
      reads this
      requires Valid()
    {
      |data| - pos
    }

    method SetPosition(p: nat)
      requires p <= |data|
      modifies this
      ensures Valid() && pos == p
    {
      pos := p;
    }

    method GetU8() returns (b: byte)
      requires Valid() && Remaining() >= 1
      modifies this
      ensures Valid() && pos == old(pos) + 1 && b == data[old(pos)]
    {
      b := data[pos];
      pos := pos + 1;
    }

    method GetU16() returns (n: u16)
      requires Valid() && Remaining() >= 2
      modifies this
      ensures Valid() && pos == old(pos) + 2 && n == U16At(data, old(pos))
    {
      n := U16At(data, pos);
      pos := pos + 2;
    }

    method GetU32() returns (n: u32)
      requires Valid() && Remaining() >= 4
      modifies this
      ensures Valid() && pos == old(pos) + 4 && n == U32At(data, old(pos))
    {
      n := U32At(data, pos);
      pos := pos + 4;
    }

    /** Moves past `bytes` when they come next and stays put otherwise. */
    method MatchBytes(bytes: seq<byte>) returns (matched: bool)
      requires Valid()
      modifies this
      ensures Valid()
      ensures matched == MatchesAt(data, old(pos), bytes)
      ensures pos == if matched then old(pos) + |bytes| else old(pos)
    {
      if Remaining() < |bytes| {
        return false;
      }
      for i := 0 to |bytes|
        invariant pos == old(pos)
        invariant data[pos..pos + i] == bytes[..i]
      {
        if data[pos + i] != bytes[i] {
          assert data[pos..pos + |bytes|][i] != bytes[i];
          return false;
        }
        assert data[pos..pos + i + 1] == data[pos..pos + i] + [data[pos + i]];
        assert bytes[..i + 1] == bytes[..i] + [bytes[i]];
      }
      pos := pos + |bytes|;
      return true;
    }

    /** Ors shifted seven-bit groups into a 32-bit word, as the wire format asks. */
    method GetVarint() returns (r: Verdict<i32>)
      requires Valid()
      modifies this
      ensures Valid() && Read(r, pos) == VarintAt(data, old(pos))
    {
      var value: u32 := 0;
      var position := 0;
      ghost var start := pos;
      for i := 0 to 5
        invariant Valid() && pos == start + i && position == 7 * i
        invariant AllContinue(data, start, pos)
        invariant i < 5 ==> value == Base128(data[start..pos])
      {
        if Remaining() < 1 {
          VarintIs(data, start, i);
          return Incomplete;
        }
        var currentByte := GetU8();
        OrDigit(data, start, i, value);
        value := BitOr(value, ShiftLeft32(currentByte % 128, position));
        position := position + 7;
        if currentByte < 0x80 {
          VarintIs(data, start, i);
          return Parsed(ToI32(value));
        }
      }
      VarintIs(data, start, 5);
      return Malformed(NotValid);
    }

    method GetUtf8String() returns (r: Verdict<string>)
      requires Valid()
      modifies this
      ensures Valid() && Read(r, pos) == Utf8StringAt(data, old(pos))
    {
      VarintVerdicts(data, pos);
      var length := GetVarint();
      match length {
        case Incomplete => return Incomplete;
        case Malformed(e) => return Malformed(e);
        case Parsed(n) =>
          var size := SignExtend(n);
          if Remaining() < size {
            return Incomplete;
          }
          var blob := data[pos..pos + size];
          var result := DecodeUtf8(blob);
          pos := pos + size;
          match result {
            case Some(s) => return Parsed(s);
            case None => return Malformed(NotValidStringEncoding);
          }
      }
    }

    method GetUtf16String() returns (r: Verdict<string>)
      requires Valid()
      modifies this
      ensures Valid() && Read(r, pos) == Utf16StringAt(data, old(pos))
    {
      var cursorStart := pos;
      if Remaining() < 2 {
        return Incomplete;
      }
      var size: nat := GetU16();
      if Remaining() <= 2 * size {
        return Incomplete;
      }
      var units: seq<u16> := [];
      for i := 0 to size
        invariant |units| == i && pos == cursorStart + 2 + 2 * i && pos <= |data|
        invariant cursorStart + 2 + 2 * size < |data|
        invariant forall k | 0 <= k < i :: units[k] == U16At(data, cursorStart + 2 + 2 * k)
      {
        var unit := GetU16();
        units := units + [unit];
      }
      assert units == Units(data, cursorStart + 2, size);
      match DecodeUtf16(units) {
        case Some(s) => return Parsed(s);
        case None =>
          SetPosition(cursorStart);
          return Malformed(NotValidStringEncoding);
      }
    }
  }

  lemma SetContinuation(d: nat)
    requires d < 128
    ensures BitOr(d, 0x80) == d + 0x80
  {
    Pow2Values();
    BitOrDisjoint(d, 1, 7);
  }

  /** Or-ing in digit `i` of a VarInt extends its base-128 sum, truncated to 32 bits. */
  lemma OrDigit(data: seq<byte>, start: nat, i: nat, value: nat)
    requires i < 5 && start + i < |data| && value == Base128(data[start..start + i])
    ensures var r := BitOr(value, ShiftLeft32(data[start + i] % 128, 7 * i));
            && r == Base128(data[start..start + i + 1]) % 0x1_0000_0000
            && (i < 4 ==> r == Base128(data[start..start + i + 1]))
  {
    hide Base128, BitOr, Pow2, ShiftLeft32;
    var digits := data[start..start + i];
    assert data[start..start + i + 1] == digits + [data[start + i]];
    Base128Append(digits, data[start + i]);
    var d := data[start + i] % 128;
    var kept := if i < 4 then d else d % 16;
    ShiftedDigit(d, i);
    BitOrDisjoint(value, kept, 7 * i);
    TruncatedSum(value, d, i);
  }

  /** Only four bits of the fifth digit fit a 32-bit word. */
  lemma ShiftedDigit(d: nat, i: nat)
    requires i < 5 && d < 128
    ensures ShiftLeft32(d, 7 * i) == (if i < 4 then d else d % 16) * Pow2(7 * i)
  {
    Pow2Values();
    if i == 4 {
      assert d * 0x1000_0000 == d / 16 * 0x1_0000_0000 + d % 16 * 0x1000_0000;
    } else {
      assert Pow2(7 * i) <= 0x20_0000 by { assert i == 0 || i == 1 || i == 2 || i == 3; }
      assert d * Pow2(7 * i) <= 127 * 0x20_0000 by { MulMono(d, Pow2(7 * i), 0x20_0000); }
    }
  }

  lemma MulMono(d: nat, p: nat, bound: nat)
    requires d < 128 && p <= bound
    ensures d * p <= 127 * bound
  {
  }

  lemma TruncatedSum(value: nat, d: nat, i: nat)
    requires i < 5 && d < 128 && value < Pow2(7 * i)
    ensures (value + d * Pow2(7 * i)) % 0x1_0000_0000 == value + (if i < 4 then d else d % 16) * Pow2(7 * i)
    ensures i < 4 ==> value + d * Pow2(7 * i) < 0x1_0000_0000
  {
    Pow2Values();
    if i == 4 {
      assert d * 0x1000_0000 == d / 16 * 0x1_0000_0000 + d % 16 * 0x1000_0000;
    } else {
      assert Pow2(7 * i) <= 0x20_0000 by { assert i == 0 || i == 1 || i == 2 || i == 3; }
      MulMono(d, Pow2(7 * i), 0x20_0000);
    }
  }

  // The writers

  /** At most five rounds; the loop is always left by its return. */
  method PutVarint(buf: BytesMut, v: i32)
    modifies buf
    ensures buf.data == old(buf.data) + EncodeVarint(ToU32(v))
  {
    var value: u32 := ToU32(v);
    EncodeVarintAtMostFive(value);
    for i := 0 to 5
      invariant buf.data + EncodeVarint(value) == old(buf.data) + EncodeVarint(ToU32(v))
      invariant |EncodeVarint(value)| <= 5 - i
    {
      if value < 0x80 {
        buf.PutU8(value);
        return;
      }
      SetContinuation(value % 128);
      buf.PutU8(BitOr(value % 128, 0x80));
      value := value / 128;
    }
    assert false;
  }

  method PutUtf8String(buf: BytesMut, s: string)
    modifies buf
    ensures buf.data == old(buf.data) + EncodeUtf8String(s)
  {
    var bytes := EncodeUtf8(s);
    PutVarint(buf, ToI32(|bytes| % 0x1_0000_0000));
    buf.Put(bytes);
  }
}
