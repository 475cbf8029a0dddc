/** Machine integers, byte order and the small containers every other module uses. */
module Basics {

  datatype Option<+T> = None | Some(value: T)

  type byte = x: int | 0 <= x < 0x100
  type u16 = x: int | 0 <= x < 0x1_0000
  type u32 = x: int | 0 <= x < 0x1_0000_0000
  type i32 = x: int | -0x8000_0000 <= x < 0x8000_0000
  type usize = x: int | 0 <= x < 0x1_0000_0000_0000_0000

  const USIZE_MAX: usize := 0xFFFF_FFFF_FFFF_FFFF

  /** The two's complement reading of a 32-bit word. */
  function ToI32(u: u32): i32 {
    if u < 0x8000_0000 then u else u - 0x1_0000_0000
  }

  /** The 32-bit word behind a signed value. */
  function ToU32(v: i32): u32 {
    if v < 0 then v + 0x1_0000_0000 else v
  }

  /** An `as usize` cast of a signed 32-bit value on a 64-bit target: the sign is extended. */
  function SignExtend(v: i32): usize {
    if v < 0 then v + 0x1_0000_0000_0000_0000 else v
  }

  function SaturatingAdd(a: usize, b: usize): usize {
    if a + b > USIZE_MAX then USIZE_MAX else a + b
  }

  function SaturatingSub(a: usize, b: usize): usize {
    if a < b then 0 else a - b
  }

  // Bitwise or

  function Pow2(k: nat): (r: nat)
    ensures r >= 1
  {
    if k == 0 then 1 else 2 * Pow2(k - 1)
  }

  /** Bitwise `|`, bit by bit. */
  function BitOr(a: nat, b: nat): nat
    decreases a + b
  {
    if a == 0 && b == 0 then 0
    else (if a % 2 == 1 || b % 2 == 1 then 1 else 0) + 2 * BitOr(a / 2, b / 2)
  }

  lemma {:induction false} BitOrZero(b: nat)
    ensures BitOr(0, b) == b
  {
    if b != 0 { BitOrZero(b / 2); }
  }

  /** Or-ing in digits above bit `k` is addition when the low operand has only `k` bits. */
  lemma {:induction false} BitOrDisjoint(a: nat, q: nat, k: nat)
    requires a < Pow2(k)
    ensures BitOr(a, q * Pow2(k)) == a + q * Pow2(k)
  {
    if k == 0 {
      BitOrZero(q);
    } else {
      var b := q * Pow2(k);
      assert b == 2 * (q * Pow2(k - 1));
      BitOrDisjoint(a / 2, q, k - 1);
    }
  }

  // Byte order

  function Be16(n: u16): (r: seq<byte>)
    ensures |r| == 2
  {
    [n / 256, n % 256]
  }

  function Be32(n: u32): (r: seq<byte>)
    ensures |r| == 4
  {
    [n / 0x100_0000, n / 0x1_0000 % 256, n / 256 % 256, n % 256]
  }

  function U16At(data: seq<byte>, pos: nat): u16
    requires pos + 2 <= |data|
  {
    data[pos] as int * 256 + data[pos + 1]
  }

  function U32At(data: seq<byte>, pos: nat): u32
    requires pos + 4 <= |data|
  {
    U16At(data, pos) as int * 0x1_0000 + U16At(data, pos + 2)
  }

  lemma Be16At(data: seq<byte>, pos: nat, n: u16)
    requires pos + 2 <= |data| && data[pos..pos + 2] == Be16(n)
    ensures U16At(data, pos) == n
  {
    assert data[pos] == data[pos..pos + 2][0] && data[pos + 1] == data[pos..pos + 2][1];
  }

  lemma Be32At(data: seq<byte>, pos: nat, n: u32)
    requires pos + 4 <= |data| && data[pos..pos + 4] == Be32(n)
    ensures U32At(data, pos) == n
  {
    var w := data[pos..pos + 4];
    assert data[pos] == w[0] && data[pos + 1] == w[1] && data[pos + 2] == w[2] && data[pos + 3] == w[3];
    FourDigits(n);
  }

  lemma FourDigits(n: nat)
    ensures n == (n / 0x100_0000 * 256 + n / 0x1_0000 % 256) * 0x1_0000 + (n / 256 % 256 * 256 + n % 256)
  {
    var high, low := n / 0x1_0000, n % 0x1_0000;
    assert high / 256 == n / 0x100_0000;
    assert n / 256 == 256 * high + low / 256 && n % 256 == low % 256;
    assert n / 256 % 256 == low / 256;
  }

  // Sums over sequences: both counts and measures are sums of weights

  function Sum<T>(s: seq<T>, w: T -> nat): nat {
    if s == [] then 0 else w(s[0]) + Sum(s[1..], w)
  }

  lemma {:induction false} SumConcat<T>(a: seq<T>, b: seq<T>, w: T -> nat)
    ensures Sum(a + b, w) == Sum(a, w) + Sum(b, w)
  {
    if a == [] {
      assert a + b == b;
    } else {
      assert (a + b)[1..] == a[1..] + b;
      SumConcat(a[1..], b, w);
    }
  }

  lemma SumAppend<T>(a: seq<T>, x: T, w: T -> nat)
    ensures Sum(a + [x], w) == Sum(a, w) + w(x)
  {
    SumConcat(a, [x], w);
    assert [x][1..] == [];
  }

  lemma {:induction false} SumUpdate<T>(s: seq<T>, i: nat, x: T, w: T -> nat)
    requires i < |s|
    ensures Sum(s[i := x], w) + w(s[i]) == Sum(s, w) + w(x)
  {
    if i == 0 {
      assert s[i := x][1..] == s[1..];
    } else {
      assert s[i := x][1..] == s[1..][i - 1 := x];
      SumUpdate(s[1..], i - 1, x, w);
    }
  }

  /** One element never weighs more than the whole. */
  lemma {:induction false} SumMember<T>(s: seq<T>, i: nat, w: T -> nat)
    requires i < |s|
    ensures w(s[i]) <= Sum(s, w)
  {
    if i > 0 { SumMember(s[1..], i - 1, w); }
  }

  function Flatten<T>(parts: seq<seq<T>>): seq<T> {
    if parts == [] then [] else parts[0] + Flatten(parts[1..])
  }

  lemma {:induction false} FlattenAppend<T>(parts: seq<seq<T>>, x: seq<T>)
    ensures Flatten(parts + [x]) == Flatten(parts) + x
  {
    if parts == [] {
      assert [x][1..] == [];
    } else {
      assert (parts + [x])[1..] == parts[1..] + [x];
      FlattenAppend(parts[1..], x);
    }
  }

  // Casts and byte order in numbers

  /** A cast keeps the value modulo the width; of a signed word the sign is extended to 64 bits. */
  lemma Casts(u: u32, v: i32)
    ensures (ToI32(u) as int - u) % 0x1_0000_0000 == 0 && (ToU32(v) as int - v) % 0x1_0000_0000 == 0
    ensures SignExtend(v) == if v >= 0 then v as int else 0x1_0000_0000_0000_0000 + v
  {
  }

  /** The most significant byte comes first. */
  lemma BigEndian16(a: byte, b: byte)
    ensures U16At([a, b], 0) == a as int * 256 + b && Be16(a as int * 256 + b) == [a, b]
  {
  }

  lemma BigEndian32(a: byte, b: byte, c: byte, d: byte)
    ensures U32At([a, b, c, d], 0) == a as int * 0x100_0000 + b as int * 0x1_0000 + c as int * 256 + d
  {
    BigEndian16(a, b);
    BigEndian16(c, d);
    var whole := [a, b, c, d];
    assert U16At(whole, 0) == a as int * 256 + b && U16At(whole, 2) == c as int * 256 + d;
  }

  lemma BigEndianWritten(a: byte, b: byte, c: byte, d: byte)
    ensures Be32(a as int * 0x100_0000 + b as int * 0x1_0000 + c as int * 256 + d) == [a, b, c, d]
  {
    var n := a as int * 0x100_0000 + b as int * 0x1_0000 + c as int * 256 + d;
    assert n / 256 == a as int * 0x1_0000 + b as int * 256 + c;
    assert n / 0x1_0000 == a as int * 256 + b;
    assert n / 0x100_0000 == a;
  }
}
