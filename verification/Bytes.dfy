// Fixed-width integers and their little-endian byte images.

module Bytes {
  datatype Option<+T> = None | Some(value: T)

  type u8 = x: int | 0 <= x < 0x100
  type u16 = x: int | 0 <= x < 0x1_0000
  type u32 = x: int | 0 <= x < 0x1_0000_0000

  const U32_MAX: int := 0xFFFF_FFFF

  /** 32-bit addition and subtraction wrap around, as in C. */
  function Add32(a: u32, b: u32): u32 { (a + b) % 0x1_0000_0000 }

  function Sub32(a: u32, b: u32): u32 { (a - b) % 0x1_0000_0000 }

  function Succ16(a: u16): u16 { (a + 1) % 0x1_0000 }

  function PutU16(v: u16): (b: seq<u8>)
    ensures |b| == 2
  {
    [v % 0x100, v / 0x100]
  }

  function PutU32(v: u32): (b: seq<u8>)
    ensures |b| == 4
  {
    [v % 0x100, v / 0x100 % 0x100, v / 0x1_0000 % 0x100, v / 0x100_0000]
  }

  function GetU16(b: seq<u8>, i: nat): u16
    requires i + 2 <= |b|
  {
    (b[i] as int) + 0x100 * (b[i + 1] as int)
  }

  function GetU32(b: seq<u8>, i: nat): u32
    requires i + 4 <= |b|
  {
    (b[i] as int) + 0x100 * (b[i + 1] as int) + 0x1_0000 * (b[i + 2] as int) + 0x100_0000 * (b[i + 3] as int)
  }

  lemma U16RoundTrip(v: u16)
    ensures GetU16(PutU16(v), 0) == v
  {
  }

  lemma DivTwice(v: nat, d: nat)
    requires d == 0x100 || d == 0x1_0000
    ensures v / d == v / (d * 0x100) * 0x100 + v / d % 0x100
  {
  }

  lemma U32RoundTrip(v: u32)
    ensures GetU32(PutU32(v), 0) == v
  {
    DivTwice(v, 0x100);
    DivTwice(v, 0x1_0000);
  }

  lemma U16Bytes(b: seq<u8>)
    requires |b| == 2
    ensures PutU16(GetU16(b, 0)) == b
  {
  }

  lemma U32Bytes(b: seq<u8>)
    requires |b| == 4
    ensures PutU32(GetU32(b, 0)) == b
  {
    var v := GetU32(b, 0);
    U32RoundTrip(v);
    U32Injective(PutU32(v), b);
  }

  /** Reading a word depends only on the four bytes that are read. */
  lemma U32Slice(b: seq<u8>, i: nat)
    requires i + 4 <= |b|
    ensures GetU32(b, i) == GetU32(b[i..i + 4], 0)
  {
  }

  lemma SplitWord(v: int, b: u8, rest: int)
    requires v == b + 0x100 * rest
    ensures b == v % 0x100 && rest == v / 0x100
  {
  }

  function Rest3(b: seq<u8>): int
    requires |b| == 4
  {
    (b[1] as int) + 0x100 * Rest2(b)
  }

  function Rest2(b: seq<u8>): int
    requires |b| == 4
  {
    (b[2] as int) + 0x100 * (b[3] as int)
  }

  /** Little-endian decoding is injective: equal words have equal bytes. */
  lemma U32Injective(a: seq<u8>, b: seq<u8>)
    requires |a| == |b| == 4 && GetU32(a, 0) == GetU32(b, 0)
    ensures a == b
  {
    SplitWord(GetU32(a, 0), a[0], Rest3(a));
    SplitWord(GetU32(b, 0), b[0], Rest3(b));
    SplitWord(Rest3(a), a[1], Rest2(a));
    SplitWord(Rest3(b), b[1], Rest2(b));
    SplitWord(Rest2(a), a[2], a[3]);
    SplitWord(Rest2(b), b[2], b[3]);
  }

  /** The bytes of an ASCII literal. */
  function Ascii(s: string): (b: seq<u8>)
    ensures |b| == |s|
    ensures forall i :: 0 <= i < |s| ==> b[i] == s[i] as int % 0x100
  {
    seq(|s|, i requires 0 <= i < |s| => s[i] as int % 0x100)
  }

  /** The bitwise conjunction of the low n bits. */
  function AndBits(a: nat, b: nat, n: nat): (r: nat)
    ensures r <= a && r <= b
  {
    if n == 0 then 0
    else (if a % 2 == 1 && b % 2 == 1 then 1 else 0) + 2 * AndBits(a / 2, b / 2, n - 1)
  }

  /** What programming a flash byte does: a set bit can only be cleared. */
  function And8(a: u8, b: u8): u8 { AndBits(a, b, 8) }

  function Ones(n: nat): nat { if n == 0 then 0 else 1 + 2 * Ones(n - 1) }

  lemma {:induction false} AndOnes(b: nat, n: nat)
    requires b <= Ones(n)
    ensures AndBits(Ones(n), b, n) == b && AndBits(b, Ones(n), n) == b
  {
    if n > 0 {
      assert Ones(n) / 2 == Ones(n - 1);
      AndOnes(b / 2, n - 1);
    }
  }

  lemma And8Erased(b: u8)
    ensures And8(0xFF, b) == b && And8(b, 0xFF) == b
  {
    assert Ones(8) == 0xFF by { assert Ones(4) == 0xF; }
    AndOnes(b, 8);
  }

  // ---- What the encodings and the arithmetic mean ----

  /** The number in two and in four bytes, the lowest first. */
  function Le16(a: u8, b: u8): u16 { (a as int) + 256 * (b as int) }

  function Le32(a: u8, b: u8, c: u8, d: u8): u32 {
    (a as int) + 256 * (b as int) + 65536 * (c as int) + 16777216 * (d as int)
  }

  /** A number is written as the bytes that make it up, and read from them. */
  lemma LittleEndian(v: u32, w: u16, b: seq<u8>, i: nat)
    requires i + 4 <= |b|
    ensures var p := PutU32(v); |p| == 4 && Le32(p[0], p[1], p[2], p[3]) == v
    ensures var p := PutU16(w); |p| == 2 && Le16(p[0], p[1]) == w
    ensures GetU32(b, i) == Le32(b[i], b[i + 1], b[i + 2], b[i + 3])
    ensures GetU16(b, i) == Le16(b[i], b[i + 1])
  {
    U32RoundTrip(v);
    U16RoundTrip(w);
  }

  /** Arithmetic is that of unsigned machine words. */
  lemma WrapAround(a: u32, b: u32, s: u16)
    ensures Add32(a, b) == (if a + b < 0x1_0000_0000 then a + b else a + b - 0x1_0000_0000)
    ensures Sub32(a, b) == (if a >= b then a - b else a - b + 0x1_0000_0000)
    ensures Succ16(s) == (if s == 65535 then 0 else s + 1)
  {
  }

  predicate Bit(a: nat, k: nat)
    decreases k
  {
    if k == 0 then a % 2 == 1 else Bit(a / 2, k - 1)
  }

  /** Programming clears exactly the bits that are clear in the data. */
  lemma {:induction false} AndBitsExact(a: nat, b: nat, n: nat, k: nat)
    ensures Bit(AndBits(a, b, n), k) <==> k < n && Bit(a, k) && Bit(b, k)
    decreases n
  {
    if n == 0 {
      ZeroBits(k);
    } else if k > 0 {
      AndBitsExact(a / 2, b / 2, n - 1, k - 1);
    }
  }

  lemma {:induction false} ZeroBits(k: nat)
    ensures !Bit(0, k)
  {
    if k > 0 { ZeroBits(k - 1); }
  }

  lemma AndExact(a: u8, b: u8, k: nat)
    ensures Bit(And8(a, b), k) <==> k < 8 && Bit(a, k) && Bit(b, k)
  {
    AndBitsExact(a, b, 8, k);
  }
}
