// tm4c123gxl/common/src/ota_crc32.c: the reflected CRC-32.

module Crc32 {
  import opened Bytes

  const INITIAL: bv32 := 0xFFFF_FFFF
  const FINAL_XOR: bv32 := 0xFFFF_FFFF
  const POLYNOMIAL: bv32 := 0xEDB8_8320

  /** One turn of the inner loop. */
  function BitStep(crc: bv32): bv32 {
    if crc & 1 != 0 then (crc >> 1) ^ POLYNOMIAL else crc >> 1
  }

  function Xor(a: bv32, b: bv32): bv32 { a ^ b }

  /** f applied n times. */
  function Iterate<T>(f: T -> T, c: T, n: nat): T {
    if n == 0 then c else f(Iterate(f, c, n - 1))
  }

  function BitSteps(crc: bv32, n: nat): bv32 { Iterate(BitStep, crc, n) }

  function Push(bit: bool, p: bv32): bv32 { Xor(if bit then 1 else 0, p << 1) }

  /** The low n bits of b. */
  function Bits(b: nat, n: nat): bv32 {
    if n == 0 then 0 else Push(b % 2 == 1, Bits(b / 2, n - 1))
  }

  /** A byte widened to the register. */
  function Word(b: u8): bv32 { Bits(b, 8) }

  /** One turn of the outer loop. */
  function ByteStep(crc: bv32, b: u8): bv32 { BitSteps(Xor(crc, Word(b)), 8) }

  /** The register after a whole message. */
  function Update(crc: bv32, data: seq<u8>): bv32 {
    if data == [] then crc
    else ByteStep(Update(crc, data[..|data| - 1]), data[|data| - 1])
  }

  /** The number in the low n bits of x. */
  function ToInt(x: bv32, n: nat): (v: nat)
    ensures v <= Ones(n)
  {
    if n == 0 then 0 else (if x & 1 != 0 then 1 else 0) + 2 * ToInt(x >> 1, n - 1)
  }

  lemma OnesOfRegister()
    ensures Ones(32) == U32_MAX
  {
    assert Ones(4) == 0xF;
    assert Ones(8) == 0xFF;
    assert Ones(12) == 0xFFF;
    assert Ones(16) == 0xFFFF;
    assert Ones(20) == 0xF_FFFF;
    assert Ones(24) == 0xFF_FFFF;
    assert Ones(28) == 0xFFF_FFFF;
  }

  function Finish(crc: bv32): u32 {
    OnesOfRegister();
    ToInt(Xor(crc, FINAL_XOR), 32)
  }

  /** The one-shot checksum. */
  function Crc(data: seq<u8>): u32 { Finish(Update(INITIAL, data)) }

  /** ota_crc32_update, with its two loops. */
  method UpdateLoop(crc: bv32, data: seq<u8>) returns (r: bv32)
    ensures r == Update(crc, data)
  {
    hide BitStep, Xor, Word, BitSteps, Iterate;
    r := crc;
    var index := 0;
    while index < |data|
      invariant 0 <= index <= |data|
      invariant r == Update(crc, data[..index])
    {
      r := BitLoop(Xor(r, Word(data[index])));
      assert data[..index + 1][..index] == data[..index];
      index := index + 1;
    }
    assert data[..index] == data;
  }

  method BitLoop(crc: bv32) returns (r: bv32)
    ensures r == BitSteps(crc, 8)
  {
    r := crc;
    var bit := 0;
    while bit < 8
      invariant 0 <= bit <= 8
      invariant r == BitSteps(crc, bit)
    {
      if r & 1 != 0 {
        r := (r >> 1) ^ POLYNOMIAL;
      } else {
        r := r >> 1;
      }
      bit := bit + 1;
    }
  }

  // ---- The register composes over concatenation ----

  lemma {:induction false} UpdateConcat(crc: bv32, a: seq<u8>, b: seq<u8>)
    ensures Update(crc, a + b) == Update(Update(crc, a), b)
  {
    hide BitStep, Xor, Word;
    if b == [] {
      assert a + b == a;
    } else {
      var n := |b| - 1;
      UpdateConcat(crc, a, b[..n]);
      assert (a + b)[..|a + b| - 1] == a + b[..n];
    }
  }

  lemma UpdateNone(crc: bv32)
    ensures Update(crc, []) == crc
  {
  }

  lemma UpdateOne(crc: bv32, b: u8)
    ensures Update(crc, [b]) == ByteStep(crc, b)
  {
    hide BitStep, Xor, Word;
    assert [b][..0] == [];
  }

  // ---- Linearity over exclusive or ----

  lemma LowBit(a: bv32)
    ensures a & 1 == 0 || a & 1 == 1
  {
  }

  lemma LowBitXor(a: bv32, b: bv32)
    ensures a & 1 == b & 1 ==> (a ^ b) & 1 == 0
    ensures a & 1 != b & 1 ==> (a ^ b) & 1 == 1
  {
  }

  lemma LinearEven(a: bv32, b: bv32)
    requires a & 1 == 0 && b & 1 == 0 && (a ^ b) & 1 == 0
    ensures BitStep(a ^ b) == BitStep(a) ^ BitStep(b)
  {
  }

  lemma LinearMixed(a: bv32, b: bv32)
    requires a & 1 == 1 && b & 1 == 0 && (a ^ b) & 1 == 1
    ensures BitStep(a ^ b) == BitStep(a) ^ BitStep(b)
  {
  }

  lemma LinearOdd(a: bv32, b: bv32)
    requires a & 1 == 1 && b & 1 == 1 && (a ^ b) & 1 == 0
    ensures BitStep(a ^ b) == BitStep(a) ^ BitStep(b)
  {
  }

  lemma XorCommutes(a: bv32, b: bv32)
    ensures a ^ b == b ^ a
  {
  }

  lemma BitStepLinear(a: bv32, b: bv32)
    ensures BitStep(a ^ b) == BitStep(a) ^ BitStep(b)
  {
    LowBit(a);
    LowBit(b);
    LowBitXor(a, b);
    if a & 1 == b & 1 {
      if a & 1 == 0 { LinearEven(a, b); } else { LinearOdd(a, b); }
    } else if b & 1 == 0 {
      LinearMixed(a, b);
    } else {
      XorCommutes(a, b);
      XorCommutes(BitStep(a), BitStep(b));
      LowBitXor(b, a);
      LinearMixed(b, a);
    }
  }

  lemma {:induction false} IterateCommutes<T(!new)>(f: T -> T, op: (T, T) -> T, a: T, b: T, n: nat)
    requires forall p, q :: f(op(p, q)) == op(f(p), f(q))
    ensures Iterate(f, op(a, b), n) == op(Iterate(f, a, n), Iterate(f, b, n))
  {
    if n > 0 { IterateCommutes(f, op, a, b, n - 1); }
  }

  lemma {:induction false} IterateInjective<T(!new)>(f: T -> T, a: T, b: T, n: nat)
    requires forall p, q :: f(p) == f(q) ==> p == q
    requires Iterate(f, a, n) == Iterate(f, b, n)
    ensures a == b
  {
    if n > 0 { IterateInjective(f, a, b, n - 1); }
  }

  lemma {:induction false} IterateAdd<T>(f: T -> T, a: T, m: nat, n: nat)
    ensures Iterate(f, Iterate(f, a, m), n) == Iterate(f, a, m + n)
  {
    if n > 0 { IterateAdd(f, a, m, n - 1); }
  }

  lemma BitStepsLinear(a: bv32, b: bv32, n: nat)
    ensures BitSteps(Xor(a, b), n) == Xor(BitSteps(a, n), BitSteps(b, n))
  {
    forall p, q ensures BitStep(Xor(p, q)) == Xor(BitStep(p), BitStep(q)) { BitStepLinear(p, q); }
    hide BitStep, Xor;
    IterateCommutes(BitStep, Xor, a, b, n);
  }

  /** The polynomial has its top coefficient, so a step loses nothing. */
  lemma BitStepInjective(a: bv32, b: bv32)
    requires BitStep(a) == BitStep(b)
    ensures a == b
  {
    LowBit(a);
    LowBit(b);
  }

  lemma BitStepsInjective(a: bv32, b: bv32, n: nat)
    requires BitSteps(a, n) == BitSteps(b, n)
    ensures a == b
  {
    hide BitStep;
    forall p, q | BitStep(p) == BitStep(q) ensures p == q { BitStepInjective(p, q); }
    IterateInjective(BitStep, a, b, n);
  }

  // ---- The table form (section 8 of RFC 1952) ----

  function ShiftUp(x: bv32): bv32 { x << 8 }

  function ShiftDown(x: bv32): bv32 { x >> 8 }

  function LowByte(x: bv32): bv32 { x & 0xFF }

  /** Entry n of the table. */
  function Table(n: bv32): bv32 { BitSteps(n, 8) }

  predicate Below24(x: bv32) { x < 0x100_0000 }

  lemma Shift8(y: bv32) requires Below24(y) ensures BitStep(ShiftUp(y)) == y << 7 {}

  lemma Shift7(y: bv32) requires Below24(y) ensures BitStep(y << 7) == y << 6 {}

  lemma Shift6(y: bv32) requires Below24(y) ensures BitStep(y << 6) == y << 5 {}

  lemma Shift5(y: bv32) requires Below24(y) ensures BitStep(y << 5) == y << 4 {}

  lemma Shift4(y: bv32) requires Below24(y) ensures BitStep(y << 4) == y << 3 {}

  lemma Shift3(y: bv32) requires Below24(y) ensures BitStep(y << 3) == y << 2 {}

  lemma Shift2(y: bv32) requires Below24(y) ensures BitStep(y << 2) == y << 1 {}

  lemma Shift1(y: bv32) requires Below24(y) ensures BitStep(y << 1) == y {}

  lemma EightTimes<T>(f: T -> T, c: T)
    ensures Iterate(f, c, 8) == f(f(f(f(f(f(f(f(c))))))))
  {
    assert Iterate(f, c, 0) == c;
    assert Iterate(f, c, 4) == f(f(f(f(c))));
  }

  lemma Eight(c: bv32)
    ensures BitSteps(c, 8) ==
      BitStep(BitStep(BitStep(BitStep(BitStep(BitStep(BitStep(BitStep(c))))))))
  {
    hide BitStep;
    EightTimes(BitStep, c);
  }

  /** Eight steps move a value whose low byte is clear down by one byte. */
  lemma ShiftOut(y: bv32)
    requires Below24(y)
    ensures BitSteps(ShiftUp(y), 8) == y
  {
    hide BitStep, ShiftUp, Below24;
    Eight(ShiftUp(y));
    Shift8(y);
    Shift7(y);
    Shift6(y);
    Shift5(y);
    Shift4(y);
    Shift3(y);
    Shift2(y);
    Shift1(y);
  }

  lemma SplitLowByte(x: bv32)
    ensures x == Xor(LowByte(x), ShiftUp(ShiftDown(x)))
    ensures Below24(ShiftDown(x))
  {
  }

  predicate Fits(x: bv32, n: nat) {
    if n == 0 then x == 0 else if n == 1 then x < 2 else if n == 2 then x < 4
    else if n == 3 then x < 8 else if n == 4 then x < 16 else if n == 5 then x < 32
    else if n == 6 then x < 64 else if n == 7 then x < 128 else n == 8 && x < 256
  }

  lemma FitsGrows(bit: bool, p: bv32, n: nat)
    requires n < 8 && Fits(p, n)
    ensures Fits(Push(bit, p), n + 1)
  {
  }

  lemma {:induction false} BitsFit(b: nat, n: nat)
    requires n <= 8
    ensures Fits(Bits(b, n), n)
  {
    hide Push, Fits;
    if n > 0 {
      BitsFit(b / 2, n - 1);
      FitsGrows(b % 2 == 1, Bits(b / 2, n - 1), n - 1);
    } else {
      NothingFits();
    }
  }

  lemma NothingFits()
    ensures Fits(0, 0)
  {
  }

  lemma HighPart(crc: bv32, w: bv32)
    requires w < 256
    ensures ShiftDown(Xor(crc, w)) == ShiftDown(crc)
  {
  }

  lemma WordIsByte(b: u8)
    ensures Word(b) < 256
  {
    hide Bits;
    BitsFit(b, 8);
  }

  lemma WordIsLow(crc: bv32, b: u8)
    ensures ShiftDown(Xor(crc, Word(b))) == ShiftDown(crc)
  {
    hide Xor, ShiftDown, Bits;
    WordIsByte(b);
    HighPart(crc, Word(b));
  }

  /** The bitwise loop computes the table-driven recurrence. */
  lemma ByteStepIsTableStep(crc: bv32, b: u8)
    ensures ByteStep(crc, b) == Xor(Table(LowByte(Xor(crc, Word(b)))), ShiftDown(crc))
  {
    hide BitStep, Xor, Word, ShiftUp, ShiftDown, LowByte, Below24;
    var x := Xor(crc, Word(b));
    SplitLowByte(x);
    BitStepsLinear(LowByte(x), ShiftUp(ShiftDown(x)), 8);
    ShiftOut(ShiftDown(x));
    WordIsLow(crc, b);
  }

  // ---- Burst errors ----

  lemma Pop(bit: bool, p: bv32, n: nat)
    requires n < 8 && Fits(p, n)
    ensures Push(bit, p) & 1 == (if bit then 1 else 0)
    ensures Push(bit, p) >> 1 == p
  {
    assert p < 128;
  }

  lemma PushInjective(x: bool, p: bv32, y: bool, q: bv32, n: nat)
    requires n < 8 && Fits(p, n) && Fits(q, n) && Push(x, p) == Push(y, q)
    ensures x == y && p == q
  {
    hide Push, Fits;
    Pop(x, p, n);
    Pop(y, q, n);
  }

  lemma {:induction false} BitsInjective(a: nat, b: nat, n: nat)
    requires n <= 8 && a <= Ones(n) && b <= Ones(n) && Bits(a, n) == Bits(b, n)
    ensures a == b
  {
    hide Push, Fits;
    if n > 0 {
      BitsFit(a / 2, n - 1);
      BitsFit(b / 2, n - 1);
      PushInjective(a % 2 == 1, Bits(a / 2, n - 1), b % 2 == 1, Bits(b / 2, n - 1), n - 1);
      BitsInjective(a / 2, b / 2, n - 1);
    }
  }

  lemma WordInjective(a: u8, b: u8)
    requires Word(a) == Word(b)
    ensures a == b
  {
    hide Bits;
    assert Ones(8) == 0xFF by { assert Ones(4) == 0xF; }
    BitsInjective(a, b, 8);
  }

  lemma XorCancel(c: bv32, a: bv32, b: bv32)
    ensures Xor(c, a) == Xor(c, b) ==> a == b
    ensures Xor(a, c) == Xor(b, c) ==> a == b
  {
    assert c ^ (c ^ a) == a;
    assert c ^ (c ^ b) == b;
    assert (a ^ c) ^ c == a;
    assert (b ^ c) ^ c == b;
  }

  lemma ByteStepInjective(c: bv32, d: bv32, b: u8)
    requires ByteStep(c, b) == ByteStep(d, b)
    ensures c == d
  {
    hide BitStep, Xor, Word;
    BitStepsInjective(Xor(c, Word(b)), Xor(d, Word(b)), 8);
    XorCancel(Word(b), c, d);
  }

  /** Equal continuations keep different registers different. */
  lemma {:induction false} UpdateInjective(c: bv32, d: bv32, data: seq<u8>)
    requires Update(c, data) == Update(d, data)
    ensures c == d
  {
    hide ByteStep;
    if data != [] {
      var n := |data| - 1;
      ByteStepInjective(Update(c, data[..n]), Update(d, data[..n]), data[n]);
      UpdateInjective(c, d, data[..n]);
    }
  }

  /** At most four bytes, the first one lowest, as the register combines them. */
  function Pack(data: seq<u8>): bv32
    requires |data| <= 4
  {
    if data == [] then 0 else Xor(Word(data[0]), ShiftUp(Pack(data[1..])))
  }

  predicate Narrow(x: bv32, n: nat) {
    if n == 0 then x == 0
    else if n == 1 then x < 0x100
    else if n == 2 then x < 0x1_0000
    else n == 3 && x < 0x100_0000
  }

  lemma NarrowGrows(w: bv32, p: bv32, n: nat)
    requires n < 3 && Narrow(p, n) && w < 256
    ensures Narrow(Xor(w, ShiftUp(p)), n + 1)
  {
  }

  lemma NarrowIsBelow24(p: bv32, n: nat)
    requires Narrow(p, n)
    ensures Below24(p)
  {
  }

  lemma {:induction false} PackNarrow(data: seq<u8>)
    requires |data| <= 3
    ensures Narrow(Pack(data), |data|)
  {
    hide Xor, Word, ShiftUp;
    if data != [] {
      PackNarrow(data[1..]);
      WordIsByte(data[0]);
      NarrowGrows(Word(data[0]), Pack(data[1..]), |data| - 1);
    }
  }

  lemma Unpack(w: bv32, p: bv32)
    requires Below24(p) && w < 256
    ensures LowByte(Xor(w, ShiftUp(p))) == w
    ensures ShiftDown(Xor(w, ShiftUp(p))) == p
  {
  }

  lemma {:induction false} PackInjective(x: seq<u8>, y: seq<u8>)
    requires |x| == |y| <= 4 && Pack(x) == Pack(y)
    ensures x == y
  {
    hide Xor, Word, ShiftUp, ShiftDown, LowByte, Below24, Narrow;
    if x != [] {
      PackNarrow(x[1..]);
      PackNarrow(y[1..]);
      NarrowIsBelow24(Pack(x[1..]), |x| - 1);
      NarrowIsBelow24(Pack(y[1..]), |x| - 1);
      WordIsByte(x[0]);
      WordIsByte(y[0]);
      Unpack(Word(x[0]), Pack(x[1..]));
      Unpack(Word(y[0]), Pack(y[1..]));
      WordInjective(x[0], y[0]);
      PackInjective(x[1..], y[1..]);
      assert x == [x[0]] + x[1..] && y == [y[0]] + y[1..];
    }
  }

  lemma XorAssociates(a: bv32, b: bv32, c: bv32)
    ensures Xor(Xor(a, b), c) == Xor(a, Xor(b, c))
  {
  }

  lemma XorZero(a: bv32)
    ensures Xor(a, 0) == a
  {
  }

  /** Up to four bytes are absorbed as one word: the whole register is shifted
      once over all of their bits. */
  lemma {:induction false} UpdateIsWordStep(crc: bv32, data: seq<u8>)
    requires |data| <= 4
    ensures Update(crc, data) == BitSteps(Xor(crc, Pack(data)), 8 * |data|)
    decreases |data|
  {
    hide BitStep, Xor, Word, ShiftUp, Below24, Narrow;
    if data == [] {
      XorZero(crc);
    } else {
      var w, rest := Word(data[0]), data[1..];
      var p := Pack(rest);
      assert data == [data[0]] + rest;
      UpdateConcat(crc, [data[0]], rest);
      UpdateOne(crc, data[0]);
      UpdateIsWordStep(ByteStep(crc, data[0]), rest);
      PackNarrow(rest);
      NarrowIsBelow24(p, |rest|);
      ShiftOut(p);
      BitStepsLinear(Xor(crc, w), ShiftUp(p), 8);
      IterateAdd(BitStep, Xor(Xor(crc, w), ShiftUp(p)), 8, 8 * |rest|);
      XorAssociates(crc, w, ShiftUp(p));
    }
  }

  // ---- The checksum as a number and as bytes ----

  function Half(x: bv32): bv32 { x >> 1 }

  function Quarter(x: bv32): bv32 { x >> 2 }

  function Sixteenth(x: bv32): bv32 { x >> 4 }

  lemma HalfTwice(x: bv32) ensures Half(Half(x)) == Quarter(x) {}

  lemma QuarterTwice(x: bv32) ensures Quarter(Quarter(x)) == Sixteenth(x) {}

  lemma SixteenthTwice(x: bv32) ensures Sixteenth(Sixteenth(x)) == ShiftDown(x) {}

  lemma HalfEight(x: bv32)
    ensures Iterate(Half, x, 8) == ShiftDown(x)
  {
    hide Half, Quarter, Sixteenth, ShiftDown;
    EightTimes(Half, x);
    HalfTwice(x);
    HalfTwice(Quarter(x));
    QuarterTwice(x);
    HalfTwice(Sixteenth(x));
    HalfTwice(Quarter(Sixteenth(x)));
    QuarterTwice(Sixteenth(x));
    SixteenthTwice(x);
  }

  lemma AllDown(x: bv32)
    ensures ShiftDown(ShiftDown(ShiftDown(ShiftDown(x)))) == 0
  {
  }

  lemma HalfAll(x: bv32)
    ensures Iterate(Half, x, 32) == 0
  {
    hide Half, ShiftDown;
    IterateAdd(Half, x, 8, 8);
    IterateAdd(Half, x, 16, 8);
    IterateAdd(Half, x, 24, 8);
    HalfEight(x);
    HalfEight(ShiftDown(x));
    HalfEight(ShiftDown(ShiftDown(x)));
    HalfEight(ShiftDown(ShiftDown(ShiftDown(x))));
    AllDown(x);
  }

  lemma PushPop(x: bv32)
    ensures Push(x & 1 != 0, Half(x)) == x
  {
  }

  lemma {:induction false} ToIntBits(x: bv32, n: nat)
    requires Iterate(Half, x, n) == 0
    ensures Bits(ToInt(x, n), n) == x
    decreases n
  {
    hide Half, Push;
    if n > 0 {
      IterateAdd(Half, x, 1, n - 1);
      assert Iterate(Half, x, 1) == Half(x) by { assert Iterate(Half, x, 0) == x; }
      assert ToInt(x, n) == (if x & 1 != 0 then 1 else 0) + 2 * ToInt(Half(x), n - 1) by { HalfIs(x); }
      ToIntBits(Half(x), n - 1);
      PushPop(x);
    }
  }

  lemma HalfIs(x: bv32)
    ensures Half(x) == x >> 1
  {
  }

  /** The number of a register has the register's bits. */
  lemma FinishBits(crc: bv32)
    ensures Bits(Finish(crc), 32) == Xor(crc, FINAL_XOR)
  {
    HalfAll(Xor(crc, FINAL_XOR));
    ToIntBits(Xor(crc, FINAL_XOR), 32);
  }

  lemma FinishInjective(a: bv32, b: bv32)
    requires Finish(a) == Finish(b)
    ensures a == b
  {
    hide Finish, Bits, Xor;
    FinishBits(a);
    FinishBits(b);
    XorCancel(FINAL_XOR, a, b);
  }

  function Twice(x: bv32): bv32 { x << 1 }

  function Fourfold(x: bv32): bv32 { x << 2 }

  function Sixteenfold(x: bv32): bv32 { x << 4 }

  lemma TwiceTwice(x: bv32) ensures Twice(Twice(x)) == Fourfold(x) {}

  lemma FourfoldTwice(x: bv32) ensures Fourfold(Fourfold(x)) == Sixteenfold(x) {}

  lemma SixteenfoldTwice(x: bv32) ensures Sixteenfold(Sixteenfold(x)) == ShiftUp(x) {}

  lemma TwiceEight(x: bv32)
    ensures Iterate(Twice, x, 8) == ShiftUp(x)
  {
    hide Twice, Fourfold, Sixteenfold, ShiftUp;
    EightTimes(Twice, x);
    TwiceTwice(x);
    TwiceTwice(Fourfold(x));
    FourfoldTwice(x);
    TwiceTwice(Sixteenfold(x));
    TwiceTwice(Fourfold(Sixteenfold(x)));
    FourfoldTwice(Sixteenfold(x));
    SixteenfoldTwice(x);
  }

  lemma TwiceXor(a: bv32, s: bv32)
    ensures Twice(Xor(a, s)) == Xor(Twice(a), Twice(s))
  {
  }

  lemma PushIs(bit: bool, p: bv32)
    ensures Push(bit, p) == Xor(if bit then 1 else 0, Twice(p))
  {
    hide Xor;
  }

  lemma PushXor(bit: bool, a: bv32, s: bv32)
    ensures Push(bit, Xor(a, s)) == Xor(Push(bit, a), Twice(s))
  {
    hide Push, Xor, Twice;
    PushIs(bit, Xor(a, s));
    PushIs(bit, a);
    TwiceXor(a, s);
    XorAssociates(if bit then 1 else 0, Twice(a), Twice(s));
  }

  lemma XorNothing(a: bv32)
    ensures Xor(0, a) == a
  {
  }

  function Pow2(n: nat): nat { if n == 0 then 1 else 2 * Pow2(n - 1) }

  lemma DoubleProduct(q: nat, r: nat)
    ensures 2 * q * r == 2 * (q * r)
  {
  }

  /** The low k bits of a number, and the others above them. */
  lemma {:induction false} BitsSplit(b: nat, r: nat, k: nat, n: nat)
    requires b < Pow2(k)
    ensures Bits(b + Pow2(k) * r, k + n) == Xor(Bits(b, k), Iterate(Twice, Bits(r, n), k))
  {
    hide Push, Twice, Xor;
    if k == 0 {
      XorNothing(Bits(r, n));
    } else {
      var t := Pow2(k - 1) * r;
      DoubleProduct(Pow2(k - 1), r);
      var v := b + 2 * t;
      assert v % 2 == b % 2 && v / 2 == b / 2 + t;
      BitsSplit(b / 2, r, k - 1, n);
      PushXor(b % 2 == 1, Bits(b / 2, k - 1), Iterate(Twice, Bits(r, n), k - 1));
    }
  }

  lemma BitsOfByte(b: u8, r: nat, n: nat)
    ensures Bits(b + 0x100 * r, 8 + n) == Xor(Word(b), ShiftUp(Bits(r, n)))
  {
    hide Xor, ShiftUp, Push, Bits;
    assert Pow2(8) == 0x100 by { assert Pow2(4) == 16; }
    BitsSplit(b, r, 8, n);
    TwiceEight(Bits(r, n));
  }

  lemma ShiftZero(a: bv32)
    ensures Xor(a, ShiftUp(0)) == a
  {
  }

  /** The bytes of a number, packed, are its bits. */
  lemma PackBytes(v: u32)
    ensures Pack(PutU32(v)) == Bits(v, 32)
  {
    hide Xor, ShiftUp, Bits, Word, Pack;
    var b := PutU32(v);
    DivTwice(v, 0x100);
    DivTwice(v, 0x1_0000);
    BitsOfByte(b[0], v / 0x100, 24);
    BitsOfByte(b[1], v / 0x1_0000, 16);
    BitsOfByte(b[2], v / 0x100_0000, 8);
    WordIs(b[3]);
    PackFour(b);
  }

  lemma PackFour(b: seq<u8>)
    requires |b| == 4
    ensures Pack(b) == Xor(Word(b[0]), ShiftUp(Xor(Word(b[1]), ShiftUp(Xor(Word(b[2]), ShiftUp(Word(b[3])))))))
  {
    hide Xor, ShiftUp, Word;
    ShiftZero(Word(b[3]));
    assert b[1..][1..] == b[2..] && b[2..][1..] == b[3..] && b[3..][1..] == [];
    assert Pack(b[3..]) == Word(b[3]);
    assert Pack(b[2..]) == Xor(Word(b[2]), ShiftUp(Pack(b[3..])));
    assert Pack(b[1..]) == Xor(Word(b[1]), ShiftUp(Pack(b[2..])));
  }

  lemma WordIs(b: u8)
    ensures Word(b) == Bits(b, 8)
  {
  }

  lemma XorSelf(c: bv32, f: bv32)
    ensures Xor(c, Xor(c, f)) == f
  {
  }

  /** What a message and its checksum leave in the register, whatever the
      message. */
  function Residue(): bv32 { BitSteps(FINAL_XOR, 32) }

  predicate Codeword(data: seq<u8>) { Update(INITIAL, data) == Residue() }

  lemma CodewordsAgree(a: seq<u8>, b: seq<u8>)
    requires Codeword(a) && Codeword(b)
    ensures Crc(a) == Crc(b)
  {
    hide Update, Finish;
  }

  /** Four bytes after a message bring the register to that constant if and only
      if they are the bytes of the message's checksum. */
  lemma CodewordExact(data: seq<u8>, check: seq<u8>)
    requires |check| == 4
    ensures Codeword(data + check) <==> check == PutU32(Crc(data))
  {
    hide Xor, BitStep, Bits, Pack, Finish, PutU32;
    var c, own := Update(INITIAL, data), PutU32(Crc(data));
    UpdateConcat(INITIAL, data, check);
    UpdateIsWordStep(c, check);
    PackBytes(Crc(data));
    FinishBits(c);
    XorSelf(c, FINAL_XOR);
    if Update(INITIAL, data + check) == Residue() {
      BitStepsInjective(Xor(c, Pack(check)), FINAL_XOR, 32);
      XorCancel(c, Pack(check), Pack(own));
      PackInjective(check, own);
    }
  }

  /** Two messages that differ only inside four consecutive bytes have
      different checksums. */
  lemma BurstDetected(before: seq<u8>, x: seq<u8>, y: seq<u8>, after: seq<u8>)
    requires |x| == |y| <= 4 && x != y
    ensures Crc(before + x + after) != Crc(before + y + after)
  {
    if Crc(before + x + after) == Crc(before + y + after) {
      hide BitStep, Xor, Word, ByteStep, Finish;
      FinishInjective(Update(INITIAL, before + x + after), Update(INITIAL, before + y + after));
      UpdateConcat(INITIAL, before + x, after);
      UpdateConcat(INITIAL, before + y, after);
      UpdateInjective(Update(INITIAL, before + x), Update(INITIAL, before + y), after);
      UpdateConcat(INITIAL, before, x);
      UpdateConcat(INITIAL, before, y);
      var c := Update(INITIAL, before);
      UpdateIsWordStep(c, x);
      UpdateIsWordStep(c, y);
      BitStepsInjective(Xor(c, Pack(x)), Xor(c, Pack(y)), 8 * |x|);
      XorCancel(c, Pack(x), Pack(y));
      PackInjective(x, y);
    }
  }

  // ---- The checksum of section 8 of RFC 1952 ----

  /** One division in the sample code that makes the table. */
  function RfcDivide(c: bv32): bv32 { if c & 1 != 0 then 0xEDB8_8320 ^ (c >> 1) else c >> 1 }

  /** Entry n of the table. */
  function RfcEntry(n: bv32): bv32 {
    RfcDivide(RfcDivide(RfcDivide(RfcDivide(RfcDivide(RfcDivide(RfcDivide(RfcDivide(n))))))))
  }

  function RfcXor(a: bv32, b: bv32): bv32 { a ^ b }

  function RfcLow(c: bv32): bv32 { c & 0xFF }

  function RfcHigh(c: bv32): bv32 { c >> 8 }

  /** The sample code's update loop over the table. */
  function RfcStep(c: bv32, b: u8): bv32 { RfcXor(RfcEntry(RfcLow(RfcXor(c, Word(b)))), RfcHigh(c)) }

  function RfcUpdate(c: bv32, data: seq<u8>): bv32 {
    if data == [] then c else RfcStep(RfcUpdate(c, data[..|data| - 1]), data[|data| - 1])
  }

  lemma DivideIsStep(c: bv32)
    ensures RfcDivide(c) == BitStep(c)
  {
  }

  lemma EntryIsTable(n: bv32)
    ensures RfcEntry(n) == Table(n)
  {
    hide BitStep, RfcDivide;
    forall c ensures RfcDivide(c) == BitStep(c) { DivideIsStep(c); }
    Eight(n);
  }

  lemma SameXor(a: bv32, b: bv32)
    ensures RfcXor(a, b) == Xor(a, b)
  {
  }

  lemma SameLow(c: bv32)
    ensures RfcLow(c) == LowByte(c)
  {
  }

  lemma SameHigh(c: bv32)
    ensures RfcHigh(c) == ShiftDown(c)
  {
  }

  lemma RfcStepIsByteStep(c: bv32, b: u8)
    ensures RfcStep(c, b) == ByteStep(c, b)
  {
    hide ByteStep, Word, RfcEntry, RfcXor, RfcLow, RfcHigh, Xor, LowByte, ShiftDown, Table;
    SameXor(c, Word(b));
    SameLow(Xor(c, Word(b)));
    SameHigh(c);
    SameXor(RfcEntry(LowByte(Xor(c, Word(b)))), ShiftDown(c));
    ByteStepIsTableStep(c, b);
    EntryIsTable(LowByte(Xor(c, Word(b))));
  }

  lemma {:induction false} RfcUpdateIsUpdate(c: bv32, data: seq<u8>)
    ensures RfcUpdate(c, data) == Update(c, data)
  {
    hide ByteStep, RfcStep;
    if data != [] {
      var n := |data| - 1;
      RfcUpdateIsUpdate(c, data[..n]);
      RfcStepIsByteStep(Update(c, data[..n]), data[n]);
    }
  }

  /** The checksum is that of section 8 of RFC 1952: start value, table and final
      complement. */
  lemma CrcIsRfc1952(data: seq<u8>)
    ensures Crc(data) == ToInt(RfcUpdate(0xFFFF_FFFF, data) ^ 0xFFFF_FFFF, 32)
  {
    hide Update, RfcUpdate, ToInt;
    RfcUpdateIsUpdate(0xFFFF_FFFF, data);
    FinalComplement(Update(0xFFFF_FFFF, data));
  }

  lemma FinalComplement(c: bv32)
    ensures Xor(c, FINAL_XOR) == c ^ 0xFFFF_FFFF
  {
  }

  // ---- Check values ----

  /** The bits of a byte, the lowest first. */
  lemma WordBits(b: u8)
    ensures Word(b) ==
      Push(b % 2 == 1, Push(b / 2 % 2 == 1, Push(b / 4 % 2 == 1, Push(b / 8 % 2 == 1,
      Push(b / 16 % 2 == 1, Push(b / 32 % 2 == 1, Push(b / 64 % 2 == 1, Push(b / 128 % 2 == 1, 0))))))))
  {
    hide Push;
    assert Bits(b / 128, 1) == Push(b / 128 % 2 == 1, 0);
    assert Bits(b / 64, 2) == Push(b / 64 % 2 == 1, Bits(b / 128, 1)) by { assert b / 64 / 2 == b / 128; }
    assert Bits(b / 32, 3) == Push(b / 32 % 2 == 1, Bits(b / 64, 2)) by { assert b / 32 / 2 == b / 64; }
    assert Bits(b / 16, 4) == Push(b / 16 % 2 == 1, Bits(b / 32, 3)) by { assert b / 16 / 2 == b / 32; }
    assert Bits(b / 8, 5) == Push(b / 8 % 2 == 1, Bits(b / 16, 4)) by { assert b / 8 / 2 == b / 16; }
    assert Bits(b / 4, 6) == Push(b / 4 % 2 == 1, Bits(b / 8, 5)) by { assert b / 4 / 2 == b / 8; }
    assert Bits(b / 2, 7) == Push(b / 2 % 2 == 1, Bits(b / 4, 6)) by { assert b / 2 / 2 == b / 4; }
  }

  /** The register along the nine digits of the check text. */
  lemma Check1() ensures ByteStep(0xFFFF_FFFF, 0x31) == 0x7C23_1048 { WordBits(0x31); }

  lemma Check2() ensures ByteStep(0x7C23_1048, 0x32) == 0xB0AC_BB32 { WordBits(0x32); }

  lemma Check3() ensures ByteStep(0xB0AC_BB32, 0x33) == 0x77B7_9C2D { WordBits(0x33); }

  lemma Check4() ensures ByteStep(0x77B7_9C2D, 0x34) == 0x641C_1F5C { WordBits(0x34); }

  lemma Check5() ensures ByteStep(0x641C_1F5C, 0x35) == 0x340A_C5E3 { WordBits(0x35); }

  lemma Check6() ensures ByteStep(0x340A_C5E3, 0x36) == 0xF68D_2C9E { WordBits(0x36); }

  lemma Check7() ensures ByteStep(0xF68D_2C9E, 0x37) == 0xAFFC_9660 { WordBits(0x37); }

  lemma Check8() ensures ByteStep(0xAFFC_9660, 0x38) == 0x651F_2550 { WordBits(0x38); }

  lemma Check9() ensures ByteStep(0x651F_2550, 0x39) == 0x340B_C6D9 { WordBits(0x39); }

  lemma {:induction false} UpdatePush(c: bv32, data: seq<u8>, b: u8)
    ensures Update(c, data + [b]) == ByteStep(Update(c, data), b)
  {
    hide ByteStep;
    assert (data + [b])[..|data|] == data;
  }

  lemma CheckRegister()
    ensures Update(0xFFFF_FFFF, [0x31, 0x32, 0x33, 0x34, 0x35, 0x36, 0x37, 0x38, 0x39]) == 0x340B_C6D9
  {
    hide ByteStep, Update;
    UpdateNone(0xFFFF_FFFF);
    UpdatePush(0xFFFF_FFFF, [], 0x31);
    assert [] + [0x31] == [0x31];
    Check1();
    UpdatePush(0xFFFF_FFFF, [0x31], 0x32);
    Check2();
    assert [0x31] + [0x32] == [0x31, 0x32];
    UpdatePush(0xFFFF_FFFF, [0x31, 0x32], 0x33);
    Check3();
    assert [0x31, 0x32] + [0x33] == [0x31, 0x32, 0x33];
    UpdatePush(0xFFFF_FFFF, [0x31, 0x32, 0x33], 0x34);
    Check4();
    assert [0x31, 0x32, 0x33] + [0x34] == [0x31, 0x32, 0x33, 0x34];
    UpdatePush(0xFFFF_FFFF, [0x31, 0x32, 0x33, 0x34], 0x35);
    Check5();
    assert [0x31, 0x32, 0x33, 0x34] + [0x35] == [0x31, 0x32, 0x33, 0x34, 0x35];
    UpdatePush(0xFFFF_FFFF, [0x31, 0x32, 0x33, 0x34, 0x35], 0x36);
    Check6();
    assert [0x31, 0x32, 0x33, 0x34, 0x35] + [0x36] == [0x31, 0x32, 0x33, 0x34, 0x35, 0x36];
    UpdatePush(0xFFFF_FFFF, [0x31, 0x32, 0x33, 0x34, 0x35, 0x36], 0x37);
    Check7();
    assert [0x31, 0x32, 0x33, 0x34, 0x35, 0x36] + [0x37] == [0x31, 0x32, 0x33, 0x34, 0x35, 0x36, 0x37];
    UpdatePush(0xFFFF_FFFF, [0x31, 0x32, 0x33, 0x34, 0x35, 0x36, 0x37], 0x38);
    Check8();
    assert [0x31, 0x32, 0x33, 0x34, 0x35, 0x36, 0x37] + [0x38] == [0x31, 0x32, 0x33, 0x34, 0x35, 0x36, 0x37, 0x38];
    UpdatePush(0xFFFF_FFFF, [0x31, 0x32, 0x33, 0x34, 0x35, 0x36, 0x37, 0x38], 0x39);
    Check9();
    assert [0x31, 0x32, 0x33, 0x34, 0x35, 0x36, 0x37, 0x38] + [0x39]
        == [0x31, 0x32, 0x33, 0x34, 0x35, 0x36, 0x37, 0x38, 0x39];
  }

  /** The number with the bits of four given bytes. */
  lemma NumberOf(x: bv32, v: u32)
    requires Pack(PutU32(v)) == x
    ensures ToInt(x, 32) == v
  {
    hide ToInt, Pack, PutU32, GetU32;
    OnesOfRegister();
    HalfAll(x);
    ToIntBits(x, 32);
    var n: u32 := ToInt(x, 32);
    PackBytes(n);
    PackInjective(PutU32(n), PutU32(v));
    U32RoundTrip(n);
    U32RoundTrip(v);
  }

  lemma Word00() ensures Word(0x00) == 0x00 { WordBits(0x00); }

  lemma Word26() ensures Word(0x26) == 0x26 { WordBits(0x26); }

  lemma Word39() ensures Word(0x39) == 0x39 { WordBits(0x39); }

  lemma WordF4() ensures Word(0xF4) == 0xF4 { WordBits(0xF4); }

  lemma WordCB() ensures Word(0xCB) == 0xCB { WordBits(0xCB); }

  lemma PackedCheck()
    ensures Pack(PutU32(0xCBF4_3926)) == 0xCBF4_3926
  {
    hide Word, Pack;
    assert PutU32(0xCBF4_3926) == [0x26, 0x39, 0xF4, 0xCB];
    PackFour([0x26, 0x39, 0xF4, 0xCB]);
    Word26();
    Word39();
    WordF4();
    WordCB();
  }

  lemma PackedZero()
    ensures Pack(PutU32(0)) == 0
  {
    hide Word, Pack;
    assert PutU32(0) == [0, 0, 0, 0];
    PackFour([0, 0, 0, 0]);
    Word00();
  }

  /** The check values of the repository's own tests. */
  lemma CheckValues()
    ensures Crc([]) == 0
    ensures Crc(Ascii("123456789")) == 0xCBF4_3926
  {
    hide Update, ToInt, RfcUpdate, Pack, PutU32;
    UpdateNone(0xFFFF_FFFF);
    CrcIs([]);
    PackedZero();
    NumberOf(0, 0);
    var text := Ascii("123456789");
    assert text == [0x31, 0x32, 0x33, 0x34, 0x35, 0x36, 0x37, 0x38, 0x39];
    CrcIs(text);
    CheckRegister();
    PackedCheck();
    NumberOf(0xCBF4_3926, 0xCBF4_3926);
  }

  lemma CrcIs(data: seq<u8>)
    ensures Crc(data) == ToInt(Update(0xFFFF_FFFF, data) ^ 0xFFFF_FFFF, 32)
  {
    hide Update, ToInt;
    FinalComplement(Update(0xFFFF_FFFF, data));
  }
}
