/** What the checksums detect, for messages of every length. */
module CrcTheory {
  import opened Crc

  // ---- Concatenation -------------------------------------------------------

  lemma {:induction false} Crc16Append(v: bv16, a: seq<bv8>, b: seq<bv8>)
    ensures Crc16From(v, a + b) == Crc16From(Crc16From(v, a), b)
    decreases a
  {
    if a == [] {
      assert a + b == b;
    } else {
      assert (a + b)[1..] == a[1..] + b;
      Crc16Append(Crc16Byte(v, a[0]), a[1..], b);
    }
  }

  lemma {:induction false} Crc32Append(v: bv32, a: seq<bv8>, b: seq<bv8>)
    ensures Crc32From(v, a + b) == Crc32From(Crc32From(v, a), b)
    decreases a
  {
    if a == [] {
      assert a + b == b;
    } else {
      assert (a + b)[1..] == a[1..] + b;
      Crc32Append(Crc32Byte(v, a[0]), a[1..], b);
    }
  }

  lemma {:induction false} Crc7Append(v: bv8, a: seq<bv8>, b: seq<bv8>)
    ensures Crc7From(v, a + b) == Crc7From(Crc7From(v, a), b)
    decreases a
  {
    if a == [] {
      assert a + b == b;
    } else {
      assert (a + b)[1..] == a[1..] + b;
      Crc7Append(Crc7Byte(v, a[0]), a[1..], b);
    }
  }

  // ---- One shift: linear and invertible ------------------------------------
  // The bit-vector facts are stated one register case at a time.

  lemma Crc16XorShift(a: bv16, b: bv16)
    ensures (a ^ b) << 1 == (a << 1) ^ (b << 1)
    ensures (a ^ b) & 0x8000 == (a & 0x8000) ^ (b & 0x8000)
    ensures a & 0x8000 == 0 || a & 0x8000 == 0x8000
  {}

  lemma Crc16ShiftLinear(a: bv16, b: bv16)
    ensures Crc16Shift(a ^ b) == Crc16Shift(a) ^ Crc16Shift(b)
  {
    Crc16XorShift(a, b);
    Crc16XorShift(b, a);
  }

  lemma Crc32XorShift(a: bv32, b: bv32)
    ensures (a ^ b) >> 1 == (a >> 1) ^ (b >> 1)
    ensures (a ^ b) & 1 == (a & 1) ^ (b & 1)
    ensures a & 1 == 0 || a & 1 == 1
  {}

  lemma Crc32ShiftLinear(a: bv32, b: bv32)
    ensures Crc32Shift(a ^ b) == Crc32Shift(a) ^ Crc32Shift(b)
  {
    Crc32XorShift(a, b);
    Crc32XorShift(b, a);
  }

  function Crc16Unshift(v: bv16): bv16 {
    if v & 1 != 0 then ((v ^ 0x1021) >> 1) | 0x8000 else v >> 1
  }

  function Crc32Unshift(v: bv32): bv32 {
    if v & 0x8000_0000 != 0 then ((v ^ 0xedb88320) << 1) | 1 else v << 1
  }

  lemma Crc16TopBit(v: bv16)
    requires v & 0x8000 != 0
    ensures ((v << 1) ^ 0x1021) & 1 != 0
    ensures ((((v << 1) ^ 0x1021) ^ 0x1021) >> 1) | 0x8000 == v
  {}

  lemma Crc16NoTopBit(v: bv16)
    requires v & 0x8000 == 0
    ensures (v << 1) & 1 == 0
    ensures (v << 1) >> 1 == v
  {}

  lemma Crc16ShiftInvertible(v: bv16)
    ensures Crc16Unshift(Crc16Shift(v)) == v
  {
    if v & 0x8000 != 0 {
      Crc16TopBit(v);
      assert Crc16Shift(v) == (v << 1) ^ 0x1021;
    } else {
      Crc16NoTopBit(v);
      assert Crc16Shift(v) == v << 1;
    }
  }

  lemma Crc32LowBit(v: bv32)
    requires v & 1 != 0
    ensures ((v >> 1) ^ 0xedb88320) & 0x8000_0000 != 0
    ensures ((((v >> 1) ^ 0xedb88320) ^ 0xedb88320) << 1) | 1 == v
  {}

  lemma Crc32NoLowBit(v: bv32)
    requires v & 1 == 0
    ensures (v >> 1) & 0x8000_0000 == 0
    ensures (v >> 1) << 1 == v
  {}

  lemma Crc32ShiftInvertible(v: bv32)
    ensures Crc32Unshift(Crc32Shift(v)) == v
  {
    if v & 1 != 0 {
      Crc32LowBit(v);
      assert Crc32Shift(v) == (v >> 1) ^ 0xedb88320;
    } else {
      Crc32NoLowBit(v);
      assert Crc32Shift(v) == v >> 1;
    }
  }

  // ---- Whole bytes ---------------------------------------------------------

  /** Addition of registers and of bytes over GF(2). */
  function Add16(a: bv16, b: bv16): bv16 { a ^ b }
  function Add8(a: bv8, b: bv8): bv8 { a ^ b }

  lemma {:induction false} Crc16ShiftsLinear(a: bv16, b: bv16, n: nat)
    ensures Crc16Shifts(Add16(a, b), n) == Add16(Crc16Shifts(a, n), Crc16Shifts(b, n))
  {
    if n > 0 {
      Crc16ShiftsLinear(a, b, n - 1);
      Crc16AddShift(Crc16Shifts(a, n - 1), Crc16Shifts(b, n - 1));
    }
    hide Crc16Shift, Add16;
  }

  lemma Crc16AddShift(a: bv16, b: bv16)
    ensures Crc16Shift(Add16(a, b)) == Add16(Crc16Shift(a), Crc16Shift(b))
  {
    Crc16ShiftLinear(a, b);
  }

  lemma {:induction false} Crc16ShiftsInjective(a: bv16, b: bv16, n: nat)
    requires Crc16Shifts(a, n) == Crc16Shifts(b, n)
    ensures a == b
  {
    hide Crc16Shift, Crc16Unshift;
    if n > 0 {
      Crc16ShiftInvertible(Crc16Shifts(a, n - 1));
      Crc16ShiftInvertible(Crc16Shifts(b, n - 1));
      Crc16ShiftsInjective(a, b, n - 1);
    }
  }

  lemma {:induction false} Crc32ShiftsInjective(a: bv32, b: bv32, n: nat)
    requires Crc32Shifts(a, n) == Crc32Shifts(b, n)
    ensures a == b
  {
    hide Crc32Shift, Crc32Unshift;
    if n > 0 {
      Crc32ShiftInvertible(Crc32Shifts(a, n - 1));
      Crc32ShiftInvertible(Crc32Shifts(b, n - 1));
      Crc32ShiftsInjective(a, b, n - 1);
    }
  }

  lemma Crc16MixLinear(a: bv16, b: bv16, x: bv8, y: bv8)
    ensures Crc16Mix(Add16(a, b), Add8(x, y)) == Add16(Crc16Mix(a, x), Crc16Mix(b, y))
  {}

  lemma Crc16ByteLinear(a: bv16, b: bv16, x: bv8, y: bv8)
    ensures Crc16Byte(Add16(a, b), Add8(x, y)) == Add16(Crc16Byte(a, x), Crc16Byte(b, y))
  {
    Crc16MixLinear(a, b, x, y);
    Crc16ShiftsLinear(Crc16Mix(a, x), Crc16Mix(b, y), 8);
    hide Crc16Shift, Crc16Shifts, Add16, Add8, Crc16Mix;
  }

  function Xor(a: seq<bv8>, b: seq<bv8>): (c: seq<bv8>)
    requires |a| == |b|
    ensures |c| == |a|
  {
    seq(|a|, i requires 0 <= i < |a| => Add8(a[i], b[i]))
  }

  /** CRC16 is XOR-linear over messages of equal length. */
  lemma {:induction false} Crc16Linear(a: bv16, b: bv16, m: seq<bv8>, n: seq<bv8>)
    requires |m| == |n|
    ensures Crc16From(Add16(a, b), Xor(m, n)) == Add16(Crc16From(a, m), Crc16From(b, n))
    decreases m
  {
    hide Crc16Byte, Add16, Add8;
    if m != [] {
      Crc16ByteLinear(a, b, m[0], n[0]);
      assert Xor(m, n)[1..] == Xor(m[1..], n[1..]);
      Crc16Linear(Crc16Byte(a, m[0]), Crc16Byte(b, n[0]), m[1..], n[1..]);
    }
  }

  lemma Crc16IsLinear(m: seq<bv8>, n: seq<bv8>)
    requires |m| == |n|
    ensures Crc16(Xor(m, n)) == Crc16(m) ^ Crc16(n)
  {
    Crc16Linear(0, 0, m, n);
    hide Crc16From, Xor;
    assert Add16(0, 0) == 0;
  }

  // ---- Residue -------------------------------------------------------------

  lemma Crc16ClearHigh(v: bv16)
    ensures Crc16Mix(v, Crc16High(v)) == v & 0xff
    ensures Crc16Mix((v & 0xff) << 8, Crc16Low(v)) == 0
  {}

  lemma Crc16LowByteMovesUp(v: bv16)
    requires v & 0xff00 == 0
    ensures Crc16Shift(Crc16Shift(Crc16Shift(Crc16Shift(
              Crc16Shift(Crc16Shift(Crc16Shift(Crc16Shift(v)))))))) == v << 8
  {}

  lemma Crc16EightShifts(v: bv16)
    ensures Crc16Shifts(v, 8) == Crc16Shift(Crc16Shift(Crc16Shift(Crc16Shift(
                                   Crc16Shift(Crc16Shift(Crc16Shift(Crc16Shift(v))))))))
  {
    hide Crc16Shift;
    assert Crc16Shifts(v, 2) == Crc16Shift(Crc16Shifts(v, 1)) == Crc16Shift(Crc16Shift(v));
    assert Crc16Shifts(v, 4) == Crc16Shift(Crc16Shifts(v, 3)) == Crc16Shift(Crc16Shift(Crc16Shifts(v, 2)));
    assert Crc16Shifts(v, 6) == Crc16Shift(Crc16Shifts(v, 5)) == Crc16Shift(Crc16Shift(Crc16Shifts(v, 4)));
    assert Crc16Shifts(v, 8) == Crc16Shift(Crc16Shifts(v, 7)) == Crc16Shift(Crc16Shift(Crc16Shifts(v, 6)));
  }

  lemma Crc16MaskedHigh(v: bv16)
    ensures (v & 0xff) & 0xff00 == 0
  {}

  /** A message followed by its own CRC16, high byte first, has CRC16 zero. */
  lemma Crc16Residue(data: seq<bv8>)
    ensures Crc16(data + [Crc16High(Crc16(data)), Crc16Low(Crc16(data))]) == 0
  {
    var v := Crc16(data);
    var high, low := Crc16High(v), Crc16Low(v);
    Crc16ClearHigh(v);
    Crc16MaskedHigh(v);
    Crc16LowByteMovesUp(v & 0xff);
    Crc16EightShifts(v & 0xff);
    Crc16LowByteMovesUp(0);
    Crc16EightShifts(0);
    hide Crc16Shift, Crc16Shifts, Crc16Mix, Crc16High, Crc16Low;
    Crc16Append(0, data, [high, low]);
    assert [high, low][1..] == [low];
    assert Crc16From(Crc16Byte(v, high), [low]) == Crc16Byte(Crc16Byte(v, high), low);
  }

  // ---- Error detection: CRC16 ----------------------------------------------

  lemma {:induction false} Crc16FromInjective(a: bv16, b: bv16, s: seq<bv8>)
    requires Crc16From(a, s) == Crc16From(b, s)
    ensures a == b
    decreases s
  {
    hide Crc16Shift, Crc16Shifts;
    if s != [] {
      Crc16FromInjective(Crc16Byte(a, s[0]), Crc16Byte(b, s[0]), s[1..]);
      Crc16ShiftsInjective(Crc16Mix(a, s[0]), Crc16Mix(b, s[0]), 8);
      Crc16MixInjective(a, b, s[0]);
    }
  }

  lemma Crc16MixInjective(a: bv16, b: bv16, x: bv8)
    requires Crc16Mix(a, x) == Crc16Mix(b, x)
    ensures a == b
  {}

  /** The eight shifts that end in w began in w >> 8 when the low byte of w is clear. */
  lemma Crc16UnshiftClearLow(w: bv16)
    requires w & 0xff == 0
    ensures Crc16Unshift(Crc16Unshift(Crc16Unshift(Crc16Unshift(
              Crc16Unshift(Crc16Unshift(Crc16Unshift(Crc16Unshift(w)))))))) == w >> 8
  {}

  lemma Crc16EightUnshifts(v: bv16)
    ensures Crc16Unshift(Crc16Unshift(Crc16Unshift(Crc16Unshift(
              Crc16Unshift(Crc16Unshift(Crc16Unshift(Crc16Unshift(Crc16Shifts(v, 8))))))))) == v
  {
    hide Crc16Shift, Crc16Unshift;
    Crc16ShiftInvertible(Crc16Shifts(v, 7));
    Crc16ShiftInvertible(Crc16Shifts(v, 6));
    Crc16ShiftInvertible(Crc16Shifts(v, 5));
    Crc16ShiftInvertible(Crc16Shifts(v, 4));
    Crc16ShiftInvertible(Crc16Shifts(v, 3));
    Crc16ShiftInvertible(Crc16Shifts(v, 2));
    Crc16ShiftInvertible(Crc16Shifts(v, 1));
    Crc16ShiftInvertible(Crc16Shifts(v, 0));
  }

  /** One byte back: a clear low byte in the difference fixes the difference before it. */
  lemma Crc16StepBack(a: bv16, b: bv16, x: bv8, y: bv8)
    requires Add16(Crc16Byte(a, x), Crc16Byte(b, y)) & 0xff == 0
    ensures Crc16Mix(Add16(a, b), Add8(x, y)) == Add16(Crc16Byte(a, x), Crc16Byte(b, y)) >> 8
  {
    var w := Add16(Crc16Byte(a, x), Crc16Byte(b, y));
    Crc16ByteLinear(a, b, x, y);
    Crc16UnshiftClearLow(w);
    Crc16EightUnshifts(Crc16Mix(Add16(a, b), Add8(x, y)));
    hide Crc16Shift, Crc16Shifts, Crc16Unshift, Add16, Add8, Crc16Mix;
  }

  lemma Crc16MixOfEqual(a: bv16, x: bv8, y: bv8, w: bv16)
    requires w & 0xff == 0 && Crc16Mix(Add16(a, a), Add8(x, y)) == w >> 8
    ensures w == 0 && x == y
  {}

  lemma Crc16MixToZero(a: bv16, b: bv16, x: bv8, y: bv8)
    requires Crc16Mix(Add16(a, b), Add8(x, y)) == 0
    ensures Add16(a, b) & 0xff == 0
    ensures Add16(a, b) == 0 ==> x == y
  {}

  lemma AddSelf16(a: bv16)
    ensures Add16(a, a) == 0
  {}

  /** From one register value, different windows of at most two bytes part the registers. */
  lemma Crc16Window(v: bv16, x: seq<bv8>, y: seq<bv8>)
    requires |x| == |y| <= 2
    requires Crc16From(v, x) == Crc16From(v, y)
    ensures x == y
  {
    hide Crc16Shift, Crc16Shifts, Crc16Mix, Crc16Byte, Add16, Add8;
    AddSelf16(Crc16From(v, x));
    if |x| == 1 {
      assert x[1..] == [] && y[1..] == [];
      Crc16StepBack(v, v, x[0], y[0]);
      Crc16MixOfEqual(v, x[0], y[0], 0);
    } else if |x| == 2 {
      var a, b := Crc16Byte(v, x[0]), Crc16Byte(v, y[0]);
      assert Crc16From(a, x[1..]) == Crc16Byte(a, x[1]);
      assert Crc16From(b, y[1..]) == Crc16Byte(b, y[1]);
      Crc16StepBack(a, b, x[1], y[1]);
      Crc16MixToZero(a, b, x[1], y[1]);
      Crc16StepBack(v, v, x[0], y[0]);
      Crc16MixOfEqual(v, x[0], y[0], Add16(a, b));
    }
  }

  /** Any damage confined to two adjacent bytes changes the CRC16. */
  lemma Crc16DetectsBurst(prefix: seq<bv8>, x: seq<bv8>, y: seq<bv8>, suffix: seq<bv8>)
    requires |x| == |y| <= 2 && x != y
    ensures Crc16(prefix + x + suffix) != Crc16(prefix + y + suffix)
  {
    hide Crc16From;
    Crc16Append(0, prefix, x);
    Crc16Append(0, prefix, y);
    Crc16Append(0, prefix + x, suffix);
    Crc16Append(0, prefix + y, suffix);
    if Crc16(prefix + x + suffix) == Crc16(prefix + y + suffix) {
      Crc16FromInjective(Crc16From(0, prefix + x), Crc16From(0, prefix + y), suffix);
      Crc16Window(Crc16From(0, prefix), x, y);
    }
  }

  // ---- Error detection: CRC32 ----------------------------------------------

  function Add32(a: bv32, b: bv32): bv32 { a ^ b }

  lemma Crc32AddShift(a: bv32, b: bv32)
    ensures Crc32Shift(Add32(a, b)) == Add32(Crc32Shift(a), Crc32Shift(b))
  {
    Crc32ShiftLinear(a, b);
  }

  lemma {:induction false} Crc32ShiftsLinear(a: bv32, b: bv32, n: nat)
    ensures Crc32Shifts(Add32(a, b), n) == Add32(Crc32Shifts(a, n), Crc32Shifts(b, n))
  {
    if n > 0 {
      Crc32ShiftsLinear(a, b, n - 1);
      Crc32AddShift(Crc32Shifts(a, n - 1), Crc32Shifts(b, n - 1));
    }
    hide Crc32Shift, Add32;
  }

  lemma Crc32MixLinear(a: bv32, b: bv32, x: bv8, y: bv8)
    ensures Crc32Mix(Add32(a, b), Add8(x, y)) == Add32(Crc32Mix(a, x), Crc32Mix(b, y))
  {}

  lemma Crc32ByteLinear(a: bv32, b: bv32, x: bv8, y: bv8)
    ensures Crc32Byte(Add32(a, b), Add8(x, y)) == Add32(Crc32Byte(a, x), Crc32Byte(b, y))
  {
    Crc32MixLinear(a, b, x, y);
    Crc32ShiftsLinear(Crc32Mix(a, x), Crc32Mix(b, y), 8);
    hide Crc32Shift, Crc32Shifts, Add32, Add8, Crc32Mix;
  }

  lemma Crc32MixInjective(a: bv32, b: bv32, x: bv8)
    requires Crc32Mix(a, x) == Crc32Mix(b, x)
    ensures a == b
  {}

  lemma {:induction false} Crc32FromInjective(a: bv32, b: bv32, s: seq<bv8>)
    requires Crc32From(a, s) == Crc32From(b, s)
    ensures a == b
    decreases s
  {
    hide Crc32Shift, Crc32Shifts;
    if s != [] {
      Crc32FromInjective(Crc32Byte(a, s[0]), Crc32Byte(b, s[0]), s[1..]);
      Crc32ShiftsInjective(Crc32Mix(a, s[0]), Crc32Mix(b, s[0]), 8);
      Crc32MixInjective(a, b, s[0]);
    }
  }

  predicate TopClear(w: bv32) { w & 0xff00_0000 == 0 }
  function Up(w: bv32): bv32 { w << 8 }

  lemma Crc32UnshiftClearTop(w: bv32)
    requires TopClear(w)
    ensures Crc32Unshift(Crc32Unshift(Crc32Unshift(Crc32Unshift(
              Crc32Unshift(Crc32Unshift(Crc32Unshift(Crc32Unshift(w)))))))) == Up(w)
  {}

  lemma Crc32EightUnshifts(v: bv32)
    ensures Crc32Unshift(Crc32Unshift(Crc32Unshift(Crc32Unshift(
              Crc32Unshift(Crc32Unshift(Crc32Unshift(Crc32Unshift(Crc32Shifts(v, 8))))))))) == v
  {
    hide Crc32Shift, Crc32Unshift;
    Crc32ShiftInvertible(Crc32Shifts(v, 7));
    Crc32ShiftInvertible(Crc32Shifts(v, 6));
    Crc32ShiftInvertible(Crc32Shifts(v, 5));
    Crc32ShiftInvertible(Crc32Shifts(v, 4));
    Crc32ShiftInvertible(Crc32Shifts(v, 3));
    Crc32ShiftInvertible(Crc32Shifts(v, 2));
    Crc32ShiftInvertible(Crc32Shifts(v, 1));
    Crc32ShiftInvertible(Crc32Shifts(v, 0));
  }

  lemma Crc32StepBackMixed(a: bv32, b: bv32, x: bv8, y: bv8)
    requires TopClear(Add32(Crc32Byte(a, x), Crc32Byte(b, y)))
    ensures Crc32Mix(Add32(a, b), Add8(x, y)) == Up(Add32(Crc32Byte(a, x), Crc32Byte(b, y)))
  {
    var w := Add32(Crc32Byte(a, x), Crc32Byte(b, y));
    Crc32ByteLinear(a, b, x, y);
    Crc32UnshiftClearTop(w);
    Crc32EightUnshifts(Crc32Mix(Add32(a, b), Add8(x, y)));
    hide Crc32Shift, Crc32Shifts, Crc32Unshift, Add32, Add8, Crc32Mix, Up, TopClear;
  }

  /** The register difference before a byte, from the difference w after it. */
  function Earlier(w: bv32, delta: bv8): bv32 { Crc32Mix(Up(w), delta) }

  lemma MixTwice(d: bv32, delta: bv8)
    ensures Crc32Mix(Crc32Mix(d, delta), delta) == d
  {}

  lemma Unmix(d: bv32, delta: bv8, w: bv32)
    requires Crc32Mix(d, delta) == Up(w)
    ensures d == Earlier(w, delta)
  {
    MixTwice(d, delta);
    hide Crc32Mix, Up;
  }

  lemma Crc32StepBack(a: bv32, b: bv32, x: bv8, y: bv8)
    requires TopClear(Add32(Crc32Byte(a, x), Crc32Byte(b, y)))
    ensures Add32(a, b) == Earlier(Add32(Crc32Byte(a, x), Crc32Byte(b, y)), Add8(x, y))
  {
    hide Crc32Byte, Crc32Mix, Add32, Add8, Up, TopClear, Earlier;
    Crc32StepBackMixed(a, b, x, y);
    Unmix(Add32(a, b), Add8(x, y), Add32(Crc32Byte(a, x), Crc32Byte(b, y)));
  }

  lemma AddSelf32(a: bv32)
    ensures Add32(a, a) == 0
  {}

  lemma Add8Zero(x: bv8, y: bv8)
    requires Add8(x, y) == 0
    ensures x == y
  {}

  lemma EarlierSmall(c: bv8, d: bv8, e: bv8)
    ensures TopClear(Earlier(0, c))
    ensures TopClear(Earlier(Earlier(0, c), d))
    ensures TopClear(Earlier(Earlier(Earlier(0, c), d), e))
  {}

  lemma EarlierZero(c: bv8, d: bv8, e: bv8, f: bv8)
    requires Earlier(Earlier(Earlier(Earlier(0, c), d), e), f) == 0
    ensures c == 0 && d == 0 && e == 0 && f == 0
  {}

  /** The difference of the two registers after k bytes of x and of y. */
  function Difference32(v: bv32, x: seq<bv8>, y: seq<bv8>, k: nat): bv32
    requires k <= |x| == |y|
  {
    Add32(Crc32From(v, x[..k]), Crc32From(v, y[..k]))
  }

  lemma Crc32LastByte(v: bv32, x: seq<bv8>, k: nat)
    requires k < |x|
    ensures Crc32From(v, x[..k + 1]) == Crc32Byte(Crc32From(v, x[..k]), x[k])
  {
    hide Crc32Byte;
    Crc32Append(v, x[..k], [x[k]]);
    assert x[..k + 1] == x[..k] + [x[k]];
    assert [x[k]][1..] == [];
  }

  lemma Crc32DifferenceBack(v: bv32, x: seq<bv8>, y: seq<bv8>, k: nat)
    requires k < |x| == |y|
    requires TopClear(Difference32(v, x, y, k + 1))
    ensures Difference32(v, x, y, k) == Earlier(Difference32(v, x, y, k + 1), Add8(x[k], y[k]))
  {
    hide Crc32Byte, Crc32From, Earlier, Add32, Add8, TopClear;
    Crc32LastByte(v, x, k);
    Crc32LastByte(v, y, k);
    Crc32StepBack(Crc32From(v, x[..k]), Crc32From(v, y[..k]), x[k], y[k]);
  }

  lemma TopOfZero()
    ensures TopClear(0)
    ensures Earlier(0, 0) == 0
  {}

  lemma EqualEnds(v: bv32, x: seq<bv8>, y: seq<bv8>)
    requires |x| == |y| && Crc32From(v, x) == Crc32From(v, y)
    ensures Difference32(v, x, y, 0) == 0 && Difference32(v, x, y, |x|) == 0
  {
    AddSelf32(v);
    AddSelf32(Crc32From(v, x));
    assert x[..|x|] == x && y[..|x|] == y;
    assert Crc32From(v, []) == v;
  }

  /** From one register value, different windows of at most four bytes part the registers. */
  lemma Crc32Window(v: bv32, x: seq<bv8>, y: seq<bv8>)
    requires |x| == |y| <= 4
    requires Crc32From(v, x) == Crc32From(v, y)
    ensures x == y
  {
    hide *;
    TopOfZero();
    var n := |x|;
    EqualEnds(v, x, y);
    if n == 1 {
      var c := Add8(x[0], y[0]);
      EarlierSmall(c, 0, 0);
      Crc32DifferenceBack(v, x, y, 0);
      EarlierZero(0, 0, 0, c);
      Add8Zero(x[0], y[0]);
    } else if n == 2 {
      var c, d := Add8(x[1], y[1]), Add8(x[0], y[0]);
      EarlierSmall(c, d, 0);
      Crc32DifferenceBack(v, x, y, 1);
      Crc32DifferenceBack(v, x, y, 0);
      EarlierZero(0, 0, c, d);
      Add8Zero(x[0], y[0]);
      Add8Zero(x[1], y[1]);
    } else if n == 3 {
      var c, d, e := Add8(x[2], y[2]), Add8(x[1], y[1]), Add8(x[0], y[0]);
      EarlierSmall(c, d, e);
      Crc32DifferenceBack(v, x, y, 2);
      Crc32DifferenceBack(v, x, y, 1);
      Crc32DifferenceBack(v, x, y, 0);
      EarlierZero(0, c, d, e);
      Add8Zero(x[0], y[0]);
      Add8Zero(x[1], y[1]);
      Add8Zero(x[2], y[2]);
    } else if n == 4 {
      var c, d, e, f := Add8(x[3], y[3]), Add8(x[2], y[2]), Add8(x[1], y[1]), Add8(x[0], y[0]);
      EarlierSmall(c, d, e);
      Crc32DifferenceBack(v, x, y, 3);
      Crc32DifferenceBack(v, x, y, 2);
      Crc32DifferenceBack(v, x, y, 1);
      Crc32DifferenceBack(v, x, y, 0);
      EarlierZero(c, d, e, f);
      Add8Zero(x[0], y[0]);
      Add8Zero(x[1], y[1]);
      Add8Zero(x[2], y[2]);
      Add8Zero(x[3], y[3]);
    }
  }

  /** Any damage confined to four adjacent bytes changes the CRC32. */
  lemma Crc32DetectsBurst(prefix: seq<bv8>, x: seq<bv8>, y: seq<bv8>, suffix: seq<bv8>)
    requires |x| == |y| <= 4 && x != y
    ensures Crc32(prefix + x + suffix) != Crc32(prefix + y + suffix)
  {
    hide Crc32From, Crc32Finish;
    var start := CRC32_START;
    Crc32Append(start, prefix, x);
    Crc32Append(start, prefix, y);
    Crc32Append(start, prefix + x, suffix);
    Crc32Append(start, prefix + y, suffix);
    if Crc32(prefix + x + suffix) == Crc32(prefix + y + suffix) {
      Crc32FinishInjective(Crc32From(start, prefix + x + suffix), Crc32From(start, prefix + y + suffix));
      Crc32FromInjective(Crc32From(start, prefix + x), Crc32From(start, prefix + y), suffix);
      Crc32Window(Crc32From(start, prefix), x, y);
    }
  }

  lemma Crc32FinishInjective(a: bv32, b: bv32)
    requires Crc32Finish(a) == Crc32Finish(b)
    ensures a == b
  {}

  // ---- Error detection: CRC7 -----------------------------------------------

  function Crc7Unshift(v: bv8, bit: bv8): bv8 {
    if v & 1 != 0 then ((v ^ 0x09) >> 1) | ((bit ^ 1) << 6) else (v >> 1) | (bit << 6)
  }

  lemma Crc7ShiftInvertible(v: bv8, bit: bv8)
    requires v < 128 && bit <= 1
    ensures Crc7Shift(v, bit) < 128
    ensures Crc7Unshift(Crc7Shift(v, bit), bit) == v
  {}

  lemma InputBitIsBit(byte: bv8, index: nat)
    requires index < 8
    ensures InputBit(byte, index) <= 1
  {}

  lemma {:induction false} Crc7BitsInjective(a: bv8, b: bv8, byte: bv8, n: nat)
    requires n <= 8 && a < 128 && b < 128
    ensures Crc7Bits(a, byte, n) < 128 && Crc7Bits(b, byte, n) < 128
    ensures Crc7Bits(a, byte, n) == Crc7Bits(b, byte, n) ==> a == b
  {
    hide Crc7Shift, Crc7Unshift, InputBit;
    if n > 0 {
      Crc7BitsInjective(a, b, byte, n - 1);
      InputBitIsBit(byte, 8 - n);
      Crc7ShiftInvertible(Crc7Bits(a, byte, n - 1), InputBit(byte, 8 - n));
      Crc7ShiftInvertible(Crc7Bits(b, byte, n - 1), InputBit(byte, 8 - n));
    }
  }

  lemma {:induction false} Crc7FromInjective(a: bv8, b: bv8, s: seq<bv8>)
    requires a < 128 && b < 128
    ensures Crc7From(a, s) < 128 && Crc7From(b, s) < 128
    ensures Crc7From(a, s) == Crc7From(b, s) ==> a == b
    decreases s
  {
    hide Crc7Bits;
    if s != [] {
      Crc7BitsInjective(a, b, s[0], 8);
      Crc7FromInjective(Crc7Byte(a, s[0]), Crc7Byte(b, s[0]), s[1..]);
    }
  }

  lemma Crc7ShiftLinear(a: bv8, b: bv8, i: bv8, j: bv8)
    requires i <= 1 && j <= 1
    ensures Crc7Shift(Add8(a, b), Add8(i, j)) == Add8(Crc7Shift(a, i), Crc7Shift(b, j))
  {
    Crc7XorShift(a, b, i, j);
    Crc7XorShift(b, a, j, i);
  }

  lemma Crc7XorShift(a: bv8, b: bv8, i: bv8, j: bv8)
    requires i <= 1 && j <= 1
    ensures ((a ^ b) << 1) & 0x7f == ((a << 1) & 0x7f) ^ ((b << 1) & 0x7f)
    ensures (((a ^ b) >> 6) & 1) ^ (i ^ j) == (((a >> 6) & 1) ^ i) ^ (((b >> 6) & 1) ^ j)
    ensures ((a >> 6) & 1) ^ i == 0 || ((a >> 6) & 1) ^ i == 1
  {}

  lemma InputBitLinear(x: bv8, y: bv8, index: nat)
    requires index < 8
    ensures InputBit(Add8(x, y), index) == Add8(InputBit(x, index), InputBit(y, index))
  {
    if {
      case index == 0 => assert (x ^ y) >> 0 == (x >> 0) ^ (y >> 0);
      case index == 1 => assert (x ^ y) >> 1 == (x >> 1) ^ (y >> 1);
      case index == 2 => assert (x ^ y) >> 2 == (x >> 2) ^ (y >> 2);
      case index == 3 => assert (x ^ y) >> 3 == (x >> 3) ^ (y >> 3);
      case index == 4 => assert (x ^ y) >> 4 == (x >> 4) ^ (y >> 4);
      case index == 5 => assert (x ^ y) >> 5 == (x >> 5) ^ (y >> 5);
      case index == 6 => assert (x ^ y) >> 6 == (x >> 6) ^ (y >> 6);
      case index == 7 => assert (x ^ y) >> 7 == (x >> 7) ^ (y >> 7);
    }
  }

  lemma {:induction false} Crc7BitsLinear(a: bv8, b: bv8, x: bv8, y: bv8, n: nat)
    requires n <= 8
    ensures Crc7Bits(Add8(a, b), Add8(x, y), n) == Add8(Crc7Bits(a, x, n), Crc7Bits(b, y, n))
  {
    hide Crc7Shift, InputBit, Add8;
    if n > 0 {
      Crc7BitsLinear(a, b, x, y, n - 1);
      InputBitLinear(x, y, 8 - n);
      InputBitIsBit(x, 8 - n);
      InputBitIsBit(y, 8 - n);
      Crc7ShiftLinear(Crc7Bits(a, x, n - 1), Crc7Bits(b, y, n - 1), InputBit(x, 8 - n), InputBit(y, 8 - n));
    }
  }

  /** From the zero register only two bytes lead back to it: 0 and the generator, 0x89. */
  lemma Crc7ZeroByte(d: bv8)
    ensures Crc7Byte(0, d) == 0 <==> d == 0 || d == 0x89
  {
    Crc7Unrolled(d);
    Crc7UnrolledZero(d);
    hide *;
  }

  function Crc7FromZero(d: bv8): bv8 {
    Crc7Shift(Crc7Shift(Crc7Shift(Crc7Shift(Crc7Shift(Crc7Shift(Crc7Shift(Crc7Shift(0,
      (d >> 7) & 1), (d >> 6) & 1), (d >> 5) & 1), (d >> 4) & 1), (d >> 3) & 1), (d >> 2) & 1),
      (d >> 1) & 1), (d >> 0) & 1)
  }

  lemma Crc7UnrolledZero(d: bv8)
    ensures Crc7FromZero(d) == 0 <==> d == 0 || d == 0x89
  {}

  lemma Crc7Unrolled(d: bv8)
    ensures Crc7Byte(0, d) == Crc7FromZero(d)
  {
    hide Crc7Shift;
    assert Crc7Bits(0, d, 1) == Crc7Shift(Crc7Bits(0, d, 0), InputBit(d, 7));
    assert Crc7Bits(0, d, 2) == Crc7Shift(Crc7Bits(0, d, 1), InputBit(d, 6));
    assert Crc7Bits(0, d, 3) == Crc7Shift(Crc7Bits(0, d, 2), InputBit(d, 5));
    assert Crc7Bits(0, d, 4) == Crc7Shift(Crc7Bits(0, d, 3), InputBit(d, 4));
    assert Crc7Bits(0, d, 5) == Crc7Shift(Crc7Bits(0, d, 4), InputBit(d, 3));
    assert Crc7Bits(0, d, 6) == Crc7Shift(Crc7Bits(0, d, 5), InputBit(d, 2));
    assert Crc7Bits(0, d, 7) == Crc7Shift(Crc7Bits(0, d, 6), InputBit(d, 1));
    assert Crc7Bits(0, d, 8) == Crc7Shift(Crc7Bits(0, d, 7), InputBit(d, 0));
  }

  /**
   * Two messages that differ in one byte share a CRC7 exactly when the two bytes differ by
   * the generator polynomial, so any one-bit error is detected.
   */
  lemma Crc7OneByte(prefix: seq<bv8>, x: bv8, y: bv8, suffix: seq<bv8>)
    ensures Crc7(prefix + [x] + suffix) == Crc7(prefix + [y] + suffix) <==> x == y || x ^ y == 0x89
  {
    var v := Crc7From(0, prefix);
    Crc7FromInjective(0, 0, prefix);
    Crc7Append(0, prefix, [x]);
    Crc7Append(0, prefix, [y]);
    Crc7Append(0, prefix + [x], suffix);
    Crc7Append(0, prefix + [y], suffix);
    assert [x][1..] == [] && [y][1..] == [];
    assert Crc7From(0, prefix + [x]) == Crc7Byte(v, x) && Crc7From(0, prefix + [y]) == Crc7Byte(v, y) by {
      hide Crc7Byte;
    }
    Crc7FromInjective(0, 0, prefix + [x]);
    Crc7FromInjective(0, 0, prefix + [y]);
    Crc7FromInjective(Crc7Byte(v, x), Crc7Byte(v, y), suffix);
    Crc7BitsLinear(v, v, x, y, 8);
    Crc7ZeroByte(Add8(x, y));
    Add8Facts(x, y);
    Add8Facts(v, v);
    Add8Facts(Crc7Byte(v, x), Crc7Byte(v, y));
    hide Crc7Byte, Crc7From, Crc7Bits, Add8;
  }

  lemma Add8Facts(x: bv8, y: bv8)
    ensures Add8(x, y) == 0 <==> x == y
    ensures Add8(x, y) == x ^ y
  {}
}
