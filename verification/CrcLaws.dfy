/**
 * The laws that fix the three checksums: linearity, the generator polynomial, the start value, and
 * the residue of a message followed by its own checksum.
 */
module CrcLaws {
  import opened Crc
  import opened CrcTheory

  // ---- CRC7 ----------------------------------------------------------------------

  lemma {:induction false} Crc7Linear(a: bv8, b: bv8, m: seq<bv8>, n: seq<bv8>)
    requires |m| == |n|
    ensures Crc7From(Add8(a, b), Xor(m, n)) == Add8(Crc7From(a, m), Crc7From(b, n))
    decreases m
  {
    hide Crc7Bits, Add8;
    if m != [] {
      Crc7BitsLinear(a, b, m[0], n[0], 8);
      assert Xor(m, n)[1..] == Xor(m[1..], n[1..]);
      Crc7Linear(Crc7Byte(a, m[0]), Crc7Byte(b, n[0]), m[1..], n[1..]);
    }
  }

  /** CRC7 is XOR-linear over messages of equal length. */
  lemma Crc7IsLinear(m: seq<bv8>, n: seq<bv8>)
    requires |m| == |n|
    ensures Crc7(Xor(m, n)) == Crc7(m) ^ Crc7(n)
  {
    hide Crc7From, Xor;
    Crc7Linear(0, 0, m, n);
    assert Add8(0, 0) == 0;
  }

  /** One byte of CRC7, bit by bit. */
  function Crc7Steps(v: bv8, d: bv8): bv8 {
    Crc7Shift(Crc7Shift(Crc7Shift(Crc7Shift(Crc7Shift(Crc7Shift(Crc7Shift(Crc7Shift(v,
      (d >> 7) & 1), (d >> 6) & 1), (d >> 5) & 1), (d >> 4) & 1), (d >> 3) & 1), (d >> 2) & 1),
      (d >> 1) & 1), (d >> 0) & 1)
  }

  lemma Crc7ByteSteps(v: bv8, d: bv8)
    ensures Crc7Byte(v, d) == Crc7Steps(v, d)
  {
    hide Crc7Shift;
    assert Crc7Bits(v, d, 1) == Crc7Shift(Crc7Bits(v, d, 0), InputBit(d, 7));
    assert Crc7Bits(v, d, 2) == Crc7Shift(Crc7Bits(v, d, 1), InputBit(d, 6));
    assert Crc7Bits(v, d, 3) == Crc7Shift(Crc7Bits(v, d, 2), InputBit(d, 5));
    assert Crc7Bits(v, d, 4) == Crc7Shift(Crc7Bits(v, d, 3), InputBit(d, 4));
    assert Crc7Bits(v, d, 5) == Crc7Shift(Crc7Bits(v, d, 4), InputBit(d, 3));
    assert Crc7Bits(v, d, 6) == Crc7Shift(Crc7Bits(v, d, 5), InputBit(d, 2));
    assert Crc7Bits(v, d, 7) == Crc7Shift(Crc7Bits(v, d, 6), InputBit(d, 1));
    assert Crc7Bits(v, d, 8) == Crc7Shift(Crc7Bits(v, d, 7), InputBit(d, 0));
  }

  lemma Crc7OfItself(v: bv8)
    requires v < 128
    ensures Crc7Steps(v, (v << 1) | 1) == 0x09
  {}

  /** A message followed by its command byte, the CRC7 and the end bit, always leaves the same register. */
  lemma Crc7Residue(data: seq<bv8>)
    ensures Crc7(data + [Crc7CommandByte(data)]) == 0x09
  {
    hide Crc7From, Crc7Steps, Crc7Bits;
    var v, last := Crc7(data), Crc7CommandByte(data);
    Crc7FromInjective(0, 0, data);
    Crc7OfItself(v);
    Crc7ByteSteps(v, last);
    Crc7Append(0, data, [last]);
    Crc7OfOne(v, last);
  }

  lemma Crc7OfOne(v: bv8, d: bv8)
    ensures Crc7From(v, [d]) == Crc7Byte(v, d)
  {
    hide Crc7Bits;
    assert [d][1..] == [];
  }

  // ---- CRC32 ---------------------------------------------------------------------

  lemma {:induction false} Crc32Linear(a: bv32, b: bv32, m: seq<bv8>, n: seq<bv8>)
    requires |m| == |n|
    ensures Crc32From(Add32(a, b), Xor(m, n)) == Add32(Crc32From(a, m), Crc32From(b, n))
    decreases m
  {
    hide Crc32Byte, Add32, Add8;
    if m != [] {
      Crc32ByteLinear(a, b, m[0], n[0]);
      assert Xor(m, n)[1..] == Xor(m[1..], n[1..]);
      Crc32Linear(Crc32Byte(a, m[0]), Crc32Byte(b, n[0]), m[1..], n[1..]);
    }
  }

  /** CRC32 is affine: the XOR of three messages of equal length has the XOR of their checksums. */
  lemma Crc32IsAffine(a: seq<bv8>, b: seq<bv8>, c: seq<bv8>)
    requires |a| == |b| == |c|
    ensures Crc32(Xor(Xor(a, b), c)) == Crc32(a) ^ Crc32(b) ^ Crc32(c)
  {
    hide Crc32From, Xor;
    var s := CRC32_START;
    Crc32Linear(s, s, a, b);
    Crc32Linear(Add32(s, s), s, Xor(a, b), c);
    StartThrice(s, Crc32From(s, a), Crc32From(s, b), Crc32From(s, c));
  }

  lemma StartThrice(s: bv32, x: bv32, y: bv32, z: bv32)
    ensures Add32(Add32(s, s), s) == s
    ensures Crc32Finish(Add32(Add32(x, y), z)) == Crc32Finish(x) ^ Crc32Finish(y) ^ Crc32Finish(z)
  {
    hide Crc32Finish, Add32;
    AddTwice(s);
    TwoFinished(x, y);
    OneFinished(Add32(x, y), z);
  }

  lemma AddTwice(s: bv32)
    ensures Add32(Add32(s, s), s) == s
  {}

  lemma TwoFinished(x: bv32, y: bv32)
    ensures Crc32Finish(x) ^ Crc32Finish(y) == Add32(x, y)
  {}

  lemma OneFinished(x: bv32, z: bv32)
    ensures x ^ Crc32Finish(z) == Crc32Finish(Add32(x, z))
  {}

  /** The four bytes of a CRC32, lowest first. */
  function Crc32Bytes(v: bv32): seq<bv8> {
    [(v & 0xff) as bv8, ((v >> 8) & 0xff) as bv8, ((v >> 16) & 0xff) as bv8, ((v >> 24) & 0xff) as bv8]
  }

  lemma Crc32EightShifts(v: bv32)
    ensures Crc32Shifts(v, 8) == Crc32Shift(Crc32Shift(Crc32Shift(Crc32Shift(
                                   Crc32Shift(Crc32Shift(Crc32Shift(Crc32Shift(v))))))))
  {
    hide Crc32Shift;
    assert Crc32Shifts(v, 2) == Crc32Shift(Crc32Shifts(v, 1)) == Crc32Shift(Crc32Shift(v));
    assert Crc32Shifts(v, 4) == Crc32Shift(Crc32Shifts(v, 3)) == Crc32Shift(Crc32Shift(Crc32Shifts(v, 2)));
    assert Crc32Shifts(v, 6) == Crc32Shift(Crc32Shifts(v, 5)) == Crc32Shift(Crc32Shift(Crc32Shifts(v, 4)));
    assert Crc32Shifts(v, 8) == Crc32Shift(Crc32Shifts(v, 7)) == Crc32Shift(Crc32Shift(Crc32Shifts(v, 6)));
  }

  /** Bits above the lowest byte only move down. */
  lemma Crc32HighMovesDown(w: bv32)
    requires w & 0xff == 0
    ensures Crc32Shift(Crc32Shift(Crc32Shift(Crc32Shift(
              Crc32Shift(Crc32Shift(Crc32Shift(Crc32Shift(w)))))))) == w >> 8
  {}

  function Low(w: bv32): bv8 { (w & 0xff) as bv8 }
  function Down(w: bv32): bv32 { w >> 8 }

  /** Taking in the lowest byte of w is the same as having w in the register: its other bits wait below. */
  lemma ByteOfWord(v: bv32, w: bv32)
    ensures Add32(Crc32Byte(v, Low(w)), Down(w)) == Crc32Byte(Add32(v, w), 0)
  {
    hide Crc32Shift, Crc32Shifts;
    WordParts(v, w);
    Crc32ShiftsLinear(v ^ (w & 0xff), w & 0xffff_ff00, 8);
    Crc32EightShifts(w & 0xffff_ff00);
    Crc32HighMovesDown(w & 0xffff_ff00);
  }

  lemma WordParts(v: bv32, w: bv32)
    ensures Crc32Mix(v, (w & 0xff) as bv8) == v ^ (w & 0xff)
    ensures Crc32Mix(Add32(v, w), 0) == Add32(v ^ (w & 0xff), w & 0xffff_ff00)
    ensures (w & 0xffff_ff00) & 0xff == 0 && (w & 0xffff_ff00) >> 8 == w >> 8
  {}

  function FourBytes(v: bv32, a: bv8, b: bv8, c: bv8, d: bv8): bv32 {
    Crc32Byte(Crc32Byte(Crc32Byte(Crc32Byte(v, a), b), c), d)
  }

  lemma WordInRegister(v: bv32, w: bv32)
    ensures FourBytes(v, Low(w), Low(Down(w)), Low(Down(Down(w))), Low(Down(Down(Down(w))))) == FourBytes(Add32(v, w), 0, 0, 0, 0)
  {
    hide Crc32Byte, Add32, Low, Down;
    var a := Crc32Byte(v, Low(w));
    var b := Crc32Byte(a, Low(Down(w)));
    var c := Crc32Byte(b, Low(Down(Down(w))));
    ByteOfWord(v, w);
    ByteOfWord(a, Down(w));
    ByteOfWord(b, Down(Down(w)));
    ByteOfWord(c, Down(Down(Down(w))));
    NothingLeft(w);
    AddZero32(Crc32Byte(c, Low(Down(Down(Down(w))))));
  }

  lemma NothingLeft(w: bv32)
    ensures Down(Down(Down(Down(w)))) == 0
  {}

  lemma BytesAreLow(w: bv32)
    ensures Crc32Bytes(w) == [Low(w), Low(Down(w)), Low(Down(Down(w))), Low(Down(Down(Down(w))))]
  {}

  lemma AddZero32(v: bv32)
    ensures Add32(v, 0) == v
  {}

  function EightShifts(v: bv32): bv32 {
    Crc32Shift(Crc32Shift(Crc32Shift(Crc32Shift(Crc32Shift(Crc32Shift(Crc32Shift(Crc32Shift(v))))))))
  }

  lemma ZeroByte(v: bv32)
    ensures Crc32Byte(v, 0) == EightShifts(v)
  {
    hide Crc32Shift;
    Crc32EightShifts(v);
    assert Crc32Mix(v, 0) == v;
  }

  lemma ShiftedOnes()
    ensures EightShifts(0xffff_ffff) == 0x2dfd_1072 && EightShifts(0x2dfd_1072) == 0xbe26_ed00
    ensures EightShifts(0xbe26_ed00) == 0x00be_26ed && EightShifts(0x00be_26ed) == 0xdebb_20e3
  {}

  /** Four zero bytes through the register of ones. */
  lemma OnesThroughZeros()
    ensures FourBytes(0xffff_ffff, 0, 0, 0, 0) == 0xdebb_20e3
  {
    hide EightShifts, Crc32Byte;
    ShiftedOnes();
    ZeroByte(0xffff_ffff);
    ZeroByte(0x2dfd_1072);
    ZeroByte(0xbe26_ed00);
    ZeroByte(0x00be_26ed);
  }

  lemma FourBytesFrom(v: bv32, a: bv8, b: bv8, c: bv8, d: bv8)
    ensures Crc32From(v, [a, b, c, d]) == FourBytes(v, a, b, c, d)
  {
    hide Crc32Byte;
    assert [a, b, c, d][1..] == [b, c, d] && [b, c, d][1..] == [c, d] && [c, d][1..] == [d] && [d][1..] == [];
    assert Crc32From(Crc32Byte(v, a), [b, c, d]) == Crc32From(Crc32Byte(Crc32Byte(v, a), b), [c, d]);
    assert Crc32From(Crc32Byte(Crc32Byte(v, a), b), [c, d]) == Crc32From(Crc32Byte(Crc32Byte(Crc32Byte(v, a), b), c), [d]);
    assert Crc32From(Crc32Byte(Crc32Byte(Crc32Byte(v, a), b), c), [d]) == Crc32From(FourBytes(v, a, b, c, d), []);
  }

  lemma OwnChecksum(r: bv32)
    ensures Add32(r, Crc32Finish(r)) == 0xffff_ffff && Crc32Finish(0xdebb_20e3) == 0x2144_df1c
  {}

  /** A message followed by its own CRC32, lowest byte first, always has the same CRC32. */
  lemma Crc32Residue(data: seq<bv8>)
    ensures Crc32(data + Crc32Bytes(Crc32(data))) == 0x2144_df1c
  {
    hide Crc32From, Crc32Byte, FourBytes, Crc32Finish, Add32, Crc32Bytes, Low, Down;
    var r, w := Crc32From(CRC32_START, data), Crc32(data);
    Crc32Append(CRC32_START, data, Crc32Bytes(w));
    BytesAreLow(w);
    FourBytesFrom(r, Low(w), Low(Down(w)), Low(Down(Down(w))), Low(Down(Down(Down(w)))));
    WordInRegister(r, w);
    OwnChecksum(r);
    OnesThroughZeros();
  }

  // ---- Generators and start values -----------------------------------------------

  /** A single one bit leaves the generator polynomial in each register. */
  lemma Generators()
    ensures Crc16([0x01]) == 0x1021
    ensures Crc7([0x01]) == 0x09
    ensures Crc32([0x80]) ^ Crc32([0x00]) == 0xedb8_8320
    ensures Crc16([]) == 0 && Crc7([]) == 0 && Crc32([]) == 0
  {
    Crc16OfByte();
    Crc7OfByte();
    Crc32OfBytes();
    hide *;
  }

  lemma Crc16OfByte()
    ensures Crc16([0x01]) == 0x1021 && Crc16([]) == 0
  {
    assert [0x01 as bv8][1..] == [];
    Crc16EightShifts(Crc16Mix(0, 0x01));
  }

  lemma Crc7OfByte()
    ensures Crc7([0x01]) == 0x09 && Crc7([]) == 0
  {
    Crc7OfOne(0, 0x01);
    Crc7ByteSteps(0, 0x01);
  }

  lemma Crc32OfBytes()
    ensures Crc32([0x80]) ^ Crc32([0x00]) == 0xedb8_8320 && Crc32([]) == 0
  {
    assert [0x80 as bv8][1..] == [] && [0x00 as bv8][1..] == [];
    Crc32EightShifts(Crc32Mix(CRC32_START, 0x80));
    Crc32EightShifts(Crc32Mix(CRC32_START, 0x00));
  }
}
