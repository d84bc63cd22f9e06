/** The OCR, CID and CSD registers the card presents; section 5.3 of the SD Physical Layer Simplified Specification. */
module SdRegisters {
  import opened Basics

  datatype CardType = Sdsc | Sdhc

  type Register = bytes: seq<bv8> | |bytes| == REGISTER_SIZE witness seq(REGISTER_SIZE, _ => 0)
  type OcrRegister = bytes: seq<bv8> | |bytes| == 4 witness [0, 0, 0, 0]

  datatype Registers = Registers(ocr: OcrRegister, cid: Register, csd: Register, exposedBlocks: nat)

  const REGISTER_SIZE := 16
  const GROUP_BLOCKS := 1024

  // ---- Bits of numbers and registers -----------------------------------------
  // Bit k of a 128-bit register is bit k % 8 of byte 15 - k / 8.

  function BitOf(value: nat, k: nat): (bit: nat)
    ensures bit <= 1
  {
    value / Power2(k) % 2
  }

  function Mask(i: nat): bv8
    requires i < 8
  {
    if i == 0 then 0x01 else if i == 1 then 0x02 else if i == 2 then 0x04 else if i == 3 then 0x08
    else if i == 4 then 0x10 else if i == 5 then 0x20 else if i == 6 then 0x40 else 0x80
  }

  function BitAt(byte: bv8, i: nat): (bit: nat)
    requires i < 8
    ensures bit <= 1
  {
    if byte & Mask(i) != 0 then 1 else 0
  }

  function RegisterBit(bytes: seq<bv8>, k: nat): (bit: nat)
    requires |bytes| == REGISTER_SIZE && k < 128
    ensures bit <= 1
  {
    BitAt(bytes[15 - k / 8], k % 8)
  }

  /** The number in the given bits of a register. */
  function Field(bytes: seq<bv8>, low: nat, width: nat): nat
    requires |bytes| == REGISTER_SIZE && low + width <= 128
  {
    if width == 0 then 0 else Field(bytes, low, width - 1) + RegisterBit(bytes, low + width - 1) * Power2(width - 1)
  }

  function OrBit(byte: bv8, i: nat, bit: nat): bv8
    requires i < 8 && bit <= 1
  {
    byte | (if bit == 1 then Mask(i) else 0)
  }

  /** The first n steps of set_bits: value's low n bits are ORed in from bit low upwards. */
  function SetBits(bytes: seq<bv8>, low: nat, n: nat, value: nat): (result: seq<bv8>)
    requires |bytes| == REGISTER_SIZE && low + n <= 128
    ensures |result| == REGISTER_SIZE
  {
    if n == 0 then bytes
    else
      var before := SetBits(bytes, low, n - 1, value);
      var bit := low + n - 1;
      before[15 - bit / 8 := OrBit(before[15 - bit / 8], bit % 8, BitOf(value, n - 1))]
  }

  method SetBitsInPlace(bytes: array<bv8>, high: nat, low: nat, value: U32)
    requires bytes.Length == REGISTER_SIZE && low <= high < 128
    modifies bytes
    ensures bytes[..] == SetBits(old(bytes[..]), low, high - low + 1, value)
  {
    for bit := low to high + 1
      invariant bytes[..] == SetBits(old(bytes[..]), low, bit - low, value)
    {
      var sourceBit := value / Power2(bit - low) % 2;
      bytes[15 - bit / 8] := OrBit(bytes[15 - bit / 8], bit % 8, sourceBit);
    }
  }

  // ---- make_sd_registers -------------------------------------------------------

  const CID: Register := [0x50, 0x53, 0x44, 0x45, 0x4d, 0x55, 0x30, 0x30, 0x01, 0x00, 0x00, 0x00, 0x01, 0x26, 0x01, 0x00]

  function Ocr(cardType: CardType): OcrRegister { [if cardType.Sdhc? then 0x40 else 0x00, 0xff, 0x80, 0x00] }

  function NoCsd(): (csd: seq<bv8>)
    ensures |csd| == REGISTER_SIZE
  {
    seq(REGISTER_SIZE, _ => 0)
  }

  lemma NoCsdIsZero(csd: seq<bv8>)
    requires |csd| == REGISTER_SIZE && forall i | 0 <= i < REGISTER_SIZE :: csd[i] == 0
    ensures csd == NoCsd()
  {}

  function SdhcCsd(groups: nat): (csd: seq<bv8>)
    requires groups > 0
    ensures |csd| == REGISTER_SIZE
  {
    SetBits(SetBits(SetBits(NoCsd(), 126, 2, 1), 80, 4, 9), 48, 22, groups - 1)
  }

  function SdscCsd(units: nat, multiplier: nat): (csd: seq<bv8>)
    requires units > 0
    ensures |csd| == REGISTER_SIZE
  {
    SetBits(SetBits(SetBits(SetBits(NoCsd(), 126, 2, 0), 80, 4, 9), 62, 12, units - 1), 47, 3, multiplier)
  }

  function UnitBlocks(multiplier: nat): (unit: nat)
    ensures unit > 0
  {
    Power2(multiplier + 2)
  }

  predicate Fits(requested: U32, multiplier: nat) { 0 < requested / UnitBlocks(multiplier) <= 4096 }

  /** The first multiplier, from the given one down to 2, whose unit count is encodable. */
  function FirstFit(requested: U32, multiplier: nat): (found: Option<nat>)
    ensures found.Some? ==> 2 <= found.value <= multiplier && Fits(requested, found.value)
    ensures found.Some? ==> forall m | found.value < m <= multiplier :: !Fits(requested, m)
    ensures found.None? ==> forall m | 2 <= m <= multiplier :: !Fits(requested, m)
  {
    if multiplier < 2 then None
    else if Fits(requested, multiplier) then Some(multiplier)
    else FirstFit(requested, multiplier - 1)
  }

  /** The CSD and the exposed capacity of each card type. */
  function SdhcLayout(requested: U32): (layout: (seq<bv8>, nat))
    ensures |layout.0| == REGISTER_SIZE
  {
    var groups := requested / GROUP_BLOCKS;
    if groups != 0 then (SdhcCsd(groups), groups * GROUP_BLOCKS) else (NoCsd(), 0)
  }

  function SdscLayout(requested: U32): (layout: (seq<bv8>, nat))
    ensures |layout.0| == REGISTER_SIZE
  {
    match FirstFit(requested, 9)
    case None => (NoCsd(), 0)
    case Some(multiplier) =>
      var units: nat := requested / UnitBlocks(multiplier);
      (SdscCsd(units, multiplier), units * UnitBlocks(multiplier))
  }

  function MakeRegisters(cardType: CardType, requested: U32): Registers {
    var layout := if cardType.Sdhc? then SdhcLayout(requested) else SdscLayout(requested);
    Registers(Ocr(cardType), CID, layout.0, layout.1)
  }

  method LayoutSdhc(csd: array<bv8>, requested: U32) returns (exposed: nat)
    requires csd.Length == REGISTER_SIZE && csd[..] == NoCsd()
    modifies csd
    ensures (csd[..], exposed) == SdhcLayout(requested)
  {
    hide SetBits, NoCsd;
    exposed := 0;
    var groups := requested / 1024;
    if groups != 0 {
      var cSize := groups - 1;
      if cSize <= 0x3fffff {
        exposed := groups * 1024;
        SetBitsInPlace(csd, 127, 126, 1);
        SetBitsInPlace(csd, 83, 80, 9);
        SetBitsInPlace(csd, 69, 48, cSize);
      }
    }
  }

  method LayoutSdsc(csd: array<bv8>, requested: U32) returns (exposed: nat)
    requires csd.Length == REGISTER_SIZE && csd[..] == NoCsd()
    modifies csd
    ensures (csd[..], exposed) == SdscLayout(requested)
  {
    hide *;
    exposed := 0;
    var multiplier := 9;
    while multiplier >= 2
      invariant 1 <= multiplier <= 9 && exposed == 0 && csd[..] == NoCsd()
      invariant FirstFit(requested, multiplier) == FirstFit(requested, 9)
    {
      var unitBlocks := UnitBlocks(multiplier);
      var cSizePlusOne := requested / unitBlocks;
      SdscLayoutStep(requested, multiplier);
      if cSizePlusOne != 0 && cSizePlusOne <= 4096 {
        exposed := cSizePlusOne * unitBlocks;
        SetBitsInPlace(csd, 127, 126, 0);
        SetBitsInPlace(csd, 83, 80, 9);
        SetBitsInPlace(csd, 73, 62, cSizePlusOne - 1);
        SetBitsInPlace(csd, 49, 47, multiplier);
        return;
      }
      multiplier := multiplier - 1;
    }
    SdscLayoutNone(requested);
  }

  /** One pass of the multiplier loop. */
  lemma SdscLayoutStep(requested: U32, multiplier: nat)
    requires multiplier >= 2 && FirstFit(requested, multiplier) == FirstFit(requested, 9)
    ensures var units := requested / UnitBlocks(multiplier);
            if 0 < units <= 4096 then
              SdscLayout(requested) == (SetBits(SetBits(SetBits(SetBits(NoCsd(), 126, 2, 0), 80, 4, 9), 62, 12, units - 1), 47, 3, multiplier),
                                        units * UnitBlocks(multiplier))
            else FirstFit(requested, multiplier - 1) == FirstFit(requested, 9)
  {
    hide SetBits, NoCsd, UnitBlocks;
  }

  lemma SdscLayoutNone(requested: U32)
    ensures FirstFit(requested, 1) == None
    ensures FirstFit(requested, 9) == None ==> SdscLayout(requested) == (NoCsd(), 0)
  {
    hide NoCsd;
  }

  method MakeSdRegisters(cardType: CardType, requested: U32) returns (registers: Registers)
    ensures registers == MakeRegisters(cardType, requested)
  {
    hide NoCsd, SdhcLayout, SdscLayout;
    var csd := new bv8[REGISTER_SIZE](_ => 0);
    NoCsdIsZero(csd[..]);
    var ocr0: bv8 := 0x00;
    if cardType.Sdhc? {
      ocr0 := 0x40;
    }
    var exposed;
    if cardType.Sdhc? {
      exposed := LayoutSdhc(csd, requested);
    } else {
      exposed := LayoutSdsc(csd, requested);
    }
    registers := Registers([ocr0, 0xff, 0x80, 0x00], CID, csd[..], exposed);
  }

  // ---- Reading back what set_bits wrote ------------------------------------------

  lemma BitAtOrMask(byte: bv8, i: nat, j: nat)
    requires i < 8 && j < 8
    ensures BitAt(byte | Mask(i), j) == if i == j then 1 else BitAt(byte, j)
  {}

  lemma BitAtOrBit(byte: bv8, i: nat, bit: nat, j: nat)
    requires i < 8 && j < 8 && bit <= 1
    ensures BitAt(OrBit(byte, i, bit), j) == if i == j then Max(BitAt(byte, j), bit) else BitAt(byte, j)
  {
    BitAtOrMask(byte, i, j);
  }

  /** set_bits changes exactly the bits of its field: each becomes the OR of its old value and the number's bit. */
  lemma {:induction false} SetBitsAt(bytes: seq<bv8>, low: nat, n: nat, value: nat, k: nat)
    requires |bytes| == REGISTER_SIZE && low + n <= 128 && k < 128
    ensures RegisterBit(SetBits(bytes, low, n, value), k)
         == if low <= k < low + n then Max(RegisterBit(bytes, k), BitOf(value, k - low)) else RegisterBit(bytes, k)
  {
    hide OrBit, BitAt, BitOf;
    if n > 0 {
      SetBitsAt(bytes, low, n - 1, value, k);
      var before := SetBits(bytes, low, n - 1, value);
      var bit := low + n - 1;
      BitAtOrBit(before[15 - bit / 8], bit % 8, BitOf(value, n - 1), k % 8);
    }
  }

  lemma {:induction false} FieldUnchanged(a: seq<bv8>, b: seq<bv8>, low: nat, width: nat)
    requires |a| == |b| == REGISTER_SIZE && low + width <= 128
    requires forall k | low <= k < low + width :: RegisterBit(a, k) == RegisterBit(b, k)
    ensures Field(a, low, width) == Field(b, low, width)
  {
    hide RegisterBit;
    if width > 0 {
      FieldUnchanged(a, b, low, width - 1);
    }
  }

  /** The binary digits of a number below 2^n are the number. */
  lemma {:induction false} DigitsOf(value: nat, n: nat)
    ensures value % Power2(n + 1) == value % Power2(n) + BitOf(value, n) * Power2(n)
  {
    var p, q := Power2(n), value / Power2(n);
    assert value == p * q + value % p;
    assert q == 2 * (q / 2) + q % 2;
    var rest := q % 2 * p + value % p;
    assert value == q / 2 * (2 * p) + rest by {
      assert p * q == p * (2 * (q / 2)) + p * (q % 2);
    }
    assert 0 <= rest < 2 * p by {
      assert q % 2 * p == if q % 2 == 0 then 0 else p;
    }
    DivRem(value, 2 * p, q / 2, rest);
  }

  /** A field written onto zero bits reads back as the number, cut to the width of the field. */
  lemma {:induction false} FieldOfSetBits(bytes: seq<bv8>, low: nat, n: nat, value: nat, width: nat)
    requires |bytes| == REGISTER_SIZE && low + n <= 128 && width <= n
    requires forall k | low <= k < low + n :: RegisterBit(bytes, k) == 0
    ensures Field(SetBits(bytes, low, n, value), low, width) == value % Power2(width)
  {
    hide RegisterBit, BitOf, SetBits;
    if width > 0 {
      FieldOfSetBits(bytes, low, n, value, width - 1);
      SetBitsAt(bytes, low, n, value, low + width - 1);
      DigitsOf(value, width - 1);
    }
  }

  lemma FieldElsewhere(bytes: seq<bv8>, low: nat, n: nat, value: nat, other: nat, width: nat)
    requires |bytes| == REGISTER_SIZE && low + n <= 128 && other + width <= 128
    requires other + width <= low || low + n <= other
    ensures Field(SetBits(bytes, low, n, value), other, width) == Field(bytes, other, width)
  {
    hide RegisterBit, SetBits;
    forall k | other <= k < other + width
      ensures RegisterBit(SetBits(bytes, low, n, value), k) == RegisterBit(bytes, k)
    {
      SetBitsAt(bytes, low, n, value, k);
    }
    FieldUnchanged(SetBits(bytes, low, n, value), bytes, other, width);
  }

  // ---- What readers of the CSD see -------------------------------------------------

  /** CSD_STRUCTURE, section 5.3.1. */
  function Structure(csd: seq<bv8>): bv8
    requires |csd| == REGISTER_SIZE
  {
    csd[0] >> 6
  }

  /** C_SIZE as the physical-card driver of the firmware assembles it. */
  function DriverCSize(csd: seq<bv8>): nat
    requires |csd| == REGISTER_SIZE
  {
    (csd[7] & 0x3f) as nat * 0x1_0000 + csd[8] as nat * 0x100 + csd[9] as nat
  }

  /** The capacity the physical-card driver of the firmware reads from a CSD, if it accepts the layout. */
  function DriverBlocks(csd: seq<bv8>): Option<nat>
    requires |csd| == REGISTER_SIZE
  {
    if Structure(csd) != 1 then None else Some((DriverCSize(csd) + 1) * GROUP_BLOCKS)
  }

  /** The capacity of the version 1 layout, section 5.3.2: (C_SIZE + 1) * 2^(C_SIZE_MULT + 2) blocks. */
  function Version1Blocks(csd: seq<bv8>): nat
    requires |csd| == REGISTER_SIZE
  {
    (Field(csd, 62, 12) + 1) * Power2(Field(csd, 47, 3) + 2)
  }

  lemma ByteBits(byte: bv8)
    ensures byte as nat == BitAt(byte, 0) + 2 * BitAt(byte, 1) + 4 * BitAt(byte, 2) + 8 * BitAt(byte, 3)
                         + 16 * BitAt(byte, 4) + 32 * BitAt(byte, 5) + 64 * BitAt(byte, 6) + 128 * BitAt(byte, 7)
  {}

  lemma LowSixBits(byte: bv8)
    ensures (byte & 0x3f) as nat == BitAt(byte, 0) + 2 * BitAt(byte, 1) + 4 * BitAt(byte, 2) + 8 * BitAt(byte, 3)
                                  + 16 * BitAt(byte, 4) + 32 * BitAt(byte, 5)
  {}

  lemma TopTwoBits(byte: bv8)
    ensures byte >> 6 == (if BitAt(byte, 6) == 1 then 1 else 0) + (if BitAt(byte, 7) == 1 then 2 else 0)
  {}

  lemma SmallPowers()
    ensures Power2(0) == 1 && Power2(1) == 2 && Power2(2) == 4 && Power2(3) == 8 && Power2(4) == 16
    ensures Power2(5) == 32 && Power2(6) == 64 && Power2(7) == 128 && Power2(8) == 256
  {}

  lemma LargePowers()
    ensures Power2(9) == 512 && Power2(10) == 1024 && Power2(11) == 2048 && Power2(12) == 4096
    ensures Power2(16) == 0x1_0000 && Power2(22) == 0x40_0000
  {
    assert Power2(10) == 1024;
    assert Power2(12) == 4096;
    assert Power2(14) == 0x4000;
    assert Power2(16) == 0x1_0000;
    assert Power2(18) == 0x4_0000;
    assert Power2(20) == 0x10_0000;
  }

  lemma FieldStep(bytes: seq<bv8>, i: nat, j: nat)
    requires |bytes| == REGISTER_SIZE && i < REGISTER_SIZE && j < 8
    ensures Field(bytes, 8 * (15 - i), j + 1) == Field(bytes, 8 * (15 - i), j) + BitAt(bytes[i], j) * Power2(j)
  {
    var k := 8 * (15 - i) + j;
    assert k / 8 == 15 - i && k % 8 == j;
  }

  lemma FieldOfSix(bytes: seq<bv8>, i: nat)
    requires |bytes| == REGISTER_SIZE && i < REGISTER_SIZE
    ensures Field(bytes, 8 * (15 - i), 6) == (bytes[i] & 0x3f) as nat
  {
    hide BitAt, Power2, Field;
    SmallPowers();
    LowSixBits(bytes[i]);
    assert Field(bytes, 8 * (15 - i), 0) == 0 by { EmptyField(bytes, 8 * (15 - i)); }
    FieldStep(bytes, i, 0);
    FieldStep(bytes, i, 1);
    FieldStep(bytes, i, 2);
    FieldStep(bytes, i, 3);
    FieldStep(bytes, i, 4);
    FieldStep(bytes, i, 5);
  }

  lemma EmptyField(bytes: seq<bv8>, low: nat)
    requires |bytes| == REGISTER_SIZE && low <= 128
    ensures Field(bytes, low, 0) == 0
  {}

  lemma FieldOfByte(bytes: seq<bv8>, i: nat)
    requires |bytes| == REGISTER_SIZE && i < REGISTER_SIZE
    ensures Field(bytes, 8 * (15 - i), 8) == bytes[i] as nat
  {
    hide BitAt, Power2, Field;
    SmallPowers();
    ByteBits(bytes[i]);
    LowSixBits(bytes[i]);
    FieldOfSix(bytes, i);
    FieldStep(bytes, i, 6);
    FieldStep(bytes, i, 7);
  }

  /** A field is its low part plus its shifted high part. */
  lemma {:induction false} FieldSplit(bytes: seq<bv8>, low: nat, a: nat, b: nat)
    requires |bytes| == REGISTER_SIZE && low + a + b <= 128
    ensures Field(bytes, low, a + b) == Field(bytes, low, a) + Power2(a) * Field(bytes, low + a, b)
  {
    hide RegisterBit, Power2;
    if b > 0 {
      FieldSplit(bytes, low, a, b - 1);
      PowerSum(a, b - 1);
      var bit, f := RegisterBit(bytes, low + a + b - 1), Field(bytes, low + a, b - 1);
      assert Field(bytes, low, a + b) == Field(bytes, low, a + b - 1) + bit * Power2(a + b - 1);
      Regroup(Power2(a), f, bit, Power2(b - 1));
    }
  }

  lemma Regroup(p: nat, f: nat, bit: nat, q: nat)
    ensures p * f + bit * (p * q) == p * (f + bit * q)
  {}

  lemma {:induction false} PowerSum(a: nat, b: nat)
    ensures Power2(a + b) == Power2(a) * Power2(b)
  {
    if b > 0 {
      PowerSum(a, b - 1);
    }
  }

  lemma DriverReadsField(csd: seq<bv8>)
    requires |csd| == REGISTER_SIZE
    ensures DriverCSize(csd) == Field(csd, 48, 22)
  {
    hide Field, Power2;
    SmallPowers();
    LargePowers();
    FieldOfByte(csd, 9);
    FieldOfByte(csd, 8);
    FieldOfSix(csd, 7);
    FieldSplit(csd, 48, 8, 14);
    FieldSplit(csd, 56, 8, 6);
  }

  lemma StructureIsField(csd: seq<bv8>)
    requires |csd| == REGISTER_SIZE
    ensures Structure(csd) == 1 <==> Field(csd, 126, 2) == 1
    ensures Structure(csd) == 0 <==> Field(csd, 126, 2) == 0
  {
    hide BitAt, Power2;
    SmallPowers();
    TopTwoBits(csd[0]);
    assert Field(csd, 126, 1) == BitAt(csd[0], 6);
    assert Field(csd, 126, 2) == Field(csd, 126, 1) + 2 * BitAt(csd[0], 7);
  }

  lemma ZeroByteBit(i: nat)
    requires i < 8
    ensures BitAt(0, i) == 0
  {}

  lemma NoCsdBits(k: nat)
    requires k < 128
    ensures RegisterBit(NoCsd(), k) == 0
  {
    ZeroByteBit(k % 8);
  }

  /** Bits outside a written field stay zero. */
  lemma ZeroBitsSurvive(bytes: seq<bv8>, low: nat, n: nat, value: nat, low': nat, n': nat)
    requires |bytes| == REGISTER_SIZE && low + n <= 128 && low' + n' <= 128
    requires low' + n' <= low || low + n <= low'
    requires forall k | low' <= k < low' + n' :: RegisterBit(bytes, k) == 0
    ensures forall k | low' <= k < low' + n' :: RegisterBit(SetBits(bytes, low, n, value), k) == 0
  {
    hide RegisterBit, SetBits;
    forall k | low' <= k < low' + n' ensures RegisterBit(SetBits(bytes, low, n, value), k) == 0 {
      SetBitsAt(bytes, low, n, value, k);
    }
  }

  lemma SdhcFields(groups: nat)
    requires 0 < groups <= 0x40_0000
    ensures Field(SdhcCsd(groups), 126, 2) == 1
    ensures Field(SdhcCsd(groups), 48, 22) == groups - 1
    ensures Field(SdhcCsd(groups), 80, 4) == 9
  {
    hide Field, SetBits, RegisterBit, Power2, NoCsd;
    SmallPowers();
    LargePowers();
    forall k | 0 <= k < 128 ensures RegisterBit(NoCsd(), k) == 0 { NoCsdBits(k); }
    var one := SetBits(NoCsd(), 126, 2, 1);
    var two := SetBits(one, 80, 4, 9);
    FieldOfSetBits(NoCsd(), 126, 2, 1, 2);
    FieldElsewhere(one, 80, 4, 9, 126, 2);
    FieldElsewhere(two, 48, 22, groups - 1, 126, 2);
    ZeroBitsSurvive(NoCsd(), 126, 2, 1, 80, 4);
    FieldOfSetBits(one, 80, 4, 9, 4);
    FieldElsewhere(two, 48, 22, groups - 1, 80, 4);
    ZeroBitsSurvive(NoCsd(), 126, 2, 1, 48, 22);
    ZeroBitsSurvive(one, 80, 4, 9, 48, 22);
    FieldOfSetBits(two, 48, 22, groups - 1, 22);
  }

  lemma SdscFields(units: nat, multiplier: nat)
    requires 0 < units <= 4096
    ensures Field(SdscCsd(units, multiplier), 126, 2) == 0
    ensures Field(SdscCsd(units, multiplier), 62, 12) == units - 1
    ensures Field(SdscCsd(units, multiplier), 47, 3) == multiplier % 8
    ensures Field(SdscCsd(units, multiplier), 80, 4) == 9
  {
    hide Field, SetBits, RegisterBit, Power2, NoCsd;
    SmallPowers();
    LargePowers();
    forall k | 0 <= k < 128 ensures RegisterBit(NoCsd(), k) == 0 { NoCsdBits(k); }
    var one := SetBits(NoCsd(), 126, 2, 0);
    var two := SetBits(one, 80, 4, 9);
    var three := SetBits(two, 62, 12, units - 1);
    FieldOfSetBits(NoCsd(), 126, 2, 0, 2);
    FieldElsewhere(one, 80, 4, 9, 126, 2);
    FieldElsewhere(two, 62, 12, units - 1, 126, 2);
    FieldElsewhere(three, 47, 3, multiplier, 126, 2);
    ZeroBitsSurvive(NoCsd(), 126, 2, 0, 80, 4);
    FieldOfSetBits(one, 80, 4, 9, 4);
    FieldElsewhere(two, 62, 12, units - 1, 80, 4);
    FieldElsewhere(three, 47, 3, multiplier, 80, 4);
    ZeroBitsSurvive(NoCsd(), 126, 2, 0, 62, 12);
    ZeroBitsSurvive(one, 80, 4, 9, 62, 12);
    FieldOfSetBits(two, 62, 12, units - 1, 12);
    FieldElsewhere(three, 47, 3, multiplier, 62, 12);
    ZeroBitsSurvive(NoCsd(), 126, 2, 0, 47, 3);
    ZeroBitsSurvive(one, 80, 4, 9, 47, 3);
    ZeroBitsSurvive(two, 62, 12, units - 1, 47, 3);
    FieldOfSetBits(three, 47, 3, multiplier, 3);
  }

  // ---- Main results ------------------------------------------------------------------

  /**
   * For every request an SDHC card exposes the largest multiple of 1024 not above it, and the
   * driver of a physical card reads exactly that capacity back from the packed register.
   */
  lemma SdhcRoundTrip(requested: U32)
    ensures var registers := MakeRegisters(Sdhc, requested);
            && registers.exposedBlocks % GROUP_BLOCKS == 0
            && registers.exposedBlocks <= requested < registers.exposedBlocks + GROUP_BLOCKS
            && DriverBlocks(registers.csd) == if requested < GROUP_BLOCKS then None else Some(registers.exposedBlocks)
  {
    hide Field, Power2, SdhcCsd, Structure, DriverCSize, NoCsd;
    var groups := requested / GROUP_BLOCKS;
    if groups != 0 {
      SdhcFields(groups);
      DriverReadsField(SdhcCsd(groups));
      StructureIsField(SdhcCsd(groups));
    } else {
      forall k | 0 <= k < 128 ensures RegisterBit(NoCsd(), k) == 0 { NoCsdBits(k); }
      assert Structure(NoCsd()) == 0 by { StructureOfNoCsd(); }
    }
  }

  lemma StructureOfNoCsd()
    ensures Structure(NoCsd()) == 0
  {}

  lemma UnitIsMonotone(m: nat, n: nat)
    requires m <= n
    ensures UnitBlocks(m) <= UnitBlocks(n)
  {
    if m < n { UnitIsMonotone(m, n - 1); }
  }

  lemma Units()
    ensures UnitBlocks(0) == 4 && UnitBlocks(1) == 8 && UnitBlocks(2) == 16 && UnitBlocks(3) == 32
    ensures UnitBlocks(4) == 64 && UnitBlocks(5) == 128
    ensures UnitBlocks(6) == 256 && UnitBlocks(7) == 512 && UnitBlocks(8) == 1024 && UnitBlocks(9) == 2048
  {
    SmallPowers();
    LargePowers();
  }

  /** The multiplier whose unit is the largest of 16, 32, ..., 2048 not above the request. */
  ghost predicate IsLargestUnit(requested: U32, m: nat) {
    && 2 <= m <= 9
    && UnitBlocks(m) <= requested
    && (m < 9 ==> requested < UnitBlocks(m + 1))
  }

  lemma FirstFitIsLargestUnit(requested: U32, m: nat)
    requires IsLargestUnit(requested, m) && requested < 4097 * 2048
    ensures FirstFit(requested, 9) == Some(m)
  {
    hide FirstFit, UnitBlocks;
    Units();
    assert Fits(requested, m);
    forall n | m < n <= 9 ensures !Fits(requested, n) {
      UnitIsMonotone(m + 1, n);
    }
    var found := FirstFit(requested, 9);
  }

  /**
   * From 16 blocks up to 4096 units of 2048 an SDSC card exposes the largest multiple of the largest
   * unit that fits. The version 1 decoding of the register returns the exposed capacity exactly for
   * requests below 1024: from there on the multiplier (8 or 9) does not fit its three-bit field.
   */
  lemma SdscCapacity(requested: U32, m: nat)
    requires IsLargestUnit(requested, m) && requested < 4097 * 2048
    ensures var registers := MakeRegisters(Sdsc, requested);
            && registers.exposedBlocks == requested / UnitBlocks(m) * UnitBlocks(m)
            && 0 < registers.exposedBlocks <= requested < registers.exposedBlocks + UnitBlocks(m)
            && Structure(registers.csd) == 0
            && (Version1Blocks(registers.csd) == registers.exposedBlocks <==> requested < GROUP_BLOCKS)
  {
    hide Field, Power2, SdscCsd, NoCsd, FirstFit, Structure, UnitBlocks, Version1Blocks;
    FirstFitIsLargestUnit(requested, m);
    Units();
    var units := requested / UnitBlocks(m);
    Multiple(requested, UnitBlocks(m));
    SdscFields(units, m);
    StructureIsField(SdscCsd(units, m));
    MultiplierField(requested, m);
    Version1Of(SdscCsd(units, m), units, m);
    DifferentUnits(units, UnitBlocks(m % 8), UnitBlocks(m));
  }

  lemma Version1Of(csd: seq<bv8>, units: nat, m: nat)
    requires |csd| == REGISTER_SIZE && units > 0
    requires Field(csd, 62, 12) == units - 1 && Field(csd, 47, 3) == m % 8
    ensures Version1Blocks(csd) == units * UnitBlocks(m % 8)
  {}

  lemma Multiple(requested: nat, unit: nat)
    requires 0 < unit <= requested
    ensures requested / unit > 0
    ensures 0 < requested / unit * unit <= requested < requested / unit * unit + unit
  {}

  lemma DifferentUnits(units: nat, a: nat, b: nat)
    requires units > 0
    ensures units * a == units * b <==> a == b
  {
    if a < b { assert units * (b - a) > 0; }
    if b < a { assert units * (a - b) > 0; }
  }

  lemma MultiplierField(requested: U32, m: nat)
    requires IsLargestUnit(requested, m)
    ensures UnitBlocks(m % 8) == UnitBlocks(m) <==> requested < GROUP_BLOCKS
  {
    hide UnitBlocks;
    Units();
  }

  /** Requests with no encodable unit count expose nothing. */
  lemma SdscTooSmallOrLarge(requested: U32)
    ensures MakeRegisters(Sdsc, requested).exposedBlocks == 0 <==> requested < 16 || requested >= 4097 * 2048
  {
    hide Power2, SdscCsd, NoCsd, UnitBlocks;
    Units();
    if 16 <= requested < 4097 * 2048 {
      var m := LargestUnit(requested);
      SdscCapacity(requested, m);
    } else {
      forall m | 2 <= m <= 9 ensures !Fits(requested, m) {
        UnitIsMonotone(2, m);
        UnitIsMonotone(m, 9);
      }
    }
  }

  lemma LargestUnit(requested: U32) returns (m: nat)
    requires requested >= 16
    ensures IsLargestUnit(requested, m)
  {
    Units();
    m := if requested >= 2048 then 9 else if requested >= 1024 then 8 else if requested >= 512 then 7
         else if requested >= 256 then 6 else if requested >= 128 then 5 else if requested >= 64 then 4
         else if requested >= 32 then 3 else 2;
  }

  /** No card type exposes blocks the backend does not have. */
  lemma ExposesAtMostRequest(cardType: CardType, requested: U32)
    ensures MakeRegisters(cardType, requested).exposedBlocks <= requested
  {
    hide MakeRegisters;
    if cardType == Sdhc {
      SdhcRoundTrip(requested);
    } else if 16 <= requested < 4097 * 2048 {
      var m := LargestUnit(requested);
      SdscCapacity(requested, m);
    } else {
      SdscTooSmallOrLarge(requested);
    }
  }
}
