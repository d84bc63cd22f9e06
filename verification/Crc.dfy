/** The three checksums of shared/protocol/src/crc.cpp and what they detect. */
module Crc {

  // ---- One shift of each register, and one whole byte ---------------------

  function Crc16Shift(v: bv16): bv16 {
    if v & 0x8000 != 0 then (v << 1) ^ 0x1021 else v << 1
  }

  function Crc32Shift(v: bv32): bv32 {
    if v & 1 != 0 then (v >> 1) ^ 0xedb88320 else v >> 1
  }

  /** The seven-bit register, held in the low bits of a byte, takes one input bit. */
  function Crc7Shift(v: bv8, bit: bv8): bv8 {
    var shifted := (v << 1) & 0x7f;
    if ((v >> 6) & 1) ^ bit != 0 then shifted ^ 0x09 else shifted
  }

  function Crc16Shifts(v: bv16, n: nat): bv16
  {
    if n == 0 then v else Crc16Shift(Crc16Shifts(v, n - 1))
  }

  function Crc32Shifts(v: bv32, n: nat): bv32
  {
    if n == 0 then v else Crc32Shift(Crc32Shifts(v, n - 1))
  }

  function InputBit(byte: bv8, index: nat): bv8
    requires index < 8
  {
    (byte >> index) & 1
  }

  /** The register after the n most significant bits of byte. */
  function Crc7Bits(v: bv8, byte: bv8, n: nat): bv8
    requires n <= 8
  {
    if n == 0 then v else Crc7Shift(Crc7Bits(v, byte, n - 1), InputBit(byte, 8 - n))
  }

  function Crc16Mix(v: bv16, byte: bv8): bv16 { v ^ (byte as bv16 << 8) }
  function Crc32Mix(v: bv32, byte: bv8): bv32 { v ^ byte as bv32 }

  function Crc16Byte(v: bv16, byte: bv8): bv16 { Crc16Shifts(Crc16Mix(v, byte), 8) }
  function Crc32Byte(v: bv32, byte: bv8): bv32 { Crc32Shifts(Crc32Mix(v, byte), 8) }
  function Crc7Byte(v: bv8, byte: bv8): bv8 { Crc7Bits(v, byte, 8) }

  // ---- Whole messages ------------------------------------------------------

  function Crc16From(v: bv16, data: seq<bv8>): bv16
    decreases data
  {
    if data == [] then v else Crc16From(Crc16Byte(v, data[0]), data[1..])
  }

  function Crc32From(v: bv32, data: seq<bv8>): bv32
    decreases data
  {
    if data == [] then v else Crc32From(Crc32Byte(v, data[0]), data[1..])
  }

  function Crc7From(v: bv8, data: seq<bv8>): bv8
    decreases data
  {
    if data == [] then v else Crc7From(Crc7Byte(v, data[0]), data[1..])
  }

  function Crc16(data: seq<bv8>): bv16 { Crc16From(0, data) }
  const CRC32_START: bv32 := 0xffffffff
  function Crc32Finish(v: bv32): bv32 { v ^ 0xffffffff }
  function Crc32(data: seq<bv8>): bv32 { Crc32Finish(Crc32From(CRC32_START, data)) }
  function Crc7(data: seq<bv8>): bv8 { Crc7From(0, data) }

  /** The last byte of a command frame: the CRC7 followed by the end bit. */
  function Crc7CommandByte(data: seq<bv8>): bv8 { (Crc7(data) << 1) | 1 }

  function Crc16High(v: bv16): bv8 { (v >> 8) as bv8 }
  function Crc16Low(v: bv16): bv8 { (v & 0xff) as bv8 }
  function JoinCrc16(high: bv8, low: bv8): bv16 { (high as bv16 << 8) | low as bv16 }

  lemma JoinSplitCrc16(v: bv16)
    ensures JoinCrc16(Crc16High(v), Crc16Low(v)) == v
  {}

  // ---- The loops of the source --------------------------------------------
  // One pass of each inner loop body is its own method.

  method ShiftCrc7(value: bv8, byte: bv8, bitIndex: nat) returns (shifted: bv8)
    requires bitIndex < 8
    ensures shifted == Crc7Shift(value, InputBit(byte, bitIndex))
  {
    var inputBit := (byte >> bitIndex) & 1;
    var feedback := ((value >> 6) & 1) ^ inputBit;
    shifted := (value << 1) & 0x7f;
    if feedback != 0 {
      shifted := shifted ^ 0x09;
    }
  }

  method ShiftCrc16(value: bv16) returns (shifted: bv16)
    ensures shifted == Crc16Shift(value)
  {
    var topBitSet := value & 0x8000 != 0;
    shifted := value << 1;
    if topBitSet {
      shifted := shifted ^ 0x1021;
    }
  }

  method ShiftCrc32(value: bv32) returns (shifted: bv32)
    ensures shifted == Crc32Shift(value)
  {
    var lowBitSet := value & 1 != 0;
    shifted := value >> 1;
    if lowBitSet {
      shifted := shifted ^ 0xedb88320;
    }
  }

  method ComputeCrc7(data: seq<bv8>) returns (value: bv8)
    ensures value == Crc7(data)
  {
    value := 0;
    for index := 0 to |data|
      invariant Crc7From(value, data[index..]) == Crc7(data)
    {
      ghost var before := value;
      for bitIndex := 8 downto 0
        invariant value == Crc7Bits(before, data[index], 8 - bitIndex)
      {
        value := ShiftCrc7(value, data[index], bitIndex);
      }
      assert data[index..][1..] == data[index + 1..];
    }
  }

  method ComputeCrc16(data: seq<bv8>) returns (value: bv16)
    ensures value == Crc16(data)
  {
    value := 0;
    for index := 0 to |data|
      invariant Crc16From(value, data[index..]) == Crc16(data)
    {
      value := value ^ (data[index] as bv16 << 8);
      ghost var mixed := value;
      for bitIndex := 0 to 8
        invariant value == Crc16Shifts(mixed, bitIndex)
      {
        value := ShiftCrc16(value);
      }
      assert data[index..][1..] == data[index + 1..];
    }
  }

  method ComputeCrc32(data: seq<bv8>) returns (value: bv32)
    ensures value == Crc32(data)
  {
    value := CRC32_START;
    for index := 0 to |data|
      invariant Crc32From(value, data[index..]) == Crc32From(CRC32_START, data)
    {
      value := value ^ data[index] as bv32;
      ghost var mixed := value;
      for bitIndex := 0 to 8
        invariant value == Crc32Shifts(mixed, bitIndex)
      {
        value := ShiftCrc32(value);
      }
      assert data[index..][1..] == data[index + 1..];
    }
    value := value ^ 0xffffffff;
  }
}
