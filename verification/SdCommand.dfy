/** Commands, responses and data blocks of the SD SPI protocol, section 7 of the SD Physical Layer Simplified Specification. */
module SdCommand {
  import opened Basics
  import opened Crc

  const START_BLOCK_TOKEN: bv8 := 0xfe
  const START_MULTI_WRITE_TOKEN: bv8 := 0xfc
  const STOP_MULTI_WRITE_TOKEN: bv8 := 0xfd
  const DATA_RESPONSE_ACCEPTED: bv8 := 0x05
  const DATA_RESPONSE_CRC_ERROR: bv8 := 0x0b
  const DATA_RESPONSE_WRITE_ERROR: bv8 := 0x0d
  const COMMAND_FRAME_SIZE := 6
  const DATA_BLOCK_WIRE_SIZE := 515

  const R1_IDLE: bv8 := 0x01
  const R1_ILLEGAL_COMMAND: bv8 := 0x04
  const R1_COM_CRC_ERROR: bv8 := 0x08
  const R1_ADDRESS_ERROR: bv8 := 0x20

  datatype CommandError = InvalidStartBits | InvalidEndBit | CrcMismatch

  datatype Command = Command(index: bv8, argument: U32, crcByte: bv8)

  /** The start bits 01 of a command's first byte. */
  predicate IsCommandStart(byte: bv8) { byte & 0xc0 == 0x40 }

  function BigEndian(a: bv8, b: bv8, c: bv8, d: bv8): U32 {
    a as nat * 0x100_0000 + b as nat * 0x1_0000 + c as nat * 0x100 + d as nat
  }

  function DecodeCommand(frame: seq<bv8>, crcRequired: bool): Result<Command, CommandError>
    requires |frame| == COMMAND_FRAME_SIZE
  {
    if !IsCommandStart(frame[0]) then Err(InvalidStartBits)
    else if frame[5] & 0x01 == 0 then Err(InvalidEndBit)
    else if crcRequired && Crc7CommandByte(frame[..5]) != frame[5] then Err(CrcMismatch)
    else Ok(Command(frame[0] & 0x3f, BigEndian(frame[1], frame[2], frame[3], frame[4]), frame[5]))
  }

  /** R3 and R7: a status byte and a word, most significant byte first. */
  function WordResponse(status: bv8, word: U32): seq<bv8> {
    [status, (word / 0x100_0000) as bv8, (word / 0x1_0000 % 0x100) as bv8, (word / 0x100 % 0x100) as bv8, (word % 0x100) as bv8]
  }

  lemma BytesOfWord(a: nat, b: nat, c: nat, d: nat)
    requires a < 0x100 && b < 0x100 && c < 0x100 && d < 0x100
    ensures var word := a * 0x100_0000 + b * 0x1_0000 + c * 0x100 + d;
            word / 0x100_0000 == a && word / 0x1_0000 % 0x100 == b && word / 0x100 % 0x100 == c && word % 0x100 == d
  {
    var word := a * 0x100_0000 + b * 0x1_0000 + c * 0x100 + d;
    DivRem(word, 0x100_0000, a, b * 0x1_0000 + c * 0x100 + d);
    DivRem(word, 0x1_0000, a * 0x100 + b, c * 0x100 + d);
    DivRem(a * 0x100 + b, 0x100, a, b);
    DivRem(word, 0x100, a * 0x1_0000 + b * 0x100 + c, d);
    DivRem(a * 0x1_0000 + b * 0x100 + c, 0x100, a * 0x100 + b, c);
  }

  lemma ByteOfNat(byte: bv8)
    ensures byte as nat < 0x100 && byte as nat as bv8 == byte
  {}

  lemma WordResponseBytes(status: bv8, a: nat, b: nat, c: nat, d: nat)
    requires a < 0x100 && b < 0x100 && c < 0x100 && d < 0x100
    ensures WordResponse(status, a * 0x100_0000 + b * 0x1_0000 + c * 0x100 + d) == [status, a as bv8, b as bv8, c as bv8, d as bv8]
  {
    BytesOfWord(a, b, c, d);
  }

  /** R7 echoes the argument bytes of the command it answers. */
  lemma WordResponseEchoes(status: bv8, a: bv8, b: bv8, c: bv8, d: bv8)
    ensures WordResponse(status, BigEndian(a, b, c, d)) == [status, a, b, c, d]
  {
    hide WordResponse;
    ByteOfNat(a);
    ByteOfNat(b);
    ByteOfNat(c);
    ByteOfNat(d);
    WordResponseBytes(status, a as nat, b as nat, c as nat, d as nat);
  }

  function DataResponse(status: bv8): bv8 { (status & 0x1f) | 0x01 }

  /** A start token, the payload and its CRC16, high byte first. */
  function Framed(payload: seq<bv8>): (wire: seq<bv8>)
    ensures |wire| == |payload| + 3
  {
    [START_BLOCK_TOKEN] + payload + [Crc16High(Crc16(payload)), Crc16Low(Crc16(payload))]
  }

  method MakeReadDataBlock(payload: Block) returns (wire: seq<bv8>)
    ensures wire == Framed(payload)
  {
    var checksum := ComputeCrc16(payload);
    wire := [START_BLOCK_TOKEN] + payload + [Crc16High(checksum), Crc16Low(checksum)];
  }

  method DecodeSdCommand(frame: seq<bv8>, crcRequired: bool) returns (result: Result<Command, CommandError>)
    requires |frame| == COMMAND_FRAME_SIZE
    ensures result == DecodeCommand(frame, crcRequired)
  {
    if !IsCommandStart(frame[0]) {
      return Err(InvalidStartBits);
    }
    if frame[5] & 0x01 == 0 {
      return Err(InvalidEndBit);
    }
    if crcRequired {
      var crc := ComputeCrc7(frame[..5]);
      if (crc << 1) | 1 != frame[5] {
        return Err(CrcMismatch);
      }
    }
    return Ok(Command(frame[0] & 0x3f, BigEndian(frame[1], frame[2], frame[3], frame[4]), frame[5]));
  }
}
