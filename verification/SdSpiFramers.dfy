/** The two byte framers of the SPI card engine, each over its fixed buffer. */
module SdSpiFramers {
  import opened Basics
  import opened SdCommand

  // ---- sd_spi_command_framer.cpp ---------------------------------------------
  // A command framer is the bytes of the frame received so far.

  type DecodedCommand = Result<Command, CommandError>

  function PushCommandByte(frame: seq<bv8>, byte: bv8, crcRequired: bool): (next: (seq<bv8>, Option<DecodedCommand>))
    requires |frame| < COMMAND_FRAME_SIZE
    ensures |next.0| < COMMAND_FRAME_SIZE
  {
    if frame == [] && !IsCommandStart(byte) then ([], None)
    else if |frame| + 1 != COMMAND_FRAME_SIZE then (frame + [byte], None)
    else ([], Some(DecodeCommand(frame + [byte], crcRequired)))
  }

  class SdSpiCommandFramer {
    const frame: array<bv8>
    var count: nat

    ghost predicate Valid()
      reads this
    {
      frame.Length == COMMAND_FRAME_SIZE && count < COMMAND_FRAME_SIZE
    }

    ghost function State(): seq<bv8>
      requires Valid()
      reads this, frame
    {
      frame[..count]
    }

    constructor ()
      ensures Valid() && fresh(frame) && State() == []
    {
      frame := new bv8[COMMAND_FRAME_SIZE](_ => 0);
      count := 0;
    }

    method PushByte(byte: bv8, crcRequired: bool) returns (decoded: Option<DecodedCommand>)
      requires Valid()
      modifies this, frame
      ensures Valid() && (State(), decoded) == PushCommandByte(old(State()), byte, crcRequired)
    {
      hide DecodeCommand, IsCommandStart;
      ghost var before := State();
      if count == 0 {
        if !IsCommandStart(byte) {
          return None;
        }
      }
      frame[count] := byte;
      count := count + 1;
      assert frame[..count] == before + [byte];
      if count != frame.Length {
        return None;
      }
      assert frame[..] == before + [byte];
      var result := DecodeSdCommand(frame[..], crcRequired);
      count := 0;
      return Some(result);
    }

    method Reset()
      requires Valid()
      modifies this
      ensures Valid() && State() == []
    {
      count := 0;
    }
  }

  // ---- sd_spi_data_framer.cpp --------------------------------------------------

  datatype DataPhase = NotReceiving | WaitingForToken | Payload | CrcHigh | CrcLow

  datatype DataEvent = Stop | Received(payload: Block, crc: bv16)

  function HighByte(byte: bv8): bv16 { byte as bv16 << 8 }
  function WithLowByte(crc: bv16, byte: bv8): bv16 { crc | byte as bv16 }

  datatype DataFramer = DataFramer(phase: DataPhase, multi: bool, payload: seq<bv8>, crc: bv16) {
    predicate Valid() {
      && |payload| <= BLOCK_SIZE
      && (phase == Payload ==> |payload| < BLOCK_SIZE)
      && (phase == CrcHigh || phase == CrcLow ==> |payload| == BLOCK_SIZE)
    }

    predicate Receiving() { phase != NotReceiving }

    function Reset(): DataFramer { DataFramer(NotReceiving, multi, [], 0) }

    function Begin(multi: bool): DataFramer { DataFramer(WaitingForToken, multi, [], 0) }

    predicate IsToken(byte: bv8) { byte == if multi then START_MULTI_WRITE_TOKEN else START_BLOCK_TOKEN }

    function Push(byte: bv8): (next: (DataFramer, Option<DataEvent>))
      requires Valid()
      ensures next.0.Valid()
    {
      match phase
      case NotReceiving => (this, None)
      case WaitingForToken =>
        if multi && byte == STOP_MULTI_WRITE_TOKEN then (this.(phase := NotReceiving), Some(Stop))
        else if IsToken(byte) then (this.(phase := Payload, payload := [], crc := 0), None)
        else (this, None)
      case Payload =>
        (this.(payload := payload + [byte], phase := if |payload| + 1 == BLOCK_SIZE then CrcHigh else Payload), None)
      case CrcHigh => (this.(crc := HighByte(byte), phase := CrcLow), None)
      case CrcLow =>
        var received := WithLowByte(crc, byte);
        (this.(crc := received, phase := if multi then WaitingForToken else NotReceiving), Some(Received(payload, received)))
    }
  }

  const NEW_DATA_FRAMER := DataFramer(NotReceiving, false, [], 0)

  class SdSpiDataFramer {
    const payload: array<bv8>
    var phase: DataPhase
    var multi: bool
    var payloadSize: nat
    var crc: bv16

    ghost predicate Valid()
      reads this, payload
    {
      payload.Length == BLOCK_SIZE && payloadSize <= BLOCK_SIZE && State().Valid()
    }

    ghost function State(): DataFramer
      requires payloadSize <= payload.Length
      reads this, payload
    {
      DataFramer(phase, multi, payload[..payloadSize], crc)
    }

    constructor ()
      ensures Valid() && fresh(payload) && State() == NEW_DATA_FRAMER
    {
      payload := new bv8[BLOCK_SIZE](_ => 0);
      phase, multi, payloadSize, crc := NotReceiving, false, 0, 0;
    }

    method Begin(multi: bool)
      requires Valid()
      modifies this
      ensures Valid() && State() == old(State()).Begin(multi)
    {
      Reset();
      this.multi := multi;
      phase := WaitingForToken;
    }

    method PushByte(byte: bv8) returns (event: Option<DataEvent>)
      requires Valid()
      modifies this, payload
      ensures Valid() && (State(), event) == old(State()).Push(byte)
    {
      ghost var before := State();
      match phase {
        case NotReceiving =>
          return None;
        case WaitingForToken =>
          if multi && byte == STOP_MULTI_WRITE_TOKEN {
            phase := NotReceiving;
            return Some(Stop);
          }
          if (!multi && byte == START_BLOCK_TOKEN) || (multi && byte == START_MULTI_WRITE_TOKEN) {
            payloadSize := 0;
            crc := 0;
            phase := Payload;
          }
          return None;
        case Payload =>
          payload[payloadSize] := byte;
          payloadSize := payloadSize + 1;
          assert payload[..payloadSize] == before.payload + [byte];
          if payloadSize == payload.Length {
            phase := CrcHigh;
          }
          return None;
        case CrcHigh =>
          crc := HighByte(byte);
          phase := CrcLow;
          return None;
        case CrcLow =>
          crc := WithLowByte(crc, byte);
          assert payload[..] == payload[..payloadSize];
          phase := if multi then WaitingForToken else NotReceiving;
          return Some(Received(payload[..], crc));
      }
    }

    method Reset()
      requires Valid()
      modifies this
      ensures Valid() && State() == old(State()).Reset()
    {
      phase := NotReceiving;
      payloadSize := 0;
      crc := 0;
    }
  }
}
