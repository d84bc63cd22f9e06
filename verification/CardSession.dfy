/** A card that is spoken to correctly does store and return blocks: the accepting half of the refinement. */
module CardSession {
  import opened Basics
  import opened Crc
  import opened SdCommand
  import C = SdCardModel
  import opened SdSpiFramers
  import opened SdSpiCardEngine
  import opened ArrayRefinement

  /** The engine after some bytes, and the outputs they produced in order. */
  function Send(e: Engine, bytes: seq<bv8>): (sent: (Engine, seq<Output>))
    requires e.Valid()
    ensures sent.0.Valid()
    decreases bytes
  {
    if bytes == [] then (e, [])
    else
      var (next, output) := e.PushByte(bytes[0]);
      var (last, outputs) := Send(next, bytes[1..]);
      (last, (if output.Some? then [output.value] else []) + outputs)
  }

  lemma {:induction false} SendAppend(e: Engine, a: seq<bv8>, b: seq<bv8>)
    requires e.Valid()
    ensures var (middle, outputs) := Send(e, a);
            var (last, more) := Send(middle, b);
            Send(e, a + b) == (last, outputs + more)
    decreases a
  {
    hide Engine.PushByte, Engine.Valid;
    if a == [] {
      assert a + b == b;
      assert [] + Send(e, b).1 == Send(e, b).1;
    } else {
      assert (a + b)[1..] == a[1..] + b;
      var (next, output) := e.PushByte(a[0]);
      SendAppend(next, a[1..], b);
      var first := if output.Some? then [output.value] else [];
      var (middle, outputs) := Send(next, a[1..]);
      assert first + (outputs + Send(middle, b).1) == first + outputs + Send(middle, b).1;
    }
  }

  lemma SendOne(e: Engine, byte: bv8)
    requires e.Valid()
    ensures var (next, output) := e.PushByte(byte); Send(e, [byte]) == (next, if output.Some? then [output.value] else [])
  {
    hide Engine.PushByte;
    assert [byte][1..] == [];
    var (next, output) := e.PushByte(byte);
    assert Send(next, []) == (next, []);
    var first := if output.Some? then [output.value] else [];
    assert first + [] == first;
  }

  predicate AtRest(e: Engine) { !e.framer.Receiving() && e.frame == [] }

  /** The bytes of a frame from the k-th on, after the first k. */
  lemma {:induction false} RestOfFrame(e: Engine, frame: seq<bv8>, k: nat)
    requires e.Valid() && !e.framer.Receiving() && |frame| == COMMAND_FRAME_SIZE && k < COMMAND_FRAME_SIZE
    requires e.frame == frame[..k] && IsCommandStart(frame[0])
    ensures var (done, output) := FrameDone(e.(frame := []), frame);
            output.Some? && Send(e, frame[k..]) == (done, [output.value])
    decreases COMMAND_FRAME_SIZE - k
  {
    hide DecodeCommand, IsCommandStart, Engine.ExecuteCommand;
    var byte := frame[k..][0];
    assert frame[..k] + [byte] == frame[..k + 1];
    assert frame[k..][1..] == frame[k + 1..];
    if k + 1 == COMMAND_FRAME_SIZE {
      assert frame[..k + 1] == frame;
      assert frame[k..] == [byte];
      SendOne(e, byte);
      OutputOfFrame(e.(frame := []), frame);
    } else {
      var next := e.(frame := frame[..k + 1]);
      assert e.PushByte(byte) == (next, None);
      RestOfFrame(next, frame, k + 1);
      var (done, output) := FrameDone(e.(frame := []), frame);
      assert next.(frame := []) == e.(frame := []);
      assert [] + [output.value] == [output.value];
    }
  }

  lemma OutputOfFrame(e: Engine, frame: seq<bv8>)
    requires e.Valid() && |frame| == COMMAND_FRAME_SIZE
    ensures FrameDone(e, frame).1.Some?
  {
    hide DecodeCommand, C.Card.Execute, CommandOutput;
  }

  lemma SendFrame(e: Engine, frame: seq<bv8>)
    requires e.Valid() && AtRest(e) && |frame| == COMMAND_FRAME_SIZE && IsCommandStart(frame[0])
    ensures var (done, output) := FrameDone(e, frame);
            output.Some? && Send(e, frame) == (done, [output.value])
  {
    hide FrameDone, Send;
    assert e.(frame := []) == e && frame[0..] == frame;
    RestOfFrame(e, frame, 0);
  }

  /** A frame whose CRC is right is decoded under either policy. */
  ghost predicate IsCommand(frame: seq<bv8>, index: bv8, argument: U32) {
    && |frame| == COMMAND_FRAME_SIZE
    && var decoded := DecodeCommand(frame, true);
       decoded.Ok? && decoded.value.index == index && decoded.value.argument == argument
  }

  /** The frame of a command, with its CRC. */
  function CommandFrame(index: bv8, a: bv8, b: bv8, c: bv8, d: bv8): seq<bv8> {
    [0x40 | index, a, b, c, d, Crc7CommandByte([0x40 | index, a, b, c, d])]
  }

  lemma FrameBits(index: bv8, crc: bv8)
    requires index & 0xc0 == 0
    ensures IsCommandStart(0x40 | index) && (0x40 | index) & 0x3f == index && ((crc << 1) | 1) & 0x01 != 0
  {}

  /** Every command has a frame. */
  lemma FrameIsCommand(index: bv8, a: bv8, b: bv8, c: bv8, d: bv8)
    requires index & 0xc0 == 0
    ensures IsCommand(CommandFrame(index, a, b, c, d), index, BigEndian(a, b, c, d))
  {
    hide Crc7, BigEndian, IsCommandStart;
    var frame := CommandFrame(index, a, b, c, d);
    FrameBits(index, Crc7([0x40 | index, a, b, c, d]));
    assert frame[..5] == [0x40 | index, a, b, c, d];
  }

  lemma SendCommand(e: Engine, frame: seq<bv8>, index: bv8, argument: U32)
    requires e.Valid() && AtRest(e) && IsCommand(frame, index, argument)
    ensures var command := DecodeCommand(frame, true).value;
            var (done, output) := e.ExecuteCommand(command);
            output.Some? && Send(e, frame) == (done, [output.value])
  {
    hide Send, Engine.ExecuteCommand, IsCommandStart, BigEndian, Crc7CommandByte;
    SendFrame(e, frame);
  }

  /** Payload bytes go into the buffer and answer nothing. */
  lemma {:induction false} SendPayload(e: Engine, rest: seq<bv8>)
    requires e.Valid() && e.framer.phase == Payload && |e.framer.payload| + |rest| == BLOCK_SIZE && rest != []
    ensures Send(e, rest) == (e.(framer := e.framer.(phase := CrcHigh, payload := e.framer.payload + rest)), [])
    decreases rest
  {
    var next := e.(framer := e.framer.(payload := e.framer.payload + [rest[0]],
                                       phase := if |rest| == 1 then CrcHigh else Payload));
    assert e.PushByte(rest[0]) == (next, None);
    if |rest| == 1 {
      assert rest == [rest[0]];
      SendOne(e, rest[0]);
    } else {
      SendPayload(next, rest[1..]);
      assert e.framer.payload + [rest[0]] + rest[1..] == e.framer.payload + rest;
    }
  }

  /** Two stretches of bytes whose outputs are known. */
  lemma SendBoth(e: Engine, a: seq<bv8>, b: seq<bv8>, middle: Engine, last: Engine, outputs: seq<Output>)
    requires e.Valid() && middle.Valid()
    requires Send(e, a) == (middle, []) && Send(middle, b) == (last, outputs)
    ensures Send(e, a + b) == (last, outputs)
  {
    hide Send;
    SendAppend(e, a, b);
    assert [] + outputs == outputs;
  }

  /** A data block on the wire: the token of its write command, the payload, and two CRC bytes. */
  function WireBlock(multi: bool, block: Block, crc: bv16): seq<bv8> {
    [if multi then START_MULTI_WRITE_TOKEN else START_BLOCK_TOKEN] + block + [Crc16High(crc), Crc16Low(crc)]
  }

  /** The framer once a whole block is in. */
  function BlockIn(multi: bool, block: Block, crc: bv16): DataFramer {
    DataFramer(if multi then WaitingForToken else NotReceiving, multi, block, crc)
  }

  /** The token and the two CRC bytes, one at a time. */
  lemma FramerSteps(e: Engine, block: Block, crc: bv16)
    requires e.Valid() && e.framer.phase == WaitingForToken
    ensures var multi, high := e.framer.multi, Crc16High(crc);
            && e.PushByte(if multi then START_MULTI_WRITE_TOKEN else START_BLOCK_TOKEN)
               == (e.(framer := DataFramer(Payload, multi, [], 0)), None)
            && e.(framer := DataFramer(CrcHigh, multi, block, 0)).PushByte(high)
               == (e.(framer := DataFramer(CrcLow, multi, block, HighByte(high))), None)
            && e.(framer := DataFramer(CrcLow, multi, block, HighByte(high))).PushByte(Crc16Low(crc))
               == e.(framer := BlockIn(multi, block, crc)).WriteReceived(block, crc)
  {
    hide Engine.WriteReceived, Crc16High, Crc16Low, HighByte, WithLowByte;
    JoinSplitCrc16(crc);
    CrcBytes(Crc16High(crc), Crc16Low(crc));
  }

  /** A block sent after a write command reaches the card as it was sent, whatever CRC it carries. */
  lemma SendBlock(e: Engine, block: Block, crc: bv16)
    requires e.Valid() && e.framer.phase == WaitingForToken
    ensures var (done, output) := e.(framer := BlockIn(e.framer.multi, block, crc)).WriteReceived(block, crc);
            Send(e, WireBlock(e.framer.multi, block, crc)) == (done, if output.Some? then [output.value] else [])
  {
    hide Send, Engine.WriteReceived, Engine.PushByte, Crc16High, Crc16Low, HighByte, BlockIn;
    var multi, high, low := e.framer.multi, Crc16High(crc), Crc16Low(crc);
    var token := if multi then START_MULTI_WRITE_TOKEN else START_BLOCK_TOKEN;
    var a := e.(framer := DataFramer(Payload, multi, [], 0));
    var b := e.(framer := DataFramer(CrcHigh, multi, block, 0));
    var c := e.(framer := DataFramer(CrcLow, multi, block, HighByte(high)));
    var d := e.(framer := BlockIn(multi, block, crc));
    FramerSteps(e, block, crc);
    SendOne(e, token);
    SendPayload(a, block);
    assert [] + block == block;
    assert Send(a, block) == (b, []);
    SendOne(b, high);
    SendOne(c, low);
    var (done, output) := d.WriteReceived(block, crc);
    var outputs := if output.Some? then [output.value] else [];
    SendBoth(b, [high], [low], c, done, outputs);
    SendBoth(a, block, [high] + [low], b, done, outputs);
    SendBoth(e, [token], block + ([high] + [low]), a, done, outputs);
    assert WireBlock(multi, block, crc) == [token] + (block + ([high] + [low]));
  }

  lemma FramedIsWireBlock(block: Block)
    ensures Framed(block) == WireBlock(false, block, Crc16(block))
  {}

  // ---- One write and one read ------------------------------------------------------

  lemma PlainOutput(response: seq<bv8>)
    ensures CommandOutput(C.Answer(response)) == Output(response, false)
  {}

  /** CMD24 to an exposed block of an initialised card opens a data block for it. */
  lemma AcceptsWrite(e: Engine, command: Command, lba: nat)
    requires e.Valid() && AtRest(e) && e.card.Open()
    requires command.index == 24 && e.card.CommandLba(command.argument) == Some(lba)
    ensures var (done, output) := e.ExecuteCommand(command);
            && output == Some(Output([0], false))
            && done.framer == e.framer.Begin(false) && done.device == e.device && done.frame == []
            && done.card.state == C.ReceivingData && done.card.pendingWriteLba == lba && !done.card.multiWriteActive
            && done.card.cardType == e.card.cardType && done.card.registers == e.card.registers
  {
    hide WordResponse, BigEndian;
    PlainOutput([0]);
  }

  /** A block framed with its own CRC is stored and accepted. */
  lemma StoresBlock(e: Engine, block: Block)
    requires e.card.state == C.ReceivingData && !e.card.multiWriteActive
    requires e.device.Synchronous() && e.card.pendingWriteLba < |e.device.blocks|
    ensures var (done, output) := e.WriteReceived(block, Crc16(block));
            && output == Some(Output([DATA_RESPONSE_ACCEPTED], true))
            && done.device.blocks == e.device.blocks[e.card.pendingWriteLba := block] && done.device.Synchronous()
            && done.framer == e.framer && done.frame == e.frame && done.card.Open()
            && done.card.cardType == e.card.cardType && done.card.registers == e.card.registers
  {
    hide Crc16, DataResponse;
    DataResponses();
  }

  lemma ReadsBlock(e: Engine, command: Command, lba: nat)
    requires e.Valid() && AtRest(e) && e.card.Open() && e.device.Synchronous()
    requires command.index == 17 && e.card.CommandLba(command.argument) == Some(lba) && lba < |e.device.blocks|
    ensures var (done, output) := e.ExecuteCommand(command);
            && output == Some(Output([0] + Framed(e.device.blocks[lba]), false))
            && done.device.blocks == e.device.blocks && AtRest(done)
  {
    hide Framed;
    var block := e.device.blocks[lba];
    assert [0] + Framed(block) + [] == [0] + Framed(block);
  }

  lemma SendPair(e: Engine, a: seq<bv8>, b: seq<bv8>, middle: Engine, last: Engine, x: seq<Output>, y: seq<Output>)
    requires e.Valid() && middle.Valid() && Send(e, a) == (middle, x) && Send(middle, b) == (last, y)
    ensures Send(e, a + b) == (last, x + y)
  {
    SendAppend(e, a, b);
  }

  /** What is written to an exposed block of an initialised card is read back from it, and nothing else changes. */
  lemma WriteThenRead(e: Engine, write: seq<bv8>, block: Block, read: seq<bv8>, argument: U32, lba: nat)
    requires e.Valid() && AtRest(e) && e.card.Open() && e.device.Synchronous()
    requires IsCommand(write, 24, argument) && IsCommand(read, 17, argument)
    requires e.card.CommandLba(argument) == Some(lba) && lba < |e.device.blocks|
    ensures var (last, outputs) := Send(e, write + Framed(block) + read);
            && outputs == [Output([0], false), Output([DATA_RESPONSE_ACCEPTED], true), Output([0] + Framed(block), false)]
            && last.device.blocks == e.device.blocks[lba := block]
  {
    hide Send, DecodeCommand, Engine.ExecuteCommand, Engine.WriteReceived, Framed, WireBlock, Crc16;
    var writing, reading := DecodeCommand(write, true).value, DecodeCommand(read, true).value;
    SendCommand(e, write, 24, argument);
    AcceptsWrite(e, writing, lba);
    var a := e.ExecuteCommand(writing).0;
    FramedIsWireBlock(block);
    SendBlock(a, block, Crc16(block));
    var framed := a.(framer := BlockIn(false, block, Crc16(block)));
    StoresBlock(framed, block);
    var b := framed.WriteReceived(block, Crc16(block)).0;
    assert b.card.CommandLba(argument) == Some(lba);
    SendCommand(b, read, 17, argument);
    ReadsBlock(b, reading, lba);
    var c := b.ExecuteCommand(reading).0;
    SendPair(e, write, Framed(block), a, b, [Output([0], false)], [Output([DATA_RESPONSE_ACCEPTED], true)]);
    SendPair(e, write + Framed(block), read, b, c,
             [Output([0], false)] + [Output([DATA_RESPONSE_ACCEPTED], true)], [Output([0] + Framed(block), false)]);
  }

  /** CMD0, CMD55 and CMD41 bring a card at rest into service from any state, even after a fault. */
  lemma Initialises(e: Engine, reset: seq<bv8>, prefix: seq<bv8>, activate: seq<bv8>, x: U32, y: U32, z: U32)
    requires e.Valid() && AtRest(e)
    requires IsCommand(reset, 0, x) && IsCommand(prefix, 55, y) && IsCommand(activate, 41, z)
    ensures var (last, outputs) := Send(e, reset + prefix + activate);
            && outputs == [Output([R1_IDLE], false), Output([R1_IDLE], false), Output([0], false)]
            && AtRest(last) && last.card.Open() && last.device == e.device
            && last.card.cardType == e.card.cardType && last.card.registers == e.card.registers
  {
    hide Send, DecodeCommand, Engine.ExecuteCommand;
    SendCommand(e, reset, 0, x);
    var a := e.ExecuteCommand(DecodeCommand(reset, true).value).0;
    Resets(e, DecodeCommand(reset, true).value);
    SendCommand(a, prefix, 55, y);
    var b := a.ExecuteCommand(DecodeCommand(prefix, true).value).0;
    TakesPrefix(a, DecodeCommand(prefix, true).value);
    SendCommand(b, activate, 41, z);
    var c := b.ExecuteCommand(DecodeCommand(activate, true).value).0;
    Activates(b, DecodeCommand(activate, true).value);
    SendPair(e, reset, prefix, a, b, [Output([R1_IDLE], false)], [Output([R1_IDLE], false)]);
    SendPair(e, reset + prefix, activate, b, c, [Output([R1_IDLE], false)] + [Output([R1_IDLE], false)], [Output([0], false)]);
  }

  lemma Resets(e: Engine, command: Command)
    requires e.Valid() && AtRest(e) && command.index == 0
    ensures var (done, output) := e.ExecuteCommand(command);
            && output == Some(Output([R1_IDLE], false)) && AtRest(done) && done.card.state == C.Idle
            && done.device == e.device && done.card.cardType == e.card.cardType && done.card.registers == e.card.registers
  {
    PlainOutput([R1_IDLE]);
  }

  lemma TakesPrefix(e: Engine, command: Command)
    requires e.Valid() && AtRest(e) && e.card.state == C.Idle && command.index == 55
    ensures var (done, output) := e.ExecuteCommand(command);
            && output == Some(Output([R1_IDLE], false)) && AtRest(done) && done.card.state == C.Idle && done.card.appCommandPending
            && done.device == e.device && done.card.cardType == e.card.cardType && done.card.registers == e.card.registers
  {
    PlainOutput([R1_IDLE]);
  }

  lemma Activates(e: Engine, command: Command)
    requires e.Valid() && AtRest(e) && e.card.state == C.Idle && e.card.appCommandPending && command.index == 41
    ensures var (done, output) := e.ExecuteCommand(command);
            && output == Some(Output([0], false)) && AtRest(done) && done.card.Open()
            && done.device == e.device && done.card.cardType == e.card.cardType && done.card.registers == e.card.registers
  {
    PlainOutput([0]);
  }
}
