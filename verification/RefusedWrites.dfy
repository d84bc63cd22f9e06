/**
 * What a bad block leaves behind. After a single block with a wrong CRC16 the card keeps receiving:
 * the next write command is refused, and its data block is stored all the same, at the address of
 * the command before it.
 */
module RefusedWrites {
  import opened Basics
  import opened Crc
  import opened SdCommand
  import opened SdRegisters
  import opened BlockDevice
  import C = SdCardModel
  import opened SdSpiCardEngine
  import opened ArrayRefinement
  import opened CardSession

  const CLEAR := Output([0], false)
  const REFUSED := Output([R1_ILLEGAL_COMMAND], false)
  const STORED := Output([DATA_RESPONSE_ACCEPTED], true)
  const BAD_CRC := Output([DATA_RESPONSE_CRC_ERROR], false)

  /**
   * A write command opens a data block exactly when it was answered with a clear R1 or the card was
   * receiving already. So the answer tells whether a block is expected exactly when the card was not
   * receiving before the command.
   */
  lemma OpensDataBlockExactly(e: Engine, command: Command)
    requires e.Valid() && AtRest(e) && (command.index == 24 || command.index == 25)
    ensures var (done, output) := e.ExecuteCommand(command);
            && output.Some?
            && (done.framer.Receiving() <==> output == Some(CLEAR) || e.card.state == C.ReceivingData)
            && (output == Some(CLEAR) ==> e.card.Open())
            && ((done.framer.Receiving() <==> output == Some(CLEAR)) <==> e.card.state != C.ReceivingData)
  {
    hide WordResponse, BigEndian, C.Card.CommandLba, C.Card.Reset, C.Card.BeginRead;
    PlainOutput([0]);
    PlainOutput([R1_ADDRESS_ERROR]);
    PlainOutput([R1_ILLEGAL_COMMAND | e.card.R1Status()]);
  }

  /** A receiving card refuses a write command to any address, and opens a block without moving its own address. */
  lemma RefusedWriteReceives(e: Engine, command: Command)
    requires e.Valid() && AtRest(e) && e.card.state == C.ReceivingData
    requires command.index == 24 || command.index == 25
    ensures var (done, output) := e.ExecuteCommand(command);
            && output == Some(REFUSED)
            && done.framer == e.framer.Begin(command.index == 25) && done.frame == []
            && done.card == e.card.(appCommandPending := false) && done.device == e.device
  {
    PlainOutput([R1_ILLEGAL_COMMAND]);
  }

  /** A single block with a wrong CRC16 is refused and leaves the card receiving for the same address. */
  lemma BadBlockKeepsReceiving(e: Engine, block: Block, crc: bv16)
    requires e.card.state == C.ReceivingData && crc != Crc16(block)
    ensures e.WriteReceived(block, crc) == (e, Some(BAD_CRC))
  {
    hide Crc16, DataResponse;
    DataResponses();
  }

  /** The refused command's block is accepted and stored at the earlier address. */
  lemma RefusedBlockLands(e: Engine, write: seq<bv8>, index: bv8, argument: U32, block: Block)
    requires e.Valid() && AtRest(e) && e.card.state == C.ReceivingData && !e.card.multiWriteActive
    requires e.device.Synchronous() && e.card.pendingWriteLba < |e.device.blocks|
    requires IsCommand(write, index, argument) && (index == 24 || index == 25)
    ensures var (last, outputs) := Send(e, write + WireBlock(index == 25, block, Crc16(block)));
            && outputs == [REFUSED, STORED]
            && last.device.blocks == e.device.blocks[e.card.pendingWriteLba := block]
  {
    hide Send, DecodeCommand, Engine.ExecuteCommand, Engine.WriteReceived, WireBlock, Crc16;
    var command := DecodeCommand(write, true).value;
    SendCommand(e, write, index, argument);
    RefusedWriteReceives(e, command);
    var a := e.ExecuteCommand(command).0;
    SendBlock(a, block, Crc16(block));
    var framed := a.(framer := BlockIn(index == 25, block, Crc16(block)));
    StoresBlock(framed, block);
    var b := framed.WriteReceived(block, Crc16(block)).0;
    SendPair(e, write, WireBlock(index == 25, block, Crc16(block)), a, b, [REFUSED], [STORED]);
  }

  /** A write command that is accepted, and its block with a wrong CRC16. */
  lemma BadBlock(e: Engine, write: seq<bv8>, argument: U32, lba: nat, block: Block, crc: bv16)
    requires e.Valid() && AtRest(e) && e.card.Open() && crc != Crc16(block)
    requires IsCommand(write, 24, argument) && e.card.CommandLba(argument) == Some(lba)
    ensures var (last, outputs) := Send(e, write + WireBlock(false, block, crc));
            && outputs == [CLEAR, BAD_CRC] && AtRest(last) && last.device == e.device
            && last.card.state == C.ReceivingData && last.card.pendingWriteLba == lba && !last.card.multiWriteActive
  {
    hide Send, DecodeCommand, Engine.ExecuteCommand, Engine.WriteReceived, WireBlock, Crc16;
    var command := DecodeCommand(write, true).value;
    SendCommand(e, write, 24, argument);
    AcceptsWrite(e, command, lba);
    var a := e.ExecuteCommand(command).0;
    SendBlock(a, block, crc);
    var b := a.(framer := BlockIn(false, block, crc));
    BadBlockKeepsReceiving(b, block, crc);
    SendPair(e, write, WireBlock(false, block, crc), a, b, [CLEAR], [BAD_CRC]);
  }

  /** A bad block to one address, and a block to any other: the second is refused and stored at the first address. */
  lemma BlockGoesAstray(e: Engine, first: seq<bv8>, argument: U32, lba: nat, bad: Block, crc: bv16,
                        second: seq<bv8>, index: bv8, elsewhere: U32, block: Block)
    requires e.Valid() && AtRest(e) && e.card.Open() && e.device.Synchronous() && crc != Crc16(bad)
    requires IsCommand(first, 24, argument) && e.card.CommandLba(argument) == Some(lba) && lba < |e.device.blocks|
    requires IsCommand(second, index, elsewhere) && (index == 24 || index == 25)
    ensures var bytes := (first + WireBlock(false, bad, crc)) + (second + WireBlock(index == 25, block, Crc16(block)));
            var (last, outputs) := Send(e, bytes);
            && outputs == [CLEAR, BAD_CRC, REFUSED, STORED]
            && last.device.blocks == e.device.blocks[lba := block]
  {
    hide Send, WireBlock, Crc16, IsCommand;
    BadBlock(e, first, argument, lba, bad, crc);
    var middle := Send(e, first + WireBlock(false, bad, crc)).0;
    RefusedBlockLands(middle, second, index, elsewhere, block);
    var last := Send(middle, second + WireBlock(index == 25, block, Crc16(block))).0;
    SendPair(e, first + WireBlock(false, bad, crc), second + WireBlock(index == 25, block, Crc16(block)),
             middle, last, [CLEAR, BAD_CRC], [REFUSED, STORED]);
  }

  /** The same from power-up: the whole byte stream, its answers, and where the block ends up. */
  lemma StrayBlockFromPowerUp(cardType: CardType, device: Device,
                              reset: seq<bv8>, prefix: seq<bv8>, activate: seq<bv8>, x: U32, y: U32, z: U32,
                              first: seq<bv8>, argument: U32, lba: nat, bad: Block, crc: bv16,
                              second: seq<bv8>, index: bv8, elsewhere: U32, block: Block)
    requires device.Synchronous() && crc != Crc16(bad)
    requires IsCommand(reset, 0, x) && IsCommand(prefix, 55, y) && IsCommand(activate, 41, z)
    requires IsCommand(first, 24, argument) && C.NewCard(cardType, device).CommandLba(argument) == Some(lba)
    requires IsCommand(second, index, elsewhere) && (index == 24 || index == 25)
    ensures var bytes := (first + WireBlock(false, bad, crc)) + (second + WireBlock(index == 25, block, Crc16(block)));
            var (last, outputs) := Send(NewEngine(C.NewCard(cardType, device), device), (reset + prefix + activate) + bytes);
            && outputs == [Output([R1_IDLE], false), Output([R1_IDLE], false), CLEAR] + [CLEAR, BAD_CRC, REFUSED, STORED]
            && lba < |device.blocks| && last.device.blocks == device.blocks[lba := block]
  {
    hide Send, WireBlock, Crc16, IsCommand, MakeRegisters;
    var e := NewEngine(C.NewCard(cardType, device), device);
    ExposesAtMostRequest(cardType, |device.blocks| % 0x1_0000_0000);
    Initialises(e, reset, prefix, activate, x, y, z);
    var ready := Send(e, reset + prefix + activate).0;
    var bytes := (first + WireBlock(false, bad, crc)) + (second + WireBlock(index == 25, block, Crc16(block)));
    assert ready.card.CommandLba(argument) == Some(lba);
    BlockGoesAstray(ready, first, argument, lba, bad, crc, second, index, elsewhere, block);
    SendPair(e, reset + prefix + activate, bytes, ready, Send(ready, bytes).0,
             [Output([R1_IDLE], false), Output([R1_IDLE], false), CLEAR], [CLEAR, BAD_CRC, REFUSED, STORED]);
  }
}
