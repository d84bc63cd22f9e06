/**
 * Over a synchronous backend the byte engine implements an array of blocks. A view reads only the
 * bytes on the wire, the chip-select releases and the R1 byte of each answer, and keeps the array a
 * reader of the specification would expect; the engine's storage and its data blocks always agree.
 */
module ArrayRefinement {
  import opened Basics
  import opened Crc
  import opened SdCommand
  import opened SdRegisters
  import opened BlockDevice
  import C = SdCardModel
  import opened SdSpiFramers
  import opened SdSpiCardEngine
  import opened EngineRuns

  /** Between commands (with the frame so far), or in a data block (None before its token). */
  datatype Phase = Commanding(frame: seq<bv8>) | Receiving(multi: bool, block: Option<seq<bv8>>)

  /** The block address of the last accepted write command, and how many of its blocks are stored. */
  datatype Place = Place(first: nat, stored: nat) {
    function Lba(): nat { first + stored }
  }

  datatype View = View(
    disk: seq<Block>,
    target: Option<Place>,  // where the next correct data block goes
    streaming: bool,        // whether the one after it may have a place too
    reading: Option<nat>,   // the next block of a multi-block read
    phase: Phase)

  const WIRE_BLOCK := BLOCK_SIZE + 2

  function Exposed(cardType: CardType, blocks: nat): nat { MakeRegisters(cardType, blocks % 0x1_0000_0000).exposedBlocks }

  function LbaOf(cardType: CardType, argument: U32): nat {
    if cardType == Sdsc then argument / BLOCK_SIZE else argument
  }

  // ---- The view ------------------------------------------------------------------

  datatype Geometry = Geometry(cardType: CardType, exposed: nat)

  predicate Stores(v: View, block: Block, crc: bv16) {
    v.target.Some? && v.target.value.Lba() < |v.disk| && Crc16(block) == crc
  }

  function EndOfBlock(v: View, g: Geometry, block: Block, crc: bv16): View {
    if !Stores(v, block, crc) then v
    else
      var place := v.target.value;
      var more := v.streaming && place.Lba() + 1 < g.exposed;
      v.(disk := v.disk[place.Lba() := block],
         target := if more then Some(place.(stored := place.stored + 1)) else None,
         streaming := more)
  }

  function DataByte(v: View, g: Geometry, byte: bv8): View
    requires v.phase.Receiving?
    requires v.phase.block.Some? ==> |v.phase.block.value| < WIRE_BLOCK
  {
    var multi := v.phase.multi;
    match v.phase.block
    case None =>
      if multi && byte == STOP_MULTI_WRITE_TOKEN then
        v.(phase := Commanding([]), target := if v.streaming then None else v.target, streaming := false)
      else if byte == (if multi then START_MULTI_WRITE_TOKEN else START_BLOCK_TOKEN) then
        v.(phase := Receiving(multi, Some([])))
      else v
    case Some(bytes) =>
      var bytes' := bytes + [byte];
      if |bytes'| < WIRE_BLOCK then v.(phase := Receiving(multi, Some(bytes')))
      else
        EndOfBlock(v, g, bytes'[..BLOCK_SIZE], JoinCrc16(bytes'[BLOCK_SIZE], bytes'[BLOCK_SIZE + 1]))
          .(phase := if multi then Receiving(multi, None) else Commanding([]))
  }

  function FirstByte(bytes: seq<bv8>): bv8 { if bytes == [] then 0 else bytes[0] }

  /** What an executed command means for later data, from its answer's first byte. */
  function CommandEffect(v: View, index: bv8, lba: nat, r1: bv8): View {
    if index == 0 then v.(target := None, streaming := false, reading := None)
    else if index == 12 && r1 == 0 then v.(reading := None)
    else if index == 18 && r1 == 0 then v.(reading := Some(lba + 1))
    else if (index == 24 || index == 25) && r1 == 0 then v.(target := Some(Place(lba, 0)), streaming := index == 25)
    else v
  }

  /** A whole command frame and the first byte of its answer. */
  function CommandDone(v: View, g: Geometry, frame: seq<bv8>, r1: bv8): View
    requires |frame| == COMMAND_FRAME_SIZE
  {
    if r1 == R1_COM_CRC_ERROR then v
    else
      var index := frame[0] & 0x3f;
      var lba := LbaOf(g.cardType, BigEndian(frame[1], frame[2], frame[3], frame[4]));
      var v' := CommandEffect(v, index, lba, r1);
      if (index == 24 || index == 25) && v'.target.Some? then v'.(phase := Receiving(index == 25, None)) else v'
  }

  function CommandByte(v: View, g: Geometry, byte: bv8, output: Option<Output>): View
    requires v.phase.Commanding?
  {
    var frame := v.phase.frame + [byte];
    if v.phase.frame == [] && !IsCommandStart(byte) then v
    else if |frame| != COMMAND_FRAME_SIZE then v.(phase := Commanding(frame))
    else if output.None? || output.value.bytes == [] then v
    else CommandDone(v.(phase := Commanding([])), g, frame, output.value.bytes[0])
  }

  predicate WellFormed(v: View) {
    match v.phase
    case Commanding(frame) => |frame| < COMMAND_FRAME_SIZE
    case Receiving(_, Some(bytes)) => |bytes| < WIRE_BLOCK
    case Receiving(_, None) => true
  }

  function Observe(v: View, g: Geometry, event: Event, output: Option<Output>): (v': View)
    requires WellFormed(v)
    ensures WellFormed(v')
  {
    match event
    case Byte(byte) => if v.phase.Receiving? then DataByte(v, g, byte) else CommandByte(v, g, byte, output)
    case Release => v.(target := None, streaming := false, phase := Commanding([]))
    case NextBlock => if output.Some? && v.reading.Some? then v.(reading := Some(v.reading.value + 1)) else v
    case Poll => v
    case Refresh => v
  }

  // ---- What the engine must answer ------------------------------------------------

  /** The answer to the last byte of a data block: accepted and busy exactly when the view stores it. */
  ghost predicate AnswersData(v: View, byte: bv8, output: Option<Output>)
    requires WellFormed(v) && v.phase.Receiving?
  {
    match v.phase.block
    case None => output == if v.phase.multi && byte == STOP_MULTI_WRITE_TOKEN then Some(Output([], false)) else None
    case Some(bytes) =>
      if |bytes| + 1 < WIRE_BLOCK then output == None
      else
        var stored := Stores(v, bytes[..BLOCK_SIZE], JoinCrc16(bytes[BLOCK_SIZE], byte));
        output == Some(Output([if stored then DATA_RESPONSE_ACCEPTED else DATA_RESPONSE_CRC_ERROR], stored))
  }

  /** A read answered with a clear R1 carries the current block; an accepted write has its place; no other answer carries a block. */
  ghost predicate AnswersCommand(v: View, g: Geometry, frame: seq<bv8>, output: Option<Output>)
    requires |frame| == COMMAND_FRAME_SIZE
  {
    var index := frame[0] & 0x3f;
    var lba := LbaOf(g.cardType, BigEndian(frame[1], frame[2], frame[3], frame[4]));
    && output.Some? && |output.value.bytes| > 0 && !output.value.busy
    && var clear := output.value.bytes[0] == 0;
       && (clear && (index == 17 || index == 18) ==>
             lba < g.exposed && lba < |v.disk| && output.value.bytes == [0] + Framed(v.disk[lba]))
       && (clear && (index == 24 || index == 25) ==> lba < g.exposed && output.value.bytes == [0])
       && (!(clear && (index == 17 || index == 18)) ==> |output.value.bytes| <= 24)
  }

  ghost predicate Answers(v: View, g: Geometry, event: Event, output: Option<Output>)
    requires WellFormed(v)
  {
    match event
    case Byte(byte) =>
      if v.phase.Receiving? then AnswersData(v, byte, output)
      else if (v.phase.frame == [] && !IsCommandStart(byte)) || |v.phase.frame| + 1 != COMMAND_FRAME_SIZE then output == None
      else AnswersCommand(v, g, v.phase.frame + [byte], output)
    case NextBlock =>
      if v.reading.Some? && v.reading.value < g.exposed then
        v.reading.value < |v.disk| && output == Some(Output(Framed(v.disk[v.reading.value]), false))
      else output == None
    case _ => output == None
  }

  // ---- The refinement ---------------------------------------------------------------

  ghost predicate SamePhase(phase: Phase, e: Engine) {
    match phase
    case Commanding(frame) => !e.framer.Receiving() && e.frame == frame
    case Receiving(multi, None) => e.framer.phase == WaitingForToken && e.framer.multi == multi && e.frame == []
    case Receiving(multi, Some(bytes)) =>
      && e.framer.multi == multi && e.frame == [] && |bytes| < WIRE_BLOCK
      && if |bytes| < BLOCK_SIZE then e.framer.phase == Payload && e.framer.payload == bytes
         else if |bytes| == BLOCK_SIZE then e.framer.phase == CrcHigh && e.framer.payload == bytes
         else e.framer.phase == CrcLow && e.framer.payload == bytes[..BLOCK_SIZE] && e.framer.crc == HighByte(bytes[BLOCK_SIZE])
  }

  ghost predicate SameCard(v: View, g: Geometry, card: C.Card) {
    && card.cardType == g.cardType && card.registers.exposedBlocks == g.exposed
    && card.state !in {C.Fault, C.Busy} && !card.pendingReadActive
    && v.target.Some? == (card.state == C.ReceivingData)
    && (v.target.Some? ==> v.target.value.Lba() == card.pendingWriteLba < g.exposed)
    && v.streaming == card.multiWriteActive && (card.multiWriteActive ==> card.state == C.ReceivingData)
    && v.reading == (if card.multiReadActive then Some(card.nextMultiReadLba) else None)
  }

  ghost predicate SameDisk(v: View, g: Geometry, e: Engine) {
    && v.disk == e.device.blocks && e.device.Synchronous() && g.exposed <= |v.disk|
    && e.card.registers == MakeRegisters(g.cardType, |v.disk| % 0x1_0000_0000)
    && !e.writePending
  }

  ghost predicate Refines(v: View, g: Geometry, e: Engine) {
    && e.Valid() && WellFormed(v) && SamePhase(v.phase, e) && SameCard(v, g, e.card) && SameDisk(v, g, e)
  }

  lemma StartRefines(cardType: CardType, blocks: seq<Block>, present: bool, writeProtected: bool)
    ensures var device := Device(blocks, present, writeProtected, 0, []);
            Refines(View(blocks, None, false, None, Commanding([])), Geometry(cardType, Exposed(cardType, |blocks|)),
                    NewEngine(C.NewCard(cardType, device), device))
  {
    hide MakeRegisters;
    ExposesAtMostRequest(cardType, |blocks| % 0x1_0000_0000);
  }

  // ---- Data bytes ---------------------------------------------------------------------

  lemma DataResponses()
    ensures DataResponse(DATA_RESPONSE_ACCEPTED) == DATA_RESPONSE_ACCEPTED
    ensures DataResponse(DATA_RESPONSE_CRC_ERROR) == DATA_RESPONSE_CRC_ERROR
    ensures DataResponse(DATA_RESPONSE_WRITE_ERROR) == DATA_RESPONSE_WRITE_ERROR
  {}

  lemma BlockRefines(v: View, g: Geometry, e: Engine, block: Block, crc: bv16)
    requires SameCard(v, g, e.card) && SameDisk(v, g, e)
    ensures var (e', output) := e.WriteReceived(block, crc);
            var v' := EndOfBlock(v, g, block, crc);
            var stored := Stores(v, block, crc);
            && SameCard(v', g, e'.card) && SameDisk(v', g, e')
            && e'.framer == e.framer && e'.frame == e.frame
            && output == Some(Output([if stored then DATA_RESPONSE_ACCEPTED else DATA_RESPONSE_CRC_ERROR], stored))
  {
    hide Crc16, MakeRegisters, DataResponse;
    DataResponses();
  }

  lemma StopRefines(v: View, g: Geometry, card: C.Card)
    requires SameCard(v, g, card)
    ensures SameCard(v.(target := if v.streaming then None else v.target, streaming := false), g, card.FinishMultiWrite().0)
  {
    hide MakeRegisters;
  }

  /** The framer and the view count the same bytes. */
  lemma FramerFollows(phase: Phase, e: Engine, byte: bv8)
    requires e.Valid() && phase.Receiving? && SamePhase(phase, e) && phase.block.Some?
    ensures var bytes := phase.block.value + [byte];
            var (framer', event) := e.framer.Push(byte);
            if |bytes| < WIRE_BLOCK then event == None && SamePhase(Receiving(phase.multi, Some(bytes)), e.(framer := framer'))
            else
              && event == Some(Received(bytes[..BLOCK_SIZE], JoinCrc16(bytes[BLOCK_SIZE], bytes[BLOCK_SIZE + 1])))
              && SamePhase(if phase.multi then Receiving(true, None) else Commanding([]), e.(framer := framer'))
  {
    hide HighByte, WithLowByte, JoinCrc16;
    var before := phase.block.value;
    var bytes := before + [byte];
    if |before| < BLOCK_SIZE {
      assert e.framer.phase == Payload;
    } else if |before| == BLOCK_SIZE {
      assert bytes[..BLOCK_SIZE] == before;
    } else {
      assert bytes[..BLOCK_SIZE] == before[..BLOCK_SIZE];
      CrcBytes(before[BLOCK_SIZE], byte);
    }
  }

  lemma CrcBytes(high: bv8, low: bv8)
    ensures WithLowByte(HighByte(high), low) == JoinCrc16(high, low)
  {}

  lemma PhaseIgnores(phase: Phase, a: Engine, b: Engine)
    requires SamePhase(phase, a) && a.frame == b.frame && a.framer == b.framer
    ensures SamePhase(phase, b)
  {}

  lemma CardIgnoresPhase(v: View, g: Geometry, card: C.Card, phase: Phase)
    requires SameCard(v, g, card)
    ensures SameCard(v.(phase := phase), g, card)
  {}

  /** While waiting for a token. */
  lemma TokenByteRefines(v: View, g: Geometry, e: Engine, byte: bv8)
    requires Refines(v, g, e) && v.phase.Receiving? && v.phase.block.None?
    ensures var (e', output) := e.PushDataByte(byte);
            Refines(DataByte(v, g, byte), g, e') && AnswersData(v, byte, output)
  {
    hide C.Card.FinishMultiWrite, Engine.WriteReceived, SameCard, MakeRegisters;
    var multi := v.phase.multi;
    if multi && byte == STOP_MULTI_WRITE_TOKEN {
      StopRefines(v, g, e.card);
      var stopped := v.(target := if v.streaming then None else v.target, streaming := false);
      CardIgnoresPhase(stopped, g, e.card.FinishMultiWrite().0, Commanding([]));
      StopKeepsRegisters(e.card);
    } else {
      CardIgnoresPhase(v, g, e.card, Receiving(multi, Some([])));
    }
  }

  lemma StopKeepsRegisters(card: C.Card)
    ensures card.FinishMultiWrite().0.registers == card.registers
  {}

  /** Inside a block. */
  lemma BlockByteRefines(v: View, g: Geometry, e: Engine, byte: bv8)
    requires Refines(v, g, e) && v.phase.Receiving? && v.phase.block.Some?
    ensures var (e', output) := e.PushDataByte(byte);
            Refines(DataByte(v, g, byte), g, e') && AnswersData(v, byte, output)
  {
    hide Engine.WriteReceived, EndOfBlock, Stores, JoinCrc16, SameCard, DataFramer.Push, SamePhase, MakeRegisters, C.Card.FinishMultiWrite;
    var bytes := v.phase.block.value;
    var bytes' := bytes + [byte];
    var next := e.(framer := e.framer.Push(byte).0);
    FramerFollows(v.phase, e, byte);
    if |bytes'| < WIRE_BLOCK {
      CardIgnoresPhase(v, g, e.card, Receiving(v.phase.multi, Some(bytes')));
    } else {
      assert bytes'[..BLOCK_SIZE] == bytes[..BLOCK_SIZE];
      var crc := JoinCrc16(bytes'[BLOCK_SIZE], bytes'[BLOCK_SIZE + 1]);
      BlockRefines(v, g, next, bytes'[..BLOCK_SIZE], crc);
      var phase' := if v.phase.multi then Receiving(true, None) else Commanding([]);
      var e' := next.WriteReceived(bytes'[..BLOCK_SIZE], crc).0;
      PhaseIgnores(phase', next, e');
      CardIgnoresPhase(EndOfBlock(v, g, bytes'[..BLOCK_SIZE], crc), g, e'.card, phase');
    }
  }

  // ---- Commands -----------------------------------------------------------------------

  lemma R1Facts(card: C.Card)
    ensures card.R1Status() != R1_COM_CRC_ERROR
    ensures R1_ILLEGAL_COMMAND | card.R1Status() != 0 && R1_ILLEGAL_COMMAND | card.R1Status() != R1_COM_CRC_ERROR
  {}

  lemma WordResponseStart(status: bv8, word: U32)
    ensures |WordResponse(status, word)| == 5 && WordResponse(status, word)[0] == status
  {}

  /** The card-side half of a command: what it answers, and that storage is only read. */
  ghost predicate CommandIs(v: View, g: Geometry, card: C.Card, device: Device, command: Command, done: C.Executed) {
    var response := done.result.response;
    var index, lba := command.index, LbaOf(g.cardType, command.argument);
    && 0 < |response| <= 5 && response[0] != R1_COM_CRC_ERROR
    && SameCard(CommandEffect(v, index, lba, response[0]), g, done.card)
    && done.card.registers == card.registers
    && done.device.blocks == device.blocks && done.device.script == device.script
    && var reading := response[0] == 0 && (index == 17 || index == 18);
       && done.result.readBlock == (if reading && lba < |v.disk| then Some(v.disk[lba]) else None)
       && (reading ==> lba < g.exposed && response == [0] && done.result.registerData == None)
       && (response[0] == 0 && (index == 24 || index == 25) ==>
             lba < g.exposed && response == [0] && done.result.registerData == None)
  }

  lemma ReadIs(v: View, g: Geometry, card: C.Card, device: Device, command: Command, lba: nat)
    requires SameCard(v, g, card) && card.Open() && lba < g.exposed && lba == LbaOf(g.cardType, command.argument)
    requires device.blocks == v.disk && device.Synchronous() && g.exposed <= |v.disk|
    requires command.index == 17 || command.index == 18
    ensures CommandIs(v, g, card, device, command, card.BeginRead(device, lba, command.index == 18))
  {
    hide LbaOf;
  }

  lemma WriteIs(v: View, g: Geometry, card: C.Card, device: Device, command: Command, lba: nat)
    requires SameCard(v, g, card) && card.Open() && lba < g.exposed && lba == LbaOf(g.cardType, command.argument)
    requires command.index == 24 || command.index == 25
    ensures CommandIs(v, g, card, device, command, C.Executed(card.BeginWrite(lba, command.index == 25), device, C.Answer([0])))
  {
    hide LbaOf;
  }

  lemma TransferIs(v: View, g: Geometry, card: C.Card, device: Device, command: Command)
    requires SameCard(v, g, card) && card.Open()
    requires device.blocks == v.disk && device.Synchronous() && g.exposed <= |v.disk|
    requires command.index == 17 || command.index == 18 || command.index == 24 || command.index == 25
    ensures CommandIs(v, g, card, device, command, card.ExecuteTransfer(device, command))
  {
    hide C.Card.BeginRead, C.Card.BeginWrite;
    var lba := LbaOf(g.cardType, command.argument);
    if card.CommandLba(command.argument).Some? {
      if command.index == 17 || command.index == 18 {
        ReadIs(v, g, card, device, command, lba);
      } else {
        WriteIs(v, g, card, device, command, lba);
      }
    }
  }

  lemma ExecuteDataIs(v: View, g: Geometry, card: C.Card, device: Device, command: Command)
    requires SameCard(v, g, card)
    requires device.blocks == v.disk && device.Synchronous() && g.exposed <= |v.disk|
    requires command.index != 0 && !card.IsStop(command)
    ensures CommandIs(v, g, card, device, command, card.ExecuteData(device, command))
  {
    hide C.Card.ExecuteTransfer, WordResponse, C.Card.Ocr32, BigEndian, MakeRegisters;
    R1Facts(card);
    WordResponseStart(card.R1Status(), card.Ocr32());
    if card.IsTransfer(command) {
      TransferIs(v, g, card, device, command);
    }
  }

  lemma ExecuteIs(v: View, g: Geometry, card: C.Card, device: Device, command: Command)
    requires SameCard(v, g, card)
    requires device.blocks == v.disk && device.Synchronous() && g.exposed <= |v.disk|
    ensures CommandIs(v, g, card, device, command, card.Execute(device, command))
  {
    hide C.Card.ExecuteData, WordResponse, LbaOf;
    var keepsPrefix := command.index == 55 || command.index == 41 || command.index == 23;
    var cleared := card.(appCommandPending := keepsPrefix && card.appCommandPending);
    R1Facts(cleared);
    WordResponseStart(cleared.R1Status(), command.argument);
    if command.index != 0 && !cleared.IsStop(command) {
      ExecuteDataIs(v, g, cleared, device, command);
    }
  }

  lemma CommandOutputIs(v: View, g: Geometry, command: Command, result: C.ModelResult)
    requires 0 < |result.response| <= 5
    ensures var output := CommandOutput(result);
            && !output.busy && |output.bytes| > 0 && output.bytes[0] == result.response[0]
            && (result.readBlock.None? ==> |output.bytes| <= 5 + (if result.registerData.Some? then 19 else 0))
            && (result.readBlock.None? && result.registerData.None? ==> output.bytes == result.response)
            && (result.registerData.None? && result.readBlock.Some? ==> output.bytes == result.response + Framed(result.readBlock.value))
  {
    hide Crc16;
  }

  /** A decoded command, executed. */
  lemma ExecuteRefines(v: View, g: Geometry, e: Engine, command: Command)
    requires Refines(v, g, e) && v.phase == Commanding([])
    ensures var done := e.card.Execute(e.device, command);
            var (e', output) := e.ExecuteCommand(command);
            var v' := CommandEffect(v, command.index, LbaOf(g.cardType, command.argument), FirstByte(done.result.response));
            var receiving := (command.index == 24 || command.index == 25) && v'.target.Some?;
            && CommandIs(v, g, e.card, e.device, command, done)
            && output == Some(CommandOutput(done.result))
            && Refines(if receiving then v'.(phase := Receiving(command.index == 25, None)) else v', g, e')
  {
    hide C.Card.Execute, MakeRegisters, CommandOutput;
    ExecuteIs(v, g, e.card, e.device, command);
  }

  /** What the engine does with a whole frame. */
  function FrameDone(e: Engine, frame: seq<bv8>): (Engine, Option<Output>)
    requires e.Valid() && |frame| == COMMAND_FRAME_SIZE
  {
    var decoded := DecodeCommand(frame, e.card.commandCrcEnabled);
    if decoded.Ok? then e.ExecuteCommand(decoded.value) else (e, Some(Output([R1_COM_CRC_ERROR], false)))
  }

  lemma ExposedFits(v: View, g: Geometry, e: Engine)
    requires Refines(v, g, e)
    ensures g.exposed <= |v.disk|
  {}

  lemma FrameRefines(v: View, g: Geometry, e: Engine, frame: seq<bv8>)
    requires Refines(v, g, e) && v.phase == Commanding([]) && |frame| == COMMAND_FRAME_SIZE
    ensures var (e', output) := FrameDone(e, frame);
            && AnswersCommand(v, g, frame, output)
            && Refines(CommandDone(v, g, frame, output.value.bytes[0]), g, e')
  {
    hide Engine.ExecuteCommand, Refines, MakeRegisters, IsCommandStart, CommandOutput, BigEndian, Crc7CommandByte;
    hide C.Card.Execute, LbaOf, CommandEffect, Framed, SameCard;
    var decoded := DecodeCommand(frame, e.card.commandCrcEnabled);
    if decoded.Ok? {
      var command := decoded.value;
      ExecuteRefines(v, g, e, command);
      var done := e.card.Execute(e.device, command);
      CommandOutputIs(v, g, command, done.result);
      ExposedFits(v, g, e);
    } else {
      assert CommandDone(v, g, frame, R1_COM_CRC_ERROR) == v;
    }
  }

  lemma CommandByteRefines(v: View, g: Geometry, e: Engine, byte: bv8)
    requires Refines(v, g, e) && v.phase.Commanding?
    ensures var (e', output) := e.PushCommand(byte);
            Refines(CommandByte(v, g, byte, output), g, e') && Answers(v, g, Byte(byte), output)
  {
    hide Engine.ExecuteCommand, SameCard, MakeRegisters, IsCommandStart, CommandOutput, BigEndian, DecodeCommand, CommandDone;
    var frame := v.phase.frame + [byte];
    if |frame| != COMMAND_FRAME_SIZE {
      CardIgnoresPhase(v, g, e.card, Commanding(frame));
    } else {
      CardIgnoresPhase(v, g, e.card, Commanding([]));
      var v', next := v.(phase := Commanding([])), e.(frame := []);
      assert Refines(v', g, next);
      FrameRefines(v', g, next, frame);
      AnswersIgnorePhase(v', v, g, frame);
    }
  }

  lemma AnswersIgnorePhase(v: View, v': View, g: Geometry, frame: seq<bv8>)
    requires |frame| == COMMAND_FRAME_SIZE && v.disk == v'.disk
    ensures forall output :: AnswersCommand(v, g, frame, output) ==> AnswersCommand(v', g, frame, output)
  {}

  // ---- Runs ----------------------------------------------------------------------------

  lemma ReleaseRefines(v: View, g: Geometry, e: Engine)
    requires Refines(v, g, e)
    ensures Refines(Observe(v, g, Release, None), g, e.ChipSelectReleased())
  {
    hide MakeRegisters;
  }

  lemma NextBlockRefines(v: View, g: Geometry, e: Engine)
    requires Refines(v, g, e)
    ensures var (e', output) := e.NextMultiReadBlock();
            Answers(v, g, NextBlock, output) && Refines(Observe(v, g, NextBlock, output), g, e')
  {
    hide MakeRegisters, Framed;
  }

  lemma StepRefines(v: View, g: Geometry, e: Engine, event: Event)
    requires Refines(v, g, e)
    ensures var (e', output) := Step(e, event);
            Answers(v, g, event, output) && Refines(Observe(v, g, event, output), g, e')
  {
    hide Engine.PushDataByte, Engine.PushCommand, DataByte, CommandByte, Engine.NextMultiReadBlock, Engine.ChipSelectReleased;
    hide AnswersData, AnswersCommand, MakeRegisters, SamePhase;
    match event {
      case Byte(byte) =>
        ReceivingAlike(v, g, e);
        if v.phase.Receiving? {
          if v.phase.block.None? {
            TokenByteRefines(v, g, e, byte);
          } else {
            BlockByteRefines(v, g, e, byte);
          }
        } else {
          CommandByteRefines(v, g, e, byte);
        }
      case Release => ReleaseRefines(v, g, e);
      case NextBlock => NextBlockRefines(v, g, e);
      case Poll =>
      case Refresh =>
    }
  }

  lemma ReceivingAlike(v: View, g: Geometry, e: Engine)
    requires Refines(v, g, e)
    ensures v.phase.Receiving? == e.framer.Receiving()
  {}

  function Watch(v: View, g: Geometry, events: seq<Event>, outputs: seq<Option<Output>>): View
    requires WellFormed(v) && |events| == |outputs|
    decreases events
  {
    if events == [] then v else Watch(Observe(v, g, events[0], outputs[0]), g, events[1..], outputs[1..])
  }

  ghost predicate AllAnswered(v: View, g: Geometry, events: seq<Event>, outputs: seq<Option<Output>>)
    requires WellFormed(v) && |events| == |outputs|
    decreases events
  {
    events != [] ==>
      && Answers(v, g, events[0], outputs[0])
      && AllAnswered(Observe(v, g, events[0], outputs[0]), g, events[1..], outputs[1..])
  }

  lemma {:induction false} RunRefines(v: View, g: Geometry, e: Engine, events: seq<Event>)
    requires Refines(v, g, e)
    ensures AllAnswered(v, g, events, Outputs(e, events))
    ensures Refines(Watch(v, g, events, Outputs(e, events)), g, Final(e, events))
    decreases events
  {
    hide Step, Observe, Answers, Refines;
    RefinesIsValid(v, g, e);
    if events != [] {
      StepRefines(v, g, e, events[0]);
      var (e', output) := Step(e, events[0]);
      RunRefines(Observe(v, g, events[0], output), g, e', events[1..]);
      assert Outputs(e, events)[1..] == Outputs(e', events[1..]);
    }
  }

  lemma RefinesIsValid(v: View, g: Geometry, e: Engine)
    requires Refines(v, g, e)
    ensures e.Valid() && WellFormed(v)
  {}

  /**
   * The main result. From power-up over any synchronous backend, for every sequence of bytes,
   * releases, polls and block requests: storage is the array the view keeps, every answer is the one
   * the view expects (so every data block sent is current), every pending place is exposed, and the
   * card never faults.
   */
  lemma EngineIsArray(cardType: CardType, blocks: seq<Block>, present: bool, writeProtected: bool, events: seq<Event>)
    ensures var device := Device(blocks, present, writeProtected, 0, []);
            var start := NewEngine(C.NewCard(cardType, device), device);
            var g := Geometry(cardType, Exposed(cardType, |blocks|));
            var view := View(blocks, None, false, None, Commanding([]));
            var outputs, last := Outputs(start, events), Final(start, events);
            var seen := Watch(view, g, events, outputs);
            && last.device.blocks == seen.disk
            && AllAnswered(view, g, events, outputs)
            && (seen.target.Some? ==> seen.target.value.Lba() < g.exposed <= |seen.disk|)
            && last.card.state != C.Fault
  {
    hide MakeRegisters, Answers, Observe, Step, Watch, AllAnswered, Outputs, Final;
    StartRefines(cardType, blocks, present, writeProtected);
    var device := Device(blocks, present, writeProtected, 0, []);
    RunRefines(View(blocks, None, false, None, Commanding([])), Geometry(cardType, Exposed(cardType, |blocks|)),
               NewEngine(C.NewCard(cardType, device), device), events);
  }
}
