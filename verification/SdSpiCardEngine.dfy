/** The byte engine of the SPI card: framers in front of the card model, whole responses out. */
module SdSpiCardEngine {
  import opened Basics
  import opened Crc
  import opened SdCommand
  import opened BlockDevice
  import C = SdCardModel
  import opened SdSpiFramers

  /** One response, queued as a whole; busy asks for busy bytes after it. */
  datatype Output = Output(bytes: seq<bv8>, busy: bool)

  const MAXIMUM_OUTPUT_SIZE := 1 + DATA_BLOCK_WIRE_SIZE

  function CommandOutput(result: C.ModelResult): Output {
    var block := if result.readBlock.Some? then Framed(result.readBlock.value) else [];
    var register := if result.registerData.Some? then Framed(result.registerData.value) else [];
    Output(result.response + block + register, false)
  }

  datatype Engine = Engine(
    card: C.Card,
    device: Device,
    frame: seq<bv8>,
    framer: DataFramer,
    writePending: bool,
    pendingBlock: Block,
    pendingCrc: bv16)
  {
    predicate Valid() {
      |frame| < COMMAND_FRAME_SIZE && framer.Valid()
    }

    function WriteReceived(block: Block, crc: bv16): (Engine, Option<Output>) {
      var (card', device', result) := card.WriteBlock(device, block, crc);
      if result.pending then
        (this.(card := card', device := device', writePending := true, pendingBlock := block, pendingCrc := crc), None)
      else (this.(card := card', device := device'), Some(Output([result.dataResponse], result.busy)))
    }

    function PushDataByte(byte: bv8): (next: (Engine, Option<Output>))
      requires Valid()
      ensures next.0.Valid()
    {
      var (framer', event) := framer.Push(byte);
      var next := this.(framer := framer');
      match event
      case None => (next, None)
      case Some(Stop) => (next.(card := card.FinishMultiWrite().0), Some(Output([], false)))
      case Some(Received(block, crc)) => next.WriteReceived(block, crc)
    }

    function ExecuteCommand(command: Command): (next: (Engine, Option<Output>))
      requires Valid()
      ensures next.0.Valid()
    {
      var executed := card.Execute(device, command);
      var receiving := executed.card.state == C.ReceivingData;
      var framer' :=
        if command.index == 24 && receiving then framer.Begin(false)
        else if command.index == 25 && receiving then framer.Begin(true)
        else framer;
      (this.(card := executed.card, device := executed.device, framer := framer'), Some(CommandOutput(executed.result)))
    }

    function PushCommand(byte: bv8): (next: (Engine, Option<Output>))
      requires Valid()
      ensures next.0.Valid()
    {
      var (frame', decoded) := PushCommandByte(frame, byte, card.commandCrcEnabled);
      var next := this.(frame := frame');
      match decoded
      case None => (next, None)
      case Some(Err(_)) => (next, Some(Output([R1_COM_CRC_ERROR], false)))
      case Some(Ok(command)) => next.ExecuteCommand(command)
    }

    function PushByte(byte: bv8): (next: (Engine, Option<Output>))
      requires Valid()
      ensures next.0.Valid()
    {
      if framer.Receiving() then PushDataByte(byte) else PushCommand(byte)
    }

    function PollPendingIo(): (Engine, Option<Output>) {
      if card.pendingReadActive then
        var (card', device', result, block) := card.RetryPendingRead(device);
        var next := this.(card := card', device := device');
        match result
        case Pending => (next, None)
        case Complete => (next, Some(Output(Framed(block), false)))
        case Failed => (next, Some(Output([], false)))
      else if !writePending then (this, None)
      else
        var (card', device', result) := card.WriteBlock(device, pendingBlock, pendingCrc);
        var next := this.(card := card', device := device');
        if result.pending then (next, None)
        else (next.(writePending := false), Some(Output([result.dataResponse], result.busy)))
    }

    function NextMultiReadBlock(): (Engine, Option<Output>) {
      var (card', device', block) := card.ReadNextMultiBlock(device);
      (this.(card := card', device := device'), if block.Some? then Some(Output(Framed(block.value), false)) else None)
    }

    function ChipSelectReleased(): Engine {
      this.(frame := [], framer := framer.Reset(), writePending := false, card := card.AbortPendingWrite())
    }
  }

  function NewEngine(card: C.Card, device: Device): Engine {
    Engine(card, device, [], NEW_DATA_FRAMER, false, ZeroBlock(), 0)
  }


  class SdSpiCardEngine {
    const model: C.SdCardModel
    const commandFramer: SdSpiCommandFramer
    const dataFramer: SdSpiDataFramer
    var writePending: bool
    var pendingBlock: Block
    var pendingCrc: bv16

    ghost function Owned(): set<object> {
      {this, commandFramer, commandFramer.frame, dataFramer, dataFramer.payload} + model.Owned()
    }

    ghost predicate Valid()
      reads Owned()
    {
      && commandFramer.Valid() && dataFramer.Valid()
      && commandFramer.frame != dataFramer.payload
      && {this, commandFramer, commandFramer.frame, dataFramer, dataFramer.payload} !! model.Owned()
    }

    ghost function State(): Engine
      requires Valid()
      reads Owned()
    {
      Engine(model.State(), model.backend.State(), commandFramer.State(), dataFramer.State(),
             writePending, pendingBlock, pendingCrc)
    }

    constructor (model: C.SdCardModel)
      ensures this.model == model && Valid() && State() == NewEngine(model.State(), model.backend.State())
      ensures fresh(Owned() - model.Owned())
    {
      this.model := model;
      commandFramer := new SdSpiCommandFramer();
      dataFramer := new SdSpiDataFramer();
      writePending, pendingBlock, pendingCrc := false, ZeroBlock(), 0;
    }

    method WriteReceived(block: Block, crc: bv16) returns (output: Option<Output>)
      requires Valid()
      modifies this, model.Owned()
      ensures Valid() && (State(), output) == old(State()).WriteReceived(block, crc)
    {
      hide C.Card.WriteBlock;
      var result := model.WriteBlock(block, crc);
      if result.pending {
        writePending := true;
        pendingBlock := block;
        pendingCrc := crc;
        return None;
      }
      return Some(Output([result.dataResponse], result.busy));
    }

    method PushDataByte(byte: bv8) returns (output: Option<Output>)
      requires Valid()
      modifies Owned()
      ensures Valid() && (State(), output) == old(State()).PushDataByte(byte)
    {
      hide DataFramer.Push, Engine.WriteReceived, C.Card.FinishMultiWrite;
      var event := dataFramer.PushByte(byte);
      if event.None? {
        return None;
      }
      if event.value.Stop? {
        var _ := model.FinishMultiWrite();
        return Some(Output([], false));
      }
      output := WriteReceived(event.value.payload, event.value.crc);
    }

    method AppendRegisterData(bytes: seq<bv8>, register: seq<bv8>) returns (appended: seq<bv8>)
      ensures appended == bytes + Framed(register)
    {
      var crc := ComputeCrc16(register);
      appended := bytes + [START_BLOCK_TOKEN] + register + [Crc16High(crc), Crc16Low(crc)];
    }

    method AppendResult(result: C.ModelResult) returns (output: Output)
      ensures output == CommandOutput(result)
    {
      hide Framed;
      var bytes := result.response;
      if result.readBlock.Some? {
        var block := MakeReadDataBlock(result.readBlock.value);
        bytes := bytes + block;
      }
      if result.registerData.Some? {
        bytes := AppendRegisterData(bytes, result.registerData.value);
      }
      return Output(bytes, false);
    }

    method ExecuteCommand(command: Command) returns (output: Option<Output>)
      requires Valid()
      modifies Owned()
      ensures Valid() && (State(), output) == old(State()).ExecuteCommand(command)
    {
      hide C.Card.Execute, CommandOutput, DataFramer.Begin;
      var result := model.Execute(command);
      var response := AppendResult(result);
      if command.index == 24 && model.machine.state == C.ReceivingData {
        dataFramer.Begin(false);
      }
      if command.index == 25 && model.machine.state == C.ReceivingData {
        dataFramer.Begin(true);
      }
      return Some(response);
    }

    method PushByte(byte: bv8) returns (output: Option<Output>)
      requires Valid()
      modifies Owned()
      ensures Valid() && (State(), output) == old(State()).PushByte(byte)
    {
      hide Engine.PushDataByte, PushCommandByte, Engine.ExecuteCommand;
      if dataFramer.phase != NotReceiving {
        output := PushDataByte(byte);
        return;
      }
      var decoded := commandFramer.PushByte(byte, model.commandCrcEnabled);
      if decoded.None? {
        return None;
      }
      if decoded.value.Err? {
        return Some(Output([R1_COM_CRC_ERROR], false));
      }
      output := ExecuteCommand(decoded.value.value);
    }

    method PollPendingIo() returns (output: Option<Output>)
      requires Valid()
      modifies Owned()
      ensures Valid() && (State(), output) == old(State()).PollPendingIo()
    {
      hide C.Card.RetryPendingRead, C.Card.WriteBlock, Framed;
      if model.pendingReadActive {
        var result, block := model.RetryPendingRead();
        if result == Pending {
          return None;
        }
        var bytes := [];
        if result == Complete {
          bytes := MakeReadDataBlock(block);
        }
        return Some(Output(bytes, false));
      }
      if !writePending {
        return None;
      }
      var result := model.WriteBlock(pendingBlock, pendingCrc);
      if result.pending {
        return None;
      }
      writePending := false;
      return Some(Output([result.dataResponse], result.busy));
    }

    method NextMultiReadBlock() returns (output: Option<Output>)
      requires Valid()
      modifies Owned()
      ensures Valid() && (State(), output) == old(State()).NextMultiReadBlock()
    {
      hide C.Card.ReadNextMultiBlock, Framed;
      var block := model.ReadNextMultiBlock();
      if block.None? {
        return None;
      }
      var bytes := MakeReadDataBlock(block.value);
      return Some(Output(bytes, false));
    }

    method ChipSelectReleased()
      requires Valid()
      modifies Owned()
      ensures Valid() && State() == old(State()).ChipSelectReleased()
    {
      hide C.Card.AbortPendingWrite;
      commandFramer.Reset();
      dataFramer.Reset();
      writePending := false;
      model.AbortPendingWrite();
    }
  }
}
