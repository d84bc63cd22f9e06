/** The card behind the byte engine: command execution, reads, and writes with their data responses. */
module SdCardModel {
  import opened Basics
  import opened Crc
  import opened SdCommand
  import opened SdRegisters
  import opened BlockDevice

  // ---- sd_card_state.cpp ---------------------------------------------------

  datatype CardState = PowerUp | Idle | Ready | Transfer | ReceivingData | Busy | Fault

  datatype Transition =
    | EnterIdle
    | MakeReady
    | BeginTransfer
    | BeginReceivingData
    | BeginBusy
    | FinishBusy
    | FinishReceivingData
    | EnterFault

  predicate Allowed(state: CardState, transition: Transition) {
    match transition
    case EnterIdle => true
    case MakeReady => state == Idle
    case BeginTransfer => state == Ready || state == Transfer
    case BeginReceivingData => state == Transfer
    case BeginBusy => state == ReceivingData
    case FinishBusy => state == Busy
    case FinishReceivingData => state == ReceivingData
    case EnterFault => true
  }

  function Target(transition: Transition): CardState {
    match transition
    case EnterIdle => Idle
    case MakeReady => Ready
    case BeginTransfer => Transfer
    case BeginReceivingData => ReceivingData
    case BeginBusy => Busy
    case FinishBusy => Transfer
    case FinishReceivingData => Transfer
    case EnterFault => Fault
  }

  function After(state: CardState, transition: Transition): CardState {
    if Allowed(state, transition) then Target(transition) else state
  }

  class SdCardStateMachine {
    var state: CardState

    constructor ()
      ensures state == PowerUp
    {
      state := PowerUp;
    }

    /** Every transition of the source is one guarded assignment. */
    method Take(transition: Transition) returns (ok: bool)
      modifies this
      ensures state == After(old(state), transition)
      ensures ok == Allowed(old(state), transition)
    {
      ok := Allowed(state, transition);
      if ok {
        state := Target(transition);
      }
    }
  }

  // ---- sd_model.cpp --------------------------------------------------------

  datatype ModelResult = ModelResult(response: seq<bv8>, readBlock: Option<Block>, registerData: Option<Register>)

  datatype WriteResult = WriteResult(response: seq<bv8>, dataResponse: bv8, busy: bool, pending: bool)

  function Answer(response: seq<bv8>): ModelResult { ModelResult(response, None, None) }

  const REJECTED_WRITE := WriteResult([R1_COM_CRC_ERROR], DataResponse(DATA_RESPONSE_CRC_ERROR), false, false)

  datatype Executed = Executed(card: Card, device: Device, result: ModelResult)

  datatype Card = Card(
    cardType: CardType,
    registers: Registers,
    state: CardState,
    appCommandPending: bool,
    preeraseBlockCount: U32,
    multiReadActive: bool,
    pendingReadActive: bool,
    pendingReadIsMulti: bool,
    pendingReadLba: nat,
    nextMultiReadLba: nat,
    multiWriteActive: bool,
    commandCrcEnabled: bool,
    pendingWriteLba: nat)
  {
    predicate Open() { state == Ready || state == Transfer }

    function R1Status(): bv8 { if state == Idle then R1_IDLE else 0 }

    function Take(transition: Transition): Card { this.(state := After(state, transition)) }

    /** The block a command addresses: SDSC cards are addressed in bytes, on block boundaries only. */
    function CommandLba(argument: U32): Option<nat> {
      if cardType == Sdsc && argument % BLOCK_SIZE != 0 then None
      else
        var lba := if cardType == Sdsc then argument / BLOCK_SIZE else argument;
        if lba < registers.exposedBlocks then Some(lba) else None
    }

    function RefreshCapacity(device: Device): Card {
      this.(registers := MakeRegisters(cardType, |device.blocks| % 0x1_0000_0000))
    }

    function Reset(): Card {
      Take(EnterIdle).(commandCrcEnabled := false, multiReadActive := false, pendingReadActive := false, multiWriteActive := false)
    }

    function BeginRead(device: Device, lba: nat, multi: bool): Executed {
      var (device', result, block) := device.Read(lba);
      var complete := result == Complete;
      var card := Take(BeginTransfer).(
        pendingReadActive := result == Pending,
        pendingReadIsMulti := multi,
        pendingReadLba := lba,
        multiReadActive := (multi && complete) || multiReadActive,
        nextMultiReadLba := if multi && complete then lba + 1 else nextMultiReadLba);
      Executed(card, device', ModelResult([0], if complete then Some(block) else None, None))
    }

    function BeginWrite(lba: nat, multi: bool): Card {
      Take(BeginTransfer).(pendingWriteLba := lba, multiWriteActive := multi).Take(BeginReceivingData)
    }

    function ExecuteTransfer(device: Device, command: Command): Executed {
      match CommandLba(command.argument)
      case None => Executed(this, device, Answer([R1_ADDRESS_ERROR]))
      case Some(lba) =>
        if command.index == 17 || command.index == 18 then BeginRead(device, lba, command.index == 18)
        else Executed(BeginWrite(lba, command.index == 25), device, Answer([0]))
    }

    function Ocr32(): U32 {
      BigEndian(registers.ocr[0], registers.ocr[1], registers.ocr[2], registers.ocr[3])
    }

    predicate IsReset(command: Command) { command.index == 0 }
    predicate IsInterfaceCondition(command: Command) { command.index == 8 && state == Idle }
    predicate IsSendStatus(command: Command) { command.index == 13 && state != PowerUp && state != Fault }
    predicate IsStop(command: Command) { command.index == 12 && state == Transfer }
    predicate IsCrcSwitch(command: Command) { command.index == 59 && command.argument <= 1 && state != PowerUp && state != Fault }
    predicate IsAppPrefix(command: Command) { command.index == 55 }
    predicate IsInitialise(command: Command) { command.index == 41 && appCommandPending && state == Idle }
    predicate IsPreErase(command: Command) { command.index == 23 && appCommandPending && Open() }
    predicate IsReadOcr(command: Command) { command.index == 58 && Open() }
    predicate IsReadRegister(command: Command) { (command.index == 9 || command.index == 10) && Open() }
    predicate IsBlockLength(command: Command) { command.index == 16 && command.argument == BLOCK_SIZE }
    predicate IsTransfer(command: Command) {
      (command.index == 17 || command.index == 18 || command.index == 24 || command.index == 25) && Open()
    }

    /** The commands in the order the source tests them. */
    function Dispatch(device: Device, command: Command): Executed {
      if IsReset(command) then
        Executed(Reset(), device, Answer([R1_IDLE]))
      else if IsInterfaceCondition(command) then Executed(this, device, Answer(WordResponse(R1Status(), command.argument)))
      else if IsSendStatus(command) then Executed(this, device, Answer([R1Status(), 0]))
      else if IsStop(command) then
        Executed(this.(multiReadActive := false, pendingReadActive := false), device, Answer([0]))
      else if IsCrcSwitch(command) then
        Executed(this.(commandCrcEnabled := command.argument == 1), device, Answer([R1Status()]))
      else if IsAppPrefix(command) then Executed(this.(appCommandPending := true), device, Answer([R1Status()]))
      else if IsInitialise(command) then
        Executed(Take(MakeReady).(appCommandPending := false), device, Answer([0]))
      else if IsPreErase(command) then
        Executed(this.(preeraseBlockCount := command.argument, appCommandPending := false), device, Answer([R1Status()]))
      else ExecuteData(device, command)
    }

    /** The commands that read registers or address blocks, and the answer to everything else. */
    function ExecuteData(device: Device, command: Command): Executed {
      if IsReadOcr(command) then Executed(this, device, Answer(WordResponse(R1Status(), Ocr32())))
      else if IsReadRegister(command) then
        Executed(Take(BeginTransfer), device,
                 ModelResult([0], None, Some(if command.index == 9 then registers.csd else registers.cid)))
      else if IsBlockLength(command) then Executed(this, device, Answer([R1Status()]))
      else if IsTransfer(command) then ExecuteTransfer(device, command)
      else Executed(this, device, Answer([R1_ILLEGAL_COMMAND | R1Status()]))
    }

    function Execute(device: Device, command: Command): Executed {
      var keepsPrefix := command.index == 55 || command.index == 41 || command.index == 23;
      this.(appCommandPending := keepsPrefix && appCommandPending).Dispatch(device, command)
    }

    function RetryPendingRead(device: Device): (Card, Device, BlockOperation, Block) {
      if !pendingReadActive then (this, device, Failed, ZeroBlock())
      else
        var (device', result, block) := device.Read(pendingReadLba);
        match result
        case Pending => (this, device', Pending, block)
        case Failed => (this.(pendingReadActive := false).Take(EnterFault), device', Failed, block)
        case Complete =>
          var card := this.(
            pendingReadActive := false,
            multiReadActive := pendingReadIsMulti || multiReadActive,
            nextMultiReadLba := if pendingReadIsMulti then pendingReadLba + 1 else nextMultiReadLba);
          (card, device', Complete, block)
    }

    function ReadNextMultiBlock(device: Device): (Card, Device, Option<Block>) {
      if !multiReadActive || nextMultiReadLba >= registers.exposedBlocks then (this, device, None)
      else
        var (device', result, block) := device.Read(nextMultiReadLba);
        if result != Complete then (this, device', None)
        else (this.(nextMultiReadLba := nextMultiReadLba + 1), device', Some(block))
    }

    function FinishMultiWrite(): (Card, bool) {
      if !multiWriteActive then (this, false)
      else (this.(multiWriteActive := false).Take(FinishReceivingData), state == ReceivingData)
    }

    function AbortPendingWrite(): Card {
      this.(pendingReadActive := false, multiWriteActive := false).Take(FinishReceivingData)
    }

    /** Whether a framed block reaches the backend. */
    predicate Accepts(block: Block, crc: bv16) { state == ReceivingData && Crc16(block) == crc }

    /** What the backend's answer to an accepted block does. */
    function Written(answer: BlockOperation): (Card, WriteResult) {
      match answer
      case Pending => (this, WriteResult([], DATA_RESPONSE_WRITE_ERROR, false, true))
      case Failed =>
        (Take(EnterFault), WriteResult([R1_ADDRESS_ERROR], DataResponse(DATA_RESPONSE_WRITE_ERROR), false, false))
      case Complete =>
        var done := Take(BeginBusy).Take(FinishBusy);
        var card :=
          if !done.multiWriteActive then done
          else if done.pendingWriteLba + 1 < registers.exposedBlocks then
            done.(pendingWriteLba := done.pendingWriteLba + 1).Take(BeginReceivingData)
          else done.(pendingWriteLba := done.pendingWriteLba + 1, multiWriteActive := false);
        (card, WriteResult([0], DataResponse(DATA_RESPONSE_ACCEPTED), true, false))
    }

    function WriteBlock(device: Device, block: Block, crc: bv16): (Card, Device, WriteResult) {
      if !Accepts(block, crc) then (this, device, REJECTED_WRITE)
      else
        var (device', answer) := device.Write(pendingWriteLba, block);
        var (card, result) := Written(answer);
        (card, device', result)
    }
  }

  function NewCard(cardType: CardType, device: Device): Card {
    Card(cardType, MakeRegisters(cardType, |device.blocks| % 0x1_0000_0000),
         PowerUp, false, 0, false, false, false, 0, 0, false, false, 0)
  }

  class SdCardModel {
    const backend: BlockBackend
    const cardType: CardType
    const machine: SdCardStateMachine
    var registers: Registers
    var appCommandPending: bool
    var preeraseBlockCount: U32
    var multiReadActive: bool
    var pendingReadActive: bool
    var pendingReadIsMulti: bool
    var pendingReadLba: nat
    var nextMultiReadLba: nat
    var multiWriteActive: bool
    var commandCrcEnabled: bool
    var pendingWriteLba: nat

    ghost function Owned(): set<object> { {this, machine, backend, backend.blocks} }

    ghost function State(): Card
      reads this, machine
    {
      Card(cardType, registers, machine.state, appCommandPending, preeraseBlockCount, multiReadActive, pendingReadActive,
           pendingReadIsMulti, pendingReadLba, nextMultiReadLba, multiWriteActive, commandCrcEnabled, pendingWriteLba)
    }

    constructor (cardType: CardType, backend: BlockBackend)
      ensures this.backend == backend && fresh(machine)
      ensures State() == NewCard(cardType, backend.State())
    {
      this.backend := backend;
      this.cardType := cardType;
      machine := new SdCardStateMachine();
      appCommandPending, preeraseBlockCount := false, 0;
      multiReadActive, pendingReadActive, pendingReadIsMulti, multiWriteActive := false, false, false, false;
      pendingReadLba, nextMultiReadLba, pendingWriteLba := 0, 0, 0;
      commandCrcEnabled := false;
      registers := MakeRegisters(cardType, 0);
      new;
      registers := MakeSdRegisters(cardType, backend.blocks.Length % 0x1_0000_0000);
    }

    method RefreshCapacity()
      modifies this
      ensures State() == old(State()).RefreshCapacity(backend.State())
    {
      registers := MakeSdRegisters(cardType, backend.blocks.Length % 0x1_0000_0000);
    }

    function R1Status(): bv8
      reads machine
    {
      if machine.state == Idle then R1_IDLE else 0
    }

    method CommandLba(argument: U32) returns (lba: Option<nat>)
      ensures lba == State().CommandLba(argument)
    {
      var block: nat := argument;
      if cardType == Sdsc {
        if argument % BLOCK_SIZE != 0 {
          return None;
        }
        block := argument / BLOCK_SIZE;
      }
      return if block < registers.exposedBlocks then Some(block) else None;
    }

    method BeginRead(lba: nat, multi: bool) returns (result: ModelResult)
      modifies Owned()
      ensures Executed(State(), backend.State(), result) == old(State()).BeginRead(old(backend.State()), lba, multi)
    {
      hide Device.Read;
      var _ := machine.Take(BeginTransfer);
      var outcome, block := backend.Read(lba);
      pendingReadActive := outcome == Pending;
      pendingReadIsMulti := multi;
      pendingReadLba := lba;
      if multi && outcome == Complete {
        multiReadActive := true;
        nextMultiReadLba := lba + 1;
      }
      return ModelResult([0], if outcome == Complete then Some(block) else None, None);
    }

    method BeginWrite(lba: nat, multi: bool)
      modifies this, machine
      ensures State() == old(State()).BeginWrite(lba, multi)
    {
      var _ := machine.Take(BeginTransfer);
      pendingWriteLba := lba;
      multiWriteActive := multi;
      var _ := machine.Take(BeginReceivingData);
    }

    method ExecuteTransfer(command: Command) returns (result: ModelResult)
      modifies Owned()
      ensures Executed(State(), backend.State(), result) == old(State()).ExecuteTransfer(old(backend.State()), command)
    {
      hide Card.BeginRead, Card.BeginWrite, Card.CommandLba;
      var lba := CommandLba(command.argument);
      if lba.None? {
        return Answer([R1_ADDRESS_ERROR]);
      }
      if command.index == 17 || command.index == 18 {
        result := BeginRead(lba.value, command.index == 18);
      } else {
        BeginWrite(lba.value, command.index == 25);
        result := Answer([0]);
      }
    }

    method Reset()
      modifies this, machine
      ensures State() == old(State()).Reset()
    {
      var _ := machine.Take(EnterIdle);
      commandCrcEnabled := false;
      multiReadActive := false;
      pendingReadActive := false;
      multiWriteActive := false;
    }

    method Execute(command: Command) returns (result: ModelResult)
      modifies Owned()
      ensures Executed(State(), backend.State(), result) == old(State()).Execute(old(backend.State()), command)
    {
      if command.index != 55 && command.index != 41 && command.index != 23 {
        appCommandPending := false;
      }
      result := Dispatch(command);
    }

    method Dispatch(command: Command) returns (result: ModelResult)
      modifies Owned()
      ensures Executed(State(), backend.State(), result) == old(State()).Dispatch(old(backend.State()), command)
    {
      hide MakeRegisters, WordResponse, BigEndian, Card.ExecuteData, Card.Reset;
      var open := machine.state == Ready || machine.state == Transfer;
      var running := machine.state != PowerUp && machine.state != Fault;
      if command.index == 0 {
        Reset();
        return Answer([R1_IDLE]);
      }
      if command.index == 8 && machine.state == Idle {
        return Answer(WordResponse(R1Status(), command.argument));
      }
      if command.index == 13 && running {
        return Answer([R1Status(), 0]);
      }
      if command.index == 12 && machine.state == Transfer {
        multiReadActive := false;
        pendingReadActive := false;
        return Answer([0]);
      }
      if command.index == 59 && command.argument <= 1 && running {
        commandCrcEnabled := command.argument == 1;
        return Answer([R1Status()]);
      }
      if command.index == 55 {
        appCommandPending := true;
        return Answer([R1Status()]);
      }
      if command.index == 41 && appCommandPending && machine.state == Idle {
        var _ := machine.Take(MakeReady);
        appCommandPending := false;
        return Answer([0]);
      }
      if command.index == 23 && appCommandPending && open {
        preeraseBlockCount := command.argument;
        appCommandPending := false;
        return Answer([R1Status()]);
      }
      result := ExecuteData(command);
    }

    method ExecuteData(command: Command) returns (result: ModelResult)
      modifies Owned()
      ensures Executed(State(), backend.State(), result) == old(State()).ExecuteData(old(backend.State()), command)
    {
      hide MakeRegisters, WordResponse, BigEndian, Card.ExecuteTransfer;
      var open := machine.state == Ready || machine.state == Transfer;
      if command.index == 58 && open {
        var ocr := BigEndian(registers.ocr[0], registers.ocr[1], registers.ocr[2], registers.ocr[3]);
        return Answer(WordResponse(R1Status(), ocr));
      }
      if (command.index == 9 || command.index == 10) && open {
        var _ := machine.Take(BeginTransfer);
        return ModelResult([0], None, Some(if command.index == 9 then registers.csd else registers.cid));
      }
      if command.index == 16 && command.argument == BLOCK_SIZE {
        return Answer([R1Status()]);
      }
      if (command.index == 17 || command.index == 18 || command.index == 24 || command.index == 25) && open {
        result := ExecuteTransfer(command);
        return;
      }
      return Answer([R1_ILLEGAL_COMMAND | R1Status()]);
    }

    method RetryPendingRead() returns (result: BlockOperation, block: Block)
      modifies Owned()
      ensures (State(), backend.State(), result, block) == old(State()).RetryPendingRead(old(backend.State()))
    {
      if !pendingReadActive {
        return Failed, ZeroBlock();
      }
      result, block := backend.Read(pendingReadLba);
      if result == Complete {
        pendingReadActive := false;
        if pendingReadIsMulti {
          multiReadActive := true;
          nextMultiReadLba := pendingReadLba + 1;
        }
      } else if result == Failed {
        pendingReadActive := false;
        var _ := machine.Take(EnterFault);
      }
    }

    method ReadNextMultiBlock() returns (block: Option<Block>)
      modifies Owned()
      ensures (State(), backend.State(), block) == old(State()).ReadNextMultiBlock(old(backend.State()))
    {
      if !multiReadActive || nextMultiReadLba >= registers.exposedBlocks {
        return None;
      }
      var result, output := backend.Read(nextMultiReadLba);
      if result != Complete {
        return None;
      }
      nextMultiReadLba := nextMultiReadLba + 1;
      return Some(output);
    }

    method FinishMultiWrite() returns (ok: bool)
      modifies this, machine
      ensures (State(), ok) == old(State()).FinishMultiWrite()
    {
      if !multiWriteActive {
        return false;
      }
      multiWriteActive := false;
      ok := machine.Take(FinishReceivingData);
    }

    method AbortPendingWrite()
      modifies this, machine
      ensures State() == old(State()).AbortPendingWrite()
    {
      pendingReadActive := false;
      if machine.state == ReceivingData {
        var _ := machine.Take(FinishReceivingData);
      }
      multiWriteActive := false;
    }

    /** The tail of write_block once the backend has answered. */
    method FinishWrite(answer: BlockOperation) returns (result: WriteResult)
      modifies this, machine
      ensures (State(), result) == old(State()).Written(answer)
    {
      hide DataResponse;
      if answer == Pending {
        return WriteResult([], DATA_RESPONSE_WRITE_ERROR, false, true);
      }
      if answer == Failed {
        var _ := machine.Take(EnterFault);
        return WriteResult([R1_ADDRESS_ERROR], DataResponse(DATA_RESPONSE_WRITE_ERROR), false, false);
      }
      var _ := machine.Take(BeginBusy);
      var _ := machine.Take(FinishBusy);
      if multiWriteActive {
        pendingWriteLba := pendingWriteLba + 1;
        if pendingWriteLba < registers.exposedBlocks {
          var _ := machine.Take(BeginReceivingData);
        } else {
          multiWriteActive := false;
        }
      }
      return WriteResult([0], DataResponse(DATA_RESPONSE_ACCEPTED), true, false);
    }

    method WriteBlock(block: Block, crc: bv16) returns (result: WriteResult)
      modifies Owned()
      ensures (State(), backend.State(), result) == old(State()).WriteBlock(old(backend.State()), block, crc)
    {
      hide Crc16, DataResponse, Device.Write, Card.Written;
      var actual := ComputeCrc16(block);
      if machine.state != ReceivingData || actual != crc {
        return REJECTED_WRITE;
      }
      var answer := backend.Write(pendingWriteLba, block);
      result := FinishWrite(answer);
    }
  }
}
