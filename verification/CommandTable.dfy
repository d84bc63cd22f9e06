/**
 * Every command in every state: what the card answers and where it goes, as a table by state, and
 * what a stop, a release and a reset end.
 */
module CommandTable {
  import opened Basics
  import opened SdCommand
  import opened SdRegisters
  import opened Crc
  import opened BlockDevice
  import C = SdCardModel
  import opened SdSpiCardEngine
  import R = EngineRuns
  import opened CardSession

  // ---- The table -------------------------------------------------------------------

  predicate Addresses(index: bv8) { index == 17 || index == 18 || index == 24 || index == 25 }

  predicate ReadsRegister(index: bv8) { index == 9 || index == 10 || index == 58 }

  /** Accepted in every state. */
  predicate Always(index: bv8, argument: U32) { index == 0 || index == 55 || (index == 16 && argument == 512) }

  /** Accepted once the card has been reset and until it faults. */
  predicate Running(index: bv8, argument: U32) { Always(index, argument) || index == 13 || (index == 59 && argument <= 1) }

  /** The commands a card in this state accepts; prefixed says that CMD55 came right before. */
  predicate Legal(state: C.CardState, prefixed: bool, index: bv8, argument: U32) {
    match state
    case PowerUp | Fault => Always(index, argument)
    case Idle => Running(index, argument) || index == 8 || (index == 41 && prefixed)
    case Ready => Running(index, argument) || Addresses(index) || ReadsRegister(index) || (index == 23 && prefixed)
    case Transfer =>
      Running(index, argument) || Addresses(index) || ReadsRegister(index) || (index == 23 && prefixed) || index == 12
    case ReceivingData | Busy => Running(index, argument)
  }

  /** An accepted command that addresses a block the card does not have, or not on a block boundary. */
  predicate OutOfRange(card: C.Card, index: bv8, argument: U32) {
    Addresses(index)
    && if card.cardType == Sdsc then argument % 512 != 0 || argument >= card.registers.exposedBlocks * 512
       else argument >= card.registers.exposedBlocks
  }

  predicate Accepted(card: C.Card, index: bv8, argument: U32) {
    Legal(card.state, card.appCommandPending, index, argument) && !OutOfRange(card, index, argument)
  }

  /** R1: bit 0 idle, bit 2 illegal command, bit 5 address error. */
  function R1(card: C.Card, index: bv8, argument: U32): bv8 {
    if !Legal(card.state, card.appCommandPending, index, argument) then (if card.state == C.Idle then 0x05 else 0x04)
    else if OutOfRange(card, index, argument) then 0x20
    else if index == 0 || (card.state == C.Idle && index != 41) then 0x01
    else 0x00
  }

  function StateAfter(card: C.Card, index: bv8, argument: U32): C.CardState {
    if !Accepted(card, index, argument) then card.state
    else if index == 0 then C.Idle
    else if index == 41 then C.Ready
    else if index == 24 || index == 25 then C.ReceivingData
    else if index == 17 || index == 18 || index == 9 || index == 10 then C.Transfer
    else card.state
  }

  /** CMD55 holds over CMD41 and CMD23 until one of them is accepted, and over no other command. */
  predicate PrefixAfter(card: C.Card, index: bv8, argument: U32) {
    index == 55
    || ((index == 41 || index == 23) && card.appCommandPending && !Legal(card.state, true, index, argument))
  }

  /** What is known of every answer; a refused command changes at most the prefix. */
  ghost predicate AsTabled(card: C.Card, device: Device, index: bv8, argument: U32, done: C.Executed) {
    && done.result.response != [] && done.result.response[0] == R1(card, index, argument)
    && done.card.state == StateAfter(card, index, argument)
    && (done.card.appCommandPending <==> PrefixAfter(card, index, argument))
    && done.card.preeraseBlockCount
       == (if index == 23 && Accepted(card, index, argument) then argument else card.preeraseBlockCount)
    && (!Accepted(card, index, argument) ==>
          && done.result == C.Answer([R1(card, index, argument)]) && done.device == device
          && done.card == card.(appCommandPending := PrefixAfter(card, index, argument)))
    && (Accepted(card, index, argument) && !Addresses(index) ==> done.device == device)
  }

  lemma AddressedExactly(card: C.Card, index: bv8, argument: U32)
    requires Addresses(index)
    ensures card.CommandLba(argument).None? <==> OutOfRange(card, index, argument)
    ensures card.CommandLba(argument).Some? ==>
              card.CommandLba(argument).value == if card.cardType == Sdsc then argument / 512 else argument
  {
    var blocks := card.registers.exposedBlocks;
    if card.cardType == Sdsc && argument % 512 == 0 {
      assert argument == 512 * (argument / 512);
    }
  }

  lemma TransferTable(card: C.Card, device: Device, command: Command)
    requires card.Open() && Addresses(command.index) && !card.appCommandPending
    ensures AsTabled(card, device, command.index, command.argument, card.ExecuteTransfer(device, command))
  {
    hide C.Card.CommandLba, OutOfRange, Device.Read;
    AddressedExactly(card, command.index, command.argument);
  }

  lemma IllegalBits()
    ensures R1_ILLEGAL_COMMAND | R1_IDLE == 0x05 && R1_ILLEGAL_COMMAND | 0 == 0x04
  {}

  lemma AddressTable(card: C.Card, device: Device, command: Command)
    requires Addresses(command.index) && !card.appCommandPending
    ensures AsTabled(card, device, command.index, command.argument, card.ExecuteData(device, command))
  {
    hide C.Card.ExecuteTransfer, WordResponse, C.Card.Ocr32, OutOfRange;
    IllegalBits();
    if card.Open() {
      hide AsTabled;
      TransferTable(card, device, command);
    }
  }

  lemma RegistersAreLegal(state: C.CardState, prefixed: bool, index: bv8, argument: U32)
    requires ReadsRegister(index) && (state == C.Ready || state == C.Transfer)
    ensures Legal(state, prefixed, index, argument)
  {}

  lemma PlainTable(card: C.Card, device: Device, command: Command)
    requires !card.IsReset(command) && !card.IsInterfaceCondition(command) && !card.IsSendStatus(command)
    requires !card.IsStop(command) && !card.IsCrcSwitch(command) && !card.IsAppPrefix(command)
    requires !card.IsInitialise(command) && !card.IsPreErase(command)
    requires card.appCommandPending ==> command.index == 41 || command.index == 23
    requires !Addresses(command.index) && !card.IsReadOcr(command) && !card.IsReadRegister(command)
    ensures AsTabled(card, device, command.index, command.argument, card.ExecuteData(device, command))
  {
    hide C.Card.ExecuteTransfer, WordResponse, C.Card.Ocr32, OutOfRange;
    IllegalBits();
    NotAddressing(card, command.index, command.argument);
  }

  lemma DataTable(card: C.Card, device: Device, command: Command)
    requires !card.IsReset(command) && !card.IsInterfaceCondition(command) && !card.IsSendStatus(command)
    requires !card.IsStop(command) && !card.IsCrcSwitch(command) && !card.IsAppPrefix(command)
    requires !card.IsInitialise(command) && !card.IsPreErase(command)
    requires card.appCommandPending ==> command.index == 41 || command.index == 23
    ensures AsTabled(card, device, command.index, command.argument, card.ExecuteData(device, command))
  {
    hide C.Card.ExecuteTransfer, WordResponse, C.Card.Ocr32, OutOfRange;
    if Addresses(command.index) {
      hide AsTabled, C.Card.ExecuteData;
      AddressTable(card, device, command);
    } else if card.IsReadRegister(command) || card.IsReadOcr(command) {
      hide Legal;
      RegistersAreLegal(card.state, card.appCommandPending, command.index, command.argument);
      WordHeads(card.R1Status(), card.Ocr32());
      NotAddressing(card, command.index, command.argument);
    } else {
      hide AsTabled, C.Card.ExecuteData;
      PlainTable(card, device, command);
    }
  }

  lemma WordHeads(status: bv8, word: U32)
    ensures WordResponse(status, word) != [] && WordResponse(status, word)[0] == status
  {}

  lemma NotAddressing(card: C.Card, index: bv8, argument: U32)
    requires !Addresses(index)
    ensures !OutOfRange(card, index, argument)
  {}

  lemma DispatchTable(card: C.Card, device: Device, command: Command)
    requires card.appCommandPending ==> command.index == 55 || command.index == 41 || command.index == 23
    ensures AsTabled(card, device, command.index, command.argument, card.Dispatch(device, command))
  {
    hide C.Card.ExecuteData, WordResponse, OutOfRange;
    if !Addresses(command.index) {
      NotAddressing(card, command.index, command.argument);
    }
    WordHeads(card.R1Status(), command.argument);
    if !card.IsReset(command) && !card.IsInterfaceCondition(command) && !card.IsSendStatus(command)
       && !card.IsStop(command) && !card.IsCrcSwitch(command) && !card.IsAppPrefix(command)
       && !card.IsInitialise(command) && !card.IsPreErase(command) {
      hide AsTabled;
      DataTable(card, device, command);
    }
  }

  lemma ExecuteTable(card: C.Card, device: Device, command: Command)
    ensures AsTabled(card, device, command.index, command.argument, card.Execute(device, command))
  {
    hide C.Card.Dispatch, OutOfRange, Legal;
    if command.index != 41 && command.index != 23 {
      PrefixUnused(card.state, false, card.appCommandPending, command.index, command.argument);
    }
    var keepsPrefix := command.index == 55 || command.index == 41 || command.index == 23;
    DispatchTable(card.(appCommandPending := keepsPrefix && card.appCommandPending), device, command);
    SameRange(card, keepsPrefix && card.appCommandPending, command.index, command.argument);
  }

  lemma PrefixUnused(state: C.CardState, a: bool, b: bool, index: bv8, argument: U32)
    requires index != 41 && index != 23
    ensures Legal(state, a, index, argument) == Legal(state, b, index, argument)
  {}

  lemma SameRange(card: C.Card, prefixed: bool, index: bv8, argument: U32)
    ensures OutOfRange(card.(appCommandPending := prefixed), index, argument) == OutOfRange(card, index, argument)
  {}

  /**
   * Any command in any state, on the wire: one answer, whose first byte is the tabled R1; the card
   * goes to the tabled state; a refused command is answered by that byte alone and leaves card and
   * backend as they were, up to the CMD55 prefix.
   */
  lemma EveryCommand(e: Engine, frame: seq<bv8>, index: bv8, argument: U32)
    requires e.Valid() && AtRest(e) && IsCommand(frame, index, argument)
    ensures var (last, outputs) := Send(e, frame);
            && |outputs| == 1 && outputs[0].bytes != [] && outputs[0].bytes[0] == R1(e.card, index, argument) && !outputs[0].busy
            && last.card.state == StateAfter(e.card, index, argument)
            && (last.card.appCommandPending <==> PrefixAfter(e.card, index, argument))
            && last.card.preeraseBlockCount
               == (if index == 23 && Accepted(e.card, index, argument) then argument else e.card.preeraseBlockCount)
            && (!Accepted(e.card, index, argument) ==>
                  && outputs[0].bytes == [R1(e.card, index, argument)] && last.device == e.device
                  && last.card == e.card.(appCommandPending := PrefixAfter(e.card, index, argument)))
            && (Accepted(e.card, index, argument) && !Addresses(index) ==> last.device == e.device)
  {
    hide Send, DecodeCommand, C.Card.Execute, R1, StateAfter, PrefixAfter, Accepted;
    SendCommand(e, frame, index, argument);
    var command := DecodeCommand(frame, true).value;
    assert command.index == index && command.argument == argument;
    ExecuteTable(e.card, e.device, command);
    HeadOf(e.card.Execute(e.device, command).result);
  }

  lemma HeadOf(result: C.ModelResult)
    requires result.response != []
    ensures var output := CommandOutput(result);
            output.bytes != [] && output.bytes[0] == result.response[0] && !output.busy
            && (result == C.Answer(result.response) ==> output.bytes == result.response)
  {
    hide Framed;
  }

  /**
   * A framed block at the card: refused with the CRC error unless it is expected and its CRC16 is
   * right; else the backend's answer decides R1 and data response, and nothing is said while it is pending.
   */
  lemma EveryBlock(card: C.Card, device: Device, block: Block, crc: bv16)
    ensures var (card', device', result) := card.WriteBlock(device, block, crc);
            var answer := device.Write(card.pendingWriteLba, block).1;
            && (!card.Accepts(block, crc) ==>
                  card' == card && device' == device && result == C.WriteResult([0x08], 0x0b, false, false))
            && (card.Accepts(block, crc) ==>
                  && device' == device.Write(card.pendingWriteLba, block).0
                  && (answer == Pending ==> card' == card && result.response == [] && !result.busy && result.pending)
                  && (answer == Failed ==> card'.state == C.Fault && result == C.WriteResult([0x20], 0x0d, false, false))
                  && (answer == Complete ==> result == C.WriteResult([0x00], 0x05, true, false)))
  {
    hide Crc16, Device.Write;
    ResponseBits();
  }

  lemma ResponseBits()
    ensures DataResponse(DATA_RESPONSE_CRC_ERROR) == 0x0b && DataResponse(DATA_RESPONSE_WRITE_ERROR) == 0x0d
    ensures DataResponse(DATA_RESPONSE_ACCEPTED) == 0x05
  {}

  // ---- What ends a transfer --------------------------------------------------------

  /** Nothing is deferred and no multi-block read is going on. */
  predicate Quiet(e: Engine) { !e.card.multiReadActive && !e.card.pendingReadActive && !e.writePending }

  /** The worker's own events: polls for deferred work and requests for the next block. */
  predicate Asks(event: R.Event) { event == R.Poll || event == R.NextBlock }

  lemma {:induction false} QuietStays(e: Engine, events: seq<R.Event>)
    requires e.Valid() && Quiet(e) && forall event <- events :: Asks(event)
    ensures R.Final(e, events) == e && forall output <- R.Outputs(e, events) :: output == None
    decreases events
  {
    hide C.Card.RetryPendingRead, C.Card.WriteBlock;
    if events != [] {
      assert Asks(events[0]);
      assert R.Step(e, events[0]) == (e, None);
      assert forall event <- events[1..] :: event in events;
      QuietStays(e, events[1..]);
    }
  }

  /** CMD12 in the transfer state ends a multi-block read and drops a deferred one: no byte follows its answer. */
  lemma StopEndsReading(e: Engine, frame: seq<bv8>, argument: U32, events: seq<R.Event>)
    requires e.Valid() && AtRest(e) && IsCommand(frame, 12, argument) && e.card.state == C.Transfer && !e.writePending
    requires forall event <- events :: Asks(event)
    ensures var (last, outputs) := Send(e, frame);
            && outputs == [Output([0x00], false)] && last.device == e.device && last.card.state == C.Transfer
            && R.Final(last, events) == last && forall output <- R.Outputs(last, events) :: output == None
  {
    hide Send, DecodeCommand, R.Final, R.Outputs, WordResponse, BigEndian, Asks;
    SendCommand(e, frame, 12, argument);
    PlainOutput([0x00]);
    QuietStays(Send(e, frame).0, events);
  }

  /** CMD0 ends every transfer the card has not taken on. */
  lemma ResetEndsReading(e: Engine, frame: seq<bv8>, argument: U32, events: seq<R.Event>)
    requires e.Valid() && AtRest(e) && IsCommand(frame, 0, argument) && !e.writePending
    requires forall event <- events :: Asks(event)
    ensures var (last, outputs) := Send(e, frame);
            && outputs == [Output([0x01], false)] && last.device == e.device && last.card.state == C.Idle
            && R.Final(last, events) == last && forall output <- R.Outputs(last, events) :: output == None
  {
    hide Send, DecodeCommand, R.Final, R.Outputs, WordResponse, BigEndian, Asks;
    SendCommand(e, frame, 0, argument);
    PlainOutput([0x01]);
    QuietStays(Send(e, frame).0, events);
  }

  /** A release drops deferred work and a write in progress, but a multi-block read goes on exactly as if it had not happened. */
  lemma ReleaseKeepsReading(e: Engine, events: seq<R.Event>)
    requires e.Valid() && forall event <- events :: Asks(event)
    ensures var released := e.ChipSelectReleased();
            && !released.framer.Receiving() && released.frame == [] && !released.card.pendingReadActive && !released.writePending
            && released.card.state == (if e.card.state == C.ReceivingData then C.Transfer else e.card.state)
            && released.NextMultiReadBlock().1 == e.NextMultiReadBlock().1
            && (!e.card.multiReadActive ==>
                  R.Final(released, events) == released && forall output <- R.Outputs(released, events) :: output == None)
  {
    hide R.Final, R.Outputs, Framed, Asks;
    if !e.card.multiReadActive {
      QuietStays(e.ChipSelectReleased(), events);
    }
  }
}
