/**
 * No block is read or written before the card has been initialised: for every backend and every
 * sequence of calls, each backend access follows, since the last CMD0, a CMD55 and then an
 * accepted CMD41. This covers deferred reads, multi-block reads and multi-block writes.
 */
module CardInitialisation {
  import opened Basics
  import opened SdCommand
  import opened SdRegisters
  import opened BlockDevice
  import opened SdCardModel

  /** Every call the engine, or anyone else, can make on the card. */
  datatype Call =
    | Execute(command: Command)
    | RetryPendingRead
    | ReadNextMultiBlock
    | WriteBlock(block: Block, crc: bv16)
    | FinishMultiWrite
    | AbortPendingWrite
    | RefreshCapacity

  function Step(card: Card, device: Device, call: Call): (Card, Device) {
    match call
    case Execute(command) => var executed := card.Execute(device, command); (executed.card, executed.device)
    case RetryPendingRead => var (card', device', _, _) := card.RetryPendingRead(device); (card', device')
    case ReadNextMultiBlock => var (card', device', _) := card.ReadNextMultiBlock(device); (card', device')
    case WriteBlock(block, crc) => var (card', device', _) := card.WriteBlock(device, block, crc); (card', device')
    case FinishMultiWrite => (card.FinishMultiWrite().0, device)
    case AbortPendingWrite => (card.AbortPendingWrite(), device)
    case RefreshCapacity => (card.RefreshCapacity(device), device)
  }

  /** What an observer of the command line has seen since the last CMD0. */
  datatype Seen = Seen(appPrefix: bool, initialised: bool)

  /** CMD0 starts over; CMD55 is noted; CMD41 counts once answered with a clear R1 after a CMD55. */
  function Observe(seen: Seen, command: Command, response: seq<bv8>): Seen {
    if command.index == 0 then Seen(false, false)
    else if command.index == 55 then seen.(appPrefix := true)
    else if command.index == 41 && seen.appPrefix && response == [0] then seen.(initialised := true)
    else seen
  }

  function ObserveCall(seen: Seen, card: Card, device: Device, call: Call): Seen
  {
    if call.Execute? then Observe(seen, call.command, card.Execute(device, call.command).result.response) else seen
  }

  ghost predicate Knows(seen: Seen, card: Card) {
    && (card.appCommandPending ==> seen.appPrefix)
    && (card.state in {Ready, Transfer, ReceivingData, Busy} ==> seen.initialised)
    && (card.multiReadActive || card.pendingReadActive || card.multiWriteActive ==> seen.initialised)
  }

  lemma ExecuteDataKnows(seen: Seen, card: Card, device: Device, command: Command)
    requires Knows(seen, card)
    requires command.index != 0 && command.index != 55 && command.index != 41
    ensures var executed := card.ExecuteData(device, command);
            && Knows(seen, executed.card)
            && (executed.device != device ==> seen.initialised)
  {
    hide MakeRegisters, WordResponse, BigEndian, Card.CommandLba, Device.Read, Device.Write;
  }

  lemma IllegalAnswer(card: Card)
    ensures [R1_ILLEGAL_COMMAND | card.R1Status()] != [0]
  {}

  lemma ExecuteKnows(seen: Seen, card: Card, device: Device, command: Command)
    requires Knows(seen, card)
    ensures var executed := card.Execute(device, command);
            var seen' := Observe(seen, command, executed.result.response);
            && Knows(seen', executed.card)
            && (executed.device != device ==> seen.initialised)
  {
    hide WordResponse, Card.ExecuteTransfer, Card.Ocr32;
    var keepsPrefix := command.index == 55 || command.index == 41 || command.index == 23;
    var cleared := card.(appCommandPending := keepsPrefix && card.appCommandPending);
    if command.index != 0 && command.index != 55 && command.index != 41 {
      hide Card.ExecuteData;
      ExecuteDataKnows(seen, cleared, device, command);
    } else {
      IllegalAnswer(cleared);
    }
  }

  lemma StepKnows(seen: Seen, card: Card, device: Device, call: Call)
    requires Knows(seen, card)
    ensures var (card', device') := Step(card, device, call);
            && Knows(ObserveCall(seen, card, device, call), card')
            && (device' != device ==> seen.initialised)
  {
    hide MakeRegisters, Card.Execute, Device.Read, Device.Write, DataResponse;
    if call.Execute? {
      ExecuteKnows(seen, card, device, call.command);
    }
  }

  function Run(card: Card, device: Device, calls: seq<Call>): (Card, Device)
    decreases calls
  {
    if calls == [] then (card, device)
    else
      var (card', device') := Step(card, device, calls[0]);
      Run(card', device', calls[1..])
  }

  /** The observer's knowledge before each call of a run, in order, with the devices it used. */
  ghost predicate EveryAccessIsInitialised(seen: Seen, card: Card, device: Device, calls: seq<Call>)
    decreases calls
  {
    calls == [] ||
    var (card', device') := Step(card, device, calls[0]);
    && (device' != device ==> seen.initialised)
    && EveryAccessIsInitialised(ObserveCall(seen, card, device, calls[0]), card', device', calls[1..])
  }

  lemma {:induction false} RunIsInitialised(seen: Seen, card: Card, device: Device, calls: seq<Call>)
    requires Knows(seen, card)
    ensures EveryAccessIsInitialised(seen, card, device, calls)
    decreases calls
  {
    hide Step, ObserveCall;
    if calls != [] {
      StepKnows(seen, card, device, calls[0]);
      var (card', device') := Step(card, device, calls[0]);
      RunIsInitialised(ObserveCall(seen, card, device, calls[0]), card', device', calls[1..]);
    }
  }

  /** The main result, from power-up. */
  lemma NoAccessBeforeInitialisation(cardType: CardType, device: Device, calls: seq<Call>)
    ensures EveryAccessIsInitialised(Seen(false, false), NewCard(cardType, device), device, calls)
  {
    RunIsInitialised(Seen(false, false), NewCard(cardType, device), device, calls);
  }
}
