/** Runs of the byte engine, and what a chip-select release forgets. */
module EngineRuns {
  import opened Basics
  import opened SdCommand
  import opened BlockDevice
  import C = SdCardModel
  import I = CardInitialisation
  import opened SdRegisters
  import opened SdSpiFramers
  import opened SdSpiCardEngine

  datatype Event = Byte(byte: bv8) | Release | NextBlock | Poll | Refresh

  function Step(e: Engine, event: Event): (next: (Engine, Option<Output>))
    requires e.Valid()
    ensures next.0.Valid()
  {
    match event
    case Byte(byte) => e.PushByte(byte)
    case Release => (e.ChipSelectReleased(), None)
    case NextBlock => e.NextMultiReadBlock()
    case Poll => e.PollPendingIo()
    case Refresh => (e.(card := e.card.RefreshCapacity(e.device)), None)
  }

  function Final(e: Engine, events: seq<Event>): (last: Engine)
    requires e.Valid()
    ensures last.Valid()
    decreases events
  {
    if events == [] then e else Final(Step(e, events[0]).0, events[1..])
  }

  /** One entry per event: the output it produced, if any. */
  function Outputs(e: Engine, events: seq<Event>): (outputs: seq<Option<Output>>)
    requires e.Valid()
    ensures |outputs| == |events|
    decreases events
  {
    if events == [] then []
    else
      var (e', output) := Step(e, events[0]);
      [output] + Outputs(e', events[1..])
  }

  // ---- The engine uses the card only through its calls -------------------------

  /** The card call one event makes, if any. */
  function CallsOf(e: Engine, event: Event): seq<I.Call>
    requires e.Valid()
  {
    match event
    case Release => [I.AbortPendingWrite]
    case Refresh => [I.RefreshCapacity]
    case NextBlock => [I.ReadNextMultiBlock]
    case Poll =>
      if e.card.pendingReadActive then [I.RetryPendingRead]
      else if e.writePending then [I.WriteBlock(e.pendingBlock, e.pendingCrc)]
      else []
    case Byte(byte) =>
      if e.framer.Receiving() then
        match e.framer.Push(byte).1
        case None => []
        case Some(Stop) => [I.FinishMultiWrite]
        case Some(Received(block, crc)) => [I.WriteBlock(block, crc)]
      else
        match PushCommandByte(e.frame, byte, e.card.commandCrcEnabled).1
        case Some(Ok(command)) => [I.Execute(command)]
        case _ => []
  }

  lemma StepIsCalls(e: Engine, event: Event)
    requires e.Valid()
    ensures var e' := Step(e, event).0; (e'.card, e'.device) == I.Run(e.card, e.device, CallsOf(e, event))
  {
    hide DataFramer.Push, PushCommandByte, C.Card.Execute, C.Card.WriteBlock, C.Card.RetryPendingRead, C.Card.ReadNextMultiBlock;
    var calls := CallsOf(e, event);
    if |calls| == 1 {
      assert calls[1..] == [];
      RunOfOne(e.card, e.device, calls[0]);
    }
  }

  lemma RunOfOne(card: C.Card, device: Device, call: I.Call)
    ensures I.Run(card, device, [call]) == I.Step(card, device, call)
  {
    hide I.Step;
  }

  function CallsOfRun(e: Engine, events: seq<Event>): seq<I.Call>
    requires e.Valid()
    decreases events
  {
    if events == [] then [] else CallsOf(e, events[0]) + CallsOfRun(Step(e, events[0]).0, events[1..])
  }

  lemma {:induction false} RunOfBoth(card: C.Card, device: Device, a: seq<I.Call>, b: seq<I.Call>)
    ensures var (card', device') := I.Run(card, device, a);
            I.Run(card, device, a + b) == I.Run(card', device', b)
    decreases a
  {
    hide I.Step;
    if a == [] {
      assert a + b == b;
    } else {
      var (card', device') := I.Step(card, device, a[0]);
      assert (a + b)[1..] == a[1..] + b;
      RunOfBoth(card', device', a[1..], b);
    }
  }

  lemma {:induction false} RunIsCalls(e: Engine, events: seq<Event>)
    requires e.Valid()
    ensures var last := Final(e, events); (last.card, last.device) == I.Run(e.card, e.device, CallsOfRun(e, events))
    decreases events
  {
    hide Step, CallsOf;
    if events != [] {
      var e' := Step(e, events[0]).0;
      StepIsCalls(e, events[0]);
      RunIsCalls(e', events[1..]);
      RunOfBoth(e.card, e.device, CallsOf(e, events[0]), CallsOfRun(e', events[1..]));
    }
  }

  /** From power-up, no byte stream makes the card touch its backend before a CMD55 and an accepted CMD41. */
  lemma NoEngineAccessBeforeInitialisation(cardType: CardType, device: Device, events: seq<Event>)
    ensures var card := C.NewCard(cardType, device);
            var calls := CallsOfRun(NewEngine(card, device), events);
            var last := Final(NewEngine(card, device), events);
            && (last.card, last.device) == I.Run(card, device, calls)
            && I.EveryAccessIsInitialised(I.Seen(false, false), card, device, calls)
  {
    hide CallsOfRun, Final, I.Run;
    var card := C.NewCard(cardType, device);
    var e := NewEngine(card, device);
    RunIsCalls(e, events);
    I.NoAccessBeforeInitialisation(cardType, device, CallsOfRun(e, events));
  }

  // ---- Chip-select release is a clean cut ---------------------------------------

  /** Engines that differ at most in what a released engine no longer looks at. */
  ghost predicate Alike(a: Engine, b: Engine) {
    && a.card == b.card && a.device == b.device && a.frame == b.frame
    && a.writePending == b.writePending
    && (a.writePending ==> a.pendingBlock == b.pendingBlock && a.pendingCrc == b.pendingCrc)
    && (a.framer == b.framer || (!a.framer.Receiving() && !b.framer.Receiving()))
  }

  lemma DataByteAlike(a: Engine, b: Engine, byte: bv8)
    requires a.Valid() && b.Valid() && Alike(a, b) && a.framer == b.framer
    ensures Alike(a.PushDataByte(byte).0, b.PushDataByte(byte).0)
    ensures a.PushDataByte(byte).1 == b.PushDataByte(byte).1
  {
    hide DataFramer.Push, C.Card.WriteBlock, C.Card.FinishMultiWrite;
  }

  lemma CommandAlike(a: Engine, b: Engine, byte: bv8)
    requires a.Valid() && b.Valid() && Alike(a, b) && !a.framer.Receiving() && !b.framer.Receiving()
    ensures Alike(a.PushCommand(byte).0, b.PushCommand(byte).0)
    ensures a.PushCommand(byte).1 == b.PushCommand(byte).1
  {
    hide PushCommandByte, C.Card.Execute, CommandOutput;
  }

  lemma PollAlike(a: Engine, b: Engine)
    requires Alike(a, b)
    ensures Alike(a.PollPendingIo().0, b.PollPendingIo().0)
    ensures a.PollPendingIo().1 == b.PollPendingIo().1
  {
    hide C.Card.WriteBlock, C.Card.RetryPendingRead, Framed;
  }

  lemma NextBlockAlike(a: Engine, b: Engine)
    requires Alike(a, b)
    ensures Alike(a.NextMultiReadBlock().0, b.NextMultiReadBlock().0)
    ensures a.NextMultiReadBlock().1 == b.NextMultiReadBlock().1
  {
    hide C.Card.ReadNextMultiBlock, Framed;
  }

  lemma ReleaseAlike(a: Engine, b: Engine)
    requires a.card == b.card && a.device == b.device
    ensures Alike(a.ChipSelectReleased(), b.ChipSelectReleased())
  {
    hide C.Card.AbortPendingWrite;
  }

  lemma ByteAlike(a: Engine, b: Engine, byte: bv8)
    requires a.Valid() && b.Valid() && Alike(a, b)
    ensures Alike(a.PushByte(byte).0, b.PushByte(byte).0)
    ensures a.PushByte(byte).1 == b.PushByte(byte).1
  {
    hide Engine.PushDataByte, Engine.PushCommand, Engine.Valid, Alike;
    if a.framer.Receiving() {
      assert b.framer.Receiving() && a.framer == b.framer by { AlikeFramers(a, b); }
      DataByteAlike(a, b, byte);
    } else {
      assert !b.framer.Receiving() by { AlikeFramers(a, b); }
      CommandAlike(a, b, byte);
    }
  }

  lemma AlikeFramers(a: Engine, b: Engine)
    requires Alike(a, b)
    ensures a.framer.Receiving() == b.framer.Receiving()
    ensures a.framer.Receiving() ==> a.framer == b.framer
  {}

  lemma StepAlike(a: Engine, b: Engine, event: Event)
    requires a.Valid() && b.Valid() && Alike(a, b)
    ensures Alike(Step(a, event).0, Step(b, event).0)
    ensures Step(a, event).1 == Step(b, event).1
  {
    hide Engine.PushByte, Engine.NextMultiReadBlock, Engine.PollPendingIo, Engine.ChipSelectReleased, C.Card.RefreshCapacity;
    match event {
      case Byte(byte) => ByteAlike(a, b, byte);
      case Release => ReleaseAlike(a, b);
      case NextBlock => NextBlockAlike(a, b);
      case Poll => PollAlike(a, b);
      case Refresh =>
    }
  }

  lemma {:induction false} RunAlike(a: Engine, b: Engine, events: seq<Event>)
    requires a.Valid() && b.Valid() && Alike(a, b)
    ensures Outputs(a, events) == Outputs(b, events)
    ensures Alike(Final(a, events), Final(b, events))
    decreases events
  {
    hide Step;
    if events != [] {
      StepAlike(a, b, events[0]);
      RunAlike(Step(a, events[0]).0, Step(b, events[0]).0, events[1..]);
    }
  }

  /**
   * Whatever two engines had received before, once both are released with equal cards and backends
   * they answer every later event alike and do the same to the backend.
   */
  lemma ReleaseIsCleanCut(a: Engine, b: Engine, events: seq<Event>)
    requires a.Valid() && b.Valid() && a.card == b.card && a.device == b.device
    ensures Outputs(a.ChipSelectReleased(), events) == Outputs(b.ChipSelectReleased(), events)
    ensures Final(a.ChipSelectReleased(), events).device == Final(b.ChipSelectReleased(), events).device
    ensures Final(a.ChipSelectReleased(), events).card == Final(b.ChipSelectReleased(), events).card
  {
    assert a.ChipSelectReleased() == Step(a, Release).0 && b.ChipSelectReleased() == Step(b, Release).0;
    RunAlike(a.ChipSelectReleased(), b.ChipSelectReleased(), events);
  }

  /** The bytes a data block in progress still needs. */
  function BytesLeft(framer: DataFramer): nat
    requires framer.Valid() && framer.phase in {Payload, CrcHigh, CrcLow}
  {
    match framer.phase
    case Payload => BLOCK_SIZE - |framer.payload| + 2
    case CrcHigh => 2
    case _ => 1
  }

  function Bytes(bytes: seq<bv8>): (events: seq<Event>)
    ensures |events| == |bytes|
  {
    seq(|bytes|, i requires 0 <= i < |bytes| => Byte(bytes[i]))
  }

  /** A data block cut by a release before its last CRC byte leaves no trace in the backend. */
  lemma {:induction false} CutBlockIsDropped(e: Engine, bytes: seq<bv8>)
    requires e.Valid() && e.framer.phase in {Payload, CrcHigh, CrcLow} && |bytes| < BytesLeft(e.framer)
    ensures Final(e, Bytes(bytes) + [Release]) == Final(e, Bytes(bytes)).ChipSelectReleased()
    ensures Final(e, Bytes(bytes) + [Release]).device == e.device
    ensures Final(e, Bytes(bytes) + [Release]).card == e.card.AbortPendingWrite()
    decreases bytes
  {
    var events := Bytes(bytes) + [Release];
    if bytes == [] {
      assert events == [Release];
      assert events[1..] == [];
    } else {
      var e' := Step(e, Byte(bytes[0])).0;
      assert e'.device == e.device && e'.card == e.card && e'.framer.phase in {Payload, CrcHigh, CrcLow};
      assert |bytes[1..]| < BytesLeft(e'.framer);
      CutBlockIsDropped(e', bytes[1..]);
      assert events[1..] == Bytes(bytes[1..]) + [Release];
      assert Bytes(bytes)[1..] == Bytes(bytes[1..]);
    }
  }
}
