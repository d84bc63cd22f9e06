/**
 * What the card says about itself, byte by byte on the wire: its registers, its status and the echo
 * of CMD8; and the command CRC, checked exactly between an accepted CMD59 and the next one or CMD0.
 */
module CardAnswers {
  import opened Basics
  import opened Crc
  import T = CrcTheory
  import opened SdCommand
  import opened SdRegisters
  import opened BlockDevice
  import C = SdCardModel
  import I = CardInitialisation
  import opened SdSpiFramers
  import opened SdSpiCardEngine
  import R = EngineRuns
  import opened CardSession

  // ---- The registers belong to the backend in every run ----------------------------

  /** The registers of a card in front of this many blocks. */
  ghost predicate Presents(card: C.Card, device: Device) {
    card.registers == MakeRegisters(card.cardType, |device.blocks| % 0x1_0000_0000)
  }

  /** What no call but RefreshCapacity and CMD59 or CMD0 can change. */
  ghost predicate Same(card: C.Card, device: Device, card': C.Card, device': Device) {
    && card'.registers == card.registers && card'.cardType == card.cardType
    && |device'.blocks| == |device.blocks| && card'.commandCrcEnabled == card.commandCrcEnabled
  }

  lemma TransitionKeeps(card: C.Card, device: Device, transition: C.Transition)
    ensures Same(card, device, card.Take(transition), device)
  {}

  lemma ResetKeeps(card: C.Card, device: Device)
    ensures Same(card.(commandCrcEnabled := false), device, card.Reset(), device)
  {}

  lemma BeginReadKeeps(card: C.Card, device: Device, lba: nat, multi: bool)
    ensures var done := card.BeginRead(device, lba, multi); Same(card, device, done.card, done.device)
  {}

  lemma BeginWriteKeeps(card: C.Card, device: Device, lba: nat, multi: bool)
    ensures Same(card, device, card.BeginWrite(lba, multi), device)
  {}

  lemma ExecuteDataKeeps(card: C.Card, device: Device, command: Command)
    ensures var done := card.ExecuteData(device, command); Same(card, device, done.card, done.device)
  {
    hide C.Card.BeginRead, C.Card.BeginWrite, C.Card.Take, WordResponse, C.Card.Ocr32, C.Card.CommandLba, C.Card.R1Status;
    TransitionKeeps(card, device, C.BeginTransfer);
    var lba := card.CommandLba(command.argument);
    if lba.Some? {
      BeginReadKeeps(card, device, lba.value, command.index == 18);
      BeginWriteKeeps(card, device, lba.value, command.index == 25);
    }
  }

  /** Whether the command line's CRC is checked after a command. */
  predicate Checking(card: C.Card, command: Command) {
    if command.index == 0 then false
    else if command.index == 59 && command.argument <= 1 && card.state != C.PowerUp && card.state != C.Fault
    then command.argument == 1
    else card.commandCrcEnabled
  }

  lemma OtherCommandsKeep(card: C.Card, device: Device, command: Command)
    requires !card.IsReset(command) && !card.IsCrcSwitch(command)
    ensures var done := card.Dispatch(device, command); Same(card, device, done.card, done.device)
  {
    hide C.Card.ExecuteData, C.Card.Take, WordResponse, C.Card.R1Status, C.Card.IsInitialise, C.Card.IsPreErase;
    TransitionKeeps(card, device, C.MakeReady);
    ExecuteDataKeeps(card, device, command);
  }

  lemma DispatchKeeps(card: C.Card, device: Device, command: Command)
    ensures var done := card.Dispatch(device, command);
            Same(card.(commandCrcEnabled := Checking(card, command)), device, done.card, done.device)
  {
    hide C.Card.ExecuteData, C.Card.Take, WordResponse, C.Card.R1Status, C.Card.Reset;
    ResetKeeps(card, device);
    if !card.IsReset(command) && !card.IsCrcSwitch(command) {
      hide C.Card.Dispatch;
      OtherCommandsKeep(card, device, command);
    }
  }

  lemma ExecuteKeeps(card: C.Card, device: Device, command: Command)
    ensures var done := card.Execute(device, command);
            Same(card.(commandCrcEnabled := Checking(card, command)), device, done.card, done.device)
  {
    hide C.Card.Dispatch;
    var keepsPrefix := command.index == 55 || command.index == 41 || command.index == 23;
    DispatchKeeps(card.(appCommandPending := keepsPrefix && card.appCommandPending), device, command);
  }

  lemma RetryKeeps(card: C.Card, device: Device)
    ensures var (card', device', _, _) := card.RetryPendingRead(device); Same(card, device, card', device')
  {}

  lemma NextBlockKeeps(card: C.Card, device: Device)
    ensures var (card', device', _) := card.ReadNextMultiBlock(device); Same(card, device, card', device')
  {}

  lemma WrittenKeeps(card: C.Card, device: Device, answer: BlockOperation)
    ensures Same(card, device, card.Written(answer).0, device)
  {
    hide DataResponse;
  }

  lemma WriteKeeps(card: C.Card, device: Device, block: Block, crc: bv16)
    ensures var (card', device', _) := card.WriteBlock(device, block, crc); Same(card, device, card', device')
  {
    hide C.Card.Written, C.Card.Accepts;
    var answer := device.Write(card.pendingWriteLba, block).1;
    WrittenKeeps(card, device, answer);
    assert |device.Write(card.pendingWriteLba, block).0.blocks| == |device.blocks|;
  }

  /** A step keeps what it does not set: RefreshCapacity sets the registers, a command may switch checking. */
  lemma StepKeeps(card: C.Card, device: Device, call: I.Call)
    ensures var (card', device') := I.Step(card, device, call);
            var checking := if call.Execute? then Checking(card, call.command) else card.commandCrcEnabled;
            var registers := if call.RefreshCapacity? then card.RefreshCapacity(device).registers else card.registers;
            Same(card.(commandCrcEnabled := checking, registers := registers), device, card', device')
  {
    hide C.Card.Execute, C.Card.WriteBlock, C.Card.RetryPendingRead, C.Card.ReadNextMultiBlock, MakeRegisters, Checking;
    match call
    case Execute(command) => ExecuteKeeps(card, device, command);
    case RetryPendingRead => RetryKeeps(card, device);
    case ReadNextMultiBlock => NextBlockKeeps(card, device);
    case WriteBlock(block, crc) => WriteKeeps(card, device, block, crc);
    case _ =>
  }

  lemma StepPresents(card: C.Card, device: Device, call: I.Call)
    requires Presents(card, device)
    ensures var (card', device') := I.Step(card, device, call);
            Presents(card', device') && card'.cardType == card.cardType && |device'.blocks| == |device.blocks|
  {
    hide I.Step, MakeRegisters, Checking;
    StepKeeps(card, device, call);
  }

  lemma {:induction false} RunPresents(card: C.Card, device: Device, calls: seq<I.Call>)
    requires Presents(card, device)
    ensures var (card', device') := I.Run(card, device, calls);
            Presents(card', device') && card'.cardType == card.cardType && |device'.blocks| == |device.blocks|
    decreases calls
  {
    hide I.Step, Presents;
    if calls != [] {
      StepPresents(card, device, calls[0]);
      var (card', device') := I.Step(card, device, calls[0]);
      RunPresents(card', device', calls[1..]);
    }
  }

  /** From power-up, whatever arrives, the registers are those of the card type and the number of blocks. */
  lemma EveryRunPresents(cardType: CardType, device: Device, events: seq<R.Event>)
    ensures var last := R.Final(NewEngine(C.NewCard(cardType, device), device), events);
            && last.card.cardType == cardType
            && last.card.registers == MakeRegisters(cardType, |device.blocks| % 0x1_0000_0000)
  {
    hide R.Final, I.Run, MakeRegisters;
    var card := C.NewCard(cardType, device);
    var e := NewEngine(card, device);
    R.RunIsCalls(e, events);
    RunPresents(card, device, R.CallsOfRun(e, events));
  }

  /** A backend of another size is presented after the next refresh, whatever the card showed before. */
  lemma RefreshPresents(card: C.Card, device: Device)
    ensures var next := card.RefreshCapacity(device);
            && Presents(next, device) && next == card.(registers := next.registers)
            && next.registers.exposedBlocks <= |device.blocks| % 0x1_0000_0000
            && Describes(next.registers.csd, card.cardType, |device.blocks| % 0x1_0000_0000, next.registers.exposedBlocks)
  {
    hide MakeRegisters, Describes;
    ExposesAtMostRequest(card.cardType, |device.blocks| % 0x1_0000_0000);
    RegistersDescribe(card.cardType, |device.blocks| % 0x1_0000_0000);
  }

  // ---- One frame at rest -----------------------------------------------------------

  /** The application prefix is spent by every command that is not CMD55, CMD41 or CMD23. */
  function Unprefixed(card: C.Card): C.Card { card.(appCommandPending := false) }

  lemma FrameIsDecoded(frame: seq<bv8>, index: bv8, argument: U32)
    requires IsCommand(frame, index, argument)
    ensures DecodeCommand(frame, true).value == Command(index, argument, frame[5])
    ensures argument == BigEndian(frame[1], frame[2], frame[3], frame[4])
  {
    hide BigEndian, Crc7CommandByte;
  }

  /** A command that answers a response alone. */
  lemma Answers(e: Engine, frame: seq<bv8>, index: bv8, argument: U32, card: C.Card, response: seq<bv8>)
    requires e.Valid() && AtRest(e) && IsCommand(frame, index, argument) && index != 24 && index != 25
    requires e.card.Execute(e.device, Command(index, argument, frame[5])) == C.Executed(card, e.device, C.Answer(response))
    ensures Send(e, frame) == (e.(card := card), [Output(response, false)])
  {
    hide Send, DecodeCommand, C.Card.Execute, CommandOutput;
    SendCommand(e, frame, index, argument);
    FrameIsDecoded(frame, index, argument);
    PlainOutput(response);
  }

  /** CMD8 to an idle card: the status and the four argument bytes as they came. */
  lemma InterfaceConditionEchoes(e: Engine, frame: seq<bv8>, argument: U32)
    requires e.Valid() && AtRest(e) && IsCommand(frame, 8, argument) && e.card.state == C.Idle
    ensures Send(e, frame) == (e.(card := Unprefixed(e.card)), [Output([0x01] + frame[1..5], false)])
  {
    hide Send, DecodeCommand, WordResponse, BigEndian;
    FrameIsDecoded(frame, 8, argument);
    WordResponseEchoes(0x01, frame[1], frame[2], frame[3], frame[4]);
    assert [0x01] + frame[1..5] == [0x01, frame[1], frame[2], frame[3], frame[4]];
    Answers(e, frame, 8, argument, Unprefixed(e.card), [0x01] + frame[1..5]);
  }

  /** CMD13: two status bytes, the first telling whether the card is idle. */
  lemma StatusIsSent(e: Engine, frame: seq<bv8>, argument: U32)
    requires e.Valid() && AtRest(e) && IsCommand(frame, 13, argument)
    ensures Send(e, frame)
         == (e.(card := Unprefixed(e.card)),
             [Output(if e.card.state == C.PowerUp || e.card.state == C.Fault then [0x04]
                     else if e.card.state == C.Idle then [0x01, 0x00] else [0x00, 0x00], false)])
  {
    hide Send, DecodeCommand, WordResponse, BigEndian;
    assert R1_ILLEGAL_COMMAND | 0 == 0x04;
    Answers(e, frame, 13, argument, Unprefixed(e.card),
            if e.card.state == C.PowerUp || e.card.state == C.Fault then [0x04]
            else if e.card.state == C.Idle then [0x01, 0x00] else [0x00, 0x00]);
  }

  lemma OcrWord(cardType: CardType)
    ensures var ocr := Ocr(cardType);
            WordResponse(0, BigEndian(ocr[0], ocr[1], ocr[2], ocr[3]))
            == [0x00, if cardType == Sdhc then 0x40 else 0x00, 0xff, 0x80, 0x00]
  {
    hide WordResponse, BigEndian;
    var ocr := Ocr(cardType);
    WordResponseEchoes(0, ocr[0], ocr[1], ocr[2], ocr[3]);
  }

  /** CMD58: the voltage window 2.7 to 3.6 V, and the card-capacity bit exactly on an SDHC card. */
  lemma OcrIsSent(e: Engine, frame: seq<bv8>, argument: U32)
    requires e.Valid() && AtRest(e) && IsCommand(frame, 58, argument) && e.card.Open() && Presents(e.card, e.device)
    ensures Send(e, frame)
         == (e.(card := Unprefixed(e.card)),
             [Output([0x00, if e.card.cardType == Sdhc then 0x40 else 0x00, 0xff, 0x80, 0x00], false)])
  {
    hide Send, DecodeCommand, WordResponse, BigEndian, SdhcLayout, SdscLayout;
    OcrWord(e.card.cardType);
    Answers(e, frame, 58, argument, Unprefixed(e.card),
            [0x00, if e.card.cardType == Sdhc then 0x40 else 0x00, 0xff, 0x80, 0x00]);
  }

  /** A register on the wire: R1, the start token, the sixteen bytes and their CRC16, high byte first. */
  function RegisterOnWire(register: Register): Output {
    Output([0x00, 0xfe] + register + [(Crc16(register) >> 8) as bv8, (Crc16(register) & 0xff) as bv8], false)
  }

  lemma RegisterOutput(register: Register)
    ensures CommandOutput(C.ModelResult([0], None, Some(register))) == RegisterOnWire(register)
  {
    var tail := [(Crc16(register) >> 8) as bv8, (Crc16(register) & 0xff) as bv8];
    assert [0] + [] + ([0xfe] + register + tail) == [0x00, 0xfe] + register + tail;
  }

  lemma RegisterIsSent(e: Engine, frame: seq<bv8>, index: bv8, argument: U32)
    requires e.Valid() && AtRest(e) && IsCommand(frame, index, argument) && (index == 9 || index == 10) && e.card.Open()
    ensures Send(e, frame)
         == (e.(card := Unprefixed(e.card).(state := C.Transfer)),
             [RegisterOnWire(if index == 9 then e.card.registers.csd else e.card.registers.cid)])
  {
    hide Send, DecodeCommand, CommandOutput, RegisterOnWire, WordResponse, BigEndian;
    SendCommand(e, frame, index, argument);
    FrameIsDecoded(frame, index, argument);
    RegisterOutput(if index == 9 then e.card.registers.csd else e.card.registers.cid);
  }

  /** What a reader of the CSD finds in it: the capacity the card exposes, in blocks of 512 bytes. */
  ghost predicate Describes(csd: Register, cardType: CardType, requested: U32, exposed: nat) {
    && (exposed == 0 ==> forall i | 0 <= i < 16 :: csd[i] == 0)
    && (exposed != 0 ==> Field(csd, 80, 4) == 9)
    && (cardType == Sdhc ==> DriverBlocks(csd) == if exposed == 0 then None else Some(exposed))
    && (cardType == Sdsc ==>
          Structure(csd) == 0 && (exposed != 0 ==> (Version1Blocks(csd) == exposed <==> requested < 1024)))
  }

  lemma RegistersDescribe(cardType: CardType, requested: U32)
    ensures var registers := MakeRegisters(cardType, requested);
            Describes(registers.csd, cardType, requested, registers.exposedBlocks)
  {
    hide Field, Power2, SdhcCsd, SdscCsd, DriverBlocks, Version1Blocks, UnitBlocks, FirstFit;
    if cardType == Sdhc {
      SdhcRoundTrip(requested);
      if requested / GROUP_BLOCKS != 0 {
        SdhcFields(requested / GROUP_BLOCKS);
      }
    } else if 16 <= requested < 4097 * 2048 {
      hide Structure;
      var m := LargestUnit(requested);
      SdscCapacity(requested, m);
      FirstFitIsLargestUnit(requested, m);
      SdscFields(requested / UnitBlocks(m), m);
    } else {
      SdscTooSmallOrLarge(requested);
      var found := FirstFit(requested, 9);
      if found.Some? {
        Multiply(requested / UnitBlocks(found.value), UnitBlocks(found.value));
      }
      StructureOfNoCsd();
    }
  }

  lemma Multiply(units: nat, unit: nat)
    requires units > 0 && unit > 0
    ensures units * unit > 0
  {}

  /** CMD9: the bytes on the wire carry a correct CRC16 and the capacity the card exposes. */
  lemma CsdIsSent(e: Engine, frame: seq<bv8>, argument: U32)
    requires e.Valid() && AtRest(e) && IsCommand(frame, 9, argument) && e.card.Open() && Presents(e.card, e.device)
    ensures var (last, outputs) := Send(e, frame);
            && |outputs| == 1 && !outputs[0].busy && |outputs[0].bytes| == 20
            && outputs[0].bytes[..2] == [0x00, 0xfe] && Crc16(outputs[0].bytes[2..]) == 0
            && Describes(outputs[0].bytes[2..18], e.card.cardType, |e.device.blocks| % 0x1_0000_0000, e.card.registers.exposedBlocks)
            && last == e.(card := Unprefixed(e.card).(state := C.Transfer))
  {
    hide Send, DecodeCommand, Describes, MakeRegisters, Crc16;
    var csd := e.card.registers.csd;
    RegisterIsSent(e, frame, 9, argument);
    RegistersDescribe(e.card.cardType, |e.device.blocks| % 0x1_0000_0000);
    WireParts(csd);
  }

  lemma WireParts(register: Register)
    ensures var bytes := RegisterOnWire(register).bytes;
            |bytes| == 20 && bytes[..2] == [0x00, 0xfe] && bytes[2..18] == register && Crc16(bytes[2..]) == 0
  {
    hide Crc16;
    var bytes := RegisterOnWire(register).bytes;
    T.Crc16Residue(register);
    assert bytes[2..] == register + [Crc16High(Crc16(register)), Crc16Low(Crc16(register))];
  }

  /** CMD10: manufacturer 0x50, application "SD", product "EMU00", revision 0.1, serial number 1. */
  lemma CidIsSent(e: Engine, frame: seq<bv8>, argument: U32)
    requires e.Valid() && AtRest(e) && IsCommand(frame, 10, argument) && e.card.Open() && Presents(e.card, e.device)
    ensures Send(e, frame)
         == (e.(card := Unprefixed(e.card).(state := C.Transfer)),
             [RegisterOnWire([0x50, 0x53, 0x44, 0x45, 0x4d, 0x55, 0x30, 0x30, 0x01, 0x00, 0x00, 0x00, 0x01, 0x26, 0x01, 0x00])])
  {
    hide Send, DecodeCommand, RegisterOnWire, SdhcLayout, SdscLayout;
    RegisterIsSent(e, frame, 10, argument);
  }

  /** Neither register ends in the end bit of section 5.2 and 5.3, so neither carries its CRC7, whatever the card. */
  lemma RegistersCarryNoCrc7(cardType: CardType, requested: U32)
    ensures var registers := MakeRegisters(cardType, requested);
            && registers.csd[15] != Crc7CommandByte(registers.csd[..15])
            && registers.cid[15] != Crc7CommandByte(registers.cid[..15])
  {
    hide Crc7, Power2, SdhcCsd, SdscCsd, UnitBlocks, FirstFit, NoCsd, RegisterBit;
    var registers := MakeRegisters(cardType, requested);
    var groups, found := requested / GROUP_BLOCKS, FirstFit(requested, 9);
    NoCsdBits(0);
    if cardType == Sdhc {
      if groups > 0 { SdhcEnd(groups); }
    } else if found.Some? {
      SdscEnd(requested / UnitBlocks(found.value), found.value);
    }
    BitZero(registers.csd);
    BitZero(registers.cid);
    CidEnd();
    NoEndBit(registers.csd[15], Crc7(registers.csd[..15]));
    NoEndBit(registers.cid[15], Crc7(registers.cid[..15]));
  }

  lemma SdhcEnd(groups: nat)
    requires groups > 0
    ensures RegisterBit(SdhcCsd(groups), 0) == 0
  {
    hide RegisterBit, SetBits, NoCsd;
    var one := SetBits(NoCsd(), 126, 2, 1);
    var two := SetBits(one, 80, 4, 9);
    NoCsdBits(0);
    SetBitsAt(NoCsd(), 126, 2, 1, 0);
    SetBitsAt(one, 80, 4, 9, 0);
    SetBitsAt(two, 48, 22, groups - 1, 0);
  }

  lemma SdscEnd(units: nat, multiplier: nat)
    requires units > 0
    ensures RegisterBit(SdscCsd(units, multiplier), 0) == 0
  {
    hide RegisterBit, SetBits, NoCsd;
    var one := SetBits(NoCsd(), 126, 2, 0);
    var two := SetBits(one, 80, 4, 9);
    var three := SetBits(two, 62, 12, units - 1);
    NoCsdBits(0);
    SetBitsAt(NoCsd(), 126, 2, 0, 0);
    SetBitsAt(one, 80, 4, 9, 0);
    SetBitsAt(two, 62, 12, units - 1, 0);
    SetBitsAt(three, 47, 3, multiplier, 0);
  }

  lemma BitZero(register: Register)
    ensures RegisterBit(register, 0) == 0 <==> register[15] & 1 == 0
  {}

  lemma CidEnd()
    ensures RegisterBit(CID, 0) == 0
  {}

  lemma NoEndBit(byte: bv8, crc: bv8)
    requires byte & 1 == 0
    ensures byte != (crc << 1) | 1
  {
    EndBit(crc);
  }

  // ---- Which frames are refused ----------------------------------------------------

  /** A frame the card refuses: no end bit, or, once checking is on, a last byte that is not the CRC7 of the rest. */
  predicate Refused(frame: seq<bv8>, checked: bool)
    requires |frame| == COMMAND_FRAME_SIZE
  {
    frame[5] & 0x01 == 0 || (checked && frame[5] != (Crc7(frame[..5]) << 1) | 1)
  }

  /** A refused frame is answered with the CRC error alone and changes nothing; any other is executed as it reads. */
  lemma FrameIsChecked(e: Engine, frame: seq<bv8>)
    requires e.Valid() && AtRest(e) && |frame| == COMMAND_FRAME_SIZE && frame[0] & 0xc0 == 0x40
    ensures if Refused(frame, e.card.commandCrcEnabled) then Send(e, frame) == (e, [Output([0x08], false)])
            else
              var (done, output) :=
                e.ExecuteCommand(Command(frame[0] & 0x3f, BigEndian(frame[1], frame[2], frame[3], frame[4]), frame[5]));
              output.Some? && Send(e, frame) == (done, [output.value])
  {
    hide Send, C.Card.Execute, CommandOutput, Crc7, BigEndian;
    SendFrame(e, frame);
  }

  lemma DataIgnoresCrcByte(card: C.Card, device: Device, command: Command, crcByte: bv8)
    ensures card.ExecuteData(device, command.(crcByte := crcByte)) == card.ExecuteData(device, command)
  {
    hide WordResponse, C.Card.BeginRead, C.Card.BeginWrite, C.Card.Ocr32, C.Card.CommandLba;
  }

  lemma DispatchIgnoresCrcByte(card: C.Card, device: Device, command: Command, crcByte: bv8)
    ensures card.Dispatch(device, command.(crcByte := crcByte)) == card.Dispatch(device, command)
  {
    hide WordResponse, C.Card.ExecuteData, C.Card.Reset, C.Card.Take;
    DataIgnoresCrcByte(card, device, command, crcByte);
  }

  /** The only thing a command's CRC byte decides is whether the frame is refused. */
  lemma CrcByteIsUnused(e: Engine, command: Command, crcByte: bv8)
    requires e.Valid()
    ensures e.ExecuteCommand(command.(crcByte := crcByte)) == e.ExecuteCommand(command)
  {
    hide C.Card.Dispatch, CommandOutput, DataFramer.Begin;
    var keepsPrefix := command.index == 55 || command.index == 41 || command.index == 23;
    DispatchIgnoresCrcByte(e.card.(appCommandPending := keepsPrefix && e.card.appCommandPending), e.device, command, crcByte);
  }

  /** With checking off, a frame does what the same frame with its right CRC does. */
  lemma UncheckedFrame(e: Engine, frame: seq<bv8>)
    requires e.Valid() && AtRest(e) && |frame| == COMMAND_FRAME_SIZE && frame[0] & 0xc0 == 0x40 && frame[5] & 0x01 != 0
    requires !e.card.commandCrcEnabled
    ensures Send(e, frame) == Send(e, frame[5 := (Crc7(frame[..5]) << 1) | 1])
  {
    hide Send, Engine.ExecuteCommand, Crc7, BigEndian;
    var right := frame[5 := (Crc7(frame[..5]) << 1) | 1];
    assert right[..5] == frame[..5];
    EndBit(Crc7(frame[..5]));
    FrameIsChecked(e, frame);
    FrameIsChecked(e, right);
    CrcByteIsUnused(e, Command(frame[0] & 0x3f, BigEndian(frame[1], frame[2], frame[3], frame[4]), frame[5]), right[5]);
  }

  lemma EndBit(crc: bv8)
    ensures ((crc << 1) | 1) & 0x01 != 0
  {}

  lemma SameCrcByte(a: bv8, b: bv8)
    requires a < 128 && b < 128
    ensures (a << 1) | 1 == (b << 1) | 1 <==> a == b
  {}

  /**
   * With checking on, a good frame with one damaged byte is executed exactly when the byte is one of
   * the four of the argument and the damage is the generator polynomial, 0x89.
   */
  lemma DamagedFrame(frame: seq<bv8>, k: nat, damaged: bv8)
    requires |frame| == COMMAND_FRAME_SIZE && !Refused(frame, true) && k < COMMAND_FRAME_SIZE && damaged != frame[k]
    ensures !Refused(frame[k := damaged], true) <==> k < 5 && frame[k] ^ damaged == 0x89
    ensures k == 0 && frame[0] & 0xc0 == 0x40 && frame[0] ^ damaged == 0x89 ==> damaged & 0xc0 != 0x40
  {
    hide Crc7;
    var other := frame[k := damaged];
    EndBit(Crc7(frame[..5]));
    if k < 5 {
      assert frame[..5] == frame[..k] + [frame[k]] + frame[k + 1..5];
      assert other[..5] == frame[..k] + [damaged] + frame[k + 1..5];
      T.Crc7OneByte(frame[..k], frame[k], damaged, frame[k + 1..5]);
      SmallCrc7(frame[..5]);
      SmallCrc7(other[..5]);
      SameCrcByte(Crc7(frame[..5]), Crc7(other[..5]));
    } else {
      assert other[..5] == frame[..5];
    }
    StartLost(frame[0], damaged);
  }

  lemma SmallCrc7(data: seq<bv8>)
    ensures Crc7(data) < 128
  {
    T.Crc7FromInjective(0, 0, data);
  }

  lemma StartLost(byte: bv8, damaged: bv8)
    ensures byte & 0xc0 == 0x40 && byte ^ damaged == 0x89 ==> damaged & 0xc0 != 0x40
  {}

  // ---- CMD59 over byte streams and runs --------------------------------------------

  /** CMD59 switches checking by its argument, 0 or 1, and changes nothing else. */
  lemma CheckingIsSwitched(e: Engine, frame: seq<bv8>, argument: U32)
    requires e.Valid() && AtRest(e) && IsCommand(frame, 59, argument)
    ensures Send(e, frame)
         == if e.card.state == C.PowerUp || e.card.state == C.Fault || argument > 1
            then (e.(card := Unprefixed(e.card)), [Output([if e.card.state == C.Idle then 0x05 else 0x04], false)])
            else (e.(card := Unprefixed(e.card).(commandCrcEnabled := argument == 1)),
                  [Output([if e.card.state == C.Idle then 0x01 else 0x00], false)])
  {
    hide Send, DecodeCommand, WordResponse, BigEndian;
    assert R1_ILLEGAL_COMMAND | 0 == 0x04 && R1_ILLEGAL_COMMAND | R1_IDLE == 0x05;
    var refused := e.card.state == C.PowerUp || e.card.state == C.Fault || argument > 1;
    var card := if refused then Unprefixed(e.card) else Unprefixed(e.card).(commandCrcEnabled := argument == 1);
    var idle := e.card.state == C.Idle;
    Answers(e, frame, 59, argument, card,
            [if refused then (if idle then 0x05 else 0x04) else if idle then 0x01 else 0x00]);
  }

  /** After CMD59 with argument 1, a command frame damaged in one byte is refused, and the card stays as it was. */
  lemma DamagedFrameIsRefused(e: Engine, switch: seq<bv8>, frame: seq<bv8>, k: nat, damaged: bv8)
    requires e.Valid() && AtRest(e) && IsCommand(switch, 59, 1) && e.card.state != C.PowerUp && e.card.state != C.Fault
    requires |frame| == COMMAND_FRAME_SIZE && frame[0] & 0xc0 == 0x40 && !Refused(frame, true)
    requires k < COMMAND_FRAME_SIZE && damaged != frame[k] && frame[k] ^ damaged != 0x89
    requires k == 0 ==> damaged & 0xc0 == 0x40
    ensures var (last, outputs) := Send(e, switch + frame[k := damaged]);
            && last == e.(card := Unprefixed(e.card).(commandCrcEnabled := true))
            && outputs == [Output([if e.card.state == C.Idle then 0x01 else 0x00], false), Output([0x08], false)]
  {
    hide Send, Refused, IsCommand;
    CheckingIsSwitched(e, switch, 1);
    var on := e.(card := Unprefixed(e.card).(commandCrcEnabled := true));
    DamagedFrame(frame, k, damaged);
    FrameIsChecked(on, frame[k := damaged]);
    SendPair(e, switch, frame[k := damaged], on, on,
             [Output([if e.card.state == C.Idle then 0x01 else 0x00], false)], [Output([0x08], false)]);
  }

  /** A call that switches checking off: CMD0, or CMD59 with argument 0. */
  predicate TurnsOff(call: I.Call) {
    call.Execute? && (call.command.index == 0 || (call.command.index == 59 && call.command.argument == 0))
  }

  predicate TurnsOn(call: I.Call) { call.Execute? && call.command.index == 59 && call.command.argument == 1 }

  lemma StepKeepsChecking(card: C.Card, device: Device, call: I.Call)
    ensures var after := I.Step(card, device, call).0.commandCrcEnabled;
            && (card.commandCrcEnabled && !TurnsOff(call) ==> after)
            && (!card.commandCrcEnabled && !TurnsOn(call) ==> !after)
  {
    hide I.Step;
    StepKeeps(card, device, call);
  }

  lemma {:induction false} RunKeepsChecking(card: C.Card, device: Device, calls: seq<I.Call>)
    ensures var after := I.Run(card, device, calls).0.commandCrcEnabled;
            && (card.commandCrcEnabled && (forall call <- calls :: !TurnsOff(call)) ==> after)
            && (!card.commandCrcEnabled && (forall call <- calls :: !TurnsOn(call)) ==> !after)
    decreases calls
  {
    hide I.Step, TurnsOn, TurnsOff;
    if calls != [] {
      StepKeepsChecking(card, device, calls[0]);
      var (card', device') := I.Step(card, device, calls[0]);
      RunKeepsChecking(card', device', calls[1..]);
      assert forall call <- calls[1..] :: call in calls;
    }
  }

  /** In every run checking stays on until CMD0 or CMD59 with argument 0, and off until CMD59 with argument 1. */
  lemma CheckingFollowsSwitches(e: Engine, events: seq<R.Event>)
    requires e.Valid()
    ensures var calls := R.CallsOfRun(e, events);
            var after := R.Final(e, events).card.commandCrcEnabled;
            && (e.card.commandCrcEnabled && (forall call <- calls :: !TurnsOff(call)) ==> after)
            && (!e.card.commandCrcEnabled && (forall call <- calls :: !TurnsOn(call)) ==> !after)
  {
    hide R.Final, R.CallsOfRun, I.Run, TurnsOn, TurnsOff;
    R.RunIsCalls(e, events);
    RunKeepsChecking(e.card, e.device, R.CallsOfRun(e, events));
  }
}
