/**
 * Reads and writes the backend defers: polls are silent while it is pending, and the first answer
 * that is not is the block of the commanded address, the block stored at its place, or a fault.
 */
module DeferredIo {
  import opened Basics
  import opened Crc
  import opened SdCommand
  import opened BlockDevice
  import C = SdCardModel
  import opened SdSpiFramers
  import opened SdSpiCardEngine
  import opened ArrayRefinement
  import opened CardSession

  // ---- Polls and scripts -----------------------------------------------------------

  /** The engine after n polls, and what each of them answered. */
  function Polls(e: Engine, n: nat): (Engine, seq<Option<Output>>)
    decreases n
  {
    if n == 0 then (e, [])
    else
      var (next, output) := e.PollPendingIo();
      var (last, outputs) := Polls(next, n - 1);
      (last, [output] + outputs)
  }

  function Silence(n: nat): (outputs: seq<Option<Output>>)
    ensures |outputs| == n && forall i :: 0 <= i < n ==> outputs[i] == None
  {
    seq(n, _ => None)
  }

  /** What the backend answers to the k-th call from now on. */
  function FateAt(d: Device, k: nat): BlockOperation { if d.calls + k < |d.script| then d.script[d.calls + k] else Complete }

  predicate PendingFor(d: Device, n: nat) { forall k :: 0 <= k < n ==> FateAt(d, k) == Pending }

  function After(d: Device, n: nat): Device { d.(calls := d.calls + n) }

  /** The engine waits for one deferred transfer: a read, or a write with its block. */
  predicate Waits(e: Engine) {
    e.card.pendingReadActive
    || (e.writePending && e.card.Accepts(e.pendingBlock, e.pendingCrc))
  }

  /** While the backend is pending polls give no output and change nothing but its count of calls. */
  lemma {:induction false} SilentWhilePending(e: Engine, n: nat)
    requires Waits(e) && PendingFor(e.device, n)
    ensures Polls(e, n) == (e.(device := After(e.device, n)), Silence(n))
    decreases n
  {
    hide Crc16, Framed, DataResponse;
    if n > 0 {
      assert FateAt(e.device, 0) == Pending;
      var next := e.(device := After(e.device, 1));
      assert e.PollPendingIo() == (next, None);
      forall k | 0 <= k < n - 1 ensures FateAt(next.device, k) == Pending {
        assert FateAt(e.device, k + 1) == Pending;
      }
      SilentWhilePending(next, n - 1);
      assert [None] + Silence(n - 1) == Silence(n);
    }
  }

  // ---- Deferred reads --------------------------------------------------------------

  /** The wire form of a read block: the start token, the 512 bytes and their CRC16, high byte first. */
  function ReadOnWire(block: Block): Output {
    Output([0xfe] + block + [(Crc16(block) >> 8) as bv8, (Crc16(block) & 0xff) as bv8], false)
  }

  lemma FramedOnWire(block: Block)
    ensures Output(Framed(block), false) == ReadOnWire(block)
  {}

  /** The poll that ends a deferred read: the block the backend holds, or an empty answer and a fault. */
  lemma ReadEnds(e: Engine)
    requires e.card.pendingReadActive && e.device.Fate() != Pending
    ensures var (done, output) := e.PollPendingIo();
            var lba := e.card.pendingReadLba;
            && done.device == After(e.device, 1) && !done.card.pendingReadActive && done.writePending == e.writePending
            && done.frame == e.frame && done.framer == e.framer
            && (if e.device.Fate() == Complete && lba < |e.device.blocks|
                then output == Some(ReadOnWire(e.device.blocks[lba])) && done.card.state == e.card.state
                     && done.card.registers == e.card.registers
                     && (e.card.pendingReadIsMulti ==> done.card.multiReadActive && done.card.nextMultiReadLba == lba + 1)
                else output == Some(Output([], false)) && done.card.state == C.Fault)
  {
    hide Crc16, Framed;
    if e.device.Fate() == Complete && e.card.pendingReadLba < |e.device.blocks| {
      FramedOnWire(e.device.blocks[e.card.pendingReadLba]);
    }
  }

  lemma CardDefers(card: C.Card, device: Device, command: Command, lba: nat)
    requires card.Open() && (command.index == 17 || command.index == 18)
    requires card.CommandLba(command.argument) == Some(lba) && device.Fate() == Pending
    ensures var done := card.Execute(device, command);
            && done.device == After(device, 1) && done.result == C.Answer([0])
            && done.card.pendingReadActive && done.card.pendingReadLba == lba
            && (done.card.pendingReadIsMulti <==> command.index == 18)
            && done.card.state == C.Transfer && done.card.registers == card.registers
  {
    hide WordResponse, BigEndian, C.Card.Reset, C.Card.BeginWrite;
  }

  /** CMD17 or CMD18 to an exposed block while the backend is pending: accepted, and deferred. */
  lemma ReadIsDeferred(e: Engine, command: Command, lba: nat)
    requires e.Valid() && AtRest(e) && e.card.Open() && (command.index == 17 || command.index == 18)
    requires e.card.CommandLba(command.argument) == Some(lba) && e.device.Fate() == Pending
    ensures var (done, output) := e.ExecuteCommand(command);
            && output == Some(Output([0], false)) && done.device == After(e.device, 1)
            && done.card.pendingReadActive && done.card.pendingReadLba == lba
            && (done.card.pendingReadIsMulti <==> command.index == 18)
            && done.card.state == C.Transfer && done.card.registers == e.card.registers && AtRest(done)
            && done.writePending == e.writePending
  {
    hide C.Card.Execute, CommandOutput;
    CardDefers(e.card, e.device, command, lba);
    PlainOutput([0]);
  }

  /**
   * A deferred read on the wire, over any script of the backend: the command is answered R1=0 alone;
   * n polls of a pending backend are silent; the next poll sends exactly the block the backend holds
   * at the commanded address, or an empty answer with the card in Fault if the backend fails; and
   * with no write waiting every later poll is silent.
   */
  lemma DeferredRead(e: Engine, frame: seq<bv8>, index: bv8, argument: U32, lba: nat, n: nat, more: nat)
    requires e.Valid() && AtRest(e) && e.card.Open() && !e.writePending
    requires IsCommand(frame, index, argument) && (index == 17 || index == 18) && e.card.CommandLba(argument) == Some(lba)
    requires PendingFor(e.device, n + 1) && FateAt(e.device, n + 1) != Pending
    ensures var (asked, answers) := Send(e, frame);
            var (waiting, nothing) := Polls(asked, n);
            var (done, output) := waiting.PollPendingIo();
            && answers == [Output([0], false)] && nothing == Silence(n)
            && output == Some(if FateAt(e.device, n + 1) == Complete && lba < |e.device.blocks|
                              then ReadOnWire(e.device.blocks[lba]) else Output([], false))
            && (done.card.state == C.Fault <==> !(FateAt(e.device, n + 1) == Complete && lba < |e.device.blocks|))
            && done.device.blocks == e.device.blocks
            && Polls(done, more) == (done, Silence(more))
  {
    hide Send, Polls, Crc16, ReadOnWire, DecodeCommand, Engine.ExecuteCommand, Engine.PollPendingIo;
    var command := DecodeCommand(frame, true).value;
    SendCommand(e, frame, index, argument);
    assert FateAt(e.device, 0) == Pending;
    ReadIsDeferred(e, command, lba);
    var asked := e.ExecuteCommand(command).0;
    ShiftPending(e.device, n);
    SilentWhilePending(asked, n);
    ReadEnds(Polls(asked, n).0);
    NothingWaits(Polls(asked, n).0.PollPendingIo().0, more);
  }

  lemma CardReadsAtOnce(card: C.Card, device: Device, command: Command, lba: nat)
    requires card.Open() && (command.index == 17 || command.index == 18)
    requires card.CommandLba(command.argument) == Some(lba) && device.Fate() != Pending
    ensures var done := card.Execute(device, command);
            var held := device.Fate() == Complete && lba < |device.blocks|;
            && done.device == After(device, 1)
            && done.result == C.ModelResult([0], if held then Some(device.blocks[lba]) else None, None)
            && !done.card.pendingReadActive && done.card.state == C.Transfer
            && (held && command.index == 18 ==> done.card.multiReadActive && done.card.nextMultiReadLba == lba + 1)
            && (!held || command.index == 17 ==> done.card.multiReadActive == card.multiReadActive)
  {
    hide WordResponse, BigEndian, C.Card.Reset, C.Card.BeginWrite;
  }

  lemma BlockOrNothing(block: Option<Block>)
    ensures CommandOutput(C.ModelResult([0], block, None))
         == Output(if block.Some? then [0] + ReadOnWire(block.value).bytes else [0], false)
  {
    if block.Some? {
      FramedOnWire(block.value);
      assert [0] + Framed(block.value) + [] == [0] + Framed(block.value);
    }
  }

  /**
   * A read the backend settles at once, on the wire: R1=0 with exactly the block it holds at the
   * commanded address, or R1=0 alone if it fails; then no block follows, the card does not fault, and
   * with no write waiting every poll is silent.
   */
  lemma ImmediateRead(e: Engine, frame: seq<bv8>, index: bv8, argument: U32, lba: nat, more: nat)
    requires e.Valid() && AtRest(e) && e.card.Open() && !e.writePending
    requires IsCommand(frame, index, argument) && (index == 17 || index == 18) && e.card.CommandLba(argument) == Some(lba)
    requires e.device.Fate() != Pending
    ensures var (done, answers) := Send(e, frame);
            var held := e.device.Fate() == Complete && lba < |e.device.blocks|;
            && answers == [Output(if held then [0] + ReadOnWire(e.device.blocks[lba]).bytes else [0], false)]
            && done.device == After(e.device, 1) && done.card.state == C.Transfer
            && (held && index == 18 ==> done.card.multiReadActive && done.card.nextMultiReadLba == lba + 1)
            && (!held || index == 17 ==> done.card.multiReadActive == e.card.multiReadActive)
            && Polls(done, more) == (done, Silence(more))
  {
    hide Send, Polls, ReadOnWire, DecodeCommand, C.Card.Execute, CommandOutput;
    var command := DecodeCommand(frame, true).value;
    SendCommand(e, frame, index, argument);
    CardReadsAtOnce(e.card, e.device, command, lba);
    BlockOrNothing(e.card.Execute(e.device, command).result.readBlock);
    NothingWaits(e.ExecuteCommand(command).0, more);
  }

  lemma ShiftPending(d: Device, n: nat)
    requires PendingFor(d, n + 1)
    ensures PendingFor(After(d, 1), n) && After(After(d, 1), n).Fate() == FateAt(d, n + 1)
  {
    forall k | 0 <= k < n ensures FateAt(After(d, 1), k) == Pending {
      assert FateAt(d, k + 1) == Pending;
    }
  }

  /** With no transfer deferred polls do nothing. */
  lemma {:induction false} NothingWaits(e: Engine, n: nat)
    requires !e.card.pendingReadActive && !e.writePending
    ensures Polls(e, n) == (e, Silence(n))
  {
    if n > 0 {
      assert e.PollPendingIo() == (e, None);
      NothingWaits(e, n - 1);
      assert [None] + Silence(n - 1) == Silence(n);
    }
  }

  // ---- The blocks after a deferred CMD18 -------------------------------------------

  /** The next block of a multi-block read: the block at the next address if it is exposed and the backend delivers. */
  lemma NextBlock(e: Engine)
    requires e.card.multiReadActive
    ensures var (next, output) := e.NextMultiReadBlock();
            var lba := e.card.nextMultiReadLba;
            if lba < e.card.registers.exposedBlocks && e.device.Fate() == Complete && lba < |e.device.blocks|
            then output == Some(ReadOnWire(e.device.blocks[lba]))
                 && next == e.(card := e.card.(nextMultiReadLba := lba + 1), device := After(e.device, 1))
            else output == None && next.card == e.card && next.device.blocks == e.device.blocks
  {
    hide Crc16, Framed;
    if e.card.nextMultiReadLba < |e.device.blocks| {
      FramedOnWire(e.device.blocks[e.card.nextMultiReadLba]);
    }
  }

  function NextBlocks(e: Engine, n: nat): (Engine, seq<Option<Output>>)
    decreases n
  {
    if n == 0 then (e, [])
    else
      var (next, output) := e.NextMultiReadBlock();
      var (last, outputs) := NextBlocks(next, n - 1);
      (last, [output] + outputs)
  }

  /** n blocks in a row from the next address, while the backend delivers and blocks are exposed. */
  lemma {:induction false} BlocksInOrder(e: Engine, n: nat)
    requires e.card.multiReadActive && (forall k :: 0 <= k < n ==> FateAt(e.device, k) == Complete)
    requires e.card.nextMultiReadLba + n <= e.card.registers.exposedBlocks && e.card.nextMultiReadLba + n <= |e.device.blocks|
    ensures var outputs := NextBlocks(e, n).1;
            |outputs| == n
            && forall k :: 0 <= k < n ==> outputs[k] == Some(ReadOnWire(e.device.blocks[e.card.nextMultiReadLba + k]))
    decreases n
  {
    hide ReadOnWire, Engine.NextMultiReadBlock;
    if n > 0 {
      assert FateAt(e.device, 0) == Complete;
      NextBlock(e);
      var next := e.NextMultiReadBlock().0;
      forall k | 0 <= k < n - 1 ensures FateAt(next.device, k) == Complete {
        assert FateAt(e.device, k + 1) == Complete;
      }
      BlocksInOrder(next, n - 1);
    }
  }

  /** After a deferred CMD18 has delivered its first block, the following ones continue right after it. */
  lemma DeferredMultiRead(e: Engine, frame: seq<bv8>, argument: U32, lba: nat, n: nat, blocks: nat)
    requires e.Valid() && AtRest(e) && e.card.Open() && !e.writePending
    requires IsCommand(frame, 18, argument) && e.card.CommandLba(argument) == Some(lba)
    requires PendingFor(e.device, n + 1) && (forall k :: n < k <= n + 1 + blocks ==> FateAt(e.device, k) == Complete)
    requires lba + 1 + blocks <= e.card.registers.exposedBlocks <= |e.device.blocks|
    ensures var done := Polls(Send(e, frame).0, n + 1).0;
            var outputs := NextBlocks(done, blocks).1;
            |outputs| == blocks
            && forall k :: 0 <= k < blocks ==> outputs[k] == Some(ReadOnWire(e.device.blocks[lba + 1 + k]))
  {
    hide Send, Polls, Crc16, ReadOnWire, DecodeCommand, Engine.ExecuteCommand, Engine.PollPendingIo, NextBlocks;
    var command := DecodeCommand(frame, true).value;
    SendCommand(e, frame, 18, argument);
    assert FateAt(e.device, 0) == Pending;
    ReadIsDeferred(e, command, lba);
    var asked := e.ExecuteCommand(command).0;
    ShiftPending(e.device, n);
    SilentWhilePending(asked, n);
    assert FateAt(e.device, n + 1) == Complete;
    ReadEnds(Polls(asked, n).0);
    OneMorePoll(asked, n);
    var done := Polls(asked, n + 1).0;
    forall k | 0 <= k < blocks ensures FateAt(done.device, k) == Complete {
      assert FateAt(e.device, n + 2 + k) == Complete;
    }
    BlocksInOrder(done, blocks);
  }

  lemma {:induction false} OneMorePoll(e: Engine, n: nat)
    ensures Polls(e, n + 1).0 == Polls(e, n).0.PollPendingIo().0
    decreases n
  {
    hide Engine.PollPendingIo;
    if n > 0 {
      OneMorePoll(e.PollPendingIo().0, n - 1);
    }
  }

  // ---- Deferred writes -------------------------------------------------------------

  /** The poll that ends a deferred write. */
  lemma WriteEnds(e: Engine)
    requires !e.card.pendingReadActive && e.writePending && e.card.Accepts(e.pendingBlock, e.pendingCrc)
    requires e.device.Fate() != Pending
    ensures var (done, output) := e.PollPendingIo();
            var lba := e.card.pendingWriteLba;
            && !done.writePending && !done.card.pendingReadActive
            && (if e.device.Fate() == Complete && lba < |e.device.blocks|
                then output == Some(Output([0x05], true)) && done.device.blocks == e.device.blocks[lba := e.pendingBlock]
                     && done.card.state != C.Fault && NextPlace(e.card, done.card)
                else output == Some(Output([0x0d], false)) && done.device.blocks == e.device.blocks
                     && done.card.state == C.Fault)
  {
    hide Crc16, DataResponse, C.Card.Written;
    CardAnswers(e.card);
  }

  /** What the card makes of the backend's answer to its block. */
  lemma CardAnswers(card: C.Card)
    requires card.state == C.ReceivingData
    ensures var (done, result) := card.Written(Complete);
            && result.dataResponse == 0x05 && result.busy && !result.pending && done.state != C.Fault && NextPlace(card, done)
            && done.pendingReadActive == card.pendingReadActive
    ensures var (done, result) := card.Written(Failed);
            && result.dataResponse == 0x0d && !result.busy && !result.pending && done.state == C.Fault
            && done.pendingReadActive == card.pendingReadActive
  {
    hide DataResponse, C.Card.Take;
    DataResponses();
    Transitions(card);
    var done := card.Take(C.BeginBusy).Take(C.FinishBusy);
    if done.multiWriteActive {
      Transitions(done.(pendingWriteLba := done.pendingWriteLba + 1));
    }
  }

  /** The states a card passes through when its block is stored, and when it is not. */
  lemma Transitions(card: C.Card)
    ensures card.Take(C.EnterFault) == card.(state := C.Fault)
    ensures card.state == C.ReceivingData ==> card.Take(C.BeginBusy).Take(C.FinishBusy) == card.(state := C.Transfer)
    ensures card.state == C.Transfer ==> card.Take(C.BeginReceivingData) == card.(state := C.ReceivingData)
  {}

  /** Where the block after a stored one goes: the next address of a multi-block write, while it is exposed. */
  predicate NextPlace(before: C.Card, after: C.Card) {
    after.registers == before.registers
    && (if before.multiWriteActive
        then after.pendingWriteLba == before.pendingWriteLba + 1
             && (after.state == C.ReceivingData <==> after.pendingWriteLba < after.registers.exposedBlocks)
        else after.state == C.Transfer)
  }

  /** A block received with its own CRC16 while the backend is pending: kept, with no answer. */
  lemma WriteIsDeferred(e: Engine, block: Block)
    requires e.card.state == C.ReceivingData && e.device.Fate() == Pending
    ensures e.WriteReceived(block, Crc16(block))
         == (e.(device := After(e.device, 1), writePending := true, pendingBlock := block, pendingCrc := Crc16(block)), None)
  {
    hide Crc16;
  }

  /**
   * A deferred write on the wire, over any script: while its block's place is open the framed block
   * gets no answer from a pending backend, and n polls are silent; the next poll stores exactly that
   * block at the place of the write and answers Accepted, or answers a write error with the card in
   * Fault if the backend fails; every later poll is silent and stores nothing.
   */
  lemma DeferredWrite(e: Engine, block: Block, n: nat, more: nat)
    requires e.Valid() && e.card.state == C.ReceivingData && e.framer.phase == WaitingForToken && !e.card.pendingReadActive
    requires PendingFor(e.device, n + 1) && FateAt(e.device, n + 1) != Pending
    ensures var (sent, answers) := Send(e, WireBlock(e.framer.multi, block, Crc16(block)));
            var (waiting, nothing) := Polls(sent, n);
            var (done, output) := waiting.PollPendingIo();
            var lba := e.card.pendingWriteLba;
            var stored := FateAt(e.device, n + 1) == Complete && lba < |e.device.blocks|;
            && answers == [] && nothing == Silence(n)
            && output == Some(if stored then Output([0x05], true) else Output([0x0d], false))
            && done.device.blocks == (if stored then e.device.blocks[lba := block] else e.device.blocks)
            && (done.card.state == C.Fault <==> !stored) && (stored ==> NextPlace(e.card, done.card))
            && Polls(done, more) == (done, Silence(more))
  {
    hide Send, Polls, Crc16, WireBlock, Engine.WriteReceived, Engine.PollPendingIo;
    SendBlock(e, block, Crc16(block));
    var framed := e.(framer := BlockIn(e.framer.multi, block, Crc16(block)));
    assert FateAt(e.device, 0) == Pending;
    WriteIsDeferred(framed, block);
    var sent := framed.WriteReceived(block, Crc16(block)).0;
    ShiftPending(e.device, n);
    SilentWhilePending(sent, n);
    WriteEnds(Polls(sent, n).0);
    NothingWaits(Polls(sent, n).0.PollPendingIo().0, more);
  }

  /** The same from its CMD24: the place of the write is the commanded address. */
  lemma DeferredWriteOfCommand(e: Engine, frame: seq<bv8>, argument: U32, lba: nat, block: Block, n: nat)
    requires e.Valid() && AtRest(e) && e.card.Open() && !e.card.pendingReadActive
    requires IsCommand(frame, 24, argument) && e.card.CommandLba(argument) == Some(lba) && lba < |e.device.blocks|
    requires PendingFor(e.device, n + 1) && FateAt(e.device, n + 1) == Complete
    ensures var (sent, answers) := Send(e, frame + WireBlock(false, block, Crc16(block)));
            var (waiting, nothing) := Polls(sent, n);
            var (done, output) := waiting.PollPendingIo();
            && answers == [Output([0], false)] && nothing == Silence(n) && output == Some(Output([0x05], true))
            && done.device.blocks == e.device.blocks[lba := block] && done.card.Open()
  {
    hide Send, Polls, Crc16, WireBlock, DecodeCommand, Engine.ExecuteCommand, Engine.PollPendingIo, FateAt;
    var command := DecodeCommand(frame, true).value;
    SendCommand(e, frame, 24, argument);
    AcceptsWrite(e, command, lba);
    var ready := e.ExecuteCommand(command).0;
    StillNoRead(e, command, lba);
    DeferredWrite(ready, block, n, 0);
    var (sent, answers) := Send(ready, WireBlock(false, block, Crc16(block)));
    SendPair(e, frame, WireBlock(false, block, Crc16(block)), ready, sent, [Output([0], false)], []);
    SingleWriteOpens(ready, block, n);
  }

  lemma StillNoRead(e: Engine, command: Command, lba: nat)
    requires e.Valid() && e.card.Open() && !e.card.pendingReadActive
    requires command.index == 24 && e.card.CommandLba(command.argument) == Some(lba)
    ensures !e.ExecuteCommand(command).0.card.pendingReadActive
  {
    hide WordResponse, BigEndian, CommandOutput;
  }

  lemma SingleWriteOpens(e: Engine, block: Block, n: nat)
    requires e.Valid() && e.card.state == C.ReceivingData && e.framer.phase == WaitingForToken && !e.card.pendingReadActive
    requires !e.card.multiWriteActive && PendingFor(e.device, n + 1) && FateAt(e.device, n + 1) == Complete
    requires e.card.pendingWriteLba < |e.device.blocks|
    ensures Polls(Send(e, WireBlock(e.framer.multi, block, Crc16(block))).0, n).0.PollPendingIo().0.card.Open()
  {
    hide Send, Polls, Crc16, WireBlock, Engine.WriteReceived, FateAt;
    SendBlock(e, block, Crc16(block));
    var framed := e.(framer := BlockIn(e.framer.multi, block, Crc16(block)));
    assert FateAt(e.device, 0) == Pending;
    FateIsNow(framed.device);
    WriteIsDeferred(framed, block);
    ShiftPending(e.device, n);
    SilentWhilePending(framed.WriteReceived(block, Crc16(block)).0, n);
  }

  lemma FateIsNow(d: Device)
    ensures d.Fate() == FateAt(d, 0)
  {}
}
