/**
 * The card over the CDC bridge: a data block answered "accepted" is already on the host image, in
 * every run of firmware, channel and host.
 */
module WriteThroughCard {
  import opened Basics
  import opened Crc
  import opened SdCommand
  import C = SdCardModel
  import opened BackendService
  import opened SessionSystem
  import opened SessionClient
  import opened SessionFacts
  import opened OperationCoordinator
  import P = SectorBufferPool
  import opened WriteThroughBackend
  import opened BackendInvariant
  import opened Coherence
  import opened Wire
  import opened WireReplies

  /** write_block over the bridge: the block is offered only if the card accepts it. */
  function WriteOverBridge(card: C.Card, s: System, block: Block, crc: bv16, now: U64, sent: bool): (C.Card, System, C.WriteResult)
    requires s.service.Valid() && card.pendingWriteLba <= MAX_U64
  {
    if !card.Accepts(block, crc) then (card, s, C.REJECTED_WRITE)
    else
      var answer := s.bridge.Write(s.service, card.pendingWriteLba, block, now, sent).2;
      var (card', result) := card.Written(answer);
      (card', Next(s, SdWrite(card.pendingWriteLba, block, now, sent)), result)
  }

  lemma DataResponsesDiffer()
    ensures DataResponse(DATA_RESPONSE_CRC_ERROR) != DATA_RESPONSE_ACCEPTED
    ensures DataResponse(DATA_RESPONSE_WRITE_ERROR) != DATA_RESPONSE_ACCEPTED
    ensures DATA_RESPONSE_WRITE_ERROR != DATA_RESPONSE_ACCEPTED
    ensures DataResponse(DATA_RESPONSE_ACCEPTED) == DATA_RESPONSE_ACCEPTED
  {}

  /** The accepted answer is given exactly when the CRC matched, the card was receiving, and the bridge completed. */
  lemma AcceptedMeansComplete(card: C.Card, s: System, block: Block, crc: bv16, now: U64, sent: bool)
    requires s.service.Valid() && card.pendingWriteLba <= MAX_U64
    ensures WriteOverBridge(card, s, block, crc, now, sent).2.dataResponse == DATA_RESPONSE_ACCEPTED
       <==> card.Accepts(block, crc) && s.bridge.Write(s.service, card.pendingWriteLba, block, now, sent).2 == Complete
  {
    hide SdBridge.Write, Next, Crc16, DataResponse;
    DataResponsesDiffer();
  }

  /** After any run, an accepted data response means the host image holds exactly that block at that address. */
  lemma AcceptedBlockIsOnHost(image: seq<Block>, cardType: string, writable: bool, session: string, steps: seq<Step>,
                              card: C.Card, block: Block, crc: bv16, now: U64, sent: bool)
    requires Token(session) && Token(cardType) && card.pendingWriteLba <= MAX_U64
    ensures var s := Run(Initial(image, cardType, writable, session), steps);
            s.service.Valid() &&
            var (_, s', result) := WriteOverBridge(card, s, block, crc, now, sent);
            result.dataResponse == DATA_RESPONSE_ACCEPTED ==>
              && Crc16(block) == crc
              && card.pendingWriteLba < |s'.host.image| && s'.host.image[card.pendingWriteLba] == block
  {
    hide SdBridge.Write, Next, Crc16, DataResponse, Run, Initial, SystemInv;
    var start := Initial(image, cardType, writable, session);
    InitialInv(image, cardType, writable, session);
    RunKeeps(start, steps);
    var s := Run(start, steps);
    SystemIsValid(s);
    AcceptedMeansComplete(card, s, block, crc, now, sent);
    if WriteOverBridge(card, s, block, crc, now, sent).2.dataResponse == DATA_RESPONSE_ACCEPTED {
      CompleteWriteIsOnHost(s, card.pendingWriteLba, block, now, sent);
    }
  }

  // ---- Deferred reads ------------------------------------------------------------

  /** A read that is not refused sends a line unless the sector is already Ready. */
  lemma ReadSendsOrIsReady(b: Backend, lba: U64, g: U64, now: U64)
    requires BackendInv(b)
    ensures b.BeginRead(lba, g, now).1.error == NoError ==>
              b.BeginRead(lba, g, now).1.line != "" || b.pool.FirstReady(lba, g, 0).Some?
  {
    hide P.Pool.Reserve, P.Pool.FirstReady, Coordinator.Start, CoordinatorInv;
    StartFacts(b.coordinator, Operation.ReadBlock(lba), now, b.client);
  }

  /** An active transfer's sector is nowhere Ready, and nothing else can be started. */
  lemma BusyBackendFails(bridge: SdBridge, v: Service, lba: U64, now: U64, sent: bool)
    requires v.backend.TransferActive() && NoReadyFor(v.backend.pool, lba)
    ensures bridge.Read(v, lba, now, sent) == (v, Failed, None, QUIET)
  {}

  /**
   * A read the bridge has queued cannot be completed by asking again: until its response arrives the
   * second call finds no Ready copy and a busy backend, so it fails and changes nothing. The card
   * takes that failure as a fault.
   */
  lemma DeferredReadFails(bridge: SdBridge, v: Service, lba: U64, now: U64, sent: bool, later: U64, sentLater: bool)
    requires BackendInv(v.backend) && bridge.Read(v, lba, now, sent).1 == Pending
    ensures var v' := bridge.Read(v, lba, now, sent).0;
            bridge.Read(v', lba, later, sentLater) == (v', Failed, None, QUIET)
  {
    hide BackendInv, Backend.BeginRead, P.Pool.FirstReady;
    ReadSendsOrIsReady(v.backend, lba, bridge.generation, now);
    BeginReadFacts(v.backend, lba, bridge.generation, now);
    BusyBackendFails(bridge, bridge.Read(v, lba, now, sent).0, lba, later, sentLater);
  }

  /** A read, first or repeated, completes exactly when its sector is Ready; while a transfer is active it otherwise fails. */
  lemma ReadCompletesExactly(bridge: SdBridge, v: Service, lba: U64, now: U64, sent: bool)
    requires BackendInv(v.backend) && bridge.AddressValid(lba)
    ensures var result := bridge.Read(v, lba, now, sent).1;
            && (result == Complete <==> v.backend.pool.HasReady(lba, bridge.generation))
            && (v.backend.TransferActive() ==> result != Pending)
  {
    hide BackendInv, P.Pool.Reserve, Backend.StartTransfer;
    var ready := v.backend.pool.FirstReady(lba, bridge.generation, 0);
  }

  // ---- When a transfer starts ----------------------------------------------------

  /** What an idle bridge needs to start a transfer: all of it can be checked before the call. */
  predicate CanStart(b: Backend, g: U64) {
    b.ReadyForTransfer() && b.GenerationSelectable(g) && |b.pool.slots| > 0
    && Reserved(b.client) && b.coordinator.timeout > 0
  }

  /** A session's token is one printable word, as the host hands it out. */
  predicate NamedSession(c: Client) { c.negotiated ==> Token(c.sessionId) }

  /** The coordinator starts a block operation exactly when it is idle and the client can take a request. */
  lemma StartsExactly(c: Coordinator, op: Operation, now: U64, client: Client)
    requires (op.ReadBlock? || op.WriteBlock?) && NamedSession(client)
    ensures c.Start(op, now, client).2.error == NoError
       <==> c.state == Idle && client.negotiated && Reserved(client) && c.timeout > 0
  {
    hide Client.BeginRequest, MessageText, Token, ReadFieldsText, WriteFieldsText;
    if client.negotiated && Reserved(client) {
      BeginIsMessage(client, if op.ReadBlock? then Message.Read(client.nextId, client.sessionId, op.lba)
                             else Message.Write(client.nextId, client.sessionId, op.lba, op.data));
    }
    OperationIssueFacts(op, client);
    hide OperationText;
  }

  lemma ReadBeginsExactly(b: Backend, lba: U64, g: U64, now: U64)
    requires BackendInv(b) && NamedSession(b.client) && b.pool.FirstReady(lba, g, 0).None?
    ensures b.BeginRead(lba, g, now).1.error == NoError <==> CanStart(b, g)
    ensures CanStart(b, g) ==> b.BeginRead(lba, g, now).1.line != ""
  {
    hide BackendInv, P.Pool.Candidate, P.Pool.FirstReady, Coordinator.Start, NamedSession;
    StartsExactly(b.coordinator, Operation.ReadBlock(lba), now, b.client);
    if b.ReadyForTransfer() {
      NothingInFlight(b);
      BufferToReserve(b.pool);
    }
    ReadSendsOrIsReady(b, lba, g, now);
  }

  /**
   * The whole answer of a read over the bridge: Complete when the sector is Ready, Pending when it
   * is not, a transfer can start and the line was sent, Failed otherwise.
   */
  lemma PendingWhen(bridge: SdBridge, v: Service, lba: U64, now: U64, sent: bool)
    requires BackendInv(v.backend) && NamedSession(v.backend.client) && bridge.AddressValid(lba)
    ensures bridge.Read(v, lba, now, sent).1
         == if v.backend.pool.HasReady(lba, bridge.generation) then Complete
            else if CanStart(v.backend, bridge.generation) && sent then Pending else Failed
  {
    hide BackendInv, Backend.BeginRead, NamedSession, CanStart;
    ReadCompletesExactly(bridge, v, lba, now, sent);
    if v.backend.pool.FirstReady(lba, bridge.generation, 0).None? {
      ReadBeginsExactly(v.backend, lba, bridge.generation, now);
    }
  }

  lemma WriteBeginsExactly(b: Backend, lba: U64, g: U64, data: Block, now: U64)
    requires BackendInv(b) && NamedSession(b.client)
    ensures b.BeginWrite(lba, g, data, now).1.error == NoError <==> CanStart(b, g)
  {
    hide BackendInv, P.Pool.Candidate, P.Pool.InvalidateReady, Coordinator.Start, NamedSession;
    StartsExactly(b.coordinator, WriteBlock(lba, data), now, b.client);
    if b.ReadyForTransfer() {
      NothingInFlight(b);
      BufferToReserve(b.pool.InvalidateReady(lba, g));
    }
  }

  /** The first offer of a block to a writable bridge is queued exactly when a transfer can start and the line was sent. */
  lemma WritePendingWhen(bridge: SdBridge, v: Service, lba: U64, input: Block, now: U64, sent: bool)
    requires BackendInv(v.backend) && NamedSession(v.backend.client)
    requires bridge.AddressValid(lba) && !bridge.readOnly && !bridge.writePending
    ensures bridge.Write(v, lba, input, now, sent).2
         == if CanStart(v.backend, bridge.generation) && sent then Pending else Failed
  {
    hide BackendInv, Backend.BeginWrite, NamedSession, CanStart;
    WriteBeginsExactly(v.backend, lba, bridge.generation, input, now);
    WriteSends(v.backend, lba, bridge.generation, input, now);
  }

  lemma WriteSends(b: Backend, lba: U64, g: U64, data: Block, now: U64)
    requires BackendInv(b)
    ensures b.BeginWrite(lba, g, data, now).1.error == NoError ==> b.BeginWrite(lba, g, data, now).1.line != ""
  {
    hide P.Pool.Candidate, P.Pool.InvalidateReady, Coordinator.Start, CoordinatorInv, OperationText;
    StartFacts(b.coordinator, WriteBlock(lba, data), now, b.client);
  }

  /** After any run of the whole system these are the answers of the bridge. */
  lemma AnswersInEveryRun(image: seq<Block>, cardType: string, writable: bool, session: string, steps: seq<Step>,
                          lba: U64, input: Block, now: U64, sent: bool)
    requires Token(session) && Token(cardType)
    ensures var s := Run(Initial(image, cardType, writable, session), steps);
            var starts := CanStart(s.service.backend, s.bridge.generation) && sent;
            && (s.bridge.AddressValid(lba) ==>
                  s.bridge.Read(s.service, lba, now, sent).1
                  == if s.service.backend.pool.HasReady(lba, s.bridge.generation) then Complete
                     else if starts then Pending else Failed)
            && (s.bridge.AddressValid(lba) && !s.bridge.readOnly && !s.bridge.writePending ==>
                  s.bridge.Write(s.service, lba, input, now, sent).2 == if starts then Pending else Failed)
  {
    hide Run, Initial, SystemInv, BackendInv, NamedSession, CanStart, SdBridge.Read, SdBridge.Write;
    var start := Initial(image, cardType, writable, session);
    InitialInv(image, cardType, writable, session);
    RunKeeps(start, steps);
    var s := Run(start, steps);
    TakeApart(s);
    SystemIsNamed(s);
    if s.bridge.AddressValid(lba) {
      PendingWhen(s.bridge, s.service, lba, now, sent);
      if !s.bridge.readOnly && !s.bridge.writePending {
        WritePendingWhen(s.bridge, s.service, lba, input, now, sent);
      }
    }
  }

  lemma SystemIsNamed(s: System)
    requires SystemInv(s)
    ensures NamedSession(s.service.backend.client)
  {
    hide Honest, RequestsAreMessages, MessagesAreOurs, ResponsesAreHonest, NoStaleBuffer;
  }
}
