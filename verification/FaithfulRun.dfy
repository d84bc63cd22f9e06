/**
 * Liveness over a faithful channel: connecting exposes the host's image, and a read or write the
 * bridge has queued completes with the host's block as soon as its request and its response arrive.
 */
module FaithfulRun {
  import opened Basics
  import Codec
  import Numerals
  import opened BlockResponse
  import opened SessionClient
  import opened OperationCoordinator
  import opened SessionFacts
  import P = SectorBufferPool
  import opened WriteThroughBackend
  import opened BackendInvariant
  import opened BackendService
  import SI = ServiceInvariant
  import opened SessionDispatcher
  import opened Wire
  import opened WireReplies
  import opened SessionSystem
  import opened Coherence
  import opened WriteThroughCard

  // ---- One accepted response -----------------------------------------------

  lemma OkIsResponse(r: Reply)
    requires !r.Refusal?
    ensures IsResponse(ReplyText(r)) && ReplyText(r) != "" && !(|ReplyText(r)| >= 4 && ReplyText(r)[..4] == "ERR ")
  {
    hide Numerals.ToDecimal, ChecksumText, Codec.Encode;
    assert ReplyText(r)[..3] == "OK ";
    assert ReplyText(r)[0] == 'O';
  }

  /** An accepted success settles the transfer: its sector is Ready and the backend is idle again. */
  lemma AcceptCompletes(b: Backend, response: string, now: U64)
    requires BackendInv(b) && b.TransferActive() && b.coordinator.state == AwaitingResponse
    requires b.Admissible(response) && !b.IsErrorLine(response)
    requires b.client.AcceptResponse(response) == (b.client.Settle(), NoError)
    ensures var b' := b.AcceptResponse(response, now).0;
            && b'.coordinator.state == Idle && b'.coordinator.timeout == b.coordinator.timeout
            && !b'.TransferActive() && b'.client == b.client.Settle()
            && b'.hasGeneration == b.hasGeneration && b'.mediaGeneration == b.mediaGeneration
            && |b'.pool.slots| == |b.pool.slots| && b'.pool.HasReady(b.lba, b.generation)
  {
    hide DecodeReadBlock, Client.AcceptResponse, Backend.FinishResponse, BackendInv;
    Structure(b);
    var data := if b.transfer == ReadTransfer then DecodeReadBlock(response).value.data else ZeroBlock();
    var next := b.(coordinator := b.coordinator.AfterResponse(NoError, NoRemoteError, now), client := b.client.Settle());
    SettledCoordinator(b.coordinator, now);
    CompletedInv(next, data);
    SlotHolds(b);
    assert b.AcceptResponse(response, now).0.pool.slots[b.handle.value].ReadyFor(b.lba, b.generation);
  }

  lemma SettledCoordinator(c: Coordinator, now: U64)
    requires CoordinatorInv(c)
    ensures var c' := c.AfterResponse(NoError, NoRemoteError, now); CoordinatorInv(c') && c'.state == Idle
  {}

  lemma Structure(b: Backend)
    requires BackendInv(b)
    ensures CoordinatorInv(b.coordinator) && ClientInv(b.client)
    ensures DistinctKeys(b.pool.slots) && OneGeneration(b) && InFlightIsTransfer(b)
  {}

  lemma SlotHolds(b: Backend)
    requires InFlightIsTransfer(b) && b.TransferActive()
    ensures b.handle.value < |b.pool.slots| && b.pool.slots[b.handle.value].Holds(b.lba, b.generation)
  {}

  // ---- Starting --------------------------------------------------------------

  /** What the backend is after a start that sent its line, besides what Begun says. */
  lemma StartedRead(b: Backend, lba: U64, g: U64, now: U64)
    requires b.BeginRead(lba, g, now).1.error == NoError && b.BeginRead(lba, g, now).1.line != ""
    ensures var b' := b.BeginRead(lba, g, now).0;
            b'.generation == g && b'.hasGeneration && b'.mediaGeneration == g && |b'.pool.slots| == |b.pool.slots|
            && b'.coordinator.timeout == b.coordinator.timeout && b'.coordinator.operation == Operation.ReadBlock(lba)
            && b'.coordinator.retry == b.coordinator.retry.RecordSuccess()
  {
    hide P.Pool.Candidate, P.Pool.FirstReady, Operation.Issue;
  }

  lemma StartedWrite(b: Backend, lba: U64, g: U64, data: Block, now: U64)
    requires b.BeginWrite(lba, g, data, now).1.error == NoError && b.BeginWrite(lba, g, data, now).1.line != ""
    ensures var b' := b.BeginWrite(lba, g, data, now).0;
            b'.generation == g && b'.hasGeneration && b'.mediaGeneration == g && |b'.pool.slots| == |b.pool.slots|
            && b'.coordinator.timeout == b.coordinator.timeout && b'.coordinator.operation == WriteBlock(lba, data)
            && b'.coordinator.retry == b.coordinator.retry.RecordSuccess()
  {
    hide P.Pool.Candidate, P.Pool.InvalidateReady, Operation.Issue;
  }

  // ---- Runs of three steps ---------------------------------------------------

  lemma RunOfThree(s: System, a: Step, b: Step, c: Step)
    ensures Run(s, [a, b, c]) == Take(Take(Take(s, a), b), c)
  {
    hide Take;
    assert [a, b, c][1..] == [b, c] && [b, c][1..] == [c] && [c][1..] == [];
    assert Run(s, [a, b, c]) == Run(Take(s, a), [b, c]);
    assert Run(Take(s, a), [b, c]) == Run(Take(Take(s, a), b), [c]);
  }

  lemma {:induction false} RunOfBoth(s: System, first: seq<Step>, second: seq<Step>)
    ensures Run(s, first + second) == Run(Run(s, first), second)
    decreases first
  {
    hide Take;
    if first == [] {
      assert first + second == second;
    } else {
      assert (first + second)[1..] == first[1..] + second;
      RunOfBoth(Take(s, first[0]), first[1..], second);
    }
  }

  // ---- An exchange -----------------------------------------------------------

  /** Connected, idle, and the host in the same session with older ids. */
  ghost predicate AtRest(s: System) {
    CanStart(s.service.backend, s.bridge.generation) && FreshInSession(s.host, s.service.backend.client)
  }

  /** A start, the host's answer to its line, and the arrival of that answer. */
  function Exchange(start: Step, m: Message, r: Reply, io: ImageIo, later: U64, session: string): seq<Step> {
    [start, HostReceives(MessageText(m), io), FirmwareReceives(ReplyText(r), later, session)]
  }

  /** A transfer's line has been sent and is still to be answered. */
  ghost predicate Underway(s: System, m: Message) {
    var b := s.service.backend;
    (m.Read? || m.Write?) && BackendInv(b) && b.TransferActive() && b.coordinator.state == AwaitingResponse
    && !s.service.handshakePending && !s.service.infoPending
    && MessageText(m) in s.requests && m.id == b.client.pendingId && !b.client.pendingHandshake
    && b.client.negotiated && m.session == b.client.sessionId == s.host.sessionId
    && (if b.transfer == ReadTransfer then m == Message.Read(m.id, m.session, b.lba)
        else m.Write? && m.lba == b.lba)
    && s.host.established && !s.host.ejected && m.id > s.host.lastRequestId && ValidMessage(m)
    && Token(s.host.sessionId) && Token(s.host.cardType)
  }

  /** The host answers, and the answer makes the sector Ready. */
  lemma AnswerCompletes(s: System, m: Message, io: ImageIo, later: U64, session: string)
    requires Underway(s, m) && Token(session)
    requires m.lba < |s.host.image| && io.healthy > 0 && (m.Write? ==> s.host.writable)
    ensures var r := Handle(s.host, m, io).1;
            var q := Take(Take(s, HostReceives(MessageText(m), io)), FirmwareReceives(ReplyText(r), later, session));
            var b, b' := s.service.backend, q.service.backend;
            && q.host == s.host.(lastRequestId := m.id,
                                 image := if m.Write? then s.host.image[m.lba := m.data] else s.host.image)
            && q.bridge == s.bridge
            && b'.coordinator.state == Idle && b'.coordinator.timeout == b.coordinator.timeout
            && !b'.TransferActive() && b'.client == b.client.Settle()
            && b'.hasGeneration == b.hasGeneration && b'.mediaGeneration == b.mediaGeneration
            && |b'.pool.slots| == |b.pool.slots| && b'.pool.HasReady(b.lba, b.generation)
  {
    hide MessageText, ReplyText, Host.Dispatch, Backend.AcceptResponse, Client.AcceptResponse, BackendInv, Token,
      DecodeReadBlock, Backend.IsErrorLine;
    var b := s.service.backend;
    var (h', r) := Handle(s.host, m, io);
    DispatchOfMessage(s.host, m, io);
    HandleIsValid(s.host, m, io);
    AcceptOfReply(b.client, r);
    DecodeOfReply(r);
    OkIsResponse(r);
    NoErrorLine(b, r);
    ServiceIsConfigured(b);
    AcceptCompletes(b, ReplyText(r), later);
  }

  lemma NoErrorLine(b: Backend, r: Reply)
    requires !r.Refusal?
    ensures !b.IsErrorLine(ReplyText(r))
  {
    OkIsResponse(r);
    hide ReplyText;
  }

  lemma ServiceIsConfigured(b: Backend)
    requires BackendInv(b)
    ensures b.Valid()
  {}

  // ---- Reads -------------------------------------------------------------------

  /** The request the client would send next for a read of this sector. */
  function NextRead(s: System, lba: U64): (m: Message)
    ensures m.Read?
  {
    Message.Read(s.service.backend.client.nextId, s.service.backend.client.sessionId, lba)
  }

  /** Nothing else is pending when the client has no request. */
  lemma NothingPending(v: Service)
    requires SI.ServiceInv(v) && !v.backend.client.RequestPending()
    ensures !v.handshakePending && !v.infoPending && BackendInv(v.backend)
  {}

  /** The step of a queued read, when its line goes out. */
  lemma ReadTaken(s: System, lba: U64, now: U64)
    requires s.service.Valid() && s.bridge.AddressValid(lba)
    requires !s.service.backend.pool.HasReady(lba, s.bridge.generation)
    requires var request := s.service.backend.BeginRead(lba, s.bridge.generation, now).1;
             request.error == NoError && request.line != ""
    ensures var (b, request) := s.service.backend.BeginRead(lba, s.bridge.generation, now);
            && s.bridge.Read(s.service, lba, now, true).1 == Pending
            && Take(s, SdRead(lba, now, true))
            == s.(service := s.service.(backend := b), requests := s.requests + {request.line})
  {
    hide Backend.BeginRead;
    assert s.service.backend.pool.FirstReady(lba, s.bridge.generation, 0).None?;
  }

  /** An idle bridge's read of a sector that is not Ready sends its line. */
  lemma ReadStarts(s: System, lba: U64, now: U64)
    requires SystemInv(s) && AtRest(s) && s.bridge.AddressValid(lba)
    requires !s.service.backend.pool.HasReady(lba, s.bridge.generation)
    ensures var q := Take(s, SdRead(lba, now, true));
            var b, b' := s.service.backend, q.service.backend;
            && s.bridge.Read(s.service, lba, now, true).1 == Pending
            && Underway(q, NextRead(s, lba)) && q.host == s.host && q.bridge == s.bridge
            && b'.client == b.client.Reserve(false) && b'.lba == lba && b'.generation == s.bridge.generation
            && b'.hasGeneration && b'.mediaGeneration == s.bridge.generation && |b'.pool.slots| == |b.pool.slots|
            && b'.coordinator.timeout == b.coordinator.timeout && b'.coordinator.operation == Operation.ReadBlock(lba)
            && b'.coordinator.retry == b.coordinator.retry.RecordSuccess()
  {
    hide SystemInv, SI.ServiceInv, BackendInv, Backend.BeginRead, MessageText, Token, NoNewReady, NoReadyFor, Take,
      SdBridge.Read;
    TakeApart(s);
    SystemIsValid(s);
    SystemIsNamed(s);
    var b, g := s.service.backend, s.bridge.generation;
    NothingPending(s.service);
    assert b.pool.FirstReady(lba, g, 0).None?;
    ReadBeginsExactly(b, lba, g, now);
    BeginReadFacts(b, lba, g, now);
    StartedRead(b, lba, g, now);
    ReadTaken(s, lba, now);
    OperationTextIsMessage(Operation.ReadBlock(lba), b.client.nextId, b.client.sessionId);
    hide OperationText;
  }

  function ReadSteps(s: System, lba: U64, now: U64, io: ImageIo, later: U64, session: string): seq<Step> {
    Exchange(SdRead(lba, now, true), NextRead(s, lba), Handle(s.host, NextRead(s, lba), io).1, io, later, session)
  }

  /** Every later read of the sector completes with this block. */
  ghost predicate ReadsAs(s: System, lba: U64, data: Block) {
    forall now: U64, sent: bool ::
      s.bridge.Read(s.service, lba, now, sent).1 == Complete && s.bridge.Read(s.service, lba, now, sent).2 == Some(data)
  }

  lemma ReadyReadsAs(s: System, lba: U64)
    requires SystemInv(s) && s.bridge.AddressValid(lba) && lba < |s.host.image|
    requires s.service.backend.pool.HasReady(lba, s.bridge.generation)
    ensures ReadsAs(s, lba, s.host.image[lba])
  {
    hide SystemInv, BackendInv, SdBridge.Read, P.Pool.HasReady;
    TakeApart(s);
    forall now: U64, sent: bool
      ensures s.bridge.Read(s.service, lba, now, sent).1 == Complete
              && s.bridge.Read(s.service, lba, now, sent).2 == Some(s.host.image[lba])
    {
      ReadCompletesExactly(s.bridge, s.service, lba, now, sent);
      CompleteReadIsCurrent(s, lba, now, sent);
    }
  }

  /**
   * A read over a faithful channel: the first call queues it, and once the host has answered and
   * the answer has arrived every further call completes with the host's block. The host is left as
   * it was but for the id, and the bridge is at rest again unless the ids have run out.
   */
  lemma ReadCompletes(s: System, lba: U64, now: U64, io: ImageIo, later: U64, session: string)
    requires SystemInv(s) && AtRest(s) && s.bridge.AddressValid(lba) && lba < |s.host.image|
    requires !s.service.backend.pool.HasReady(lba, s.bridge.generation) && io.healthy > 0 && Token(session)
    ensures var q := Run(s, ReadSteps(s, lba, now, io, later, session));
            && s.bridge.Read(s.service, lba, now, true).1 == Pending
            && SystemInv(q) && ReadsAs(q, lba, s.host.image[lba])
            && q.host == s.host.(lastRequestId := s.service.backend.client.nextId) && q.bridge == s.bridge
            && (s.service.backend.client.nextId != MAX_U64 ==> AtRest(q))
  {
    hide SystemInv, BackendInv, SdBridge.Read, P.Pool.HasReady, Take, Run, Underway, Token, ReadsAs, MessageText, ReplyText,
      Handle;
    var m := NextRead(s, lba);
    var steps := ReadSteps(s, lba, now, io, later, session);
    ReadStarts(s, lba, now);
    AnswerCompletes(Take(s, steps[0]), m, io, later, session);
    RunOfThree(s, steps[0], steps[1], steps[2]);
    RunKeeps(s, steps);
    ReadyReadsAs(Run(s, steps), lba);
  }

  // ---- Writes ------------------------------------------------------------------

  function NextWrite(s: System, lba: U64, data: Block): (m: Message)
    ensures m.Write?
  {
    Message.Write(s.service.backend.client.nextId, s.service.backend.client.sessionId, lba, data)
  }

  function WriteSteps(s: System, lba: U64, data: Block, now: U64, io: ImageIo, later: U64, session: string): seq<Step> {
    Exchange(SdWrite(lba, data, now, true), NextWrite(s, lba, data), Handle(s.host, NextWrite(s, lba, data), io).1,
             io, later, session)
  }

  /** The step of a queued write, when its line goes out. */
  lemma WriteTaken(s: System, lba: U64, data: Block, now: U64)
    requires s.service.Valid() && s.bridge.AddressValid(lba) && !s.bridge.readOnly && !s.bridge.writePending
    requires var request := s.service.backend.BeginWrite(lba, s.bridge.generation, data, now).1;
             request.error == NoError && request.line != ""
    ensures var (b, request) := s.service.backend.BeginWrite(lba, s.bridge.generation, data, now);
            && s.bridge.Write(s.service, lba, data, now, true).2 == Pending
            && Take(s, SdWrite(lba, data, now, true))
            == s.(service := s.service.(backend := b), requests := s.requests + {request.line},
                  bridge := s.bridge.(pendingLba := lba, pendingData := data, writePending := true))
  {
    hide Backend.BeginWrite;
  }

  lemma WriteStarts(s: System, lba: U64, data: Block, now: U64)
    requires SystemInv(s) && AtRest(s) && s.bridge.AddressValid(lba) && !s.bridge.readOnly && !s.bridge.writePending
    ensures var q := Take(s, SdWrite(lba, data, now, true));
            var b, b' := s.service.backend, q.service.backend;
            && s.bridge.Write(s.service, lba, data, now, true).2 == Pending
            && Underway(q, NextWrite(s, lba, data)) && q.host == s.host
            && q.bridge == s.bridge.(pendingLba := lba, pendingData := data, writePending := true)
            && b'.client == b.client.Reserve(false) && b'.lba == lba && b'.generation == s.bridge.generation
            && b'.hasGeneration && b'.mediaGeneration == s.bridge.generation && |b'.pool.slots| == |b.pool.slots|
            && b'.coordinator.timeout == b.coordinator.timeout && b'.coordinator.operation == WriteBlock(lba, data)
            && b'.coordinator.retry == b.coordinator.retry.RecordSuccess()
  {
    hide SystemInv, SI.ServiceInv, BackendInv, Backend.BeginWrite, MessageText, Token, NoNewReady, NoReadyFor, Take,
      SdBridge.Write;
    TakeApart(s);
    SystemIsValid(s);
    SystemIsNamed(s);
    var b, g := s.service.backend, s.bridge.generation;
    NothingPending(s.service);
    WriteBeginsExactly(b, lba, g, data, now);
    WriteSends(b, lba, g, data, now);
    BeginWriteFacts(b, lba, g, data, now);
    StartedWrite(b, lba, g, data, now);
    WriteTaken(s, lba, data, now);
    OperationTextIsMessage(WriteBlock(lba, data), b.client.nextId, b.client.sessionId);
    hide OperationText;
  }

  /** A pending write whose sector is Ready completes. */
  lemma ReadyWriteCompletes(s: System, lba: U64, data: Block)
    requires SystemInv(s) && s.bridge.AddressValid(lba) && !s.bridge.readOnly && s.bridge.writePending
    requires s.bridge.pendingLba == lba && s.bridge.pendingData == data
    requires s.service.backend.pool.HasReady(lba, s.bridge.generation)
    requires lba < |s.host.image| && s.host.image[lba] == data
    ensures forall now: U64, sent: bool ::
              s.bridge.Write(s.service, lba, data, now, sent).2 == Complete
              && s.bridge.Write(s.service, lba, data, now, sent).0 == s.bridge.(writePending := false)
  {
    hide SystemInv, BackendInv, Backend.BeginRead;
    TakeApart(s);
    ReadCompletesExactly(s.bridge, s.service, lba, 0, false);
    CompleteReadIsCurrent(s, lba, 0, false);
  }

  /**
   * A write over a faithful channel: the first call queues it, and once the host has answered and
   * the answer has arrived the repeated call completes. The host then holds exactly that block in
   * that sector, and the bridge is at rest again unless the ids have run out.
   */
  lemma WriteCompletes(s: System, lba: U64, data: Block, now: U64, io: ImageIo, later: U64, session: string)
    requires SystemInv(s) && AtRest(s) && s.bridge.AddressValid(lba) && lba < |s.host.image|
    requires !s.bridge.readOnly && !s.bridge.writePending && s.host.writable && io.healthy > 0 && Token(session)
    ensures var q := Run(s, WriteSteps(s, lba, data, now, io, later, session));
            && s.bridge.Write(s.service, lba, data, now, true).2 == Pending
            && SystemInv(q) && ReadsAs(q, lba, data)
            && (forall t: U64, again: bool ::
                  q.bridge.Write(q.service, lba, data, t, again).2 == Complete
                  && q.bridge.Write(q.service, lba, data, t, again).0 == s.bridge.(pendingLba := lba, pendingData := data))
            && q.host == s.host.(image := s.host.image[lba := data], lastRequestId := s.service.backend.client.nextId)
            && (s.service.backend.client.nextId != MAX_U64 ==> AtRest(q))
  {
    hide SystemInv, BackendInv, SdBridge.Read, SdBridge.Write, P.Pool.HasReady, Take, Run, Underway, Token, ReadsAs,
      MessageText, ReplyText, Handle;
    var m := NextWrite(s, lba, data);
    var steps := WriteSteps(s, lba, data, now, io, later, session);
    WriteStarts(s, lba, data, now);
    AnswerCompletes(Take(s, steps[0]), m, io, later, session);
    RunOfThree(s, steps[0], steps[1], steps[2]);
    RunKeeps(s, steps);
    ReadyReadsAs(Run(s, steps), lba);
    ReadyWriteCompletes(Run(s, steps), lba, data);
  }

  // ---- Connecting --------------------------------------------------------------

  /** The system once the handshake has been answered. */
  function Greeted(image: seq<Block>, cardType: string, writable: bool, session: string): System {
    var v := NewService();
    System(v.(wasConnected := true, backend := v.backend.(client := NewClient(session, 2))), NewBridge(),
           NewHost(image, cardType, writable, session).(established := true, lastRequestId := 1),
           {MessageText(Hello(1))}, {ReplyText(Welcome(1, session))})
  }

  /** A client in a session whose next request has this id. */
  function NewClient(session: string, nextId: U64): Client {
    Client(nextId, 0, false, true, session, NoRemoteError, "")
  }

  lemma HandshakeRun(image: seq<Block>, cardType: string, writable: bool, session: string, now: U64, io: ImageIo, later: U64)
    requires Token(session) && Token(cardType)
    ensures Run(Initial(image, cardType, writable, session),
                Exchange(Poll(true, now, true, session), Hello(1), Welcome(1, session), io, later, session))
         == Greeted(image, cardType, writable, session)
  {
    hide ReplyText, MessageText, Token, Run, Host.Dispatch, Client.AcceptResponse;
    var s := Initial(image, cardType, writable, session);
    var m, r := Hello(1), Welcome(1, session);
    HelloIsMessage(1);
    DispatchOfMessage(s.host, m, io);
    OkIsResponse(r);
    AcceptOfReply(FRESH_CLIENT.Reserve(true), r);
    RunOfThree(s, Poll(true, now, true, session), HostReceives(MessageText(m), io),
               FirmwareReceives(ReplyText(r), later, session));
  }

  lemma HelloIsMessage(id: U64)
    ensures MessageText(Hello(id)) == HelloText(id) != ""
  {}

  /** The host's answer to GET_INFO. */
  function InfoOf(image: seq<Block>, cardType: string, writable: bool, session: string): (r: Reply)
    ensures r.InfoReply?
  {
    InfoReply(2, session, cardType, |image|, !writable)
  }

  function ConnectSteps(
    image: seq<Block>, cardType: string, writable: bool, session: string, now: U64, io: ImageIo, later: U64): seq<Step>
  {
    Exchange(Poll(true, now, true, session), Hello(1), Welcome(1, session), io, later, session)
    + Exchange(Poll(true, now, true, session), Info(2, session), InfoOf(image, cardType, writable, session), io, later, session)
    + [RefreshMedia]
  }

  lemma InfoRun(image: seq<Block>, cardType: string, writable: bool, session: string, now: U64, io: ImageIo, later: U64)
    requires Token(session) && Token(cardType) && 0 < |image| <= MAX_U64
    ensures var s := Greeted(image, cardType, writable, session);
            var q := Run(s, Exchange(Poll(true, now, true, session), Info(2, session),
                                     InfoOf(image, cardType, writable, session), io, later, session));
            && q.bridge == s.bridge && q.host == s.host.(lastRequestId := 2)
            && q.service.mediaInfo == MediaInfo(true, !writable, |image|, 1) && q.service.infoKnown
            && var b := q.service.backend;
               b.client == NewClient(session, 3) && b.coordinator == NewService().backend.coordinator
               && !b.TransferActive() && b.hasGeneration && b.mediaGeneration == 1
               && AllFree(b.pool) && |b.pool.slots| == SECTOR_BUFFERS
  {
    hide ReplyText, MessageText, Token, Run, Host.Dispatch, Client.AcceptResponse, Client.BeginRequest, DecodeMediaInfo;
    var s := Greeted(image, cardType, writable, session);
    var m, r := Info(2, session), InfoOf(image, cardType, writable, session);
    BeginIsMessage(s.service.backend.client, m);
    MessageIsSomething(m);
    DispatchOfMessage(s.host, m, io);
    OkIsResponse(r);
    AcceptOfReply(NewClient(session, 2).Reserve(false), r);
    DecodeOfInfo(r);
    RunOfThree(s, Poll(true, now, true, session), HostReceives(MessageText(m), io),
               FirmwareReceives(ReplyText(r), later, session));
  }

  lemma MessageIsSomething(m: Message)
    ensures MessageText(m) != ""
  {
    hide Numerals.ToDecimal, ReadFieldsText, WriteFieldsText;
  }

  /**
   * Connecting over a faithful channel: two exchanges and a media refresh put the bridge at rest
   * with exactly the host's image exposed, every sector of it addressable and none cached.
   */
  lemma Connects(image: seq<Block>, cardType: string, writable: bool, session: string, now: U64, io: ImageIo, later: U64)
    requires Token(session) && Token(cardType) && 0 < |image| <= MAX_U64
    ensures var s := Run(Initial(image, cardType, writable, session),
                         ConnectSteps(image, cardType, writable, session, now, io, later));
            && SystemInv(s) && AtRest(s) && s.service.backend.client.nextId == 3
            && s.host == NewHost(image, cardType, writable, session).(established := true, lastRequestId := 2)
            && s.bridge == SdBridge(|image|, 1, true, !writable, false, 0, ZeroBlock())
            && s.service.infoKnown && s.service.mediaInfo == MediaInfo(true, !writable, |image|, 1)
            && s.service.backend.coordinator == NewService().backend.coordinator && AllFree(s.service.backend.pool)
  {
    hide Run, SystemInv, Exchange, Token, ReplyText, MessageText, Initial;
    var start := Initial(image, cardType, writable, session);
    InitialInv(image, cardType, writable, session);
    RunKeeps(start, ConnectSteps(image, cardType, writable, session, now, io, later));
    var hello := Exchange(Poll(true, now, true, session), Hello(1), Welcome(1, session), io, later, session);
    var info := Exchange(Poll(true, now, true, session), Info(2, session), InfoOf(image, cardType, writable, session),
                         io, later, session);
    HandshakeRun(image, cardType, writable, session, now, io, later);
    InfoRun(image, cardType, writable, session, now, io, later);
    RunOfBoth(start, hello + info, [RefreshMedia]);
    RunOfBoth(start, hello, info);
    RunKeeps(start, hello + info);
    SystemIsValid(Run(start, hello + info));
    Refreshed(Run(start, hello + info));
  }

  lemma Refreshed(s: System)
    ensures Run(s, [RefreshMedia]) == Take(s, RefreshMedia)
  {
    assert [RefreshMedia][1..] == [];
    assert Run(Take(s, RefreshMedia), []) == Take(s, RefreshMedia);
  }

  lemma NothingCached(p: P.Pool, lba: U64, g: U64)
    requires AllFree(p)
    ensures !p.HasReady(lba, g)
  {}

  /**
   * From power-up over a faithful channel: after connecting, a read of any sector is queued and
   * then completes with the image's block, and a write of any block to a writable image is queued
   * and then completes with exactly that sector of the image replaced.
   */
  lemma FaithfulSession(image: seq<Block>, cardType: string, writable: bool, session: string, io: ImageIo,
                        lba: U64, data: Block, now: U64, later: U64)
    requires Token(session) && Token(cardType) && |image| <= MAX_U64 && lba < |image| && io.healthy > 0
    ensures var s := Run(Initial(image, cardType, writable, session),
                         ConnectSteps(image, cardType, writable, session, now, io, later));
            var q := Run(s, ReadSteps(s, lba, now, io, later, session));
            && s.bridge.Read(s.service, lba, now, true).1 == Pending
            && ReadsAs(q, lba, image[lba]) && q.host.image == image
            && (writable ==>
                  var w := Run(s, WriteSteps(s, lba, data, now, io, later, session));
                  && s.bridge.Write(s.service, lba, data, now, true).2 == Pending
                  && w.bridge.Write(w.service, lba, data, later, true).2 == Complete
                  && ReadsAs(w, lba, data) && w.host.image == image[lba := data])
  {
    hide Run, Initial, SystemInv, AtRest, ReadsAs, ConnectSteps, ReadSteps, WriteSteps, SdBridge.Read, SdBridge.Write, Token;
    Connects(image, cardType, writable, session, now, io, later);
    var s := Run(Initial(image, cardType, writable, session),
                 ConnectSteps(image, cardType, writable, session, now, io, later));
    NothingCached(s.service.backend.pool, lba, 1);
    ReadCompletes(s, lba, now, io, later, session);
    if writable {
      WriteCompletes(s, lba, data, now, io, later, session);
    }
  }
}
