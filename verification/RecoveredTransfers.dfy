/** A transfer that the host fails once with IO_ERROR: the firmware asks again, and the second answer completes it. */
module RecoveredTransfers {
  import opened Basics
  import opened Numerals
  import opened TextLines
  import opened SessionClient
  import opened SessionFacts
  import opened OperationCoordinator
  import P = SectorBufferPool
  import opened WriteThroughBackend
  import opened BackendInvariant
  import opened BackendService
  import SI = ServiceInvariant
  import opened SessionDispatcher
  import opened Wire
  import opened WireReplies
  import opened SessionSystem
  import opened Coherence
  import opened WriteThroughCard
  import opened FaithfulRun
  import opened RemoteErrors

  // ---- The failing attempt -------------------------------------------------------

  /** The text of a refusal is an error line for its id and code. */
  lemma RefusalIsError(id: U64, code: string)
    requires id != 0 && Token(code)
    ensures var text := ReplyText(Refusal(id, code));
            ErrorFor(text, id, code) && |text| >= 4 && text[..4] == "ERR " && IsResponse(text)
  {
    hide ToDecimal, Parse, ParseU64, TextLine.ValueFor, TextLine.Command, IsResponse;
    ReplyParses(Refusal(id, code));
    PrintableDecimal(id);
    ErrorPrefix(id, code);
  }

  lemma ErrorPrefix(id: U64, code: string)
    ensures var text := ReplyText(Refusal(id, code)); |text| >= 4 && text[..4] == "ERR " && IsResponse(text)
  {
    hide ToDecimal;
  }

  /** The host fails the request once, and the firmware waits for its next attempt. */
  lemma FailedAttempt(s: System, m: Message, io: ImageIo, later: U64, session: string)
    requires SystemInv(s) && Underway(s, m) && Token(session)
    requires m.lba < |s.host.image| && io.healthy == 0 && (m.Write? ==> s.host.writable)
    requires var retry := s.service.backend.coordinator.retry; retry.scheduled < retry.maximumRetries
    ensures var r := Refusal(m.id, "IO_ERROR");
            var q := Take(Take(s, HostReceives(MessageText(m), io)), FirmwareReceives(ReplyText(r), later, session));
            var b, b' := s.service.backend, q.service.backend;
            var k := b.coordinator.retry.scheduled;
            && SystemInv(q) && q.bridge == s.bridge && q.service == s.service.(backend := b')
            && q.host == s.host.(lastRequestId := m.id,
                                 image := if m.Write? then s.host.image[m.lba := io.torn] else s.host.image)
            && b' == b.(coordinator := b'.coordinator, client := b'.client)
            && b'.client.nextId == b.client.nextId && !b'.client.RequestPending() && !b'.client.pendingHandshake
            && b'.client.negotiated && b'.client.sessionId == b.client.sessionId
            && b'.coordinator.state == WaitingRetry && b'.coordinator.operation == b.coordinator.operation
            && b'.coordinator.timeout == b.coordinator.timeout
            && b'.coordinator.retry.retryAt
               == Min(later + Min(b.coordinator.retry.initialBackoff * Power2(k), b.coordinator.retry.maximumBackoff), MAX_U64)
  {
    hide SystemInv, MessageText, ReplyText, Host.Dispatch, BackendInv, Token, ErrorFor, Power2, Backend.AcceptResponse,
      Coordinator.AcceptResponse, IsResponse, DecodeRemoteError;
    var r, b := Refusal(m.id, "IO_ERROR"), s.service.backend;
    RefusalCodes();
    DispatchOfMessage(s.host, m, io);
    RefusalIsError(m.id, "IO_ERROR");
    Structure(b);
    ServiceIsConfigured(b);
    ErrorEndsTransfer(b, ReplyText(r), "IO_ERROR", later);
    ErrorDecides(b.coordinator, b.client, ReplyText(r), "IO_ERROR", later);
    TimeoutKept(b.coordinator, ReplyText(r), later, b.client);
    var answered := Take(s, HostReceives(MessageText(m), io));
    StepKeeps(s, HostReceives(MessageText(m), io));
    StepKeeps(answered, FirmwareReceives(ReplyText(r), later, session));
  }

  lemma TimeoutKept(c: Coordinator, line: string, now: U64, client: Client)
    requires c.Valid()
    ensures c.AcceptResponse(line, now, client).0.timeout == c.timeout
  {
    hide Client.AcceptResponse, RetryAdviceFor;
  }

  // ---- The next attempt ----------------------------------------------------------

  /** The request the next attempt will be. */
  function NextAttempt(s: System): Message {
    var b := s.service.backend;
    OperationMessage(b.coordinator.operation, b.client.nextId, b.client.sessionId)
  }

  /** A poll that finds the retry due sends the operation again. */
  lemma RetryGoesOut(s: System, now: U64, session: string)
    requires SystemInv(s) && Token(session) && FreshInSession(s.host, s.service.backend.client)
    requires var b := s.service.backend;
             && b.TransferActive() && b.coordinator.state == WaitingRetry && b.coordinator.timeout > 0
             && b.coordinator.retry.retryAt <= now
    ensures var q := Take(s, Poll(true, now, true, session));
            var b, b' := s.service.backend, q.service.backend;
            && SystemInv(q) && Underway(q, NextAttempt(s)) && q.host == s.host && q.bridge == s.bridge
            && b' == b.(coordinator := b'.coordinator, client := b.client.Reserve(false))
            && b'.coordinator.timeout == b.coordinator.timeout
  {
    hide SystemInv, SI.ServiceInv, BackendInv, MessageText, OperationText, Token, Coordinator.IssueRetry, NoReadyFor, NoNewReady;
    var b := s.service.backend;
    TakeApart(s);
    SystemIsValid(s);
    FaithfulRun.NothingPending(s.service);
    WaitingTransfer(s.service);
    RetryIssues(b, now);
    var ready := b.Poll(now);
    PollFacts(b, now);
    BackendInvariant.IssueRetryFacts(ready, now);
    OperationTextIsMessage(b.coordinator.operation, b.client.nextId, b.client.sessionId);
    StepKeeps(s, Poll(true, now, true, session));
  }

  /** What the poll relies on: no query is pending, and the operation is the transfer. */
  lemma WaitingTransfer(v: Service)
    requires SI.ServiceInv(v) && v.backend.TransferActive() && v.backend.coordinator.state == WaitingRetry
    requires v.backend.client.negotiated
    ensures v.wasConnected && BackendInv(v.backend) && v.backend.coordinator.retry.waiting && !v.backend.coordinator.deadline.armed
    ensures var b := v.backend;
            b.coordinator.operation == (if b.transfer == ReadTransfer then Operation.ReadBlock(b.lba)
                                        else WriteBlock(b.lba, b.pool.slots[b.handle.value].data))
  {}

  lemma RetryIssues(b: Backend, now: U64)
    requires b.coordinator.state == WaitingRetry && b.coordinator.retry.waiting && b.coordinator.retry.retryAt <= now
    requires !b.coordinator.deadline.armed && b.coordinator.timeout > 0 && NamedSession(b.client)
    requires b.client.negotiated && Reserved(b.client)
    requires b.coordinator.operation.ReadBlock? || b.coordinator.operation.WriteBlock?
    ensures var (b', request) := b.Poll(now).IssueRetry(now);
            b.Poll(now).coordinator.state == RetryReady && request.error == NoError && b'.coordinator.state == AwaitingResponse
            && b'.coordinator.timeout == b.coordinator.timeout
  {
    hide MessageText, Client.BeginRequest, Token, ReadFieldsText, WriteFieldsText;
    var op, c := b.coordinator.operation, b.client;
    BeginIsMessage(c, if op.ReadBlock? then Message.Read(c.nextId, c.sessionId, op.lba)
                      else Message.Write(c.nextId, c.sessionId, op.lba, op.data));
  }

  // ---- The whole run ---------------------------------------------------------------

  /** A retry delay has passed since the answer that failed the first attempt. */
  predicate RetryDue(c: Coordinator, failedAt: U64, now: U64) {
    failedAt + Min(c.retry.initialBackoff, c.retry.maximumBackoff) <= now
  }

  /** The host receives a request, and the firmware its answer. */
  function Exchange(s: System, m: Message, io: ImageIo, answer: Reply, later: U64, session: string): System {
    Take(Take(s, HostReceives(MessageText(m), io)), FirmwareReceives(ReplyText(answer), later, session))
  }

  /** The run: the failed attempt, the retry and its answer; and what the bridge and the image are then. */
  ghost predicate Recovers(s: System, lba: U64, data: Block, now: U64, failing: ImageIo, failedAt: U64, again: U64, io: ImageIo,
                           later: U64, session: string)
    requires lba < |s.host.image| && s.service.backend.client.nextId < MAX_U64
  {
    var m := NextWrite(s, lba, data);
    var m' := Message.Write(m.id + 1, m.session, lba, data);
    var w := Take(s, SdWrite(lba, data, now, true));
    var p := Take(Exchange(w, m, failing, Refusal(m.id, "IO_ERROR"), failedAt, session), Poll(true, again, true, session));
    var q := Exchange(p, m', io, Handle(p.host, m', io).1, later, session);
    && s.bridge.Write(s.service, lba, data, now, true).2 == Pending
    && MessageText(m') in p.requests
    && q.host.image == s.host.image[lba := data]
    && (forall t: U64, sent: bool :: q.bridge.Write(q.service, lba, data, t, sent).2 == Complete)
    && ReadsAs(q, lba, data)
  }

  /**
   * A write to a writable image: the host fails it once with IO_ERROR and may tear the sector. After
   * the first retry delay the firmware sends the write again; the host stores it, and the repeated
   * call completes. The image then holds exactly that block in that sector and is otherwise as it was.
   */
  lemma WriteRecovers(s: System, lba: U64, data: Block, now: U64, failing: ImageIo, failedAt: U64, again: U64, io: ImageIo,
                      later: U64, session: string)
    requires SystemInv(s) && AtRest(s) && s.bridge.AddressValid(lba) && lba < |s.host.image|
    requires !s.bridge.readOnly && !s.bridge.writePending && s.host.writable && Token(session)
    requires s.service.backend.client.nextId < MAX_U64 && s.service.backend.coordinator.retry.maximumRetries > 0
    requires failing.healthy == 0 && io.healthy > 0 && RetryDue(s.service.backend.coordinator, failedAt, again)
    ensures Recovers(s, lba, data, now, failing, failedAt, again, io, later, session)
  {
    hide SystemInv, BackendInv, SdBridge.Read, SdBridge.Write, P.Pool.HasReady, Take, Token, ReadsAs, MessageText, ReplyText, Handle;
    var m := NextWrite(s, lba, data);
    WriteStarts(s, lba, data, now);
    var w := Take(s, SdWrite(lba, data, now, true));
    StepKeeps(s, SdWrite(lba, data, now, true));
    TakenIsNext(s, SdWrite(lba, data, now, true));
    assert Power2(0) == 1;
    FailedAttempt(w, m, failing, failedAt, session);
    var f := Exchange(w, m, failing, Refusal(m.id, "IO_ERROR"), failedAt, session);
    RetryGoesOut(f, again, session);
    var p := Take(f, Poll(true, again, true, session));
    var m' := Message.Write(m.id + 1, m.session, lba, data);
    AnswerCompletes(p, m', io, later, session);
    AnswerKeeps(p, m', io, later, session);
    var q := Exchange(p, m', io, Handle(p.host, m', io).1, later, session);
    ReadyReadsAs(q, lba);
    ReadyWriteCompletes(q, lba, data);
  }

  lemma TakenIsNext(s: System, step: Step)
    requires SystemInv(s) && Legal(s, step)
    ensures s.service.Valid() && Take(s, step) == Next(s, step)
  {
    hide SystemInv, Next, Legal;
    SystemIsValid(s);
  }

  lemma AnswerKeeps(s: System, m: Message, io: ImageIo, later: U64, session: string)
    requires SystemInv(s) && Token(session) && MessageText(m) in s.requests && Token(s.host.sessionId) && ValidMessage(m)
    ensures SystemInv(Take(Take(s, HostReceives(MessageText(m), io)),
                           FirmwareReceives(ReplyText(Handle(s.host, m, io).1), later, session)))
  {
    hide SystemInv, MessageText, ReplyText, Host.Dispatch, Handle, Token;
    DispatchOfMessage(s.host, m, io);
    var answered := Take(s, HostReceives(MessageText(m), io));
    StepKeeps(s, HostReceives(MessageText(m), io));
    TakenIsNext(s, HostReceives(MessageText(m), io));
    StepKeeps(answered, FirmwareReceives(ReplyText(Handle(s.host, m, io).1), later, session));
    TakenIsNext(answered, FirmwareReceives(ReplyText(Handle(s.host, m, io).1), later, session));
  }

  // ---- Resuming ----------------------------------------------------------------------

  /** A client in a named session that can number one more request. */
  predicate CanAsk(c: Client) { c.negotiated && !c.RequestPending() && c.nextId != 0 && Token(c.sessionId) }

  /** A parked block operation goes out again, unchanged, in whatever session is there, with all its retries. */
  lemma ParkedOperationResumes(c: Coordinator, from: OperationState, now: U64, client: Client)
    requires c.state == from && (from == RenegotiatePending || from == MediaUnavailablePending)
    requires c.timeout > 0 && CanAsk(client) && (c.operation.ReadBlock? || c.operation.WriteBlock?)
    ensures var (c', client', request) := c.Resume(from, now, client);
            && request == Request(NoError, MessageText(OperationMessage(c.operation, client.nextId, client.sessionId)))
            && c'.state == AwaitingResponse && c'.operation == c.operation
            && c'.retry == c.retry.(scheduled := 0, waiting := false, retryAt := 0)
            && c'.deadline == Deadline(Min(now + c.timeout, MAX_U64), true)
            && client' == client.Reserve(false)
  {
    hide MessageText, Client.BeginRequest, Token, ReadFieldsText, WriteFieldsText;
    var op := c.operation;
    BeginIsMessage(client, if op.ReadBlock? then Message.Read(client.nextId, client.sessionId, op.lba)
                           else Message.Write(client.nextId, client.sessionId, op.lba, op.data));
  }

  /**
   * An operation retained over a disconnect, at whatever point of it: once a new session has been
   * negotiated it goes out under an id of that session. One cancelled with the session is gone.
   */
  lemma RetainedOperationResumes(c: Coordinator, now: U64, client: Client)
    requires c.timeout > 0 && CanAsk(client) && (c.operation.ReadBlock? || c.operation.WriteBlock?)
    ensures var kept := c.Disconnect(RetainOperation);
            var (c', client', request) := kept.Resume(RenegotiatePending, now, client);
            && request == Request(NoError, MessageText(OperationMessage(c.operation, client.nextId, client.sessionId)))
            && c'.state == AwaitingResponse && c'.operation == c.operation && client' == client.Reserve(false)
    ensures var gone := c.Disconnect(CancelOperation);
            gone.state == Idle && gone.operation.NoOperation? && !gone.deadline.armed && !gone.retry.waiting
  {
    hide MessageText, Token, Coordinator.Resume;
    ParkedOperationResumes(c.Disconnect(RetainOperation), RenegotiatePending, now, client);
  }
}
