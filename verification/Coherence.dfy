/**
 * The cache is coherent with the host image in every run of the system, and what follows from
 * it: a write reported complete is on the host, and so is a read's data.
 */
module Coherence {
  import opened Basics
  import opened BlockResponse
  import opened SessionClient
  import opened OperationCoordinator
  import opened SessionFacts
  import P = SectorBufferPool
  import opened WriteThroughBackend
  import opened BackendInvariant
  import opened BackendService
  import opened ServiceInvariant
  import opened SessionDispatcher
  import opened Wire
  import opened WireReplies
  import opened SessionSystem

  // ---- The invariant -------------------------------------------------------

  /** The last request id the client has used. */
  function Latest(c: Client): U64 { if c.nextId == 0 then MAX_U64 else c.nextId - 1 }

  predicate Sent(s: System, m: Message) { ValidMessage(m) && MessageText(m) in s.requests }

  ghost predicate RequestsAreMessages(s: System) {
    forall line :: line in s.requests ==> exists m :: Sent(s, m) && MessageText(m) == line
  }

  /** Messages in the channel carry used ids, one message per id, and this session's token. */
  ghost predicate MessagesAreOurs(s: System) {
    (forall m :: Sent(s, m) ==> m.id <= Latest(s.service.backend.client) && (m.Hello? || m.session == s.host.sessionId))
    && (forall m, n :: Sent(s, m) && Sent(s, n) && m.id == n.id ==> m == n)
  }

  predicate SessionAgreed(s: System) {
    s.service.backend.client.negotiated ==>
      s.service.backend.client.sessionId == s.host.sessionId && s.host.established
  }

  function OperationMessage(op: Operation, id: U64, session: string): Message {
    match op
    case ReadBlock(lba) => Read(id, session, lba)
    case WriteBlock(lba, data) => Write(id, session, lba, data)
    case _ => Info(id, session)
  }

  /** The message whose response the firmware is waiting for. */
  function PendingMessage(v: Service): Message {
    var c := v.backend.client;
    if v.handshakePending then Hello(c.pendingId)
    else if v.infoPending then Info(c.pendingId, c.sessionId)
    else OperationMessage(v.backend.coordinator.operation, c.pendingId, c.sessionId)
  }

  predicate PendingWasSent(s: System) {
    s.service.backend.client.RequestPending() ==> Sent(s, PendingMessage(s.service))
  }

  /** A block reply or acknowledgement of the latest request describes the image as it is now. */
  ghost predicate Honest(s: System, r: Reply) {
    ValidReply(r)
    && var h, latest := s.host, Latest(s.service.backend.client);
       match r
       case Refusal(_, _) => true
       case Welcome(id, session) => session == h.sessionId && h.established && Sent(s, Hello(id))
       case InfoReply(id, session, _, _, _) => session == h.sessionId && Sent(s, Info(id, session))
       case BlockReply(id, session, lba, data) =>
         session == h.sessionId && Sent(s, Read(id, session, lba)) && id <= h.lastRequestId
         && lba < |h.image| && (id == latest ==> data == h.image[lba])
       case Done(id, session) =>
         session == h.sessionId && id <= h.lastRequestId
         && exists lba: U64, data: Block :: Sent(s, Write(id, session, lba, data)) && lba < |h.image|
                                && (id == latest ==> data == h.image[lba])
  }

  ghost predicate ResponsesAreHonest(s: System) {
    forall line :: line in s.responses ==> exists r :: Honest(s, r) && ReplyText(r) == line
  }

  /** No ready buffer holds a sector that a write still executable at the host would change. */
  ghost predicate NoStaleBuffer(s: System) {
    forall m :: Sent(s, m) && m.Write? && m.id > s.host.lastRequestId ==> NoReadyFor(s.service.backend.pool, m.lba)
  }

  predicate HostInv(h: Host) {
    Token(h.sessionId) && Token(h.cardType) && (!h.established ==> h.lastRequestId == 0)
  }

  ghost predicate SystemInv(s: System) {
    ServiceInv(s.service) && HostInv(s.host)
    && RequestsAreMessages(s) && MessagesAreOurs(s) && SessionAgreed(s) && PendingWasSent(s)
    && ResponsesAreHonest(s) && NoStaleBuffer(s) && Coherent(s)
  }

  lemma InitialInv(image: seq<Block>, cardType: string, writable: bool, session: string)
    requires Token(session) && Token(cardType)
    ensures SystemInv(Initial(image, cardType, writable, session))
  {
    NewServiceInv();
    hide ServiceInv;
  }

  lemma TakeApart(s: System)
    requires SystemInv(s)
    ensures ServiceInv(s.service) && BackendInv(s.service.backend)
  {}

  lemma SystemIsValid(s: System)
    requires SystemInv(s)
    ensures s.service.Valid()
  {}

  // ---- The firmware moves without sending ----------------------------------

  /** The service's client, as far as the rest of the system can tell, is still where it was. */
  predicate ClientQuiet(v: Service, v': Service) {
    var c, c' := v.backend.client, v'.backend.client;
    c'.negotiated == c.negotiated && c'.sessionId == c.sessionId && Latest(c') >= Latest(c)
    && (c'.pendingId == 0 || (c'.pendingId == c.pendingId && PendingMessage(v') == PendingMessage(v)))
  }

  lemma HonestQuiet(s: System, s': System, r: Reply)
    requires SystemInv(s) && Honest(s, r)
    requires s'.host == s.host && s.requests <= s'.requests
    requires Latest(s'.service.backend.client) >= Latest(s.service.backend.client)
    ensures Honest(s', r)
  {
    hide ServiceInv, MessageText, ReplyText, ValidReply, ValidMessage;
    match r
    case Done(id, session) =>
      var lba: U64, data: Block :| Sent(s, Write(id, session, lba, data)) && lba < |s.host.image|
                       && (id == Latest(s.service.backend.client) ==> data == s.host.image[lba]);
      assert Sent(s', Write(id, session, lba, data));
    case _ =>
  }

  lemma ResponsesQuiet(s: System, s': System)
    requires SystemInv(s)
    requires s'.host == s.host && s.requests <= s'.requests && s'.responses == s.responses
    requires Latest(s'.service.backend.client) >= Latest(s.service.backend.client)
    ensures ResponsesAreHonest(s')
  {
    forall line | line in s'.responses ensures exists r :: Honest(s', r) && ReplyText(r) == line {
      var r :| Honest(s, r) && ReplyText(r) == line;
      HonestQuiet(s, s', r);
    }
  }

  lemma Quiet(s: System, v: Service)
    requires SystemInv(s) && ServiceInv(v) && ClientQuiet(s.service, v)
    requires NoNewReady(s.service.backend.pool, v.backend.pool)
    ensures SystemInv(s.(service := v))
  {
    var s' := s.(service := v);
    ResponsesQuiet(s, s');
    hide ServiceInv, MessageText, ReplyText, ValidReply, ValidMessage, Honest, ResponsesAreHonest, PendingMessage;
    assert forall m :: Sent(s', m) <==> Sent(s, m);
  }

  // ---- The firmware sends a line -------------------------------------------

  /** The service sends m under the client's next id. */
  ghost predicate Sends(s: System, v: Service, m: Message) {
    var c, c' := s.service.backend.client, v.backend.client;
    ValidMessage(m) && c.nextId != 0 && m.id == c.nextId && Latest(c') == m.id
    && (m.Hello? || m.session == s.host.sessionId)
    && c'.negotiated == c.negotiated && c'.sessionId == c.sessionId
    && (c'.pendingId == 0 || PendingMessage(v) == m)
    && NoNewReady(s.service.backend.pool, v.backend.pool)
    && (m.Write? ==> NoReadyFor(v.backend.pool, m.lba))
  }

  lemma SendsKeeps(s: System, v: Service, m: Message)
    requires SystemInv(s) && ServiceInv(v) && Sends(s, v, m)
    ensures SystemInv(s.(service := v, requests := s.requests + {MessageText(m)}))
  {
    hide ServiceInv, MessageText, ReplyText, ValidReply, ValidMessage, Honest, PendingMessage;
    var s' := s.(service := v, requests := s.requests + {MessageText(m)});
    ResponsesQuiet(s, s');
    forall n | Sent(s', n) ensures Sent(s, n) || n == m {
      if !Sent(s, n) {
        MessageTextInjective(n, m);
      }
    }
    assert Sent(s', m);
    forall line | line in s'.requests ensures exists n :: Sent(s', n) && MessageText(n) == line {
      if line in s.requests {
        var n :| Sent(s, n) && MessageText(n) == line;
        assert Sent(s', n);
      }
    }
  }

  // ---- The session is dropped ----------------------------------------------

  lemma DroppedKeeps(s: System, v: Service, line: string, session: string)
    requires SystemInv(s) && ServiceInv(v) && Token(session)
    requires v.backend.client == FRESH_CLIENT
    requires forall i :: 0 <= i < |v.backend.pool.slots| ==> v.backend.pool.slots[i].state != P.Ready
    ensures SystemInv(Emit(s, v, Effect(line, true), session))
  {
    hide ServiceInv, MessageText, ReplyText;
  }

  lemma DisconnectKeeps(s: System, v: Service, line: string, session: string, before: Backend)
    requires SystemInv(s) && ServiceInv(v) && Token(session) && v.backend == before.Disconnect()
    ensures SystemInv(Emit(s, v, Effect(line, true), session))
  {
    DroppedKeeps(s, v, line, session);
    hide ServiceInv, SystemInv, Emit;
  }

  // ---- Service calls -------------------------------------------------------

  lemma OperationTextIsMessage(op: Operation, id: U64, session: string)
    requires op.ReadBlock? || op.WriteBlock?
    ensures OperationText(op, id, session) == MessageText(OperationMessage(op, id, session))
  {
    hide RequestText;
  }

  /** A transfer begun or reissued through `b`: its line is a message under the next id. */
  lemma BegunSends(s: System, b: Backend, request: Request)
    requires SystemInv(s) && Begun(s.service.backend, b, request) && request.line != ""
    requires ServiceInv(s.service.(backend := b))
    ensures var m := OperationMessage(b.coordinator.operation, s.service.backend.client.nextId,
                                      s.service.backend.client.sessionId);
            request.line == MessageText(m) && Sends(s, s.service.(backend := b), m)
  {
    var c := s.service.backend.client;
    assert b.coordinator.operation.ReadBlock? || b.coordinator.operation.WriteBlock? by {
      assert OperationIsTransfer(b) && InFlightIsTransfer(b) && Active(b.coordinator.state);
    }
    OperationTextIsMessage(b.coordinator.operation, c.nextId, c.sessionId);
    assert b.coordinator.operation.lba == b.lba by {
      assert OperationIsTransfer(b) && InFlightIsTransfer(b);
    }
    hide MessageText, OperationText, RequestsAreMessages, MessagesAreOurs, ResponsesAreHonest, NoStaleBuffer, Coherent,
      BackendInv, NoNewReady, NoReadyFor;
  }

  lemma BegunKeeps(s: System, b: Backend, request: Request)
    requires SystemInv(s) && Begun(s.service.backend, b, request)
    ensures SystemInv(Emit(s, s.service.(backend := b), Effect(request.line, false), ""))
  {
    BegunInv(s.service, b, request);
    var v := s.service.(backend := b);
    if request.line == "" {
      assert ClientQuiet(s.service, v);
      Quiet(s, v);
    } else {
      BegunSends(s, b, request);
      SendsKeeps(s, v, OperationMessage(b.coordinator.operation, s.service.backend.client.nextId,
                                        s.service.backend.client.sessionId));
    }
    hide ServiceInv, SystemInv, MessageText, NoNewReady, NoReadyFor, OperationText;
  }

  /** A transfer begun whose line the USB stack refused: it is cancelled, but may still travel. */
  lemma CancelledKeeps(s: System, b: Backend, request: Request)
    requires SystemInv(s) && Begun(s.service.backend, b, request) && request.line != ""
    ensures SystemInv(Emit(s, s.service.(backend := b.Invalidate()), Effect(request.line, false), ""))
  {
    hide SystemInv, MessageText, NoNewReady, NoReadyFor, OperationText, BackendInv, Sends, Backend.Invalidate;
    TakeApart(s);
    BegunInv(s.service, b, request);
    BegunSends(s, b, request);
    var m := OperationMessage(b.coordinator.operation, s.service.backend.client.nextId,
                              s.service.backend.client.sessionId);
    var v := s.service.(backend := b);
    InvalidatedInv(v);
    CancelledSends(s, v, m);
    SendsKeeps(s, v.(backend := b.Invalidate()), m);
  }

  lemma CancelledSends(s: System, v: Service, m: Message)
    requires Sends(s, v, m) && BackendInv(v.backend)
    ensures Sends(s, v.(backend := v.backend.Invalidate()), m)
  {
    hide BackendInv, ValidMessage, PendingMessage;
    InvalidateBackendFacts(v.backend);
  }

  lemma BeginReadKeeps(s: System, lba: U64, g: U64, now: U64, sent: bool)
    requires SystemInv(s)
    ensures var (v, _, effect) := s.service.BeginRead(lba, g, now, sent); SystemInv(Emit(s, v, effect, ""))
  {
    BeginReadFacts(s.service.backend, lba, g, now);
    var (b, request) := s.service.backend.BeginRead(lba, g, now);
    BegunKeeps(s, b, request);
    if request.line != "" {
      CancelledKeeps(s, b, request);
    }
    hide ServiceInv, SystemInv, Backend.BeginRead, Backend.Invalidate, Begun;
  }

  lemma BeginWriteKeeps(s: System, lba: U64, g: U64, data: Block, now: U64, sent: bool)
    requires SystemInv(s)
    ensures var (v, _, effect) := s.service.BeginWrite(lba, g, data, now, sent); SystemInv(Emit(s, v, effect, ""))
  {
    BeginWriteFacts(s.service.backend, lba, g, data, now);
    var (b, request) := s.service.backend.BeginWrite(lba, g, data, now);
    BegunKeeps(s, b, request);
    if request.line != "" {
      CancelledKeeps(s, b, request);
    }
    hide ServiceInv, SystemInv, Backend.BeginWrite, Backend.Invalidate, Begun;
  }

  lemma CopyReadyKeeps(s: System, lba: U64, g: U64)
    requires SystemInv(s)
    ensures SystemInv(s.(service := s.service.CopyReady(lba, g).0))
  {
    CopyFacts(s.service.backend, lba, g);
    CopyReadyInv(s.service, lba, g);
    Quiet(s, s.service.CopyReady(lba, g).0);
    hide ServiceInv, SystemInv, Backend.CopyReady, NoNewReady;
  }

  lemma PrefetchKeeps(s: System, lba: U64, g: U64, now: U64)
    requires SystemInv(s)
    ensures var (b, request) := s.service.backend.BeginPrefetch(lba, g, now);
            SystemInv(Emit(s, s.service.(backend := b), Effect(request.line, false), ""))
  {
    BeginPrefetchFacts(s.service.backend, lba, g, now);
    var (b, request) := s.service.backend.BeginPrefetch(lba, g, now);
    BegunKeeps(s, b, request);
    hide ServiceInv, SystemInv, Backend.BeginPrefetch, Begun;
  }

  // ---- Polling -------------------------------------------------------------

  lemma HandshakeKeeps(s: System, v0: Service, now: U64, sent: bool, session: string)
    requires SystemInv(s) && Token(session)
    requires v0 == s.service.(wasConnected := true) && !s.service.handshakePending && !s.service.infoPending
    requires ServiceInv(v0)
    ensures var (v, effect) := v0.Handshake(now, sent); SystemInv(Emit(s, v, effect, session))
  {
    BeginHandshakeFacts(v0.backend.client);
    HandshakeInv(v0, now, sent);
    var (b, request) := v0.backend.BeginHandshake();
    var (v, effect) := v0.Handshake(now, sent);
    var c := v0.backend.client;
    if SendRequest(request, sent) {
      var m := Hello(c.nextId);
      assert Sends(s, v, m) by {
        hide ServiceInv, HelloText, Client.BeginHandshake;
      }
      SendsKeeps(s, v, m);
    } else {
      DisconnectKeeps(s, v, effect.line, session, b);
    }
    hide ServiceInv, SystemInv, MessageText, Client.BeginHandshake, Backend.Disconnect, Sends;
  }

  lemma AskInfoKeeps(s: System, now: U64, sent: bool, session: string)
    requires SystemInv(s) && Token(session) && s.service.wasConnected && s.service.backend.client.negotiated
    requires !s.service.handshakePending && !s.service.infoPending
    ensures var (v, effect) := s.service.AskInfo(now, sent); SystemInv(Emit(s, v, effect, session))
  {
    hide ServiceInv, SystemInv, Client.BeginRequest, Backend.Disconnect, RequestText, Sends;
    var c := s.service.backend.client;
    BeginRequestFacts(c, "GET_INFO", "");
    TakeApart(s);
    AskInfoInv(s.service, now, sent);
    var (b, request) := s.service.backend.BeginGetInfo();
    var (v, effect) := s.service.AskInfo(now, sent);
    if SendRequest(request, sent) {
      AskInfoSends(s, now);
      SendsKeeps(s, v, Info(c.nextId, c.sessionId));
    } else {
      DisconnectKeeps(s, v, effect.line, session, b);
    }
  }

  lemma AskInfoSends(s: System, now: U64)
    requires SystemInv(s) && s.service.wasConnected && s.service.backend.client.negotiated
    requires !s.service.handshakePending && !s.service.infoPending && s.service.backend.BeginGetInfo().1.error == NoError
    ensures Sends(s, s.service.AskInfo(now, true).0, Info(s.service.backend.client.nextId, s.service.backend.client.sessionId))
  {
    hide ServiceInv, Client.BeginRequest, RequestText, RequestsAreMessages, MessagesAreOurs, ResponsesAreHonest, NoStaleBuffer;
    BeginRequestFacts(s.service.backend.client, "GET_INFO", "");
  }

  lemma PollTransferKeeps(s: System, now: U64)
    requires SystemInv(s) && !s.service.handshakePending && !s.service.infoPending
    ensures var (v, effect) := s.service.PollTransfer(now); SystemInv(Emit(s, v, effect, ""))
  {
    var v := s.service;
    ExpireFacts(v.backend, now);
    var expired := v.backend.ExpireIfDue(now);
    PollFacts(expired, now);
    var polled := expired.Poll(now);
    ExpiredIsQuiet(v, expired);
    Quiet(s, v.(backend := expired));
    ExpiredIsQuiet(v, polled);
    Quiet(s, v.(backend := polled));
    if expired.coordinator.state in {WaitingRetry, RetryReady} && polled.coordinator.state == RetryReady {
      BackendInvariant.IssueRetryFacts(polled, now);
      BegunKeeps(s.(service := v.(backend := polled)), polled.IssueRetry(now).0, polled.IssueRetry(now).1);
    }
    hide ServiceInv, SystemInv, Backend.ExpireIfDue, Backend.IssueRetry, Begun, BackendInv, NoNewReady;
  }

  lemma ExpiredIsQuiet(v: Service, b: Backend)
    requires ServiceInv(v) && BackendInv(b) && !v.handshakePending && !v.infoPending
    requires b.client == v.backend.client
             || (v.backend.coordinator.state == AwaitingResponse && b.client == v.backend.client.Settle())
    requires b.client == v.backend.client && v.backend.coordinator.state == AwaitingResponse
             ==> b.coordinator == v.backend.coordinator
    requires b.coordinator.state == AwaitingResponse ==> v.backend.coordinator.state == AwaitingResponse
    requires b.TransferActive() ==> v.backend.TransferActive()
    ensures ServiceInv(v.(backend := b)) && ClientQuiet(v, v.(backend := b))
  {
    assert WaitsOnClient(b) && ClientInv(b.client) && ClientInv(v.backend.client);
    hide BackendInv;
  }

  lemma PollDownKeeps(s: System, now: U64, sent: bool, session: string)
    requires SystemInv(s) && Token(session)
    ensures var (v, effect) := s.service.Poll(false, now, sent); SystemInv(Emit(s, v, effect, session))
  {
    var v := s.service;
    PollInv(v, false, now, sent);
    var v' := v.Poll(false, now, sent).0;
    if v.wasConnected {
      DisconnectKeeps(s, v', "", session, v.backend);
    } else {
      Quiet(s, v');
    }
    hide SystemInv, Service.Handshake, Service.AskInfo, Service.PollTransfer, Backend.Disconnect, BackendInv;
  }

  /** Only the timeout of the handshake or the media query is left to the poll itself. */
  lemma PollTimeoutKeeps(s: System, now: U64, sent: bool, session: string)
    requires SystemInv(s) && Token(session) && s.service.wasConnected
    requires s.service.handshakePending || s.service.infoPending
    requires s.service.backend.client.negotiated || s.service.handshakePending
    requires !(s.service.backend.client.negotiated && !s.service.infoPending && !s.service.backend.TransferActive() && !s.service.infoKnown)
    ensures var (v, effect) := s.service.Poll(true, now, sent); SystemInv(Emit(s, v, effect, session))
  {
    hide Service.Handshake, Service.AskInfo, Service.PollTransfer, Backend.Disconnect, BackendInv;
    SystemIsValid(s);
    var v := s.service;
    PollInv(v, true, now, sent);
    var (v', effect) := v.Poll(true, now, sent);
    if effect.disconnected {
      DisconnectKeeps(s, v', "", session, v.backend);
    }
  }

  lemma NothingPending(s: System)
    requires SystemInv(s) && !s.service.wasConnected
    ensures !s.service.handshakePending && !s.service.infoPending && ServiceInv(s.service.(wasConnected := true))
  {
    hide BackendInv;
  }

  lemma PendingExcludes(s: System)
    requires SystemInv(s)
    ensures s.service.backend.client.negotiated ==> !s.service.handshakePending
    ensures s.service.infoPending ==> s.service.backend.client.negotiated
  {}

  lemma PollKeeps(s: System, connected: bool, now: U64, sent: bool, session: string)
    requires SystemInv(s) && Token(session)
    ensures var (v, effect) := s.service.Poll(connected, now, sent); SystemInv(Emit(s, v, effect, session))
  {
    hide SystemInv, Emit, Service.Handshake, Service.AskInfo, Service.PollTransfer, Backend.Disconnect, ServiceInv;
    var v := s.service;
    TakeApart(s);
    PendingExcludes(s);
    if !connected {
      PollDownKeeps(s, now, sent, session);
    } else if !v.wasConnected {
      NothingPending(s);
      HandshakeKeeps(s, v.(wasConnected := true), now, sent, session);
    } else if !v.backend.client.negotiated && !v.handshakePending {
      HandshakeKeeps(s, v, now, sent, session);
    } else if v.backend.client.negotiated && !v.infoPending && !v.backend.TransferActive() && !v.infoKnown {
      AskInfoKeeps(s, now, sent, session);
    } else if v.handshakePending || v.infoPending {
      PollTimeoutKeeps(s, now, sent, session);
    } else {
      PollTransferKeeps(s, now);
      PollTransferIsLocal(s, now, session);
    }
  }

  lemma PollTransferIsLocal(s: System, now: U64, session: string)
    requires s.service.Valid()
    ensures var (v, effect) := s.service.PollTransfer(now); Emit(s, v, effect, session) == Emit(s, v, effect, "")
  {
    hide Backend.ExpireIfDue, Backend.IssueRetry;
  }

  // ---- The firmware receives a line ----------------------------------------

  lemma ReplyOf(s: System, line: string) returns (r: Reply)
    requires SystemInv(s) && line in s.responses
    ensures Honest(s, r) && ReplyText(r) == line
  {
    r :| Honest(s, r) && ReplyText(r) == line;
  }

  /** A reply with the pending id answers the pending message. */
  lemma ReplyToPending(s: System, m: Message)
    requires SystemInv(s) && s.service.backend.client.RequestPending() && Sent(s, m)
    requires m.id == s.service.backend.client.pendingId
    ensures m == PendingMessage(s.service) && m.id == Latest(s.service.backend.client)
  {
    assert Sent(s, PendingMessage(s.service));
    assert ClientInv(s.service.backend.client);
    hide ServiceInv, MessageText;
  }

  lemma HandshakeReplyKeeps(s: System, line: string, session: string)
    requires SystemInv(s) && line in s.responses && s.service.handshakePending && Token(session)
    ensures var (b, error) := s.service.backend.AcceptHandshake(line);
            var next := s.service.(backend := b, handshakePending := false, startedAt := 0);
            SystemInv(Emit(s, if error == NoError then next else next.Disconnect(), Effect("", error != NoError), session))
  {
    var r := ReplyOf(s, line);
    var c := s.service.backend.client;
    AcceptOfReply(c, r);
    AcceptHandshakeInv(s.service, line);
    var (b, error) := s.service.backend.AcceptHandshake(line);
    var next := s.service.(backend := b, handshakePending := false, startedAt := 0);
    if error == NoError {
      WelcomedKeeps(s, next, r.session);
    } else {
      DisconnectKeeps(s, next.Disconnect(), "", session, b);
    }
    hide ServiceInv, SystemInv, Client.AcceptResponse, ReplyText, Backend.Disconnect;
  }

  /** The client adopts the session the host announced. */
  lemma WelcomedKeeps(s: System, v: Service, session: string)
    requires SystemInv(s) && ServiceInv(v)
    requires s.host.established && session == s.host.sessionId
    requires v.backend == s.service.backend.(client := v.backend.client)
    requires v.backend.client.sessionId == session && v.backend.client.pendingId == 0
    requires v.backend.client.nextId == s.service.backend.client.nextId
    ensures SystemInv(s.(service := v))
  {
    var s' := s.(service := v);
    ResponsesQuiet(s, s');
    hide ServiceInv, MessageText, ReplyText, ValidReply, ValidMessage, Honest, ResponsesAreHonest, PendingMessage;
    assert forall m :: Sent(s', m) <==> Sent(s, m);
  }

  lemma InfoReplyKeeps(s: System, line: string, session: string)
    requires SystemInv(s) && s.service.infoPending && Token(session)
    requires IsResponse(line)
    ensures var (v, _, effect) := s.service.HandleResponse(line, 0); SystemInv(Emit(s, v, effect, session))
  {
    var v := s.service;
    HandleResponseInv(v, line, 0);
    AcceptFacts(v.backend.client, line);
    var (b, result) := v.backend.AcceptGetInfo(line);
    var (v', _, effect) := v.HandleResponse(line, 0);
    if result.Ok? {
      GetInfoIsQuiet(v, line);
      Quiet(s, v');
    } else {
      DisconnectKeeps(s, v', "", session, b);
    }
    hide ServiceInv, SystemInv, Backend.AcceptGetInfo, Backend.Disconnect, ClientQuiet;
  }

  lemma GetInfoIsQuiet(v: Service, line: string)
    requires ServiceInv(v) && v.infoPending
    ensures var (b, result) := v.backend.AcceptGetInfo(line);
            result.Ok? ==>
              NoNewReady(v.backend.pool, b.pool)
              && b.client.pendingId == 0 && b.client.nextId == v.backend.client.nextId
              && b.client.negotiated == v.backend.client.negotiated && b.client.sessionId == v.backend.client.sessionId
  {
    AcceptFacts(v.backend.client, line);
    var decoded := DecodeMediaInfo(line);
    var (client, error) := v.backend.client.AcceptResponse(line);
    var accepted := v.backend.(client := client);
    assert BackendInv(accepted);
    if decoded.Ok? && error == NoError {
      MediaChangedFacts(accepted, decoded.value.generation);
      InvalidateMediaFacts(accepted);
    }
    hide BackendInv, Client.AcceptResponse, DecodeMediaInfo;
  }

  /** A line that completes the transfer is a reply to the pending request, with the block it stored as Ready. */
  lemma CompletedReply(b: Backend, b': Backend, line: string, r: Reply)
    requires ValidReply(r) && ReplyText(r) == line && Completed(b, b', line) && !b.client.pendingHandshake
    ensures b.client.RequestPending() && r.id == b.client.pendingId && !r.Refusal?
    ensures b.transfer == ReadTransfer ==> r.BlockReply? && r.lba == b.lba && r.data == b'.pool.slots[b.handle.value].data
  {
    hide Client.AcceptResponse, DecodeReadBlock, ReplyText, ValidReply;
    AcceptOfReply(b.client, r);
    DecodeOfReply(r);
  }

  /** While a transfer waits for its response, its own message is the pending one. */
  lemma PendingIsTransfer(v: Service)
    requires ServiceInv(v) && !v.handshakePending && !v.infoPending
    requires v.backend.TransferActive() && v.backend.coordinator.state == AwaitingResponse
    ensures var b, c := v.backend, v.backend.client;
            SlotOfTransfer(b) && !c.pendingHandshake
            && PendingMessage(v) == if b.transfer == ReadTransfer then Read(c.pendingId, c.sessionId, b.lba)
                                    else Write(c.pendingId, c.sessionId, b.lba, b.pool.slots[b.handle.value].data)
  {}

  /** What the host has done when it acknowledges the transfer: the image holds the transfer's block. */
  lemma CompletedTruth(s: System, line: string, b': Backend, r: Reply)
    requires SystemInv(s) && !s.service.handshakePending && !s.service.infoPending
    requires Honest(s, r) && ReplyText(r) == line
    requires Completed(s.service.backend, b', line)
    ensures var b := s.service.backend;
            b.lba < |s.host.image| && b'.pool.slots[b.handle.value].data == s.host.image[b.lba]
            && Latest(b.client) <= s.host.lastRequestId
  {
    hide ServiceInv, SystemInv, ReplyText, ValidReply, PendingMessage, SlotOfTransfer, OneOwner;
    var c := s.service.backend.client;
    TakeApart(s);
    PendingIsTransfer(s.service);
    CompletedReply(s.service.backend, b', line, r);
    match r {
      case Welcome(id, session) => ReplyToPending(s, Hello(id));
      case InfoReply(id, session, _, _, _) => ReplyToPending(s, Info(id, session));
      case BlockReply(id, session, lba, data) => ReplyToPending(s, Read(id, session, lba));
      case Done(id, session) =>
        var lba: U64, data: Block :| Sent(s, Write(id, session, lba, data)) && lba < |s.host.image|
                                     && (id == Latest(c) ==> data == s.host.image[lba]);
        ReplyToPending(s, Write(id, session, lba, data));
      case Refusal(_, _) =>
    }
  }

  /** One buffer turns ready with the block the image holds, once every sent id is used up. */
  lemma BufferReadyKeeps(s: System, v: Service, k: nat)
    requires SystemInv(s) && ServiceInv(v)
    requires var p, p' := s.service.backend.pool, v.backend.pool;
             k < |p.slots| == |p'.slots|
             && (forall i :: 0 <= i < |p.slots| && i != k ==> p'.slots[i] == p.slots[i])
             && p'.slots[k].lba < |s.host.image| && p'.slots[k].data == s.host.image[p'.slots[k].lba]
    requires Latest(s.service.backend.client) <= s.host.lastRequestId
    requires var c, c' := s.service.backend.client, v.backend.client;
             c'.pendingId == 0 && c'.nextId == c.nextId && c'.negotiated == c.negotiated && c'.sessionId == c.sessionId
    ensures SystemInv(s.(service := v))
  {
    var s' := s.(service := v);
    ResponsesQuiet(s, s');
    hide ServiceInv, MessageText, ReplyText, ValidReply, ValidMessage, Honest, ResponsesAreHonest, PendingMessage;
    assert forall m :: Sent(s', m) <==> Sent(s, m);
  }

  lemma TransferReplyKeeps(s: System, line: string, now: U64)
    requires SystemInv(s) && line in s.responses
    requires !s.service.handshakePending && !s.service.infoPending && s.service.backend.TransferActive()
    ensures SystemInv(s.(service := s.service.(backend := s.service.backend.AcceptResponse(line, now).0)))
  {
    var b := s.service.backend;
    AcceptResponseFacts(b, line, now);
    var b' := b.AcceptResponse(line, now).0;
    hide Backend.AcceptResponse, SystemInv, BackendInv;
    var v := s.service.(backend := b');
    assert ServiceInv(s.service) && BackendInv(b) by { TakeApart(s); }
    AcceptedInv(s.service, b');
    if NoNewReady(b.pool, b'.pool) {
      Quiet(s, v);
    } else {
      var r := ReplyOf(s, line);
      CompletedTruth(s, line, b', r);
      hide ServiceInv;
      BufferReadyKeeps(s, v, b.handle.value);
    }
  }

  lemma AcceptedInv(v: Service, b: Backend)
    requires ServiceInv(v) && BackendInv(b) && !v.handshakePending && !v.infoPending
    requires b.client == v.backend.client
             || (v.backend.coordinator.state == AwaitingResponse && b.coordinator.state != AwaitingResponse
                 && b.client.pendingId == 0 && b.client.nextId == v.backend.client.nextId
                 && b.client.negotiated == v.backend.client.negotiated && b.client.sessionId == v.backend.client.sessionId)
    requires b.client == v.backend.client && v.backend.coordinator.state == AwaitingResponse ==> b == v.backend
    requires b.coordinator.state == AwaitingResponse ==> b == v.backend
    ensures ServiceInv(v.(backend := b)) && ClientQuiet(v, v.(backend := b))
  {
    assert WaitsOnClient(b) && ClientInv(b.client) && ClientInv(v.backend.client);
    hide BackendInv;
  }

  lemma ReceiveKeeps(s: System, line: string, now: U64, session: string)
    requires SystemInv(s) && line in s.responses && Token(session)
    ensures var (v, _, effect) := s.service.HandleResponse(line, now); SystemInv(Emit(s, v, effect, session))
  {
    hide SystemInv, Backend.AcceptResponse, Backend.AcceptGetInfo, Backend.AcceptHandshake, Backend.Disconnect;
    var v := s.service;
    if IsResponse(line) {
      if v.handshakePending {
        HandshakeReplyKeeps(s, line, session);
      } else if v.infoPending {
        InfoReplyKeeps(s, line, session);
      } else if v.backend.TransferActive() {
        TransferReplyKeeps(s, line, now);
      }
    }
  }

  // ---- The host receives a line --------------------------------------------

  /** What handling a message changes at the host: never the past, and at most its own sector. */
  ghost predicate Handled(h: Host, h': Host, m: Message) {
    h'.cardType == h.cardType && h'.sessionId == h.sessionId && |h'.image| == |h.image|
    && h'.lastRequestId >= h.lastRequestId && (h.established ==> h'.established)
    && (!h'.established ==> h'.lastRequestId == 0)
    && (h'.image != h.image ==> m.Write? && h.lastRequestId < m.id && m.lba < |h.image|
                                && forall i :: 0 <= i < |h.image| && i != m.lba ==> h'.image[i] == h.image[i])
  }

  lemma HandleFacts(h: Host, m: Message, io: ImageIo)
    requires ValidMessage(m) && HostInv(h)
    ensures Handled(h, Handle(h, m, io).0, m)
  {
    hide Token;
  }

  lemma OldReplyStaysHonest(s: System, s': System, m: Message, r: Reply)
    requires SystemInv(s) && Sent(s, m) && Honest(s, r) && Handled(s.host, s'.host, m)
    requires s'.service == s.service && s'.requests == s.requests
    ensures Honest(s', r)
  {
    hide ServiceInv, MessageText, ReplyText, ValidReply, ValidMessage;
    assert m.id <= Latest(s.service.backend.client);
    match r
    case Done(id, session) =>
      var lba: U64, data: Block :| Sent(s, Write(id, session, lba, data)) && lba < |s.host.image|
                                   && (id == Latest(s.service.backend.client) ==> data == s.host.image[lba]);
      assert Sent(s', Write(id, session, lba, data));
    case _ =>
  }

  lemma NewReplyIsHonest(s: System, s': System, m: Message, io: ImageIo)
    requires SystemInv(s) && Sent(s, m) && s'.host == Handle(s.host, m, io).0
    requires s'.service == s.service && s'.requests == s.requests
    ensures Honest(s', Handle(s.host, m, io).1)
  {
    hide ServiceInv, MessageText, ReplyText, ValidReply, ValidMessage;
    HandleIsValid(s.host, m, io);
    if m.Write? {
      assert m == Write(m.id, m.session, m.lba, m.data);
      assert Sent(s', Write(m.id, m.session, m.lba, m.data));
    }
  }

  lemma HandledResponses(s: System, s': System, m: Message, io: ImageIo)
    requires SystemInv(s) && Sent(s, m) && s'.host == Handle(s.host, m, io).0
    requires s'.service == s.service && s'.requests == s.requests
    requires s'.responses == s.responses + {ReplyText(Handle(s.host, m, io).1)}
    ensures ResponsesAreHonest(s')
  {
    HandleFacts(s.host, m, io);
    NewReplyIsHonest(s, s', m, io);
    hide ServiceInv, MessageText, ReplyText, ValidMessage, Honest, Handle, Handled;
    forall line | line in s'.responses ensures exists r :: Honest(s', r) && ReplyText(r) == line {
      if line in s.responses {
        var r :| Honest(s, r) && ReplyText(r) == line;
        OldReplyStaysHonest(s, s', m, r);
      }
    }
  }

  /** A write the host executes touches no sector that a ready buffer holds. */
  lemma HandledCoherent(s: System, s': System, m: Message)
    requires SystemInv(s) && Sent(s, m) && Handled(s.host, s'.host, m)
    requires s'.service == s.service && s'.requests == s.requests
    ensures Coherent(s') && NoStaleBuffer(s')
  {
    hide ServiceInv, MessageText, ValidMessage, ResponsesAreHonest, RequestsAreMessages, MessagesAreOurs;
    if s'.host.image != s.host.image {
      assert NoReadyFor(s.service.backend.pool, m.lba);
    }
  }

  lemma HandleKeeps(s: System, m: Message, io: ImageIo)
    requires SystemInv(s) && Sent(s, m)
    ensures var (h, r) := Handle(s.host, m, io);
            SystemInv(s.(host := h, responses := s.responses + {ReplyText(r)}))
  {
    hide ServiceInv, MessageText, ReplyText, ValidMessage, Handle, PendingMessage;
    var (h, reply) := Handle(s.host, m, io);
    var s' := s.(host := h, responses := s.responses + {ReplyText(reply)});
    HandleFacts(s.host, m, io);
    HandledResponses(s, s', m, io);
    HandledCoherent(s, s', m);
    assert forall n :: Sent(s', n) <==> Sent(s, n);
  }

  lemma HostReceivesKeeps(s: System, line: string, io: ImageIo)
    requires SystemInv(s) && line in s.requests
    ensures var (h, response) := s.host.Dispatch(line, io);
            SystemInv(s.(host := h, responses := s.responses + {response}))
  {
    var m :| Sent(s, m) && MessageText(m) == line;
    DispatchOfMessage(s.host, m, io);
    HandleKeeps(s, m, io);
    hide SystemInv, MessageText, ReplyText, Handle, Host.Dispatch;
  }

  // ---- The SD bridge -------------------------------------------------------

  lemma BridgeIsFree(s: System, bridge: SdBridge)
    requires SystemInv(s)
    ensures SystemInv(s.(bridge := bridge))
  {
    var s' := s.(bridge := bridge);
    ResponsesQuiet(s, s');
    hide ServiceInv, MessageText, ReplyText, Honest, ResponsesAreHonest;
    assert forall m :: Sent(s', m) <==> Sent(s, m);
  }

  lemma SdReadKeeps(s: System, lba: U64, now: U64, sent: bool)
    requires SystemInv(s)
    ensures var (v, _, _, effect) := s.bridge.Read(s.service, lba, now, sent); SystemInv(Emit(s, v, effect, ""))
  {
    hide SystemInv, Service.CopyReady, Service.BeginRead;
    var g := s.bridge.generation;
    CopyReadyKeeps(s, lba, g);
    BeginReadKeeps(s.(service := s.service.CopyReady(lba, g).0), lba, g, now, sent);
  }

  lemma SdWriteKeeps(s: System, lba: U64, data: Block, now: U64, sent: bool)
    requires SystemInv(s)
    ensures var (bridge, v, _, effect) := s.bridge.Write(s.service, lba, data, now, sent);
            SystemInv(Emit(s.(bridge := bridge), v, effect, ""))
  {
    hide SystemInv, Service.CopyReady, Service.BeginWrite;
    var g := s.bridge.generation;
    var (bridge, _, _, _) := s.bridge.Write(s.service, lba, data, now, sent);
    BridgeIsFree(s, bridge);
    CopyReadyKeeps(s.(bridge := bridge), lba, g);
    BeginWriteKeeps(s.(bridge := bridge), lba, g, data, now, sent);
  }

  // ---- Runs ----------------------------------------------------------------

  /** Every legal step keeps the invariant. */
  lemma StepKeeps(s: System, step: Step)
    requires SystemInv(s) && Legal(s, step)
    ensures SystemInv(Next(s, step))
  {
    hide SystemInv, Service.Poll, Service.HandleResponse, Service.BeginRead, Service.BeginWrite, Service.CopyReady,
      SdBridge.Read, SdBridge.Write, SdBridge.RefreshMedia, Emit, Host.Dispatch, Backend.BeginPrefetch;
    match step
    case Poll(connected, now, sent, session) => PollKeeps(s, connected, now, sent, session);
    case FirmwareReceives(line, now, session) => ReceiveKeeps(s, line, now, session);
    case HostReceives(line, io) => HostReceivesKeeps(s, line, io);
    case BeginRead(lba, g, now, sent) => BeginReadKeeps(s, lba, g, now, sent);
    case BeginPrefetch(lba, g, now) => PrefetchKeeps(s, lba, g, now);
    case BeginWrite(lba, g, data, now, sent) => BeginWriteKeeps(s, lba, g, data, now, sent);
    case CopyReady(lba, g) => CopyReadyKeeps(s, lba, g);
    case RefreshMedia => BridgeIsFree(s, s.bridge.RefreshMedia(s.service));
    case SdRead(lba, now, sent) => SdReadKeeps(s, lba, now, sent);
    case SdWrite(lba, data, now, sent) => SdWriteKeeps(s, lba, data, now, sent);
  }

  /** One step of a run; a step that cannot happen leaves the system where it is. */
  function Take(s: System, step: Step): System {
    if s.service.Valid() && Legal(s, step) then Next(s, step) else s
  }

  function Run(s: System, steps: seq<Step>): System
    decreases steps
  {
    if steps == [] then s else Run(Take(s, steps[0]), steps[1..])
  }

  lemma {:induction false} RunKeeps(s: System, steps: seq<Step>)
    requires SystemInv(s)
    ensures SystemInv(Run(s, steps))
    decreases steps
  {
    hide SystemInv, Next, Legal;
    if steps != [] {
      SystemIsValid(s);
      if Legal(s, steps[0]) {
        StepKeeps(s, steps[0]);
      }
      RunKeeps(Take(s, steps[0]), steps[1..]);
    }
  }

  /**
   * Cache coherence: after any run, every ready sector buffer equals the host image block at its
   * sector, whatever was lost, delayed, duplicated or reordered, timed out and retried, and
   * whichever image writes failed. The service's configuration stays valid, so no step of a run is
   * left out for it.
   */
  lemma CacheCoherent(image: seq<Block>, cardType: string, writable: bool, session: string, steps: seq<Step>)
    requires Token(session) && Token(cardType)
    ensures var s := Run(Initial(image, cardType, writable, session), steps);
            Coherent(s) && s.service.Valid()
  {
    hide Run, Initial;
    InitialInv(image, cardType, writable, session);
    RunKeeps(Initial(image, cardType, writable, session), steps);
    SystemIsValid(Run(Initial(image, cardType, writable, session), steps));
  }

  // ---- Write-through end to end --------------------------------------------

  /** A write the bridge reports Complete is already on the host image, in that sector. */
  lemma CompleteWriteIsOnHost(s: System, lba: U64, input: Block, now: U64, sent: bool)
    requires SystemInv(s)
    requires s.bridge.Write(s.service, lba, input, now, sent).2 == Complete
    ensures lba < |s.host.image| && s.host.image[lba] == input
    ensures Next(s, SdWrite(lba, input, now, sent)).host == s.host
  {
    hide BackendInv, Backend.CopyReady, Service.BeginWrite, NoNewReady;
    CopyFacts(s.service.backend, lba, s.bridge.generation);
  }

  /** A read the bridge reports Complete returns the host image's current block. */
  lemma CompleteReadIsCurrent(s: System, lba: U64, now: U64, sent: bool)
    requires SystemInv(s)
    requires s.bridge.Read(s.service, lba, now, sent).1 == Complete
    ensures lba < |s.host.image| && s.bridge.Read(s.service, lba, now, sent).2 == Some(s.host.image[lba])
  {
    CopyFacts(s.service.backend, lba, s.bridge.generation);
    hide BackendInv, Backend.CopyReady, Service.BeginRead, NoNewReady;
  }
}
