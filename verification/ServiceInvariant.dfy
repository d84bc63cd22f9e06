/**
 * Every pending request has exactly one owner, and the structural invariant of the backend holds,
 * in every run of the service: whatever lines arrive, whenever they arrive, and whatever the USB
 * stack answers.
 */
module ServiceInvariant {
  import opened Basics
  import opened BlockResponse
  import opened SessionClient
  import opened OperationCoordinator
  import opened SessionFacts
  import opened WriteThroughBackend
  import opened BackendInvariant
  import opened BackendService

  predicate Awaiting(v: Service) { v.backend.coordinator.state == AwaitingResponse }

  /** A request is pending exactly when one of its three possible owners waits for it. */
  predicate OneOwner(v: Service) {
    (v.backend.client.RequestPending() <==> v.handshakePending || v.infoPending || Awaiting(v))
    && !(v.handshakePending && v.infoPending)
    && !(v.handshakePending && Awaiting(v))
    && !(v.infoPending && Awaiting(v))
  }

  predicate ServiceInv(v: Service) {
    BackendInv(v.backend) && OneOwner(v)
    && (v.handshakePending <==> v.backend.client.pendingHandshake)
    && (v.infoPending ==> !v.backend.TransferActive() && v.backend.client.negotiated)
    && (!v.wasConnected ==> !v.backend.client.RequestPending() && !v.backend.client.negotiated)
  }

  lemma NewServiceInv()
    ensures ServiceInv(NewService())
  {
    NewBackendInv(SECTOR_BUFFERS, REQUEST_TIMEOUT_US, MAXIMUM_RETRIES, INITIAL_RETRY_BACKOFF_US, MAXIMUM_RETRY_BACKOFF_US);
    hide BackendInv;
  }

  lemma DisconnectedInv(v: Service)
    requires BackendInv(v.backend) && !v.handshakePending && !v.infoPending
    ensures ServiceInv(v.Disconnect())
  {
    DisconnectFacts(v.backend);
    hide BackendInv;
  }

  /** Starting a transfer keeps one owner: it is refused while anything else is pending. */
  lemma BegunInv(v: Service, b: Backend, request: Request)
    requires ServiceInv(v) && Begun(v.backend, b, request)
    ensures ServiceInv(v.(backend := b))
  {
    hide BackendInv, NoNewReady, NoReadyFor, OperationText;
  }

  lemma HandshakeInv(v: Service, now: U64, sent: bool)
    requires ServiceInv(v) && v.wasConnected && !v.handshakePending && !v.infoPending
    ensures ServiceInv(v.Handshake(now, sent).0)
  {
    BeginHandshakeFacts(v.backend.client);
    var (b, request) := v.backend.BeginHandshake();
    assert BackendInv(b);
    if !SendRequest(request, sent) {
      DisconnectedInv(v.(backend := b, startedAt := 0));
    }
    hide BackendInv, Client.BeginHandshake, Backend.Disconnect;
  }

  /** GET_INFO is issued only by an idle backend, and its request waits for nothing but itself. */
  lemma GetInfoBegun(b: Backend)
    requires BackendInv(b)
    ensures var (b', request) := b.BeginGetInfo();
            && BackendInv(b') && b' == b.(client := b'.client) && Began(b.client, b'.client, request, false)
            && (request.error == NoError ==> !b.TransferActive() && b.coordinator.state == Idle)
  {
    assert ClientInv(b.client);
    hide BackendInv, Client.BeginRequest;
    BeginRequestFacts(b.client, "GET_INFO", "");
    ClientReplaced(b, b.BeginGetInfo().0.client);
  }

  lemma AskInfoInv(v: Service, now: U64, sent: bool)
    requires ServiceInv(v) && v.wasConnected && v.backend.client.negotiated && !v.handshakePending && !v.infoPending
    ensures ServiceInv(v.AskInfo(now, sent).0)
  {
    hide BackendInv, Backend.BeginGetInfo, Backend.Disconnect;
    GetInfoBegun(v.backend);
    var (b, request) := v.backend.BeginGetInfo();
    if !SendRequest(request, sent) {
      DisconnectedInv(v.(backend := b, startedAt := 0));
    }
  }

  lemma PollTransferInv(v: Service, now: U64)
    requires ServiceInv(v) && !v.handshakePending && !v.infoPending
    ensures ServiceInv(v.PollTransfer(now).0)
  {
    ExpireFacts(v.backend, now);
    var expired := v.backend.ExpireIfDue(now);
    PollFacts(expired, now);
    var polled := expired.Poll(now);
    if expired.coordinator.state in {WaitingRetry, RetryReady} && polled.coordinator.state == RetryReady {
      BackendInvariant.IssueRetryFacts(polled, now);
      BegunInv(v.(backend := polled), polled.IssueRetry(now).0, polled.IssueRetry(now).1);
    }
    hide BackendInv, Backend.ExpireIfDue, Backend.IssueRetry, Begun;
  }

  /** poll_cdc_backend_service keeps the invariant. */
  lemma PollInv(v: Service, connected: bool, now: U64, sent: bool)
    requires ServiceInv(v)
    ensures ServiceInv(v.Poll(connected, now, sent).0)
  {
    if !connected {
      if v.wasConnected {
        DisconnectFacts(v.backend);
      }
    } else if !v.wasConnected {
      HandshakeInv(v.(wasConnected := true), now, sent);
    } else if !v.backend.client.negotiated && !v.handshakePending {
      HandshakeInv(v, now, sent);
    } else if v.backend.client.negotiated && !v.infoPending && !v.backend.TransferActive() && !v.infoKnown {
      AskInfoInv(v, now, sent);
    } else if v.handshakePending || v.infoPending {
      DisconnectFacts(v.backend);
    } else {
      PollTransferInv(v, now);
    }
    hide BackendInv, Service.Handshake, Service.AskInfo, Service.PollTransfer;
  }

  lemma AcceptHandshakeInv(v: Service, line: string)
    requires ServiceInv(v) && v.handshakePending
    ensures var (b, error) := v.backend.AcceptHandshake(line);
            var next := v.(backend := b, handshakePending := false, startedAt := 0);
            ServiceInv(if error == NoError then next else next.Disconnect())
  {
    AcceptFacts(v.backend.client, line);
    var (b, error) := v.backend.AcceptHandshake(line);
    assert BackendInv(b);
    if error != NoError {
      DisconnectedInv(v.(backend := b, handshakePending := false, startedAt := 0));
    }
    hide BackendInv, Client.AcceptResponse, Backend.Disconnect;
  }

  lemma AcceptGetInfoInv(v: Service, line: string)
    requires ServiceInv(v) && v.infoPending
    ensures var (b, result) := v.backend.AcceptGetInfo(line);
            BackendInv(b)
            && (result.Ok? ==> b.client.pendingId == 0 && !b.client.pendingHandshake && b.client.negotiated
                               && b.coordinator.state != AwaitingResponse)
  {
    AcceptFacts(v.backend.client, line);
    var decoded := DecodeMediaInfo(line);
    var (client, error) := v.backend.client.AcceptResponse(line);
    var accepted := v.backend.(client := client);
    assert BackendInv(accepted);
    if decoded.Ok? && error == NoError {
      MediaChangedFacts(accepted, decoded.value.generation);
      InvalidateMediaFacts(accepted);
    }
    hide BackendInv, Client.AcceptResponse, DecodeMediaInfo;
  }

  /** handle_cdc_backend_response keeps the invariant, whatever the line says. */
  lemma HandleResponseInv(v: Service, line: string, now: U64)
    requires ServiceInv(v)
    ensures ServiceInv(v.HandleResponse(line, now).0)
  {
    if IsResponse(line) {
      if v.handshakePending {
        AcceptHandshakeInv(v, line);
      } else if v.infoPending {
        AcceptGetInfoInv(v, line);
        var (b, result) := v.backend.AcceptGetInfo(line);
        if result.Err? {
          DisconnectedInv(v.(backend := b, infoPending := false, infoKnown := false, startedAt := 0,
                             mediaInfo := NO_MEDIA_INFO));
        }
      } else if v.backend.TransferActive() {
        AcceptResponseFacts(v.backend, line, now);
      }
    }
    hide BackendInv, Backend.AcceptResponse, Backend.AcceptGetInfo, Backend.AcceptHandshake, Backend.Disconnect,
      Completed, NoNewReady;
  }

  lemma InvalidatedInv(v: Service)
    requires ServiceInv(v) && !v.handshakePending && !v.infoPending
    ensures ServiceInv(v.(backend := v.backend.Invalidate()))
  {
    InvalidateBackendFacts(v.backend);
    hide BackendInv;
  }

  lemma BeginReadInv(v: Service, lba: U64, g: U64, now: U64, sent: bool)
    requires ServiceInv(v)
    ensures ServiceInv(v.BeginRead(lba, g, now, sent).0)
  {
    BeginReadFacts(v.backend, lba, g, now);
    var (b, request) := v.backend.BeginRead(lba, g, now);
    BegunInv(v, b, request);
    if request.line != "" {
      InvalidatedInv(v.(backend := b));
    }
    hide BackendInv, Backend.BeginRead, Backend.Invalidate, NoNewReady, NoReadyFor, OperationText;
  }

  lemma BeginWriteInv(v: Service, lba: U64, g: U64, data: Block, now: U64, sent: bool)
    requires ServiceInv(v)
    ensures ServiceInv(v.BeginWrite(lba, g, data, now, sent).0)
  {
    BeginWriteFacts(v.backend, lba, g, data, now);
    var (b, request) := v.backend.BeginWrite(lba, g, data, now);
    BegunInv(v, b, request);
    if request.line != "" {
      InvalidatedInv(v.(backend := b));
    }
    hide BackendInv, Backend.BeginWrite, Backend.Invalidate, NoNewReady, NoReadyFor, OperationText;
  }

  lemma CopyReadyInv(v: Service, lba: U64, g: U64)
    requires ServiceInv(v)
    ensures ServiceInv(v.CopyReady(lba, g).0)
  {
    CopyFacts(v.backend, lba, g);
    hide BackendInv, Backend.CopyReady, NoNewReady;
  }

  // ---- Runs of the service -------------------------------------------------

  datatype ServiceCall =
    | CallPoll(connected: bool, now: U64, sent: bool)
    | CallResponse(line: string, now: U64)
    | CallRead(lba: U64, generation: U64, now: U64, sent: bool)
    | CallWrite(lba: U64, generation: U64, data: Block, now: U64, sent: bool)
    | CallCopy(lba: U64, generation: U64)

  function Call(v: Service, call: ServiceCall): Service
    requires v.Valid()
  {
    match call
    case CallPoll(connected, now, sent) => v.Poll(connected, now, sent).0
    case CallResponse(line, now) => v.HandleResponse(line, now).0
    case CallRead(lba, g, now, sent) => v.BeginRead(lba, g, now, sent).0
    case CallWrite(lba, g, data, now, sent) => v.BeginWrite(lba, g, data, now, sent).0
    case CallCopy(lba, g) => v.CopyReady(lba, g).0
  }

  lemma CallInv(v: Service, call: ServiceCall)
    requires ServiceInv(v)
    ensures ServiceInv(Call(v, call))
  {
    hide ServiceInv, Service.Poll, Service.HandleResponse, Service.BeginRead, Service.BeginWrite, Service.CopyReady;
    match call
    case CallPoll(connected, now, sent) => PollInv(v, connected, now, sent);
    case CallResponse(line, now) => HandleResponseInv(v, line, now);
    case CallRead(lba, g, now, sent) => BeginReadInv(v, lba, g, now, sent);
    case CallWrite(lba, g, data, now, sent) => BeginWriteInv(v, lba, g, data, now, sent);
    case CallCopy(lba, g) => CopyReadyInv(v, lba, g);
  }

  /** One call of a run: the configuration of a service, and so its timers, is always valid. */
  function Make(v: Service, call: ServiceCall): Service {
    if v.Valid() then Call(v, call) else v
  }

  function Run(v: Service, calls: seq<ServiceCall>): Service
    decreases calls
  {
    if calls == [] then v else Run(Make(v, calls[0]), calls[1..])
  }

  lemma ServiceIsValid(v: Service)
    requires ServiceInv(v)
    ensures v.Valid()
  {}

  lemma {:induction false} RunInv(v: Service, calls: seq<ServiceCall>)
    requires ServiceInv(v)
    ensures ServiceInv(Run(v, calls))
    decreases calls
  {
    hide ServiceInv, Call;
    if calls != [] {
      ServiceIsValid(v);
      CallInv(v, calls[0]);
      RunInv(Make(v, calls[0]), calls[1..]);
    }
  }

  /**
   * After any sequence of service calls: one owner per pending request, the deadline armed
   * exactly while a transfer waits for its response, the operation retained exactly while it may
   * be reissued, and the transfer, its slot and the selected medium in agreement.
   */
  lemma EveryRun(calls: seq<ServiceCall>)
    ensures var v := Run(NewService(), calls);
            v.Valid() && OneOwner(v)
            && (Awaiting(v) <==> v.backend.coordinator.deadline.armed)
            && (Active(v.backend.coordinator.state) <==> !v.backend.coordinator.operation.NoOperation?)
            && InFlightIsTransfer(v.backend) && DistinctKeys(v.backend.pool.slots)
            && OneGeneration(v.backend) && OperationIsTransfer(v.backend)
  {
    hide Run, NewService, OneOwner, InFlightIsTransfer, DistinctKeys, OneGeneration, OperationIsTransfer;
    NewServiceInv();
    RunInv(NewService(), calls);
  }

  // ---- The timer of the handshake and the media query ----------------------

  /** The handshake or the media query waits for its answer. */
  predicate Querying(v: Service) { v.handshakePending || v.infoPending }

  /** A service and the time of the poll that sent its latest query. */
  datatype Watched = Watched(service: Service, askedAt: U64)

  function Watch(w: Watched, call: ServiceCall): Watched {
    var v' := Make(w.service, call);
    Watched(v', if call.CallPoll? && !Querying(w.service) && Querying(v') then call.now else w.askedAt)
  }

  function WatchRun(w: Watched, calls: seq<ServiceCall>): Watched
    decreases calls
  {
    if calls == [] then w else WatchRun(Watch(w, calls[0]), calls[1..])
  }

  predicate QueryTimed(v: Service, askedAt: U64) {
    if Querying(v) then v.wasConnected && v.startedAt == askedAt else v.startedAt == 0
  }

  lemma PollKeepsTimer(v: Service, connected: bool, now: U64, sent: bool, askedAt: U64)
    requires ServiceInv(v) && QueryTimed(v, askedAt)
    ensures var v' := v.Poll(connected, now, sent).0;
            QueryTimed(v', if !Querying(v) && Querying(v') then now else askedAt)
  {
    hide BackendInv, Backend.BeginHandshake, Backend.BeginGetInfo, Backend.Disconnect, Backend.ExpireIfDue, Backend.IssueRetry;
    HandshakeIsFirst(v);
  }

  lemma HandshakeIsFirst(v: Service)
    requires ServiceInv(v)
    ensures v.handshakePending ==> !v.backend.client.negotiated
  {}

  lemma OthersKeepTimer(v: Service, call: ServiceCall, askedAt: U64)
    requires ServiceInv(v) && QueryTimed(v, askedAt) && !call.CallPoll?
    ensures QueryTimed(Call(v, call), askedAt)
  {
    hide BackendInv, Backend.AcceptHandshake, Backend.AcceptGetInfo, Backend.AcceptResponse, Backend.Disconnect,
      Backend.BeginRead, Backend.BeginWrite, Backend.CopyReady, Backend.Invalidate, IsResponse;
  }

  lemma {:induction false} WatchKeeps(w: Watched, calls: seq<ServiceCall>)
    requires ServiceInv(w.service) && QueryTimed(w.service, w.askedAt)
    ensures var w' := WatchRun(w, calls);
            w'.service == Run(w.service, calls) && ServiceInv(w'.service) && QueryTimed(w'.service, w'.askedAt)
    decreases calls
  {
    hide ServiceInv, Call, QueryTimed;
    if calls != [] {
      var call := calls[0];
      ServiceIsValid(w.service);
      CallInv(w.service, call);
      if call.CallPoll? {
        PollKeepsTimer(w.service, call.connected, call.now, call.sent, w.askedAt);
        PollCall(w.service, call);
      } else {
        OthersKeepTimer(w.service, call, w.askedAt);
      }
      WatchKeeps(Watch(w, call), calls[1..]);
    }
  }

  lemma PollCall(v: Service, call: ServiceCall)
    requires v.Valid() && call.CallPoll?
    ensures Call(v, call) == v.Poll(call.connected, call.now, call.sent).0
  {}

  /** A connected poll during a query: the session is given up exactly when the timeout has elapsed, and nothing else happens. */
  lemma PollOfQuery(v: Service, now: U64, sent: bool)
    requires ServiceInv(v) && Querying(v) && v.wasConnected
    ensures var (v', effect) := v.Poll(true, now, sent);
            if (now - v.startedAt) % (MAX_U64 + 1) >= REQUEST_TIMEOUT_US
            then effect == Effect("", true) && !Querying(v') && !v'.backend.client.RequestPending() && !v'.backend.client.negotiated
            else (v', effect) == (v, QUIET)
  {
    DisconnectFacts(v.backend);
    hide BackendInv, Backend.Disconnect;
  }

  /**
   * After any run, while a handshake or media query waits, its timer runs from the poll that sent
   * it: a connected poll leaves everything alone until the timeout has elapsed since then, and
   * from then on gives up the query and the session.
   */
  lemma QueriesAreTimed(calls: seq<ServiceCall>, now: U64, sent: bool)
    ensures var w := WatchRun(Watched(NewService(), 0), calls);
            w.service == Run(NewService(), calls) && w.service.Valid()
            && (Querying(w.service) ==>
                  var (v', effect) := w.service.Poll(true, now, sent);
                  if (now - w.askedAt) % (MAX_U64 + 1) >= REQUEST_TIMEOUT_US
                  then effect == Effect("", true) && !Querying(v') && !v'.backend.client.RequestPending()
                       && !v'.backend.client.negotiated
                  else (v', effect) == (w.service, QUIET))
  {
    hide Run, WatchRun, ServiceInv, Service.Poll;
    NewServiceInv();
    WatchKeeps(Watched(NewService(), 0), calls);
    var w := WatchRun(Watched(NewService(), 0), calls);
    ServiceIsValid(w.service);
    if Querying(w.service) {
      PollOfQuery(w.service, now, sent);
    }
  }
}
