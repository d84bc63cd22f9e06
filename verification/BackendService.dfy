/** The firmware's session service (cdc_backend_service.cpp) and the bridge from the SD model (cdc_sd_backend.cpp). */
module BackendService {
  import opened Basics
  import opened BlockResponse
  import opened SessionClient
  import opened OperationCoordinator
  import opened WriteThroughBackend

  const REQUEST_TIMEOUT_US: U64 := 250_000
  const MAXIMUM_RETRIES := 2
  const INITIAL_RETRY_BACKOFF_US: U64 := 10_000
  const MAXIMUM_RETRY_BACKOFF_US: U64 := 100_000
  const SECTOR_BUFFERS := 8

  /** What a call did outside the service: the line handed to USB, if any, and a session reset. */
  datatype Effect = Effect(line: string, disconnected: bool)

  const QUIET := Effect("", false)

  /** `sent` is what the USB stack answers when a line is offered to it. */
  function SendRequest(request: Request, sent: bool): bool {
    request.error == NoError && request.line != "" && sent
  }

  datatype Service = Service(
    backend: Backend,
    wasConnected: bool,
    handshakePending: bool,
    infoPending: bool,
    infoKnown: bool,
    startedAt: U64,
    mediaInfo: MediaInfo)
  {
    predicate Valid() { backend.Valid() }

    predicate MediaReady() { backend.client.negotiated && mediaInfo.present }

    function ForgetSession(): Service {
      this.(handshakePending := false, infoPending := false, infoKnown := false, startedAt := 0,
            mediaInfo := NO_MEDIA_INFO)
    }

    function Disconnect(): Service { this.(backend := backend.Disconnect()) }

    function Handshake(now: U64, sent: bool): (Service, Effect) {
      var (backend', request) := backend.BeginHandshake();
      var pending := SendRequest(request, sent);
      var next := this.(backend := backend', handshakePending := pending, startedAt := if pending then now else 0);
      (if pending then next else next.Disconnect(), Effect(request.line, !pending))
    }

    function AskInfo(now: U64, sent: bool): (Service, Effect) {
      var (backend', request) := backend.BeginGetInfo();
      var pending := SendRequest(request, sent);
      var next := this.(backend := backend', infoPending := pending, startedAt := if pending then now else 0);
      (if pending then next else next.Disconnect(), Effect(request.line, !pending))
    }

    /** poll_cdc_backend_service; the elapsed time is a 64-bit difference. */
    function Poll(connected: bool, now: U64, sent: bool): (Service, Effect)
      requires Valid()
    {
      if !connected then
        ((if wasConnected then Disconnect() else this).ForgetSession().(wasConnected := false), Effect("", wasConnected))
      else if !wasConnected then this.(wasConnected := true).Handshake(now, sent)
      else if !backend.client.negotiated && !handshakePending then Handshake(now, sent)
      else if backend.client.negotiated && !infoPending && !backend.TransferActive() && !infoKnown then AskInfo(now, sent)
      else if handshakePending || infoPending then
        if (now - startedAt) % (MAX_U64 + 1) >= REQUEST_TIMEOUT_US
        then (Disconnect().ForgetSession(), Effect("", true))
        else (this, QUIET)
      else PollTransfer(now)
    }

    function PollTransfer(now: U64): (Service, Effect)
      requires Valid()
    {
      var expired := backend.ExpireIfDue(now);
      if expired.coordinator.state !in {WaitingRetry, RetryReady} then (this.(backend := expired), QUIET)
      else
        var polled := expired.Poll(now);
        if polled.coordinator.state != RetryReady then (this.(backend := polled), QUIET)
        else
          var (retried, request) := polled.IssueRetry(now);
          (this.(backend := retried), Effect(request.line, false))
    }

    /** handle_cdc_backend_response: whether the line was the service's, and the effect. */
    function HandleResponse(line: string, now: U64): (Service, bool, Effect)
      requires Valid()
    {
      if !IsResponse(line) then (this, false, QUIET)
      else if handshakePending then
        var (backend', error) := backend.AcceptHandshake(line);
        var next := this.(backend := backend', handshakePending := false, startedAt := 0);
        (if error == NoError then next else next.Disconnect(), true, Effect("", error != NoError))
      else if infoPending then
        var (backend', result) := backend.AcceptGetInfo(line);
        var next := this.(backend := backend', infoPending := false, infoKnown := result.Ok?, startedAt := 0);
        if result.Ok? then (next.(mediaInfo := result.value), true, QUIET)
        else (next.(mediaInfo := NO_MEDIA_INFO).Disconnect(), true, Effect("", true))
      else if !backend.TransferActive() then (this, false, QUIET)
      else (this.(backend := backend.AcceptResponse(line, now).0), true, QUIET)
    }

    function BeginRead(lba: U64, generation: U64, now: U64, sent: bool): (Service, bool, Effect) {
      var (backend', request) := backend.BeginRead(lba, generation, now);
      var next := this.(backend := backend');
      if request.error != NoError then (next, false, QUIET)
      else if request.line == "" then (next, true, QUIET)
      else if sent then (next, true, Effect(request.line, false))
      else (next.(backend := backend'.Invalidate()), false, Effect(request.line, false))
    }

    function BeginWrite(lba: U64, generation: U64, data: Block, now: U64, sent: bool): (Service, bool, Effect) {
      var (backend', request) := backend.BeginWrite(lba, generation, data, now);
      var next := this.(backend := backend');
      if request.error != NoError then (next, false, QUIET)
      else if SendRequest(request, sent) then (next, true, Effect(request.line, false))
      else (next.(backend := backend'.Invalidate()), false, Effect(request.line, false))
    }

    function CopyReady(lba: U64, generation: U64): (Service, Option<Block>) {
      var (backend', output) := backend.CopyReady(lba, generation);
      (this.(backend := backend'), output)
    }
  }

  predicate IsResponse(line: string) {
    (|line| >= 3 && line[..3] == "OK ") || (|line| >= 4 && line[..4] == "ERR ")
  }

  function NewService(): (s: Service)
    ensures s.Valid()
  {
    Service(NewBackend(SECTOR_BUFFERS, REQUEST_TIMEOUT_US, MAXIMUM_RETRIES, INITIAL_RETRY_BACKOFF_US,
                       MAXIMUM_RETRY_BACKOFF_US),
            false, false, false, false, 0, NO_MEDIA_INFO)
  }

  class CdcBackendService {
    const backend: CdcWriteThroughBackend
    var wasConnected: bool
    var handshakePending: bool
    var infoPending: bool
    var infoKnown: bool
    var startedAt: U64
    var mediaInfo: MediaInfo

    ghost function Owned(): set<object> { {this} + backend.Owned() }

    ghost function State(): Service
      reads Owned()
    {
      Service(backend.State(), wasConnected, handshakePending, infoPending, infoKnown, startedAt, mediaInfo)
    }

    constructor ()
      ensures State() == NewService() && fresh(Owned())
    {
      backend := new CdcWriteThroughBackend(SECTOR_BUFFERS, REQUEST_TIMEOUT_US, MAXIMUM_RETRIES,
                                            INITIAL_RETRY_BACKOFF_US, MAXIMUM_RETRY_BACKOFF_US);
      wasConnected, handshakePending, infoPending, infoKnown := false, false, false, false;
      startedAt, mediaInfo := 0, NO_MEDIA_INFO;
    }

    method ForgetSession()
      modifies this
      ensures State() == old(State()).ForgetSession()
    {
      handshakePending, infoPending, infoKnown := false, false, false;
      startedAt := 0;
      mediaInfo := NO_MEDIA_INFO;
    }

    method Handshake(now: U64, sent: bool) returns (effect: Effect)
      modifies Owned()
      ensures (State(), effect) == old(State()).Handshake(now, sent)
    {
      var request := backend.BeginHandshake();
      handshakePending := SendRequest(request, sent);
      startedAt := if handshakePending then now else 0;
      if !handshakePending {
        backend.Disconnect();
      }
      return Effect(request.line, !handshakePending);
    }

    method AskInfo(now: U64, sent: bool) returns (effect: Effect)
      modifies Owned()
      ensures (State(), effect) == old(State()).AskInfo(now, sent)
    {
      var request := backend.BeginGetInfo();
      infoPending := SendRequest(request, sent);
      startedAt := if infoPending then now else 0;
      if !infoPending {
        backend.Disconnect();
      }
      return Effect(request.line, !infoPending);
    }

    method Poll(connected: bool, now: U64, sent: bool) returns (effect: Effect)
      requires State().Valid()
      modifies Owned()
      ensures (State(), effect) == old(State()).Poll(connected, now, sent)
    {
      hide Backend.BeginHandshake, Backend.BeginGetInfo, Backend.Disconnect, Backend.ExpireIfDue, Backend.Poll,
        Backend.IssueRetry;
      if !connected {
        var dropped := wasConnected;
        if wasConnected {
          backend.Disconnect();
        }
        wasConnected := false;
        ForgetSession();
        return Effect("", dropped);
      }
      if !wasConnected {
        wasConnected := true;
        effect := Handshake(now, sent);
        return;
      }
      if !backend.client.negotiated && !handshakePending {
        effect := Handshake(now, sent);
        return;
      }
      if backend.client.negotiated && !infoPending && !backend.TransferActive() && !infoKnown {
        effect := AskInfo(now, sent);
        return;
      }
      if handshakePending || infoPending {
        if (now - startedAt) % (MAX_U64 + 1) >= REQUEST_TIMEOUT_US {
          backend.Disconnect();
          ForgetSession();
          return Effect("", true);
        }
        return QUIET;
      }
      effect := PollTransfer(now);
    }

    method PollTransfer(now: U64) returns (effect: Effect)
      requires State().Valid()
      modifies Owned()
      ensures (State(), effect) == old(State()).PollTransfer(now)
    {
      hide Backend.ExpireIfDue, Backend.Poll, Backend.IssueRetry;
      var state := backend.ExpireIfDue(now);
      if state == WaitingRetry || state == RetryReady {
        state := backend.Poll(now);
        if state == RetryReady {
          var request := backend.IssueRetry(now);
          return Effect(request.line, false);
        }
      }
      return QUIET;
    }

    method HandleResponse(line: string, now: U64) returns (handled: bool, effect: Effect)
      requires State().Valid()
      modifies Owned()
      ensures (State(), handled, effect) == old(State()).HandleResponse(line, now)
    {
      hide Backend.AcceptHandshake, Backend.AcceptGetInfo, Backend.AcceptResponse, Backend.Disconnect;
      if !IsResponse(line) {
        return false, QUIET;
      }
      if handshakePending {
        var error := backend.AcceptHandshake(line);
        handshakePending := false;
        startedAt := 0;
        if error != NoError {
          backend.Disconnect();
        }
        return true, Effect("", error != NoError);
      }
      if infoPending {
        var result := backend.AcceptGetInfo(line);
        infoPending := false;
        infoKnown := result.Ok?;
        startedAt := 0;
        if result.Err? {
          mediaInfo := NO_MEDIA_INFO;
          backend.Disconnect();
          return true, Effect("", true);
        }
        mediaInfo := result.value;
        return true, QUIET;
      }
      if !backend.TransferActive() {
        return false, QUIET;
      }
      var _ := backend.AcceptResponse(line, now);
      return true, QUIET;
    }

    method BeginRead(lba: U64, generation: U64, now: U64, sent: bool) returns (ok: bool, effect: Effect)
      modifies Owned()
      ensures (State(), ok, effect) == old(State()).BeginRead(lba, generation, now, sent)
    {
      hide Backend.BeginRead, Backend.Invalidate;
      var request := backend.BeginRead(lba, generation, now);
      if request.error != NoError {
        return false, QUIET;
      }
      if request.line == "" {
        return true, QUIET;
      }
      if SendRequest(request, sent) {
        return true, Effect(request.line, false);
      }
      backend.Invalidate();
      return false, Effect(request.line, false);
    }

    method BeginWrite(lba: U64, generation: U64, data: Block, now: U64, sent: bool) returns (ok: bool, effect: Effect)
      modifies Owned()
      ensures (State(), ok, effect) == old(State()).BeginWrite(lba, generation, data, now, sent)
    {
      hide Backend.BeginWrite, Backend.Invalidate;
      var request := backend.BeginWrite(lba, generation, data, now);
      if request.error != NoError {
        return false, QUIET;
      }
      if SendRequest(request, sent) {
        return true, Effect(request.line, false);
      }
      backend.Invalidate();
      return false, Effect(request.line, false);
    }

    method CopyReady(lba: U64, generation: U64) returns (output: Option<Block>)
      modifies Owned()
      ensures (State(), output) == old(State()).CopyReady(lba, generation)
    {
      output := backend.CopyReady(lba, generation);
    }
  }

  // ---- cdc_sd_backend.cpp --------------------------------------------------

  datatype SdBridge = SdBridge(
    blocks: U64,
    generation: U64,
    present: bool,
    readOnly: bool,
    writePending: bool,
    pendingLba: U64,
    pendingData: Block)
  {
    function RefreshMedia(s: Service): SdBridge {
      var media, ready := s.mediaInfo, s.MediaReady();
      var sameMedium := present && ready && media.present && generation == media.generation;
      var present' := ready && media.present;
      SdBridge(if present' then media.blocks else 0, if present' then media.generation else 0, present',
               !present' || media.readOnly, writePending && sameMedium, pendingLba, pendingData)
    }

    predicate AddressValid(lba: U64) { present && lba < blocks }

    /** The block on Complete; otherwise a read is queued (Pending) or refused (Failed). */
    function Read(s: Service, lba: U64, now: U64, sent: bool): (Service, BlockOperation, Option<Block>, Effect) {
      if !AddressValid(lba) then (s, Failed, None, QUIET)
      else
        var (copied, output) := s.CopyReady(lba, generation);
        if output.Some? then (copied, Complete, output, QUIET)
        else
          var (begun, ok, effect) := copied.BeginRead(lba, generation, now, sent);
          (begun, if ok then Pending else Failed, None, effect)
    }

    function Write(s: Service, lba: U64, input: Block, now: U64, sent: bool): (SdBridge, Service, BlockOperation, Effect) {
      if readOnly || !AddressValid(lba) then (this, s, Failed, QUIET)
      else if writePending then
        if pendingLba != lba || pendingData != input then (this, s, Failed, QUIET)
        else
          var (copied, output) := s.CopyReady(lba, generation);
          if output != Some(input) then (this, copied, Pending, QUIET)
          else (this.(writePending := false), copied, Complete, QUIET)
      else
        var (begun, ok, effect) := s.BeginWrite(lba, generation, input, now, sent);
        if !ok then (this, begun, Failed, effect)
        else (this.(pendingLba := lba, pendingData := input, writePending := true), begun, Pending, effect)
    }
  }

  function NewBridge(): SdBridge { SdBridge(0, 0, false, true, false, 0, ZeroBlock()) }

  class CdcSdBackend {
    const service: CdcBackendService
    var blocks: U64
    var generation: U64
    var present: bool
    var readOnly: bool
    var writePending: bool
    var pendingLba: U64
    var pendingData: Block

    ghost function State(): SdBridge
      reads this
    {
      SdBridge(blocks, generation, present, readOnly, writePending, pendingLba, pendingData)
    }

    constructor (service: CdcBackendService)
      ensures this.service == service && State() == NewBridge()
    {
      this.service := service;
      blocks, generation, present, readOnly, writePending := 0, 0, false, true, false;
      pendingLba, pendingData := 0, ZeroBlock();
    }

    method RefreshMedia()
      modifies this
      ensures State() == old(State()).RefreshMedia(old(service.State()))
    {
      var media := service.mediaInfo;
      var ready := service.backend.client.negotiated && media.present;
      var sameMedium := present && ready && media.present && generation == media.generation;
      present := ready && media.present;
      blocks := if present then media.blocks else 0;
      generation := if present then media.generation else 0;
      readOnly := !present || media.readOnly;
      if !sameMedium {
        writePending := false;
      }
    }

    method Read(lba: U64, now: U64, sent: bool)
      returns (result: BlockOperation, output: Option<Block>, effect: Effect)
      modifies service.Owned()
      ensures (service.State(), result, output, effect) == State().Read(old(service.State()), lba, now, sent)
      ensures State() == old(State())
    {
      hide Service.CopyReady, Service.BeginRead;
      if !(present && lba < blocks) {
        return Failed, None, QUIET;
      }
      output := service.CopyReady(lba, generation);
      if output.Some? {
        return Complete, output, QUIET;
      }
      var ok: bool;
      ok, effect := service.BeginRead(lba, generation, now, sent);
      return if ok then Pending else Failed, None, effect;
    }

    method Write(lba: U64, input: Block, now: U64, sent: bool) returns (result: BlockOperation, effect: Effect)
      modifies this, service.Owned()
      ensures (State(), service.State(), result, effect)
           == old(State()).Write(old(service.State()), lba, input, now, sent)
    {
      hide Service.CopyReady, Service.BeginWrite, CdcBackendService.State;
      if readOnly || !(present && lba < blocks) {
        return Failed, QUIET;
      }
      if writePending {
        if pendingLba != lba || pendingData != input {
          return Failed, QUIET;
        }
        var ready := service.CopyReady(lba, generation);
        if ready != Some(input) {
          return Pending, QUIET;
        }
        writePending := false;
        return Complete, QUIET;
      }
      var ok: bool;
      ok, effect := service.BeginWrite(lba, generation, input, now, sent);
      if !ok {
        return Failed, effect;
      }
      pendingLba := lba;
      pendingData := input;
      writePending := true;
      return Pending, effect;
    }
  }
}
