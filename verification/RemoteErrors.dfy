/**
 * What an error answer of the host does to the operation that waits for it, by the code on the line:
 * one more attempt, a parked operation, or the end of it.
 */
module RemoteErrors {
  import opened Basics
  import opened BlockResponse
  import opened Numerals
  import opened TextLines
  import opened SessionClient
  import opened SessionFacts
  import opened RetryControl
  import opened OperationCoordinator
  import P = SectorBufferPool
  import opened WriteThroughBackend
  import opened BackendInvariant
  import opened BackendService
  import SI = ServiceInvariant
  import opened AtMostOnce

  /** An ERR line for this id, and its code. */
  predicate ErrorFor(line: string, id: U64, code: string) {
    Parse(line).Ok? && Parse(line).value.Command() == "ERR" && LineId(line) == id && id != 0
    && Parse(line).value.ValueFor("code") == code != ""
  }

  /** The state an error code leads to. */
  function NextState(code: string, retriesLeft: bool): OperationState {
    if code == "IO_ERROR" then (if retriesLeft then WaitingRetry else OperationFailed)
    else if code in {"STALE_ID", "HANDSHAKE_REQUIRED", "MISSING_SESSION", "BAD_SESSION"} then RenegotiatePending
    else if code == "NO_MEDIA" then MediaUnavailablePending
    else OperationFailed
  }

  // ---- Names of errors ---------------------------------------------------------

  /** The code each error has on the wire. */
  function CodeOf(error: RemoteErrorCode): string
    requires error != NoRemoteError && error != Unknown
  {
    match error
    case BadLine => "BAD_LINE"
    case MissingId => "MISSING_ID"
    case BadId => "BAD_ID"
    case UnsupportedVersion => "UNSUPPORTED_VERSION"
    case StaleId => "STALE_ID"
    case HandshakeRequired => "HANDSHAKE_REQUIRED"
    case MissingSession => "MISSING_SESSION"
    case BadSession => "BAD_SESSION"
    case NoMedia => "NO_MEDIA"
    case IoError => "IO_ERROR"
    case BadRange => "BAD_RANGE"
    case OutOfRange => "RANGE"
    case ReadOnly => "READ_ONLY"
    case BadData => "BAD_DATA"
    case BadCrc => "BAD_CRC"
    case Unsupported => "UNSUPPORTED"
  }

  /** Decoding inverts the codes, and everything else is unknown. */
  lemma CodesDecode(code: string)
    ensures var error := DecodeRemoteError(code);
            error != NoRemoteError && (error != Unknown ==> CodeOf(error) == code)
  {}

  lemma CodeDecodes(error: RemoteErrorCode)
    requires error != NoRemoteError && error != Unknown
    ensures DecodeRemoteError(CodeOf(error)) == error
  {
    hide CodeOf, DecodeRemoteError;
    if IsEarly(error) {
      EarlyCodeDecodes(error);
    } else {
      LateCodeDecodes(error);
    }
  }

  predicate IsEarly(error: RemoteErrorCode) {
    error in {RemoteErrorCode.BadLine, MissingId, BadId, UnsupportedVersion, StaleId, HandshakeRequired, MissingSession, BadSession}
  }

  lemma EarlyCodeDecodes(error: RemoteErrorCode)
    requires IsEarly(error)
    ensures DecodeRemoteError(CodeOf(error)) == error
  {}

  lemma LateCodeDecodes(error: RemoteErrorCode)
    requires error != NoRemoteError && error != Unknown && !IsEarly(error)
    ensures DecodeRemoteError(CodeOf(error)) == error
  {}

  // ---- The coordinator -----------------------------------------------------------

  lemma ErrorSettles(c: Client, line: string, code: string)
    requires c.RequestPending() && ErrorFor(line, c.pendingId, code)
    ensures c.AcceptResponse(line)
         == (c.(pendingId := 0, pendingHandshake := false, remoteError := DecodeRemoteError(code), remoteErrorCode := code), RemoteError)
  {
    hide Parse, ParseU64, TextLine.ValueFor, DecodeRemoteError;
  }

  lemma AdviceOfCode(code: string)
    ensures var advice := RetryAdviceFor(DecodeRemoteError(code));
            && (advice == RetrySameSession <==> code == "IO_ERROR")
            && (advice == Renegotiate <==> code in {"STALE_ID", "HANDSHAKE_REQUIRED", "MISSING_SESSION", "BAD_SESSION"})
            && (advice == MediaUnavailable <==> code == "NO_MEDIA")
  {
    CodesDecode(code);
  }

  /**
   * A waiting operation and an error answer for its request: the request is settled and its timer
   * stopped, and the code on the line decides what becomes of the operation. A retry is scheduled
   * after min(initial * 2^k, maximum), k retries having been used.
   */
  lemma ErrorDecides(c: Coordinator, client: Client, line: string, code: string, now: U64)
    requires CoordinatorInv(c) && c.state == AwaitingResponse
    requires client.RequestPending() && ErrorFor(line, client.pendingId, code)
    ensures var (c', client') := c.AcceptResponse(line, now, client);
            var k := c.retry.scheduled;
            && client' == client.(pendingId := 0, pendingHandshake := false, remoteError := DecodeRemoteError(code),
                                  remoteErrorCode := code)
            && c'.state == NextState(code, k < c.retry.maximumRetries) && !c'.deadline.armed
            && (c'.state == OperationFailed ==> c'.operation.NoOperation?)
            && (c'.state != OperationFailed ==> c'.operation == c.operation)
            && (c'.state == WaitingRetry ==>
                  c'.retry.waiting && c'.retry.scheduled == k + 1
                  && c'.retry.retryAt == Min(now + Min(c.retry.initialBackoff * Power2(k), c.retry.maximumBackoff), MAX_U64))
  {
    hide Parse, TextLine.ValueFor, DecodeRemoteError, LineId, RetryAdviceFor, Client.AcceptResponse, Power2;
    ErrorSettles(client, line, code);
    AdviceOfCode(code);
  }

  // ---- The backend and the service -----------------------------------------------

  /** For a read or a write in progress: an error line reaches the coordinator, and a failed transfer gives its buffer back. */
  lemma ErrorEndsTransfer(b: Backend, line: string, code: string, now: U64)
    requires BackendInv(b) && b.TransferActive() && b.coordinator.state == AwaitingResponse
    requires ErrorFor(line, b.client.pendingId, code) && |line| >= 4 && line[..4] == "ERR "
    ensures var b' := b.AcceptResponse(line, now).0;
            var failed := NextState(code, b.coordinator.retry.scheduled < b.coordinator.retry.maximumRetries) == OperationFailed;
            && (b'.coordinator, b'.client) == b.coordinator.AcceptResponse(line, now, b.client)
            && b'.coordinator.state == NextState(code, b.coordinator.retry.scheduled < b.coordinator.retry.maximumRetries)
            && (failed ==> !b'.TransferActive() && b'.pool.slots == b.pool.slots[b.handle.value := P.FreeSlot()])
            && (!failed ==> b' == b.(coordinator := b'.coordinator, client := b'.client))
  {
    hide Coordinator.AcceptResponse, DecodeReadBlock, Client.AcceptResponse, ErrorFor;
    assert CoordinatorInv(b.coordinator) && SlotOfTransfer(b) && b.client.RequestPending();
    ErrorDecides(b.coordinator, b.client, line, code, now);
  }

  /** At the service: the line is its own, it asks for nothing, and the transfer goes the way the code says. */
  lemma ErrorReachesTransfer(v: Service, line: string, code: string, now: U64)
    requires SI.ServiceInv(v) && SI.Awaiting(v)
    requires ErrorFor(line, v.backend.client.pendingId, code) && |line| >= 4 && line[..4] == "ERR "
    ensures var (v', handled, effect) := v.HandleResponse(line, now);
            var c := v.backend.coordinator;
            && handled && effect == QUIET
            && v'.backend.coordinator.state == NextState(code, c.retry.scheduled < c.retry.maximumRetries)
            && (v'.backend.TransferActive() <==> v'.backend.coordinator.state != OperationFailed)
            && !v'.backend.client.RequestPending()
  {
    hide Backend.AcceptResponse, ErrorFor, BackendInv, Coordinator.AcceptResponse;
    ServiceWaits(v);
    ErrorEndsTransfer(v.backend, line, code, now);
    ErrorDecides(v.backend.coordinator, v.backend.client, line, code, now);
  }

  lemma ServiceWaits(v: Service)
    requires SI.ServiceInv(v) && SI.Awaiting(v)
    ensures BackendInv(v.backend) && CoordinatorInv(v.backend.coordinator) && v.backend.TransferActive()
    ensures v.backend.client.RequestPending() && !v.handshakePending && !v.infoPending
  {}
}
