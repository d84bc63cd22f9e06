/**
 * What ends a transfer without an answer gives everything back: a line the USB stack refused, the
 * last timeout, another medium.
 */
module FailedTransfers {
  import opened Basics
  import opened BlockResponse
  import opened SessionClient
  import opened OperationCoordinator
  import opened SessionFacts
  import P = SectorBufferPool
  import opened WriteThroughBackend
  import opened BackendInvariant
  import opened BackendService

  /** No transfer, and no buffer in flight for one. */
  ghost predicate AtRest(b: Backend) {
    b.transfer == NoTransfer && forall i :: 0 <= i < |b.pool.slots| ==> !b.pool.slots[i].InFlight()
  }

  lemma NoTransferNoBuffer(b: Backend)
    requires BackendInv(b) && b.transfer == NoTransfer
    ensures AtRest(b)
  {}

  /** A transfer whose line the USB stack refuses is given up on the spot, and the next one can start. */
  lemma UnsentReadIsGivenUp(v: Service, lba: U64, g: U64, now: U64)
    requires BackendInv(v.backend)
    ensures var (v', ok, effect) := v.BeginRead(lba, g, now, false);
            effect.line != "" ==> !ok && AtRest(v'.backend) && v'.backend.ReadyForTransfer() && !v'.backend.client.RequestPending()
  {
    hide Backend.BeginRead, Backend.Invalidate, BackendInv;
    var (b, request) := v.backend.BeginRead(lba, g, now);
    BeginReadFacts(v.backend, lba, g, now);
    BeginKeepsSession(v.backend, lba, g, now);
    InvalidateBackendFacts(b);
    GivenUp(b);
  }

  lemma UnsentWriteIsGivenUp(v: Service, lba: U64, g: U64, data: Block, now: U64)
    requires BackendInv(v.backend)
    ensures var (v', ok, effect) := v.BeginWrite(lba, g, data, now, false);
            effect.line != "" ==> !ok && AtRest(v'.backend) && v'.backend.ReadyForTransfer() && !v'.backend.client.RequestPending()
  {
    hide Backend.BeginWrite, Backend.Invalidate, BackendInv;
    var (b, request) := v.backend.BeginWrite(lba, g, data, now);
    BeginWriteFacts(v.backend, lba, g, data, now);
    BeginWriteKeepsSession(v.backend, lba, g, data, now);
    InvalidateBackendFacts(b);
    GivenUp(b);
  }

  lemma GivenUp(b: Backend)
    requires BackendInv(b)
    ensures var b' := b.Invalidate();
            AtRest(b') && b'.client.negotiated == b.client.negotiated && !b'.client.RequestPending()
            && b'.coordinator.state == Idle
  {
    InvalidateBackendFacts(b);
    NoTransferNoBuffer(b.Invalidate());
  }

  lemma BeginKeepsSession(b: Backend, lba: U64, g: U64, now: U64)
    ensures var (b', request) := b.BeginRead(lba, g, now); request.line != "" ==> b'.client.negotiated
  {
    hide Client.BeginRequest, P.Pool.ReserveRead, P.Pool.Release;
    BeginRequestFacts(b.client, "READ_BLOCKS", ReadFieldsText(lba));
  }

  lemma BeginWriteKeepsSession(b: Backend, lba: U64, g: U64, data: Block, now: U64)
    ensures var (b', request) := b.BeginWrite(lba, g, data, now); request.line != "" ==> b'.client.negotiated
  {
    hide Client.BeginRequest, P.Pool.ReserveWrite, P.Pool.Release, P.Pool.InvalidateReady;
    BeginRequestFacts(b.client, "WRITE_BLOCKS", WriteFieldsText(lba, data));
  }

  /** A transfer that failed, by its last timeout or before, is given up by the next look at its timer. */
  lemma FailureFreesBuffer(b: Backend, now: U64)
    requires BackendInv(b) && b.Valid()
    ensures var b' := b.ExpireIfDue(now);
            && (b'.coordinator.state == OperationFailed ==> AtRest(b'))
            && (b.coordinator.state == OperationFailed ==> b'.coordinator.state == OperationFailed)
  {
    hide BackendInv, Backend.AbandonTransfer;
    ExpireFacts(b, now);
    var b' := b.ExpireIfDue(now);
    Abandoned(b, now);
    if b'.coordinator.state == OperationFailed {
      NoTransferNoBuffer(b');
    }
  }

  lemma Abandoned(b: Backend, now: U64)
    requires b.Valid()
    ensures var b' := b.ExpireIfDue(now);
            && (b'.coordinator.state == OperationFailed ==> b'.transfer == NoTransfer)
            && (b.coordinator.state == OperationFailed ==> b'.coordinator.state == OperationFailed)
  {}

  /** At the service: a failed transfer, whatever made it fail, lasts no longer than the next poll. */
  lemma FailedPollRests(v: Service, now: U64, sent: bool)
    requires BackendInv(v.backend) && v.Valid() && v.wasConnected && v.backend.client.negotiated
    requires v.backend.TransferActive() && v.backend.coordinator.state == OperationFailed && !v.handshakePending && !v.infoPending
    ensures var (v', effect) := v.Poll(true, now, sent);
            AtRest(v'.backend) && effect == QUIET && v' == v.(backend := v'.backend)
  {
    hide BackendInv, Backend.ExpireIfDue, Backend.Poll, Backend.IssueRetry;
    FailureFreesBuffer(v.backend, now);
  }

  /**
   * The answer to GET_INFO is a barrier exactly when it brings news: another medium empties the
   * cache, no medium empties it and forgets the generation, the same medium leaves every buffer.
   */
  lemma GetInfoIsBarrier(b: Backend, line: string)
    requires BackendInv(b) && !b.TransferActive()
    ensures var (b', result) := b.AcceptGetInfo(line);
            && BackendInv(b') && b'.transfer == NoTransfer
            && (result.Err? ==> b'.pool == b.pool && b'.hasGeneration == b.hasGeneration && b'.mediaGeneration == b.mediaGeneration)
            && (result.Ok? && result.value.present ==> b'.hasGeneration && b'.mediaGeneration == result.value.generation)
            && (result.Ok? && result.value.present && b.hasGeneration && b.mediaGeneration == result.value.generation ==>
                  b'.pool == b.pool)
            && (result.Ok? && result.value.present && !(b.hasGeneration && b.mediaGeneration == result.value.generation) ==>
                  AllFree(b'.pool))
            && (result.Ok? && !result.value.present ==> AllFree(b'.pool) && !b'.hasGeneration)
  {
    hide DecodeMediaInfo, Client.AcceptResponse;
    AcceptFacts(b.client, line);
    var decoded := DecodeMediaInfo(line);
    var (client, error) := b.client.AcceptResponse(line);
    var accepted := b.(client := client);
    assert BackendInv(accepted);
    if decoded.Ok? && error == NoError {
      MediaChangedFacts(accepted, decoded.value.generation);
      InvalidateMediaFacts(accepted);
    }
  }
}
