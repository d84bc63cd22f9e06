/** The write-through sector cache over the session protocol (cdc_write_through_backend.hpp). */
module WriteThroughBackend {
  import opened Basics
  import opened BlockResponse
  import opened SessionClient
  import opened OperationCoordinator
  import P = SectorBufferPool

  datatype TransferType = NoTransfer | ReadTransfer | WriteTransfer

  datatype Backend = Backend(
    client: Client,
    coordinator: Coordinator,
    pool: P.Pool,
    transfer: TransferType,
    handle: Option<nat>,
    lba: U64,
    generation: U64,
    mediaGeneration: U64,
    hasGeneration: bool)
  {
    predicate Valid() { coordinator.Valid() }

    predicate TransferActive() { transfer != NoTransfer }

    predicate ReadyForTransfer() {
      client.negotiated && !TransferActive() && coordinator.state == Idle
    }

    function BeginHandshake(): (Backend, Request) {
      var (client', request) := client.BeginHandshake();
      (this.(client := client'), request)
    }

    function AcceptHandshake(response: string): (Backend, ClientError) {
      var (client', error) := client.AcceptResponse(response);
      (this.(client := client'), error)
    }

    function BeginGetInfo(): (Backend, Request) {
      if !ReadyForTransfer() then (this, Refused(Busy))
      else
        var (client', request) := client.BeginGetInfo();
        (this.(client := client'), request)
    }

    function AcceptGetInfo(response: string): (Backend, Result<MediaInfo, ClientError>) {
      var decoded := DecodeMediaInfo(response);
      if decoded.Err? then (this, Err(InvalidResponse))
      else
        var (client', error) := client.AcceptResponse(response);
        var next := this.(client := client');
        if error != NoError then (next, Err(error))
        else if decoded.value.present then (next.MediaChanged(decoded.value.generation), Ok(decoded.value))
        else (next.InvalidateMedia(), Ok(decoded.value))
    }

    predicate GenerationSelectable(g: U64) { !hasGeneration || mediaGeneration == g }

    function SelectGeneration(g: U64): Backend {
      if hasGeneration then this else this.(mediaGeneration := g, hasGeneration := true)
    }

    /** The end of begin_read and begin_write: start the operation over a reserved slot. */
    function StartTransfer(kind: TransferType, op: Operation, slot: nat, lba: U64, generation: U64, now: U64)
      : (Backend, Request)
    {
      var (coordinator', client', request) := coordinator.Start(op, now, client);
      var next := this.(coordinator := coordinator', client := client');
      if request.error != NoError then (next.(pool := pool.Release(Some(slot)).0), request)
      else (next.(transfer := kind, handle := Some(slot), lba := lba, generation := generation), request)
    }

    function BeginRead(lba: U64, generation: U64, now: U64): (Backend, Request) {
      if !ReadyForTransfer() || !GenerationSelectable(generation) then (this, Refused(Busy))
      else
        var selected := SelectGeneration(generation);
        if selected.pool.FirstReady(lba, generation, 0).Some? then (selected, Request(NoError, ""))
        else
          var (pool', slot) := selected.pool.ReserveRead(lba, generation);
          if slot.None? then (selected, Refused(Busy))
          else selected.(pool := pool')
               .StartTransfer(ReadTransfer, Operation.ReadBlock(lba), slot.value, lba, generation, now)
    }

    function BeginPrefetch(lba: U64, generation: U64, now: U64): (Backend, Request) {
      if !ReadyForTransfer() || !GenerationSelectable(generation) then (this, Refused(Busy))
      else
        var selected := SelectGeneration(generation);
        if selected.pool.Contains(lba, generation) then (selected, Request(NoError, ""))
        else selected.BeginRead(lba, generation, now)
    }

    function BeginSequentialPrefetch(delivered: U64, generation: U64, now: U64): (Backend, Request) {
      if delivered == MAX_U64 then (this, Refused(InvalidRequest))
      else BeginPrefetch(delivered + 1, generation, now)
    }

    function BeginWrite(lba: U64, generation: U64, data: Block, now: U64): (Backend, Request) {
      if !ReadyForTransfer() || !GenerationSelectable(generation) then (this, Refused(Busy))
      else
        var selected := SelectGeneration(generation);
        var dropped := selected.pool.InvalidateReady(lba, generation);
        var (pool', slot) := dropped.ReserveWrite(lba, generation, data);
        if slot.None? then (selected.(pool := pool'), Refused(Busy))
        else selected.(pool := pool')
             .StartTransfer(WriteTransfer, WriteBlock(lba, data), slot.value, lba, generation, now)
    }

    function ClearTransfer(): Backend {
      this.(transfer := NoTransfer, handle := None, lba := 0, generation := 0)
    }

    function AbandonTransfer(): Backend { this.(pool := pool.Release(handle).0).ClearTransfer() }

    predicate IsErrorLine(response: string) { |response| >= 4 && response[..4] == "ERR " }

    /** A read is settled only by an error line or by block data for the sector it asked for. */
    predicate Admissible(response: string) {
      transfer != ReadTransfer || IsErrorLine(response)
      || (DecodeReadBlock(response).Ok? && DecodeReadBlock(response).value.lba == lba)
    }

    function AcceptResponse(response: string, now: U64): (Backend, OperationState)
      requires Valid()
    {
      if !Admissible(response) then (this, coordinator.state)
      else
        var decoded := DecodeReadBlock(response);
        var data := if transfer == ReadTransfer && !IsErrorLine(response) then decoded.value.data else ZeroBlock();
        var (coordinator', client') := coordinator.AcceptResponse(response, now, client);
        this.(coordinator := coordinator', client := client').FinishResponse(data)
    }

    function FinishResponse(data: Block): (Backend, OperationState) {
      match coordinator.state
      case Idle =>
        var (pool', completed) :=
          if transfer == ReadTransfer then pool.CompleteRead(handle, lba, generation, data)
          else pool.CompleteWrite(handle, lba, generation);
        if !completed then (AbandonTransfer(), OperationFailed)
        else (this.(pool := pool').ClearTransfer(), Idle)
      case OperationFailed => (AbandonTransfer(), OperationFailed)
      case _ => (this, coordinator.state)
    }

    function ExpireIfDue(now: U64): Backend
      requires Valid()
    {
      var (coordinator', client') := coordinator.ExpireIfDue(now, client);
      var next := this.(coordinator := coordinator', client := client');
      if coordinator'.state == OperationFailed then next.AbandonTransfer() else next
    }

    function Poll(now: U64): Backend { this.(coordinator := coordinator.Poll(now)) }

    function IssueRetry(now: U64): (Backend, Request) {
      var (coordinator', client', request) := coordinator.IssueRetry(now, client);
      (this.(coordinator := coordinator', client := client'), request)
    }

    function CopyReady(lba: U64, generation: U64): (Backend, Option<Block>) {
      var (pool', output) := pool.CopyReady(lba, generation);
      (this.(pool := pool'), output)
    }

    function WithoutMedia(): Backend {
      this.(pool := pool.Clear(), hasGeneration := false, mediaGeneration := 0)
    }

    function Disconnect(): Backend {
      this.(coordinator := coordinator.Disconnect(CancelOperation), client := FRESH_CLIENT)
      .ClearTransfer().WithoutMedia()
    }

    function Invalidate(): Backend {
      this.(coordinator := coordinator.Cancel(), client := client.Cancel()).ClearTransfer().WithoutMedia()
    }

    function MediaChanged(g: U64): Backend {
      if hasGeneration && g == mediaGeneration then this
      else this.(coordinator := coordinator.Cancel(), client := client.Cancel(), pool := pool.Clear())
           .ClearTransfer().(mediaGeneration := g, hasGeneration := true)
    }

    function InvalidateMedia(): Backend { WithoutMedia() }
  }

  function NewBackend(capacity: nat, timeout: U64, maximumRetries: nat, initial: U64, maximum: U64): (b: Backend)
    ensures b.Valid()
  {
    Backend(FRESH_CLIENT, NewCoordinator(timeout, maximumRetries, initial, maximum), P.NewPool(capacity),
            NoTransfer, None, 0, 0, 0, false)
  }

  class CdcWriteThroughBackend {
    const client: CdcSessionClient
    const coordinator: CdcOperationCoordinator
    const buffers: P.CdcSectorBufferPool
    var transfer: TransferType
    var handle: Option<nat>
    var lba: U64
    var generation: U64
    var mediaGeneration: U64
    var hasGeneration: bool

    ghost function Owned(): set<object> {
      {this, client, buffers, buffers.slots} + coordinator.Owned()
    }

    ghost function State(): Backend
      reads Owned()
    {
      Backend(client.State(), coordinator.State(), buffers.State(), transfer, handle, lba, generation,
              mediaGeneration, hasGeneration)
    }

    constructor (capacity: nat, timeout: U64, maximumRetries: nat, initial: U64, maximum: U64)
      ensures State() == NewBackend(capacity, timeout, maximumRetries, initial, maximum)
      ensures fresh(Owned())
    {
      client := new CdcSessionClient();
      coordinator := new CdcOperationCoordinator(timeout, maximumRetries, initial, maximum);
      buffers := new P.CdcSectorBufferPool(capacity);
      transfer, handle, lba, generation := NoTransfer, None, 0, 0;
      mediaGeneration, hasGeneration := 0, false;
    }

    predicate TransferActive()
      reads this
    {
      transfer != NoTransfer
    }

    predicate ReadyForTransfer()
      reads this, client, coordinator
    {
      client.negotiated && !TransferActive() && coordinator.state == Idle
    }

    method BeginHandshake() returns (request: Request)
      modifies Owned()
      ensures (State(), request) == old(State()).BeginHandshake()
    {
      request := client.BeginHandshake();
    }

    method AcceptHandshake(response: string) returns (error: ClientError)
      modifies Owned()
      ensures (State(), error) == old(State()).AcceptHandshake(response)
    {
      error := client.AcceptResponse(response);
    }

    method BeginGetInfo() returns (request: Request)
      modifies Owned()
      ensures (State(), request) == old(State()).BeginGetInfo()
    {
      if !ReadyForTransfer() {
        return Refused(Busy);
      }
      request := client.BeginGetInfo();
    }

    method AcceptGetInfo(response: string) returns (result: Result<MediaInfo, ClientError>)
      modifies Owned()
      ensures (State(), result) == old(State()).AcceptGetInfo(response)
    {
      var decoded := DecodeMediaInfo(response);
      if decoded.Err? {
        return Err(InvalidResponse);
      }
      var error := client.AcceptResponse(response);
      if error != NoError {
        return Err(error);
      }
      if decoded.value.present {
        MediaChanged(decoded.value.generation);
      } else {
        InvalidateMedia();
      }
      return Ok(decoded.value);
    }

    method SelectGeneration(g: U64) returns (selected: bool)
      modifies this
      ensures selected == old(State()).GenerationSelectable(g)
      ensures selected ==> State() == old(State()).SelectGeneration(g)
      ensures !selected ==> State() == old(State())
    {
      if !hasGeneration {
        mediaGeneration := g;
        hasGeneration := true;
        return true;
      }
      return mediaGeneration == g;
    }

    /** The end of begin_read and begin_write: start the operation and retain the transfer. */
    method StartTransfer(kind: TransferType, op: Operation, slot: nat, lba: U64, generation: U64, now: U64)
      returns (request: Request)
      modifies Owned()
      ensures (State(), request) == old(State()).StartTransfer(kind, op, slot, lba, generation, now)
    {
      hide Coordinator.Start, P.Pool.Release, CdcOperationCoordinator.State, P.CdcSectorBufferPool.State, CdcSessionClient.State;
      request := coordinator.Start(op, now, client);
      if request.error != NoError {
        var _ := buffers.Release(Some(slot));
        return request;
      }
      transfer := kind;
      handle := Some(slot);
      this.lba := lba;
      this.generation := generation;
    }

    method BeginRead(lba: U64, generation: U64, now: U64) returns (request: Request)
      modifies Owned()
      ensures (State(), request) == old(State()).BeginRead(lba, generation, now)
    {
      if !ReadyForTransfer() {
        return Refused(Busy);
      }
      var selected := SelectGeneration(generation);
      if !selected {
        return Refused(Busy);
      }
      var ready := buffers.FindReady(lba, generation);
      if ready.Some? {
        return Request(NoError, "");
      }
      var slot := buffers.ReserveRead(lba, generation);
      if slot.None? {
        return Refused(Busy);
      }
      request := StartTransfer(ReadTransfer, Operation.ReadBlock(lba), slot.value, lba, generation, now);
    }

    method BeginPrefetch(lba: U64, generation: U64, now: U64) returns (request: Request)
      modifies Owned()
      ensures (State(), request) == old(State()).BeginPrefetch(lba, generation, now)
    {
      if !ReadyForTransfer() {
        return Refused(Busy);
      }
      var selected := SelectGeneration(generation);
      if !selected {
        return Refused(Busy);
      }
      var contained := buffers.Contains(lba, generation);
      if contained {
        return Request(NoError, "");
      }
      request := BeginRead(lba, generation, now);
    }

    method BeginSequentialPrefetch(delivered: U64, generation: U64, now: U64) returns (request: Request)
      modifies Owned()
      ensures (State(), request) == old(State()).BeginSequentialPrefetch(delivered, generation, now)
    {
      if delivered == MAX_U64 {
        return Refused(InvalidRequest);
      }
      request := BeginPrefetch(delivered + 1, generation, now);
    }

    method BeginWrite(lba: U64, generation: U64, data: Block, now: U64) returns (request: Request)
      modifies Owned()
      ensures (State(), request) == old(State()).BeginWrite(lba, generation, data, now)
    {
      if !ReadyForTransfer() {
        return Refused(Busy);
      }
      var selected := SelectGeneration(generation);
      if !selected {
        return Refused(Busy);
      }
      buffers.InvalidateReady(lba, generation);
      var slot := buffers.ReserveWrite(lba, generation, data);
      if slot.None? {
        return Refused(Busy);
      }
      request := StartTransfer(WriteTransfer, WriteBlock(lba, data), slot.value, lba, generation, now);
    }

    method AcceptResponse(response: string, now: U64) returns (result: OperationState)
      requires State().Valid()
      modifies Owned()
      ensures (State(), result) == old(State()).AcceptResponse(response, now)
    {
      hide Coordinator.AcceptResponse, Backend.AbandonTransfer, DecodeReadBlock;
      var data := ZeroBlock();
      if transfer == ReadTransfer && !(|response| >= 4 && response[..4] == "ERR ") {
        var decoded := DecodeReadBlockResponse(response);
        if decoded.Err? || decoded.value.lba != lba {
          return coordinator.state;
        }
        data := decoded.value.data;
      }
      var state := coordinator.AcceptResponse(response, now, client);
      if state == Idle {
        var completed: bool;
        if transfer == ReadTransfer {
          completed := buffers.CompleteRead(handle, lba, generation, data);
        } else {
          completed := buffers.CompleteWrite(handle, lba, generation);
        }
        if !completed {
          AbandonTransfer();
          return OperationFailed;
        }
        ClearTransfer();
      } else if state == OperationFailed {
        AbandonTransfer();
      }
      return state;
    }

    method ExpireIfDue(now: U64) returns (result: OperationState)
      requires State().Valid()
      modifies Owned()
      ensures State() == old(State()).ExpireIfDue(now)
      ensures result == coordinator.state
    {
      result := coordinator.ExpireIfDue(now, client);
      if result == OperationFailed {
        AbandonTransfer();
      }
    }

    method Poll(now: U64) returns (result: OperationState)
      modifies Owned()
      ensures State() == old(State()).Poll(now)
      ensures result == coordinator.state
    {
      result := coordinator.Poll(now);
    }

    method IssueRetry(now: U64) returns (request: Request)
      modifies Owned()
      ensures (State(), request) == old(State()).IssueRetry(now)
    {
      request := coordinator.IssueRetry(now, client);
    }

    method CopyReady(lba: U64, generation: U64) returns (output: Option<Block>)
      modifies Owned()
      ensures (State(), output) == old(State()).CopyReady(lba, generation)
    {
      output := buffers.CopyReady(lba, generation);
    }

    method ClearTransfer()
      modifies this
      ensures State() == old(State()).ClearTransfer()
    {
      transfer, handle, lba, generation := NoTransfer, None, 0, 0;
    }

    method AbandonTransfer()
      modifies Owned()
      ensures State() == old(State()).AbandonTransfer()
    {
      var _ := buffers.Release(handle);
      ClearTransfer();
    }

    method Disconnect()
      modifies Owned()
      ensures State() == old(State()).Disconnect()
    {
      coordinator.Disconnect(client, CancelOperation);
      buffers.Clear();
      ClearTransfer();
      hasGeneration, mediaGeneration := false, 0;
    }

    method Invalidate()
      modifies Owned()
      ensures State() == old(State()).Invalidate()
    {
      coordinator.Cancel(client);
      buffers.Clear();
      ClearTransfer();
      hasGeneration, mediaGeneration := false, 0;
    }

    method MediaChanged(g: U64)
      modifies Owned()
      ensures State() == old(State()).MediaChanged(g)
    {
      if hasGeneration && g == mediaGeneration {
        return;
      }
      coordinator.Cancel(client);
      buffers.Clear();
      ClearTransfer();
      mediaGeneration, hasGeneration := g, true;
    }

    method InvalidateMedia()
      modifies Owned()
      ensures State() == old(State()).InvalidateMedia()
    {
      buffers.Clear();
      hasGeneration, mediaGeneration := false, 0;
    }
  }
}
