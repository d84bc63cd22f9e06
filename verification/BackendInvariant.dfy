/** The structural invariant of the write-through backend, kept by every public call. */
module BackendInvariant {
  import opened Basics
  import opened BlockResponse
  import opened SessionClient
  import opened OperationCoordinator
  import opened SessionFacts
  import opened P = SectorBufferPool
  import opened WriteThroughBackend
  import opened TextLineTheory

  // ---- The invariant -------------------------------------------------------

  predicate DistinctKeys(slots: seq<Slot>) {
    forall i, j :: 0 <= i < j < |slots| && slots[i].state != Free && slots[j].state != Free
                   ==> !slots[j].Holds(slots[i].lba, slots[i].generation)
  }

  /** Every occupied slot belongs to the selected medium; with none selected the pool is empty. */
  predicate OneGeneration(b: Backend) {
    forall i :: 0 <= i < |b.pool.slots| && b.pool.slots[i].state != Free
                ==> b.hasGeneration && b.pool.slots[i].generation == b.mediaGeneration
  }

  predicate SlotOfTransfer(b: Backend) {
    b.handle.Some? && b.handle.value < |b.pool.slots|
    && var slot := b.pool.slots[b.handle.value];
       slot.state == (if b.transfer == ReadTransfer then Reading else Writing)
       && slot.Holds(b.lba, b.generation)
  }

  /** A transfer is active exactly when one slot is in flight, and that slot is its own. */
  predicate InFlightIsTransfer(b: Backend) {
    (b.TransferActive() <==> b.handle.Some?)
    && (b.TransferActive() ==> SlotOfTransfer(b))
    && (forall i :: 0 <= i < |b.pool.slots| && b.pool.slots[i].InFlight() ==> b.handle == Some(i))
  }

  /** The retained operation is the transfer, and a write slot holds the data being written. */
  predicate OperationIsTransfer(b: Backend) {
    (Active(b.coordinator.state) ==> b.TransferActive())
    && (b.coordinator.state == Idle ==> !b.TransferActive())
    && (Active(b.coordinator.state) && SlotOfTransfer(b) ==>
          b.coordinator.operation
          == if b.transfer == ReadTransfer then Operation.ReadBlock(b.lba)
             else WriteBlock(b.lba, b.pool.slots[b.handle.value].data))
  }

  predicate WaitsOnClient(b: Backend) {
    b.coordinator.state == AwaitingResponse ==> b.client.RequestPending() && !b.client.pendingHandshake
  }

  predicate BackendInv(b: Backend) {
    CoordinatorInv(b.coordinator) && ClientInv(b.client)
    && DistinctKeys(b.pool.slots) && OneGeneration(b) && InFlightIsTransfer(b) && OperationIsTransfer(b)
    && WaitsOnClient(b)
  }

  lemma NewBackendInv(capacity: nat, timeout: U64, maximumRetries: nat, initial: U64, maximum: U64)
    ensures BackendInv(NewBackend(capacity, timeout, maximumRetries, initial, maximum))
  {}

  /** Replacing the client of a backend that is not waiting for a transfer's response. */
  lemma ClientReplaced(b: Backend, client: Client)
    requires BackendInv(b) && ClientInv(client)
    requires b.coordinator.state == AwaitingResponse ==> client == b.client
    ensures BackendInv(b.(client := client))
  {}

  // ---- What a call may do to ready slots -----------------------------------

  /** Every ready slot was ready before with the same sector and data. */
  predicate NoNewReady(before: Pool, after: Pool) {
    |after.slots| == |before.slots|
    && forall i :: 0 <= i < |after.slots| && after.slots[i].state == Ready ==>
         before.slots[i].state == Ready && before.slots[i].lba == after.slots[i].lba
         && before.slots[i].data == after.slots[i].data
  }

  predicate NoReadyFor(p: Pool, lba: U64) {
    forall i :: 0 <= i < |p.slots| && p.slots[i].state == Ready ==> p.slots[i].lba != lba
  }

  // ---- Starting a transfer -------------------------------------------------

  /** What begin_read, begin_prefetch and begin_write guarantee. */
  ghost predicate Begun(b: Backend, b': Backend, request: Request) {
    BackendInv(b') && NoNewReady(b.pool, b'.pool)
    && (if request.line != "" then
          request.error == NoError && Reserved(b.client) && b.client.negotiated
          && b'.client == b.client.Reserve(false)
          && b'.coordinator.state == AwaitingResponse
          && request.line == OperationText(b'.coordinator.operation, b.client.nextId, b.client.sessionId)
          && NoReadyFor(b'.pool, b'.lba)
        else
          (b'.coordinator.state == AwaitingResponse || b.coordinator.state == AwaitingResponse ==> b' == b)
          && (b'.TransferActive() ==> b.TransferActive())
          && (b'.client == b.client || (Reserved(b.client) && b'.client == b.client.Reserve(false).Settle())))
  }

  lemma SelectedInv(b: Backend, g: U64)
    requires BackendInv(b) && b.GenerationSelectable(g)
    ensures BackendInv(b.SelectGeneration(g)) && b.SelectGeneration(g).mediaGeneration == g
  {}

  /** A slot has just been reserved in an idle backend. */
  ghost predicate JustReserved(b: Backend, kind: TransferType, op: Operation, slot: nat, lba: U64, g: U64) {
    CoordinatorInv(b.coordinator) && ClientInv(b.client) && !b.TransferActive() && b.handle.None?
    && b.coordinator.state == Idle
    && DistinctKeys(b.pool.slots) && OneGeneration(b) && NoReadyFor(b.pool, lba)
    && slot < |b.pool.slots| && b.pool.slots[slot].Holds(lba, g)
    && (forall i :: 0 <= i < |b.pool.slots| && b.pool.slots[i].InFlight() ==> i == slot)
    && ((kind == ReadTransfer && op == Operation.ReadBlock(lba) && b.pool.slots[slot].state == Reading)
        || (kind == WriteTransfer && op == WriteBlock(lba, b.pool.slots[slot].data)
            && b.pool.slots[slot].state == Writing))
  }

  lemma StartedInv(b: Backend, kind: TransferType, op: Operation, slot: nat, lba: U64, g: U64, c: Coordinator, client: Client)
    requires JustReserved(b, kind, op, slot, lba, g)
    requires CoordinatorInv(c) && c.state == AwaitingResponse && c.operation == op
    requires ClientInv(client) && client.RequestPending() && !client.pendingHandshake
    ensures BackendInv(b.(coordinator := c, client := client, transfer := kind, handle := Some(slot),
                          lba := lba, generation := g))
  {}

  lemma ReleasedInv(b: Backend, kind: TransferType, op: Operation, slot: nat, lba: U64, g: U64, c: Coordinator, client: Client)
    requires JustReserved(b, kind, op, slot, lba, g)
    requires CoordinatorInv(c) && c.state == OperationFailed && ClientInv(client)
    ensures var b' := b.(coordinator := c, client := client, pool := b.pool.Release(Some(slot)).0);
            BackendInv(b') && NoNewReady(b.pool, b'.pool)
  {}

  lemma StartTransferFacts(b: Backend, kind: TransferType, op: Operation, slot: nat, lba: U64, g: U64, now: U64)
    requires JustReserved(b, kind, op, slot, lba, g)
    ensures var (b', request) := b.StartTransfer(kind, op, slot, lba, g, now);
            Begun(b, b', request)
            && (request.line != "" ==> b'.transfer == kind && b'.lba == lba && b'.coordinator.operation == op)
  {
    hide Coordinator.Start, OperationText;
    StartFacts(b.coordinator, op, now, b.client);
    var (c, client, request) := b.coordinator.Start(op, now, b.client);
    if request.error == NoError {
      StartedInv(b, kind, op, slot, lba, g, c, client);
      hide BackendInv;
    } else {
      ReleasedInv(b, kind, op, slot, lba, g, c, client);
      hide BackendInv, NoNewReady;
    }
  }

  lemma ReserveFacts(p: Pool, lba: U64, g: U64, state: SlotState, data: Block)
    requires DistinctKeys(p.slots)
    requires forall i :: 0 <= i < |p.slots| && p.slots[i].state != Free ==> !p.slots[i].Holds(lba, g)
    ensures var (p', k) := p.Reserve(lba, g, state, data);
            |p'.slots| == |p.slots| && DistinctKeys(p'.slots)
            && (k.None? ==> p' == p)
            && (k.Some? ==> k.value < |p.slots| && !p.slots[k.value].InFlight()
                            && p'.slots == p.slots[k.value := Slot(data, lba, g, p.nextUse, state)])
  {
    hide FirstFree, LeastRecent;
  }

  lemma NotContained(b: Backend, lba: U64, g: U64)
    requires BackendInv(b) && !b.TransferActive() && b.mediaGeneration == g
    requires b.pool.FirstReady(lba, g, 0).None?
    ensures forall i :: 0 <= i < |b.pool.slots| && b.pool.slots[i].state != Free ==> !b.pool.slots[i].Holds(lba, g)
    ensures NoReadyFor(b.pool, lba)
  {
    forall i | 0 <= i < |b.pool.slots| && b.pool.slots[i].state != Free
      ensures !b.pool.slots[i].Holds(lba, g) && b.pool.slots[i].lba != lba
    {
      assert !b.pool.slots[i].InFlight();
      assert !b.pool.slots[i].ReadyFor(lba, g);
    }
  }

  lemma NothingInFlight(b: Backend)
    requires BackendInv(b) && !b.TransferActive()
    ensures forall i :: 0 <= i < |b.pool.slots| ==> !b.pool.slots[i].InFlight()
  {}

  /** With nothing in flight the pool has a buffer to give unless it has none at all. */
  lemma BufferToReserve(p: Pool)
    requires forall i :: 0 <= i < |p.slots| ==> !p.slots[i].InFlight()
    ensures p.Candidate().Some? <==> |p.slots| > 0
  {
    if |p.slots| > 0 {
      assert p.slots[0].state == Free || p.slots[0].state == Ready;
    }
  }

  /** Reserving a slot for a sector the idle backend holds no copy of. */
  lemma ReserveForTransfer(b: Backend, kind: TransferType, lba: U64, g: U64, data: Block)
    requires BackendInv(b) && b.ReadyForTransfer() && b.hasGeneration && b.mediaGeneration == g
    requires kind != NoTransfer
    requires NoReadyFor(b.pool, lba)
    requires forall i :: 0 <= i < |b.pool.slots| && b.pool.slots[i].state != Free ==> !b.pool.slots[i].Holds(lba, g)
    ensures var (pool', k) := b.pool.Reserve(lba, g, if kind == ReadTransfer then Reading else Writing, data);
            var op := if kind == ReadTransfer then Operation.ReadBlock(lba) else WriteBlock(lba, data);
            k.Some? ==> JustReserved(b.(pool := pool'), kind, op, k.value, lba, g) && NoNewReady(b.pool, pool')
  {
    ReserveFacts(b.pool, lba, g, if kind == ReadTransfer then Reading else Writing, data);
    hide Pool.Reserve;
  }

  /** Preparing the pool of an idle backend before a start does not weaken what the start gives. */
  lemma BegunAfter(b: Backend, prepared: Backend, b': Backend, request: Request)
    requires Begun(prepared, b', request)
    requires prepared.client == b.client && NoNewReady(b.pool, prepared.pool)
    requires prepared.coordinator.state == Idle && b.coordinator.state == Idle && !prepared.TransferActive()
    ensures Begun(b, b', request)
  {}

  lemma BeginReadFacts(b: Backend, lba: U64, g: U64, now: U64)
    requires BackendInv(b)
    ensures var (b', request) := b.BeginRead(lba, g, now);
            Begun(b, b', request)
            && (request.line != "" ==> b'.transfer == ReadTransfer && b'.lba == lba)
  {
    if b.ReadyForTransfer() && b.GenerationSelectable(g) {
      SelectedInv(b, g);
      var selected := b.SelectGeneration(g);
      if selected.pool.FirstReady(lba, g, 0).None? {
        NotContained(selected, lba, g);
        ReserveForTransfer(selected, ReadTransfer, lba, g, ZeroBlock());
        var (pool', slot) := selected.pool.ReserveRead(lba, g);
        ReserveFacts(selected.pool, lba, g, Reading, ZeroBlock());
        hide Pool.Reserve, Backend.StartTransfer, Pool.FirstReady, OperationText, BackendInv, JustReserved;
        if slot.Some? {
          var reserved := selected.(pool := pool');
          var (b', request) := reserved.StartTransfer(ReadTransfer, Operation.ReadBlock(lba), slot.value, lba, g, now);
          StartTransferFacts(reserved, ReadTransfer, Operation.ReadBlock(lba), slot.value, lba, g, now);
          BegunAfter(b, reserved, b', request);
          hide Begun, NoNewReady;
        }
      }
    }
    hide Pool.Reserve, Backend.StartTransfer, Pool.FirstReady, OperationText, BackendInv, JustReserved;
  }

  lemma BeginPrefetchFacts(b: Backend, lba: U64, g: U64, now: U64)
    requires BackendInv(b)
    ensures var (b', request) := b.BeginPrefetch(lba, g, now); Begun(b, b', request)
  {
    if b.ReadyForTransfer() && b.GenerationSelectable(g) {
      SelectedInv(b, g);
      BeginReadFacts(b.SelectGeneration(g), lba, g, now);
    }
    hide Backend.BeginRead, OperationText;
  }

  lemma InvalidateFacts(b: Backend, lba: U64, g: U64)
    requires BackendInv(b) && !b.TransferActive() && b.mediaGeneration == g
    ensures var b' := b.(pool := b.pool.InvalidateReady(lba, g));
            BackendInv(b') && NoNewReady(b.pool, b'.pool) && NoReadyFor(b'.pool, lba)
            && forall i :: 0 <= i < |b'.pool.slots| && b'.pool.slots[i].state != Free
                           ==> !b'.pool.slots[i].Holds(lba, g)
  {
    var p' := b.pool.InvalidateReady(lba, g);
    forall i | 0 <= i < |p'.slots| && p'.slots[i].state != Free
      ensures p'.slots[i] == b.pool.slots[i] && p'.slots[i].lba != lba
    {
      assert !b.pool.slots[i].InFlight();
    }
  }

  lemma BeginWriteFacts(b: Backend, lba: U64, g: U64, data: Block, now: U64)
    requires BackendInv(b)
    ensures var (b', request) := b.BeginWrite(lba, g, data, now);
            Begun(b, b', request)
            && (request.line != "" ==> b'.transfer == WriteTransfer && b'.lba == lba
                                       && b'.coordinator.operation == WriteBlock(lba, data))
  {
    hide Pool.Reserve, Backend.StartTransfer, Pool.InvalidateReady, OperationText, BackendInv, JustReserved;
    if b.ReadyForTransfer() && b.GenerationSelectable(g) {
      SelectedInv(b, g);
      var selected := b.SelectGeneration(g);
      InvalidateFacts(selected, lba, g);
      var dropped := selected.(pool := selected.pool.InvalidateReady(lba, g));
      ReserveForTransfer(dropped, WriteTransfer, lba, g, data);
      ReserveFacts(dropped.pool, lba, g, Writing, data);
      var (pool', slot) := dropped.pool.ReserveWrite(lba, g, data);
      hide Pool.Reserve, Backend.StartTransfer, Pool.InvalidateReady, OperationText, BackendInv, JustReserved;
      if slot.Some? {
        var reserved := dropped.(pool := pool');
        var (b', request) := reserved.StartTransfer(WriteTransfer, WriteBlock(lba, data), slot.value, lba, g, now);
        StartTransferFacts(reserved, WriteTransfer, WriteBlock(lba, data), slot.value, lba, g, now);
        BegunAfter(b, reserved, b', request);
        hide Begun, NoNewReady;
      }
    }
  }

  // ---- Ending a transfer ---------------------------------------------------

  lemma AbandonFacts(b: Backend)
    requires CoordinatorInv(b.coordinator) && ClientInv(b.client)
    requires DistinctKeys(b.pool.slots) && OneGeneration(b) && InFlightIsTransfer(b)
    requires b.coordinator.state == OperationFailed || (b.coordinator.state == Idle && !b.TransferActive())
    ensures BackendInv(b.AbandonTransfer()) && NoNewReady(b.pool, b.AbandonTransfer().pool)
  {}

  /** The transfer's slot has just become ready with the sector and data of the transfer. */
  ghost predicate Completed(b: Backend, b': Backend, response: string) {
    b.TransferActive() && SlotOfTransfer(b) && b.coordinator.state == AwaitingResponse
    && var k := b.handle.value;
       |b'.pool.slots| == |b.pool.slots|
       && (forall i :: 0 <= i < |b.pool.slots| && i != k ==> b'.pool.slots[i] == b.pool.slots[i])
       && b'.pool.slots[k].ReadyFor(b.lba, b.generation)
       && (b.transfer == WriteTransfer ==> b'.pool.slots[k].data == b.pool.slots[k].data)
       && (b.transfer == ReadTransfer ==>
             DecodeReadBlock(response) == Ok(ReadBlock.ReadBlock(b.lba, b'.pool.slots[k].data)))
       && b.client.AcceptResponse(response).1 == NoError
  }

  lemma ErrorLineNeverSucceeds(c: Client, response: string)
    requires |response| >= 4 && response[..4] == "ERR "
    ensures c.AcceptResponse(response).1 != NoError
  {
    var rest := response[3..];
    assert response == "ERR" + rest;
    WordsOfWord("ERR", rest);
    ParseAccepts(response);
  }

  lemma AcceptResponseFacts(b: Backend, response: string, now: U64)
    requires BackendInv(b)
    ensures var (b', state) := b.AcceptResponse(response, now);
            BackendInv(b')
            && (NoNewReady(b.pool, b'.pool) || Completed(b, b', response))
            && (b'.coordinator.state == Idle && b.coordinator.state != Idle ==> Completed(b, b', response))
            && (b'.client == b.client
                || (b.coordinator.state == AwaitingResponse && b'.coordinator.state != AwaitingResponse
                    && b'.client.pendingId == 0 && b'.client.nextId == b.client.nextId
                    && b'.client.negotiated == b.client.negotiated && b'.client.sessionId == b.client.sessionId))
            && (b'.coordinator.state == AwaitingResponse ==> b' == b)
            && (b.coordinator.state == AwaitingResponse && b'.client == b.client ==> b' == b)
            && (b'.TransferActive() ==> b.TransferActive())
            && b'.hasGeneration == b.hasGeneration && b'.mediaGeneration == b.mediaGeneration
  {
    if b.Admissible(response) {
      CoordinatorAcceptFacts(b.coordinator, response, now, b.client);
      var decoded := DecodeReadBlock(response);
      var data := if b.transfer == ReadTransfer && !b.IsErrorLine(response) then decoded.value.data else ZeroBlock();
      var (coordinator', client') := b.coordinator.AcceptResponse(response, now, b.client);
      var next := b.(coordinator := coordinator', client := client');
      if b.IsErrorLine(response) {
        ErrorLineNeverSucceeds(b.client, response);
      }
      FinishFacts(b, next, response, data);
    }
    hide Coordinator.AcceptResponse, Client.AcceptResponse, DecodeReadBlock, Backend.FinishResponse;
  }

  /** Completing the transfer's slot succeeds, makes it ready and leaves the backend idle. */
  lemma CompletedInv(b: Backend, data: Block)
    requires CoordinatorInv(b.coordinator) && ClientInv(b.client) && b.coordinator.state == Idle
    requires DistinctKeys(b.pool.slots) && OneGeneration(b) && InFlightIsTransfer(b) && b.TransferActive()
    ensures var (b', state) := b.FinishResponse(data);
            var slot := b.pool.slots[b.handle.value];
            BackendInv(b') && state == Idle && !b'.TransferActive()
            && b'.client == b.client && b'.coordinator == b.coordinator
            && b'.hasGeneration == b.hasGeneration && b'.mediaGeneration == b.mediaGeneration
            && b'.pool.slots == b.pool.slots[b.handle.value := slot.(
                 state := Ready, data := if b.transfer == ReadTransfer then data else slot.data)]
  {}

  lemma FinishFacts(b: Backend, next: Backend, response: string, data: Block)
    requires BackendInv(b)
    requires next == b.(coordinator := next.coordinator, client := next.client)
    requires CoordinatorInv(next.coordinator) && ClientInv(next.client) && WaitsOnClient(next)
    requires next.coordinator.state == Idle && b.coordinator.state != Idle
             ==> b.coordinator.state == AwaitingResponse && b.client.AcceptResponse(response).1 == NoError
    requires Active(next.coordinator.state)
             ==> Active(b.coordinator.state) && next.coordinator.operation == b.coordinator.operation
    requires next.coordinator.state == AwaitingResponse ==> next == b
    requires next.coordinator.state == Idle && b.transfer == ReadTransfer
             ==> DecodeReadBlock(response) == Ok(ReadBlock.ReadBlock(b.lba, data))
    ensures var (b', state) := next.FinishResponse(data);
            BackendInv(b') && b'.client == next.client && b'.coordinator == next.coordinator
            && (NoNewReady(b.pool, b'.pool) || Completed(b, b', response))
            && (b'.coordinator.state == Idle && b.coordinator.state != Idle ==> Completed(b, b', response))
            && (b'.coordinator.state == AwaitingResponse ==> b' == b)
            && (b'.TransferActive() ==> b.TransferActive())
            && b'.hasGeneration == b.hasGeneration && b'.mediaGeneration == b.mediaGeneration
  {
    hide Client.AcceptResponse, DecodeReadBlock;
    match next.coordinator.state
    case Idle =>
      if b.TransferActive() {
        CompletedInv(next, data);
        hide BackendInv, NoNewReady;
      } else {
        AbandonFacts(next);
      }
    case OperationFailed => AbandonFacts(next);
    case _ =>
  }

  lemma ExpireFacts(b: Backend, now: U64)
    requires BackendInv(b)
    ensures var b' := b.ExpireIfDue(now);
            BackendInv(b') && NoNewReady(b.pool, b'.pool)
            && (b'.client == b.client
                || (b.coordinator.state == AwaitingResponse && b'.coordinator.state != AwaitingResponse
                    && b'.client == b.client.Settle()))
            && (b'.coordinator.state == AwaitingResponse ==> b' == b)
            && (b'.TransferActive() ==> b.TransferActive())
  {
    CoordinatorExpireFacts(b.coordinator, now, b.client);
    var (coordinator', client') := b.coordinator.ExpireIfDue(now, b.client);
    var next := b.(coordinator := coordinator', client := client');
    if coordinator'.state == OperationFailed {
      AbandonFacts(next);
    }
    hide Coordinator.ExpireIfDue, Backend.AbandonTransfer;
  }

  lemma PollFacts(b: Backend, now: U64)
    requires BackendInv(b)
    ensures BackendInv(b.Poll(now)) && b.Poll(now).client == b.client && b.Poll(now).pool == b.pool
    ensures b.Poll(now).coordinator.state == AwaitingResponse ==> b.Poll(now) == b
  {}

  lemma ReissuedInv(b: Backend, c: Coordinator, client: Client)
    requires BackendInv(b) && CoordinatorInv(c) && ClientInv(client)
    requires c.state == AwaitingResponse ==>
               client.RequestPending() && !client.pendingHandshake && Active(b.coordinator.state)
               && c.operation == b.coordinator.operation
    requires c.state == AwaitingResponse || c.state == OperationFailed
    ensures BackendInv(b.(coordinator := c, client := client))
  {}

  lemma IssueRetryFacts(b: Backend, now: U64)
    requires BackendInv(b)
    ensures var (b', request) := b.IssueRetry(now);
            Begun(b, b', request) && b' == b.(coordinator := b'.coordinator, client := b'.client)
            && (request.line != "" ==> Active(b.coordinator.state) && b'.coordinator.operation == b.coordinator.operation)
  {
    SessionFacts.IssueRetryFacts(b.coordinator, now, b.client);
    var (c, client, request) := b.coordinator.IssueRetry(now, b.client);
    hide Coordinator.IssueRetry, OperationText;
    if b.TransferActive() {
      NoReadyForTransfer(b);
    }
    if c != b.coordinator {
      ReissuedInv(b, c, client);
    }
    hide BackendInv;
  }

  lemma NoReadyForTransfer(b: Backend)
    requires BackendInv(b) && b.TransferActive()
    ensures NoReadyFor(b.pool, b.lba)
  {
    var k := b.handle.value;
    forall i | 0 <= i < |b.pool.slots| && b.pool.slots[i].state == Ready ensures b.pool.slots[i].lba != b.lba {
      if i < k {
        assert !b.pool.slots[k].Holds(b.pool.slots[i].lba, b.pool.slots[i].generation);
      } else {
        assert !b.pool.slots[i].Holds(b.pool.slots[k].lba, b.pool.slots[k].generation);
      }
    }
  }

  // ---- Session and media events --------------------------------------------

  lemma CopyFacts(b: Backend, lba: U64, g: U64)
    requires BackendInv(b)
    ensures var (b', output) := b.CopyReady(lba, g);
            BackendInv(b') && NoNewReady(b.pool, b'.pool) && b' == b.(pool := b'.pool)
            && (output.Some? ==> exists i :: 0 <= i < |b.pool.slots| && b.pool.slots[i].ReadyFor(lba, g)
                                             && output.value == b.pool.slots[i].data)
  {
    hide Pool.FirstReady;
  }

  predicate AllFree(p: Pool) { forall i :: 0 <= i < |p.slots| ==> p.slots[i].state == Free }

  /** Disconnecting leaves no session, no operation, no medium and an empty pool. */
  lemma DisconnectFacts(b: Backend)
    requires BackendInv(b)
    ensures var b' := b.Disconnect();
            BackendInv(b') && NoNewReady(b.pool, b'.pool) && AllFree(b'.pool)
            && b'.client == FRESH_CLIENT && b'.coordinator.state == Idle && !b'.TransferActive() && !b'.hasGeneration
  {}

  /** Invalidating keeps the session and gives up everything else. */
  lemma InvalidateBackendFacts(b: Backend)
    requires BackendInv(b)
    ensures var b' := b.Invalidate();
            BackendInv(b') && NoNewReady(b.pool, b'.pool) && AllFree(b'.pool)
            && b'.client == b.client.Cancel() && b'.coordinator.state == Idle && !b'.TransferActive() && !b'.hasGeneration
  {}

  /** Another medium is a barrier: nothing cached or under way survives it. The same medium changes nothing. */
  lemma MediaChangedFacts(b: Backend, g: U64)
    requires BackendInv(b)
    ensures var b' := b.MediaChanged(g);
            BackendInv(b') && NoNewReady(b.pool, b'.pool) && b'.hasGeneration && b'.mediaGeneration == g
            && (b.hasGeneration && b.mediaGeneration == g ==> b' == b)
            && (!(b.hasGeneration && b.mediaGeneration == g) ==> AllFree(b'.pool) && !b'.TransferActive() && !b'.client.RequestPending())
  {}

  lemma InvalidateMediaFacts(b: Backend)
    requires BackendInv(b) && !b.TransferActive()
    ensures BackendInv(b.InvalidateMedia()) && NoNewReady(b.pool, b.InvalidateMedia().pool)
  {}

  /** invalidate_media forgets the slots but not the transfer: it keeps the invariant exactly while none is active. */
  lemma InvalidateMediaExactly(b: Backend)
    requires BackendInv(b)
    ensures BackendInv(b.InvalidateMedia()) <==> !b.TransferActive()
  {
    if b.TransferActive() {
      assert !SlotOfTransfer(b.InvalidateMedia());
      assert !InFlightIsTransfer(b.InvalidateMedia());
    }
  }
}
