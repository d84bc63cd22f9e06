/**
 * Every public call of the backend keeps its structural invariant, and replacement is least
 * recently used over the backend's whole history of reservations and deliveries.
 */
module LruGuarantee {
  import opened Basics
  import opened BlockResponse
  import opened SessionClient
  import opened OperationCoordinator
  import opened SessionFacts
  import opened P = SectorBufferPool
  import opened WriteThroughBackend
  import opened BackendInvariant

  // ---- Public calls --------------------------------------------------------

  datatype BackendCall =
    | BeginHandshake
    | AcceptHandshake(response: string)
    | BeginGetInfo
    | AcceptGetInfo(response: string)
    | BeginRead(lba: U64, generation: U64, now: U64)
    | BeginPrefetch(lba: U64, generation: U64, now: U64)
    | BeginSequentialPrefetch(lba: U64, generation: U64, now: U64)
    | BeginWrite(lba: U64, generation: U64, data: Block, now: U64)
    | AcceptResponse(response: string, now: U64)
    | ExpireIfDue(now: U64)
    | Poll(now: U64)
    | IssueRetry(now: U64)
    | CopyReady(lba: U64, generation: U64)
    | Disconnect
    | Invalidate
    | MediaChanged(generation: U64)
    | InvalidateMedia

  /** A handshake response is offered to a handshake, and media information and removal to an idle backend. */
  predicate Allowed(b: Backend, call: BackendCall) {
    (call.AcceptHandshake? ==> b.client.pendingHandshake)
    && (call.AcceptGetInfo? || call.InvalidateMedia? ==> !b.TransferActive())
  }

  function Apply(b: Backend, call: BackendCall): Backend
    requires b.Valid()
  {
    match call
    case BeginHandshake => b.BeginHandshake().0
    case AcceptHandshake(response) => b.AcceptHandshake(response).0
    case BeginGetInfo => b.BeginGetInfo().0
    case AcceptGetInfo(response) => b.AcceptGetInfo(response).0
    case BeginRead(lba, g, now) => b.BeginRead(lba, g, now).0
    case BeginPrefetch(lba, g, now) => b.BeginPrefetch(lba, g, now).0
    case BeginSequentialPrefetch(lba, g, now) => b.BeginSequentialPrefetch(lba, g, now).0
    case BeginWrite(lba, g, data, now) => b.BeginWrite(lba, g, data, now).0
    case AcceptResponse(response, now) => b.AcceptResponse(response, now).0
    case ExpireIfDue(now) => b.ExpireIfDue(now)
    case Poll(now) => b.Poll(now)
    case IssueRetry(now) => b.IssueRetry(now).0
    case CopyReady(lba, g) => b.CopyReady(lba, g).0
    case Disconnect => b.Disconnect()
    case Invalidate => b.Invalidate()
    case MediaChanged(g) => b.MediaChanged(g)
    case InvalidateMedia => b.InvalidateMedia()
  }

  lemma ClientCallsKeep(b: Backend, call: BackendCall)
    requires BackendInv(b) && Allowed(b, call)
    requires call.BeginHandshake? || call.AcceptHandshake? || call.BeginGetInfo?
    ensures BackendInv(Apply(b, call)) && Apply(b, call).pool == b.pool
  {
    assert WaitsOnClient(b) && ClientInv(b.client);
    hide BackendInv, Client.BeginHandshake, Client.BeginRequest, Client.AcceptResponse;
    match call {
      case BeginHandshake => BeginHandshakeFacts(b.client);
      case AcceptHandshake(response) => AcceptFacts(b.client, response);
      case BeginGetInfo => BeginRequestFacts(b.client, "GET_INFO", "");
    }
    ClientReplaced(b, Apply(b, call).client);
  }

  lemma GetInfoKeeps(b: Backend, response: string)
    requires BackendInv(b) && !b.TransferActive()
    ensures BackendInv(b.AcceptGetInfo(response).0)
  {
    assert b.coordinator.state != AwaitingResponse && ClientInv(b.client) by {
      assert OperationIsTransfer(b);
    }
    hide BackendInv, Client.AcceptResponse, DecodeMediaInfo;
    AcceptFacts(b.client, response);
    var (client, error) := b.client.AcceptResponse(response);
    ClientReplaced(b, client);
    if DecodeMediaInfo(response).Ok? && error == NoError {
      MediaChangedFacts(b.(client := client), DecodeMediaInfo(response).value.generation);
      InvalidateMediaFacts(b.(client := client));
    }
  }

  /** The structural invariant is kept by every public call. */
  lemma EveryCallKeeps(b: Backend, call: BackendCall)
    requires BackendInv(b) && Allowed(b, call)
    ensures BackendInv(Apply(b, call))
  {
    hide BackendInv, Backend.BeginRead, Backend.BeginPrefetch, Backend.BeginWrite, Backend.AcceptResponse,
      Backend.ExpireIfDue, Backend.IssueRetry, Backend.CopyReady, Backend.Disconnect, Backend.Invalidate,
      Backend.MediaChanged, Backend.BeginHandshake, Backend.AcceptHandshake, Backend.BeginGetInfo,
      Backend.AcceptGetInfo, Backend.Poll, NoNewReady, Begun, Completed;
    match call {
      case BeginHandshake => ClientCallsKeep(b, call);
      case AcceptHandshake(response) => ClientCallsKeep(b, call);
      case BeginGetInfo => ClientCallsKeep(b, call);
      case AcceptGetInfo(response) => GetInfoKeeps(b, response);
      case BeginRead(lba, g, now) => StartsKeep(b, call);
      case BeginPrefetch(lba, g, now) => StartsKeep(b, call);
      case BeginSequentialPrefetch(lba, g, now) => StartsKeep(b, call);
      case BeginWrite(lba, g, data, now) => StartsKeep(b, call);
      case AcceptResponse(response, now) => AcceptResponseFacts(b, response, now);
      case ExpireIfDue(now) => ExpireFacts(b, now);
      case Poll(now) => PollFacts(b, now);
      case IssueRetry(now) => StartsKeep(b, call);
      case CopyReady(lba, g) => CopyFacts(b, lba, g);
      case Disconnect => DisconnectFacts(b);
      case Invalidate => InvalidateBackendFacts(b);
      case MediaChanged(g) => MediaChangedFacts(b, g);
      case InvalidateMedia => InvalidateMediaFacts(b);
    }
  }

  lemma StartsKeep(b: Backend, call: BackendCall)
    requires BackendInv(b)
    requires call.BeginRead? || call.BeginPrefetch? || call.BeginSequentialPrefetch? || call.BeginWrite? || call.IssueRetry?
    ensures BackendInv(Apply(b, call))
  {
    hide BackendInv, Backend.BeginRead, Backend.BeginPrefetch, Backend.BeginWrite, Backend.IssueRetry, NoNewReady;
    match call {
      case BeginRead(lba, g, now) => BeginReadFacts(b, lba, g, now);
      case BeginPrefetch(lba, g, now) => BeginPrefetchFacts(b, lba, g, now);
      case BeginSequentialPrefetch(lba, g, now) => if lba != MAX_U64 { BeginPrefetchFacts(b, lba + 1, g, now); }
      case BeginWrite(lba, g, data, now) => BeginWriteFacts(b, lba, g, data, now);
      case IssueRetry(now) => BackendInvariant.IssueRetryFacts(b, now);
    }
  }

  // ---- The history of uses -------------------------------------------------

  datatype Key = Key(lba: U64, generation: U64)

  function KeyOf(slot: Slot): Key { Key(slot.lba, slot.generation) }

  /** The sector a call names. */
  function CallKey(call: BackendCall): Key {
    match call
    case BeginRead(lba, g, _) => Key(lba, g)
    case BeginPrefetch(lba, g, _) => Key(lba, g)
    case BeginSequentialPrefetch(lba, g, _) => Key(if lba == MAX_U64 then lba else lba + 1, g)
    case BeginWrite(lba, g, _, _) => Key(lba, g)
    case CopyReady(lba, g) => Key(lba, g)
    case _ => Key(0, 0)
  }

  predicate CanReserve(b: Backend, g: U64) {
    b.ReadyForTransfer() && b.GenerationSelectable(g) && |b.pool.slots| > 0
  }

  /** The call reserves a buffer for its sector or delivers the sector. */
  predicate Uses(b: Backend, call: BackendCall) {
    var key := CallKey(call);
    match call
    case BeginRead(_, _, _) => CanReserve(b, key.generation) && !b.pool.HasReady(key.lba, key.generation)
    case BeginPrefetch(_, _, _) => CanReserve(b, key.generation) && !b.pool.HasReady(key.lba, key.generation)
    case BeginSequentialPrefetch(lba, _, _) =>
      lba != MAX_U64 && CanReserve(b, key.generation) && !b.pool.HasReady(key.lba, key.generation)
    case BeginWrite(_, _, _, _) => CanReserve(b, key.generation)
    case CopyReady(_, _) => b.pool.HasReady(key.lba, key.generation)
    case _ => false
  }

  /** A sector joins the history when it is used. */
  function Extend(history: seq<Key>, b: Backend, call: BackendCall): seq<Key> {
    if Uses(b, call) then history + [CallKey(call)] else history
  }

  /** Every occupied slot was last used exactly when the history last names its sector. */
  predicate UseOrder(p: Pool, history: seq<Key>) {
    p.nextUse == |history| + 1
    && forall i :: 0 <= i < |p.slots| && p.slots[i].state != Free ==> LastUse(history, KeyOf(p.slots[i]), p.slots[i].lastUsed)
  }

  predicate LastUse(history: seq<Key>, key: Key, tick: nat) {
    1 <= tick <= |history| && history[tick - 1] == key
    && forall j :: tick <= j < |history| ==> history[j] != key
  }

  /** No slot was reserved or delivered: occupied slots keep their sector and tick. */
  predicate Unused(p: Pool, p': Pool) {
    p'.nextUse == p.nextUse && |p'.slots| == |p.slots|
    && forall i :: 0 <= i < |p.slots| && p'.slots[i].state != Free ==>
         p.slots[i].state != Free && KeyOf(p'.slots[i]) == KeyOf(p.slots[i]) && p'.slots[i].lastUsed == p.slots[i].lastUsed
  }

  /** One slot was used for key; the others keep theirs, and none of them holds key. */
  predicate UsedOnce(p: Pool, p': Pool, key: Key) {
    p'.nextUse == p.nextUse + 1 && |p'.slots| == |p.slots|
    && forall i :: 0 <= i < |p.slots| && p'.slots[i].state != Free ==>
         (KeyOf(p'.slots[i]) == key && p'.slots[i].lastUsed == p.nextUse)
         || (p.slots[i].state != Free && KeyOf(p'.slots[i]) == KeyOf(p.slots[i]) != key
             && p'.slots[i].lastUsed == p.slots[i].lastUsed)
  }

  lemma UnusedKeepsOrder(p: Pool, p': Pool, history: seq<Key>)
    requires UseOrder(p, history) && Unused(p, p')
    ensures UseOrder(p', history)
  {}

  lemma UsedKeepsOrder(p: Pool, p': Pool, history: seq<Key>, key: Key)
    requires UseOrder(p, history) && UsedOnce(p, p', key)
    ensures UseOrder(p', history + [key])
  {
    var longer := history + [key];
    forall i | 0 <= i < |p'.slots| && p'.slots[i].state != Free
      ensures LastUse(longer, KeyOf(p'.slots[i]), p'.slots[i].lastUsed)
    {
      if p'.slots[i].lastUsed != p.nextUse {
        assert LastUse(history, KeyOf(p.slots[i]), p.slots[i].lastUsed);
      }
    }
  }

  // ---- What each call does to the history ----------------------------------

  lemma ReserveUses(p: Pool, lba: U64, g: U64, state: SlotState, data: Block)
    requires state != Free
    requires forall i :: 0 <= i < |p.slots| && p.slots[i].state != Free ==> !p.slots[i].Holds(lba, g)
    ensures var (p', k) := p.Reserve(lba, g, state, data);
            if k.Some? then UsedOnce(p, p', Key(lba, g)) else p' == p
  {
    hide FirstFree, LeastRecent;
  }

  /** Releasing or dropping slots afterwards does not undo the use. */
  lemma UsedThenUnused(p: Pool, p1: Pool, p2: Pool, key: Key)
    requires UsedOnce(p, p1, key) && Unused(p1, p2)
    ensures UsedOnce(p, p2, key)
  {}

  lemma UnusedThenUsed(p: Pool, p1: Pool, p2: Pool, key: Key)
    requires Unused(p, p1) && UsedOnce(p1, p2, key)
    ensures UsedOnce(p, p2, key)
  {}

  lemma StartIsUnused(b: Backend, kind: TransferType, op: Operation, slot: nat, lba: U64, g: U64, now: U64)
    ensures Unused(b.pool, b.StartTransfer(kind, op, slot, lba, g, now).0.pool)
  {
    hide Coordinator.Start;
  }

  lemma ReadUses(b: Backend, lba: U64, g: U64, now: U64)
    requires BackendInv(b)
    ensures var b' := b.BeginRead(lba, g, now).0;
            Unused(b.pool, b'.pool) || UsedOnce(b.pool, b'.pool, Key(lba, g))
  {
    if b.ReadyForTransfer() && b.GenerationSelectable(g) {
      var selected := b.SelectGeneration(g);
      SelectedInv(b, g);
      if selected.pool.FirstReady(lba, g, 0).None? {
        NotContained(selected, lba, g);
        ReserveUses(selected.pool, lba, g, Reading, ZeroBlock());
        var (pool', slot) := selected.pool.ReserveRead(lba, g);
        hide BackendInv, Pool.Reserve, Pool.FirstReady, Backend.StartTransfer;
        if slot.Some? {
          var reserved := selected.(pool := pool');
          StartIsUnused(reserved, ReadTransfer, Operation.ReadBlock(lba), slot.value, lba, g, now);
          UsedThenUnused(b.pool, pool', reserved.StartTransfer(ReadTransfer, Operation.ReadBlock(lba), slot.value, lba, g, now).0.pool,
                         Key(lba, g));
        }
        hide UsedOnce;
      }
    }
    hide BackendInv, Pool.Reserve, Pool.FirstReady, Backend.StartTransfer;
  }

  lemma PrefetchUses(b: Backend, lba: U64, g: U64, now: U64)
    requires BackendInv(b)
    ensures var b' := b.BeginPrefetch(lba, g, now).0;
            Unused(b.pool, b'.pool) || UsedOnce(b.pool, b'.pool, Key(lba, g))
  {
    if b.ReadyForTransfer() && b.GenerationSelectable(g) {
      SelectedInv(b, g);
      ReadUses(b.SelectGeneration(g), lba, g, now);
    }
    hide BackendInv, Backend.BeginRead, UsedOnce;
  }

  lemma WriteUses(b: Backend, lba: U64, g: U64, data: Block, now: U64)
    requires BackendInv(b)
    ensures var b' := b.BeginWrite(lba, g, data, now).0;
            Unused(b.pool, b'.pool) || UsedOnce(b.pool, b'.pool, Key(lba, g))
  {
    if b.ReadyForTransfer() && b.GenerationSelectable(g) {
      var selected := b.SelectGeneration(g);
      SelectedInv(b, g);
      InvalidateFacts(selected, lba, g);
      var dropped := selected.pool.InvalidateReady(lba, g);
      assert Unused(b.pool, dropped);
      ReserveUses(dropped, lba, g, Writing, data);
      var (pool', slot) := dropped.ReserveWrite(lba, g, data);
      hide BackendInv, Pool.Reserve, Pool.InvalidateReady, Backend.StartTransfer;
      if slot.Some? {
        var reserved := selected.(pool := pool');
        UnusedThenUsed(b.pool, dropped, pool', Key(lba, g));
        StartIsUnused(reserved, WriteTransfer, WriteBlock(lba, data), slot.value, lba, g, now);
        UsedThenUnused(b.pool, pool', reserved.StartTransfer(WriteTransfer, WriteBlock(lba, data), slot.value, lba, g, now).0.pool,
                       Key(lba, g));
      }
      hide UsedOnce, Unused;
    }
    hide BackendInv, Pool.Reserve, Pool.InvalidateReady, Backend.StartTransfer;
  }

  lemma CopyUses(b: Backend, lba: U64, g: U64)
    requires BackendInv(b)
    ensures var b' := b.CopyReady(lba, g).0;
            Unused(b.pool, b'.pool) || UsedOnce(b.pool, b'.pool, Key(lba, g))
  {
    assert DistinctKeys(b.pool.slots);
    var k := b.pool.FirstReady(lba, g, 0);
    hide BackendInv, Pool.FirstReady;
    if k.Some? {
      var p, p' := b.pool, b.CopyReady(lba, g).0.pool;
      forall i | 0 <= i < |p.slots| && p'.slots[i].state != Free && i != k.value
        ensures KeyOf(p.slots[i]) != Key(lba, g)
      {
        if i < k.value {
          assert !p.slots[k.value].Holds(p.slots[i].lba, p.slots[i].generation);
        } else {
          assert !p.slots[i].Holds(p.slots[k.value].lba, p.slots[k.value].generation);
        }
      }
    }
  }

  lemma SettlesUnused(b: Backend, call: BackendCall)
    requires BackendInv(b)
    requires call.AcceptResponse? || call.ExpireIfDue? || call.Poll? || call.IssueRetry? || call.Disconnect?
             || call.Invalidate? || call.MediaChanged? || call.AcceptGetInfo? || call.InvalidateMedia?
    ensures Unused(b.pool, Apply(b, call).pool)
  {
    hide Coordinator.AcceptResponse, Coordinator.ExpireIfDue, Coordinator.IssueRetry, Client.AcceptResponse,
      DecodeReadBlock, DecodeMediaInfo, Backend.IsErrorLine;
  }

  /** Each call leaves the history alone or extends it by the sector it used. */
  lemma CallUses(b: Backend, call: BackendCall)
    requires BackendInv(b) && Allowed(b, call)
    ensures Unused(b.pool, Apply(b, call).pool) || UsedOnce(b.pool, Apply(b, call).pool, CallKey(call))
  {
    hide BackendInv, Backend.BeginRead, Backend.BeginPrefetch, Backend.BeginWrite, Backend.AcceptResponse,
      Backend.ExpireIfDue, Backend.IssueRetry, Backend.CopyReady, Backend.Disconnect, Backend.Invalidate,
      Backend.MediaChanged, Backend.BeginHandshake, Backend.AcceptHandshake, Backend.BeginGetInfo,
      Backend.AcceptGetInfo, Backend.Poll, UsedOnce;
    match call {
      case BeginHandshake => ClientCallsKeep(b, call);
      case AcceptHandshake(response) => ClientCallsKeep(b, call);
      case BeginGetInfo => ClientCallsKeep(b, call);
      case BeginRead(lba, g, now) => ReadUses(b, lba, g, now);
      case BeginPrefetch(lba, g, now) => PrefetchUses(b, lba, g, now);
      case BeginSequentialPrefetch(lba, g, now) => if lba != MAX_U64 { PrefetchUses(b, lba + 1, g, now); }
      case BeginWrite(lba, g, data, now) => WriteUses(b, lba, g, data, now);
      case CopyReady(lba, g) => CopyUses(b, lba, g);
      case _ => SettlesUnused(b, call);
    }
  }

  lemma ReadTakesTick(b: Backend, lba: U64, g: U64, now: U64)
    requires BackendInv(b)
    ensures b.BeginRead(lba, g, now).0.pool.nextUse
         == b.pool.nextUse + if CanReserve(b, g) && !b.pool.HasReady(lba, g) then 1 else 0
  {
    hide BackendInv, Pool.Candidate, Pool.FirstReady, Coordinator.Start;
    if b.ReadyForTransfer() {
      NothingInFlight(b);
      BufferToReserve(b.pool);
    }
  }

  lemma PrefetchTakesTick(b: Backend, lba: U64, g: U64, now: U64)
    requires BackendInv(b)
    ensures b.BeginPrefetch(lba, g, now).0.pool.nextUse
         == b.pool.nextUse + if CanReserve(b, g) && !b.pool.HasReady(lba, g) then 1 else 0
  {
    if b.ReadyForTransfer() && b.GenerationSelectable(g) {
      SelectedInv(b, g);
      NothingInFlight(b);
      ReadTakesTick(b.SelectGeneration(g), lba, g, now);
    }
    hide BackendInv, Backend.BeginRead;
  }

  lemma WriteTakesTick(b: Backend, lba: U64, g: U64, data: Block, now: U64)
    requires BackendInv(b)
    ensures b.BeginWrite(lba, g, data, now).0.pool.nextUse == b.pool.nextUse + if CanReserve(b, g) then 1 else 0
  {
    hide BackendInv, Pool.Candidate, Pool.InvalidateReady, Coordinator.Start;
    if b.ReadyForTransfer() {
      NothingInFlight(b);
      BufferToReserve(b.pool.InvalidateReady(lba, g));
    }
  }

  /** The pool's use tick advances exactly when the call uses its sector. */
  lemma TickIsUse(b: Backend, call: BackendCall)
    requires BackendInv(b) && Allowed(b, call)
    ensures Apply(b, call).pool.nextUse == b.pool.nextUse + if Uses(b, call) then 1 else 0
  {
    hide BackendInv, Backend.BeginRead, Backend.BeginPrefetch, Backend.BeginWrite, Backend.AcceptResponse,
      Backend.ExpireIfDue, Backend.IssueRetry, Backend.Disconnect, Backend.Invalidate, Backend.MediaChanged,
      Backend.BeginHandshake, Backend.AcceptHandshake, Backend.BeginGetInfo, Backend.AcceptGetInfo, Backend.Poll, Allowed,
      CanReserve;
    match call {
      case BeginHandshake => ClientCallsKeep(b, call);
      case AcceptHandshake(response) => ClientCallsKeep(b, call);
      case BeginGetInfo => ClientCallsKeep(b, call);
      case BeginRead(lba, g, now) => ReadTakesTick(b, lba, g, now);
      case BeginPrefetch(lba, g, now) => PrefetchTakesTick(b, lba, g, now);
      case BeginSequentialPrefetch(lba, g, now) => if lba != MAX_U64 { PrefetchTakesTick(b, lba + 1, g, now); }
      case BeginWrite(lba, g, data, now) => WriteTakesTick(b, lba, g, data, now);
      case CopyReady(lba, g) =>
      case _ => SettlesUnused(b, call);
    }
  }

  // ---- Replacement ---------------------------------------------------------

  /** x was used at some point after the last use of key. */
  ghost predicate UsedAfter(history: seq<Key>, x: Key, key: Key) {
    exists j :: 0 <= j < |history| && history[j] == x && forall n :: j <= n < |history| ==> history[n] != key
  }

  predicate Distinct(keys: seq<Key>) {
    forall i, j :: 0 <= i < j < |keys| ==> keys[i] != keys[j]
  }

  /** The sectors of all slots but one. */
  function OtherKeys(slots: seq<Slot>, i: nat): (keys: seq<Key>)
    requires i < |slots|
    ensures |keys| == |slots| - 1
    ensures forall j :: 0 <= j < |keys| ==> keys[j] == KeyOf(slots[if j < i then j else j + 1])
  {
    seq(|slots| - 1, j requires 0 <= j < |slots| - 1 => KeyOf(slots[if j < i then j else j + 1]))
  }

  /** When the candidate is a ready slot, every other slot is ready too and was used later. */
  lemma CandidateIsOldest(b: Backend, history: seq<Key>, i: nat)
    requires BackendInv(b) && !b.TransferActive() && UseOrder(b.pool, history)
    requires i < |b.pool.slots| && b.pool.slots[i].state == Ready && b.pool.Candidate() == Some(i)
    ensures Distinct(OtherKeys(b.pool.slots, i))
    ensures forall x <- OtherKeys(b.pool.slots, i) :: HeldElsewhere(b.pool.slots, i, x) && x != KeyOf(b.pool.slots[i])
                                                      && UsedAfter(history, x, KeyOf(b.pool.slots[i]))
  {
    var slots := b.pool.slots;
    var key, tick := KeyOf(slots[i]), slots[i].lastUsed;
    assert LastUse(history, key, tick);
    assert DistinctKeys(slots) && InFlightIsTransfer(b);
    assert FirstFree(slots) == |slots|;
    forall j | 0 <= j < |slots| && j != i
      ensures slots[j].state == Ready && KeyOf(slots[j]) != key && UsedAfter(history, KeyOf(slots[j]), key)
    {
      DifferentKeys(slots, i, j);
      assert slots[j].state == Ready;
      assert LastUse(history, KeyOf(slots[j]), slots[j].lastUsed);
      assert tick < slots[j].lastUsed;
      assert history[slots[j].lastUsed - 1] == KeyOf(slots[j]);
    }
    var keys := OtherKeys(slots, i);
    forall m, n | 0 <= m < n < |keys| ensures keys[m] != keys[n] {
      DifferentKeys(slots, if m < i then m else m + 1, if n < i then n else n + 1);
    }
  }

  lemma DifferentKeys(slots: seq<Slot>, i: nat, j: nat)
    requires DistinctKeys(slots) && i < |slots| && j < |slots| && i != j
    requires slots[i].state != Free && slots[j].state != Free
    ensures KeyOf(slots[i]) != KeyOf(slots[j])
  {
    if i < j {
      assert !slots[j].Holds(slots[i].lba, slots[i].generation);
    } else {
      assert !slots[i].Holds(slots[j].lba, slots[j].generation);
    }
  }

  predicate Starts(call: BackendCall) {
    call.BeginRead? || call.BeginPrefetch? || call.BeginSequentialPrefetch? || call.BeginWrite?
  }

  /** The ready slot no longer holds its sector after the call. */
  predicate Evicted(b: Backend, b': Backend, i: nat) {
    i < |b.pool.slots| == |b'.pool.slots| && b.pool.slots[i].state == Ready
    && (b'.pool.slots[i].state == Free || KeyOf(b'.pool.slots[i]) != KeyOf(b.pool.slots[i]))
  }

  lemma StartEvictsOnly(b: Backend, kind: TransferType, op: Operation, slot: nat, lba: U64, g: U64, now: U64, i: nat)
    requires i < |b.pool.slots| && i != slot
    ensures var b' := b.StartTransfer(kind, op, slot, lba, g, now).0;
            |b'.pool.slots| == |b.pool.slots| && b'.pool.slots[i] == b.pool.slots[i]
  {
    hide Coordinator.Start;
  }

  /** If dropping copies had freed a slot, that free slot would have been reserved. */
  lemma NothingDropped(p: Pool, lba: U64, g: U64)
    ensures var dropped := p.InvalidateReady(lba, g);
            (forall k :: 0 <= k < |p.slots| ==> dropped.slots[k].state != Free) ==> dropped == p
    ensures p.InvalidateReady(lba, g).Candidate().Some?
            && p.InvalidateReady(lba, g).slots[p.InvalidateReady(lba, g).Candidate().value].state != Free
            ==> p.InvalidateReady(lba, g) == p
  {
    var dropped := p.InvalidateReady(lba, g);
    if forall k :: 0 <= k < |p.slots| ==> dropped.slots[k].state != Free {
      assert forall k :: 0 <= k < |p.slots| ==> dropped.slots[k] == p.slots[k];
      assert dropped.slots == p.slots;
    }
  }

  // ---- What else a call may do to a ready sector ---------------------------

  /** The calls that drop the whole pool, for a medium or session that is gone. */
  predicate Barrier(call: BackendCall) {
    call.AcceptGetInfo? || call.Disconnect? || call.Invalidate? || call.MediaChanged? || call.InvalidateMedia?
  }

  /** The slot is still ready with the same sector and data. */
  predicate KeptReady(b: Backend, b': Backend, i: nat)
    requires i < |b.pool.slots|
  {
    |b'.pool.slots| == |b.pool.slots| && b'.pool.slots[i].state == Ready
    && KeyOf(b'.pool.slots[i]) == KeyOf(b.pool.slots[i]) && b'.pool.slots[i].data == b.pool.slots[i].data
  }

  lemma ReadKeepsReady(b: Backend, lba: U64, g: U64, now: U64, i: nat)
    requires BackendInv(b) && i < |b.pool.slots| && b.pool.slots[i].state == Ready && b.pool.Candidate() != Some(i)
    ensures KeptReady(b, b.BeginRead(lba, g, now).0, i)
  {
    hide BackendInv, Pool.FirstReady, Backend.StartTransfer, Pool.Candidate;
    if b.ReadyForTransfer() && b.GenerationSelectable(g) {
      var selected := b.SelectGeneration(g);
      var (pool', slot) := selected.pool.ReserveRead(lba, g);
      if selected.pool.FirstReady(lba, g, 0).None? && slot.Some? {
        StartEvictsOnly(selected.(pool := pool'), ReadTransfer, Operation.ReadBlock(lba), slot.value, lba, g, now, i);
      }
    }
  }

  lemma PrefetchKeepsReady(b: Backend, lba: U64, g: U64, now: U64, i: nat)
    requires BackendInv(b) && i < |b.pool.slots| && b.pool.slots[i].state == Ready && b.pool.Candidate() != Some(i)
    ensures KeptReady(b, b.BeginPrefetch(lba, g, now).0, i)
  {
    hide BackendInv, Backend.BeginRead, Pool.Candidate;
    if b.ReadyForTransfer() && b.GenerationSelectable(g) {
      SelectedInv(b, g);
      ReadKeepsReady(b.SelectGeneration(g), lba, g, now, i);
    }
  }

  lemma WriteKeepsReady(b: Backend, lba: U64, g: U64, data: Block, now: U64, i: nat)
    requires BackendInv(b) && i < |b.pool.slots| && b.pool.slots[i].state == Ready && b.pool.Candidate() != Some(i)
    requires KeyOf(b.pool.slots[i]) != Key(lba, g)
    ensures KeptReady(b, b.BeginWrite(lba, g, data, now).0, i)
  {
    hide BackendInv, Backend.StartTransfer, Pool.Candidate, Pool.InvalidateReady;
    if b.ReadyForTransfer() && b.GenerationSelectable(g) {
      var selected := b.SelectGeneration(g);
      var dropped := selected.pool.InvalidateReady(lba, g);
      assert dropped.slots[i] == b.pool.slots[i];
      var (pool', slot) := dropped.ReserveWrite(lba, g, data);
      if slot.Some? {
        NothingDropped(b.pool, lba, g);
        StartEvictsOnly(selected.(pool := pool'), WriteTransfer, WriteBlock(lba, data), slot.value, lba, g, now, i);
      }
    }
  }

  lemma SettlesKeepReady(b: Backend, call: BackendCall, i: nat)
    requires BackendInv(b) && i < |b.pool.slots| && b.pool.slots[i].state == Ready
    requires call.AcceptResponse? || call.ExpireIfDue? || call.Poll? || call.IssueRetry? || call.CopyReady?
    ensures KeptReady(b, Apply(b, call), i)
  {
    hide Coordinator.AcceptResponse, Coordinator.ExpireIfDue, Coordinator.IssueRetry, Client.AcceptResponse,
      DecodeReadBlock, Backend.IsErrorLine, Pool.FirstReady;
    assert InFlightIsTransfer(b);
  }

  /**
   * A ready sector stays, with its data, through every call but a barrier, a write to that sector,
   * and a start that finds its slot to be the one to replace.
   */
  lemma ReadyIsKept(b: Backend, call: BackendCall, i: nat)
    requires BackendInv(b) && Allowed(b, call) && i < |b.pool.slots| && b.pool.slots[i].state == Ready
    requires !Barrier(call)
    requires !(call.BeginWrite? && KeyOf(b.pool.slots[i]) == CallKey(call))
    requires !(Starts(call) && b.pool.Candidate() == Some(i))
    ensures KeptReady(b, Apply(b, call), i)
  {
    hide BackendInv, Allowed, Pool.Candidate, Backend.BeginRead, Backend.BeginPrefetch, Backend.BeginWrite, Backend.AcceptResponse,
      Backend.ExpireIfDue, Backend.IssueRetry, Backend.CopyReady, Backend.BeginHandshake, Backend.AcceptHandshake,
      Backend.BeginGetInfo, Backend.Poll;
    match call {
      case BeginHandshake => ClientCallsKeep(b, call);
      case AcceptHandshake(response) => ClientCallsKeep(b, call);
      case BeginGetInfo => ClientCallsKeep(b, call);
      case BeginRead(lba, g, now) => ReadKeepsReady(b, lba, g, now, i);
      case BeginPrefetch(lba, g, now) => PrefetchKeepsReady(b, lba, g, now, i);
      case BeginSequentialPrefetch(lba, g, now) => if lba != MAX_U64 { PrefetchKeepsReady(b, lba + 1, g, now, i); }
      case BeginWrite(lba, g, data, now) => WriteKeepsReady(b, lba, g, data, now, i);
      case _ => SettlesKeepReady(b, call, i);
    }
  }

  lemma StartEvictsCandidate(b: Backend, call: BackendCall, i: nat)
    requires BackendInv(b) && Starts(call) && Evicted(b, Apply(b, call), i)
    requires i < |b.pool.slots| && KeyOf(b.pool.slots[i]) != CallKey(call)
    ensures b.ReadyForTransfer() && b.pool.Candidate() == Some(i)
  {
    hide BackendInv, Pool.Candidate, Apply;
    if !b.ReadyForTransfer() {
      RefusedIsUnchanged(b, call);
    }
    if b.pool.Candidate() != Some(i) {
      ReadyIsKept(b, call, i);
    }
  }

  lemma RefusedIsUnchanged(b: Backend, call: BackendCall)
    requires BackendInv(b) && Starts(call) && !b.ReadyForTransfer()
    ensures Apply(b, call) == b
  {}

  // ---- Whole histories -----------------------------------------------------

  datatype Past = Past(backend: Backend, history: seq<Key>)

  predicate PastInv(p: Past) { BackendInv(p.backend) && UseOrder(p.backend.pool, p.history) }

  /** One call of a history; calls a backend does not answer in its state are left out. */
  function Step(p: Past, call: BackendCall): Past {
    if !p.backend.Valid() || !Allowed(p.backend, call) then p
    else
      var b' := Apply(p.backend, call);
      Past(b', Extend(p.history, p.backend, call))
  }

  lemma StepKeeps(p: Past, call: BackendCall)
    requires PastInv(p)
    ensures PastInv(Step(p, call))
  {
    if Allowed(p.backend, call) {
      EveryCallKeeps(p.backend, call);
      CallUses(p.backend, call);
      TickIsUse(p.backend, call);
      var b' := Apply(p.backend, call);
      hide Apply, BackendInv;
      if Unused(p.backend.pool, b'.pool) {
        UnusedKeepsOrder(p.backend.pool, b'.pool, p.history);
      } else {
        UsedKeepsOrder(p.backend.pool, b'.pool, p.history, CallKey(call));
      }
      hide UseOrder;
    }
  }

  function History(capacity: nat, timeout: U64, retries: nat, initial: U64, maximum: U64, calls: seq<BackendCall>): Past {
    if calls == [] then Past(NewBackend(capacity, timeout, retries, initial, maximum), [])
    else Step(History(capacity, timeout, retries, initial, maximum, calls[..|calls| - 1]), calls[|calls| - 1])
  }

  lemma {:induction false} HistoryKeeps(capacity: nat, timeout: U64, retries: nat, initial: U64, maximum: U64, calls: seq<BackendCall>)
    ensures PastInv(History(capacity, timeout, retries, initial, maximum, calls))
  {
    hide PastInv, Step;
    if calls == [] {
      NewPastInv(capacity, timeout, retries, initial, maximum);
    } else {
      HistoryKeeps(capacity, timeout, retries, initial, maximum, calls[..|calls| - 1]);
      StepKeeps(History(capacity, timeout, retries, initial, maximum, calls[..|calls| - 1]), calls[|calls| - 1]);
    }
  }

  lemma NewPastInv(capacity: nat, timeout: U64, retries: nat, initial: U64, maximum: U64)
    ensures PastInv(Past(NewBackend(capacity, timeout, retries, initial, maximum), []))
  {
    NewBackendInv(capacity, timeout, retries, initial, maximum);
  }

  /**
   * After any history, a call that replaces a ready sector with another one finds that all the
   * other slots hold different sectors, each reserved or delivered since the replaced sector's
   * own last reservation or delivery.
   */
  lemma ReplacementIsLru(
    capacity: nat, timeout: U64, retries: nat, initial: U64, maximum: U64, calls: seq<BackendCall>, call: BackendCall, i: nat)
    ensures var p := History(capacity, timeout, retries, initial, maximum, calls);
            p.backend.Valid() &&
            (Starts(call) && Evicted(p.backend, Apply(p.backend, call), i) && KeyOf(p.backend.pool.slots[i]) != CallKey(call)
             ==> exists others: seq<Key> :: OthersUsedAfter(p, i, others))
  {
    hide Apply, BackendInv, History, PastInv, OthersUsedAfter;
    var p := History(capacity, timeout, retries, initial, maximum, calls);
    HistoryKeeps(capacity, timeout, retries, initial, maximum, calls);
    PastIsValid(p);
    if Starts(call) && Evicted(p.backend, Apply(p.backend, call), i) && KeyOf(p.backend.pool.slots[i]) != CallKey(call) {
      ReplacedIsOldest(p, call, i);
    }
  }

  lemma PastIsValid(p: Past)
    requires PastInv(p)
    ensures p.backend.Valid()
  {}

  /** Some other slot of the pool holds this sector Ready. */
  predicate HeldElsewhere(slots: seq<Slot>, i: nat, x: Key) {
    exists j :: 0 <= j < |slots| && j != i && slots[j].state == Ready && KeyOf(slots[j]) == x
  }

  /** As many different sectors as there are other slots, all Ready in those slots, each used after slot i's sector was. */
  ghost predicate OthersUsedAfter(p: Past, i: nat, others: seq<Key>)
    requires i < |p.backend.pool.slots|
  {
    |others| == |p.backend.pool.slots| - 1 && Distinct(others)
    && forall x <- others :: HeldElsewhere(p.backend.pool.slots, i, x) && x != KeyOf(p.backend.pool.slots[i])
                             && UsedAfter(p.history, x, KeyOf(p.backend.pool.slots[i]))
  }

  lemma ReplacedIsOldest(p: Past, call: BackendCall, i: nat)
    requires PastInv(p) && Starts(call) && Evicted(p.backend, Apply(p.backend, call), i)
    requires KeyOf(p.backend.pool.slots[i]) != CallKey(call)
    ensures OthersUsedAfter(p, i, OtherKeys(p.backend.pool.slots, i))
  {
    StartEvictsCandidate(p.backend, call, i);
    CandidateIsOldest(p.backend, p.history, i);
    hide Apply, BackendInv;
    assert |OtherKeys(p.backend.pool.slots, i)| == |p.backend.pool.slots| - 1;
  }

  /** A slot in flight is never replaced: no start changes it. */
  lemma InFlightIsKept(b: Backend, call: BackendCall, i: nat)
    requires BackendInv(b) && Starts(call) && i < |b.pool.slots| && b.pool.slots[i].InFlight()
    ensures Apply(b, call) == b
  {
    assert InFlightIsTransfer(b);
    hide BackendInv;
  }
}
