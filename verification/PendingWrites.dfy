/**
 * What becomes of a write the bridge has queued. While its transfer is in progress, and when it has
 * been acknowledged, asking again gives the answers the block interface promises. When the transfer
 * has been given up, the bridge answers Pending until the session is dropped.
 */
module PendingWrites {
  import opened Basics
  import opened BlockResponse
  import opened SessionClient
  import opened SessionFacts
  import opened OperationCoordinator
  import P = SectorBufferPool
  import opened WriteThroughBackend
  import opened BackendInvariant
  import opened BackendService
  import SI = ServiceInvariant
  import BR = BoundedRetry
  import opened BoundedTransfer
  import opened SessionDispatcher
  import opened SessionSystem
  import opened Wire
  import opened Coherence
  import FR = FaithfulRun

  // ---- The answer to a repeated write ----------------------------------------

  /** A Ready buffer holds exactly this block for the sector. */
  predicate HoldsCopy(p: P.Pool, lba: U64, g: U64, block: Block) {
    exists i :: 0 <= i < |p.slots| && p.slots[i].ReadyFor(lba, g) && p.slots[i].data == block
  }

  lemma CopyIsFirst(p: P.Pool, lba: U64, g: U64, block: Block)
    requires DistinctKeys(p.slots)
    ensures p.CopyReady(lba, g).1 == Some(block) <==> HoldsCopy(p, lba, g, block)
  {
    var k := p.FirstReady(lba, g, 0);
    hide P.Pool.FirstReady;
    forall i | 0 <= i < |p.slots| && p.slots[i].ReadyFor(lba, g) ensures k == Some(i) {
      OneReady(p.slots, k.value, i, lba, g);
    }
  }

  lemma OneReady(slots: seq<P.Slot>, i: nat, j: nat, lba: U64, g: U64)
    requires DistinctKeys(slots) && i <= j < |slots| && slots[i].ReadyFor(lba, g) && slots[j].ReadyFor(lba, g)
    ensures i == j
  {}

  /** The bridge can still take this block for this sector. */
  predicate SameWrite(bridge: SdBridge, lba: U64, input: Block) {
    !bridge.readOnly && bridge.AddressValid(lba) && lba == bridge.pendingLba && input == bridge.pendingData
  }

  /**
   * The whole answer while a write is pending: Failed for any other block or sector, a read-only
   * bridge or an invalid address; otherwise Complete exactly when a Ready buffer holds the block,
   * and Pending else. Nothing is sent, and nothing changes but the age of a delivered buffer.
   */
  lemma RepeatedWriteAnswer(bridge: SdBridge, v: Service, lba: U64, input: Block, now: U64, sent: bool)
    requires BackendInv(v.backend) && bridge.writePending
    ensures var (bridge', v', result, effect) := bridge.Write(v, lba, input, now, sent);
            && result == (if !SameWrite(bridge, lba, input) then Failed
                          else if HoldsCopy(v.backend.pool, lba, bridge.generation, input) then Complete else Pending)
            && bridge' == (if result == Complete then bridge.(writePending := false) else bridge)
            && v' == v.(backend := v.backend.(pool := v'.backend.pool)) && effect == QUIET
  {
    hide BackendInv, P.Pool.CopyReady, HoldsCopy;
    assert DistinctKeys(v.backend.pool.slots) by {
      Keys(v.backend);
    }
    CopyIsFirst(v.backend.pool, lba, bridge.generation, input);
  }

  lemma Keys(b: Backend)
    requires BackendInv(b)
    ensures DistinctKeys(b.pool.slots)
  {}

  // ---- The transfer of a pending write -----------------------------------------

  /** The transfer has ended without an acknowledgement, or waits for a resume no service makes. */
  predicate Halted(state: OperationState) {
    state in {RenegotiatePending, MediaUnavailablePending, OperationFailed}
  }

  /** The acknowledged block is Ready, or no copy of the sector is and the transfer, if any, is this write. */
  ghost predicate WritePhase(b: Backend, lba: U64, g: U64, data: Block) {
    if b.coordinator.state == Idle then HoldsCopy(b.pool, lba, g, data)
    else
      NoReadyFor(b.pool, lba)
      && (Active(b.coordinator.state) ==>
            b.transfer == WriteTransfer && b.lba == lba && b.generation == g && b.coordinator.operation == WriteBlock(lba, data))
  }

  /** A transfer that goes on is the same transfer. */
  predicate SameTransfer(b: Backend, b': Backend) {
    Active(b'.coordinator.state) ==>
      Active(b.coordinator.state) && b'.transfer == b.transfer && b'.lba == b.lba && b'.generation == b.generation
      && b'.coordinator.operation == b.coordinator.operation
  }

  lemma ResponseKeepsTransfer(b: Backend, line: string, now: U64)
    requires BackendInv(b)
    ensures SameTransfer(b, b.AcceptResponse(line, now).0)
  {
    hide Coordinator.AcceptResponse, DecodeReadBlock, Backend.IsErrorLine, P.Pool.CompleteRead, P.Pool.CompleteWrite, P.Pool.Release;
    CoordinatorAcceptFacts(b.coordinator, line, now, b.client);
  }

  lemma ResponsePhase(b: Backend, line: string, now: U64, lba: U64, g: U64, data: Block)
    requires BackendInv(b) && WritePhase(b, lba, g, data) && b.TransferActive()
    ensures WritePhase(b.AcceptResponse(line, now).0, lba, g, data)
  {
    hide Backend.AcceptResponse, Client.AcceptResponse, DecodeReadBlock;
    ResponseKeepsTransfer(b, line, now);
    AcceptResponseFacts(b, line, now);
    ActiveTransfer(b);
    hide BackendInv;
    var b' := b.AcceptResponse(line, now).0;
    if b'.coordinator.state == Idle {
      var slot := b'.pool.slots[b.handle.value];
      assert slot.ReadyFor(lba, g) && slot.data == data;
    } else {
      NotCompleted(b, line, now);
    }
  }

  lemma ActiveTransfer(b: Backend)
    requires BackendInv(b) && b.TransferActive()
    ensures SlotOfTransfer(b) && b.coordinator.state != Idle
    ensures Active(b.coordinator.state) && b.transfer == WriteTransfer
            ==> b.coordinator.operation == WriteBlock(b.lba, b.pool.slots[b.handle.value].data)
  {}

  /** A response that does not leave the coordinator idle makes nothing Ready. */
  lemma NotCompleted(b: Backend, line: string, now: U64)
    requires BackendInv(b) && b.AcceptResponse(line, now).0.coordinator.state != Idle
    ensures NoNewReady(b.pool, b.AcceptResponse(line, now).0.pool)
  {
    hide Coordinator.AcceptResponse, DecodeReadBlock, Backend.IsErrorLine, P.Pool.CompleteRead, P.Pool.CompleteWrite;
    assert InFlightIsTransfer(b);
  }

  lemma PollPhase(v: Service, now: U64, lba: U64, g: U64, data: Block)
    requires BackendInv(v.backend) && WritePhase(v.backend, lba, g, data) && v.backend.TransferActive()
    ensures WritePhase(v.PollTransfer(now).0.backend, lba, g, data)
  {
    hide Backend.ExpireIfDue, Backend.IssueRetry, BackendInv, OperationText, HoldsCopy;
    var b := v.backend;
    FR.ServiceIsConfigured(b);
    ActiveTransfer(b);
    ExpireFacts(b, now);
    ExpireKeepsTransfer(b, now);
    var expired := b.ExpireIfDue(now);
    PollFacts(expired, now);
    BackendInvariant.IssueRetryFacts(expired.Poll(now), now);
    RetryIsNotIdle(expired.Poll(now), now);
  }

  lemma ExpireKeepsTransfer(b: Backend, now: U64)
    requires BackendInv(b)
    ensures SameTransfer(b, b.ExpireIfDue(now)) && (b.coordinator.state != Idle ==> b.ExpireIfDue(now).coordinator.state != Idle)
  {
    hide Coordinator.ExpireIfDue, P.Pool.Release;
    CoordinatorExpireFacts(b.coordinator, now, b.client);
  }

  lemma RetryIsNotIdle(b: Backend, now: U64)
    requires BackendInv(b) && b.coordinator.state != Idle
    ensures var b' := b.IssueRetry(now).0; SameTransfer(b, b') && b'.coordinator.state != Idle
  {
    hide Coordinator.IssueRetry, OperationText;
    SessionFacts.IssueRetryFacts(b.coordinator, now, b.client);
  }

  lemma CopyPhase(b: Backend, k: U64, h: U64, lba: U64, g: U64, data: Block)
    requires BackendInv(b) && WritePhase(b, lba, g, data) && b.TransferActive()
    ensures WritePhase(b.CopyReady(k, h).0, lba, g, data)
  {
    hide BackendInv, P.Pool.FirstReady;
    ActiveTransfer(b);
    CopyFacts(b, k, h);
  }

  /** The service is connected, knows its medium, and asks for nothing else. */
  predicate Settled(v: Service) {
    v.wasConnected && v.infoKnown && v.backend.client.negotiated && !v.handshakePending && !v.infoPending
  }

  lemma PassPhase(t: Trace, m: Moment, lba: U64, g: U64, data: Block)
    requires SI.ServiceInv(t.service) && Settled(t.service) && WritePhase(t.service.backend, lba, g, data)
    ensures var v := Pass(t, m).service;
            && SI.ServiceInv(v) && Settled(v) && WritePhase(v.backend, lba, g, data) && v.mediaInfo == t.service.mediaInfo
  {
    hide SI.ServiceInv, WritePhase, Backend.AcceptResponse, Service.PollTransfer, Service.BeginRead, Service.BeginWrite,
      Backend.CopyReady, BR.Happen, Backend.Admissible;
    SI.ServiceIsValid(t.service);
    if Transferring(t.service) && 0 <= t.now < MAX_U64 {
      ServiceParts(t.service);
      SI.CallInv(t.service, CallOf(m, t.now));
      PassIsCall(t, m);
      PassIsEvent(t, m);
      var view := View(t.service, t.lines, t.now);
      CoordinatorOf(t.service);
      var b := t.service.backend;
      match m {
        case TickPoll(sent) =>
          HappenKeepsSession(view, BR.Tick);
          PollPhase(t.service, t.now + 1, lba, g, data);
        case Receives(line) =>
          HappenKeepsSession(view, BR.Arrives(line));
          ResponsePhase(b, line, t.now, lba, g, data);
        case Begins(k, h, write, sent) => BusyBegin(t.service, k, h, write, t.now, sent);
        case Copies(k, h) => CopyPhase(b, k, h, lba, g, data);
      }
    } else {
      OverIsOver(t, m);
    }
  }

  lemma {:induction false} PassesPhase(t: Trace, moments: seq<Moment>, lba: U64, g: U64, data: Block)
    requires SI.ServiceInv(t.service) && Settled(t.service) && WritePhase(t.service.backend, lba, g, data)
    ensures t.service.Valid()
    ensures var v := Passes(t, moments).service;
            && SI.ServiceInv(v) && Settled(v) && WritePhase(v.backend, lba, g, data) && v.mediaInfo == t.service.mediaInfo
    decreases moments
  {
    hide SI.ServiceInv, WritePhase, Pass, Settled;
    SI.ServiceIsValid(t.service);
    if moments != [] {
      PassPhase(t, moments[0], lba, g, data);
      SI.ServiceIsValid(Pass(t, moments[0]).service);
      PassesPhase(Pass(t, moments[0]), moments[1..], lba, g, data);
    }
  }

  /** A write the bridge has just queued. */
  predicate Queued(bridge: SdBridge, v: Service, lba: U64, data: Block, now: U64, sent: bool) {
    !bridge.writePending && bridge.Write(v, lba, data, now, sent).2 == Pending
  }

  lemma QueuedPhase(bridge: SdBridge, v: Service, lba: U64, data: Block, now: U64, sent: bool)
    requires SI.ServiceInv(v) && v.infoKnown && Queued(bridge, v, lba, data, now, sent)
    ensures var (bridge', v', _, effect) := bridge.Write(v, lba, data, now, sent);
            && (v', true, effect) == Begin(v, lba, bridge.generation, Some(data), now, sent) && effect.line != ""
            && bridge' == bridge.(pendingLba := lba, pendingData := data, writePending := true)
            && SameWrite(bridge', lba, data) && v'.mediaInfo == v.mediaInfo
            && SI.ServiceInv(v') && Settled(v') && Transferring(v') && WritePhase(v'.backend, lba, bridge.generation, data)
  {
    hide SI.ServiceInv, Backend.BeginWrite, BackendInv, OperationText;
    ServiceParts(v);
    BeginWriteFacts(v.backend, lba, bridge.generation, data, now);
    BegunIsFollowed(v, lba, bridge.generation, Some(data), now, sent);
    var request := v.backend.BeginWrite(lba, bridge.generation, data, now).1;
    if request.error == NoError && request.line != "" {
      FR.StartedWrite(v.backend, lba, bridge.generation, data, now);
    }
  }

  /** The transfer of the pending write has been given up, and no buffer can answer for it. */
  ghost predicate Stranded(v: Service, bridge: SdBridge) {
    SI.ServiceInv(v) && Settled(v) && bridge.writePending
    && Halted(v.backend.coordinator.state) && NoReadyFor(v.backend.pool, bridge.pendingLba)
  }

  /** A queued write that has been given up is stranded. */
  lemma GivenUpIsStranded(v: Service, bridge: SdBridge)
    requires SI.ServiceInv(v) && Settled(v) && bridge.writePending && Halted(v.backend.coordinator.state)
    requires WritePhase(v.backend, bridge.pendingLba, bridge.generation, bridge.pendingData)
    ensures Stranded(v, bridge)
  {}

  /**
   * A queued write, after any run of the service and whatever happens until its transfer ends: the bridge
   * answers it Complete exactly when the transfer has been acknowledged, and Pending otherwise. After
   * 780 000 ticks it has been acknowledged or given up, and a write given up is stranded.
   */
  lemma QueuedWriteSettles(
    calls: seq<SI.ServiceCall>, bridge: SdBridge, lba: U64, data: Block, now: U64, sent: bool, moments: seq<Moment>)
    requires SI.Run(NewService(), calls).infoKnown && Queued(bridge, SI.Run(NewService(), calls), lba, data, now, sent)
    ensures var (bridge', v', _, effect) := bridge.Write(SI.Run(NewService(), calls), lba, data, now, sent);
            v'.Valid() &&
            var q := Passes(Trace(v', [effect.line], now), moments).service;
            var state := q.backend.coordinator.state;
            && (forall t: U64, again: bool ::
                  bridge'.Write(q, lba, data, t, again).2 == if state == Idle then Complete else Pending)
            && (LONGEST_TRANSFER_US <= Ticks(moments) < MAX_U64 - now ==> state == Idle || Halted(state))
            && (Halted(state) ==> Stranded(q, bridge'))
  {
    hide SI.Run, Passes, Ticks, SI.ServiceInv, SdBridge.Write, WritePhase, SameWrite, HoldsCopy, FirmwareTimers, BackendInv;
    var v := SI.Run(NewService(), calls);
    SI.NewServiceInv();
    SI.RunInv(NewService(), calls);
    NewTimers();
    RunKeepsTimers(NewService(), calls);
    var (bridge', v', _, effect) := bridge.Write(v, lba, data, now, sent);
    QueuedPhase(bridge, v, lba, data, now, sent);
    BegunIsBounded(v, lba, bridge.generation, Some(data), now, sent, moments);
    var t := Trace(v', [effect.line], now);
    PassesPhase(t, moments, lba, bridge.generation, data);
    var q := Passes(t, moments).service;
    ServiceParts(q);
    PhaseDecides(q.backend, lba, bridge.generation, data);
    if Halted(q.backend.coordinator.state) {
      GivenUpIsStranded(q, bridge');
    }
    forall t: U64, again: bool
      ensures bridge'.Write(q, lba, data, t, again).2 == if q.backend.coordinator.state == Idle then Complete else Pending
    {
      RepeatedWriteAnswer(bridge', q, lba, data, t, again);
    }
  }

  lemma PhaseDecides(b: Backend, lba: U64, g: U64, data: Block)
    requires WritePhase(b, lba, g, data)
    ensures HoldsCopy(b.pool, lba, g, data) <==> b.coordinator.state == Idle
  {}

  // ---- Stranded writes -----------------------------------------------------------

  /** With its operation given up the backend starts nothing and a response settles nothing. */
  lemma HaltedBackend(b: Backend, lba: U64, now: U64, line: string)
    requires BackendInv(b) && Halted(b.coordinator.state) && NoReadyFor(b.pool, lba)
    ensures var b' := b.ExpireIfDue(now);
            b'.coordinator == b.coordinator && b'.client == b.client && NoReadyFor(b'.pool, lba)
    ensures var b' := b.AcceptResponse(line, now).0;
            b'.coordinator == b.coordinator && b'.client == b.client && NoReadyFor(b'.pool, lba)
  {
    hide DecodeReadBlock, Backend.IsErrorLine, Client.AcceptResponse, Coordinator.RouteFailure;
  }

  lemma StrandedPoll(v: Service, bridge: SdBridge, connected: bool, now: U64, sent: bool)
    requires Stranded(v, bridge)
    ensures var (v', effect) := v.Poll(connected, now, sent);
            && (Stranded(v', bridge) <==> connected)
            && (connected ==> effect == QUIET && v'.mediaInfo == v.mediaInfo)
  {
    hide SI.ServiceInv, Backend.ExpireIfDue, Backend.Disconnect;
    ServiceParts(v);
    SI.ServiceIsValid(v);
    SI.PollInv(v, connected, now, sent);
    HaltedBackend(v.backend, bridge.pendingLba, now, "");
  }

  lemma StrandedResponse(v: Service, bridge: SdBridge, line: string, now: U64)
    requires Stranded(v, bridge)
    ensures var (v', _, effect) := v.HandleResponse(line, now);
            Stranded(v', bridge) && effect == QUIET && v'.mediaInfo == v.mediaInfo
  {
    hide SI.ServiceInv, Backend.AcceptResponse, IsResponse;
    ServiceParts(v);
    SI.ServiceIsValid(v);
    SI.HandleResponseInv(v, line, now);
    HaltedBackend(v.backend, bridge.pendingLba, now, line);
  }

  lemma StrandedBegin(v: Service, bridge: SdBridge, lba: U64, g: U64, write: Option<Block>, now: U64, sent: bool)
    requires Stranded(v, bridge)
    ensures Begin(v, lba, g, write, now, sent) == (v, false, QUIET)
    ensures v.backend.BeginPrefetch(lba, g, now) == (v.backend, Refused(Busy))
  {
    hide SI.ServiceInv;
  }

  lemma StrandedCopy(v: Service, bridge: SdBridge, lba: U64, g: U64)
    requires Stranded(v, bridge)
    ensures var v' := v.CopyReady(lba, g).0; Stranded(v', bridge) && v'.mediaInfo == v.mediaInfo
  {
    hide SI.ServiceInv, Backend.CopyReady, BackendInv;
    ServiceParts(v);
    SI.CopyReadyInv(v, lba, g);
    CopyFacts(v.backend, lba, g);
  }

  /** Every later answer of the bridge: Pending to the stranded write, Failed to any other, and nothing sent. */
  lemma StrandedAnswer(v: Service, bridge: SdBridge, lba: U64, input: Block, now: U64, sent: bool)
    requires Stranded(v, bridge)
    ensures bridge.Write(v, lba, input, now, sent) == (bridge, v, if SameWrite(bridge, lba, input) then Pending else Failed, QUIET)
  {
    hide SI.ServiceInv, BackendInv, P.Pool.FirstReady;
    ServiceParts(v);
    RepeatedWriteAnswer(bridge, v, lba, input, now, sent);
  }

  /** The whole system with a stranded write, its bridge up to date with the medium. */
  ghost predicate StrandedSystem(s: System) {
    Stranded(s.service, s.bridge) && s.bridge.RefreshMedia(s.service) == s.bridge
  }

  /** A stranded write stays stranded through every step but one: the loss of the connection. */
  lemma StrandedStep(s: System, step: Step)
    requires StrandedSystem(s) && Legal(s, step)
    ensures s.service.Valid()
    ensures StrandedSystem(Next(s, step)) <==> !(step.Poll? && !step.connected)
    ensures !(step.Poll? && !step.connected) ==> Next(s, step).bridge == s.bridge
  {
    hide SI.ServiceInv, Service.Poll, Service.HandleResponse, Service.BeginRead, Service.BeginWrite, Service.CopyReady,
      Backend.BeginPrefetch, SdBridge.Write, NoReadyFor, Host.Dispatch;
    var v, bridge := s.service, s.bridge;
    SI.ServiceIsValid(v);
    match step {
      case Poll(connected, now, sent, session) => StrandedPoll(v, bridge, connected, now, sent);
      case FirmwareReceives(line, now, session) => StrandedResponse(v, bridge, line, now);
      case HostReceives(line, io) =>
      case BeginRead(lba, g, now, sent) => StrandedBegin(v, bridge, lba, g, None, now, sent);
      case BeginPrefetch(lba, g, now) => StrandedBegin(v, bridge, lba, g, None, now, false);
      case BeginWrite(lba, g, data, now, sent) => StrandedBegin(v, bridge, lba, g, Some(data), now, sent);
      case CopyReady(lba, g) => StrandedCopy(v, bridge, lba, g);
      case RefreshMedia =>
      case SdRead(lba, now, sent) =>
        StrandedCopy(v, bridge, lba, bridge.generation);
        StrandedBegin(v.CopyReady(lba, bridge.generation).0, bridge, lba, bridge.generation, None, now, sent);
      case SdWrite(lba, data, now, sent) => StrandedAnswer(v, bridge, lba, data, now, sent);
    }
  }

  predicate StaysConnected(steps: seq<Step>) { forall step <- steps :: step.Poll? ==> step.connected }

  /**
   * Once stranded, a write is answered Pending after every further run without a loss of the
   * connection, whatever arrives and whatever else is asked, and every other write is answered Failed.
   */
  lemma {:induction false} StrandedForever(s: System, steps: seq<Step>)
    requires StrandedSystem(s) && StaysConnected(steps)
    ensures var q := Run(s, steps);
            && StrandedSystem(q) && q.bridge == s.bridge
            && forall lba: U64, input: Block, now: U64, sent: bool ::
                 q.bridge.Write(q.service, lba, input, now, sent)
                 == (q.bridge, q.service, if SameWrite(s.bridge, lba, input) then Pending else Failed, QUIET)
    decreases steps
  {
    hide Stranded, SdBridge.Write, SdBridge.RefreshMedia, Next, Legal, SameWrite;
    if steps == [] {
      forall lba: U64, input: Block, now: U64, sent: bool
        ensures s.bridge.Write(s.service, lba, input, now, sent)
             == (s.bridge, s.service, if SameWrite(s.bridge, lba, input) then Pending else Failed, QUIET)
      {
        StrandedAnswer(s.service, s.bridge, lba, input, now, sent);
      }
    } else {
      assert steps[0] in steps;
      if Legal(s, steps[0]) {
        StrandedStep(s, steps[0]);
      }
      StrandedForever(Take(s, steps[0]), steps[1..]);
    }
  }

  // ---- A silent host strands a write ---------------------------------------------

  /** Ticks of the clock with nothing else happening, for the service and for the whole system. */
  function Silence(n: nat): (moments: seq<Moment>)
    ensures Ticks(moments) == n
  {
    if n == 0 then [] else [TickPoll(true)] + Silence(n - 1)
  }

  function Polls(now: int, n: nat, session: string): seq<Step>
    requires 0 <= now && now + n <= MAX_U64
    decreases n
  {
    if n == 0 then [] else [Poll(true, now + 1, true, session)] + Polls(now + 1, n - 1, session)
  }

  /** A system whose bridge waits for a write that its service is following. */
  ghost predicate Waiting(s: System, t: Trace) {
    SI.ServiceInv(s.service) && Settled(s.service) && s.bridge.writePending && s.bridge.RefreshMedia(s.service) == s.bridge
    && WritePhase(s.service.backend, s.bridge.pendingLba, s.bridge.generation, s.bridge.pendingData)
    && s.service.backend.coordinator.state != Idle && t.service == s.service
  }

  /** A poll with no response does not settle a transfer. */
  lemma PollIsNotIdle(v: Service, now: U64)
    requires BackendInv(v.backend) && v.backend.coordinator.state != Idle
    ensures v.PollTransfer(now).0.backend.coordinator.state != Idle
  {
    hide Backend.ExpireIfDue, Backend.IssueRetry, BackendInv, OperationText, NoNewReady;
    FR.ServiceIsConfigured(v.backend);
    ExpireFacts(v.backend, now);
    ExpireKeepsTransfer(v.backend, now);
    var expired := v.backend.ExpireIfDue(now);
    PollFacts(expired, now);
    RetryIsNotIdle(expired.Poll(now), now);
  }

  /** One poll of the system is one tick of the followed transfer. */
  lemma PollWaits(s: System, t: Trace, session: string)
    requires Waiting(s, t) && Transferring(t.service) && 0 <= t.now < MAX_U64 && Token(session)
    ensures t.service.Valid() && Waiting(Take(s, Poll(true, t.now + 1, true, session)), Pass(t, TickPoll(true)))
    ensures Take(s, Poll(true, t.now + 1, true, session)).bridge == s.bridge
  {
    hide SI.ServiceInv, WritePhase, Service.PollTransfer, BackendInv, Token;
    SI.ServiceIsValid(t.service);
    ServiceParts(t.service);
    PassPhase(t, TickPoll(true), s.bridge.pendingLba, s.bridge.generation, s.bridge.pendingData);
    PollIsNotIdle(t.service, t.now + 1);
    PassIsEvent(t, TickPoll(true));
    CoordinatorOf(t.service);
    PollIsTick(t.service, t.lines, t.now, true);
  }

  /** Silent polls follow the transfer to its end, and past it the write stays stranded. */
  lemma {:induction false} SilentPolls(plan: BR.Plan, s: System, t: Trace, n: nat, session: string)
    requires Waiting(s, t) && Followed(plan, t) && 0 <= t.now && t.now + n < MAX_U64 && Token(session)
    ensures t.service.Valid()
    ensures var q, e := Run(s, Polls(t.now, n, session)), Passes(t, Silence(n));
            q.bridge == s.bridge && (StrandedSystem(q) || (Waiting(q, e) && Transferring(e.service)))
    decreases n
  {
    hide Waiting, Followed, Pass, Take, StrandedSystem, Transferring, BR.InProgress;
    FollowedIsTimed(plan, t);
    if !Transferring(t.service) {
      OverIsStranded(plan, s, t);
      PollsStayConnected(t.now, n, session);
      StrandedForever(s, Polls(t.now, n, session));
    } else if n > 0 {
      PollWaits(s, t, session);
      PassFollows(plan, t, TickPoll(true));
      FollowedIsTimed(plan, Pass(t, TickPoll(true)));
      NextTick(plan, t);
      SilentPolls(plan, Take(s, Poll(true, t.now + 1, true, session)), Pass(t, TickPoll(true)), n - 1, session);
      assert Silence(n)[1..] == Silence(n - 1) && Polls(t.now, n, session)[1..] == Polls(t.now + 1, n - 1, session);
    }
  }

  lemma NextTick(plan: BR.Plan, t: Trace)
    requires Followed(plan, t) && Transferring(t.service) && t.now < MAX_U64
    ensures t.service.Valid() && Pass(t, TickPoll(true)).now == t.now + 1
  {
    PassIsEvent(t, TickPoll(true));
  }

  lemma OverIsStranded(plan: BR.Plan, s: System, t: Trace)
    requires Waiting(s, t) && Followed(plan, t)
    requires !Transferring(t.service) || !BR.InProgress(t.service.backend.coordinator.state)
    ensures StrandedSystem(s)
  {
    hide SI.ServiceInv, BR.OnSchedule, WritePhase;
    GivenUpIsStranded(s.service, s.bridge);
  }

  lemma {:induction false} PollsStayConnected(now: int, n: nat, session: string)
    requires 0 <= now && now + n <= MAX_U64
    ensures StaysConnected(Polls(now, n, session))
    decreases n
  {
    if n > 0 {
      PollsStayConnected(now + 1, n - 1, session);
    }
  }

  /**
   * From power-up: connect, let the bridge queue any write to a writable image, and let the host say
   * nothing for 780 ms or more. From then on the write is answered Pending in every run that keeps
   * the connection, whatever the host sends and whatever the card asks for.
   */
  lemma SilentHostStrandsWrite(image: seq<Block>, cardType: string, session: string, io: ImageIo, lba: U64, data: Block,
                               now: U64, later: U64, n: nat, more: seq<Step>, t: U64, again: bool)
    requires Token(session) && Token(cardType) && |image| <= MAX_U64 && lba < |image|
    requires LONGEST_TRANSFER_US <= n < MAX_U64 - now && StaysConnected(more)
    ensures var s := Run(Initial(image, cardType, true, session),
                         FR.ConnectSteps(image, cardType, true, session, now, io, later));
            var q := Run(Run(Take(s, SdWrite(lba, data, now, true)), Polls(now, n, session)), more);
            && s.bridge.Write(s.service, lba, data, now, true).2 == Pending
            && q.bridge.Write(q.service, lba, data, t, again) == (q.bridge, q.service, Pending, QUIET)
  {
    hide Run, Initial, FR.ConnectSteps, SystemInv, SdBridge.Write, Take, StrandedSystem, SameWrite, FR.AtRest, Token, Polls;
    FR.Connects(image, cardType, true, session, now, io, later);
    var s := Run(Initial(image, cardType, true, session), FR.ConnectSteps(image, cardType, true, session, now, io, later));
    FR.WriteStarts(s, lba, data, now);
    var w := Take(s, SdWrite(lba, data, now, true));
    var silent := Run(w, Polls(now, n, session));
    SilentWriteStrands(s, lba, data, now, n, session);
    StrandedForever(silent, more);
    StaysTheSame(s, lba, data, now);
  }

  lemma StaysTheSame(s: System, lba: U64, data: Block, now: U64)
    requires SystemInv(s) && FR.AtRest(s) && s.bridge.AddressValid(lba) && !s.bridge.readOnly && !s.bridge.writePending
    ensures SameWrite(Take(s, SdWrite(lba, data, now, true)).bridge, lba, data)
  {
    hide SystemInv, Take, FR.AtRest;
    FR.WriteStarts(s, lba, data, now);
  }

  /** The silent part of it, from any system at rest that knows its medium. */
  lemma SilentWriteStrands(s: System, lba: U64, data: Block, now: U64, n: nat, session: string)
    requires SystemInv(s) && FR.AtRest(s) && s.bridge.AddressValid(lba) && !s.bridge.readOnly && !s.bridge.writePending
    requires s.service.infoKnown && FirmwareTimers(s.service.backend.coordinator) && Token(session)
    requires s.bridge.RefreshMedia(s.service) == s.bridge && LONGEST_TRANSFER_US <= n < MAX_U64 - now
    ensures var w := Take(s, SdWrite(lba, data, now, true));
            var q := Run(w, Polls(now, n, session));
            StrandedSystem(q) && q.bridge == w.bridge
  {
    hide SystemInv, SI.ServiceInv, FR.AtRest, Take, Run, Token, Polls, StrandedSystem, Transferring, WritePhase, FirmwareTimers,
      Followed, BR.InProgress, Passes, Silence, SdBridge.Write;
    var v, g := s.service, s.bridge.generation;
    TakeApart(s);
    FR.WriteStarts(s, lba, data, now);
    QueuedPhase(s.bridge, v, lba, data, now, true);
    BegunOnSchedule(v, lba, g, Some(data), now, true);
    QueuedIsWaiting(s, lba, data, now);
    CoordinatorOf(v);
    var effect := s.bridge.Write(v, lba, data, now, true).3;
    var w, plan := Take(s, SdWrite(lba, data, now, true)), PlanOf(v, lba, Some(data), now);
    var t := Trace(w.service, [effect.line], now);
    SilentPolls(plan, w, t, n, session);
    PassesFollow(plan, t, Silence(n));
    ScheduleEnds(plan, Passes(t, Silence(n)), v.backend.coordinator);
    var q, e := Run(w, Polls(now, n, session)), Passes(t, Silence(n));
    if !StrandedSystem(q) {
      OverIsStranded(plan, q, e);
    }
  }

  lemma QueuedIsWaiting(s: System, lba: U64, data: Block, now: U64)
    requires SystemInv(s) && FR.AtRest(s) && s.bridge.AddressValid(lba) && !s.bridge.readOnly && !s.bridge.writePending
    requires s.service.infoKnown && s.bridge.RefreshMedia(s.service) == s.bridge
    ensures var (_, v', _, effect) := s.bridge.Write(s.service, lba, data, now, true);
            var w := Take(s, SdWrite(lba, data, now, true));
            w.service == v' && Waiting(w, Trace(v', [effect.line], now))
  {
    hide SystemInv, SI.ServiceInv, FR.AtRest, WritePhase, Take, SdBridge.Write, SdBridge.RefreshMedia, Begin;
    TakeApart(s);
    FR.WriteStarts(s, lba, data, now);
    QueuedPhase(s.bridge, s.service, lba, data, now, true);
    QueuedIsTaken(s, lba, data, now);
    var v' := s.bridge.Write(s.service, lba, data, now, true).1;
    RefreshKeepsPending(s.bridge, s.service, v', lba, data);
    StillUnderway(v');
  }

  lemma QueuedIsTaken(s: System, lba: U64, data: Block, now: U64)
    requires s.service.Valid() && s.bridge.Write(s.service, lba, data, now, true).2 == Pending
    ensures Take(s, SdWrite(lba, data, now, true)).service == s.bridge.Write(s.service, lba, data, now, true).1
  {
    hide SdBridge.Write;
  }

  /** A refresh of the same medium keeps a write pending. */
  lemma RefreshKeepsPending(bridge: SdBridge, v: Service, v': Service, lba: U64, data: Block)
    requires bridge.RefreshMedia(v) == bridge && bridge.present && v'.mediaInfo == v.mediaInfo && v'.backend.client.negotiated
    ensures var queued := bridge.(pendingLba := lba, pendingData := data, writePending := true);
            queued.RefreshMedia(v') == queued
  {}

  lemma StillUnderway(v: Service)
    requires SI.ServiceInv(v) && v.backend.TransferActive()
    ensures v.backend.coordinator.state != Idle
  {}
}
