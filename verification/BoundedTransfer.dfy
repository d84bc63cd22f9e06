/** The bound on retries for the transfers of the service, under the configuration of the firmware. */
module BoundedTransfer {
  import opened Basics
  import opened BlockResponse
  import opened SessionClient
  import opened SessionFacts
  import opened RetryControl
  import opened OperationCoordinator
  import opened WriteThroughBackend
  import opened BackendInvariant
  import opened BackendService
  import opened BoundedRetry
  import P = SectorBufferPool
  import SI = ServiceInvariant

  // ---- The service's poll and response are the coordinator's ---------------

  /** A transfer is under way and nothing else waits: the last branch of the poll. */
  predicate Transferring(v: Service) {
    v.wasConnected && v.backend.client.negotiated && !v.handshakePending && !v.infoPending && v.backend.TransferActive()
  }

  function View(v: Service, lines: seq<string>, now: int): Progress {
    Progress(v.backend.coordinator, v.backend.client, lines, now)
  }

  function Sent(lines: seq<string>, effect: Effect): seq<string> {
    if effect.line == "" then lines else lines + [effect.line]
  }

  /** One poll of the service during a transfer is one tick of its coordinator, with the same lines sent. */
  lemma PollIsTick(v: Service, lines: seq<string>, now: int, sent: bool)
    requires CoordinatorInv(v.backend.coordinator) && Transferring(v) && 0 <= now < MAX_U64
    requires v.backend.coordinator.state == AwaitingResponse ==>
               v.backend.client.RequestPending() && !v.backend.client.pendingHandshake
    ensures var (v', effect) := v.Poll(true, now + 1, sent);
            View(v', Sent(lines, effect), now + 1) == Happen(View(v, lines, now), Tick)
            && v' == v.(backend := v'.backend) && !effect.disconnected
  {
    hide Coordinator.ExpireIfDue, Coordinator.IssueRetry, OperationText;
    var c, client := v.backend.coordinator, v.backend.client;
    CoordinatorExpireFacts(c, now + 1, client);
    var (c1, client1) := c.ExpireIfDue(now + 1, client);
    SessionFacts.IssueRetryFacts(c1.Poll(now + 1), now + 1, client1);
  }

  /** A response line during a transfer reaches the coordinator exactly when the backend admits it. */
  lemma ResponseIsArrival(v: Service, line: string, lines: seq<string>, now: U64)
    requires CoordinatorInv(v.backend.coordinator) && Transferring(v)
    ensures var (v', _, effect) := v.HandleResponse(line, now);
            View(v', lines, now) == (if IsResponse(line) && v.backend.Admissible(line)
                                     then Happen(View(v, lines, now), Arrives(line)) else View(v, lines, now))
            && v' == v.(backend := v'.backend) && effect == QUIET
  {
    hide Coordinator.AcceptResponse, DecodeReadBlock;
  }

  /** Neither a poll nor a response gives up the session. */
  lemma HappenKeepsSession(p: Progress, e: Event)
    requires CoordinatorInv(p.c)
    requires p.c.state == AwaitingResponse ==> p.client.RequestPending() && !p.client.pendingHandshake
    ensures Happen(p, e).client.negotiated == p.client.negotiated
  {
    hide Coordinator.ExpireIfDue, Coordinator.IssueRetry, Coordinator.AcceptResponse, OperationText;
    match e {
      case Tick =>
        if 0 <= p.now < MAX_U64 {
          var now := p.now + 1;
          CoordinatorExpireFacts(p.c, now, p.client);
          var (c1, client1) := p.c.ExpireIfDue(now, p.client);
          SessionFacts.IssueRetryFacts(c1.Poll(now), now, client1);
        }
      case Arrives(response) =>
        if 0 <= p.now <= MAX_U64 {
          CoordinatorAcceptFacts(p.c, response, p.now, p.client);
        }
    }
  }

  // ---- A transfer from its start -------------------------------------------

  /** cdc_backend_service_begin_read or begin_write. */
  function Begin(v: Service, lba: U64, g: U64, write: Option<Block>, now: U64, sent: bool): (Service, bool, Effect) {
    if write.Some? then v.BeginWrite(lba, g, write.value, now, sent) else v.BeginRead(lba, g, now, sent)
  }

  datatype Moment =
    | TickPoll(sent: bool)        // the clock advances by one tick and the connected service polls
    | Receives(line: string)      // a line from USB, at the current tick
    | Begins(lba: U64, generation: U64, write: Option<Block>, sent: bool)  // the SD side asks for a sector
    | Copies(lba: U64, generation: U64)                                    // or for a cached one

  /** The call of the service a moment stands for. */
  function CallOf(m: Moment, now: U64): SI.ServiceCall
    requires now < MAX_U64
  {
    match m
    case TickPoll(sent) => SI.CallPoll(true, now + 1, sent)
    case Receives(line) => SI.CallResponse(line, now)
    case Begins(lba, g, None, sent) => SI.CallRead(lba, g, now, sent)
    case Begins(lba, g, Some(data), sent) => SI.CallWrite(lba, g, data, now, sent)
    case Copies(lba, g) => SI.CallCopy(lba, g)
  }

  /** The service, the lines it has sent for the transfer, and the clock. */
  datatype Trace = Trace(service: Service, lines: seq<string>, now: int)

  /** One moment of a transfer; once the transfer is over the trace stays where it ended. */
  function Pass(t: Trace, m: Moment): Trace
    requires t.service.Valid()
  {
    if !Transferring(t.service) || !(0 <= t.now < MAX_U64) then t
    else
      var v := SI.Call(t.service, CallOf(m, t.now));
      match m
      case TickPoll(sent) => Trace(v, Sent(t.lines, t.service.Poll(true, t.now + 1, sent).1), t.now + 1)
      case Begins(lba, g, write, sent) => Trace(v, Sent(t.lines, Begin(t.service, lba, g, write, t.now, sent).2), t.now)
      case _ => t.(service := v)
  }

  function Passes(t: Trace, moments: seq<Moment>): Trace
    requires t.service.Valid()
    decreases moments
  {
    if moments == [] then t
    else
      var next := Pass(t, moments[0]);
      if next.service.Valid() then Passes(next, moments[1..]) else next
  }

  /** How often the clock advances. */
  function Ticks(moments: seq<Moment>): nat {
    if moments == [] then 0 else Ticks(moments[1..]) + if moments[0].TickPoll? then 1 else 0
  }

  /** The transfer is on schedule, and while it is in progress the service is following it. */
  ghost predicate Followed(plan: Plan, t: Trace) {
    OnSchedule(plan, View(t.service, t.lines, t.now)) && SI.ServiceInv(t.service)
    && (InProgress(t.service.backend.coordinator.state) ==> Transferring(t.service))
  }

  /** During a transfer the SD side can start nothing. */
  lemma BusyBegin(v: Service, lba: U64, g: U64, write: Option<Block>, now: U64, sent: bool)
    requires v.backend.TransferActive()
    ensures Begin(v, lba, g, write, now, sent) == (v, false, QUIET)
  {}

  /** What a moment of a transfer is to its coordinator: a tick, a response, or nothing. */
  lemma PassIsEvent(t: Trace, m: Moment)
    requires SI.ServiceInv(t.service) && Transferring(t.service) && 0 <= t.now < MAX_U64
    ensures var q := Pass(t, m);
            && q.service == t.service.(backend := q.service.backend)
            && q.now == t.now + (if m.TickPoll? then 1 else 0)
            && View(q.service, q.lines, q.now)
               == (match m
                   case TickPoll(_) => Happen(View(t.service, t.lines, t.now), Tick)
                   case Receives(line) =>
                     if IsResponse(line) && t.service.backend.Admissible(line)
                     then Happen(View(t.service, t.lines, t.now), Arrives(line)) else View(t.service, t.lines, t.now)
                   case _ => View(t.service, t.lines, t.now))
  {
    hide Service.Poll, Service.HandleResponse, Service.BeginRead, Service.BeginWrite, Happen, Backend.Admissible;
    CoordinatorOf(t.service);
    match m {
      case TickPoll(sent) => PollIsTick(t.service, t.lines, t.now, sent);
      case Receives(line) => ResponseIsArrival(t.service, line, t.lines, t.now);
      case Begins(lba, g, write, sent) => BusyBegin(t.service, lba, g, write, t.now, sent);
      case Copies(_, _) =>
    }
  }

  lemma CoordinatorOf(v: Service)
    requires SI.ServiceInv(v)
    ensures CoordinatorInv(v.backend.coordinator) && v.Valid()
    ensures v.backend.coordinator.state == AwaitingResponse ==> v.backend.client.RequestPending() && !v.backend.client.pendingHandshake
    ensures InProgress(v.backend.coordinator.state) ==> v.backend.TransferActive()
  {}

  lemma PassFollows(plan: Plan, t: Trace, m: Moment)
    requires Followed(plan, t)
    ensures Followed(plan, Pass(t, m))
  {
    hide SI.ServiceInv, SI.Call, Happen, Repeats, Pass, Backend.Admissible, OnSchedule;
    FollowedIsTimed(plan, t);
    if Transferring(t.service) && 0 <= t.now < MAX_U64 {
      var view := View(t.service, t.lines, t.now);
      CoordinatorOf(t.service);
      PassIsEvent(t, m);
      PassIsCall(t, m);
      SI.CallInv(t.service, CallOf(m, t.now));
      CoordinatorOf(Pass(t, m).service);
      match m {
        case TickPoll(_) =>
          TickOnSchedule(plan, view);
          HappenKeepsSession(view, Tick);
        case Receives(line) =>
          ArrivesOnSchedule(plan, view, line);
          HappenKeepsSession(view, Arrives(line));
        case _ =>
      }
    } else {
      OverIsOver(t, m);
    }
  }

  lemma PassIsCall(t: Trace, m: Moment)
    requires t.service.Valid() && Transferring(t.service) && 0 <= t.now < MAX_U64
    ensures Pass(t, m).service == SI.Call(t.service, CallOf(m, t.now))
  {
    hide SI.Call;
  }

  lemma OverIsOver(t: Trace, m: Moment)
    requires t.service.Valid() && (!Transferring(t.service) || !(0 <= t.now < MAX_U64))
    ensures Pass(t, m) == t
  {}

  /** However long the transfer is followed, its clock is the number of ticks since the start. */
  lemma {:induction false} PassesFollow(plan: Plan, t: Trace, moments: seq<Moment>)
    requires Followed(plan, t)
    ensures var q := Passes(t, moments);
            && Followed(plan, q)
            && (Transferring(q.service) && t.now + Ticks(moments) < MAX_U64 ==> q.now == t.now + Ticks(moments))
    decreases moments
  {
    hide Pass, SI.ServiceInv, Repeats, OnSchedule, Transferring;
    if moments != [] {
      FollowedIsTimed(plan, t);
      var next := Pass(t, moments[0]);
      PassFollows(plan, t, moments[0]);
      FollowedIsTimed(plan, next);
      PassesFollow(plan, next, moments[1..]);
      if Transferring(t.service) && t.now < MAX_U64 {
        PassIsEvent(t, moments[0]);
      } else {
        OverIsOver(t, moments[0]);
        OverStays(t, moments[1..]);
      }
    }
  }

  lemma {:induction false} OverStays(t: Trace, moments: seq<Moment>)
    requires t.service.Valid() && (!Transferring(t.service) || !(0 <= t.now < MAX_U64))
    ensures Passes(t, moments) == t
    decreases moments
  {
    if moments != [] {
      OverIsOver(t, moments[0]);
      OverStays(t, moments[1..]);
    }
  }

  lemma FollowedIsTimed(plan: Plan, t: Trace)
    requires Followed(plan, t)
    ensures t.service.Valid() && 0 <= t.now <= MAX_U64
  {}

  /** A start that sent a line is the coordinator's start of that operation. */
  lemma BeginIsStart(b: Backend, lba: U64, g: U64, write: Option<Block>, now: U64)
    ensures var (b', request) := if write.Some? then b.BeginWrite(lba, g, write.value, now) else b.BeginRead(lba, g, now);
            request.line != "" && request.error == NoError ==>
              (b'.coordinator, b'.client, request) == b.coordinator.Start(TransferOperation(lba, write), now, b.client)
  {
    hide P.Pool.Reserve, P.Pool.FirstReady, P.Pool.InvalidateReady, Coordinator.Start, P.Pool.Release;
  }

  function TransferOperation(lba: U64, write: Option<Block>): (op: Operation)
    ensures !op.NoOperation?
  {
    if write.Some? then WriteBlock(lba, write.value) else Operation.ReadBlock(lba)
  }

  /** What a start that sent its line leaves: an active transfer the service will follow. */
  lemma BegunIsFollowed(v: Service, lba: U64, g: U64, write: Option<Block>, now: U64, sent: bool)
    requires SI.ServiceInv(v)
    ensures var (v', ok, effect) := Begin(v, lba, g, write, now, sent);
            ok && effect.line != "" ==> Transferring(v') && SI.ServiceInv(v')
  {
    hide Backend.BeginRead, Backend.BeginWrite, SI.ServiceInv, NoNewReady, NoReadyFor, OperationText, BackendInv;
    ServiceParts(v);
    if write.Some? {
      BeginWriteFacts(v.backend, lba, g, write.value, now);
      SI.BeginWriteInv(v, lba, g, write.value, now, sent);
    } else {
      BeginReadFacts(v.backend, lba, g, now);
      SI.BeginReadInv(v, lba, g, now, sent);
    }
  }

  lemma ServiceParts(v: Service)
    requires SI.ServiceInv(v)
    ensures BackendInv(v.backend) && (!v.backend.client.RequestPending() ==> !v.handshakePending && !v.infoPending)
    ensures v.backend.client.negotiated ==> v.wasConnected
  {}

  // ---- The configuration of the firmware -----------------------------------

  /** The timeout and the delays of the firmware's coordinator. */
  predicate FirmwareTimers(c: Coordinator) {
    c.timeout == REQUEST_TIMEOUT_US
    && c.retry.maximumRetries == MAXIMUM_RETRIES
    && c.retry.initialBackoff == INITIAL_RETRY_BACKOFF_US
    && c.retry.maximumBackoff == MAXIMUM_RETRY_BACKOFF_US
  }

  lemma NewTimers()
    ensures FirmwareTimers(NewService().backend.coordinator)
  {}

  /** No call of the coordinator touches its configuration. */
  lemma CoordinatorKeepsTimers(c: Coordinator, op: Operation, response: string, now: U64, client: Client)
    requires c.Valid() && FirmwareTimers(c)
    ensures FirmwareTimers(c.Start(op, now, client).0) && FirmwareTimers(c.IssueRetry(now, client).0)
    ensures FirmwareTimers(c.AcceptResponse(response, now, client).0) && FirmwareTimers(c.ExpireIfDue(now, client).0)
    ensures FirmwareTimers(c.Poll(now)) && FirmwareTimers(c.Cancel()) && FirmwareTimers(c.Disconnect(CancelOperation))
  {
    hide Operation.Issue, Client.AcceptResponse, Retry.Delay, RetryAdviceFor;
  }

  lemma CallKeepsTimers(v: Service, call: SI.ServiceCall)
    requires v.Valid() && FirmwareTimers(v.backend.coordinator)
    ensures FirmwareTimers(SI.Call(v, call).backend.coordinator)
  {
    hide FirmwareTimers, Coordinator.Start, Coordinator.IssueRetry, Coordinator.AcceptResponse, Coordinator.ExpireIfDue,
      Coordinator.Poll, Coordinator.Cancel, Coordinator.Disconnect;
    match call {
      case CallPoll(connected, now, sent) => PollKeepsTimers(v, connected, now, sent);
      case CallResponse(line, now) => ResponseKeepsTimers(v, line, now);
      case CallRead(lba, g, now, sent) => BeginKeepsTimers(v, lba, g, None, now, sent);
      case CallWrite(lba, g, data, now, sent) => BeginKeepsTimers(v, lba, g, Some(data), now, sent);
      case CallCopy(lba, g) =>
    }
    hide Service.Poll, Service.HandleResponse, Service.BeginRead, Service.BeginWrite;
  }

  lemma PollKeepsTimers(v: Service, connected: bool, now: U64, sent: bool)
    requires v.Valid() && FirmwareTimers(v.backend.coordinator)
    ensures FirmwareTimers(v.Poll(connected, now, sent).0.backend.coordinator)
  {
    hide FirmwareTimers, Coordinator.IssueRetry, Coordinator.ExpireIfDue, Coordinator.Poll, Coordinator.Disconnect,
      Client.BeginHandshake, Client.BeginRequest;
    var c, client := v.backend.coordinator, v.backend.client;
    CoordinatorKeepsTimers(c, NoOperation, "", now, client);
    var (c1, client1) := c.ExpireIfDue(now, client);
    ExpireIsValid(c, now, client);
    CoordinatorKeepsTimers(c1, NoOperation, "", now, client1);
    PollIsValid(c1, now);
    CoordinatorKeepsTimers(c1.Poll(now), NoOperation, "", now, client1);
  }

  lemma ExpireIsValid(c: Coordinator, now: U64, client: Client)
    requires c.Valid()
    ensures c.ExpireIfDue(now, client).0.Valid()
  {}

  lemma PollIsValid(c: Coordinator, now: U64)
    requires c.Valid()
    ensures c.Poll(now).Valid()
  {}

  lemma ResponseKeepsTimers(v: Service, line: string, now: U64)
    requires v.Valid() && FirmwareTimers(v.backend.coordinator)
    ensures FirmwareTimers(v.HandleResponse(line, now).0.backend.coordinator)
  {
    hide FirmwareTimers, Coordinator.AcceptResponse, Coordinator.Disconnect, Coordinator.Cancel, Client.AcceptResponse,
      DecodeMediaInfo, DecodeReadBlock, Backend.IsErrorLine;
    CoordinatorKeepsTimers(v.backend.coordinator, NoOperation, line, now, v.backend.client);
  }

  lemma BeginKeepsTimers(v: Service, lba: U64, g: U64, write: Option<Block>, now: U64, sent: bool)
    requires v.Valid() && FirmwareTimers(v.backend.coordinator)
    ensures FirmwareTimers(Begin(v, lba, g, write, now, sent).0.backend.coordinator)
  {
    hide FirmwareTimers, Backend.BeginRead, Backend.BeginWrite, Coordinator.Start, Coordinator.Cancel;
    var op := TransferOperation(lba, write);
    var c, client := v.backend.coordinator, v.backend.client;
    BeginIsAtMostStart(v.backend, lba, g, write, now);
    CoordinatorKeepsTimers(c, op, "", now, client);
    StartIsValid(c, op, now, client);
    CoordinatorKeepsTimers(c.Start(op, now, client).0, op, "", now, client);
  }

  lemma BeginIsAtMostStart(b: Backend, lba: U64, g: U64, write: Option<Block>, now: U64)
    ensures var b' := if write.Some? then b.BeginWrite(lba, g, write.value, now).0 else b.BeginRead(lba, g, now).0;
            b'.coordinator == b.coordinator || b'.coordinator == b.coordinator.Start(TransferOperation(lba, write), now, b.client).0
  {
    hide P.Pool.Reserve, P.Pool.FirstReady, P.Pool.InvalidateReady, Coordinator.Start, P.Pool.Release;
  }

  lemma StartIsValid(c: Coordinator, op: Operation, now: U64, client: Client)
    requires c.Valid()
    ensures c.Start(op, now, client).0.Valid()
  {
    hide Operation.Issue;
  }

  lemma {:induction false} RunKeepsTimers(v: Service, calls: seq<SI.ServiceCall>)
    requires SI.ServiceInv(v) && FirmwareTimers(v.backend.coordinator)
    ensures FirmwareTimers(SI.Run(v, calls).backend.coordinator)
    decreases calls
  {
    hide SI.ServiceInv, SI.Call, FirmwareTimers;
    if calls != [] {
      SI.ServiceIsValid(v);
      SI.CallInv(v, calls[0]);
      CallKeepsTimers(v, calls[0]);
      RunKeepsTimers(SI.Make(v, calls[0]), calls[1..]);
    }
  }

  /** Three timeouts of 250 ms and delays of 10 and 20 ms. */
  const LONGEST_TRANSFER_US := 780_000

  lemma FirmwareEnd(plan: Plan, c: Coordinator)
    requires FirmwareTimers(c) && c.Valid() && plan.retry == c.retry && plan.timeout == c.timeout
    ensures EndOf(plan, MAXIMUM_RETRIES + 1, MAXIMUM_RETRIES) == plan.start + LONGEST_TRANSFER_US
  {
    assert Power2(0) == 1 && Power2(1) == 2;
    assert DelaySum(plan.retry, 0) == 0 && DelaySum(plan.retry, 1) == DelaySum(plan.retry, 0) + plan.retry.Delay(0);
  }

  /** What is left of a transfer after some moments: its lines, and what its coordinator is doing. */
  ghost predicate Bounded(op: Operation, session: string, q: Trace) {
    |q.lines| <= MAXIMUM_RETRIES + 1 && Repeats(op, session, q.lines)
    && (InProgress(q.service.backend.coordinator.state) ==> Transferring(q.service))
  }

  /**
   * After any run of the service, a transfer that was begun and sent issues at most three request
   * lines, all for the same operation in the same session. The service follows it as long as it is
   * in progress, and after 780 000 ticks of the clock it is not, whatever lines arrive and whatever
   * the SD side asks for meanwhile.
   */
  lemma EveryTransferIsBounded(
    calls: seq<SI.ServiceCall>, lba: U64, g: U64, write: Option<Block>, now: U64, sent: bool, moments: seq<Moment>)
    ensures var v := SI.Run(NewService(), calls);
            var (v', ok, effect) := Begin(v, lba, g, write, now, sent);
            ok && effect.line != "" ==>
              v'.Valid() && Transferring(v') &&
              var q := Passes(Trace(v', [effect.line], now), moments);
              && Bounded(TransferOperation(lba, write), v.backend.client.sessionId, q)
              && (LONGEST_TRANSFER_US <= Ticks(moments) < MAX_U64 - now ==> !InProgress(q.service.backend.coordinator.state))
  {
    var v := SI.Run(NewService(), calls);
    SI.NewServiceInv();
    SI.RunInv(NewService(), calls);
    NewTimers();
    RunKeepsTimers(NewService(), calls);
    BegunIsBounded(v, lba, g, write, now, sent, moments);
    hide *;
  }

  lemma BegunIsBounded(v: Service, lba: U64, g: U64, write: Option<Block>, now: U64, sent: bool, moments: seq<Moment>)
    requires SI.ServiceInv(v) && FirmwareTimers(v.backend.coordinator)
    ensures var (v', ok, effect) := Begin(v, lba, g, write, now, sent);
            ok && effect.line != "" ==>
              v'.Valid() && Transferring(v') &&
              var q := Passes(Trace(v', [effect.line], now), moments);
              && Bounded(TransferOperation(lba, write), v.backend.client.sessionId, q)
              && (LONGEST_TRANSFER_US <= Ticks(moments) < MAX_U64 - now ==> !InProgress(q.service.backend.coordinator.state))
              && SI.ServiceInv(q.service)
  {
    hide SI.ServiceInv, Passes, Followed, Repeats, FirmwareTimers, Service.BeginRead, Service.BeginWrite, Ticks, Transferring;
    var (v', ok, effect) := Begin(v, lba, g, write, now, sent);
    if ok && effect.line != "" {
      var plan, t := PlanOf(v, lba, write, now), Trace(v', [effect.line], now);
      CoordinatorOf(v);
      BegunIsFollowed(v, lba, g, write, now, sent);
      BegunOnSchedule(v, lba, g, write, now, sent);
      FollowedIsTimed(plan, t);
      PassesFollow(plan, t, moments);
      ScheduleEnds(plan, Passes(t, moments), v.backend.coordinator);
      FollowedInv(plan, Passes(t, moments));
    }
  }

  function PlanOf(v: Service, lba: U64, write: Option<Block>, now: U64): Plan {
    Plan(TransferOperation(lba, write), v.backend.client.sessionId, v.backend.coordinator.retry, v.backend.coordinator.timeout, now)
  }

  lemma BegunOnSchedule(v: Service, lba: U64, g: U64, write: Option<Block>, now: U64, sent: bool)
    requires SI.ServiceInv(v)
    ensures var (v', ok, effect) := Begin(v, lba, g, write, now, sent);
            ok && effect.line != "" ==> Followed(PlanOf(v, lba, write, now), Trace(v', [effect.line], now))
  {
    hide SI.ServiceInv, OnSchedule, Backend.BeginRead, Backend.BeginWrite, Coordinator.Start;
    BeginIsStart(v.backend, lba, g, write, now);
    CoordinatorOf(v);
    StartOnSchedule(v.backend.coordinator, TransferOperation(lba, write), now, v.backend.client);
    BegunIsFollowed(v, lba, g, write, now, sent);
  }

  lemma FollowedInv(plan: Plan, t: Trace)
    requires Followed(plan, t)
    ensures SI.ServiceInv(t.service)
  {}

  lemma ScheduleEnds(plan: Plan, q: Trace, c: Coordinator)
    requires Followed(plan, q) && FirmwareTimers(c) && c.Valid() && plan.retry == c.retry && plan.timeout == c.timeout
    ensures Bounded(plan.op, plan.session, q)
    ensures plan.start + LONGEST_TRANSFER_US <= q.now < MAX_U64 ==> !InProgress(q.service.backend.coordinator.state)
  {
    hide Repeats, SI.ServiceInv;
    var view := View(q.service, q.lines, q.now);
    OperationIsBounded(plan, view, []);
    assert Run(view, []) == view;
    FirmwareEnd(plan, c);
    hide EndOf, DelaySum;
  }
}
