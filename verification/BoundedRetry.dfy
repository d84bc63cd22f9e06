/**
 * How long one operation can stay active, and how many requests it can issue, when the service
 * polls the coordinator at every tick of the clock.
 */
module BoundedRetry {
  import opened Basics
  import opened SessionClient
  import opened SessionFacts
  import opened RetryControl
  import opened OperationCoordinator

  /** The states in which the operation is in progress on its own. */
  predicate InProgress(state: OperationState) { state in {AwaitingResponse, WaitingRetry, RetryReady} }

  /** The sum of the first k delays. */
  function DelaySum(r: Retry, k: nat): nat
    requires r.Valid()
  {
    if k == 0 then 0 else DelaySum(r, k - 1) + r.Delay(k - 1)
  }

  lemma {:induction false} DelaySumMonotone(r: Retry, j: nat, k: nat)
    requires r.Valid() && j <= k
    ensures DelaySum(r, j) <= DelaySum(r, k)
  {
    if j < k {
      DelaySumMonotone(r, j, k - 1);
    }
  }

  /** An operation in progress: its coordinator, its client, the lines it issued and the clock. */
  datatype Progress = Progress(c: Coordinator, client: Client, lines: seq<string>, now: int)

  datatype Event =
    | Tick                       // the clock advances by one tick and the service polls
    | Arrives(response: string)  // a response line, at the current tick

  function Reissued(p: Progress, c: Coordinator, client: Client, request: Request): Progress {
    Progress(c, client, if request.error == NoError then p.lines + [request.line] else p.lines, p.now)
  }

  /** One poll of the service: expire_if_due, then poll, then issue_retry when it is due. */
  function PollAt(p: Progress, now: U64): Progress
    requires p.c.Valid()
  {
    var (c1, client1) := p.c.ExpireIfDue(now, p.client);
    PollRest(p, c1, client1, now)
  }

  function PollRest(p: Progress, c1: Coordinator, client1: Client, now: U64): Progress {
    var c2 := if c1.state in {WaitingRetry, RetryReady} then c1.Poll(now) else c1;
    var p2 := Progress(c2, client1, p.lines, now);
    if c2.state != RetryReady then p2
    else
      var (c3, client3, request) := c2.IssueRetry(now, client1);
      Reissued(p2, c3, client3, request)
  }

  function Happen(p: Progress, e: Event): Progress
    requires p.c.Valid()
  {
    match e
    case Tick => if 0 <= p.now < MAX_U64 then PollAt(p, p.now + 1) else p
    case Arrives(response) =>
      if !(0 <= p.now <= MAX_U64) then p
      else
        var (c, client) := p.c.AcceptResponse(response, p.now, p.client);
        p.(c := c, client := client)
  }

  // ---- The invariant -------------------------------------------------------

  /** The line of the i-th attempt repeats the operation under some id. */
  ghost predicate Repeats(op: Operation, session: string, lines: seq<string>) {
    forall i :: 0 <= i < |lines| ==> exists id: U64 :: id != 0 && lines[i] == OperationText(op, id, session)
  }

  /** An operation, its session and its configuration: everything the bound depends on. */
  datatype Plan = Plan(op: Operation, session: string, retry: Retry, timeout: nat, start: U64)

  /** When the r-th retry ends at the latest, counting from the start. */
  function EndOf(plan: Plan, attempts: nat, delays: nat): int
    requires plan.retry.Valid()
  {
    plan.start + attempts * plan.timeout + DelaySum(plan.retry, delays)
  }

  predicate Configured(plan: Plan, c: Coordinator) {
    plan.retry.Valid() && c.timeout == plan.timeout
    && c.retry.initialBackoff == plan.retry.initialBackoff
    && c.retry.maximumBackoff == plan.retry.maximumBackoff
    && c.retry.maximumRetries == plan.retry.maximumRetries
  }

  /** The current timer is still running and ends on schedule. */
  predicate Timed(plan: Plan, p: Progress)
    requires plan.retry.Valid()
  {
    var r := p.c.retry.scheduled;
    match p.c.state
    case AwaitingResponse =>
      p.client.RequestPending() && !p.client.pendingHandshake
      && (p.now < p.c.deadline.at || p.now == p.c.deadline.at == MAX_U64) && p.c.deadline.at <= EndOf(plan, r + 1, r)
    case WaitingRetry =>
      r >= 1 && (p.now < p.c.retry.retryAt || p.now == p.c.retry.retryAt == MAX_U64)
      && p.c.retry.retryAt <= EndOf(plan, r, r)
    case RetryReady => false
    case _ => true
  }

  /** With r retries scheduled, the operation has been sent r or r + 1 times and is on time. */
  ghost predicate OnSchedule(plan: Plan, p: Progress) {
    CoordinatorInv(p.c) && Configured(plan, p.c)
    && 0 <= plan.start <= p.now <= MAX_U64
    && p.client.sessionId == plan.session && Repeats(plan.op, plan.session, p.lines)
    && |p.lines| <= plan.retry.maximumRetries + 1
    && Timed(plan, p)
    && (InProgress(p.c.state) ==>
          p.c.operation == plan.op && p.c.retry.scheduled <= plan.retry.maximumRetries
          && |p.lines| == p.c.retry.scheduled + if p.c.state == AwaitingResponse then 1 else 0)
  }

  lemma RepeatsSnoc(op: Operation, session: string, lines: seq<string>, id: U64)
    requires Repeats(op, session, lines) && id != 0
    ensures Repeats(op, session, lines + [OperationText(op, id, session)])
  {
    hide OperationText;
    var all := lines + [OperationText(op, id, session)];
    forall i | 0 <= i < |all| ensures exists id': U64 :: id' != 0 && all[i] == OperationText(op, id', session) {
      if i < |lines| {
        assert all[i] == lines[i];
      }
    }
  }

  // ---- Starting ------------------------------------------------------------

  /** A request that has just gone out with no retry scheduled is on schedule. */
  lemma IssuedOnSchedule(plan: Plan, c: Coordinator, c': Coordinator, client: Client, client': Client, request: Request)
    requires Configured(plan, c') && CoordinatorInv(c') && plan.op == c.operation
    requires IssueResult(c.operation, c, c', client, client', request, Issued)
    requires c'.retry.scheduled == 0 && plan.session == client.sessionId
    requires c'.deadline == Deadline(Min(plan.start + plan.timeout, MAX_U64), true) && plan.timeout > 0
    ensures OnSchedule(plan, Progress(c', client', [request.line], plan.start))
  {
    hide OperationText, Repeats;
    EmptyRepeats(plan.op, plan.session);
    RepeatsSnoc(plan.op, plan.session, [], client.nextId);
    assert [] + [request.line] == [request.line];
    assert DelaySum(plan.retry, 0) == 0;
  }

  lemma EmptyRepeats(op: Operation, session: string)
    ensures Repeats(op, session, [])
  {}

  lemma IssueArms(c: Coordinator, now: U64, client: Client)
    requires c.Valid() && !c.operation.NoOperation? && !c.deadline.armed && !c.retry.waiting
    ensures var (c', client', request) := c.Issue(now, client);
            request.error == NoError ==>
              c'.deadline == Deadline(Min(now + c.timeout, MAX_U64), true) && c.timeout > 0 && c'.retry == c.retry
              && c'.timeout == c.timeout
  {
    OperationIssueFacts(c.operation, client);
    hide Operation.Issue;
  }

  /** start() puts the operation on schedule. */
  lemma StartOnSchedule(c: Coordinator, op: Operation, now: U64, client: Client)
    requires CoordinatorInv(c) && !op.NoOperation?
    ensures var (c', client', request) := c.Start(op, now, client);
            request.error == NoError ==>
              OnSchedule(Plan(op, client.sessionId, c.retry, c.timeout, now), Progress(c', client', [request.line], now))
  {
    var ready := c.(operation := op, retry := c.retry.RecordSuccess());
    if c.state == Idle {
      IssueFacts(ready, now, client);
      IssueArms(ready, now, client);
      var (c', client', request) := ready.Issue(now, client);
      if request.error == NoError {
        IssuedOnSchedule(Plan(op, client.sessionId, c.retry, c.timeout, now), ready, c', client, client', request);
      }
    }
    hide Coordinator.Issue, OperationText;
  }

  /** So does resuming a parked operation, with a full retry budget again. */
  lemma ResumeOnSchedule(c: Coordinator, from: OperationState, now: U64, client: Client)
    requires CoordinatorInv(c) && from in {RenegotiatePending, MediaUnavailablePending}
    ensures var (c', client', request) := c.Resume(from, now, client);
            request.error == NoError ==>
              OnSchedule(Plan(c.operation, client.sessionId, c.retry, c.timeout, now), Progress(c', client', [request.line], now))
  {
    var ready := c.(retry := c.retry.RecordSuccess());
    if c.state == from && client.negotiated {
      IssueFacts(ready, now, client);
      IssueArms(ready, now, client);
      var (c', client', request) := ready.Issue(now, client);
      if request.error == NoError {
        IssuedOnSchedule(Plan(c.operation, client.sessionId, c.retry, c.timeout, now), ready, c', client, client', request);
      }
    }
    hide Coordinator.Issue, OperationText;
  }

  // ---- Failures and retries ------------------------------------------------

  /** What a failed attempt leaves: a later retry on schedule, or an operation no longer in progress. */
  lemma RouteOnSchedule(plan: Plan, c: Coordinator, advice: RetryAdvice, now: U64)
    requires Configured(plan, c) && c.retry.scheduled <= plan.retry.maximumRetries
    requires !c.deadline.armed && c.operation == plan.op && !plan.op.NoOperation?
    requires now <= EndOf(plan, c.retry.scheduled + 1, c.retry.scheduled)
    ensures var c' := c.RouteFailure(advice, now);
            Configured(plan, c') && c'.retry.scheduled <= plan.retry.maximumRetries
            && (c'.state == WaitingRetry ==>
                  c'.retry.scheduled == c.retry.scheduled + 1 && c'.operation == plan.op
                  && (now < c'.retry.retryAt || now == c'.retry.retryAt == MAX_U64)
                  && c'.retry.retryAt <= EndOf(plan, c'.retry.scheduled, c'.retry.scheduled))
            && c'.state !in {Idle, AwaitingResponse, RetryReady}
  {
    var r := c.retry.scheduled;
    assert DelaySum(plan.retry, r + 1) == DelaySum(plan.retry, r) + plan.retry.Delay(r);
    hide DelaySum, Power2;
  }

  lemma ArrivesOnSchedule(plan: Plan, p: Progress, response: string)
    requires OnSchedule(plan, p)
    ensures OnSchedule(plan, Happen(p, Arrives(response)))
  {
    hide Client.AcceptResponse, Coordinator.RouteFailure, OperationText, EndOf;
    CoordinatorAcceptFacts(p.c, response, p.now, p.client);
    var (client', result) := p.client.AcceptResponse(response);
    if p.c.state == AwaitingResponse && result == RemoteError {
      RouteOnSchedule(plan, p.c.(deadline := DISARMED), RetryAdviceFor(client'.remoteError), p.now);
    }
  }

  /** The three calls of one poll, each on schedule. */
  lemma ExpireOnSchedule(plan: Plan, p: Progress)
    requires OnSchedule(plan, p) && p.now < MAX_U64
    ensures var now := p.now + 1;
            var (c, client) := p.c.ExpireIfDue(now, p.client);
            CoordinatorInv(c) && Configured(plan, c) && client.sessionId == p.client.sessionId
            && c.state != RetryReady
            && (c.state == AwaitingResponse ==> c == p.c && client == p.client && now < c.deadline.at)
            && (InProgress(c.state) ==>
                  c.operation == plan.op && c.retry.scheduled <= plan.retry.maximumRetries
                  && |p.lines| == c.retry.scheduled + if c.state == AwaitingResponse then 1 else 0)
            && (c.state == WaitingRetry ==>
                  c.retry.scheduled >= 1 && now <= EndOf(plan, c.retry.scheduled, c.retry.scheduled)
                  && (now <= c.retry.retryAt) && c.retry.retryAt <= EndOf(plan, c.retry.scheduled, c.retry.scheduled))
  {
    CoordinatorExpireFacts(p.c, p.now + 1, p.client);
    if p.c.state == AwaitingResponse && p.now + 1 >= p.c.deadline.at {
      RouteOnSchedule(plan, p.c.(deadline := DISARMED), RetrySameSession, p.now + 1);
    }
    hide Coordinator.RouteFailure, OperationText, EndOf;
  }

  lemma EndOfNext(plan: Plan, r: nat)
    requires plan.retry.Valid()
    ensures EndOf(plan, r + 1, r) == EndOf(plan, r, r) + plan.timeout
  {
    assert (r + 1) * plan.timeout == r * plan.timeout + plan.timeout;
  }

  lemma ReissueOnSchedule(plan: Plan, c: Coordinator, client: Client, lines: seq<string>, now: U64)
    requires CoordinatorInv(c) && Configured(plan, c) && c.state == RetryReady && plan.start <= now
    requires c.operation == plan.op && c.retry.scheduled <= plan.retry.maximumRetries
    requires |lines| == c.retry.scheduled && client.sessionId == plan.session && Repeats(plan.op, plan.session, lines)
    requires now <= EndOf(plan, c.retry.scheduled, c.retry.scheduled)
    ensures var (c', client', request) := c.IssueRetry(now, client);
            (c'.state == RetryReady && c' == c) || OnSchedule(plan, Reissued(Progress(c, client, lines, now), c', client', request))
  {
    hide Coordinator.Issue, OperationText, EndOf, Repeats;
    var r := c.retry.scheduled;
    EndOfNext(plan, r);
    SessionFacts.IssueRetryFacts(c, now, client);
    var (retry', consumed) := c.retry.ConsumeRetry(now);
    if consumed {
      var ready := c.(retry := retry');
      var request := ready.Issue(now, client).2;
      IssueFacts(ready, now, client);
      IssueArms(ready, now, client);
      if request.error == NoError {
        RepeatsSnoc(plan.op, plan.session, lines, client.nextId);
      }
    }
  }

  lemma RestOnSchedule(plan: Plan, p: Progress, c: Coordinator, client: Client)
    requires OnSchedule(plan, p) && p.now < MAX_U64
    requires (c, client) == p.c.ExpireIfDue(p.now + 1, p.client)
    ensures OnSchedule(plan, PollRest(p, c, client, p.now + 1))
  {
    var now := p.now + 1;
    ExpireOnSchedule(plan, p);
    hide Coordinator.ExpireIfDue, Coordinator.IssueRetry, OperationText, EndOf, Repeats;
    if c.state == WaitingRetry && c.retry.Poll(now) == Ready {
      ReissueOnSchedule(plan, c.Poll(now), client, p.lines, now);
      hide Timed;
    }
  }

  lemma TickOnSchedule(plan: Plan, p: Progress)
    requires OnSchedule(plan, p)
    ensures OnSchedule(plan, Happen(p, Tick))
  {
    hide Coordinator.ExpireIfDue, PollRest;
    if p.now < MAX_U64 {
      var (c, client) := p.c.ExpireIfDue(p.now + 1, p.client);
      RestOnSchedule(plan, p, c, client);
    }
  }

  // ---- Runs ----------------------------------------------------------------

  function Run(p: Progress, events: seq<Event>): Progress
    requires p.c.Valid()
    decreases events
  {
    if events == [] then p
    else
      var next := Happen(p, events[0]);
      if next.c.Valid() then Run(next, events[1..]) else next
  }

  lemma {:induction false} RunOnSchedule(plan: Plan, p: Progress, events: seq<Event>)
    requires OnSchedule(plan, p)
    ensures OnSchedule(plan, Run(p, events))
    decreases events
  {
    if events != [] {
      match events[0] {
        case Tick => TickOnSchedule(plan, p);
        case Arrives(response) => ArrivesOnSchedule(plan, p, response);
      }
      RunOnSchedule(plan, Happen(p, events[0]), events[1..]);
    }
    hide Happen;
  }

  /**
   * Whatever responses arrive: at most maximum_retries + 1 requests are issued, all of them the
   * same operation, and once the clock has passed every timeout and every delay the operation is
   * no longer in progress.
   */
  lemma OperationIsBounded(plan: Plan, p: Progress, events: seq<Event>)
    requires OnSchedule(plan, p)
    ensures var q := Run(p, events);
            |q.lines| <= plan.retry.maximumRetries + 1
            && Repeats(plan.op, plan.session, q.lines)
            && (EndOf(plan, plan.retry.maximumRetries + 1, plan.retry.maximumRetries) <= q.now < MAX_U64
                ==> !InProgress(q.c.state))
  {
    hide Run, OperationText, DelaySum, EndOf, Repeats, CoordinatorInv;
    RunOnSchedule(plan, p, events);
    var q := Run(p, events);
    if InProgress(q.c.state) {
      EndOfMonotone(plan, q.c.retry.scheduled, plan.retry.maximumRetries);
    }
  }

  /**
   * The same for an operation that start() has just issued: its requests, counting the first, and
   * the time it can stay in progress are bounded, whatever responses arrive.
   */
  lemma StartedIsBounded(c: Coordinator, op: Operation, now: U64, client: Client, events: seq<Event>)
    requires CoordinatorInv(c) && !op.NoOperation? && c.Start(op, now, client).2.error == NoError
    ensures var (c', client', request) := c.Start(op, now, client);
            var q := Run(Progress(c', client', [request.line], now), events);
            |q.lines| <= c.retry.maximumRetries + 1
            && Repeats(op, client.sessionId, q.lines)
            && (now + (c.retry.maximumRetries + 1) * c.timeout + DelaySum(c.retry, c.retry.maximumRetries) <= q.now < MAX_U64
                ==> !InProgress(q.c.state))
  {
    hide Run, DelaySum, Repeats, Coordinator.Start;
    var (c', client', request) := c.Start(op, now, client);
    StartOnSchedule(c, op, now, client);
    OperationIsBounded(Plan(op, client.sessionId, c.retry, c.timeout, now), Progress(c', client', [request.line], now), events);
  }

  /** And for a parked operation that a resume has issued again. */
  lemma ResumedIsBounded(c: Coordinator, from: OperationState, now: U64, client: Client, events: seq<Event>)
    requires CoordinatorInv(c) && from in {RenegotiatePending, MediaUnavailablePending}
    requires c.Resume(from, now, client).2.error == NoError
    ensures var (c', client', request) := c.Resume(from, now, client);
            var q := Run(Progress(c', client', [request.line], now), events);
            |q.lines| <= c.retry.maximumRetries + 1
            && Repeats(c.operation, client.sessionId, q.lines)
            && (now + (c.retry.maximumRetries + 1) * c.timeout + DelaySum(c.retry, c.retry.maximumRetries) <= q.now < MAX_U64
                ==> !InProgress(q.c.state))
  {
    hide Run, DelaySum, Repeats, Coordinator.Resume;
    var (c', client', request) := c.Resume(from, now, client);
    ResumeOnSchedule(c, from, now, client);
    OperationIsBounded(Plan(c.operation, client.sessionId, c.retry, c.timeout, now),
                       Progress(c', client', [request.line], now), events);
  }

  lemma EndOfMonotone(plan: Plan, r: nat, most: nat)
    requires plan.retry.Valid() && r <= most
    ensures EndOf(plan, r, r) <= EndOf(plan, r + 1, r) <= EndOf(plan, most + 1, most)
  {
    DelaySumMonotone(plan.retry, r, most);
    assert r * plan.timeout + plan.timeout == (r + 1) * plan.timeout;
    assert (most - r) * plan.timeout >= 0;
    assert (most + 1) * plan.timeout == (r + 1) * plan.timeout + (most - r) * plan.timeout;
  }
}
