/**
 * When the retries of an operation go out: the k-th delay is min(initial * 2^k, maximum), counted from
 * the failure it follows, neither shortened nor prolonged while the service polls at every tick.
 */
module RetryTiming {
  import opened Basics
  import opened SessionClient
  import opened SessionFacts
  import opened RetryControl
  import opened OperationCoordinator
  import opened Wire
  import opened WireReplies
  import opened BoundedRetry

  /** The delay before the retry with this index. */
  function DelayOf(r: Retry, k: nat): int { Min(r.initialBackoff * Power2(k), r.maximumBackoff) }

  lemma DelayIsPositive(r: Retry, k: nat)
    requires r.Valid()
    ensures DelayOf(r, k) >= 1
  {
    ProductAtLeast(r.initialBackoff, Power2(k));
  }

  /** An operation with the ticks at which its requests went out and at which they failed. */
  datatype Timeline = Timeline(p: Progress, sentAt: seq<int>, failedAt: seq<int>)

  function Observe(t: Timeline, e: Event): Timeline
    requires t.p.c.Valid()
  {
    var q := Happen(t.p, e);
    Timeline(q,
             if |q.lines| > |t.p.lines| then t.sentAt + [q.now] else t.sentAt,
             if t.p.c.state == AwaitingResponse && q.c.state == WaitingRetry then t.failedAt + [q.now] else t.failedAt)
  }

  function ObserveAll(t: Timeline, events: seq<Event>): Timeline
    requires t.p.c.Valid()
    decreases events
  {
    if events == [] then t
    else
      var next := Observe(t, events[0]);
      if next.p.c.Valid() then ObserveAll(next, events[1..]) else next
  }

  /** The timeline is about the run: it only watches. */
  lemma {:induction false} ObserveIsRun(t: Timeline, events: seq<Event>)
    requires t.p.c.Valid()
    ensures ObserveAll(t, events).p == Run(t.p, events)
    decreases events
  {
    hide Happen;
    if events != [] {
      var next := Observe(t, events[0]);
      if next.p.c.Valid() {
        ObserveIsRun(next, events[1..]);
      }
    }
  }

  // ---- The invariant -----------------------------------------------------------------

  /** Each retry went out exactly one delay after the failure before it. */
  predicate Spaced(r: Retry, sentAt: seq<int>, failedAt: seq<int>) {
    forall k :: 0 <= k < |failedAt| && k + 1 < |sentAt| ==> sentAt[k + 1] == failedAt[k] + DelayOf(r, k)
  }

  /** The running timer belongs to the last request or the last failure. */
  predicate Current(plan: Plan, t: Timeline) {
    var c := t.p.c;
    |t.sentAt| == |t.p.lines| && |t.sentAt| <= |t.failedAt| + 1 && (forall s <- t.sentAt :: s <= t.p.now)
    && (c.state == AwaitingResponse ==>
          |t.sentAt| == |t.failedAt| + 1 && |t.failedAt| == c.retry.scheduled
          && c.deadline.at == Min(t.sentAt[|t.sentAt| - 1] + plan.timeout, MAX_U64))
    && (c.state == WaitingRetry ==>
          |t.sentAt| == |t.failedAt| == c.retry.scheduled >= 1
          && c.retry.retryAt == Min(t.failedAt[|t.failedAt| - 1] + DelayOf(plan.retry, |t.failedAt| - 1), MAX_U64))
  }

  ghost predicate OnTime(plan: Plan, t: Timeline) {
    OnSchedule(plan, t.p) && Spaced(plan.retry, t.sentAt, t.failedAt) && Current(plan, t)
  }

  // ---- One failure, one reissue ------------------------------------------------------

  /** A failure routed with a retry left waits for its own delay. */
  lemma RouteWaits(plan: Plan, c: Coordinator, advice: RetryAdvice, now: U64)
    requires c.Valid() && Configured(plan, c)
    ensures var c' := c.RouteFailure(advice, now);
            && c'.state in {WaitingRetry, RenegotiatePending, MediaUnavailablePending, OperationFailed}
            && (c'.state == WaitingRetry ==>
                  c'.retry.scheduled == c.retry.scheduled + 1
                  && c'.retry.retryAt == Min(now + DelayOf(plan.retry, c.retry.scheduled), MAX_U64))
  {
    hide Power2;
  }

  /** What one poll does, seen from outside: nothing, a failure, or a reissue of a due retry. */
  lemma TickCases(plan: Plan, p: Progress)
    requires OnSchedule(plan, p) && p.now + 1 < MAX_U64
    ensures var q := Happen(p, Tick);
            && q.now == p.now + 1
            && (p.c.state == AwaitingResponse && q.now < p.c.deadline.at ==> q == p.(now := q.now))
            && (p.c.state == AwaitingResponse && p.c.deadline.at <= q.now ==>
                  q.lines == p.lines && q.c.state in {WaitingRetry, OperationFailed} && q.client == p.client.Settle()
                  && (q.c.state == WaitingRetry <==> p.c.retry.scheduled < plan.retry.maximumRetries)
                  && (q.c.state == WaitingRetry ==>
                        q.c.retry.scheduled == p.c.retry.scheduled + 1
                        && q.c.retry.retryAt == Min(q.now + DelayOf(plan.retry, p.c.retry.scheduled), MAX_U64)))
            && (p.c.state == WaitingRetry && q.now < p.c.retry.retryAt ==> q == p.(now := q.now))
            && (p.c.state == WaitingRetry && p.c.retry.retryAt <= q.now ==>
                  if q.c.state == AwaitingResponse then
                    |q.lines| == |p.lines| + 1 && q.c.retry.scheduled == p.c.retry.scheduled
                    && q.c.deadline.at == Min(q.now + plan.timeout, MAX_U64) && q.client == p.client.Reserve(false)
                  else q.lines == p.lines && q.c.state == OperationFailed)
            && (p.c.state !in {AwaitingResponse, WaitingRetry} ==> q == p.(now := q.now))
  {
    hide Operation.Issue, OperationText, EndOf, Repeats, Power2, Coordinator.Issue, Coordinator.RouteFailure;
    var c, now := p.c, p.now + 1;
    RouteWaits(plan, c.(deadline := DISARMED), RetrySameSession, now);
    RouteCounts(plan, c.(deadline := DISARMED), now);
    DelayIsPositive(plan.retry, c.retry.scheduled);
    if c.state == WaitingRetry && c.retry.retryAt <= now {
      var ready := c.(state := RetryReady, retry := c.retry.ConsumeRetry(now).0);
      IssueFacts(ready, now, p.client);
      IssueArms(ready, now, p.client);
    }
  }

  lemma RouteCounts(plan: Plan, c: Coordinator, now: U64)
    requires c.Valid() && Configured(plan, c)
    ensures var c' := c.RouteFailure(RetrySameSession, now);
            if c.retry.scheduled < plan.retry.maximumRetries then c'.state == WaitingRetry else c'.state == OperationFailed
  {}

  lemma TickOnTime(plan: Plan, t: Timeline)
    requires OnTime(plan, t) && t.p.now + 1 < MAX_U64
    ensures OnTime(plan, Observe(t, Tick))
  {
    hide Happen, CoordinatorInv, Repeats, EndOf, Power2, Timed, DelayOf;
    TickOnSchedule(plan, t.p);
    TickCases(plan, t.p);
    TimerRuns(plan, t.p);
    DelayIsPositive(plan.retry, t.p.c.retry.scheduled);
  }

  /** A timer of an operation on schedule has not run out yet. */
  lemma TimerRuns(plan: Plan, p: Progress)
    requires OnSchedule(plan, p) && p.now < MAX_U64
    ensures p.c.state == AwaitingResponse ==> p.now < p.c.deadline.at
    ensures p.c.state == WaitingRetry ==> p.now < p.c.retry.retryAt
    ensures p.c.state != RetryReady && (p.c.state == AwaitingResponse ==> p.c.retry.scheduled <= plan.retry.maximumRetries)
  {}

  lemma ArrivesOnTime(plan: Plan, t: Timeline, response: string)
    requires OnTime(plan, t) && t.p.now < MAX_U64
    ensures OnTime(plan, Observe(t, Arrives(response)))
  {
    hide Client.AcceptResponse, Coordinator.RouteFailure, OperationText, EndOf, Repeats, Power2, DelayOf;
    ArrivesOnSchedule(plan, t.p, response);
    CoordinatorAcceptFacts(t.p.c, response, t.p.now, t.p.client);
    var (client', result) := t.p.client.AcceptResponse(response);
    if t.p.c.state == AwaitingResponse {
      RouteWaits(plan, t.p.c.(deadline := DISARMED), RetryAdviceFor(client'.remoteError), t.p.now);
    }
  }

  lemma ClockAdvances(plan: Plan, p: Progress, e: Event)
    requires OnSchedule(plan, p)
    ensures Happen(p, e).now >= p.now
  {
    hide Coordinator.AcceptResponse, Coordinator.ExpireIfDue, Coordinator.IssueRetry;
  }

  lemma {:induction false} ClockOnly(plan: Plan, p: Progress, events: seq<Event>)
    requires OnSchedule(plan, p)
    ensures Run(p, events).now >= p.now
    decreases events
  {
    hide Happen, OnSchedule;
    ScheduledIsValid(plan, p);
    if events != [] {
      ClockAdvances(plan, p, events[0]);
      EventOnSchedule(plan, p, events[0]);
      ScheduledIsValid(plan, Happen(p, events[0]));
      ClockOnly(plan, Happen(p, events[0]), events[1..]);
    }
  }

  lemma ScheduledIsValid(plan: Plan, p: Progress)
    requires OnSchedule(plan, p)
    ensures p.c.Valid()
  {}

  lemma EventOnSchedule(plan: Plan, p: Progress, e: Event)
    requires OnSchedule(plan, p)
    ensures OnSchedule(plan, Happen(p, e))
  {
    hide OnSchedule, Happen;
    match e {
      case Tick => TickOnSchedule(plan, p);
      case Arrives(response) => ArrivesOnSchedule(plan, p, response);
    }
  }

  lemma {:induction false} RunOnTime(plan: Plan, t: Timeline, events: seq<Event>)
    requires OnTime(plan, t) && Run(t.p, events).now < MAX_U64
    ensures OnTime(plan, ObserveAll(t, events))
    decreases events
  {
    hide OnSchedule, Happen, Current, Spaced;
    ScheduledIsValid(plan, t.p);
    if events != [] {
      var next := Observe(t, events[0]);
      EventOnSchedule(plan, t.p, events[0]);
      ScheduledIsValid(plan, next.p);
      ClockAdvances(plan, t.p, events[0]);
      ClockOnly(plan, next.p, events[1..]);
      match events[0] {
        case Tick => TickOnTimeOrEnd(plan, t);
        case Arrives(response) => ArrivesOnTime(plan, t, response);
      }
      RunOnTime(plan, next, events[1..]);
    }
  }

  lemma TickOnTimeOrEnd(plan: Plan, t: Timeline)
    requires OnTime(plan, t) && t.p.now < MAX_U64 && Happen(t.p, Tick).now < MAX_U64
    ensures OnTime(plan, Observe(t, Tick))
  {
    hide OnSchedule, Current, Spaced, Coordinator.ExpireIfDue, Coordinator.IssueRetry, PollRest;
    TickMoves(plan, t.p);
    TickOnTime(plan, t);
  }

  lemma TickMoves(plan: Plan, p: Progress)
    requires OnSchedule(plan, p) && p.now < MAX_U64
    ensures Happen(p, Tick).now == p.now + 1
  {
    hide Coordinator.ExpireIfDue, Coordinator.IssueRetry;
  }

  /** The timeline of an operation that start() has just issued. */
  function Started(c: Coordinator, op: Operation, now: U64, client: Client): (t: Timeline)
    requires c.Valid()
    ensures t.p.c.Valid()
  {
    var (c', client', request) := c.Start(op, now, client);
    StartKeepsConfiguration(c, op, now, client);
    Timeline(Progress(c', client', [request.line], now), [now], [])
  }

  lemma StartKeepsConfiguration(c: Coordinator, op: Operation, now: U64, client: Client)
    requires c.Valid()
    ensures c.Start(op, now, client).0.Valid()
  {
    hide Operation.Issue;
  }

  lemma StartOnTime(c: Coordinator, op: Operation, now: U64, client: Client)
    requires CoordinatorInv(c) && !op.NoOperation? && c.Start(op, now, client).2.error == NoError
    ensures OnTime(Plan(op, client.sessionId, c.retry, c.timeout, now), Started(c, op, now, client))
    ensures var (c', client', _) := c.Start(op, now, client);
            c'.state == AwaitingResponse && c'.retry.scheduled == 0 && c'.timeout == c.timeout > 0
            && Reserved(client) && client.negotiated && client' == client.Reserve(false)
  {
    hide OnSchedule, Operation.Issue, OperationText;
    StartOnSchedule(c, op, now, client);
    var ready := c.(operation := op, retry := c.retry.RecordSuccess());
    OperationIssueFacts(op, client);
    IssueFacts(ready, now, client);
    IssueArms(ready, now, client);
  }

  /**
   * No retry goes out early, and none late: whatever arrives, the request after the k-th failure is
   * sent exactly min(initial * 2^k, maximum) ticks after it. The requests of the timeline are those of
   * the run.
   */
  lemma RetriesAreSpaced(c: Coordinator, op: Operation, now: U64, client: Client, events: seq<Event>)
    requires CoordinatorInv(c) && !op.NoOperation? && c.Start(op, now, client).2.error == NoError
    requires Run(Started(c, op, now, client).p, events).now < MAX_U64
    ensures var t := ObserveAll(Started(c, op, now, client), events);
            && t.p == Run(Started(c, op, now, client).p, events)
            && |t.sentAt| == |t.p.lines| <= |t.failedAt| + 1
            && forall k :: 0 <= k < |t.failedAt| && k + 1 < |t.sentAt| ==>
                 t.sentAt[k + 1] == t.failedAt[k] + Min(c.retry.initialBackoff * Power2(k), c.retry.maximumBackoff)
  {
    hide Started, ObserveAll, OnSchedule, Run, Coordinator.Start;
    StartOnTime(c, op, now, client);
    ObserveIsRun(Started(c, op, now, client), events);
    RunOnTime(Plan(op, client.sessionId, c.retry, c.timeout, now), Started(c, op, now, client), events);
  }

  // ---- A silent host -----------------------------------------------------------------

  /** min(initial * 2^0, maximum) + ... + min(initial * 2^(k-1), maximum). */
  function Delays(r: Retry, k: nat): int {
    if k == 0 then 0 else Delays(r, k - 1) + Min(r.initialBackoff * Power2(k - 1), r.maximumBackoff)
  }

  /** When the k-th request goes out if nothing answers: k timeouts and the first k delays after the start. */
  function AttemptAt(plan: Plan, k: nat): int { plan.start + k * plan.timeout + Delays(plan.retry, k) }

  lemma NextAttempt(plan: Plan, k: nat)
    ensures AttemptAt(plan, k + 1) == AttemptAt(plan, k) + plan.timeout + DelayOf(plan.retry, k)
  {
    assert (k + 1) * plan.timeout == k * plan.timeout + plan.timeout;
  }

  lemma {:induction false} AttemptsIncrease(plan: Plan, j: nat, k: nat)
    requires plan.retry.Valid() && j < k
    ensures AttemptAt(plan, j) + plan.timeout < AttemptAt(plan, k)
  {
    NextAttempt(plan, k - 1);
    DelayIsPositive(plan.retry, k - 1);
    if j < k - 1 {
      AttemptsIncrease(plan, j, k - 1);
    }
    hide AttemptAt;
  }

  /** Requests and failures at exactly the ticks of a silent host, and the running timer among them. */
  ghost predicate Silent(plan: Plan, t: Timeline) {
    OnTime(plan, t)
    && (forall k :: 0 <= k < |t.sentAt| ==> t.sentAt[k] == AttemptAt(plan, k))
    && (forall k :: 0 <= k < |t.failedAt| ==> t.failedAt[k] == AttemptAt(plan, k) + plan.timeout)
  }

  lemma SilentTick(plan: Plan, t: Timeline)
    requires Silent(plan, t) && t.p.now + 1 < MAX_U64
    ensures Silent(plan, Observe(t, Tick))
  {
    hide OnSchedule, Happen, AttemptAt, DelayOf, Spaced;
    TickOnTime(plan, t);
    TickCases(plan, t.p);
    TimerRuns(plan, t.p);
    if t.failedAt != [] {
      NextAttempt(plan, |t.failedAt| - 1);
    }
  }

  function Quiet(n: nat): (events: seq<Event>) { if n == 0 then [] else [Tick] + Quiet(n - 1) }

  lemma {:induction false} SilentRun(plan: Plan, t: Timeline, n: nat)
    requires Silent(plan, t) && t.p.now + n < MAX_U64
    ensures t.p.c.Valid() && Silent(plan, ObserveAll(t, Quiet(n))) && ObserveAll(t, Quiet(n)).p.now == t.p.now + n
    decreases n
  {
    hide OnSchedule, Happen, Spaced, Current, AttemptAt;
    ScheduledIsValid(plan, t.p);
    if n > 0 {
      SilentTick(plan, t);
      TickMoves(plan, t.p);
      ScheduledIsValid(plan, Observe(t, Tick).p);
      SilentRun(plan, Observe(t, Tick), n - 1);
      assert Quiet(n)[1..] == Quiet(n - 1);
    }
  }

  // ---- Every retry of a silent host goes out -----------------------------------------

  /** How many requests the client can still number. */
  function IdsLeft(c: Client): nat { if c.nextId == 0 then 0 else MAX_U64 - c.nextId + 1 }

  /** A block operation in a named session. */
  predicate Sendable(plan: Plan, c: Client) {
    (plan.op.ReadBlock? || plan.op.WriteBlock?) && c.negotiated && Token(c.sessionId) && c.sessionId == plan.session
  }

  /** The attempts are not used up, and the client can number the rest of them. */
  ghost predicate Going(plan: Plan, t: Timeline) {
    var c, client := t.p.c, t.p.client;
    Silent(plan, t) && plan.timeout > 0 && c.timeout == plan.timeout && Sendable(plan, client)
    && (c.state == AwaitingResponse
        || (c.state == WaitingRetry && !client.RequestPending() && IdsLeft(client) > 0)
        || (c.state == OperationFailed && |t.sentAt| == plan.retry.maximumRetries + 1))
    && (c.state in {AwaitingResponse, WaitingRetry} ==> IdsLeft(client) + |t.sentAt| >= plan.retry.maximumRetries + 1)
  }

  /** A due retry of a block operation is issued. */
  lemma DueRetryIssues(plan: Plan, p: Progress)
    requires OnSchedule(plan, p) && p.now + 1 < MAX_U64 && p.c.state == WaitingRetry && p.c.retry.retryAt <= p.now + 1
    requires Sendable(plan, p.client) && Reserved(p.client) && p.c.timeout > 0
    ensures Happen(p, Tick).c.state == AwaitingResponse
  {
    hide MessageText, Client.BeginRequest, Token, ReadFieldsText, WriteFieldsText, EndOf, Repeats;
    var op, c := plan.op, p.client;
    BeginIsMessage(c, if op.ReadBlock? then Message.Read(c.nextId, c.sessionId, op.lba)
                      else Message.Write(c.nextId, c.sessionId, op.lba, op.data));
  }

  lemma GoingTick(plan: Plan, t: Timeline)
    requires Going(plan, t) && t.p.now + 1 < MAX_U64
    ensures Going(plan, Observe(t, Tick))
  {
    hide OnSchedule, Happen, AttemptAt, DelayOf, Token, Spaced;
    GoingIsValid(plan, t);
    SilentTick(plan, t);
    TickCases(plan, t.p);
    TimerRuns(plan, t.p);
    PollKeepsTimeout(t.p);
    if t.p.c.state == WaitingRetry && t.p.c.retry.retryAt <= t.p.now + 1 {
      DueRetryIssues(plan, t.p);
    }
  }

  lemma PollKeepsTimeout(p: Progress)
    requires p.c.Valid()
    ensures Happen(p, Tick).c.timeout == p.c.timeout
  {
    hide Operation.Issue, Coordinator.RouteFailure;
    forall c: Coordinator, advice: RetryAdvice, now: U64 | c.Valid() ensures c.RouteFailure(advice, now).timeout == c.timeout {
      RouteKeepsTimeout(c, advice, now);
    }
  }

  lemma RouteKeepsTimeout(c: Coordinator, advice: RetryAdvice, now: U64)
    requires c.Valid()
    ensures c.RouteFailure(advice, now).timeout == c.timeout
  {}

  lemma {:induction false} GoingRun(plan: Plan, t: Timeline, n: nat)
    requires Going(plan, t) && t.p.now + n < MAX_U64
    ensures t.p.c.Valid() && Going(plan, ObserveAll(t, Quiet(n)))
    decreases n
  {
    hide OnSchedule, Happen, Silent, AttemptAt, Token;
    GoingIsValid(plan, t);
    if n > 0 {
      GoingTick(plan, t);
      TickMovesGoing(plan, t);
      GoingIsValid(plan, Observe(t, Tick));
      GoingRun(plan, Observe(t, Tick), n - 1);
      assert Quiet(n)[1..] == Quiet(n - 1);
    }
  }

  lemma GoingIsValid(plan: Plan, t: Timeline)
    requires Going(plan, t)
    ensures t.p.c.Valid()
  {}

  lemma TickMovesGoing(plan: Plan, t: Timeline)
    requires Going(plan, t) && t.p.now < MAX_U64
    ensures t.p.c.Valid() && Happen(t.p, Tick).now == t.p.now + 1
  {
    hide Happen, AttemptAt;
    TickMoves(plan, t.p);
  }

  /** With attempts left, the next one is still to come. */
  lemma GoingIsCurrent(plan: Plan, t: Timeline, k: nat)
    requires Going(plan, t) && t.p.now < MAX_U64 && |t.sentAt| <= k <= plan.retry.maximumRetries
    ensures t.p.now < AttemptAt(plan, k)
  {
    hide EndOf, Repeats, Token, AttemptAt, DelayOf;
    TimerRuns(plan, t.p);
    var n := |t.sentAt|;
    assert plan.retry.Valid();
    if n > 0 {
      NextAttempt(plan, n - 1);
      DelayIsPositive(plan.retry, n - 1);
    }
    if n < k {
      AttemptsIncrease(plan, n, k);
    }
  }

  /**
   * A block operation started in a named session with ids left, and a host that says nothing: after n
   * ticks exactly those attempts have gone out whose time has come, the k-th of them k timeouts and
   * the sum of the first k values min(initial * 2^j, maximum) after the start, up to maximum_retries.
   */
  lemma SilentHostIsRetriedOnTime(c: Coordinator, op: Operation, now: U64, client: Client, n: nat)
    requires CoordinatorInv(c) && (op.ReadBlock? || op.WriteBlock?) && Token(client.sessionId)
    requires c.Start(op, now, client).2.error == NoError && IdsLeft(client) > c.retry.maximumRetries && now + n < MAX_U64
    ensures var t := ObserveAll(Started(c, op, now, client), Quiet(n));
            && t.p.now == now + n && |t.p.lines| == |t.sentAt| <= c.retry.maximumRetries + 1
            && (forall k :: 0 <= k < |t.sentAt| ==> t.sentAt[k] == now + k * c.timeout + Delays(c.retry, k) <= now + n)
            && (forall k | |t.sentAt| <= k <= c.retry.maximumRetries :: now + n < now + k * c.timeout + Delays(c.retry, k))
  {
    hide OnSchedule, Token, ObserveAll, Coordinator.Start, Quiet, Spaced;
    var plan := Plan(op, client.sessionId, c.retry, c.timeout, now);
    var t := Started(c, op, now, client);
    StartOnTime(c, op, now, client);
    assert AttemptAt(plan, 0) == now;
    StartOperation(c, op, now, client);
    assert Going(plan, t);
    SilentRun(plan, t, n);
    GoingRun(plan, t, n);
    var last := ObserveAll(t, Quiet(n));
    forall k | |last.sentAt| <= k <= c.retry.maximumRetries ensures now + n < now + k * c.timeout + Delays(c.retry, k) {
      GoingIsCurrent(plan, last, k);
    }
    SentBefore(plan, last);
  }

  lemma StartOperation(c: Coordinator, op: Operation, now: U64, client: Client)
    requires CoordinatorInv(c) && !op.NoOperation? && c.Start(op, now, client).2.error == NoError
    ensures c.Start(op, now, client).0.operation == op
  {
    hide OperationText;
    StartFacts(c, op, now, client);
  }

  /** Every request on the timeline has gone out by now, and there are no more of them than attempts. */
  lemma SentBefore(plan: Plan, t: Timeline)
    requires Going(plan, t) && t.p.now < MAX_U64
    ensures |t.sentAt| <= plan.retry.maximumRetries + 1
    ensures forall k :: 0 <= k < |t.sentAt| ==> AttemptAt(plan, k) <= t.p.now
  {
    hide EndOf, Repeats, Token, AttemptAt;
    forall k | 0 <= k < |t.sentAt| ensures AttemptAt(plan, k) <= t.p.now {
      assert t.sentAt[k] in t.sentAt;
    }
  }
}
