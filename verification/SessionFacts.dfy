/** What one client or coordinator call does to the pending request, the timer and the operation. */
module SessionFacts {
  import opened Basics
  import opened SessionClient
  import opened OperationCoordinator

  // ---- Session client ------------------------------------------------------

  /** Ids below next are used up; the pending one, when there is one, is the latest. */
  predicate ClientInv(c: Client) {
    (c.pendingId == 0 ==> !c.pendingHandshake)
    && (c.pendingId != 0 ==> c.nextId == if c.pendingId == MAX_U64 then 0 else c.pendingId + 1)
    && (c.pendingHandshake ==> !c.negotiated)
  }

  /** A begin_* call either refuses and changes nothing, or reserves the next id. */
  predicate Began(c: Client, c': Client, request: Request, handshake: bool) {
    if request.error != NoError then c' == c && request.line == ""
    else !c.RequestPending() && c.nextId != 0 && c' == c.Reserve(handshake) && request.line != ""
  }

  lemma BeginHandshakeFacts(c: Client)
    ensures var (c', request) := c.BeginHandshake();
            Began(c, c', request, true)
            && (request.error == NoError ==> !c.negotiated && request.line == HelloText(c.nextId))
  {}

  lemma BeginRequestFacts(c: Client, command: string, fields: string)
    requires command != ""
    ensures var (c', request) := c.BeginRequest(command, fields);
            Began(c, c', request, false)
            && (request.error == NoError
                ==> c.negotiated && request.line == RequestText(command, c.nextId, c.sessionId, fields))
  {
    hide TextLines.Parse;
  }

  /** A response settles the pending request or changes nothing. */
  lemma AcceptFacts(c: Client, response: string)
    ensures var (c', result) := c.AcceptResponse(response);
            if result == NoError then
              c.RequestPending() && c'.pendingId == 0 && !c'.pendingHandshake && c'.nextId == c.nextId
              && (c.pendingHandshake ==> c'.negotiated)
              && (!c.pendingHandshake ==> c' == c.Settle())
            else if result == RemoteError then
              c.RequestPending() && c'.pendingId == 0 && !c'.pendingHandshake && c'.nextId == c.nextId
              && c'.negotiated == c.negotiated && c'.sessionId == c.sessionId
            else c' == c
  {
    hide TextLines.Parse, Numerals.ParseU64;
  }

  // ---- Operations ----------------------------------------------------------

  /** The request line an operation stands for. */
  function OperationText(op: Operation, id: U64, session: string): string {
    match op
    case NoOperation => ""
    case GetInfo => RequestText("GET_INFO", id, session, "")
    case ReadBlock(lba) => RequestText("READ_BLOCKS", id, session, ReadFieldsText(lba))
    case WriteBlock(lba, data) => RequestText("WRITE_BLOCKS", id, session, WriteFieldsText(lba, data))
    case Flush => RequestText("FLUSH", id, session, "")
    case Eject => RequestText("EJECT", id, session, "")
  }

  lemma OperationIssueFacts(op: Operation, c: Client)
    ensures var (c', request) := op.Issue(c);
            Began(c, c', request, false)
            && (request.error == NoError ==>
                  c.negotiated && !op.NoOperation?
                  && request.line == OperationText(op, c.nextId, c.sessionId))
  {
    match op
    case NoOperation =>
    case GetInfo => BeginRequestFacts(c, "GET_INFO", "");
    case ReadBlock(lba) => BeginRequestFacts(c, "READ_BLOCKS", ReadFieldsText(lba));
    case WriteBlock(lba, data) => BeginRequestFacts(c, "WRITE_BLOCKS", WriteFieldsText(lba, data));
    case Flush => BeginRequestFacts(c, "FLUSH", "");
    case Eject => BeginRequestFacts(c, "EJECT", "");
  }

  // ---- Coordinator ---------------------------------------------------------

  predicate Active(state: OperationState) { state != Idle && state != OperationFailed }

  /** The operation is retained exactly while it may still be reissued, and timed while it waits. */
  predicate CoordinatorInv(c: Coordinator) {
    c.Valid()
    && (Active(c.state) <==> !c.operation.NoOperation?)
    && (c.state == AwaitingResponse <==> c.deadline.armed)
    && (c.state == WaitingRetry || c.state == RetryReady <==> c.retry.waiting)
  }

  /**
   * A start, retry or resume: refused and unchanged; failed, with the operation dropped and
   * nothing pending on its behalf; or issued under the client's next id, armed and retained.
   */
  datatype IssueOutcome = IssueRefused | IssueFailed | Issued

  ghost predicate IssueResult(
    op: Operation, c: Coordinator, c': Coordinator, client: Client, client': Client, request: Request,
    outcome: IssueOutcome)
  {
    match outcome
    case IssueRefused => request.error != NoError && request.line == "" && c' == c && client' == client
    case IssueFailed =>
      request.error != NoError && request.line == ""
      && c'.state == OperationFailed && c'.operation.NoOperation?
      && (client' == client || (Reserved(client) && client' == client.Reserve(false).Settle()))
    case Issued =>
      request.error == NoError && request.line == OperationText(op, client.nextId, client.sessionId)
      && c'.state == AwaitingResponse && c'.operation == op && c'.deadline.armed
      && client.negotiated && Reserved(client) && client' == client.Reserve(false) && request.line != ""
  }

  predicate Reserved(client: Client) { !client.RequestPending() && client.nextId != 0 }

  ghost function OutcomeOf(c': Coordinator, request: Request, refused: bool): IssueOutcome {
    if request.error == NoError then Issued else if refused then IssueRefused else IssueFailed
  }

  lemma IssueFacts(c: Coordinator, now: U64, client: Client)
    requires c.Valid() && !c.operation.NoOperation? && !c.deadline.armed && !c.retry.waiting
    ensures var (c', client', request) := c.Issue(now, client);
            IssueResult(c.operation, c, c', client, client', request, OutcomeOf(c', request, false))
            && CoordinatorInv(c') && c'.timeout == c.timeout
            && c'.retry == c.retry
  {
    OperationIssueFacts(c.operation, client);
    hide Operation.Issue, OperationText;
  }

  lemma StartFacts(c: Coordinator, op: Operation, now: U64, client: Client)
    requires CoordinatorInv(c) && !op.NoOperation?
    ensures var (c', client', request) := c.Start(op, now, client);
            IssueResult(op, c, c', client, client', request, OutcomeOf(c', request, c.state != Idle))
            && CoordinatorInv(c')
  {
    if c.state == Idle {
      IssueFacts(c.(operation := op, retry := c.retry.RecordSuccess()), now, client);
    }
    hide Coordinator.Issue, OperationText;
  }

  lemma IssueRetryFacts(c: Coordinator, now: U64, client: Client)
    requires CoordinatorInv(c)
    ensures var (c', client', request) := c.IssueRetry(now, client);
            IssueResult(c.operation, c, c', client, client', request, OutcomeOf(c', request, c' == c))
            && CoordinatorInv(c')
            && (c'.state == c.state ==> c' == c)
            && (c.state !in {WaitingRetry, RetryReady} ==> c' == c)
  {
    var (retry', consumed) := c.retry.ConsumeRetry(now);
    if (c.state == WaitingRetry || c.state == RetryReady) && consumed {
      IssueFacts(c.(retry := retry'), now, client);
    }
    hide Coordinator.Issue, OperationText;
  }

  lemma RouteFacts(c: Coordinator, advice: RetryAdvice, now: U64)
    requires c.Valid() && !c.deadline.armed && !c.operation.NoOperation?
    ensures var c' := c.RouteFailure(advice, now);
            CoordinatorInv(c') && !c'.deadline.armed
            && c'.state !in {Idle, AwaitingResponse, RetryReady}
            && (Active(c'.state) ==> c'.operation == c.operation)
  {}

  /** A response completes the operation, reroutes it, or is ignored. */
  lemma CoordinatorAcceptFacts(c: Coordinator, response: string, now: U64, client: Client)
    requires CoordinatorInv(c)
    requires c.state == AwaitingResponse ==> client.RequestPending() && !client.pendingHandshake
    ensures var (c', client') := c.AcceptResponse(response, now, client);
            CoordinatorInv(c')
            && ((c' == c && client' == client)
                || (c.state == AwaitingResponse && c'.state != AwaitingResponse && client'.pendingId == 0
                    && !client'.pendingHandshake && client'.nextId == client.nextId
                    && client'.negotiated == client.negotiated && client'.sessionId == client.sessionId))
            && (c'.state == Idle && c.state != Idle ==> client.AcceptResponse(response).1 == NoError)
            && (c'.state == RetryReady ==> c' == c)
            && (Active(c'.state) ==> c'.operation == c.operation)
  {
    AcceptFacts(client, response);
    var (client', result) := client.AcceptResponse(response);
    if c.state == AwaitingResponse && result == RemoteError {
      RouteFacts(c.(deadline := DISARMED), RetryAdviceFor(client'.remoteError), now);
    }
    hide Client.AcceptResponse, Coordinator.RouteFailure;
  }

  lemma CoordinatorExpireFacts(c: Coordinator, now: U64, client: Client)
    requires CoordinatorInv(c)
    requires c.state == AwaitingResponse ==> client.RequestPending() && !client.pendingHandshake
    ensures var (c', client') := c.ExpireIfDue(now, client);
            CoordinatorInv(c')
            && ((c' == c && client' == client)
                || (c.state == AwaitingResponse && c'.state != AwaitingResponse && client' == client.Settle()))
            && (c'.state == Idle ==> c' == c)
            && (c'.state == RetryReady ==> c' == c)
            && (Active(c'.state) ==> c'.operation == c.operation)
  {
    if c.state == AwaitingResponse {
      RouteFacts(c.(deadline := DISARMED), RetrySameSession, now);
    }
    hide Coordinator.RouteFailure;
  }
}
