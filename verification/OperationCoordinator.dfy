/** Deadline, retained operation and the coordinator that ties them to the session client. */
module OperationCoordinator {
  import opened Basics
  import opened SessionClient
  import opened RetryControl

  // ---- cdc_request_deadline.cpp --------------------------------------------

  datatype Deadline = Deadline(at: U64, armed: bool) {
    function Arm(now: U64, timeout: U64, pending: bool): (Deadline, bool) {
      if timeout == 0 || !pending then (this, false)
      else (Deadline(if timeout > MAX_U64 - now then MAX_U64 else now + timeout, true), true)
    }

    /** Expiry cancels the pending request; a request that is already settled only disarms. */
    function ExpireIfDue(now: U64, client: Client): (Deadline, Client, bool) {
      if !armed then (this, client, false)
      else if !client.RequestPending() then (DISARMED, client, false)
      else if now < at then (this, client, false)
      else (DISARMED, client.Cancel(), true)
    }
  }

  const DISARMED := Deadline(0, false)

  class CdcRequestDeadline {
    var deadline: U64
    var armed: bool

    ghost function State(): Deadline
      reads this
    {
      Deadline(deadline, armed)
    }

    constructor ()
      ensures State() == DISARMED
    {
      deadline, armed := 0, false;
    }

    method Arm(now: U64, timeout: U64, client: CdcSessionClient) returns (ok: bool)
      modifies this
      ensures (State(), ok) == old(State()).Arm(now, timeout, client.State().RequestPending())
    {
      if timeout == 0 || !client.RequestPending() {
        return false;
      }
      deadline := if timeout > MAX_U64 - now then MAX_U64 else now + timeout;
      armed := true;
      return true;
    }

    method ExpireIfDue(now: U64, client: CdcSessionClient) returns (expired: bool)
      modifies this, client
      ensures (State(), client.State(), expired) == old(State()).ExpireIfDue(now, old(client.State()))
    {
      if !armed {
        return false;
      }
      if !client.RequestPending() {
        Clear();
        return false;
      }
      if now < deadline {
        return false;
      }
      expired := client.CancelPendingRequest();
      Clear();
    }

    method Clear()
      modifies this
      ensures State() == DISARMED
    {
      deadline, armed := 0, false;
    }
  }

  // ---- cdc_retained_operation.cpp ------------------------------------------

  datatype Operation =
    | NoOperation
    | GetInfo
    | ReadBlock(lba: U64)
    | WriteBlock(lba: U64, data: Block)
    | Flush
    | Eject
  {
    function Issue(client: Client): (Client, Request) {
      match this
      case NoOperation => (client, Refused(InvalidRequest))
      case GetInfo => client.BeginGetInfo()
      case ReadBlock(lba) => client.BeginReadBlock(lba)
      case WriteBlock(lba, data) => client.BeginWriteBlock(lba, data)
      case Flush => client.BeginFlush()
      case Eject => client.BeginEject()
    }
  }

  class CdcRetainedOperation {
    var operation: Operation

    constructor ()
      ensures operation == NoOperation
    {
      operation := NoOperation;
    }

    method Retain(operation: Operation)
      modifies this
      ensures this.operation == operation
    {
      this.operation := operation;
    }

    method Clear()
      modifies this
      ensures operation == NoOperation
    {
      operation := NoOperation;
    }

    method Issue(client: CdcSessionClient) returns (request: Request)
      modifies client
      ensures (client.State(), request) == operation.Issue(old(client.State()))
    {
      match operation
      case NoOperation => request := Refused(InvalidRequest);
      case GetInfo => request := client.BeginGetInfo();
      case ReadBlock(lba) => request := client.BeginReadBlock(lba);
      case WriteBlock(lba, data) => request := client.BeginWriteBlock(lba, data);
      case Flush => request := client.BeginFlush();
      case Eject => request := client.BeginEject();
    }
  }

  // ---- cdc_operation_coordinator.cpp ---------------------------------------

  datatype OperationState =
    | Idle
    | AwaitingResponse
    | WaitingRetry
    | RetryReady
    | RenegotiatePending
    | MediaUnavailablePending
    | OperationFailed

  datatype DisconnectPolicy = CancelOperation | RetainOperation

  datatype Coordinator = Coordinator(
    timeout: U64,
    deadline: Deadline,
    retry: Retry,
    operation: Operation,
    state: OperationState)
  {
    predicate Valid() { retry.Valid() }

    function Start(op: Operation, now: U64, client: Client): (Coordinator, Client, Request) {
      if state != Idle then (this, client, Refused(Busy))
      else if op.NoOperation? then (this, client, Refused(InvalidRequest))
      else this.(operation := op, retry := retry.RecordSuccess()).Issue(now, client)
    }

    function Fail(): Coordinator { this.(state := OperationFailed, operation := NoOperation) }

    function Issue(now: U64, client: Client): (Coordinator, Client, Request) {
      var (client', request) := operation.Issue(client);
      if request.error != NoError then (Fail(), client', request)
      else
        var (deadline', armed) := deadline.Arm(now, timeout, client'.RequestPending());
        if !armed then (Fail(), client'.Cancel(), Refused(InvalidRequest))
        else (this.(deadline := deadline', state := AwaitingResponse), client', request)
    }

    function RouteFailure(advice: RetryAdvice, now: U64): Coordinator
      requires Valid()
    {
      var (retry', decision) := retry.RecordFailure(advice, now);
      var next := this.(retry := retry');
      match decision
      case Wait => next.(state := WaitingRetry)
      case RenegotiateSession => next.(state := RenegotiatePending)
      case NoMediaAvailable => next.(state := MediaUnavailablePending)
      case NoRetry | Exhausted | Ready => next.Fail()
    }

    function AcceptResponse(response: string, now: U64, client: Client): (Coordinator, Client)
      requires Valid()
    {
      if state != AwaitingResponse then (this, client)
      else
        var (client', result) := client.AcceptResponse(response);
        (AfterResponse(result, client'.remoteError, now), client')
    }

    function AfterResponse(result: ClientError, remote: RemoteErrorCode, now: U64): Coordinator
      requires Valid()
    {
      match result
      case NoError =>
        this.(deadline := DISARMED, retry := retry.RecordSuccess(), operation := NoOperation, state := Idle)
      case RemoteError => this.(deadline := DISARMED).RouteFailure(RetryAdviceFor(remote), now)
      case _ => this
    }

    function ExpireIfDue(now: U64, client: Client): (Coordinator, Client)
      requires Valid()
    {
      if state != AwaitingResponse then (this, client)
      else
        var (deadline', client', expired) := deadline.ExpireIfDue(now, client);
        var next := this.(deadline := deadline');
        (if expired then next.RouteFailure(RetrySameSession, now) else next, client')
    }

    function Poll(now: U64): Coordinator {
      if state == WaitingRetry && retry.Poll(now) == Ready then this.(state := RetryReady) else this
    }

    function IssueRetry(now: U64, client: Client): (Coordinator, Client, Request) {
      if state != WaitingRetry && state != RetryReady then (this, client, Refused(Busy))
      else
        var (retry', consumed) := retry.ConsumeRetry(now);
        if !consumed then (this, client, Refused(Busy))
        else this.(retry := retry').Issue(now, client)
    }

    /** resume_after_renegotiation and resume_after_media_available, by the state they leave. */
    function Resume(from: OperationState, now: U64, client: Client): (Coordinator, Client, Request) {
      if state != from || !client.negotiated then (this, client, Refused(NotNegotiated))
      else this.(retry := retry.RecordSuccess()).Issue(now, client)
    }

    function Disconnect(policy: DisconnectPolicy): Coordinator {
      var next := this.(deadline := DISARMED, retry := retry.RecordSuccess());
      if policy == RetainOperation && !operation.NoOperation? then next.(state := RenegotiatePending)
      else next.(operation := NoOperation, state := Idle)
    }

    function Cancel(): Coordinator {
      this.(deadline := DISARMED, retry := retry.RecordSuccess(), operation := NoOperation, state := Idle)
    }
  }

  function NewCoordinator(timeout: U64, maximumRetries: nat, initialBackoff: U64, maximumBackoff: U64): (c: Coordinator)
    ensures c.Valid()
  {
    Coordinator(timeout, DISARMED, NewRetry(maximumRetries, initialBackoff, maximumBackoff), NoOperation, Idle)
  }

  class CdcOperationCoordinator {
    const timeout: U64
    const deadline: CdcRequestDeadline
    const retry: CdcRetryController
    const operation: CdcRetainedOperation
    var state: OperationState

    /** The objects this coordinator owns. */
    ghost function Owned(): set<object> { {this, deadline, retry, operation} }

    ghost function State(): Coordinator
      reads Owned()
    {
      Coordinator(timeout, deadline.State(), retry.State(), operation.operation, state)
    }

    constructor (timeout: U64, maximumRetries: nat, initialBackoff: U64, maximumBackoff: U64)
      ensures State() == NewCoordinator(timeout, maximumRetries, initialBackoff, maximumBackoff)
      ensures fresh(Owned())
    {
      this.timeout := timeout;
      deadline := new CdcRequestDeadline();
      retry := new CdcRetryController(maximumRetries, initialBackoff, maximumBackoff);
      operation := new CdcRetainedOperation();
      state := Idle;
    }

    method Start(op: Operation, now: U64, client: CdcSessionClient) returns (request: Request)
      modifies Owned(), client
      ensures (State(), client.State(), request) == old(State()).Start(op, now, old(client.State()))
    {
      if state != Idle {
        return Refused(Busy);
      }
      if op.NoOperation? {
        return Refused(InvalidRequest);
      }
      operation.Retain(op);
      retry.RecordSuccess();
      request := Issue(now, client);
    }

    method Issue(now: U64, client: CdcSessionClient) returns (request: Request)
      modifies Owned(), client
      ensures (State(), client.State(), request) == old(State()).Issue(now, old(client.State()))
    {
      request := operation.Issue(client);
      if request.error != NoError {
        state := OperationFailed;
        operation.Clear();
        return;
      }
      var armed := deadline.Arm(now, timeout, client);
      if !armed {
        var _ := client.CancelPendingRequest();
        state := OperationFailed;
        operation.Clear();
        return Refused(InvalidRequest);
      }
      state := AwaitingResponse;
    }

    method RouteFailure(advice: RetryAdvice, now: U64)
      requires State().Valid()
      modifies Owned()
      ensures State() == old(State()).RouteFailure(advice, now)
    {
      var decision := retry.RecordFailure(advice, now);
      if decision == Wait {
        state := WaitingRetry;
      } else if decision == RenegotiateSession {
        state := RenegotiatePending;
      } else if decision == NoMediaAvailable {
        state := MediaUnavailablePending;
      } else {
        operation.Clear();
        state := OperationFailed;
      }
    }

    method AcceptResponse(response: string, now: U64, client: CdcSessionClient) returns (result: OperationState)
      requires State().Valid()
      modifies Owned(), client
      ensures (State(), client.State()) == old(State()).AcceptResponse(response, now, old(client.State()))
      ensures result == state
    {
      if state != AwaitingResponse {
        return state;
      }
      var outcome := client.AcceptResponse(response);
      if outcome == NoError {
        deadline.Clear();
        retry.RecordSuccess();
        operation.Clear();
        state := Idle;
      } else if outcome == RemoteError {
        deadline.Clear();
        RouteFailure(RetryAdviceFor(client.remoteError), now);
      }
      return state;
    }

    method ExpireIfDue(now: U64, client: CdcSessionClient) returns (result: OperationState)
      requires State().Valid()
      modifies Owned(), client
      ensures (State(), client.State()) == old(State()).ExpireIfDue(now, old(client.State()))
      ensures result == state
    {
      if state == AwaitingResponse {
        var expired := deadline.ExpireIfDue(now, client);
        if expired {
          RouteFailure(RetrySameSession, now);
        }
      }
      return state;
    }

    method Poll(now: U64) returns (result: OperationState)
      modifies this
      ensures State() == old(State()).Poll(now)
      ensures result == state
    {
      if state == WaitingRetry && retry.Poll(now) == Ready {
        state := RetryReady;
      }
      return state;
    }

    method IssueRetry(now: U64, client: CdcSessionClient) returns (request: Request)
      modifies Owned(), client
      ensures (State(), client.State(), request) == old(State()).IssueRetry(now, old(client.State()))
    {
      if state != WaitingRetry && state != RetryReady {
        return Refused(Busy);
      }
      var consumed := retry.ConsumeRetry(now);
      if !consumed {
        return Refused(Busy);
      }
      request := Issue(now, client);
    }

    method ResumeAfterRenegotiation(now: U64, client: CdcSessionClient) returns (request: Request)
      modifies Owned(), client
      ensures (State(), client.State(), request)
           == old(State()).Resume(RenegotiatePending, now, old(client.State()))
    {
      if state != RenegotiatePending || !client.negotiated {
        return Refused(NotNegotiated);
      }
      retry.RecordSuccess();
      request := Issue(now, client);
    }

    method ResumeAfterMediaAvailable(now: U64, client: CdcSessionClient) returns (request: Request)
      modifies Owned(), client
      ensures (State(), client.State(), request)
           == old(State()).Resume(MediaUnavailablePending, now, old(client.State()))
    {
      if state != MediaUnavailablePending || !client.negotiated {
        return Refused(NotNegotiated);
      }
      retry.RecordSuccess();
      request := Issue(now, client);
    }

    method Disconnect(client: CdcSessionClient, policy: DisconnectPolicy)
      modifies Owned(), client
      ensures State() == old(State()).Disconnect(policy)
      ensures client.State() == FRESH_CLIENT
    {
      deadline.Clear();
      retry.RecordSuccess();
      var _ := client.CancelPendingRequest();
      client.Reset();
      if policy == RetainOperation && !operation.operation.NoOperation? {
        state := RenegotiatePending;
        return;
      }
      operation.Clear();
      state := Idle;
    }

    method Cancel(client: CdcSessionClient)
      modifies Owned(), client
      ensures State() == old(State()).Cancel()
      ensures client.State() == old(client.State()).Cancel()
    {
      deadline.Clear();
      retry.RecordSuccess();
      operation.Clear();
      state := Idle;
      var _ := client.CancelPendingRequest();
    }
  }
}
