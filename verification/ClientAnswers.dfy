/** When the session client and the coordinator refuse a call, and with which error. */
module ClientAnswers {
  import opened Basics
  import opened Numerals
  import opened TextLines
  import opened SessionClient
  import opened OperationCoordinator

  /** A refused call changes nothing and has no line to send. */
  predicate NothingSent(c: Client, c': Client, request: Request) { c' == c && request.line == "" }

  /** A handshake is refused while a request is pending, in a negotiated session, and without an id left. */
  lemma HandshakeRefusals(c: Client)
    ensures var (c', request) := c.BeginHandshake();
            && (request.error == Busy <==> c.pendingId != 0)
            && (request.error == InvalidRequest <==> c.pendingId == 0 && c.negotiated)
            && (request.error == IdExhausted <==> c.pendingId == 0 && !c.negotiated && c.nextId == 0)
            && (request.error != NoError <==> c.pendingId != 0 || c.negotiated || c.nextId == 0)
            && (request.error != NoError ==> NothingSent(c, c', request))
  {}

  /** The words no request may have as its command. */
  predicate Reserved(command: string) { command == "" || command == "HELLO" || command == "OK" || command == "ERR" }

  /** A line that reads back as a request with this command. */
  predicate ReadsBack(line: string, command: string) { Parse(line).Ok? && Parse(line).value.Command() == command }

  /** A request is refused while one is pending, outside a session, without an id left, and if its line would not read back. */
  lemma RequestRefusals(c: Client, command: string, fields: string)
    ensures var (c', request) := c.BeginRequest(command, fields);
            var free := c.pendingId == 0 && c.negotiated;
            var bad := Reserved(command) || !ReadsBack(RequestText(command, c.nextId, c.sessionId, fields), command);
            && (request.error == Busy <==> c.pendingId != 0)
            && (request.error == NotNegotiated <==> c.pendingId == 0 && !c.negotiated)
            && (request.error == IdExhausted <==> free && c.nextId == 0)
            && (request.error == InvalidRequest <==> free && c.nextId != 0 && bad)
            && (request.error == NoError <==> free && c.nextId != 0 && !bad)
            && (request.error != NoError ==> NothingSent(c, c', request))
  {
    hide Parse, RequestText, TextLine.Command;
  }

  /** A line that could answer something: OK or ERR with an id. */
  predicate Answers(response: string) {
    Parse(response).Ok?
    && var line := Parse(response).value;
       && (line.Command() == "OK" || line.Command() == "ERR")
       && ParseU64(line.ValueFor("id")).Some? && ParseU64(line.ValueFor("id")).value != 0
  }

  /** The answer carries the pending id. */
  predicate Matches(c: Client, response: string) {
    Answers(response) && ParseU64(Parse(response).value.ValueFor("id")) == Some(c.pendingId)
  }

  /** A matching OK line for this request: for a handshake a version and a session, else the session's own name. */
  predicate Fits(c: Client, line: TextLine) {
    if c.pendingHandshake then line.ValueFor("version") == "0.1" && line.ValueFor("session") != ""
    else line.ValueFor("session") == c.sessionId
  }

  /**
   * What a received line is taken for. Without a pending request every line is a mismatch; a line
   * that answers nothing is invalid, one with another id or another session a mismatch.
   */
  lemma ResponseKinds(c: Client, response: string)
    ensures var error := c.AcceptResponse(response).1;
            && (c.pendingId == 0 ==> error == MismatchedResponse)
            && (c.pendingId != 0 && !Answers(response) ==> error == InvalidResponse)
            && (c.pendingId != 0 && Answers(response) && !Matches(c, response) ==> error == MismatchedResponse)
            && (c.pendingId != 0 && Matches(c, response) ==>
                  var words := Parse(response).value;
                  error == if words.Command() == "ERR" then (if words.ValueFor("code") == "" then InvalidResponse else RemoteError)
                           else if Fits(c, words) then NoError
                           else if c.pendingHandshake then InvalidResponse else MismatchedResponse)
            && (error != NoError && error != RemoteError ==> c.AcceptResponse(response).0 == c)
  {
    hide Parse, ParseU64, TextLine.Command, TextLine.ValueFor, DecodeRemoteError;
  }

  /** The coordinator takes one operation at a time, and only a due retry or a parked operation in a session again. */
  lemma CoordinatorRefusals(c: Coordinator, op: Operation, now: U64, client: Client, from: OperationState)
    ensures c.state != Idle ==> c.Start(op, now, client) == (c, client, Refused(Busy))
    ensures c.state == Idle && op.NoOperation? ==> c.Start(op, now, client) == (c, client, Refused(InvalidRequest))
    ensures (c.state != WaitingRetry && c.state != RetryReady) || !c.retry.waiting || now < c.retry.retryAt ==>
              c.IssueRetry(now, client) == (c, client, Refused(Busy))
    ensures c.state != from || !client.negotiated ==> c.Resume(from, now, client) == (c, client, Refused(NotNegotiated))
  {}
}
