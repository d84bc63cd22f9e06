/** Request ids are used once: by the client that issues them and by the host that executes them. */
module AtMostOnce {
  import opened Basics
  import opened SessionClient
  import opened SessionFacts
  import opened SessionDispatcher
  import opened Numerals
  import opened TextLines
  import opened TextLineTheory
  import opened Wire

  predicate Increasing(ids: seq<U64>) {
    forall i, j :: 0 <= i < j < |ids| ==> ids[i] < ids[j]
  }

  lemma IncreasingSnoc(ids: seq<U64>, id: U64)
    requires Increasing(ids) && (forall x <- ids :: x < id)
    ensures Increasing(ids + [id])
  {
    forall i | 0 <= i < |ids| ensures ids[i] < id {
      assert ids[i] in ids;
    }
  }

  // ---- Ids on lines --------------------------------------------------------

  /** The id a line carries, or 0 when it is no line or has no usable id. */
  function LineId(line: string): U64 {
    match Parse(line)
    case Err(_) => 0
    case Ok(parsed) => if ParseU64(parsed.ValueFor("id")).Some? then ParseU64(parsed.ValueFor("id")).value else 0
  }

  /** The handshake line carries the client's next id. */
  lemma HelloCarriesId(id: U64)
    requires id != 0
    ensures LineId(HelloText(id)) == id
  {
    hide ToDecimal, Parse, ParseU64;
    MessageParses(Message.Hello(id));
    PrintableDecimal(id);
  }

  /** Every request line that parses with its command carries the id it was built with. */
  lemma RequestCarriesId(command: string, id: U64, session: string, fields: string)
    requires command != "" && Parse(RequestText(command, id, session, fields)).Ok?
    requires Parse(RequestText(command, id, session, fields)).value.Command() == command
    ensures LineId(RequestText(command, id, session, fields)) == id
  {
    var line, number := RequestText(command, id, session, fields), ToDecimal(id);
    var tail := " session=" + session + (if fields == "" then "" else " " + fields);
    PrintableDecimal(id);
    IdComesFirst(command, number, tail, line);
    hide ToDecimal, Parse, ParseU64;
  }

  lemma IdComesFirst(command: string, number: string, tail: string, line: string)
    requires command != "" && Parse(line).Ok? && Parse(line).value.Command() == command
    requires line == command + (" " + (("id=" + number) + tail)) && tail != "" && IsSeparator(tail[0])
    requires Printable(number)
    ensures Parse(line).value.ValueFor("id") == number
  {
    hide Parse, Words;
    var word := "id=" + number;
    ParseAccepts(line);
    IdWords(command, word, tail);
    IdField(number);
    assert Parse(line).value.tokens[1..] == [word] + Words(tail);
  }

  lemma IdField(number: string)
    ensures FieldKey("id=" + number) == "id" && FieldValue("id=" + number) == number
  {
    assert "id=" + number == "id" + "=" + number;
    FindInName("id", number);
  }

  lemma IdWords(command: string, word: string, tail: string)
    requires command != "" && word != "" && Printable(word) && Printable(command)
    requires tail != "" && IsSeparator(tail[0])
    ensures Words(command + (" " + (word + tail))) == [command] + ([word] + Words(tail))
  {
    hide Words, Printable;
    WordsOfWord(command, " " + (word + tail));
    WordsOfSpace(word + tail);
    WordsOfWord(word, tail);
  }

  // ---- The host ------------------------------------------------------------

  /** One line handed to the dispatcher, whatever it contains. */
  datatype Delivery = Delivery(line: string, io: ImageIo)

  predicate HelloFirst(h: Host) { !h.established ==> h.lastRequestId == 0 }

  function Deliver(h: Host, d: Delivery): Host { h.Dispatch(d.line, d.io).0 }

  predicate IsError(response: string) { |response| >= 4 && response[..4] == "ERR " }

  /** A delivery was executed if it changed the host or was answered by anything but an error. */
  predicate Executed(h: Host, d: Delivery) { Deliver(h, d) != h || !IsError(h.Dispatch(d.line, d.io).1) }

  /** What the id, session and version checks let through. */
  predicate Admitted(h: Host, line: string) {
    Parse(line).Ok? && LineId(line) != 0
    && var parsed := Parse(line).value;
       if parsed.Command() == "HELLO" then parsed.ValueFor("version") == "0.1" && (h.established ==> LineId(line) > h.lastRequestId)
       else h.established && parsed.ValueFor("session") == h.sessionId != "" && LineId(line) > h.lastRequestId
  }

  /**
   * A line is executed exactly when the checks admit it; then its own id becomes the last one, and
   * it is larger than every id before. Any other line leaves the host as it was and is refused.
   */
  lemma DispatchAdvances(h: Host, d: Delivery)
    requires HelloFirst(h)
    ensures var h' := Deliver(h, d);
            HelloFirst(h') && (Executed(h, d) <==> Admitted(h, d.line))
            && (Executed(h, d) ==> h'.lastRequestId == LineId(d.line) > h.lastRequestId)
            && (!Executed(h, d) ==> h' == h)
  {
    hide Parse, ParseU64, Host.Execute, TextLine.ValueFor, ErrorText, IsError;
    RefusalsAreErrors();
    EmptyIsNoNumber();
    if Admitted(h, d.line) {
      var line := Parse(d.line).value;
      ExecuteKeepsIds(h.(lastRequestId := LineId(d.line)), line, line.ValueFor("id"), d.io);
    }
  }

  lemma EmptyIsNoNumber()
    ensures ParseU64("").None?
  {}

  /** What a request does when it is executed leaves the session and its ids alone. */
  lemma ExecuteKeepsIds(h: Host, line: TextLine, id: string, io: ImageIo)
    ensures var h' := h.Execute(line, id, io).0;
            h'.lastRequestId == h.lastRequestId && h'.established == h.established && h'.sessionId == h.sessionId
  {
    hide ParseU64, TextLine.ValueFor, ErrorText, Host.ReadBlocks, Stored, Split;
  }

  lemma RefusalsAreErrors()
    ensures forall id, code :: IsError(ErrorText(id, code))
  {
    forall id, code ensures IsError(ErrorText(id, code)) {
      assert ErrorText(id, code) == "ERR " + ("id=" + (if id == "" then "0" else id) + " code=" + code);
    }
  }

  function HostAfter(h: Host, deliveries: seq<Delivery>): Host {
    if deliveries == [] then h
    else Deliver(HostAfter(h, deliveries[..|deliveries| - 1]), deliveries[|deliveries| - 1])
  }

  /** The ids carried by the lines that were executed, in order. */
  function ExecutedIds(h: Host, deliveries: seq<Delivery>): seq<U64> {
    if deliveries == [] then []
    else
      var last := |deliveries| - 1;
      var ids := ExecutedIds(h, deliveries[..last]);
      if Executed(HostAfter(h, deliveries[..last]), deliveries[last]) then ids + [LineId(deliveries[last].line)] else ids
  }

  /**
   * Over any delivery of any lines, in any order and with any repetition, the ids on the lines
   * the host executes are strictly increasing, so each is executed at most once.
   */
  lemma {:induction false} HostExecutesOnce(h: Host, deliveries: seq<Delivery>)
    requires HelloFirst(h)
    ensures var ids, after := ExecutedIds(h, deliveries), HostAfter(h, deliveries);
            Increasing(ids) && HelloFirst(after)
            && (forall id <- ids :: h.lastRequestId < id <= after.lastRequestId)
            && h.lastRequestId <= after.lastRequestId
  {
    hide Deliver, Executed, Admitted, LineId;
    if deliveries != [] {
      var last := |deliveries| - 1;
      HostExecutesOnce(h, deliveries[..last]);
      var before := HostAfter(h, deliveries[..last]);
      DispatchAdvances(before, deliveries[last]);
      if Executed(before, deliveries[last]) {
        IncreasingSnoc(ExecutedIds(h, deliveries[..last]), LineId(deliveries[last].line));
      }
    }
  }

  /** A line with an id already executed, in particular the same line again, changes nothing and is refused. */
  lemma RedeliveryChangesNothing(h: Host, deliveries: seq<Delivery>, d: Delivery)
    requires HelloFirst(h) && LineId(d.line) in ExecutedIds(h, deliveries)
    ensures var after := HostAfter(h, deliveries);
            Deliver(after, d) == after && IsError(after.Dispatch(d.line, d.io).1)
  {
    hide ExecutedIds, HostAfter, LineId, Admitted;
    HostExecutesOnce(h, deliveries);
    DispatchAdvances(HostAfter(h, deliveries), d);
  }

  // ---- The client ----------------------------------------------------------

  datatype ClientCall =
    | CallHandshake
    | CallRequest(command: string, fields: string)
    | CallAccept(response: string)
    | CallCancel

  /** The client, the ids on the lines it issued and on the responses it accepted, and the ids it gave up. */
  datatype Ledger = Ledger(client: Client, issued: seq<U64>, answered: seq<U64>, cancelled: seq<U64>)

  function Record(l: Ledger, call: ClientCall): Ledger {
    var c := l.client;
    match call
    case CallHandshake => Issue(l, c.BeginHandshake())
    case CallRequest(command, fields) => Issue(l, c.BeginRequest(command, fields))
    case CallAccept(response) =>
      var (c', error) := c.AcceptResponse(response);
      l.(client := c', answered := if error in {NoError, RemoteError} then l.answered + [LineId(response)] else l.answered)
    case CallCancel =>
      l.(client := c.Cancel(), cancelled := if c.RequestPending() then l.cancelled + [c.pendingId] else l.cancelled)
  }

  function Issue(l: Ledger, begun: (Client, Request)): Ledger {
    l.(client := begun.0, issued := if begun.1.error == NoError then l.issued + [LineId(begun.1.line)] else l.issued)
  }

  function Calls(calls: seq<ClientCall>): Ledger {
    if calls == [] then Ledger(FRESH_CLIENT, [], [], [])
    else Record(Calls(calls[..|calls| - 1]), calls[|calls| - 1])
  }

  predicate Used(c: Client, id: U64) { id != 0 && (c.nextId == 0 || id < c.nextId) }

  predicate LedgerInv(l: Ledger) {
    ClientInv(l.client)
    && Increasing(l.issued) && Increasing(l.answered) && Increasing(l.cancelled)
    && (forall id <- l.issued :: Used(l.client, id))
    && (forall id <- l.answered :: id in l.issued && id != l.client.pendingId)
    && (forall id <- l.cancelled :: id in l.issued && id != l.client.pendingId && id !in l.answered)
    && (l.client.RequestPending() ==> l.client.pendingId in l.issued
                                      && forall id <- l.issued :: id <= l.client.pendingId)
  }

  lemma IssueKeeps(l: Ledger, begun: (Client, Request), handshake: bool)
    requires LedgerInv(l) && Began(l.client, begun.0, begun.1, handshake)
    requires handshake ==> !l.client.negotiated || begun.1.error != NoError
    requires begun.1.error == NoError ==> LineId(begun.1.line) == l.client.nextId
    ensures LedgerInv(Issue(l, begun))
  {
    hide LineId;
    if begun.1.error == NoError {
      var id := l.client.nextId;
      assert forall x <- l.issued :: x < id;
      IncreasingSnoc(l.issued, id);
    }
  }

  lemma SettleKeeps(l: Ledger, c: Client, answered: bool)
    requires LedgerInv(l) && l.client.RequestPending()
    requires c.pendingId == 0 && !c.pendingHandshake && c.nextId == l.client.nextId
    ensures LedgerInv(if answered then l.(client := c, answered := l.answered + [l.client.pendingId])
                      else l.(client := c, cancelled := l.cancelled + [l.client.pendingId]))
  {
    var id := l.client.pendingId;
    assert forall x <- l.answered :: x in l.issued && x < id;
    assert forall x <- l.cancelled :: x in l.issued && x < id;
    IncreasingSnoc(l.answered, id);
    IncreasingSnoc(l.cancelled, id);
  }

  /** Accepting a response settles the request whose id is on it; any other response changes nothing. */
  lemma AcceptedCarriesPendingId(c: Client, response: string)
    ensures var (c', error) := c.AcceptResponse(response);
            if error in {NoError, RemoteError} then c.RequestPending() && LineId(response) == c.pendingId else c' == c
  {
    hide Parse, ParseU64, TextLine.ValueFor;
  }

  lemma BegunCarriesId(c: Client, call: ClientCall)
    ensures call.CallHandshake? && c.BeginHandshake().1.error == NoError ==> LineId(c.BeginHandshake().1.line) == c.nextId
    ensures call.CallRequest? && c.BeginRequest(call.command, call.fields).1.error == NoError ==>
              LineId(c.BeginRequest(call.command, call.fields).1.line) == c.nextId
  {
    hide Parse, LineId, RequestText, HelloText;
    if call.CallHandshake? && c.nextId != 0 {
      HelloCarriesId(c.nextId);
    }
    if call.CallRequest? && c.BeginRequest(call.command, call.fields).1.error == NoError {
      RequestCarriesId(call.command, c.nextId, c.sessionId, call.fields);
    }
  }

  lemma {:induction false} ClientLedger(calls: seq<ClientCall>)
    ensures LedgerInv(Calls(calls))
  {
    hide LedgerInv, Record, ClientInv;
    if calls == [] {
      FreshLedger();
    } else {
      ClientLedger(calls[..|calls| - 1]);
      RecordKeeps(Calls(calls[..|calls| - 1]), calls[|calls| - 1]);
    }
  }

  lemma FreshLedger()
    ensures LedgerInv(Ledger(FRESH_CLIENT, [], [], []))
  {}

  lemma RecordKeeps(l: Ledger, call: ClientCall)
    requires LedgerInv(l)
    ensures LedgerInv(Record(l, call))
  {
    hide LedgerInv, Client.BeginHandshake, Client.BeginRequest, Client.AcceptResponse, Issue, LineId;
    BegunCarriesId(l.client, call);
    match call {
      case CallHandshake =>
        BeginHandshakeFacts(l.client);
        IssueKeeps(l, l.client.BeginHandshake(), true);
      case CallRequest(command, fields) =>
        if command == "" {
          EmptyCommand(l.client, fields);
          IssueKeeps(l, l.client.BeginRequest(command, fields), false);
        } else {
          BeginRequestFacts(l.client, command, fields);
          IssueKeeps(l, l.client.BeginRequest(command, fields), false);
        }
      case CallAccept(response) =>
        AcceptFacts(l.client, response);
        AcceptedCarriesPendingId(l.client, response);
        if l.client.AcceptResponse(response).1 in {NoError, RemoteError} {
          SettleKeeps(l, l.client.AcceptResponse(response).0, true);
        }
      case CallCancel =>
        if l.client.RequestPending() {
          SettleKeeps(l, l.client.Cancel(), false);
        }
    }
  }

  lemma EmptyCommand(c: Client, fields: string)
    ensures Began(c, c.BeginRequest("", fields).0, c.BeginRequest("", fields).1, false)
  {
    hide Parse;
  }

  /**
   * Between resets, for any calls and any response text: no id is put on two requests, the
   * responses accepted carry ids of different requests, and none of them was cancelled.
   */
  lemma IdsAreUsedOnce(calls: seq<ClientCall>)
    ensures var l := Calls(calls);
            Increasing(l.issued) && Increasing(l.answered)
            && forall id <- l.answered :: id in l.issued && id !in l.cancelled
  {
    ClientLedger(calls);
  }

  /** A response that carries an answered, a cancelled or a never issued id changes nothing. */
  lemma StaleResponseIgnored(calls: seq<ClientCall>, response: string)
    requires var l := Calls(calls);
             LineId(response) in l.answered || LineId(response) in l.cancelled || LineId(response) !in l.issued
    ensures var (c', error) := Calls(calls).client.AcceptResponse(response);
            c' == Calls(calls).client && error !in {NoError, RemoteError}
  {
    hide LineId, Client.AcceptResponse, Calls;
    ClientLedger(calls);
    AcceptedCarriesPendingId(Calls(calls).client, response);
  }
}
