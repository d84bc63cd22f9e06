/** The attempts of one retained write, at the host: each is executed at most once, and all write the same block. */
module RetriedWrites {
  import opened Basics
  import opened Numerals
  import opened TextLines
  import opened TextLineTheory
  import opened SessionClient
  import opened SessionFacts
  import opened OperationCoordinator
  import opened SessionDispatcher
  import opened Wire
  import opened AtMostOnce
  import B = BoundedRetry
  import Coherence

  // ---- Session tokens ------------------------------------------------------

  lemma {:induction false} ValuesArePrintable(fields: seq<string>, key: string)
    requires forall f <- fields :: Printable(f)
    ensures Printable(LookUp(fields, key))
  {
    if fields != [] {
      assert Printable(fields[0]);
      ValuesArePrintable(fields[1..], key);
    }
  }

  /** Whatever a response says, a negotiated session has a printable, non-empty token. */
  lemma SessionIsToken(c: Client, response: string)
    requires c.negotiated ==> Token(c.sessionId)
    ensures var c' := c.AcceptResponse(response).0; c'.negotiated ==> Token(c'.sessionId)
  {
    hide Parse, ParseU64, LookUp, DecodeRemoteError, Printable;
    if Parse(response).Ok? {
      var line := Parse(response).value;
      TokensArePrintable(response);
      if |line.tokens| > 1 {
        ValuesArePrintable(line.tokens[1..], "session");
      }
    }
  }

  /** So the session of every client that has been called in any way is named by such a token. */
  lemma {:induction false} EverySessionIsToken(calls: seq<ClientCall>)
    ensures Calls(calls).client.negotiated ==> Token(Calls(calls).client.sessionId)
  {
    hide Token;
    if calls != [] {
      EverySessionIsToken(calls[..|calls| - 1]);
      RecordKeepsToken(Calls(calls[..|calls| - 1]), calls[|calls| - 1]);
    }
    hide Record;
  }

  lemma RecordKeepsToken(l: Ledger, call: ClientCall)
    requires l.client.negotiated ==> Token(l.client.sessionId)
    ensures var c := Record(l, call).client; c.negotiated ==> Token(c.sessionId)
  {
    hide Token, Client.AcceptResponse, LineId, Parse, RequestText, HelloText;
    if call.CallAccept? {
      SessionIsToken(l.client, call.response);
    }
  }

  lemma TokensArePrintable(text: string)
    requires Parse(text).Ok?
    ensures forall t <- Parse(text).value.tokens :: Printable(t)
  {
    hide Parse, Words;
    ParseAccepts(text);
  }

  // ---- One attempt ---------------------------------------------------------

  /** The image after an executed attempt: the write may be refused or tear its own block, nothing else. */
  function Written(h: Host, lba: U64, data: Block, io: ImageIo): seq<Block> {
    if h.ejected || !h.writable || lba >= |h.image| then h.image
    else h.image[lba := if io.healthy == 0 then io.torn else data]
  }

  /** A delivery changes nothing, or is the write of this block to this sector. */
  predicate WritesThisBlock(h: Host, d: Delivery, lba: U64, data: Block) {
    Deliver(h, d) == if Executed(h, d) then h.(lastRequestId := LineId(d.line), image := Written(h, lba, data, d.io)) else h
  }

  lemma AttemptWrites(h: Host, d: Delivery, id: U64, session: string, lba: U64, data: Block)
    requires HelloFirst(h) && Token(h.sessionId) && Token(session) && id != 0
    requires d.line == OperationText(WriteBlock(lba, data), id, session)
    ensures WritesThisBlock(h, d, lba, data)
  {
    hide OperationText, MessageText, Executed, Host.Dispatch, LineId, ReplyText;
    var m := Write(id, session, lba, data);
    Coherence.OperationTextIsMessage(WriteBlock(lba, data), id, session);
    DispatchOfMessage(h, m, d.io);
    DispatchAdvances(h, d);
    hide Admitted;
  }

  // ---- All attempts --------------------------------------------------------

  /** The executed deliveries of the given lines, in order. */
  function Attempts(h: Host, deliveries: seq<Delivery>, lines: seq<string>): seq<string> {
    if deliveries == [] then []
    else
      var last := |deliveries| - 1;
      var attempts := Attempts(h, deliveries[..last], lines);
      if deliveries[last].line in lines && Executed(HostAfter(h, deliveries[..last]), deliveries[last])
      then attempts + [deliveries[last].line] else attempts
  }

  predicate NoTwice(s: seq<string>) { forall i, j :: 0 <= i < j < |s| ==> s[i] != s[j] }

  lemma {:induction false} AttemptsDiffer(h: Host, deliveries: seq<Delivery>, lines: seq<string>)
    requires HelloFirst(h)
    ensures var attempts := Attempts(h, deliveries, lines);
            NoTwice(attempts) && (forall t <- attempts :: t in lines && LineId(t) <= HostAfter(h, deliveries).lastRequestId)
  {
    hide Deliver, Executed, Admitted, LineId;
    if deliveries != [] {
      var last := |deliveries| - 1;
      AttemptsDiffer(h, deliveries[..last], lines);
      HostExecutesOnce(h, deliveries[..last]);
      DispatchAdvances(HostAfter(h, deliveries[..last]), deliveries[last]);
    }
  }

  /** A sequence without repetition, taken from lines, is no longer than lines. */
  lemma {:induction false} NoMoreThan(s: seq<string>, lines: seq<string>)
    requires NoTwice(s) && forall t <- s :: t in lines
    ensures |s| <= |lines|
  {
    if s != [] {
      assert s[0] in s;
      var i :| 0 <= i < |lines| && lines[i] == s[0];
      var rest := lines[..i] + lines[i + 1..];
      forall t <- s[1..] ensures t in rest {
        assert t in s;
        var k :| 0 <= k < |lines| && lines[k] == t;
        assert k != i;
        assert t == rest[if k < i then k else k - 1];
      }
      NoMoreThan(s[1..], rest);
    }
  }

  lemma {:induction false} HostKeepsSession(h: Host, deliveries: seq<Delivery>)
    requires HelloFirst(h)
    ensures HostAfter(h, deliveries).sessionId == h.sessionId && HelloFirst(HostAfter(h, deliveries))
  {
    if deliveries != [] {
      var last := |deliveries| - 1;
      HostKeepsSession(h, deliveries[..last]);
      DeliverKeepsSession(HostAfter(h, deliveries[..last]), deliveries[last]);
      DispatchAdvances(HostAfter(h, deliveries[..last]), deliveries[last]);
    }
    hide Deliver, Executed, Admitted, LineId;
  }

  lemma DeliverKeepsSession(h: Host, d: Delivery)
    ensures Deliver(h, d).sessionId == h.sessionId
  {
    hide Parse, ParseU64, Host.Execute, TextLine.ValueFor, ErrorText;
    if Parse(d.line).Ok? {
      var line := Parse(d.line).value;
      forall id: U64 ensures h.(lastRequestId := id).Execute(line, line.ValueFor("id"), d.io).0.sessionId == h.sessionId {
        ExecuteKeepsIds(h.(lastRequestId := id), line, line.ValueFor("id"), d.io);
      }
    }
  }

  /**
   * A write that start() has issued and the coordinator retries: whatever responses arrive, and
   * whatever lines reach the host, in any order and with any repetition, the host executes at
   * most maximum_retries + 1 of its request lines, none of them twice, and every delivery of one
   * of them is the write of this block to this sector or changes nothing.
   */
  lemma RetainedWriteIsOneWrite(
    c: Coordinator, lba: U64, data: Block, now: U64, client: Client, events: seq<B.Event>, h: Host, deliveries: seq<Delivery>)
    requires CoordinatorInv(c) && Token(client.sessionId) && c.Start(WriteBlock(lba, data), now, client).2.error == NoError
    requires HelloFirst(h) && Token(h.sessionId)
    ensures var (c', client', request) := c.Start(WriteBlock(lba, data), now, client);
            var lines := B.Run(B.Progress(c', client', [request.line], now), events).lines;
            var attempts := Attempts(h, deliveries, lines);
            && |attempts| <= |lines| <= c.retry.maximumRetries + 1 && NoTwice(attempts)
            && forall k | 0 <= k < |deliveries| && deliveries[k].line in lines ::
                 WritesThisBlock(HostAfter(h, deliveries[..k]), deliveries[k], lba, data)
  {
    hide Coordinator.Start, B.Run, OperationText, WritesThisBlock, Attempts, HostAfter, NoTwice;
    var op := WriteBlock(lba, data);
    StartFacts(c, op, now, client);
    var (c', client', request) := c.Start(op, now, client);
    var lines := B.Run(B.Progress(c', client', [request.line], now), events).lines;
    B.StartedIsBounded(c, op, now, client, events);
    AttemptsDiffer(h, deliveries, lines);
    NoMoreThan(Attempts(h, deliveries, lines), lines);
    forall k | 0 <= k < |deliveries| && deliveries[k].line in lines
      ensures WritesThisBlock(HostAfter(h, deliveries[..k]), deliveries[k], lba, data)
    {
      HostKeepsSession(h, deliveries[..k]);
      var i :| 0 <= i < |lines| && lines[i] == deliveries[k].line;
      var id: U64 :| id != 0 && lines[i] == OperationText(op, id, client.sessionId);
      AttemptWrites(HostAfter(h, deliveries[..k]), deliveries[k], id, client.sessionId, lba, data);
    }
  }

  /** The same for the client of any run of calls: what start() accepts is already in a named session. */
  lemma RetainedWriteInEveryRun(
    calls: seq<ClientCall>, c: Coordinator, lba: U64, data: Block, now: U64, events: seq<B.Event>, h: Host, deliveries: seq<Delivery>)
    requires CoordinatorInv(c) && c.Start(WriteBlock(lba, data), now, Calls(calls).client).2.error == NoError
    requires HelloFirst(h) && Token(h.sessionId)
    ensures var (c', client', request) := c.Start(WriteBlock(lba, data), now, Calls(calls).client);
            c'.Valid() &&
            var lines := B.Run(B.Progress(c', client', [request.line], now), events).lines;
            var attempts := Attempts(h, deliveries, lines);
            && |attempts| <= |lines| <= c.retry.maximumRetries + 1 && NoTwice(attempts)
            && forall k | 0 <= k < |deliveries| && deliveries[k].line in lines ::
                 WritesThisBlock(HostAfter(h, deliveries[..k]), deliveries[k], lba, data)
  {
    hide Coordinator.Start, B.Run, OperationText, WritesThisBlock, Attempts, HostAfter, NoTwice, Calls, Token;
    var client := Calls(calls).client;
    EverySessionIsToken(calls);
    StartFacts(c, WriteBlock(lba, data), now, client);
    RetainedWriteIsOneWrite(c, lba, data, now, client, events, h, deliveries);
  }
}
