/** FLUSH and EJECT, from the client's request through the host to the accepted answer. */
module MediumCommands {
  import opened Basics
  import opened Numerals
  import opened TextLines
  import opened TextLineTheory
  import opened SessionClient
  import opened SessionDispatcher
  import opened Wire
  import opened WireReplies
  import opened AtMostOnce
  import opened HostCommands

  function IdAndSession(id: U64, session: string): seq<Field> {
    [Field("id", ToDecimal(id)), Field("session", session)]
  }

  /** A request without further fields reads back as its command, id and session. */
  lemma PlainRequestParses(command: string, id: U64, session: string)
    requires Name(command) && Token(session)
    ensures var parsed := Parse(RequestText(command, id, session, ""));
            Reads(parsed, command, IdAndSession(id, session))
  {
    hide Parse, ToDecimal, Line, WellFormedFields, Reads, Token, Name;
    PrintableDecimal(id);
    DecimalToken(id);
    KeyNames();
    PairWellFormed(ToDecimal(id), "session", session);
    HeadText(command, ToDecimal(id), session);
    LineReads(command, IdAndSession(id, session));
  }

  lemma MediumNames()
    ensures Name("FLUSH") && Name("EJECT")
  {}

  /** A client and a host in the same session, with an id left that the host has not seen. */
  predicate InSession(c: Client, h: Host) {
    c.negotiated && !c.RequestPending() && c.nextId != 0 && Token(c.sessionId)
    && h.established && h.sessionId == c.sessionId && h.lastRequestId < c.nextId
  }

  /** FLUSH or EJECT, as the client begins them. */
  function Begin(c: Client, eject: bool): (Client, Request) { if eject then c.BeginEject() else c.BeginFlush() }

  function CommandOf(eject: bool): string { if eject then "EJECT" else "FLUSH" }

  lemma RequestGoesOut(c: Client, h: Host, eject: bool)
    requires InSession(c, h)
    ensures var command := CommandOf(eject);
            var line := RequestText(command, c.nextId, c.sessionId, "");
            && Begin(c, eject) == (c.Reserve(false), Request(NoError, line))
            && Admitted(h, line) && !IsHello(LineOf(line)) && LineOf(line).Command() == command && Shown(line) == ToDecimal(c.nextId)
            && LineId(line) == c.nextId
  {
    hide Parse, ToDecimal, ParseU64, Token, RequestText, TextLine.ValueFor, TextLine.Command;
    MediumNames();
    PrintableDecimal(c.nextId);
    var command := CommandOf(eject);
    PlainRequestParses(command, c.nextId, c.sessionId);
    var parsed := Parse(RequestText(command, c.nextId, c.sessionId, ""));
    ReadsAt(parsed, command, IdAndSession(c.nextId, c.sessionId), 0);
    ReadsAt(parsed, command, IdAndSession(c.nextId, c.sessionId), 1);
    assert Token(c.sessionId) ==> c.sessionId != "" by { SessionsAreNamed(c.sessionId); }
  }

  lemma SessionsAreNamed(session: string)
    ensures Token(session) ==> session != ""
  {}

  /** What the host makes of it. */
  lemma HostFlushes(h: Host, line: TextLine, id: string, io: ImageIo, eject: bool)
    requires line.Command() == CommandOf(eject) && (eject || !h.ejected)
    ensures h.Execute(line, id, io)
         == if io.flushes then (h.(ejected := eject || h.ejected), "OK id=" + id + " session=" + h.sessionId)
            else (h, "ERR id=" + (if id == "" then "0" else id) + " code=IO_ERROR")
  {
    hide TextLine.Command, Host.ReadBlocks, Host.WriteBlocks;
    assert ErrorText(id, "IO_ERROR") == "ERR id=" + (if id == "" then "0" else id) + " code=IO_ERROR" by {
      assert " code=" + "IO_ERROR" == " code=IO_ERROR";
      var head := "ERR id=" + (if id == "" then "0" else id);
      assert head + " code=" + "IO_ERROR" == head + (" code=" + "IO_ERROR");
    }
  }

  /**
   * FLUSH and EJECT round trip: the request the client begins is executed by a host in the same
   * session; the client accepts its answer as success exactly if the image file could be flushed,
   * and otherwise as an IO_ERROR; the medium is ejected exactly by a successful EJECT, and no block
   * changes.
   */
  lemma MediumRoundTrip(c: Client, h: Host, io: ImageIo, eject: bool)
    requires InSession(c, h) && (eject || !h.ejected)
    ensures var (begun, request) := Begin(c, eject);
            var (h', answer) := h.Dispatch(request.line, io);
            var (done, error) := begun.AcceptResponse(answer);
            && request.error == NoError
            && h' == h.(lastRequestId := c.nextId, ejected := h.ejected || (eject && io.flushes))
            && !done.RequestPending()
            && (if io.flushes then error == NoError else error == RemoteError && done.remoteError == IoError)
  {
    hide Parse, ToDecimal, Token, RequestText, TextLine.ValueFor, TextLine.Command, Host.Dispatch, Host.Execute, Admitted, LineOf,
      Shown, IsHello, LineId, Client.AcceptResponse, ReplyText, DecodeRemoteError, Begin;
    var line := RequestText(CommandOf(eject), c.nextId, c.sessionId, "");
    RequestGoesOut(c, h, eject);
    AdmittedIsExecuted(h, line, io);
    HostFlushes(h.(lastRequestId := c.nextId), LineOf(line), Shown(line), io, eject);
    PrintableDecimal(c.nextId);
    IoErrorDecodes();
    AnswerTexts(c.nextId, c.sessionId);
    var begun := c.Reserve(false);
    AcceptOfReply(begun, if io.flushes then Done(c.nextId, c.sessionId) else Refusal(c.nextId, "IO_ERROR"));
  }

  lemma IoErrorDecodes()
    ensures DecodeRemoteError("IO_ERROR") == IoError && Token("IO_ERROR")
  {}

  lemma AnswerTexts(id: U64, session: string)
    ensures ReplyText(Done(id, session)) == "OK id=" + ToDecimal(id) + " session=" + session
    ensures ReplyText(Refusal(id, "IO_ERROR")) == "ERR id=" + ToDecimal(id) + " code=IO_ERROR"
    ensures ToDecimal(id) != ""
  {
    DecimalRoundTrip(id);
    hide ToDecimal;
    var head := "ERR id=" + ToDecimal(id);
    assert head + " code=" + "IO_ERROR" == head + (" code=" + "IO_ERROR");
    assert " code=" + "IO_ERROR" == " code=IO_ERROR";
  }
}
