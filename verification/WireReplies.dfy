/** The client and the read decoder understand the text of every reply as that reply. */
module WireReplies {
  import opened Basics
  import Crc
  import Codec
  import opened Numerals
  import opened TextLines
  import opened TextLineTheory
  import opened SessionClient
  import opened BlockResponse
  import opened SessionDispatcher
  import opened Wire

  function ReplyCommand(r: Reply): string { if r.Refusal? then "ERR" else "OK" }

  function InfoFields(cardType: string, blocks: string, size: string, readonly: string): seq<Field> {
    [Field("present", "1"), Field("type", cardType), Field("blocks", blocks), Field("block_size", "512"),
     Field("max_blocks", size), Field("readonly", readonly), Field("generation", "1")]
  }

  function ReplyFields(r: Reply): seq<Field> {
    var id := Field("id", ToDecimal(r.id));
    match r
    case Welcome(_, session) => [id, Field("version", "0.1"), Field("session", session)]
    case InfoReply(_, session, cardType, blocks, readOnly) =>
      [id, Field("session", session)]
      + InfoFields(cardType, ToDecimal(blocks), ToDecimal(MAXIMUM_TRANSFER_BLOCKS), if readOnly then "1" else "0")
    case BlockReply(_, session, lba, data) =>
      BlockFields(ToDecimal(r.id), session, ToDecimal(lba), ToDecimal(1))
      + [Field("crc32", ChecksumText(data)), Field("data", Codec.Encode(data))]
    case Done(_, session) => [id, Field("session", session)]
    case Refusal(_, code) => [id, Field("code", code)]
  }

  // ---- Reply lines ---------------------------------------------------------

  lemma InfoKeys()
    ensures Name("present") && Name("type") && Name("blocks") && Name("block_size") && Name("max_blocks")
    ensures Name("readonly") && Name("generation")
  {}

  lemma ReplyNames()
    ensures Name("code") && Name("OK") && Name("ERR")
    ensures Token("0") && Token("1") && Token("512")
  {}

  lemma WelcomeIsLine(id: string, session: string)
    ensures "OK id=" + id + " version=0.1 session=" + session
         == Line("OK", [Field("id", id), Field("version", "0.1"), Field("session", session)])
  {
    EmptyLine("OK");
    Append("OK", [], "id", id, " id=");
    assert [] + [Field("id", id)] == [Field("id", id)];
    Append("OK", [Field("id", id)], "version", "0.1", " version=");
    var f2 := [Field("id", id)] + [Field("version", "0.1")];
    Append("OK", f2, "session", session, " session=");
    assert f2 + [Field("session", session)] == [Field("id", id), Field("version", "0.1"), Field("session", session)];
    assert "OK id=" == "OK" + " id=";
    assert " version=0.1 session=" == " version=" + "0.1" + " session=";
    assert "OK id=" + id + (" version=" + "0.1" + " session=") + session
        == "OK" + " id=" + id + " version=" + "0.1" + " session=" + session;
  }

  lemma DoneIsLine(id: string, session: string)
    ensures "OK id=" + id + " session=" + session == Line("OK", [Field("id", id), Field("session", session)])
  {
    HeadText("OK", id, session);
    assert "OK id=" == "OK" + " id=";
  }

  lemma RefusalIsLine(id: string, code: string)
    ensures "ERR id=" + id + " code=" + code == Line("ERR", [Field("id", id), Field("code", code)])
  {
    EmptyLine("ERR");
    Append("ERR", [], "id", id, " id=");
    assert [] + [Field("id", id)] == [Field("id", id)];
    Append("ERR", [Field("id", id)], "code", code, " code=");
    assert [Field("id", id)] + [Field("code", code)] == [Field("id", id), Field("code", code)];
    assert "ERR id=" == "ERR" + " id=";
  }

  lemma BlockReplyIsLine(id: string, session: string, lba: string, count: string, crc: string, data: string)
    ensures "OK id=" + id + " session=" + session + " lba=" + lba + " count=" + count
            + " encoding=BASE64 crc32=" + crc + " data=" + data
         == Line("OK", BlockFields(id, session, lba, count) + [Field("crc32", crc), Field("data", data)])
  {
    BlockText("OK", id, session, lba, count);
    DataText("OK", BlockFields(id, session, lba, count), crc, data);
    assert "OK id=" == "OK" + " id=";
    var head := "OK id=" + id + " session=" + session + " lba=" + lba + " count=" + count;
    assert " encoding=BASE64 crc32=" == " encoding=" + "BASE64" + " crc32=";
    assert head + (" encoding=" + "BASE64" + " crc32=") == head + " encoding=" + "BASE64" + " crc32=";
  }

  lemma InfoReplyIsLine(head: seq<Field>, text: string, cardType: string, blocks: string, size: string, readonly: string)
    requires text == Line("OK", head)
    ensures text + (" present=1 type=" + cardType + " blocks=" + blocks + " block_size=512 max_blocks=" + size
                    + " readonly=" + readonly + " generation=1")
         == Line("OK", head + InfoFields(cardType, blocks, size, readonly))
  {
    hide Line;
    var f1 := head + [Field("present", "1")];
    var f2 := f1 + [Field("type", cardType)];
    var f3 := f2 + [Field("blocks", blocks)];
    var f4 := f3 + [Field("block_size", "512")];
    var f5 := f4 + [Field("max_blocks", size)];
    var f6 := f5 + [Field("readonly", readonly)];
    var f7 := f6 + [Field("generation", "1")];
    Append("OK", head, "present", "1", " present=");
    Append("OK", f1, "type", cardType, " type=");
    Append("OK", f2, "blocks", blocks, " blocks=");
    Append("OK", f3, "block_size", "512", " block_size=");
    Append("OK", f4, "max_blocks", size, " max_blocks=");
    Append("OK", f5, "readonly", readonly, " readonly=");
    Append("OK", f6, "generation", "1", " generation=");
    assert f7 == head + InfoFields(cardType, blocks, size, readonly);
    InfoTail(text, cardType, blocks, size, readonly);
  }

  lemma InfoTail(text: string, cardType: string, blocks: string, size: string, readonly: string)
    ensures text + (" present=1 type=" + cardType + " blocks=" + blocks + " block_size=512 max_blocks=" + size
                    + " readonly=" + readonly + " generation=1")
         == text + " present=" + "1" + " type=" + cardType + " blocks=" + blocks + " block_size=" + "512"
            + " max_blocks=" + size + " readonly=" + readonly + " generation=" + "1"
  {
    var a1 := " present=1 type=" + cardType;
    var a2 := a1 + " blocks=";
    var a3 := a2 + blocks;
    var a4 := a3 + " block_size=512 max_blocks=";
    var a5 := a4 + size;
    var a6 := a5 + " readonly=";
    var a7 := a6 + readonly;
    Push(text, " present=1 type=", cardType);
    Push(text, a1, " blocks=");
    Push(text, a2, blocks);
    Push(text, a3, " block_size=512 max_blocks=");
    Push(text, a4, size);
    Push(text, a5, " readonly=");
    Push(text, a6, readonly);
    Push(text, a7, " generation=1");
    assert " present=1 type=" == " present=" + "1" + " type=";
    assert " block_size=512 max_blocks=" == " block_size=" + "512" + " max_blocks=";
    assert " generation=1" == " generation=" + "1" + "";
    Literal(text, " present=", "1", " type=");
    Literal(text + a3, " block_size=", "512", " max_blocks=");
    Literal(text + a7, " generation=", "1", "");
    assert text + a7 + " generation=" + "1" + "" == text + a7 + " generation=" + "1";
  }

  lemma Push(text: string, front: string, x: string)
    ensures text + (front + x) == text + front + x
  {}

  lemma Literal(text: string, a: string, b: string, c: string)
    ensures text + (a + b + c) == text + a + b + c
  {}

  lemma ReplyIsLine(r: Reply)
    ensures ReplyText(r) == Line(ReplyCommand(r), ReplyFields(r))
  {
    hide ToDecimal, ChecksumText, Codec.Encode, Line;
    var id := ToDecimal(r.id);
    match r
    case Welcome(_, session) => WelcomeIsLine(id, session);
    case InfoReply(_, session, cardType, blocks, readOnly) =>
      DoneIsLine(id, session);
      var head := [Field("id", id), Field("session", session)];
      InfoReplyIsLine(head, "OK id=" + id + " session=" + session, cardType, ToDecimal(blocks),
                      ToDecimal(MAXIMUM_TRANSFER_BLOCKS), if readOnly then "1" else "0");
    case BlockReply(_, session, lba, data) =>
      BlockReplyIsLine(id, session, ToDecimal(lba), ToDecimal(1), ChecksumText(data), Codec.Encode(data));
    case Done(_, session) => DoneIsLine(id, session);
    case Refusal(_, code) => RefusalIsLine(id, code);
  }

  // ---- Reply fields --------------------------------------------------------

  lemma InfoFieldsWellFormed(head: seq<Field>, cardType: string, blocks: string, size: string, readonly: string)
    requires WellFormedFields(head) && |head| == 2 && head[0].key == "id" && head[1].key == "session"
    requires Token(cardType) && Token(blocks) && Token(size) && Token(readonly)
    ensures WellFormedFields(head + InfoFields(cardType, blocks, size, readonly))
  {
    InfoKeys();
    ReplyNames();
    hide Name, Token;
    var f1 := head + [Field("present", "1")];
    var f2 := f1 + [Field("type", cardType)];
    var f3 := f2 + [Field("blocks", blocks)];
    var f4 := f3 + [Field("block_size", "512")];
    var f5 := f4 + [Field("max_blocks", size)];
    var f6 := f5 + [Field("readonly", readonly)];
    AddField(head, "present", "1");
    AddField(f1, "type", cardType);
    AddField(f2, "blocks", blocks);
    AddField(f3, "block_size", "512");
    AddField(f4, "max_blocks", size);
    AddField(f5, "readonly", readonly);
    AddField(f6, "generation", "1");
    assert f6 + [Field("generation", "1")] == head + InfoFields(cardType, blocks, size, readonly);
  }

  lemma WelcomeFieldsWellFormed(id: string, session: string)
    requires Token(id) && Token(session)
    ensures WellFormedFields([Field("id", id), Field("version", "0.1"), Field("session", session)])
  {
    KeyNames();
    ValueTokens();
    PairWellFormed(id, "version", "0.1");
    var f2 := [Field("id", id), Field("version", "0.1")];
    AddField(f2, "session", session);
    assert f2 + [Field("session", session)] == [Field("id", id), Field("version", "0.1"), Field("session", session)];
  }

  lemma DecimalToken(n: nat)
    ensures Token(ToDecimal(n))
  {
    DecimalDigits(n);
  }

  lemma InfoReplyWellFormed(r: Reply)
    requires r.InfoReply? && ValidReply(r)
    ensures WellFormedFields(ReplyFields(r))
  {
    DecimalToken(r.id);
    DecimalToken(r.blocks);
    DecimalToken(MAXIMUM_TRANSFER_BLOCKS);
    KeyNames();
    ReplyNames();
    hide Name, Token, Printable, ToDecimal;
    var id := ToDecimal(r.id);
    PairWellFormed(id, "session", r.session);
    InfoFieldsWellFormed([Field("id", id), Field("session", r.session)], r.cardType, ToDecimal(r.blocks),
                         ToDecimal(MAXIMUM_TRANSFER_BLOCKS), if r.readOnly then "1" else "0");
    hide WellFormedFields;
  }

  lemma BlockReplyWellFormed(r: Reply)
    requires r.BlockReply? && ValidReply(r)
    ensures WellFormedFields(ReplyFields(r))
  {
    DecimalToken(r.id);
    DecimalToken(r.lba);
    DecimalToken(1);
    PrintablePayload(r.data);
    hide Name, Token, Printable, ToDecimal, Codec.Encode, ChecksumText;
    BlockFieldsWellFormed(ToDecimal(r.id), r.session, ToDecimal(r.lba), ToDecimal(1));
    DataFieldsWellFormed(BlockFields(ToDecimal(r.id), r.session, ToDecimal(r.lba), ToDecimal(1)),
                         ChecksumText(r.data), Codec.Encode(r.data));
    hide WellFormedFields;
  }

  lemma ReplyWellFormed(r: Reply)
    requires ValidReply(r)
    ensures Name(ReplyCommand(r)) && WellFormedFields(ReplyFields(r))
  {
    KeyNames();
    ReplyNames();
    DecimalToken(r.id);
    hide Name, Token, Printable, ToDecimal, WellFormedFields;
    var id := ToDecimal(r.id);
    match r
    case Welcome(_, session) => WelcomeFieldsWellFormed(id, session);
    case InfoReply(_, _, _, _, _) => InfoReplyWellFormed(r);
    case BlockReply(_, _, _, _) => BlockReplyWellFormed(r);
    case Done(_, session) => PairWellFormed(id, "session", session);
    case Refusal(_, code) => PairWellFormed(id, "code", code);
  }

  /** What the client and the decoder look up in a reply line. */
  ghost predicate ReplyValues(r: Reply, line: TextLine) {
    line.Command() == ReplyCommand(r)
    && line.ValueFor("id") == ToDecimal(r.id)
    && line.ValueFor("session") == (if r.Refusal? then "" else r.session)
    && line.ValueFor("version") == (if r.Welcome? then "0.1" else "")
    && (r.Refusal? ==> line.ValueFor("code") == r.code)
    && line.ValueFor("lba") == (if r.BlockReply? then ToDecimal(r.lba) else "")
    && (r.BlockReply? ==>
          line.ValueFor("count") == ToDecimal(1) && line.ValueFor("encoding") == "BASE64"
          && line.ValueFor("crc32") == ChecksumText(r.data) && line.ValueFor("data") == Codec.Encode(r.data))
  }

  lemma ReadsAt(parsed: Parsed, command: string, fields: seq<Field>, i: nat)
    requires Reads(parsed, command, fields) && i < |fields|
    ensures parsed.value.ValueFor(fields[i].key) == fields[i].value
  {}

  lemma ReadsNothing(parsed: Parsed, command: string, fields: seq<Field>, key: string)
    requires Reads(parsed, command, fields) && Lacks(fields, key)
    ensures parsed.value.ValueFor(key) == ""
  {}

  predicate Lacks(fields: seq<Field>, key: string) { forall f <- fields :: f.key != key }

  lemma OptionalFields(r: Reply)
    ensures r.Refusal? ==> Lacks(ReplyFields(r), "session")
    ensures !r.Welcome? ==> Lacks(ReplyFields(r), "version")
    ensures !r.BlockReply? ==> Lacks(ReplyFields(r), "lba")
  {
    hide ToDecimal, ChecksumText, Codec.Encode;
  }

  lemma ValuesOfReply(r: Reply, parsed: Parsed)
    requires Reads(parsed, ReplyCommand(r), ReplyFields(r))
    ensures ReplyValues(r, parsed.value)
  {
    hide ToDecimal, ChecksumText, Codec.Encode, Lacks;
    var command, fields := ReplyCommand(r), ReplyFields(r);
    OptionalFields(r);
    ReadsAt(parsed, command, fields, 0);
    ReadsAt(parsed, command, fields, 1);
    if r.Welcome? {
      ReadsAt(parsed, command, fields, 2);
    } else {
      ReadsNothing(parsed, command, fields, "version");
    }
    if r.Refusal? {
      ReadsNothing(parsed, command, fields, "session");
    }
    if r.BlockReply? {
      ReadsAt(parsed, command, fields, 2);
      ReadsAt(parsed, command, fields, 3);
      ReadsAt(parsed, command, fields, 4);
      ReadsAt(parsed, command, fields, 5);
      ReadsAt(parsed, command, fields, 6);
    } else {
      ReadsNothing(parsed, command, fields, "lba");
    }
    hide Reads;
  }

  lemma ReplyParses(r: Reply)
    requires ValidReply(r)
    ensures Parse(ReplyText(r)).Ok? && ReplyValues(r, Parse(ReplyText(r)).value)
  {
    hide ReplyFields, Line, Parse, ReplyText, WellFormedFields, ReplyValues;
    ReplyIsLine(r);
    ReplyWellFormed(r);
    LineReads(ReplyCommand(r), ReplyFields(r));
    var parsed := Parse(ReplyText(r));
    ValuesOfReply(r, parsed);
  }

  // ---- The client on replies -----------------------------------------------

  /** accept_response for the reply itself. */
  function Receive(c: Client, r: Reply): (Client, ClientError) {
    if !c.RequestPending() || r.id != c.pendingId then (c, MismatchedResponse)
    else if r.Refusal? then
      (c.Settle().(remoteError := DecodeRemoteError(r.code), remoteErrorCode := r.code), RemoteError)
    else if c.pendingHandshake then
      if !r.Welcome? then (c, InvalidResponse)
      else (c.Settle().(sessionId := r.session, negotiated := true), NoError)
    else if r.session != c.sessionId then (c, MismatchedResponse)
    else (c.Settle(), NoError)
  }

  /** Accepting the text of a reply is receiving the reply. */
  lemma AcceptOfReply(c: Client, r: Reply)
    requires ValidReply(r)
    ensures c.AcceptResponse(ReplyText(r)) == Receive(c, r)
  {
    hide ToDecimal, ChecksumText, Codec.Encode, Parse, ParseU64, ReplyText, TextLine.ValueFor, TextLine.Command,
      DecodeRemoteError;
    ReplyParses(r);
    PrintableDecimal(r.id);
  }

  /** The read decoder gives back exactly the sector and block of a block reply, and nothing else. */
  lemma DecodeOfReply(r: Reply)
    requires ValidReply(r)
    ensures DecodeReadBlock(ReplyText(r)).Ok? <==> r.BlockReply?
    ensures r.BlockReply? ==> DecodeReadBlock(ReplyText(r)) == Ok(ReadBlock(r.lba, r.data))
  {
    hide ToDecimal, ChecksumText, Codec.Encode, Codec.Decode, Parse, ParseU64, ParseHex32, ReplyText,
      TextLine.ValueFor, TextLine.Command, Crc.Crc32;
    ReplyParses(r);
    if r.BlockReply? {
      PrintableDecimal(r.lba);
      PrintableDecimal(1);
      PrintablePayload(r.data);
    }
  }

  lemma SizeNumerals()
    ensures ParseU64("512") == Some(BLOCK_SIZE) && ParseU64("1") == Some(1)
  {
    CountIsOne();
    DecimalRoundTrip(512);
    assert ToDecimal(512) == "512" by {
      assert ToDecimal(5) == "5" && ToDecimal(51) == "51";
    }
  }

  /** What the media decoder looks up in an information reply. */
  ghost predicate InfoValues(r: Reply, line: TextLine)
    requires r.InfoReply?
  {
    line.Command() == "OK" && line.ValueFor("present") == "1" && line.ValueFor("blocks") == ToDecimal(r.blocks)
    && line.ValueFor("block_size") == "512" && line.ValueFor("readonly") == (if r.readOnly then "1" else "0")
    && line.ValueFor("generation") == "1"
  }

  lemma InfoReplyParses(r: Reply)
    requires ValidReply(r) && r.InfoReply?
    ensures Parse(ReplyText(r)).Ok? && InfoValues(r, Parse(ReplyText(r)).value)
  {
    hide ToDecimal, Parse, ReplyText, TextLine.ValueFor, TextLine.Command, Line, Reads, WellFormedFields, ValidReply;
    var fields := ReplyFields(r);
    ReplyIsLine(r);
    ReplyWellFormed(r);
    LineReads("OK", fields);
    var parsed := Parse(ReplyText(r));
    ReadsCommand(parsed, "OK", fields);
    ReadsAt(parsed, "OK", fields, 2);
    ReadsAt(parsed, "OK", fields, 4);
    ReadsAt(parsed, "OK", fields, 5);
    ReadsAt(parsed, "OK", fields, 7);
    ReadsAt(parsed, "OK", fields, 8);
  }

  /** The media decoder reads the medium of an information reply, and refuses an empty one. */
  lemma DecodeOfInfo(r: Reply)
    requires ValidReply(r) && r.InfoReply? && r.blocks <= MAX_U64
    ensures DecodeMediaInfo(ReplyText(r))
         == if r.blocks == 0 then Err(InvalidField) else Ok(MediaInfo(true, r.readOnly, r.blocks, 1))
  {
    hide ToDecimal, Parse, ParseU64, ReplyText, TextLine.ValueFor, TextLine.Command, ValidReply;
    InfoReplyParses(r);
    PrintableDecimal(r.blocks);
    SizeNumerals();
  }

  lemma ReadsCommand(parsed: Parsed, command: string, fields: seq<Field>)
    requires Reads(parsed, command, fields)
    ensures parsed.Ok? && parsed.value.Command() == command
  {}

  // ---- The wire round trip -------------------------------------------------

  /** Handling a message answers with a reply to that message's id that the wire can carry. */
  lemma HandleIsValid(h: Host, m: Message, io: ImageIo)
    requires ValidMessage(m) && Token(h.sessionId) && Token(h.cardType)
    ensures ValidReply(Handle(h, m, io).1) && Handle(h, m, io).1.id == m.id
  {
    RefusalCodes();
    hide Token;
  }

  lemma RefusalCodes()
    ensures Token("STALE_ID") && Token("HANDSHAKE_REQUIRED") && Token("BAD_SESSION") && Token("NO_MEDIA")
    ensures Token("RANGE") && Token("IO_ERROR") && Token("READ_ONLY")
  {}

  /** What one end writes on the wire the other end reads back whole. */
  ghost predicate FreshInSession(h: Host, c: Client) {
    h.established && !h.ejected && c.negotiated && !c.RequestPending() && c.nextId != 0
    && c.sessionId == h.sessionId && Token(h.sessionId) && Token(h.cardType) && c.nextId > h.lastRequestId
  }

  /**
   * begin_write_block's line, dispatched, stores exactly that block in that sector and nothing
   * else, and the client accepts the response.
   */
  lemma WriteRoundTrip(h: Host, c: Client, lba: U64, data: Block, io: ImageIo)
    requires FreshInSession(h, c) && h.writable && lba < |h.image| && io.healthy > 0
    ensures var (c', request) := c.BeginWriteBlock(lba, data);
            var (h', response) := h.Dispatch(request.line, io);
            request.error == NoError
            && h' == h.(image := h.image[lba := data], lastRequestId := c.nextId)
            && c'.AcceptResponse(response) == (c'.Settle(), NoError)
  {
    hide Client.BeginRequest, Client.AcceptResponse, Host.Dispatch, MessageText, ReplyText;
    var m := Write(c.nextId, c.sessionId, lba, data);
    BeginIsMessage(c, m);
    DispatchOfMessage(h, m, io);
    HandleIsValid(h, m, io);
    AcceptOfReply(c.Reserve(false), Handle(h, m, io).1);
  }

  /** begin_read_block's line, dispatched, comes back as that sector and the image's own bytes. */
  lemma ReadRoundTrip(h: Host, c: Client, lba: U64, io: ImageIo)
    requires FreshInSession(h, c) && lba < |h.image| && io.healthy > 0
    ensures var (c', request) := c.BeginReadBlock(lba);
            var (h', response) := h.Dispatch(request.line, io);
            request.error == NoError
            && h' == h.(lastRequestId := c.nextId)
            && DecodeReadBlock(response) == Ok(ReadBlock(lba, h.image[lba]))
            && c'.AcceptResponse(response) == (c'.Settle(), NoError)
  {
    hide Client.BeginRequest, Client.AcceptResponse, Host.Dispatch, MessageText, ReplyText, DecodeReadBlock;
    var m := Read(c.nextId, c.sessionId, lba);
    BeginIsMessage(c, m);
    DispatchOfMessage(h, m, io);
    HandleIsValid(h, m, io);
    AcceptOfReply(c.Reserve(false), Handle(h, m, io).1);
    DecodeOfReply(Handle(h, m, io).1);
  }

  /** The typed builders never refuse their own line: it parses, with the command they gave. */
  lemma BeginIsMessage(c: Client, m: Message)
    requires c.negotiated && !c.RequestPending() && c.nextId != 0 && Token(c.sessionId)
    requires m.id == c.nextId && (m.Info? || m.Read? || m.Write?) && m.session == c.sessionId
    ensures var begun := if m.Info? then c.BeginGetInfo()
                         else if m.Read? then c.BeginReadBlock(m.lba) else c.BeginWriteBlock(m.lba, m.data);
            begun == (c.Reserve(false), Request(NoError, MessageText(m)))
  {
    hide Parse, RequestText, ReadFieldsText, WriteFieldsText, TextLine.Command, TextLine.ValueFor;
    MessageParses(m);
  }
}
