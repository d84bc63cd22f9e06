/**
 * The messages the two ends exchange, their text, and the proof that the text of one end is
 * understood by the other exactly as the message it stands for.
 */
module Wire {
  import opened Basics
  import Crc
  import Codec
  import opened Numerals
  import opened TextLines
  import opened TextLineTheory
  import opened SessionClient
  import opened SessionDispatcher

  // ---- Requests ------------------------------------------------------------

  datatype Message =
    | Hello(id: U64)
    | Info(id: U64, session: string)
    | Read(id: U64, session: string, lba: U64)
    | Write(id: U64, session: string, lba: U64, data: Block)

  /** The line the firmware sends for a message. */
  function MessageText(m: Message): string {
    match m
    case Hello(id) => HelloText(id)
    case Info(id, session) => RequestText("GET_INFO", id, session, "")
    case Read(id, session, lba) => RequestText("READ_BLOCKS", id, session, ReadFieldsText(lba))
    case Write(id, session, lba, data) => RequestText("WRITE_BLOCKS", id, session, WriteFieldsText(lba, data))
  }

  /** A session token is one non-empty printable word. */
  predicate Token(s: string) { s != "" && Printable(s) }

  predicate ValidMessage(m: Message) { m.id != 0 && (m.Hello? || Token(m.session)) }

  // ---- Responses -----------------------------------------------------------

  datatype Reply =
    | Welcome(id: U64, session: string)
    | InfoReply(id: U64, session: string, cardType: string, blocks: nat, readOnly: bool)
    | BlockReply(id: U64, session: string, lba: U64, data: Block)
    | Done(id: U64, session: string)
    | Refusal(id: U64, code: string)

  function ReplyText(r: Reply): string {
    match r
    case Welcome(id, session) => "OK id=" + ToDecimal(id) + " version=0.1 session=" + session
    case InfoReply(id, session, cardType, blocks, readOnly) =>
      "OK id=" + ToDecimal(id) + " session=" + session
      + (" present=1 type=" + cardType + " blocks=" + ToDecimal(blocks) + " block_size=512 max_blocks="
         + ToDecimal(MAXIMUM_TRANSFER_BLOCKS) + " readonly=" + (if readOnly then "1" else "0") + " generation=1")
    case BlockReply(id, session, lba, data) =>
      "OK id=" + ToDecimal(id) + " session=" + session + " lba=" + ToDecimal(lba) + " count=" + ToDecimal(1)
      + " encoding=BASE64 crc32=" + ChecksumText(data) + " data=" + Codec.Encode(data)
    case Done(id, session) => "OK id=" + ToDecimal(id) + " session=" + session
    case Refusal(id, code) => "ERR id=" + ToDecimal(id) + " code=" + code
  }

  predicate ValidReply(r: Reply) {
    r.id != 0
    && match r
       case Refusal(_, code) => Token(code)
       case InfoReply(_, session, cardType, _, _) => Token(session) && Token(cardType)
       case _ => Token(r.session)
  }

  // ---- The host on messages ------------------------------------------------

  function Handle(h: Host, m: Message, io: ImageIo): (Host, Reply) {
    if m.Hello? then
      if h.established && m.id <= h.lastRequestId then (h, Refusal(m.id, "STALE_ID"))
      else (h.(established := true, lastRequestId := m.id), Welcome(m.id, h.sessionId))
    else if !h.established then (h, Refusal(m.id, "HANDSHAKE_REQUIRED"))
    else if m.session != h.sessionId then (h, Refusal(m.id, "BAD_SESSION"))
    else if m.id <= h.lastRequestId then (h, Refusal(m.id, "STALE_ID"))
    else Perform(h.(lastRequestId := m.id), m, io)
  }

  /** A session message whose id has just been accepted. */
  function Perform(h: Host, m: Message, io: ImageIo): (Host, Reply)
    requires !m.Hello?
  {
    if h.ejected then (h, Refusal(m.id, "NO_MEDIA"))
    else
      match m
      case Info(id, _) => (h, InfoReply(id, h.sessionId, h.cardType, |h.image|, !h.writable))
      case Read(id, _, lba) =>
        if lba >= |h.image| then (h, Refusal(id, "RANGE"))
        else if io.healthy == 0 then (h, Refusal(id, "IO_ERROR"))
        else (h, BlockReply(id, h.sessionId, lba, h.image[lba]))
      case Write(id, _, lba, data) =>
        if !h.writable then (h, Refusal(id, "READ_ONLY"))
        else if lba >= |h.image| then (h, Refusal(id, "RANGE"))
        else if io.healthy == 0 then (h.(image := h.image[lba := io.torn]), Refusal(id, "IO_ERROR"))
        else (h.(image := h.image[lba := data]), Done(id, h.sessionId))
  }

  // ---- Texts as formatted lines --------------------------------------------

  lemma {:induction false} FieldsTextSnoc(fields: seq<Field>, f: Field)
    ensures FieldsText(fields + [f]) == FieldsText(fields) + (" " + FieldText(f))
  {
    if fields == [] {
      assert [f][1..] == [];
      assert fields + [f] == [f];
    } else {
      assert (fields + [f])[1..] == fields[1..] + [f];
      FieldsTextSnoc(fields[1..], f);
      var head := " " + FieldText(fields[0]);
      assert head + (FieldsText(fields[1..]) + (" " + FieldText(f)))
          == (head + FieldsText(fields[1..])) + (" " + FieldText(f));
    }
  }

  /** Appending " key=" and a value to a line appends a field to it. */
  lemma Append(command: string, fields: seq<Field>, key: string, value: string, separator: string)
    requires separator == " " + key + "="
    ensures Line(command, fields) + separator + value == Line(command, fields + [Field(key, value)])
  {
    FieldsTextSnoc(fields, Field(key, value));
    var text := FieldsText(fields);
    assert " " + (key + "=" + value) == separator + value;
    assert command + (text + (separator + value)) == command + text + separator + value;
  }

  lemma EmptyLine(command: string)
    ensures Line(command, []) == command
  {}

  lemma {:induction false} GetField(fields: seq<Field>, i: nat)
    requires i < |fields|
    requires forall a, b :: 0 <= a < b < |fields| ==> fields[a].key != fields[b].key
    ensures Get(fields, fields[i].key) == fields[i].value
  {
    if i > 0 {
      assert fields[0].key != fields[i].key;
      assert forall a, b :: 0 <= a < b < |fields| - 1 ==> fields[1..][a].key != fields[1..][b].key;
      GetField(fields[1..], i - 1);
    }
  }

  lemma {:induction false} GetMissing(fields: seq<Field>, key: string)
    requires forall f <- fields :: f.key != key
    ensures Get(fields, key) == ""
  {
    if fields != [] {
      GetMissing(fields[1..], key);
    }
  }

  /** The parsed form of a well-formed line: its command, its fields, and nothing else. */
  ghost predicate Reads(parsed: Parsed, command: string, fields: seq<Field>) {
    parsed.Ok? && parsed.value.Command() == command
    && (forall i :: 0 <= i < |fields| ==> parsed.value.ValueFor(fields[i].key) == fields[i].value)
    && (forall key :: (forall f <- fields :: f.key != key) ==> parsed.value.ValueFor(key) == "")
  }

  lemma LineReads(command: string, fields: seq<Field>)
    requires Name(command) && WellFormedFields(fields)
    ensures Reads(Parse(Line(command, fields)), command, fields)
  {
    ParseOfLine(command, fields);
    var parsed := Parse(Line(command, fields));
    forall i | 0 <= i < |fields| ensures parsed.value.ValueFor(fields[i].key) == fields[i].value {
      GetField(fields, i);
    }
    forall key | forall f <- fields :: f.key != key ensures parsed.value.ValueFor(key) == "" {
      GetMissing(fields, key);
    }
  }

  // ---- Request lines -------------------------------------------------------

  function MessageCommand(m: Message): string {
    match m
    case Hello(_) => "HELLO"
    case Info(_, _) => "GET_INFO"
    case Read(_, _, _) => "READ_BLOCKS"
    case Write(_, _, _, _) => "WRITE_BLOCKS"
  }

  function MessageFields(m: Message): seq<Field> {
    var id := Field("id", ToDecimal(m.id));
    match m
    case Hello(_) => [id, Field("version", "0.1")]
    case Info(_, session) => [id, Field("session", session)]
    case Read(_, session, lba) =>
      [id, Field("session", session), Field("lba", ToDecimal(lba)), Field("count", "1"), Field("encoding", "BASE64")]
    case Write(_, session, lba, data) =>
      [id, Field("session", session), Field("lba", ToDecimal(lba)), Field("count", "1"), Field("encoding", "BASE64"),
       Field("crc32", ChecksumText(data)), Field("data", Codec.Encode(data))]
  }

  lemma HeadText(command: string, id: string, session: string)
    ensures Line(command, [Field("id", id), Field("session", session)]) == command + " id=" + id + " session=" + session
  {
    EmptyLine(command);
    Append(command, [], "id", id, " id=");
    assert [] + [Field("id", id)] == [Field("id", id)];
    Append(command, [Field("id", id)], "session", session, " session=");
    assert [Field("id", id)] + [Field("session", session)] == [Field("id", id), Field("session", session)];
  }

  lemma HelloIsLine(id: U64)
    ensures HelloText(id) == Line("HELLO", MessageFields(Hello(id)))
  {
    var d := ToDecimal(id);
    EmptyLine("HELLO");
    Append("HELLO", [], "id", d, " id=");
    assert [] + [Field("id", d)] == [Field("id", d)];
    Append("HELLO", [Field("id", d)], "version", "0.1", " version=");
    assert [Field("id", d)] + [Field("version", "0.1")] == MessageFields(Hello(id));
    assert "HELLO id=" == "HELLO" + " id=";
  }

  /** The fields every block request starts with. */
  function BlockFields(id: string, session: string, lba: string, count: string): seq<Field> {
    [Field("id", id), Field("session", session), Field("lba", lba), Field("count", count), Field("encoding", "BASE64")]
  }

  lemma BlockText(command: string, id: string, session: string, lba: string, count: string)
    ensures Line(command, BlockFields(id, session, lba, count))
         == command + " id=" + id + " session=" + session + " lba=" + lba + " count=" + count + " encoding=" + "BASE64"
  {
    var f2 := [Field("id", id), Field("session", session)];
    var f3 := f2 + [Field("lba", lba)];
    var f4 := f3 + [Field("count", count)];
    HeadText(command, id, session);
    Append(command, f2, "lba", lba, " lba=");
    Append(command, f3, "count", count, " count=");
    Append(command, f4, "encoding", "BASE64", " encoding=");
    assert f4 + [Field("encoding", "BASE64")] == BlockFields(id, session, lba, count);
  }

  lemma DataText(command: string, fields: seq<Field>, crc: string, data: string)
    ensures Line(command, fields + [Field("crc32", crc), Field("data", data)])
         == Line(command, fields) + " crc32=" + crc + " data=" + data
  {
    Append(command, fields, "crc32", crc, " crc32=");
    Append(command, fields + [Field("crc32", crc)], "data", data, " data=");
    assert fields + [Field("crc32", crc)] + [Field("data", data)] == fields + [Field("crc32", crc), Field("data", data)];
  }

  lemma CountText(t: string)
    ensures t + " count=" + "1" + " encoding=" + "BASE64" == t + " count=1 encoding=BASE64"
  {
    assert " count=" + "1" + " encoding=" + "BASE64" == " count=1 encoding=BASE64";
    assert t + " count=" + "1" + " encoding=" + "BASE64" == t + (" count=" + "1" + " encoding=" + "BASE64");
  }

  lemma SpacedText(head: string, lba: string, rest: string)
    ensures head + " " + ("lba=" + lba + rest) == head + " lba=" + lba + rest
  {
    assert " " + "lba=" == " lba=";
    assert head + " " + ("lba=" + lba + rest) == head + (" " + "lba=") + lba + rest;
  }

  lemma ReadIsLine(id: U64, session: string, lba: U64)
    ensures RequestText("READ_BLOCKS", id, session, ReadFieldsText(lba))
         == Line("READ_BLOCKS", MessageFields(Read(id, session, lba)))
  {
    hide ToDecimal;
    var head := "READ_BLOCKS" + " id=" + ToDecimal(id) + " session=" + session;
    BlockText("READ_BLOCKS", ToDecimal(id), session, ToDecimal(lba), "1");
    CountText(head + " lba=" + ToDecimal(lba));
    SpacedText(head, ToDecimal(lba), " count=1 encoding=BASE64");
    assert ReadFieldsText(lba) != "" by { assert |ReadFieldsText(lba)| >= 4; }
  }

  lemma WriteText(t: string, crc: string, data: string)
    ensures t + (" count=1 encoding=BASE64 crc32=" + crc + " data=" + data)
         == t + " count=1 encoding=BASE64" + " crc32=" + crc + " data=" + data
  {
    assert " count=1 encoding=BASE64 crc32=" == " count=1 encoding=BASE64" + " crc32=";
  }

  lemma WriteIsLine(id: U64, session: string, lba: U64, data: Block)
    ensures RequestText("WRITE_BLOCKS", id, session, WriteFieldsText(lba, data))
         == Line("WRITE_BLOCKS", MessageFields(Write(id, session, lba, data)))
  {
    hide Codec.Encode, ToHex, Crc.Crc32, ToDecimal;
    var crc, text := ChecksumText(data), Codec.Encode(data);
    var head := "WRITE_BLOCKS" + " id=" + ToDecimal(id) + " session=" + session;
    var fields := BlockFields(ToDecimal(id), session, ToDecimal(lba), "1");
    BlockText("WRITE_BLOCKS", ToDecimal(id), session, ToDecimal(lba), "1");
    DataText("WRITE_BLOCKS", fields, crc, text);
    assert fields + [Field("crc32", crc), Field("data", text)] == MessageFields(Write(id, session, lba, data));
    CountText(head + " lba=" + ToDecimal(lba));
    WriteText(head + " lba=" + ToDecimal(lba), crc, text);
    var rest := " count=1 encoding=BASE64 crc32=" + crc + " data=" + text;
    SpacedText(head, ToDecimal(lba), rest);
    assert WriteFieldsText(lba, data) == "lba=" + ToDecimal(lba) + rest;
    assert WriteFieldsText(lba, data) != "" by { assert |WriteFieldsText(lba, data)| >= 4; }
  }

  lemma MessageIsLine(m: Message)
    ensures MessageText(m) == Line(MessageCommand(m), MessageFields(m))
  {
    match m
    case Hello(id) => HelloIsLine(id);
    case Info(id, session) => HeadText("GET_INFO", ToDecimal(id), session);
    case Read(id, session, lba) => ReadIsLine(id, session, lba);
    case Write(id, session, lba, data) => WriteIsLine(id, session, lba, data);
  }

  lemma PrintableDecimal(n: U64)
    ensures Name(ToDecimal(n)) && ParseU64(ToDecimal(n)) == Some(n)
  {
    DecimalRoundTrip(n);
  }

  lemma PrintablePayload(data: Block)
    ensures Token(ChecksumText(data)) && |ChecksumText(data)| == 8
    ensures ParseHex32(ChecksumText(data)) == Some(Crc.Crc32(data) as int)
    ensures Token(Codec.Encode(data))
    ensures Codec.Decode(Codec.Encode(data), BLOCK_SIZE) == Codec.Decoded(Codec.NoError, data)
  {
    HexRoundTrip(Crc.Crc32(data) as int);
    Codec.EncodedCharacters(data);
    Codec.EncodedLength(data);
    Codec.RoundTrip(data, BLOCK_SIZE);
    hide Codec.Encode, ToHex, Crc.Crc32;
  }

  lemma CommandNames()
    ensures Name("HELLO") && Name("GET_INFO") && Name("READ_BLOCKS") && Name("WRITE_BLOCKS")
  {}

  lemma KeyNames()
    ensures Name("id") && Name("session") && Name("version") && Name("lba") && Name("count")
    ensures Name("encoding") && Name("crc32") && Name("data")
  {}

  lemma ValueTokens()
    ensures Token("0.1") && Token("1") && Token("BASE64")
  {}

  lemma AddField(fields: seq<Field>, key: string, value: string)
    requires WellFormedFields(fields) && |fields| + 1 < MAX_TOKENS
    requires Name(key) && Token(value)
    requires forall i :: 0 <= i < |fields| ==> fields[i].key != key
    ensures WellFormedFields(fields + [Field(key, value)])
  {}

  lemma BlockFieldsWellFormed(id: string, session: string, lba: string, count: string)
    requires Token(id) && Token(session) && Token(lba) && Token(count)
    ensures WellFormedFields(BlockFields(id, session, lba, count))
  {
    CommandNames();
    KeyNames();
    ValueTokens();
    hide Name, Token;
    AddField([], "id", id);
    assert [] + [Field("id", id)] == [Field("id", id)];
    AddField([Field("id", id)], "session", session);
    var f2 := [Field("id", id)] + [Field("session", session)];
    AddField(f2, "lba", lba);
    AddField(f2 + [Field("lba", lba)], "count", count);
    var f4 := f2 + [Field("lba", lba)] + [Field("count", count)];
    AddField(f4, "encoding", "BASE64");
    assert f4 + [Field("encoding", "BASE64")] == BlockFields(id, session, lba, count);
  }

  lemma DataFieldsWellFormed(fields: seq<Field>, crc: string, data: string)
    requires WellFormedFields(fields) && |fields| + 2 < MAX_TOKENS
    requires forall i :: 0 <= i < |fields| ==> fields[i].key != "crc32" && fields[i].key != "data"
    requires Token(crc) && Token(data)
    ensures WellFormedFields(fields + [Field("crc32", crc), Field("data", data)])
  {
    CommandNames();
    KeyNames();
    ValueTokens();
    hide Name, Token;
    AddField(fields, "crc32", crc);
    AddField(fields + [Field("crc32", crc)], "data", data);
    assert fields + [Field("crc32", crc)] + [Field("data", data)] == fields + [Field("crc32", crc), Field("data", data)];
  }

  lemma PairWellFormed(id: string, key: string, value: string)
    requires Token(id) && Token(value) && Name(key) && key != "id"
    ensures WellFormedFields([Field("id", id), Field(key, value)])
  {
    CommandNames();
    KeyNames();
    ValueTokens();
    AddField([], "id", id);
    assert [] + [Field("id", id)] == [Field("id", id)];
    AddField([Field("id", id)], key, value);
    assert [Field("id", id)] + [Field(key, value)] == [Field("id", id), Field(key, value)];
  }

  lemma MessageWellFormed(m: Message)
    requires ValidMessage(m)
    ensures Name(MessageCommand(m)) && WellFormedFields(MessageFields(m))
  {
    CommandNames();
    KeyNames();
    ValueTokens();
    PrintableDecimal(m.id);
    var id := ToDecimal(m.id);
    assert Token(id);
    match m {
      case Hello(_) => PairWellFormed(id, "version", "0.1");
      case Info(_, session) => PairWellFormed(id, "session", session);
      case Read(_, session, lba) =>
        PrintableDecimal(lba);
        BlockFieldsWellFormed(id, session, ToDecimal(lba), "1");
      case Write(_, session, lba, data) =>
        PrintableDecimal(lba);
        PrintablePayload(data);
        BlockFieldsWellFormed(id, session, ToDecimal(lba), "1");
        var fields := BlockFields(id, session, ToDecimal(lba), "1");
        DataFieldsWellFormed(fields, ChecksumText(data), Codec.Encode(data));
        assert MessageFields(m) == fields + [Field("crc32", ChecksumText(data)), Field("data", Codec.Encode(data))];
    }
    hide *;
  }

  /** Every field of a message line, read back with value_for. */
  ghost predicate MessageValues(m: Message, line: TextLine) {
    line.Command() == MessageCommand(m)
    && line.ValueFor("id") == ToDecimal(m.id)
    && (m.Hello? ==> line.ValueFor("version") == "0.1")
    && (!m.Hello? ==> line.ValueFor("session") == m.session)
    && (m.Read? || m.Write? ==>
          line.ValueFor("lba") == ToDecimal(m.lba) && line.ValueFor("count") == "1"
          && line.ValueFor("encoding") == "BASE64")
    && (m.Write? ==>
          line.ValueFor("crc32") == ChecksumText(m.data) && line.ValueFor("data") == Codec.Encode(m.data))
  }

  lemma MessageParses(m: Message)
    requires ValidMessage(m)
    ensures Parse(MessageText(m)).Ok? && MessageValues(m, Parse(MessageText(m)).value)
  {
    hide ToDecimal, ChecksumText, Codec.Encode, Line, Parse, MessageText;
    MessageIsLine(m);
    MessageWellFormed(m);
    var fields := MessageFields(m);
    LineReads(MessageCommand(m), fields);
    var line := Parse(MessageText(m)).value;
    assert fields[0].key == "id" && fields[1].key == if m.Hello? then "version" else "session";
    if m.Read? || m.Write? {
      assert fields[2].key == "lba" && fields[3].key == "count" && fields[4].key == "encoding";
    }
    if m.Write? {
      assert fields[5].key == "crc32" && fields[6].key == "data";
    }
  }

  /** No two messages share a line. */
  lemma MessageTextInjective(m: Message, n: Message)
    requires ValidMessage(m) && ValidMessage(n) && MessageText(m) == MessageText(n)
    ensures m == n
  {
    hide MessageText, Parse, ToDecimal, ParseU64, Codec.Encode, Codec.Decode, ChecksumText, TextLine.ValueFor,
      TextLine.Command, Printable;
    MessageParses(m);
    MessageParses(n);
    PrintableDecimal(m.id);
    PrintableDecimal(n.id);
    if (m.Read? || m.Write?) && (n.Read? || n.Write?) {
      PrintableDecimal(m.lba);
      PrintableDecimal(n.lba);
    }
    if m.Write? && n.Write? {
      PrintablePayload(m.data);
      PrintablePayload(n.data);
    }
    CommandsDiffer();
  }

  lemma CommandsDiffer()
    ensures "HELLO" != "GET_INFO" && "HELLO" != "READ_BLOCKS" && "HELLO" != "WRITE_BLOCKS"
    ensures "GET_INFO" != "READ_BLOCKS" && "GET_INFO" != "WRITE_BLOCKS" && "READ_BLOCKS" != "WRITE_BLOCKS"
  {
    assert |"HELLO"| == 5 && |"GET_INFO"| == 8 && |"READ_BLOCKS"| == 11 && |"WRITE_BLOCKS"| == 12;
  }

  // ---- The dispatcher understands messages ---------------------------------

  lemma OneBlock(b: Block)
    ensures Concatenate([b]) == b
    ensures forall bytes: seq<bv8> | |bytes| == 1 * BLOCK_SIZE :: Split(bytes, 1) == [bytes]
  {
    assert [b][1..] == [];
    assert Concatenate([b]) == b + Concatenate([]);
    forall bytes: seq<bv8> | |bytes| == 1 * BLOCK_SIZE ensures Split(bytes, 1) == [bytes] {
      assert bytes[..BLOCK_SIZE] == bytes;
    }
  }

  lemma CountIsOne()
    ensures ParseU64("1") == Some(1) && ToDecimal(1) == "1"
  {
    DecimalRoundTrip(1);
    assert ToDecimal(1) == "1";
  }

  lemma RefusalText(id: U64, code: string)
    ensures ErrorText(ToDecimal(id), code) == ReplyText(Refusal(id, code))
  {
    PrintableDecimal(id);
  }

  lemma OkTexts(h: Host, id: U64, data: Block, lba: U64)
    ensures h.OkText(ToDecimal(id)) == ReplyText(Done(id, h.sessionId))
    ensures h.OkText(ToDecimal(id)) + " lba=" + ToDecimal(lba) + " count=" + ToDecimal(1)
            + " encoding=BASE64 crc32=" + ChecksumText(data) + " data=" + Codec.Encode(data)
         == ReplyText(BlockReply(id, h.sessionId, lba, data))
    ensures h.OkText(ToDecimal(id)) + h.InfoText()
         == ReplyText(InfoReply(id, h.sessionId, h.cardType, |h.image|, !h.writable))
  {
    hide ToDecimal, ChecksumText, Codec.Encode;
  }

  lemma SliceOfOne(image: seq<Block>, lba: nat)
    requires lba < |image|
    ensures Concatenate(image[lba..lba + 1]) == image[lba]
  {
    assert image[lba..lba + 1] == [image[lba]];
    OneBlock(image[lba]);
  }

  lemma ReadOfMessage(h: Host, m: Message, line: TextLine, io: ImageIo)
    requires m.Read? && MessageValues(m, line) && ValidMessage(m)
    requires !h.ejected && m.session == h.sessionId
    ensures h.ReadBlocks(line, ToDecimal(m.id), io) == ReplyText(Perform(h, m, io).1)
  {
    hide ToDecimal, ParseU64, Codec.Encode, ChecksumText, Concatenate, ReplyText, ErrorText, Host.OkText,
      TextLine.ValueFor, TextLine.Command, MessageCommand;
    PrintableDecimal(m.lba);
    CountIsOne();
    RefusalText(m.id, "RANGE");
    RefusalText(m.id, "IO_ERROR");
    if m.lba < |h.image| {
      SliceOfOne(h.image, m.lba);
      OkTexts(h, m.id, h.image[m.lba], m.lba);
    }
  }

  lemma StoredOne(image: seq<Block>, lba: nat, data: Block, io: ImageIo)
    requires lba < |image|
    ensures Stored(image, lba, [data], io) == image[lba := if io.healthy == 0 then io.torn else data]
  {}

  lemma WriteOfMessage(h: Host, m: Message, line: TextLine, io: ImageIo)
    requires m.Write? && MessageValues(m, line) && ValidMessage(m)
    requires !h.ejected && m.session == h.sessionId
    ensures var (h', r) := Perform(h, m, io);
            h.WriteBlocks(line, ToDecimal(m.id), io) == (h', ReplyText(r))
  {
    hide ToDecimal, ParseU64, ParseHex32, Codec.Encode, Codec.Decode, ChecksumText, Split, Stored, ReplyText,
      ErrorText, Host.OkText, TextLine.ValueFor, TextLine.Command, MessageCommand;
    PrintableDecimal(m.lba);
    PrintablePayload(m.data);
    CountIsOne();
    OneBlock(m.data);
    RefusalText(m.id, "READ_ONLY");
    RefusalText(m.id, "RANGE");
    RefusalText(m.id, "IO_ERROR");
    OkTexts(h, m.id, m.data, m.lba);
    if m.lba < |h.image| {
      StoredOne(h.image, m.lba, m.data, io);
    }
  }

  /** Dispatching the text of a message is handling the message. */
  lemma DispatchOfMessage(h: Host, m: Message, io: ImageIo)
    requires ValidMessage(m) && Token(h.sessionId)
    ensures var (h', r) := Handle(h, m, io);
            h.Dispatch(MessageText(m), io) == (h', ReplyText(r))
  {
    hide ToDecimal, ParseU64, Parse, MessageText, Host.ReadBlocks, Host.WriteBlocks, ReplyText, ErrorText,
      Host.OkText, Host.InfoText, TextLine.ValueFor, TextLine.Command, ChecksumText, Codec.Encode;
    MessageParses(m);
    PrintableDecimal(m.id);
    var line := Parse(MessageText(m)).value;
    var accepted := h.(lastRequestId := m.id);
    if m.Hello? {
      HelloOfMessage(h, m, line);
    } else {
      RefusalText(m.id, "HANDSHAKE_REQUIRED");
      RefusalText(m.id, "BAD_SESSION");
      RefusalText(m.id, "STALE_ID");
      if m.session == h.sessionId {
        ExecuteOfMessage(accepted, m, line, io);
      }
      hide Host.Execute, Perform;
    }
  }

  lemma HelloOfMessage(h: Host, m: Message, line: TextLine)
    requires m.Hello? && MessageValues(m, line)
    ensures var (h', r) := Handle(h, m, ImageIo(0, ZeroBlock(), false));
            h.Hello(line, ToDecimal(m.id), m.id) == (h', ReplyText(r))
  {
    RefusalText(m.id, "STALE_ID");
    hide ToDecimal, TextLine.ValueFor, TextLine.Command;
  }

  lemma ExecuteOfMessage(h: Host, m: Message, line: TextLine, io: ImageIo)
    requires !m.Hello? && MessageValues(m, line) && ValidMessage(m) && m.session == h.sessionId
    ensures var (h', r) := Perform(h, m, io);
            h.Execute(line, ToDecimal(m.id), io) == (h', ReplyText(r))
  {
    hide ToDecimal, Host.ReadBlocks, Host.WriteBlocks, ReplyText, ErrorText, Host.OkText, Host.InfoText,
      TextLine.ValueFor, TextLine.Command, ChecksumText, Codec.Encode;
    RefusalText(m.id, "NO_MEDIA");
    OkTexts(h, m.id, ZeroBlock(), 0);
    if !h.ejected {
      if m.Read? { ReadOfMessage(h, m, line, io); }
      if m.Write? { WriteOfMessage(h, m, line, io); }
    }
  }
}
