/**
 * What the host answers to any line: the first check that fails, in one list, names the error code,
 * and a line that passes them all is not refused. Then ejection, which lasts.
 */
module HostCommands {
  import opened Basics
  import Crc
  import Codec
  import opened Numerals
  import opened TextLines
  import opened SessionDispatcher
  import opened AtMostOnce

  datatype Check = Check(passed: bool, code: string)

  /** The first check that fails. */
  ghost predicate Fails(checks: seq<Check>, k: nat) {
    k < |checks| && !checks[k].passed && forall j :: 0 <= j < k ==> checks[j].passed
  }

  ghost predicate Passes(checks: seq<Check>) { forall j :: 0 <= j < |checks| ==> checks[j].passed }

  /** The line's words, none if it cannot be parsed. */
  function LineOf(line: string): TextLine { if Parse(line).Ok? then Parse(line).value else TextLine([]) }

  predicate IsHello(line: TextLine) { line.Command() == "HELLO" }

  /** Identification, version and session. */
  function Admission(h: Host, line: string): seq<Check> {
    var words := LineOf(line);
    var hello, id, session := IsHello(words), LineId(line), words.ValueFor("session");
    [Check(Parse(line).Ok?, "BAD_LINE"),
     Check(words.ValueFor("id") != "", "MISSING_ID"),
     Check(id != 0, "BAD_ID"),
     Check(hello ==> words.ValueFor("version") == "0.1", "UNSUPPORTED_VERSION"),
     Check(hello && h.established ==> id > h.lastRequestId, "STALE_ID"),
     Check(!hello ==> h.established, "HANDSHAKE_REQUIRED"),
     Check(!hello ==> session != "", "MISSING_SESSION"),
     Check(!hello ==> session == h.sessionId, "BAD_SESSION"),
     Check(!hello ==> id > h.lastRequestId, "STALE_ID")]
  }

  /** The sectors a line names, none if its fields are no numbers. */
  function Named(line: TextLine): (range: (int, int)) {
    var lba, count := ParseU64(line.ValueFor("lba")), ParseU64(line.ValueFor("count"));
    if lba.None? || count.None? then (0, 0) else (lba.value, count.value)
  }

  function Decoded(line: TextLine): Codec.Decoded {
    Codec.Decode(line.ValueFor("data"), Max(Named(line).1, 0) * 512)
  }

  /** Medium, command, and for transfers access, fields, range, data and checksum; the image file comes last. */
  function Execution(h: Host, line: TextLine, io: ImageIo): seq<Check> {
    var command := line.Command();
    var read, write := command == "READ_BLOCKS", command == "WRITE_BLOCKS";
    var (lba, count) := Named(line);
    [Check(h.ejected ==> command == "EJECT", "NO_MEDIA"),
     Check(command in {"GET_INFO", "FLUSH", "EJECT", "READ_BLOCKS", "WRITE_BLOCKS"}, "UNSUPPORTED"),
     Check(command == "FLUSH" || command == "EJECT" ==> io.flushes, "IO_ERROR"),
     Check(write ==> h.writable, "READ_ONLY"),
     Check(read || write ==> ParseU64(line.ValueFor("lba")).Some? && ParseU64(line.ValueFor("count")).Some?, "BAD_RANGE"),
     Check(read || write ==> line.ValueFor("encoding") == "BASE64", "BAD_RANGE"),
     Check(write ==> ParseHex32(line.ValueFor("crc32")).Some?, "BAD_RANGE"),
     Check(read || write ==> 1 <= count <= 16 && lba + count <= |h.image|, "RANGE"),
     Check(write ==> Decoded(line).error == Codec.NoError && |Decoded(line).bytes| == count * 512, "BAD_DATA"),
     Check(write ==> ParseHex32(line.ValueFor("crc32")) == Some(Crc.Crc32(Decoded(line).bytes) as int), "BAD_CRC"),
     Check(read || write ==> io.healthy >= count, "IO_ERROR")]
  }

  /** The id an answer repeats: 0 when the line has none. */
  function Shown(line: string): string {
    var id := LineOf(line).ValueFor("id");
    if id == "" then "0" else id
  }

  function Error(line: string, code: string): string { "ERR id=" + Shown(line) + " code=" + code }

  lemma NoWords()
    ensures TextLine([]).ValueFor("id") == ""
  {}

  /** A line that fails a check of admission is answered with its code and changes nothing. */
  lemma RefusedWith(h: Host, line: string, io: ImageIo, k: nat)
    requires Fails(Admission(h, line), k)
    ensures h.Dispatch(line, io) == (h, Error(line, Admission(h, line)[k].code))
  {
    hide Parse, ParseU64, TextLine.ValueFor, TextLine.Command, Host.Execute;
    NoWords();
    EmptyIsNoNumber();
    var checks := Admission(h, line);
    assert checks[0].passed || k == 0;
    assert k > 1 ==> checks[1].passed;
    assert k > 2 ==> checks[2].passed;
    assert k > 3 ==> checks[3].passed;
    assert k > 4 ==> checks[4].passed;
    assert k > 5 ==> checks[5].passed;
    assert k > 6 ==> checks[6].passed;
    assert k > 7 ==> checks[7].passed;
  }

  lemma PassedIsAdmitted(h: Host, line: string)
    requires h.sessionId != ""
    ensures Passes(Admission(h, line)) <==> Admitted(h, line)
  {
    hide Parse, ParseU64, TextLine.ValueFor, TextLine.Command;
    NoWords();
    EmptyIsNoNumber();
    var checks := Admission(h, line);
    if Passes(checks) {
      assert checks[0].passed && checks[1].passed && checks[2].passed && checks[3].passed && checks[4].passed;
      assert checks[5].passed && checks[6].passed && checks[7].passed && checks[8].passed;
    }
  }

  /** A handshake that passes is answered with version and session, and establishes the session. */
  lemma HelloAnswer(h: Host, line: string, io: ImageIo)
    requires Admitted(h, line) && IsHello(LineOf(line))
    ensures h.Dispatch(line, io)
         == (h.(established := true, lastRequestId := LineId(line)),
             "OK id=" + Shown(line) + " version=0.1 session=" + h.sessionId)
  {
    hide Parse, ParseU64, TextLine.ValueFor, TextLine.Command;
    EmptyIsNoNumber();
  }

  lemma AdmittedIsExecuted(h: Host, line: string, io: ImageIo)
    requires Admitted(h, line) && !IsHello(LineOf(line))
    ensures LineOf(line).ValueFor("id") != "" && Shown(line) == LineOf(line).ValueFor("id")
    ensures h.Dispatch(line, io) == h.(lastRequestId := LineId(line)).Execute(LineOf(line), Shown(line), io)
  {
    hide Parse, ParseU64, TextLine.ValueFor, TextLine.Command, Host.Execute;
    EmptyIsNoNumber();
  }

  /** The fields of a write. */
  lemma WriteFieldsFail(h: Host, line: TextLine, id: string, io: ImageIo, k: nat)
    requires line.Command() == "WRITE_BLOCKS" && !h.ejected && Fails(Execution(h, line, io), k) && k < 8
    ensures h.WriteBlocks(line, id, io) == (h, ErrorText(id, Execution(h, line, io)[k].code))
  {
    hide ParseU64, ParseHex32, TextLine.ValueFor, TextLine.Command, ErrorText, Stored, Split, Codec.Decode, Crc.Crc32;
    var checks := Execution(h, line, io);
    assert k > 3 ==> checks[3].passed;
    assert k > 4 ==> checks[4].passed;
    assert k > 5 ==> checks[5].passed;
    assert k > 6 ==> checks[6].passed;
  }

  /** A write whose fields are in order: what remains is its data. */
  lemma RangedWrite(h: Host, line: TextLine, id: string, io: ImageIo, lba: U64, count: U64, checksum: int)
    requires h.writable && line.ValueFor("encoding") == "BASE64" && ParseHex32(line.ValueFor("crc32")) == Some(checksum)
    requires ParseU64(line.ValueFor("lba")) == Some(lba) && ParseU64(line.ValueFor("count")) == Some(count)
    requires 1 <= count <= 16 && lba + count <= |h.image|
    ensures var decoded := Codec.Decode(line.ValueFor("data"), count * 512);
            h.WriteBlocks(line, id, io)
            == if decoded.error != Codec.NoError || |decoded.bytes| != count * 512 then (h, ErrorText(id, "BAD_DATA"))
               else if Crc.Crc32(decoded.bytes) as int != checksum then (h, ErrorText(id, "BAD_CRC"))
               else (h.(image := Stored(h.image, lba, Split(decoded.bytes, count), io)),
                     if io.healthy < count then ErrorText(id, "IO_ERROR") else h.OkText(id))
  {
    hide ParseU64, ParseHex32, TextLine.ValueFor, TextLine.Command, ErrorText, Stored, Split, Codec.Decode, Crc.Crc32;
  }

  lemma DataChecks(h: Host, line: TextLine, io: ImageIo, k: nat)
    requires line.Command() == "WRITE_BLOCKS" && Fails(Execution(h, line, io), k) && k >= 8
    ensures var check, count, decoded := Execution(h, line, io)[k], Named(line).1, Decoded(line);
            var whole := decoded.error == Codec.NoError && |decoded.bytes| == count * 512;
            var right := ParseHex32(line.ValueFor("crc32")) == Some(Crc.Crc32(decoded.bytes) as int);
            && (k == 8 ==> !whole && check.code == "BAD_DATA")
            && (k == 9 ==> whole && !right && check.code == "BAD_CRC")
            && (k == 10 ==> whole && right && io.healthy < count && check.code == "IO_ERROR")
            && k <= 10
  {
    hide ParseU64, ParseHex32, TextLine.ValueFor, TextLine.Command, ErrorText, Stored, Split, Codec.Decode, Crc.Crc32, Named;
    var checks := Execution(h, line, io);
    assert k > 8 ==> checks[8].passed;
    assert k > 9 ==> checks[9].passed;
  }

  /** The data of a write, once its fields are in order. */
  lemma WriteDataFails(h: Host, line: TextLine, id: string, io: ImageIo, k: nat)
    requires line.Command() == "WRITE_BLOCKS" && !h.ejected && Fails(Execution(h, line, io), k) && k >= 8
    ensures h.WriteBlocks(line, id, io).1 == ErrorText(id, Execution(h, line, io)[k].code)
    ensures k != 10 ==> h.WriteBlocks(line, id, io).0 == h
  {
    hide ParseU64, ParseHex32, TextLine.ValueFor, TextLine.Command, ErrorText, Stored, Split, Codec.Decode, Crc.Crc32,
      Named, Execution, Host.WriteBlocks;
    FieldsPass(h, line, io, k);
    DataChecks(h, line, io, k);
    var (lba, count) := Named(line);
    assert Max(count, 0) == count;
    RangedWrite(h, line, id, io, lba, count, ParseHex32(line.ValueFor("crc32")).value);
  }

  lemma FieldsPass(h: Host, line: TextLine, io: ImageIo, k: nat)
    requires line.Command() == "WRITE_BLOCKS" && Fails(Execution(h, line, io), k) && k >= 8
    ensures h.writable && line.ValueFor("encoding") == "BASE64" && ParseHex32(line.ValueFor("crc32")).Some?
    ensures ParseU64(line.ValueFor("lba")).Some? && ParseU64(line.ValueFor("count")).Some?
    ensures Named(line) == (ParseU64(line.ValueFor("lba")).value, ParseU64(line.ValueFor("count")).value)
    ensures 1 <= Named(line).1 <= 16 && Named(line).0 + Named(line).1 <= |h.image|
  {
    hide ParseU64, ParseHex32, TextLine.ValueFor, TextLine.Command, ErrorText, Stored, Split, Codec.Decode, Crc.Crc32;
    var checks := Execution(h, line, io);
    assert checks[3].passed && checks[4].passed && checks[5].passed && checks[6].passed && checks[7].passed;
  }

  lemma ReadFails(h: Host, line: TextLine, id: string, io: ImageIo, k: nat)
    requires line.Command() == "READ_BLOCKS" && !h.ejected && Fails(Execution(h, line, io), k)
    ensures h.ReadBlocks(line, id, io) == ErrorText(id, Execution(h, line, io)[k].code)
  {
    hide ParseU64, ParseHex32, TextLine.ValueFor, TextLine.Command, ErrorText, Concatenate, Codec.Decode, Crc.Crc32, Codec.Encode,
      ToDecimal;
    var checks := Execution(h, line, io);
    assert k > 4 ==> checks[4].passed;
    assert k > 5 ==> checks[5].passed;
    assert k > 7 ==> checks[7].passed;
  }

  lemma ExecutionFails(h: Host, line: TextLine, id: string, io: ImageIo, k: nat)
    requires Fails(Execution(h, line, io), k)
    ensures var (h', response) := h.Execute(line, id, io);
            && response == ErrorText(id, Execution(h, line, io)[k].code)
            && (k != 10 || line.Command() != "WRITE_BLOCKS" ==> h' == h)
  {
    hide ParseU64, ParseHex32, TextLine.ValueFor, TextLine.Command, ErrorText, Host.ReadBlocks, Host.WriteBlocks, Host.ValidRange,
      Codec.Decode, Crc.Crc32;
    var checks := Execution(h, line, io);
    assert k > 0 ==> checks[0].passed;
    assert k > 1 ==> checks[1].passed;
    assert k > 2 ==> checks[2].passed;
    if !h.ejected && line.Command() == "READ_BLOCKS" {
      ReadFails(h, line, id, io, k);
    }
    if !h.ejected && line.Command() == "WRITE_BLOCKS" {
      if k < 8 {
        WriteFieldsFail(h, line, id, io, k);
      } else {
        WriteDataFails(h, line, id, io, k);
      }
    }
  }

  /** An admitted request that fails a check is answered with its code; only a torn write changes the image. */
  lemma FailedWith(h: Host, line: string, io: ImageIo, k: nat)
    requires Admitted(h, line) && !IsHello(LineOf(line)) && Fails(Execution(h, LineOf(line), io), k)
    ensures var (h', response) := h.Dispatch(line, io);
            && response == Error(line, Execution(h, LineOf(line), io)[k].code)
            && (k != 10 || LineOf(line).Command() != "WRITE_BLOCKS" ==> h' == h.(lastRequestId := LineId(line)))
  {
    hide Admitted, Host.Dispatch, Host.Execute, Execution, LineOf, TextLine.ValueFor, TextLine.Command, Shown, LineId;
    AdmittedIsExecuted(h, line, io);
    SameExecution(h, LineOf(line), io, LineId(line));
    ExecutionFails(h.(lastRequestId := LineId(line)), LineOf(line), Shown(line), io, k);
    assert LineOf(line).ValueFor("id") != "";
  }

  lemma SameExecution(h: Host, line: TextLine, io: ImageIo, id: U64)
    ensures Execution(h.(lastRequestId := id), line, io) == Execution(h, line, io)
  {
    hide ParseU64, ParseHex32, TextLine.ValueFor, TextLine.Command, Codec.Decode, Crc.Crc32;
  }

  lemma ReadPasses(h: Host, line: TextLine, id: string, io: ImageIo)
    requires line.Command() == "READ_BLOCKS" && Passes(Execution(h, line, io))
    ensures !IsError(h.ReadBlocks(line, id, io))
  {
    hide ParseU64, ParseHex32, TextLine.ValueFor, TextLine.Command, ErrorText, Concatenate, Codec.Decode, Crc.Crc32, Codec.Encode,
      ToDecimal;
    var checks := Execution(h, line, io);
    assert checks[4].passed && checks[5].passed && checks[7].passed && checks[10].passed;
    var text := h.ReadBlocks(line, id, io);
    assert text[0] == 'O';
  }

  lemma WritePasses(h: Host, line: TextLine, id: string, io: ImageIo)
    requires line.Command() == "WRITE_BLOCKS" && Passes(Execution(h, line, io))
    ensures h.WriteBlocks(line, id, io).1 == h.OkText(id)
  {
    hide ParseU64, ParseHex32, TextLine.ValueFor, TextLine.Command, ErrorText, Stored, Split, Codec.Decode, Crc.Crc32;
    var checks := Execution(h, line, io);
    assert checks[3].passed && checks[4].passed && checks[5].passed && checks[6].passed && checks[7].passed;
    assert checks[8].passed && checks[9].passed && checks[10].passed;
  }

  lemma OkTexts(h: Host, id: string, more: string)
    ensures !IsError(h.OkText(id)) && !IsError(h.OkText(id) + more)
  {
    assert h.OkText(id)[0] == 'O';
  }

  lemma ExecutionPasses(h: Host, line: TextLine, id: string, io: ImageIo)
    requires Passes(Execution(h, line, io))
    ensures !IsError(h.Execute(line, id, io).1)
  {
    hide ParseU64, ParseHex32, TextLine.ValueFor, TextLine.Command, ErrorText, Host.ReadBlocks, Host.WriteBlocks, Host.ValidRange,
      Codec.Decode, Crc.Crc32, Host.InfoText, IsError, Host.OkText;
    var checks := Execution(h, line, io);
    assert checks[0].passed && checks[1].passed && checks[2].passed;
    OkTexts(h, id, h.InfoText());
    if line.Command() == "READ_BLOCKS" {
      ReadPasses(h, line, id, io);
    }
    if line.Command() == "WRITE_BLOCKS" {
      WritePasses(h, line, id, io);
    }
  }

  /** The other half: an admitted request that passes every check is not refused. */
  lemma PassedIsAnswered(h: Host, line: string, io: ImageIo)
    requires Admitted(h, line) && !IsHello(LineOf(line)) && Passes(Execution(h, LineOf(line), io))
    ensures !IsError(h.Dispatch(line, io).1)
  {
    hide Admitted, Host.Dispatch, Host.Execute, Execution, LineOf, TextLine.ValueFor, TextLine.Command, Shown, LineId, IsError;
    AdmittedIsExecuted(h, line, io);
    SameExecution(h, LineOf(line), io, LineId(line));
    ExecutionPasses(h.(lastRequestId := LineId(line)), LineOf(line), Shown(line), io);
  }

  // ---- Ejection --------------------------------------------------------------------

  /** An admitted EJECT whose image file could be flushed. */
  predicate Ejects(h: Host, d: Delivery) {
    Admitted(h, d.line) && LineOf(d.line).Command() == "EJECT" && d.io.flushes
  }

  lemma ExecuteEjects(h: Host, line: TextLine, id: string, io: ImageIo)
    ensures var h' := h.Execute(line, id, io).0;
            h'.ejected == (h.ejected || (line.Command() == "EJECT" && io.flushes))
            && (h.ejected ==> h'.image == h.image)
  {
    hide ParseU64, ParseHex32, TextLine.ValueFor, TextLine.Command, ErrorText, Host.ReadBlocks, Host.ValidRange, Codec.Decode,
      Stored, Split, Crc.Crc32;
  }

  /** A delivery ejects the medium exactly if it is such an EJECT; an ejected image is not changed. */
  lemma DeliveryEjects(h: Host, d: Delivery)
    requires h.sessionId != ""
    ensures var h' := Deliver(h, d);
            (h'.ejected <==> h.ejected || Ejects(h, d)) && (h.ejected ==> h'.image == h.image) && h'.sessionId == h.sessionId
  {
    hide Parse, ParseU64, TextLine.ValueFor, TextLine.Command, Host.Execute, ErrorText;
    NoWords();
    EmptyIsNoNumber();
    if Admitted(h, d.line) && !IsHello(LineOf(d.line)) {
      AdmittedIsExecuted(h, d.line, d.io);
      ExecuteEjects(h.(lastRequestId := LineId(d.line)), LineOf(d.line), Shown(d.line), d.io);
      ExecuteKeepsIds(h.(lastRequestId := LineId(d.line)), LineOf(d.line), Shown(d.line), d.io);
    }
  }

  /** Once ejected, the host stays ejected and its image as it is, whatever arrives, a new handshake included. */
  lemma {:induction false} EjectedForever(h: Host, deliveries: seq<Delivery>)
    requires h.ejected && h.sessionId != ""
    ensures var last := HostAfter(h, deliveries);
            last.ejected && last.image == h.image && last.sessionId == h.sessionId
  {
    hide Deliver;
    if deliveries != [] {
      var before := deliveries[..|deliveries| - 1];
      EjectedForever(h, before);
      DeliveryEjects(HostAfter(h, before), deliveries[|deliveries| - 1]);
    }
  }

  /** From then on every admitted request but EJECT is refused with NO_MEDIA. */
  lemma EjectedAnswer(h: Host, deliveries: seq<Delivery>, line: string, io: ImageIo)
    requires h.ejected && h.sessionId != "" && Admitted(HostAfter(h, deliveries), line)
    requires !IsHello(LineOf(line)) && LineOf(line).Command() != "EJECT"
    ensures HostAfter(h, deliveries).Dispatch(line, io).1 == Error(line, "NO_MEDIA")
  {
    hide Admitted, Host.Dispatch, LineOf, TextLine.ValueFor, TextLine.Command, Shown, LineId, HostAfter;
    EjectedForever(h, deliveries);
    var last := HostAfter(h, deliveries);
    assert !Execution(last, LineOf(line), io)[0].passed;
    FailedWith(last, line, io, 0);
  }
}
