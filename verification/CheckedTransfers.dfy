/**
 * Block data over any lines, not only well-formed ones: whatever one end takes over carries the CRC32
 * the line names, and data damaged on the link is refused.
 */
module CheckedTransfers {
  import opened Basics
  import Crc
  import CrcTheory
  import Codec
  import opened Numerals
  import opened TextLines
  import opened TextLineTheory
  import opened BlockResponse
  import opened SessionDispatcher
  import opened WriteThroughBackend
  import opened BackendInvariant
  import opened AtMostOnce

  // ---- Writes ----------------------------------------------------------------

  /** A write line names these sectors of the image and carries exactly these bytes, with their CRC32. */
  predicate Carries(h: Host, line: TextLine, lba: U64, count: nat, bytes: seq<bv8>) {
    ParseU64(line.ValueFor("lba")) == Some(lba) && ParseU64(line.ValueFor("count")) == Some(count)
    && line.ValueFor("encoding") == "BASE64"
    && 0 < count <= 16 && lba + count <= |h.image|
    && Codec.Decode(line.ValueFor("data"), count * 512) == Codec.Decoded(Codec.NoError, bytes) && |bytes| == count * 512
    && ParseHex32(line.ValueFor("crc32")) == Some(Crc.Crc32(bytes) as int)
  }

  /** The k-th sector of some bytes. */
  function Sector(bytes: seq<bv8>, k: nat): Block
    requires (k + 1) * 512 <= |bytes|
  {
    bytes[k * 512..(k + 1) * 512]
  }

  /** The image after storing the bytes from lba on, until the image file fails. */
  ghost predicate StoredBytes(before: seq<Block>, after: seq<Block>, lba: nat, count: nat, bytes: seq<bv8>, io: ImageIo)
    requires |bytes| == count * 512
  {
    |after| == |before|
    && forall i :: 0 <= i < |before| ==>
         after[i] == if lba <= i < lba + count && i < lba + io.healthy then Sector(bytes, i - lba)
                     else if i == lba + io.healthy && io.healthy < count then io.torn
                     else before[i]
  }

  /** A line acts as a write: it changes the image, or it is a write answered by anything but an error. */
  predicate ActsAsWrite(h: Host, line: string, io: ImageIo) {
    h.Dispatch(line, io).0.image != h.image
    || (Parse(line).Ok? && Parse(line).value.Command() == "WRITE_BLOCKS" && !IsError(h.Dispatch(line, io).1))
  }

  lemma {:induction false} SplitSector(bytes: seq<bv8>, count: nat, k: nat)
    requires |bytes| == count * BLOCK_SIZE && k < count
    ensures Split(bytes, count)[k] == Sector(bytes, k)
  {
    hide Concatenate, Split;
    var rest := bytes[BLOCK_SIZE..];
    SplitFirst(bytes, count);
    if k > 0 {
      SplitSector(rest, count - 1, k - 1);
      SectorOfRest(bytes, k);
    }
  }

  lemma SplitFirst(bytes: seq<bv8>, count: nat)
    requires |bytes| == count * BLOCK_SIZE && count > 0
    ensures Split(bytes, count) == [bytes[..BLOCK_SIZE]] + Split(bytes[BLOCK_SIZE..], count - 1)
  {
    hide Concatenate;
  }

  lemma SectorOfRest(bytes: seq<bv8>, k: nat)
    requires (k + 1) * 512 <= |bytes| && k > 0
    ensures Sector(bytes[BLOCK_SIZE..], k - 1) == Sector(bytes, k)
  {}

  lemma StoredIsStoredBytes(image: seq<Block>, lba: nat, count: nat, bytes: seq<bv8>, io: ImageIo)
    requires |bytes| == count * BLOCK_SIZE
    ensures StoredBytes(image, Stored(image, lba, Split(bytes, count), io), lba, count, bytes, io)
  {
    hide Split;
    forall k | 0 <= k < count ensures Split(bytes, count)[k] == Sector(bytes, k) {
      SplitSector(bytes, count, k);
    }
  }

  /** Only a write request can change the image, and its answer is the answer of the line. */
  lemma ActingIsWriting(h: Host, line: string, io: ImageIo)
    requires ActsAsWrite(h, line, io)
    ensures Parse(line).Ok?
    ensures var parsed := Parse(line).value;
            var admitted := h.(lastRequestId := LineId(line));
            && parsed.Command() == "WRITE_BLOCKS" && Admitted(h, line) && !h.ejected
            && h.Dispatch(line, io) == admitted.WriteBlocks(parsed, parsed.ValueFor("id"), io)
  {
    hide Parse, ParseU64, TextLine.ValueFor, ErrorText, IsError, Host.ReadBlocks, Host.WriteBlocks;
    RefusalsAreErrors();
    EmptyIsNoNumber();
  }

  /** The bytes a line would store, when it has any. */
  function PayloadOf(line: TextLine): (payload: (U64, nat, seq<bv8>)) {
    var lba, count := ParseU64(line.ValueFor("lba")), ParseU64(line.ValueFor("count"));
    if lba.None? || count.None? then (0, 0, [])
    else (lba.value, count.value, Codec.Decode(line.ValueFor("data"), count.value * 512).bytes)
  }

  lemma WrittenIsCarried(h: Host, line: TextLine, id: string, io: ImageIo)
    requires h.WriteBlocks(line, id, io).0.image != h.image || !IsError(h.WriteBlocks(line, id, io).1)
    ensures h.writable
    ensures var (lba, count, bytes) := PayloadOf(line);
            var (h', response) := h.WriteBlocks(line, id, io);
            && Carries(h, line, lba, count, bytes) && StoredBytes(h.image, h'.image, lba, count, bytes, io)
            && (IsError(response) <==> io.healthy < count)
  {
    hide ParseU64, ParseHex32, TextLine.ValueFor, ErrorText, IsError, Split, Stored, StoredBytes, Codec.Decode;
    RefusalsAreErrors();
    OkIsNoError(h, id);
    var (lba, count, bytes) := PayloadOf(line);
    if |bytes| == count * 512 {
      StoredIsStoredBytes(h.image, lba, count, bytes, io);
    }
  }

  lemma OkIsNoError(h: Host, id: string)
    ensures !IsError(h.OkText(id))
  {
    assert h.OkText(id)[0] == 'O';
  }

  /**
   * Whatever the line and however the image file behaves: if it changes the image, or is a write
   * answered by anything but an error, then it was an admitted write to a writable, inserted image,
   * its crc32 field is the CRC32 of the count * 512 bytes its data field stands for, and the image
   * differs in exactly the sectors it names, which hold those bytes or, where the image file failed,
   * a torn block.
   */
  lemma EveryWriteIsChecked(h: Host, line: string, io: ImageIo)
    requires ActsAsWrite(h, line, io)
    ensures Parse(line).Ok? && Parse(line).value.Command() == "WRITE_BLOCKS" && Admitted(h, line) && h.writable && !h.ejected
    ensures var (lba, count, bytes) := PayloadOf(Parse(line).value);
            var (h', response) := h.Dispatch(line, io);
            && Carries(h, Parse(line).value, lba, count, bytes)
            && StoredBytes(h.image, h'.image, lba, count, bytes, io)
            && (IsError(response) <==> io.healthy < count)
  {
    hide Parse, Admitted, PayloadOf, StoredBytes, Host.Dispatch, Host.WriteBlocks, IsError, TextLine.ValueFor;
    ActingIsWriting(h, line, io);
    var parsed := Parse(line).value;
    WrittenIsCarried(h.(lastRequestId := LineId(line)), parsed, parsed.ValueFor("id"), io);
    hide LineId, ParseU64, ParseHex32, Codec.Decode;
  }

  /** Conversely an admitted write that carries its bytes is stored. */
  lemma GoodWriteIsStored(h: Host, line: string, io: ImageIo, lba: U64, count: nat, bytes: seq<bv8>)
    requires Admitted(h, line) && Parse(line).value.Command() == "WRITE_BLOCKS" && h.writable && !h.ejected
    requires Carries(h, Parse(line).value, lba, count, bytes)
    ensures var (h', response) := h.Dispatch(line, io);
            StoredBytes(h.image, h'.image, lba, count, bytes, io) && (IsError(response) <==> io.healthy < count)
  {
    hide Parse, StoredBytes, Host.WriteBlocks, IsError, TextLine.ValueFor, ParseU64, ErrorText, Host.ReadBlocks, ParseHex32,
      Codec.Decode;
    EmptyIsNoNumber();
    var parsed, admitted := Parse(line).value, h.(lastRequestId := LineId(line));
    CarriedIsWritten(admitted, parsed, parsed.ValueFor("id"), io, lba, count, bytes);
  }

  lemma CarriedIsWritten(h: Host, line: TextLine, id: string, io: ImageIo, lba: U64, count: nat, bytes: seq<bv8>)
    requires Carries(h, line, lba, count, bytes) && h.writable
    ensures var (h', response) := h.WriteBlocks(line, id, io);
            StoredBytes(h.image, h'.image, lba, count, bytes, io) && (IsError(response) <==> io.healthy < count)
  {
    hide ParseU64, ParseHex32, TextLine.ValueFor, ErrorText, IsError, Split, Stored, StoredBytes, Codec.Decode;
    RefusalsAreErrors();
    OkIsNoError(h, id);
    StoredIsStoredBytes(h.image, lba, count, bytes, io);
  }

  /** An admitted write whose crc32 field is another number is answered BAD_CRC and changes nothing in the image. */
  lemma WrongChecksumIsRefused(h: Host, line: string, io: ImageIo, lba: U64, count: nat, bytes: seq<bv8>, checksum: int)
    requires Admitted(h, line) && h.writable && !h.ejected
    requires var parsed := Parse(line).value;
             && parsed.Command() == "WRITE_BLOCKS" && parsed.ValueFor("encoding") == "BASE64"
             && ParseU64(parsed.ValueFor("lba")) == Some(lba) && ParseU64(parsed.ValueFor("count")) == Some(count)
             && 0 < count <= 16 && lba + count <= |h.image|
             && Codec.Decode(parsed.ValueFor("data"), count * 512) == Codec.Decoded(Codec.NoError, bytes) && |bytes| == count * 512
             && ParseHex32(parsed.ValueFor("crc32")) == Some(checksum) && checksum != Crc.Crc32(bytes) as int
    ensures var (h', response) := h.Dispatch(line, io);
            h'.image == h.image && response == "ERR id=" + Parse(line).value.ValueFor("id") + " code=BAD_CRC"
  {
    hide Parse, TextLine.ValueFor, ParseU64, Host.ReadBlocks, ParseHex32, Codec.Decode, Stored, Split;
    EmptyIsNoNumber();
    var id := Parse(line).value.ValueFor("id");
    assert ErrorText(id, "BAD_CRC") == "ERR id=" + id + " code=BAD_CRC" by {
      assert "ERR id=" + id + (" code=" + "BAD_CRC") == "ERR id=" + id + " code=" + "BAD_CRC";
    }
  }

  /**
   * A write line damaged on the link: its crc32 field is that of the bytes sent, and the bytes its
   * data field stands for differ from them within four adjacent bytes. It changes nothing in the
   * image and is answered by an error, whatever else the line says.
   */
  lemma DamagedWriteIsRefused(
    h: Host, line: string, io: ImageIo, prefix: seq<bv8>, x: seq<bv8>, y: seq<bv8>, suffix: seq<bv8>)
    requires Parse(line).Ok? && |x| == |y| <= 4 && x != y
    requires PayloadOf(Parse(line).value).2 == prefix + y + suffix
    requires ParseHex32(Parse(line).value.ValueFor("crc32")) == Some(Crc.Crc32(prefix + x + suffix) as int)
    ensures h.Dispatch(line, io).0.image == h.image
    ensures Parse(line).value.Command() == "WRITE_BLOCKS" ==> IsError(h.Dispatch(line, io).1)
  {
    hide *;
    DamagedChecksum(prefix, x, y, suffix);
    NotActing(h, line, io);
    if ActsAsWrite(h, line, io) {
      EveryWriteIsChecked(h, line, io);
      var (lba, count, bytes) := PayloadOf(Parse(line).value);
      CarriesItsChecksum(h, Parse(line).value, lba, count, bytes);
    }
  }

  lemma NotActing(h: Host, line: string, io: ImageIo)
    ensures !ActsAsWrite(h, line, io) && Parse(line).Ok? ==>
              h.Dispatch(line, io).0.image == h.image
              && (Parse(line).value.Command() == "WRITE_BLOCKS" ==> IsError(h.Dispatch(line, io).1))
  {
    hide Parse, Host.Dispatch, IsError, TextLine.Command;
  }

  lemma CarriesItsChecksum(h: Host, line: TextLine, lba: U64, count: nat, bytes: seq<bv8>)
    requires Carries(h, line, lba, count, bytes)
    ensures ParseHex32(line.ValueFor("crc32")) == Some(Crc.Crc32(bytes) as int)
  {
    hide ParseHex32, ParseU64, TextLine.ValueFor, Codec.Decode, Crc.Crc32;
  }

  lemma DamagedChecksum(prefix: seq<bv8>, x: seq<bv8>, y: seq<bv8>, suffix: seq<bv8>)
    requires |x| == |y| <= 4 && x != y
    ensures Crc.Crc32(prefix + x + suffix) as int != Crc.Crc32(prefix + y + suffix) as int
  {
    hide Crc.Crc32;
    CrcTheory.Crc32DetectsBurst(prefix, x, y, suffix);
    SameChecksum(Crc.Crc32(prefix + x + suffix), Crc.Crc32(prefix + y + suffix));
  }

  lemma SameChecksum(a: bv32, b: bv32)
    ensures a as int == b as int ==> a == b
  {
    assert a as int as bv32 == a && b as int as bv32 == b;
  }

  // ---- Reads at the host -------------------------------------------------------

  lemma {:induction false} ConcatenateSector(blocks: seq<Block>, k: nat)
    requires k < |blocks|
    ensures |Concatenate(blocks)| == |blocks| * BLOCK_SIZE && Sector(Concatenate(blocks), k) == blocks[k]
  {
    hide Concatenate;
    ConcatenateFirst(blocks);
    if k > 0 {
      ConcatenateSector(blocks[1..], k - 1);
      SectorOfRest(Concatenate(blocks), k);
    }
  }

  lemma ConcatenateFirst(blocks: seq<Block>)
    requires blocks != []
    ensures var bytes := Concatenate(blocks);
            && |bytes| == |blocks| * BLOCK_SIZE && bytes[..BLOCK_SIZE] == blocks[0]
            && bytes[BLOCK_SIZE..] == Concatenate(blocks[1..])
  {}

  /** The bytes of a read answer: the named sectors of the image, in order. */
  ghost predicate LoadedBytes(image: seq<Block>, lba: nat, count: nat, bytes: seq<bv8>) {
    lba + count <= |image| && |bytes| == count * 512
    && forall k :: 0 <= k < count ==> Sector(bytes, k) == image[lba + k]
  }

  /**
   * A read request, whatever its line: answered without an error it names up to 16 sectors of the
   * image, and the answer carries exactly their bytes in base64, with their CRC32. It changes nothing.
   */
  lemma EveryReadIsWhole(h: Host, line: string, io: ImageIo)
    requires Parse(line).Ok? && Parse(line).value.Command() == "READ_BLOCKS" && !IsError(h.Dispatch(line, io).1)
    ensures Admitted(h, line) && h.Dispatch(line, io).0 == h.(lastRequestId := LineId(line))
    ensures var parsed := Parse(line).value;
            var lba, count := ParseU64(parsed.ValueFor("lba")), ParseU64(parsed.ValueFor("count"));
            && lba.Some? && count.Some? && 0 < count.value <= 16
            && exists bytes :: LoadedBytes(h.image, lba.value, count.value, bytes)
                 && h.Dispatch(line, io).1
                    == "OK id=" + parsed.ValueFor("id") + " session=" + h.sessionId + " lba=" + ToDecimal(lba.value)
                       + " count=" + ToDecimal(count.value) + " encoding=BASE64 crc32=" + ToHex(Crc.Crc32(bytes) as int, 8)
                       + " data=" + Codec.Encode(bytes)
  {
    hide Parse, TextLine.ValueFor, ErrorText, IsError, Host.ReadBlocks, ParseU64, ToDecimal, ToHex, Codec.Encode, LoadedBytes;
    RefusalsAreErrors();
    EmptyIsNoNumber();
    var parsed := Parse(line).value;
    ReadIsWhole(h.(lastRequestId := LineId(line)), parsed, parsed.ValueFor("id"), io);
  }

  lemma ReadIsWhole(h: Host, line: TextLine, id: string, io: ImageIo)
    requires !IsError(h.ReadBlocks(line, id, io))
    ensures var lba, count := ParseU64(line.ValueFor("lba")), ParseU64(line.ValueFor("count"));
            && lba.Some? && count.Some? && 0 < count.value <= 16
            && exists bytes :: LoadedBytes(h.image, lba.value, count.value, bytes)
                 && h.ReadBlocks(line, id, io)
                    == "OK id=" + id + " session=" + h.sessionId + " lba=" + ToDecimal(lba.value)
                       + " count=" + ToDecimal(count.value) + " encoding=BASE64 crc32=" + ToHex(Crc.Crc32(bytes) as int, 8)
                       + " data=" + Codec.Encode(bytes)
  {
    hide TextLine.ValueFor, ErrorText, IsError, ParseU64, ToDecimal, ToHex, Codec.Encode, LoadedBytes, Concatenate, Crc.Crc32;
    RefusalsAreErrors();
    var lba, count := ParseU64(line.ValueFor("lba")), ParseU64(line.ValueFor("count"));
    if lba.Some? && count.Some? && h.ValidRange(lba.value, count.value) {
      SlicesAreLoaded(h.image, lba.value, count.value);
    }
  }

  lemma SlicesAreLoaded(image: seq<Block>, lba: nat, count: nat)
    requires lba + count <= |image|
    ensures LoadedBytes(image, lba, count, Concatenate(image[lba..lba + count]))
  {
    var blocks := image[lba..lba + count];
    forall k | 0 <= k < count ensures Sector(Concatenate(blocks), k) == image[lba + k] {
      ConcatenateSector(blocks, k);
    }
    hide Concatenate;
  }

  // ---- Reads at the firmware ---------------------------------------------------

  /** A read answer is decoded to a block only if that block has the CRC32 the answer names. */
  lemma DecodedBlockIsChecked(response: string)
    requires DecodeReadBlock(response).Ok?
    ensures Parse(response).Ok? && Parse(response).value.Command() == "OK"
    ensures var line, read := Parse(response).value, DecodeReadBlock(response).value;
            && ParseU64(line.ValueFor("lba")) == Some(read.lba) && ParseU64(line.ValueFor("count")) == Some(1)
            && line.ValueFor("encoding") == "BASE64"
            && Codec.Decode(line.ValueFor("data"), 512) == Codec.Decoded(Codec.NoError, read.data)
            && |line.ValueFor("crc32")| == 8 && ParseHex32(line.ValueFor("crc32")) == Some(Crc.Crc32(read.data) as int)
  {
    hide Parse, ParseU64, ParseHex32, Codec.Decode, TextLine.ValueFor, TextLine.Command, Crc.Crc32;
  }

  /**
   * A read answer damaged on the link within four adjacent bytes of its data is not taken over: the
   * decoder refuses it, and a backend reading that sector stays exactly as it was.
   */
  lemma DamagedReadIsRefused(
    b: Backend, response: string, now: U64, prefix: seq<bv8>, x: seq<bv8>, y: seq<bv8>, suffix: seq<bv8>)
    requires Parse(response).Ok? && Parse(response).value.Command() == "OK" && |x| == |y| <= 4 && x != y
    requires Codec.Decode(Parse(response).value.ValueFor("data"), 512).bytes == prefix + y + suffix
    requires ParseHex32(Parse(response).value.ValueFor("crc32")) == Some(Crc.Crc32(prefix + x + suffix) as int)
    ensures DecodeReadBlock(response).Err?
    ensures BackendInv(b) && b.transfer == ReadTransfer ==> b.AcceptResponse(response, now).0 == b
  {
    hide Parse, DecodeReadBlock, TextLine.ValueFor, TextLine.Command, ParseHex32, ParseU64, Codec.Decode, Crc.Crc32,
      Backend.FinishResponse;
    CrcTheory.Crc32DetectsBurst(prefix, x, y, suffix);
    SameChecksum(Crc.Crc32(prefix + x + suffix), Crc.Crc32(prefix + y + suffix));
    if DecodeReadBlock(response).Ok? {
      DecodedBlockIsChecked(response);
    }
    if b.IsErrorLine(response) {
      ErrorLineCommand(response);
    }
  }

  /** A line that starts with ERR and a space has that command. */
  lemma ErrorLineCommand(response: string)
    requires |response| >= 4 && response[..4] == "ERR " && Parse(response).Ok?
    ensures Parse(response).value.Command() == "ERR"
  {
    var rest := response[3..];
    assert response == "ERR" + rest;
    WordsOfWord("ERR", rest);
    ParseAccepts(response);
  }
}
