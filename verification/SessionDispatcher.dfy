/** The host end of the protocol, over an image of blocks (session_dispatcher.cpp, image_file.cpp). */
module SessionDispatcher {
  import opened Basics
  import Crc
  import Codec
  import opened Numerals
  import opened TextLines
  import SC = SessionClient

  const MAXIMUM_TRANSFER_BLOCKS := 16

  /**
   * How the image file behaves during one request: the first `healthy` block operations
   * succeed, the next one fails, and a failed write may leave anything in its block.
   */
  datatype ImageIo = ImageIo(healthy: nat, torn: Block, flushes: bool)

  datatype Host = Host(
    image: seq<Block>,
    cardType: string,
    sessionId: string,
    writable: bool,
    established: bool,
    ejected: bool,
    lastRequestId: U64)
  {
    predicate ValidRange(lba: U64, count: U64) {
      0 < count <= MAXIMUM_TRANSFER_BLOCKS && lba < |image| && count <= |image| - lba
    }

    function Dispatch(request: string, io: ImageIo): (Host, string) {
      match Parse(request)
      case Err(_) => (this, ErrorText("", "BAD_LINE"))
      case Ok(line) =>
        var id := line.ValueFor("id");
        if id == "" then (this, ErrorText("", "MISSING_ID"))
        else
          var requestId := ParseU64(id);
          if requestId.None? || requestId.value == 0 then (this, ErrorText(id, "BAD_ID"))
          else if line.Command() == "HELLO" then Hello(line, id, requestId.value)
          else if !established then (this, ErrorText(id, "HANDSHAKE_REQUIRED"))
          else if line.ValueFor("session") == "" then (this, ErrorText(id, "MISSING_SESSION"))
          else if line.ValueFor("session") != sessionId then (this, ErrorText(id, "BAD_SESSION"))
          else if requestId.value <= lastRequestId then (this, ErrorText(id, "STALE_ID"))
          else this.(lastRequestId := requestId.value).Execute(line, id, io)
    }

    function Hello(line: TextLine, id: string, requestId: U64): (Host, string) {
      if line.ValueFor("version") != "0.1" then (this, ErrorText(id, "UNSUPPORTED_VERSION"))
      else if established && requestId <= lastRequestId then (this, ErrorText(id, "STALE_ID"))
      else (this.(established := true, lastRequestId := requestId),
            "OK id=" + id + " version=0.1 session=" + sessionId)
    }

    function OkText(id: string): string { "OK id=" + id + " session=" + sessionId }

    /** A session request whose id has just been accepted. */
    function Execute(line: TextLine, id: string, io: ImageIo): (Host, string) {
      var command := line.Command();
      if ejected && command != "EJECT" then (this, ErrorText(id, "NO_MEDIA"))
      else if command == "GET_INFO" then (this, OkText(id) + InfoText())
      else if command == "FLUSH" then (this, if io.flushes then OkText(id) else ErrorText(id, "IO_ERROR"))
      else if command == "EJECT" then
        if !io.flushes then (this, ErrorText(id, "IO_ERROR")) else (this.(ejected := true), OkText(id))
      else if command == "READ_BLOCKS" then (this, ReadBlocks(line, id, io))
      else if command == "WRITE_BLOCKS" then WriteBlocks(line, id, io)
      else (this, ErrorText(id, "UNSUPPORTED"))
    }

    function InfoText(): string {
      " present=1 type=" + cardType + " blocks=" + ToDecimal(|image|) + " block_size=512 max_blocks="
      + ToDecimal(MAXIMUM_TRANSFER_BLOCKS) + " readonly=" + (if writable then "0" else "1") + " generation=1"
    }

    function ReadBlocks(line: TextLine, id: string, io: ImageIo): string {
      var lba, count := ParseU64(line.ValueFor("lba")), ParseU64(line.ValueFor("count"));
      if lba.None? || count.None? || line.ValueFor("encoding") != "BASE64" then ErrorText(id, "BAD_RANGE")
      else if !ValidRange(lba.value, count.value) then ErrorText(id, "RANGE")
      else if io.healthy < count.value then ErrorText(id, "IO_ERROR")
      else
        var bytes := Concatenate(image[lba.value..lba.value + count.value]);
        OkText(id) + " lba=" + ToDecimal(lba.value) + " count=" + ToDecimal(count.value)
        + " encoding=BASE64 crc32=" + SC.ChecksumText(bytes) + " data=" + Codec.Encode(bytes)
    }

    function WriteBlocks(line: TextLine, id: string, io: ImageIo): (Host, string) {
      if !writable then (this, ErrorText(id, "READ_ONLY"))
      else
        var lba, count := ParseU64(line.ValueFor("lba")), ParseU64(line.ValueFor("count"));
        var checksum := ParseHex32(line.ValueFor("crc32"));
        if lba.None? || count.None? || line.ValueFor("encoding") != "BASE64" || checksum.None?
        then (this, ErrorText(id, "BAD_RANGE"))
        else if !ValidRange(lba.value, count.value) then (this, ErrorText(id, "RANGE"))
        else
          var size := count.value * BLOCK_SIZE;
          var decoded := Codec.Decode(line.ValueFor("data"), size);
          if decoded.error != Codec.NoError || |decoded.bytes| != size then (this, ErrorText(id, "BAD_DATA"))
          else if Crc.Crc32(decoded.bytes) as int != checksum.value then (this, ErrorText(id, "BAD_CRC"))
          else
            var blocks := Split(decoded.bytes, count.value);
            (this.(image := Stored(image, lba.value, blocks, io)),
             if io.healthy < count.value then ErrorText(id, "IO_ERROR") else OkText(id))
    }
  }

  function NewHost(image: seq<Block>, cardType: string, writable: bool, sessionId: string): Host {
    Host(image, cardType, sessionId, writable, false, false, 0)
  }

  function ErrorText(id: string, code: string): string {
    "ERR id=" + (if id == "" then "0" else id) + " code=" + code
  }

  // ---- Runs of blocks ------------------------------------------------------

  function Concatenate(blocks: seq<Block>): (bytes: seq<bv8>)
    ensures |bytes| == |blocks| * BLOCK_SIZE
  {
    if blocks == [] then [] else blocks[0] + Concatenate(blocks[1..])
  }

  function Split(bytes: seq<bv8>, count: nat): (blocks: seq<Block>)
    requires |bytes| == count * BLOCK_SIZE
    ensures |blocks| == count
    ensures Concatenate(blocks) == bytes
  {
    if count == 0 then []
    else
      var rest := Split(bytes[BLOCK_SIZE..], count - 1);
      assert bytes == bytes[..BLOCK_SIZE] + bytes[BLOCK_SIZE..];
      [bytes[..BLOCK_SIZE]] + rest
  }

  /** Block i after writing blocks one by one from lba until the image file fails. */
  function StoredBlock(image: seq<Block>, lba: nat, blocks: seq<Block>, io: ImageIo, i: nat): Block
    requires i < |image|
  {
    if lba <= i < lba + Min(io.healthy, |blocks|) then blocks[i - lba]
    else if i == lba + io.healthy && io.healthy < |blocks| then io.torn
    else image[i]
  }

  function Stored(image: seq<Block>, lba: nat, blocks: seq<Block>, io: ImageIo): (r: seq<Block>)
    ensures |r| == |image|
    ensures forall i :: 0 <= i < |image| ==> r[i] == StoredBlock(image, lba, blocks, io, i)
  {
    seq<Block>(|image|, i requires 0 <= i < |image| => StoredBlock(image, lba, blocks, io, i))
  }

  // ---- The class -----------------------------------------------------------

  class SessionDispatcher {
    const image: array<Block>
    const cardType: string
    const sessionId: string
    const writable: bool
    var established: bool
    var ejected: bool
    var lastRequestId: U64

    ghost function State(): Host
      reads this, image
    {
      Host(image[..], cardType, sessionId, writable, established, ejected, lastRequestId)
    }

    constructor (image: array<Block>, cardType: string, writable: bool, sessionId: string)
      ensures this.image == image && State() == NewHost(image[..], cardType, writable, sessionId)
    {
      this.image := image;
      this.cardType := cardType;
      this.writable := writable;
      this.sessionId := sessionId;
      established, ejected, lastRequestId := false, false, 0;
    }

    predicate ValidRange(lba: U64, count: U64)
      reads this, image
      ensures ValidRange(lba, count) == State().ValidRange(lba, count)
    {
      0 < count <= MAXIMUM_TRANSFER_BLOCKS && lba < image.Length && count <= image.Length - lba
    }

    method Dispatch(request: string, io: ImageIo) returns (response: string)
      modifies this, image
      ensures (State(), response) == old(State()).Dispatch(request, io)
    {
      var parsed := ParseTextLine(request);
      if parsed.Err? {
        return ErrorText("", "BAD_LINE");
      }
      var line := parsed.value;
      var id := line.ValueFor("id");
      if id == "" {
        return ErrorText("", "MISSING_ID");
      }
      var requestId := ParseU64(id);
      if requestId.None? || requestId.value == 0 {
        return ErrorText(id, "BAD_ID");
      }
      if line.Command() == "HELLO" {
        if line.ValueFor("version") != "0.1" {
          return ErrorText(id, "UNSUPPORTED_VERSION");
        }
        if established && requestId.value <= lastRequestId {
          return ErrorText(id, "STALE_ID");
        }
        established := true;
        lastRequestId := requestId.value;
        return "OK id=" + id + " version=0.1 session=" + sessionId;
      }
      if !established {
        return ErrorText(id, "HANDSHAKE_REQUIRED");
      }
      var session := line.ValueFor("session");
      if session == "" {
        return ErrorText(id, "MISSING_SESSION");
      }
      if session != sessionId {
        return ErrorText(id, "BAD_SESSION");
      }
      if requestId.value <= lastRequestId {
        return ErrorText(id, "STALE_ID");
      }
      lastRequestId := requestId.value;
      response := Execute(line, id, io);
    }

    method Execute(line: TextLine, id: string, io: ImageIo) returns (response: string)
      modifies this, image
      ensures (State(), response) == old(State()).Execute(line, id, io)
    {
      hide Host.ReadBlocks, Host.WriteBlocks;
      var ok := "OK id=" + id + " session=" + sessionId;
      if ejected && line.Command() != "EJECT" {
        return ErrorText(id, "NO_MEDIA");
      }
      if line.Command() == "GET_INFO" {
        return ok + (" present=1 type=" + cardType + " blocks=" + ToDecimal(image.Length)
                     + " block_size=512 max_blocks=" + ToDecimal(MAXIMUM_TRANSFER_BLOCKS)
                     + " readonly=" + (if writable then "0" else "1") + " generation=1");
      }
      if line.Command() == "FLUSH" {
        return if io.flushes then ok else ErrorText(id, "IO_ERROR");
      }
      if line.Command() == "EJECT" {
        if !io.flushes {
          return ErrorText(id, "IO_ERROR");
        }
        ejected := true;
        return ok;
      }
      if line.Command() == "READ_BLOCKS" {
        response := ReadBlocks(line, id, io);
        return;
      }
      if line.Command() == "WRITE_BLOCKS" {
        response := WriteBlocks(line, id, io);
        return;
      }
      return ErrorText(id, "UNSUPPORTED");
    }

    method ReadBlocks(line: TextLine, id: string, io: ImageIo) returns (response: string)
      ensures response == State().ReadBlocks(line, id, io)
    {
      var lba, count := ParseU64(line.ValueFor("lba")), ParseU64(line.ValueFor("count"));
      if lba.None? || count.None? || line.ValueFor("encoding") != "BASE64" {
        return ErrorText(id, "BAD_RANGE");
      }
      if !ValidRange(lba.value, count.value) {
        return ErrorText(id, "RANGE");
      }
      var loaded := LoadBlocks(lba.value, count.value, io);
      if loaded.None? {
        return ErrorText(id, "IO_ERROR");
      }
      var bytes := loaded.value;
      var checksum := Crc.ComputeCrc32(bytes);
      var text := Codec.EncodeBase64(bytes);
      return "OK id=" + id + " session=" + sessionId
             + " lba=" + ToDecimal(lba.value) + " count=" + ToDecimal(count.value)
             + " encoding=BASE64 crc32=" + ToHex(checksum as int, 8) + " data=" + text;
    }

    /** The read loop: gives up at the first block the image file cannot read. */
    method LoadBlocks(lba: nat, count: nat, io: ImageIo) returns (loaded: Option<seq<bv8>>)
      requires lba + count <= image.Length
      ensures loaded == if io.healthy < count then None else Some(Concatenate(image[lba..lba + count]))
    {
      ghost var wanted := image[lba..lba + count];
      var bytes: seq<bv8> := [];
      for index := 0 to count
        invariant index <= io.healthy
        invariant bytes + Concatenate(wanted[index..]) == Concatenate(wanted)
      {
        if index >= io.healthy {
          return None;
        }
        assert wanted[index..][1..] == wanted[index + 1..];
        bytes := bytes + image[lba + index];
      }
      assert bytes + Concatenate([]) == bytes;
      return Some(bytes);
    }

    method WriteBlocks(line: TextLine, id: string, io: ImageIo) returns (response: string)
      modifies image
      ensures (State(), response) == old(State()).WriteBlocks(line, id, io)
    {
      if !writable {
        return ErrorText(id, "READ_ONLY");
      }
      var lba, count := ParseU64(line.ValueFor("lba")), ParseU64(line.ValueFor("count"));
      var checksum := ParseHex32(line.ValueFor("crc32"));
      if lba.None? || count.None? || line.ValueFor("encoding") != "BASE64" || checksum.None? {
        return ErrorText(id, "BAD_RANGE");
      }
      if !ValidRange(lba.value, count.value) {
        return ErrorText(id, "RANGE");
      }
      var size := count.value * BLOCK_SIZE;
      var buffer := new bv8[size];
      var error, written := Codec.DecodeBase64(line.ValueFor("data"), buffer);
      if error != Codec.NoError || written != size {
        return ErrorText(id, "BAD_DATA");
      }
      assert buffer[..] == buffer[..written];
      var computed := Crc.ComputeCrc32(buffer[..]);
      if computed as int != checksum.value {
        return ErrorText(id, "BAD_CRC");
      }
      var blocks := Split(buffer[..], count.value);
      var stored := StoreBlocks(lba.value, blocks, io);
      return if stored then "OK id=" + id + " session=" + sessionId else ErrorText(id, "IO_ERROR");
    }

    /** The write loop: stops at the first block the image file cannot write. */
    method StoreBlocks(lba: nat, blocks: seq<Block>, io: ImageIo) returns (stored: bool)
      requires lba + |blocks| <= image.Length
      modifies image
      ensures image[..] == Stored(old(image[..]), lba, blocks, io)
      ensures stored <==> |blocks| <= io.healthy
    {
      for index := 0 to |blocks|
        invariant index <= io.healthy
        invariant forall i :: 0 <= i < image.Length ==>
                    image[i] == if lba <= i < lba + index then blocks[i - lba] else old(image[i])
      {
        if index >= io.healthy {
          image[lba + index] := io.torn;
          return false;
        }
        image[lba + index] := blocks[index];
      }
      return true;
    }
  }
}
