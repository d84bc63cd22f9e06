/** Decoders for the two data-bearing responses (cdc_block_response.cpp, cdc_media_info.cpp). */
module BlockResponse {
  import opened Basics
  import Crc
  import Codec
  import opened Numerals
  import opened TextLines

  datatype BlockResponseError =
    | InvalidLine
    | ErrorResponse
    | MissingField
    | InvalidValue
    | InvalidData
    | BadCrc

  datatype ReadBlock = ReadBlock(lba: U64, data: Block)

  /** hexadecimal_crc: exactly eight digits. */
  function ParseChecksum(text: string): Option<int> {
    if |text| != 8 then None else ParseHex32(text)
  }

  function DecodeReadLine(line: TextLine): Result<ReadBlock, BlockResponseError> {
    var lba, count, encoding := line.ValueFor("lba"), line.ValueFor("count"), line.ValueFor("encoding");
    var checksum, data := line.ValueFor("crc32"), line.ValueFor("data");
    if lba == "" || count == "" || encoding == "" || checksum == "" || data == "" then Err(MissingField)
    else
      var parsedLba, parsedChecksum := ParseU64(lba), ParseChecksum(checksum);
      if parsedLba.None? || ParseU64(count) != Some(1) || encoding != "BASE64" || parsedChecksum.None?
      then Err(InvalidValue)
      else
        var decoded := Codec.Decode(data, BLOCK_SIZE);
        if decoded.error != Codec.NoError || |decoded.bytes| != BLOCK_SIZE then Err(InvalidData)
        else if Crc.Crc32(decoded.bytes) as int != parsedChecksum.value then Err(BlockResponseError.BadCrc)
        else Ok(ReadBlock(parsedLba.value, decoded.bytes))
  }

  function DecodeReadBlock(response: string): Result<ReadBlock, BlockResponseError> {
    var parsed := Parse(response);
    if parsed.Err? then Err(InvalidLine)
    else if parsed.value.Command() != "OK" then Err(ErrorResponse)
    else DecodeReadLine(parsed.value)
  }

  method DecodeReadBlockResponse(response: string) returns (result: Result<ReadBlock, BlockResponseError>)
    ensures result == DecodeReadBlock(response)
  {
    var parsed := ParseTextLine(response);
    if parsed.Err? {
      return Err(InvalidLine);
    }
    var line := parsed.value;
    if line.Command() != "OK" {
      return Err(ErrorResponse);
    }
    var lba, count, encoding := line.ValueFor("lba"), line.ValueFor("count"), line.ValueFor("encoding");
    var checksum, data := line.ValueFor("crc32"), line.ValueFor("data");
    if lba == "" || count == "" || encoding == "" || checksum == "" || data == "" {
      return Err(MissingField);
    }
    var parsedLba, parsedChecksum := ParseU64(lba), ParseChecksum(checksum);
    if parsedLba.None? || ParseU64(count) != Some(1) || encoding != "BASE64" || parsedChecksum.None? {
      return Err(InvalidValue);
    }
    var bytes := new bv8[BLOCK_SIZE];
    var error, written := Codec.DecodeBase64(data, bytes);
    if error != Codec.NoError || written != BLOCK_SIZE {
      return Err(InvalidData);
    }
    assert bytes[..] == bytes[..written];
    var checksumOfBytes := Crc.ComputeCrc32(bytes[..]);
    if checksumOfBytes as int != parsedChecksum.value {
      return Err(BlockResponseError.BadCrc);
    }
    return Ok(ReadBlock(parsedLba.value, bytes[..]));
  }

  // ---- GET_INFO ------------------------------------------------------------

  datatype MediaInfo = MediaInfo(present: bool, readOnly: bool, blocks: U64, generation: U64)

  const NO_MEDIA_INFO := MediaInfo(false, true, 0, 0)

  datatype MediaInfoError = BadLine | MissingInfo | InvalidField | UnsupportedBlockSize

  function DecodeMediaInfo(response: string): Result<MediaInfo, MediaInfoError> {
    var parsed := Parse(response);
    if parsed.Err? || parsed.value.Command() != "OK" then Err(BadLine)
    else
      var line := parsed.value;
      var present, readonly := line.ValueFor("present"), line.ValueFor("readonly");
      var blockSize, blocks := line.ValueFor("block_size"), line.ValueFor("blocks");
      if present == "" || readonly == "" || blockSize == "" || blocks == "" then Err(MissingInfo)
      else if present !in {"0", "1"} || readonly !in {"0", "1"} then Err(InvalidField)
      else
        var parsedSize, parsedBlocks := ParseU64(blockSize), ParseU64(blocks);
        if parsedSize.None? || parsedBlocks.None? then Err(InvalidField)
        else if parsedSize.value != BLOCK_SIZE then Err(UnsupportedBlockSize)
        else if present == "1" && parsedBlocks.value == 0 then Err(InvalidField)
        else
          var text := line.ValueFor("generation");
          var generation := if text == "" then Some(0) else ParseU64(text);
          if generation.None? then Err(InvalidField)
          else Ok(MediaInfo(present == "1", readonly == "1",
                            if present == "1" then parsedBlocks.value else 0, generation.value))
  }
}
