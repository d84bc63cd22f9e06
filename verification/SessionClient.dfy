/** The firmware end of the CDC session: request ids, correlation and session checks. */
module SessionClient {
  import opened Basics
  import Crc
  import Codec
  import opened Numerals
  import opened TextLines

  datatype ClientError =
    | NoError
    | Busy
    | NotNegotiated
    | InvalidRequest
    | InvalidResponse
    | MismatchedResponse
    | RemoteError
    | IdExhausted

  datatype RemoteErrorCode =
    | NoRemoteError | BadLine | MissingId | BadId | UnsupportedVersion | StaleId | HandshakeRequired
    | MissingSession | BadSession | NoMedia | IoError | BadRange | OutOfRange | ReadOnly | BadData
    | BadCrc | Unsupported | Unknown

  datatype RetryAdvice = DoNotRetry | RetrySameSession | Renegotiate | MediaUnavailable

  const PROTOCOL_VERSION := "0.1"

  function DecodeRemoteError(code: string): RemoteErrorCode {
    if code == "BAD_LINE" then BadLine
    else if code == "MISSING_ID" then MissingId
    else if code == "BAD_ID" then BadId
    else if code == "UNSUPPORTED_VERSION" then UnsupportedVersion
    else if code == "STALE_ID" then StaleId
    else if code == "HANDSHAKE_REQUIRED" then HandshakeRequired
    else if code == "MISSING_SESSION" then MissingSession
    else if code == "BAD_SESSION" then BadSession
    else if code == "NO_MEDIA" then NoMedia
    else if code == "IO_ERROR" then IoError
    else if code == "BAD_RANGE" then BadRange
    else if code == "RANGE" then OutOfRange
    else if code == "READ_ONLY" then ReadOnly
    else if code == "BAD_DATA" then BadData
    else if code == "BAD_CRC" then BadCrc
    else if code == "UNSUPPORTED" then Unsupported
    else Unknown
  }

  function RetryAdviceFor(error: RemoteErrorCode): RetryAdvice {
    match error
    case IoError => RetrySameSession
    case StaleId | HandshakeRequired | MissingSession | BadSession => Renegotiate
    case NoMedia => MediaUnavailable
    case _ => DoNotRetry
  }

  /** What a begin_* call returns: an error, or the line to transmit. */
  datatype Request = Request(error: ClientError, line: string)

  function Refused(error: ClientError): Request { Request(error, "") }

  datatype Client = Client(
    nextId: U64,
    pendingId: U64,
    pendingHandshake: bool,
    negotiated: bool,
    sessionId: string,
    remoteError: RemoteErrorCode,
    remoteErrorCode: string)
  {
    predicate RequestPending() { pendingId != 0 }

    function Reserve(handshake: bool): Client
    {
      this.(remoteError := NoRemoteError,
            remoteErrorCode := "",
            pendingId := nextId,
            pendingHandshake := handshake,
            nextId := if nextId == MAX_U64 then 0 else nextId + 1)
    }

    function BeginHandshake(): (Client, Request) {
      if RequestPending() then (this, Refused(Busy))
      else if negotiated then (this, Refused(InvalidRequest))
      else if nextId == 0 then (this, Refused(IdExhausted))
      else (Reserve(true), Request(NoError, HelloText(nextId)))
    }

    function BeginRequest(command: string, fields: string): (Client, Request) {
      if RequestPending() then (this, Refused(Busy))
      else if !negotiated then (this, Refused(NotNegotiated))
      else if nextId == 0 then (this, Refused(IdExhausted))
      else if command in {"", "HELLO", "OK", "ERR"} then (this, Refused(InvalidRequest))
      else
        var line := RequestText(command, nextId, sessionId, fields);
        var parsed := Parse(line);
        if parsed.Err? || parsed.value.Command() != command then (this, Refused(InvalidRequest))
        else (Reserve(false), Request(NoError, line))
    }

    function BeginGetInfo(): (Client, Request) { BeginRequest("GET_INFO", "") }
    function BeginFlush(): (Client, Request) { BeginRequest("FLUSH", "") }
    function BeginEject(): (Client, Request) { BeginRequest("EJECT", "") }

    function BeginReadBlock(lba: U64): (Client, Request) {
      BeginRequest("READ_BLOCKS", ReadFieldsText(lba))
    }

    function BeginWriteBlock(lba: U64, data: Block): (Client, Request) {
      BeginRequest("WRITE_BLOCKS", WriteFieldsText(lba, data))
    }

    function Settle(): Client { this.(pendingId := 0, pendingHandshake := false) }

    function Cancel(): Client { if RequestPending() then Settle() else this }

    function AcceptResponse(response: string): (Client, ClientError) {
      if !RequestPending() then (this, MismatchedResponse)
      else
        var parsed := Parse(response);
        if parsed.Err? || (parsed.value.Command() != "OK" && parsed.value.Command() != "ERR")
        then (this, InvalidResponse)
        else AcceptLine(parsed.value)
    }

    /** The rest of accept_response, once the line has parsed as OK or ERR. */
    function AcceptLine(line: TextLine): (Client, ClientError) {
      var id := ParseU64(line.ValueFor("id"));
      if id.None? || id.value == 0 then (this, InvalidResponse)
      else if id.value != pendingId then (this, MismatchedResponse)
      else if line.Command() == "ERR" then
        var code := line.ValueFor("code");
        if code == "" then (this, InvalidResponse)
        else (Settle().(remoteError := DecodeRemoteError(code), remoteErrorCode := code), RemoteError)
      else
        var session := line.ValueFor("session");
        if pendingHandshake then
          if line.ValueFor("version") != PROTOCOL_VERSION || session == "" then (this, InvalidResponse)
          else (Settle().(sessionId := session, negotiated := true), NoError)
        else if session != sessionId then (this, MismatchedResponse)
        else (Settle(), NoError)
    }
  }

  const FRESH_CLIENT := Client(1, 0, false, false, "", NoRemoteError, "")

  // ---- Line text -----------------------------------------------------------

  function HelloText(id: U64): string {
    "HELLO id=" + ToDecimal(id) + " version=" + PROTOCOL_VERSION
  }

  function RequestText(command: string, id: U64, session: string, fields: string): string {
    var line := command + " id=" + ToDecimal(id) + " session=" + session;
    if fields == "" then line else line + " " + fields
  }

  function ReadFieldsText(lba: U64): string {
    "lba=" + ToDecimal(lba) + " count=1 encoding=BASE64"
  }

  /** The "%08X" CRC32 of the transferred bytes. */
  function ChecksumText(data: seq<bv8>): string { ToHex(Crc.Crc32(data) as int, 8) }

  function WriteFieldsText(lba: U64, data: Block): string {
    "lba=" + ToDecimal(lba) + " count=1 encoding=BASE64 crc32=" + ChecksumText(data)
    + " data=" + Codec.Encode(data)
  }

  // ---- The class -----------------------------------------------------------

  class CdcSessionClient {
    var nextId: U64
    var pendingId: U64
    var pendingHandshake: bool
    var negotiated: bool
    var sessionId: string
    var remoteError: RemoteErrorCode
    var remoteErrorCode: string

    ghost function State(): Client
      reads this
    {
      Client(nextId, pendingId, pendingHandshake, negotiated, sessionId, remoteError, remoteErrorCode)
    }

    constructor ()
      ensures State() == FRESH_CLIENT
    {
      nextId, pendingId, pendingHandshake, negotiated := 1, 0, false, false;
      sessionId, remoteError, remoteErrorCode := "", NoRemoteError, "";
    }

    predicate RequestPending()
      reads this
    {
      pendingId != 0
    }

    method ReserveRequest(line: string, handshake: bool) returns (request: Request)
      modifies this
      ensures State() == old(State()).Reserve(handshake)
      ensures request == Request(NoError, line)
    {
      remoteError := NoRemoteError;
      remoteErrorCode := "";
      pendingId := nextId;
      pendingHandshake := handshake;
      nextId := if nextId == MAX_U64 then 0 else nextId + 1;
      return Request(NoError, line);
    }

    method BeginHandshake() returns (request: Request)
      modifies this
      ensures (State(), request) == old(State()).BeginHandshake()
    {
      if RequestPending() {
        return Refused(Busy);
      }
      if negotiated {
        return Refused(InvalidRequest);
      }
      if nextId == 0 {
        return Refused(IdExhausted);
      }
      request := ReserveRequest(HelloText(nextId), true);
    }

    method BeginRequest(command: string, fields: string) returns (request: Request)
      modifies this
      ensures (State(), request) == old(State()).BeginRequest(command, fields)
    {
      if RequestPending() {
        return Refused(Busy);
      }
      if !negotiated {
        return Refused(NotNegotiated);
      }
      if nextId == 0 {
        return Refused(IdExhausted);
      }
      if command == "" || command == "HELLO" || command == "OK" || command == "ERR" {
        return Refused(InvalidRequest);
      }
      var line := RequestText(command, nextId, sessionId, fields);
      var parsed := ParseTextLine(line);
      if parsed.Err? || parsed.value.Command() != command {
        return Refused(InvalidRequest);
      }
      request := ReserveRequest(line, false);
    }

    method BeginGetInfo() returns (request: Request)
      modifies this
      ensures (State(), request) == old(State()).BeginGetInfo()
    {
      request := BeginRequest("GET_INFO", "");
    }

    method BeginFlush() returns (request: Request)
      modifies this
      ensures (State(), request) == old(State()).BeginFlush()
    {
      request := BeginRequest("FLUSH", "");
    }

    method BeginEject() returns (request: Request)
      modifies this
      ensures (State(), request) == old(State()).BeginEject()
    {
      request := BeginRequest("EJECT", "");
    }

    method BeginReadBlock(lba: U64) returns (request: Request)
      modifies this
      ensures (State(), request) == old(State()).BeginReadBlock(lba)
    {
      request := BeginRequest("READ_BLOCKS", ReadFieldsText(lba));
    }

    method BeginWriteBlock(lba: U64, data: Block) returns (request: Request)
      modifies this
      ensures (State(), request) == old(State()).BeginWriteBlock(lba, data)
    {
      var checksum := Crc.ComputeCrc32(data);
      var text := Codec.EncodeBase64(data);
      request := BeginRequest("WRITE_BLOCKS",
                              "lba=" + ToDecimal(lba) + " count=1 encoding=BASE64 crc32="
                              + ToHex(checksum as int, 8) + " data=" + text);
    }

    method AcceptResponse(response: string) returns (result: ClientError)
      modifies this
      ensures (State(), result) == old(State()).AcceptResponse(response)
    {
      if !RequestPending() {
        return MismatchedResponse;
      }
      var parsed := ParseTextLine(response);
      if parsed.Err? || (parsed.value.Command() != "OK" && parsed.value.Command() != "ERR") {
        return InvalidResponse;
      }
      var line := parsed.value;
      var id := ParseU64(line.ValueFor("id"));
      if id.None? || id.value == 0 {
        return InvalidResponse;
      }
      if id.value != pendingId {
        return MismatchedResponse;
      }
      if line.Command() == "ERR" {
        var code := line.ValueFor("code");
        if code == "" {
          return InvalidResponse;
        }
        remoteError := DecodeRemoteError(code);
        remoteErrorCode := code;
        pendingId := 0;
        pendingHandshake := false;
        return RemoteError;
      }
      if pendingHandshake {
        var session := line.ValueFor("session");
        if line.ValueFor("version") != PROTOCOL_VERSION || session == "" {
          return InvalidResponse;
        }
        sessionId := session;
        negotiated := true;
      } else if line.ValueFor("session") != sessionId {
        return MismatchedResponse;
      }
      pendingId := 0;
      pendingHandshake := false;
      return NoError;
    }

    method CancelPendingRequest() returns (cancelled: bool)
      modifies this
      ensures State() == old(State()).Cancel()
      ensures cancelled == old(RequestPending())
    {
      if !RequestPending() {
        return false;
      }
      pendingId := 0;
      pendingHandshake := false;
      return true;
    }

    method Reset()
      modifies this
      ensures State() == FRESH_CLIENT
    {
      nextId := 1;
      pendingId := 0;
      pendingHandshake := false;
      negotiated := false;
      sessionId := "";
      remoteError := NoRemoteError;
      remoteErrorCode := "";
    }
  }
}
