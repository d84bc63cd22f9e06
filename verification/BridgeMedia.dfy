/**
 * The medium the SD side sees is the host's: in every run the service and the bridge know the size
 * and protection of the host's image or none at all, so every request that gets through names a
 * sector of it. Then what a request the USB stack refuses leaves behind.
 */
module BridgeMedia {
  import opened Basics
  import opened Numerals
  import opened TextLines
  import opened BlockResponse
  import opened SessionClient
  import opened WriteThroughBackend
  import opened BackendService
  import SI = ServiceInvariant
  import opened SessionDispatcher
  import opened TextLineTheory
  import opened Wire
  import opened WireReplies
  import opened SessionSystem
  import opened Coherence

  // ---- What the lines say ----------------------------------------------------------

  /** The medium of a host. */
  function Medium(h: Host): MediaInfo
    requires |h.image| <= MAX_U64
  {
    MediaInfo(true, !h.writable, |h.image|, 1)
  }

  /** A line that describes this medium: both flags given, blocks of 512 bytes, and some of them if a medium is present. */
  predicate Tells(line: TextLine, m: MediaInfo) {
    var blocks, generation := ParseU64(line.ValueFor("blocks")), line.ValueFor("generation");
    && line.Command() == "OK"
    && line.ValueFor("present") == (if m.present then "1" else "0")
    && line.ValueFor("readonly") == (if m.readOnly then "1" else "0")
    && ParseU64(line.ValueFor("block_size")) == Some(512)
    && blocks.Some? && m.blocks == (if m.present then blocks.value else 0) && (m.present ==> m.blocks > 0)
    && (if generation == "" then m.generation == 0 else ParseU64(generation) == Some(m.generation))
  }

  /** Any line at all is taken for a medium exactly if it describes that medium. */
  lemma MediumIsTold(line: string, m: MediaInfo)
    ensures DecodeMediaInfo(line) == Ok(m) <==> Parse(line).Ok? && Tells(Parse(line).value, m)
  {
    hide Parse, ParseU64, TextLine.ValueFor, TextLine.Command;
    NoNumber();
  }

  lemma NoNumber()
    ensures ParseU64("").None?
  {}

  /** No answer but that to GET_INFO describes a medium. */
  lemma OnlyInfoDescribes(r: Reply)
    requires ValidReply(r) && !r.InfoReply?
    ensures DecodeMediaInfo(ReplyText(r)).Err?
  {
    hide Parse, ReplyText, TextLine.ValueFor, TextLine.Command, ValidReply, ReplyFields, Line, WellFormedFields, Reads, Lacks;
    ReplyIsLine(r);
    ReplyWellFormed(r);
    LineReads(ReplyCommand(r), ReplyFields(r));
    NothingPresent(r);
    var parsed := Parse(ReplyText(r));
    ReadsNothing(parsed, ReplyCommand(r), ReplyFields(r), "present");
  }

  lemma NothingPresent(r: Reply)
    requires !r.InfoReply?
    ensures Lacks(ReplyFields(r), "present")
  {
    hide ToDecimal, ChecksumText, Codec.Encode;
  }

  /** Every answer to anything ever sent that describes a medium describes the host's. */
  ghost predicate LinesTell(s: System)
    requires |s.host.image| <= MAX_U64
  {
    forall line <- s.responses :: DecodeMediaInfo(line).Ok? ==> DecodeMediaInfo(line).value == Medium(s.host)
  }

  lemma AnswerTells(h: Host, m: Message, io: ImageIo)
    requires ValidMessage(m) && HostInv(h) && |h.image| <= MAX_U64
    ensures var text := ReplyText(Handle(h, m, io).1);
            DecodeMediaInfo(text).Ok? ==> DecodeMediaInfo(text).value == Medium(h)
  {
    hide DecodeMediaInfo, ReplyText;
    HandleIsValid(h, m, io);
    var r := Handle(h, m, io).1;
    if r.InfoReply? {
      assert r.blocks == |h.image| && r.readOnly == !h.writable;
      DecodeOfInfo(r);
    } else {
      OnlyInfoDescribes(r);
    }
  }

  // ---- What the firmware knows -----------------------------------------------------

  /** The service knows the host's medium or none, and the bridge exposes the host's medium or none. */
  ghost predicate Informed(s: System)
    requires |s.host.image| <= MAX_U64
  {
    var bridge, media := s.bridge, s.service.mediaInfo;
    && (media.present ==> media == Medium(s.host))
    && (bridge.present ==> bridge.blocks == |s.host.image| && bridge.readOnly == !s.host.writable && bridge.generation == 1)
    && (!bridge.present ==> bridge.readOnly && bridge.blocks == 0)
  }

  ghost predicate MediaInv(s: System) {
    |s.host.image| <= MAX_U64 && LinesTell(s) && Informed(s)
  }

  /** A call of the service that learns nothing keeps what it knew, or forgets it. */
  predicate LearnsNothing(v: Service, v': Service) { v'.mediaInfo == v.mediaInfo || v'.mediaInfo == NO_MEDIA_INFO }

  lemma PollLearnsNothing(v: Service, connected: bool, now: U64, sent: bool)
    requires v.Valid()
    ensures LearnsNothing(v, v.Poll(connected, now, sent).0)
  {
    hide Backend.BeginHandshake, Backend.BeginGetInfo, Backend.Disconnect, Backend.ExpireIfDue, Backend.IssueRetry, Backend.Poll;
  }

  lemma ResponseLearns(v: Service, line: string, now: U64)
    requires v.Valid()
    ensures var v' := v.HandleResponse(line, now).0;
            LearnsNothing(v, v') || (DecodeMediaInfo(line).Ok? && v'.mediaInfo == DecodeMediaInfo(line).value)
  {
    hide Backend.AcceptHandshake, Backend.AcceptResponse, Backend.Disconnect, DecodeMediaInfo, Client.AcceptResponse,
      Backend.MediaChanged, Backend.InvalidateMedia;
  }

  lemma EmitKeepsHost(s: System, v: Service, effect: Effect, session: string)
    ensures var s' := Emit(s, v, effect, session);
            s'.host.image == s.host.image && s'.host.writable == s.host.writable && s'.responses <= s.responses
            && s'.service == v && s'.bridge == s.bridge
  {}

  lemma MovedKeeps(s: System, v: Service, effect: Effect, session: string)
    requires MediaInv(s) && (LearnsNothing(s.service, v) || (v.mediaInfo.present ==> v.mediaInfo == Medium(s.host)))
    ensures MediaInv(Emit(s, v, effect, session))
  {
    hide Emit, DecodeMediaInfo;
    EmitKeepsHost(s, v, effect, session);
  }

  lemma HostKeeps(s: System, line: string, io: ImageIo)
    requires SystemInv(s) && MediaInv(s) && line in s.requests
    ensures MediaInv(Next(s, HostReceives(line, io)))
  {
    hide MessageText, ReplyText, Handle, Host.Dispatch, SI.ServiceInv, DecodeMediaInfo, ResponsesAreHonest, NoStaleBuffer, Coherent;
    var m :| Sent(s, m) && MessageText(m) == line;
    DispatchOfMessage(s.host, m, io);
    AnswerTells(s.host, m, io);
    HandleFacts(s.host, m, io);
    HandleKeepsAccess(s.host, m, io);
  }

  lemma HandleKeepsAccess(h: Host, m: Message, io: ImageIo)
    ensures Handle(h, m, io).0.writable == h.writable
  {}

  lemma RefreshKeeps(s: System)
    requires MediaInv(s)
    ensures MediaInv(s.(bridge := s.bridge.RefreshMedia(s.service)))
  {
    hide DecodeMediaInfo;
  }

  lemma BridgeWriteKeeps(bridge: SdBridge, v: Service, lba: U64, data: Block, now: U64, sent: bool)
    ensures var (bridge', v', _, _) := bridge.Write(v, lba, data, now, sent);
            v'.mediaInfo == v.mediaInfo && bridge'.present == bridge.present && bridge'.blocks == bridge.blocks
            && bridge'.readOnly == bridge.readOnly && bridge'.generation == bridge.generation
  {
    hide Backend.BeginWrite, Backend.CopyReady, Backend.Invalidate;
  }

  lemma BridgeReadKeeps(bridge: SdBridge, v: Service, lba: U64, now: U64, sent: bool)
    ensures bridge.Read(v, lba, now, sent).0.mediaInfo == v.mediaInfo
  {
    hide Backend.BeginRead, Backend.CopyReady, Backend.Invalidate;
  }

  lemma BridgeMoved(s: System, bridge: SdBridge)
    requires MediaInv(s) && bridge.present == s.bridge.present && bridge.blocks == s.bridge.blocks
    requires bridge.readOnly == s.bridge.readOnly && bridge.generation == s.bridge.generation
    ensures MediaInv(s.(bridge := bridge))
  {
    hide DecodeMediaInfo;
  }

  lemma StepTells(s: System, step: Step)
    requires SystemInv(s) && MediaInv(s) && Legal(s, step) && s.service.Valid()
    ensures MediaInv(Next(s, step))
  {
    hide SystemInv, MediaInv, Service.Poll, Service.HandleResponse, Backend.BeginRead, Backend.BeginWrite, Backend.CopyReady,
      SdBridge.Read, SdBridge.Write, SdBridge.RefreshMedia, Emit, Host.Dispatch, Backend.BeginPrefetch, DecodeMediaInfo,
      Backend.Invalidate;
    match step
    case Poll(connected, now, sent, session) =>
      PollLearnsNothing(s.service, connected, now, sent);
      var (v, effect) := s.service.Poll(connected, now, sent);
      MovedKeeps(s, v, effect, session);
    case FirmwareReceives(line, now, session) =>
      ResponseLearns(s.service, line, now);
      LineTells(s, line);
      var (v, _, effect) := s.service.HandleResponse(line, now);
      MovedKeeps(s, v, effect, session);
    case HostReceives(line, io) => HostKeeps(s, line, io);
    case BeginRead(lba, g, now, sent) =>
      var (v, _, effect) := s.service.BeginRead(lba, g, now, sent);
      MovedKeeps(s, v, effect, "");
    case BeginPrefetch(lba, g, now) =>
      var (backend, request) := s.service.backend.BeginPrefetch(lba, g, now);
      MovedKeeps(s, s.service.(backend := backend), Effect(request.line, false), "");
    case BeginWrite(lba, g, data, now, sent) =>
      var (v, _, effect) := s.service.BeginWrite(lba, g, data, now, sent);
      MovedKeeps(s, v, effect, "");
    case CopyReady(lba, g) =>
      var v := s.service.CopyReady(lba, g).0;
      MovedKeeps(s, v, QUIET, "");
      QuietEmit(s, v);
    case RefreshMedia => RefreshKeeps(s);
    case SdRead(lba, now, sent) =>
      BridgeReadKeeps(s.bridge, s.service, lba, now, sent);
      var (v, _, _, effect) := s.bridge.Read(s.service, lba, now, sent);
      MovedKeeps(s, v, effect, "");
    case SdWrite(lba, data, now, sent) =>
      BridgeWriteKeeps(s.bridge, s.service, lba, data, now, sent);
      var (bridge, v, _, effect) := s.bridge.Write(s.service, lba, data, now, sent);
      BridgeMoved(s, bridge);
      MovedKeeps(s.(bridge := bridge), v, effect, "");
  }

  lemma QuietEmit(s: System, v: Service)
    ensures Emit(s, v, QUIET, "") == s.(service := v)
  {}

  lemma LineTells(s: System, line: string)
    requires MediaInv(s) && line in s.responses
    ensures DecodeMediaInfo(line).Ok? ==> DecodeMediaInfo(line).value == Medium(s.host)
    ensures |s.host.image| <= MAX_U64
  {
    hide DecodeMediaInfo;
  }

  lemma {:induction false} RunTells(s: System, steps: seq<Step>)
    requires SystemInv(s) && MediaInv(s)
    ensures MediaInv(Run(s, steps))
    decreases steps
  {
    hide SystemInv, MediaInv, Next, Legal;
    if steps != [] {
      SystemIsValid(s);
      if Legal(s, steps[0]) {
        StepKeeps(s, steps[0]);
        StepTells(s, steps[0]);
      }
      RunTells(Take(s, steps[0]), steps[1..]);
    }
  }

  /** From power-up, whatever happens, the firmware knows the host's medium or none, and so does the bridge. */
  lemma MediumIsTrue(image: seq<Block>, cardType: string, writable: bool, session: string, steps: seq<Step>)
    requires Token(session) && Token(cardType) && |image| <= MAX_U64
    ensures var s := Run(Initial(image, cardType, writable, session), steps); MediaInv(s)
  {
    hide Run, SystemInv;
    InitialInv(image, cardType, writable, session);
    assert MediaInv(Initial(image, cardType, writable, session)) by { hide DecodeMediaInfo; }
    RunTells(Initial(image, cardType, writable, session), steps);
  }

  // ---- What gets through -----------------------------------------------------------

  /** A refused access: nothing is sent, and nobody's state changes. */
  predicate ReadRefused(s: System, lba: U64, now: U64, sent: bool) {
    s.bridge.Read(s.service, lba, now, sent) == (s.service, Failed, None, QUIET)
  }

  predicate WriteRefused(s: System, lba: U64, data: Block, now: U64, sent: bool) {
    s.bridge.Write(s.service, lba, data, now, sent) == (s.bridge, s.service, Failed, QUIET)
  }

  /**
   * After any run, an access that is not refused outright names a sector of the host's image, on a
   * bridge that exposes it; a write also needs a writable image. Nothing else reaches the session.
   */
  lemma AccessIsExposed(
    image: seq<Block>, cardType: string, writable: bool, session: string, steps: seq<Step>,
    lba: U64, data: Block, now: U64, sent: bool)
    requires Token(session) && Token(cardType) && |image| <= MAX_U64
    ensures var s := Run(Initial(image, cardType, writable, session), steps);
            && (!ReadRefused(s, lba, now, sent) ==> s.bridge.present && lba < |s.host.image|)
            && (!WriteRefused(s, lba, data, now, sent) ==> s.bridge.present && lba < |s.host.image| && s.host.writable)
  {
    hide Run, Initial, LinesTell, Service.CopyReady, Service.BeginRead, Service.BeginWrite;
    MediumIsTrue(image, cardType, writable, session, steps);
  }

  /** A refresh keeps a queued write exactly while the medium it was queued for is still there. */
  lemma RefreshKeepsWrite(bridge: SdBridge, v: Service)
    requires bridge.writePending
    ensures bridge.RefreshMedia(v).writePending
       <==> bridge.present && v.backend.client.negotiated && v.mediaInfo.present && v.mediaInfo.generation == bridge.generation
    ensures var next := bridge.RefreshMedia(v); next.pendingLba == bridge.pendingLba && next.pendingData == bridge.pendingData
  {}

  /** A lost connection frees the bridge: it exposes nothing, has forgotten its write and refuses every access. */
  lemma LostConnectionFrees(s: System, now: U64, sent: bool, session: string, lba: U64, data: Block, later: U64)
    requires s.service.Valid()
    ensures var lost := Next(s, Poll(false, now, sent, session));
            lost.service.Valid()
            && var t := Next(lost, RefreshMedia);
               && !t.bridge.present && !t.bridge.writePending
               && ReadRefused(t, lba, later, sent) && WriteRefused(t, lba, data, later, sent)
  {
    hide Backend.Disconnect;
    PollLoses(s.service, now, sent);
  }

  lemma PollLoses(v: Service, now: U64, sent: bool)
    requires v.Valid()
    ensures v.Poll(false, now, sent).0.mediaInfo == NO_MEDIA_INFO && v.Poll(false, now, sent).0.Valid()
  {}
}
