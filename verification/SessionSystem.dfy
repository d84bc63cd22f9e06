/**
 * The whole system: firmware service and SD bridge, host dispatcher and image, and a channel of
 * text lines in each direction. A line once sent may be delivered at any later time, any number
 * of times and in any order, or never. Dropping the session creates a new dispatcher on the same
 * image and empties the channel, as the protocol document requires of a reopened transport.
 */
module SessionSystem {
  import opened Basics
  import opened BackendService
  import opened WriteThroughBackend
  import opened SessionDispatcher
  import opened Wire

  datatype System = System(
    service: Service,
    bridge: SdBridge,
    host: Host,
    requests: set<string>,
    responses: set<string>)

  datatype Step =
    | Poll(connected: bool, now: U64, sent: bool, newSession: string)
    | FirmwareReceives(line: string, now: U64, newSession: string)
    | HostReceives(line: string, io: ImageIo)
    | BeginRead(lba: U64, generation: U64, now: U64, sent: bool)
    | BeginPrefetch(lba: U64, generation: U64, now: U64)
    | BeginWrite(lba: U64, generation: U64, data: Block, now: U64, sent: bool)
    | CopyReady(lba: U64, generation: U64)
    | RefreshMedia
    | SdRead(lba: U64, now: U64, sent: bool)
    | SdWrite(lba: U64, data: Block, now: U64, sent: bool)

  /** Only lines that were sent can arrive, and a new session gets a well-formed token. */
  predicate Legal(s: System, step: Step) {
    match step
    case Poll(_, _, _, session) => Token(session)
    case FirmwareReceives(line, _, session) => line in s.responses && Token(session)
    case HostReceives(line, _) => line in s.requests
    case _ => true
  }

  /** The firmware has moved to `service`; its line joins the channel, or its session ends. */
  function Emit(s: System, service: Service, effect: Effect, newSession: string): System {
    if effect.disconnected then
      s.(service := service, requests := {}, responses := {},
         host := NewHost(s.host.image, s.host.cardType, s.host.writable, newSession))
    else
      s.(service := service,
         requests := if effect.line == "" then s.requests else s.requests + {effect.line})
  }

  function Next(s: System, step: Step): System
    requires s.service.Valid()
  {
    match step
    case Poll(connected, now, sent, session) =>
      var (service, effect) := s.service.Poll(connected, now, sent);
      Emit(s, service, effect, session)
    case FirmwareReceives(line, now, session) =>
      var (service, _, effect) := s.service.HandleResponse(line, now);
      Emit(s, service, effect, session)
    case HostReceives(line, io) =>
      var (host, response) := s.host.Dispatch(line, io);
      s.(host := host, responses := s.responses + {response})
    case BeginRead(lba, generation, now, sent) =>
      var (service, _, effect) := s.service.BeginRead(lba, generation, now, sent);
      Emit(s, service, effect, "")
    case BeginPrefetch(lba, generation, now) =>
      var (backend, request) := s.service.backend.BeginPrefetch(lba, generation, now);
      Emit(s, s.service.(backend := backend), Effect(request.line, false), "")
    case BeginWrite(lba, generation, data, now, sent) =>
      var (service, _, effect) := s.service.BeginWrite(lba, generation, data, now, sent);
      Emit(s, service, effect, "")
    case CopyReady(lba, generation) => s.(service := s.service.CopyReady(lba, generation).0)
    case RefreshMedia => s.(bridge := s.bridge.RefreshMedia(s.service))
    case SdRead(lba, now, sent) =>
      var (service, _, _, effect) := s.bridge.Read(s.service, lba, now, sent);
      Emit(s, service, effect, "")
    case SdWrite(lba, data, now, sent) =>
      var (bridge, service, _, effect) := s.bridge.Write(s.service, lba, data, now, sent);
      Emit(s.(bridge := bridge), service, effect, "")
  }

  function Initial(image: seq<Block>, cardType: string, writable: bool, session: string): System {
    System(NewService(), NewBridge(), NewHost(image, cardType, writable, session), {}, {})
  }

  // ---- Coherence -----------------------------------------------------------

  /** Every ready sector buffer equals the image block it stands for. */
  predicate Coherent(s: System) {
    forall i :: 0 <= i < |s.service.backend.pool.slots| && s.service.backend.pool.slots[i].state == P.Ready ==>
      s.service.backend.pool.slots[i].lba < |s.host.image|
      && s.service.backend.pool.slots[i].data == s.host.image[s.service.backend.pool.slots[i].lba]
  }
}
