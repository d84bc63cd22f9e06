/**
 * The worker's two byte streams. Between chip-select releases the bytes sent are a prefix of whole
 * engine outputs in order; the engine sees exactly the captured bytes in order; and over a whole run
 * every queued byte is sent, pending, or was discarded by a release.
 */
module StreamIntegrity {
  import opened Basics
  import opened SdCommand
  import opened BlockDevice
  import C = SdCardModel
  import opened SdSpiFramers
  import opened Crc
  import opened SdSpiCardEngine
  import opened EngineRuns
  import opened SdSpiTargetWorker

  datatype Call = Capture(byte: bv8) | Process(maxBytes: nat) | Dequeue | QueueNext | Released | TimedOut

  function Do(w: Worker, call: Call): (done: (Worker, seq<Offer>, Option<bv8>))
    requires w.Valid()
    ensures done.0.Valid()
  {
    match call
    case Capture(byte) => (w.Capture(byte).0, [], None)
    case Process(maxBytes) => var (next, offers) := w.Process(maxBytes); (next, offers, None)
    case Dequeue => w.DequeueTransmitByte()
    case QueueNext => var (next, offers) := w.QueueNextMultiReadBlock(); (next, offers, None)
    case Released => (w.ChipSelectReleased(), [], None)
    case TimedOut => (w.TransactionTimedOut(), [], None)
  }

  /** The bytes of the outputs that were queued. */
  function Kept(offers: seq<Offer>): seq<bv8> {
    if offers == [] then []
    else (if offers[0].kept then offers[0].output.bytes else []) + Kept(offers[1..])
  }

  function OutputsOf(offers: seq<Offer>): seq<Output> {
    if offers == [] then [] else [offers[0].output] + OutputsOf(offers[1..])
  }

  /** The outputs that exist, in order. */
  function Present(outputs: seq<Option<Output>>): seq<Output> {
    if outputs == [] then [] else (if outputs[0].Some? then [outputs[0].value] else []) + Present(outputs[1..])
  }

  lemma {:induction false} KeptAppend(a: seq<Offer>, b: seq<Offer>)
    ensures Kept(a + b) == Kept(a) + Kept(b)
    ensures OutputsOf(a + b) == OutputsOf(a) + OutputsOf(b)
  {
    if a == [] {
      assert a + b == b;
    } else {
      assert (a + b)[1..] == a[1..] + b;
      KeptAppend(a[1..], b);
      var first := if a[0].kept then a[0].output.bytes else [];
      assert first + (Kept(a[1..]) + Kept(b)) == first + Kept(a[1..]) + Kept(b);
      assert [a[0].output] + (OutputsOf(a[1..]) + OutputsOf(b)) == [a[0].output] + OutputsOf(a[1..]) + OutputsOf(b);
    }
  }

  lemma {:induction false} RunAppend(e: Engine, a: seq<Event>, b: seq<Event>)
    requires e.Valid()
    ensures Final(e, a + b) == Final(Final(e, a), b)
    ensures Present(Outputs(e, a + b)) == Present(Outputs(e, a)) + Present(Outputs(Final(e, a), b))
    decreases a
  {
    hide Step, Engine.Valid;
    if a == [] {
      assert a + b == b;
    } else {
      assert (a + b)[1..] == a[1..] + b;
      var (next, output) := Step(e, a[0]);
      RunAppend(next, a[1..], b);
      assert Outputs(e, a + b)[1..] == Outputs(next, a[1..] + b);
      assert Outputs(e, a)[1..] == Outputs(next, a[1..]);
    }
  }

  // ---- One call -------------------------------------------------------------------

  /** The engine events of one call, in order. */
  function EventsOfBytes(w: Worker, maxBytes: nat): seq<Event>
    requires w.Valid()
    decreases maxBytes
  {
    if maxBytes == 0 || w.received == [] then []
    else [Byte(w.received[0])] + EventsOfBytes(w.ProcessByte().0, maxBytes - 1)
  }

  function EventsOf(w: Worker, call: Call): seq<Event>
    requires w.Valid()
  {
    match call
    case Capture(_) => []
    case Process(maxBytes) => EventsOfBytes(w, maxBytes) + (if w.ProcessBytes(maxBytes).0.transmit == [] then [Poll] else [])
    case Dequeue => if |w.transmit| == 1 then [NextBlock] else []
    case QueueNext => [NextBlock]
    case Released => [Release]
    case TimedOut => [Release]
  }

  function BytesOf(events: seq<Event>): seq<bv8> {
    if events == [] then [] else (if events[0].Byte? then [events[0].byte] else []) + BytesOf(events[1..])
  }

  /** The engine followed these events, its outputs were offered in order, and the kept ones were appended. */
  ghost predicate Followed(w: Worker, events: seq<Event>, next: Worker, offers: seq<Offer>)
    requires w.Valid()
  {
    && next.Valid()
    && next.engine == Final(w.engine, events)
    && OutputsOf(offers) == Present(Outputs(w.engine, events))
    && next.transmit == w.transmit + Kept(offers)
    && next.counters.transmittedBytes == w.counters.transmittedBytes
    && w.received == BytesOf(events) + next.received
  }

  lemma RunOfOne(e: Engine, event: Event)
    requires e.Valid()
    ensures Final(e, [event]) == Step(e, event).0
    ensures Present(Outputs(e, [event])) == match Step(e, event).1 case None => [] case Some(output) => [output]
  {
    hide Step;
    assert [event][1..] == [];
    var (next, output) := Step(e, event);
    assert Outputs(e, [event]) == [output];
    assert [output][1..] == [];
  }

  lemma OneOffer(offer: Offer)
    ensures Kept([offer]) == if offer.kept then offer.output.bytes else []
    ensures OutputsOf([offer]) == [offer.output]
  {
    assert [offer][1..] == [];
  }

  /** One event, when its byte (if it is one) has just been taken from the receive queue. */
  lemma FeedFollowed(before: Worker, w: Worker, event: Event)
    requires before.Valid() && w.Valid()
    requires before == w.(received := BytesOf([event]) + w.received)
    ensures var (next, offers) := w.Feed(event); Followed(before, [event], next, offers)
  {
    hide Step, Engine.Valid, BytesOf;
    RunOfOne(w.engine, event);
    var output := Step(w.engine, event).1;
    if output.Some? {
      OneOffer(Offer(output.value, w.(engine := Step(w.engine, event).0).Enqueue(output.value).1));
    }
  }

  lemma {:induction false} BytesAppend(a: seq<Event>, b: seq<Event>)
    ensures BytesOf(a + b) == BytesOf(a) + BytesOf(b)
  {
    if a == [] {
      assert a + b == b;
    } else {
      assert (a + b)[1..] == a[1..] + b;
      BytesAppend(a[1..], b);
    }
  }

  lemma FollowedTwice(w: Worker, a: seq<Event>, middle: Worker, x: seq<Offer>, b: seq<Event>, last: Worker, y: seq<Offer>)
    requires w.Valid() && Followed(w, a, middle, x) && Followed(middle, b, last, y)
    ensures Followed(w, a + b, last, x + y)
  {
    hide Engine.Valid, Outputs, Final, Present, Kept, OutputsOf, BytesOf;
    RunAppend(w.engine, a, b);
    KeptAppend(x, y);
    BytesAppend(a, b);
  }

  lemma ByteEvents(w: Worker)
    requires w.received != []
    ensures BytesOf([Byte(w.received[0])]) == [w.received[0]]
    ensures w.received == [w.received[0]] + w.received[1..]
  {
    assert [Byte(w.received[0])][1..] == [];
  }

  lemma {:induction false} BytesFollowed(w: Worker, maxBytes: nat)
    requires w.Valid()
    ensures var (next, offers) := w.ProcessBytes(maxBytes); Followed(w, EventsOfBytes(w, maxBytes), next, offers)
    decreases maxBytes
  {
    hide Worker.Feed, Engine.Valid;
    if maxBytes != 0 && w.received != [] {
      ByteEvents(w);
      FeedFollowed(w, w.(received := w.received[1..]), Byte(w.received[0]));
      var (middle, x) := w.ProcessByte();
      var (last, y) := middle.ProcessBytes(maxBytes - 1);
      BytesFollowed(middle, maxBytes - 1);
      FollowedTwice(w, [Byte(w.received[0])], middle, x, EventsOfBytes(middle, maxBytes - 1), last, y);
    } else {
      NothingFollowed(w);
    }
  }

  lemma NothingFollowed(w: Worker)
    requires w.Valid()
    ensures Followed(w, [], w, [])
  {}

  lemma ProcessFollowed(w: Worker, maxBytes: nat)
    requires w.Valid()
    ensures var (next, offers) := w.Process(maxBytes); Followed(w, EventsOf(w, Process(maxBytes)), next, offers)
  {
    hide Worker.Feed, Engine.Valid, Worker.ProcessBytes, EventsOfBytes, Followed;
    BytesFollowed(w, maxBytes);
    var (processed, offers) := w.ProcessBytes(maxBytes);
    var events := EventsOfBytes(w, maxBytes);
    if processed.transmit == [] {
      assert processed == processed.(received := BytesOf([Poll]) + processed.received) by {
        assert [Poll][1..] == [];
      }
      FeedFollowed(processed, processed, Poll);
      var (polled, more) := processed.Feed(Poll);
      FollowedTwice(w, events, processed, offers, [Poll], polled, more);
    } else {
      assert events + [] == events;
    }
  }

  // ---- Runs -------------------------------------------------------------------------

  /** Since the last release: bytes captured, bytes the engine was fed, its outputs, bytes sent. Over the run: totals. */
  datatype Stream = Stream(
    captured: seq<bv8>,
    fed: seq<bv8>,
    offers: seq<Offer>,
    sent: seq<bv8>,
    enqueued: nat,
    discarded: nat)

  function Follow(s: Stream, w: Worker, call: Call): Stream
    requires w.Valid()
  {
    if call.Released? || call.TimedOut? then Stream([], [], [], [], s.enqueued, s.discarded + |w.transmit|)
    else
      var (_, offers, popped) := Do(w, call);
      Stream(s.captured + (if call.Capture? && |w.received| < w.receiveCapacity then [call.byte] else []),
             s.fed + BytesOf(EventsOf(w, call)),
             s.offers + offers,
             s.sent + (if popped.Some? then [popped.value] else []),
             s.enqueued + |Kept(offers)|,
             s.discarded)
  }

  ghost predicate Intact(s: Stream, w: Worker) {
    && w.Valid()
    && s.captured == s.fed + w.received
    && s.sent + w.transmit == Kept(s.offers)
    && s.enqueued == w.counters.transmittedBytes + |w.transmit| + s.discarded
  }

  /** A call that follows the engine keeps the streams intact. */
  lemma FollowedIntact(s: Stream, w: Worker, events: seq<Event>, next: Worker, offers: seq<Offer>)
    requires Intact(s, w) && Followed(w, events, next, offers)
    ensures Intact(s.(fed := s.fed + BytesOf(events), offers := s.offers + offers, enqueued := s.enqueued + |Kept(offers)|), next)
  {
    hide Kept, BytesOf, OutputsOf, Outputs, Present, Final, Engine.Valid;
    KeptAppend(s.offers, offers);
    calc {
      s.captured;
      s.fed + w.received;
      s.fed + (BytesOf(events) + next.received);
      (s.fed + BytesOf(events)) + next.received;
    }
    assert s.sent + (w.transmit + Kept(offers)) == (s.sent + w.transmit) + Kept(offers);
  }

  lemma NoEvent(w: Worker)
    requires w.Valid()
    ensures Final(w.engine, []) == w.engine && Present(Outputs(w.engine, [])) == OutputsOf([]) == [] && Kept([]) == [] && BytesOf([]) == []
  {}

  lemma PopIntact(s: Stream, w: Worker)
    requires Intact(s, w) && w.transmit != []
    ensures Intact(s.(sent := s.sent + [w.transmit[0]]), w.PopTransmit())
  {
    hide Kept, Engine.Valid;
    var byte := w.transmit[0];
    assert w.transmit == [byte] + w.transmit[1..];
    assert (s.sent + [byte]) + w.transmit[1..] == s.sent + w.transmit;
  }

  lemma DequeueIntact(s: Stream, w: Worker)
    requires Intact(s, w)
    ensures var (next, offers, _) := w.DequeueTransmitByte();
            && Intact(Follow(s, w, Dequeue), next)
            && next.engine == Final(w.engine, EventsOf(w, Dequeue))
            && OutputsOf(offers) == Present(Outputs(w.engine, EventsOf(w, Dequeue)))
  {
    hide Engine.Valid, Worker.QueueNextMultiReadBlock, Kept, BytesOf, OutputsOf, Outputs, Present, Final;
    NoEvent(w);
    if w.transmit == [] {
      assert s.offers + [] == s.offers && s.sent + [] == s.sent && s.fed + [] == s.fed;
    } else {
      var popped := w.PopTransmit();
      var s' := s.(sent := s.sent + [w.transmit[0]]);
      PopIntact(s, w);
      if popped.transmit == [] {
        QueueNextFollowed(popped);
        var (next, offers) := popped.QueueNextMultiReadBlock();
        FollowedIntact(s', popped, [NextBlock], next, offers);
      } else {
        assert s.offers + [] == s.offers && s.fed + [] == s.fed;
      }
    }
  }

  lemma QueueNextFollowed(w: Worker)
    requires w.Valid()
    ensures var (next, offers) := w.QueueNextMultiReadBlock(); Followed(w, [NextBlock], next, offers)
  {
    hide Worker.Feed, Engine.Valid;
    assert [NextBlock][1..] == [];
    assert BytesOf([NextBlock]) == [];
    assert w == w.(received := [] + w.received);
    FeedFollowed(w, w, NextBlock);
  }

  lemma ReleaseIntact(s: Stream, w: Worker)
    requires Intact(s, w)
    ensures Intact(Follow(s, w, Released), w.ChipSelectReleased()) && Intact(Follow(s, w, TimedOut), w.TransactionTimedOut())
    ensures w.ChipSelectReleased().engine == w.TransactionTimedOut().engine == Final(w.engine, [Release])
    ensures Present(Outputs(w.engine, [Release])) == OutputsOf([])
  {
    hide Step, Engine.Valid;
    RunOfOne(w.engine, Release);
    ReleaseIsSilent(w.engine);
  }

  lemma ReleaseIsSilent(e: Engine)
    requires e.Valid()
    ensures Step(e, Release).1 == None
  {}

  lemma CaptureIntact(s: Stream, w: Worker, byte: bv8)
    requires Intact(s, w)
    ensures Intact(Follow(s, w, Capture(byte)), w.Capture(byte).0) && w.Capture(byte).0.engine == w.engine
  {
    hide Engine.Valid;
    assert s.offers + [] == s.offers && s.sent + [] == s.sent && s.fed + [] == s.fed && s.captured + [] == s.captured;
    assert s.fed + (w.received + [byte]) == s.fed + w.received + [byte];
  }

  lemma DoIntact(s: Stream, w: Worker, call: Call)
    requires Intact(s, w)
    ensures var (next, offers, _) := Do(w, call);
            && Intact(Follow(s, w, call), next)
            && next.engine == Final(w.engine, EventsOf(w, call))
            && OutputsOf(offers) == Present(Outputs(w.engine, EventsOf(w, call)))
  {
    hide Engine.Valid, Kept, BytesOf, OutputsOf, Outputs, Present, Final, Worker.Capture, Worker.Process,
         Worker.DequeueTransmitByte, Worker.QueueNextMultiReadBlock, Worker.ChipSelectReleased, Worker.TransactionTimedOut;
    NoEvent(w);
    match call {
      case Capture(byte) => CaptureIntact(s, w, byte);
      case Process(maxBytes) =>
        ProcessFollowed(w, maxBytes);
        var (next, offers) := w.Process(maxBytes);
        FollowedIntact(s, w, EventsOf(w, call), next, offers);
        assert s.captured + [] == s.captured && s.sent + [] == s.sent;
      case Dequeue => DequeueIntact(s, w);
      case QueueNext =>
        QueueNextFollowed(w);
        var (next, offers) := w.QueueNextMultiReadBlock();
        FollowedIntact(s, w, [NextBlock], next, offers);
        assert s.captured + [] == s.captured && s.sent + [] == s.sent;
      case Released => ReleaseIntact(s, w);
      case TimedOut => ReleaseIntact(s, w);
    }
  }

  function Run(w: Worker, calls: seq<Call>): Worker
    requires w.Valid()
    decreases calls
  {
    if calls == [] then w else Run(Do(w, calls[0]).0, calls[1..])
  }

  function FollowRun(s: Stream, w: Worker, calls: seq<Call>): Stream
    requires w.Valid()
    decreases calls
  {
    if calls == [] then s else FollowRun(Follow(s, w, calls[0]), Do(w, calls[0]).0, calls[1..])
  }

  function EventsOfRun(w: Worker, calls: seq<Call>): seq<Event>
    requires w.Valid()
    decreases calls
  {
    if calls == [] then [] else EventsOf(w, calls[0]) + EventsOfRun(Do(w, calls[0]).0, calls[1..])
  }

  function OffersOfRun(w: Worker, calls: seq<Call>): seq<Offer>
    requires w.Valid()
    decreases calls
  {
    if calls == [] then [] else Do(w, calls[0]).1 + OffersOfRun(Do(w, calls[0]).0, calls[1..])
  }

  lemma {:induction false} RunIntact(s: Stream, w: Worker, calls: seq<Call>)
    requires Intact(s, w)
    ensures Intact(FollowRun(s, w, calls), Run(w, calls))
    ensures Run(w, calls).engine == Final(w.engine, EventsOfRun(w, calls))
    ensures OutputsOf(OffersOfRun(w, calls)) == Present(Outputs(w.engine, EventsOfRun(w, calls)))
    decreases calls
  {
    hide Engine.Valid, Kept, BytesOf, OutputsOf, Outputs, Present, Final, Do, Follow, EventsOf;
    NoEvent(w);
    if calls != [] {
      var (next, offers, _) := Do(w, calls[0]);
      var events := EventsOf(w, calls[0]);
      DoIntact(s, w, calls[0]);
      RunIntact(Follow(s, w, calls[0]), next, calls[1..]);
      RunAppend(w.engine, events, EventsOfRun(next, calls[1..]));
      KeptAppend(offers, OffersOfRun(next, calls[1..]));
    }
  }

  /**
   * The main result, for every sequence of calls on a new worker. Since the last release the bytes
   * sent are a prefix of the queued outputs' bytes, the engine was fed a prefix of the captured
   * bytes, and over the whole run enqueued = transmitted + pending + discarded. The outputs offered
   * are exactly those of the engine over its events.
   */
  lemma WorkerStreams(engine: Engine, receiveCapacity: nat, transmitCapacity: nat, calls: seq<Call>)
    requires engine.Valid()
    ensures var start := NewWorker(engine, receiveCapacity, transmitCapacity);
            var s, last := FollowRun(Stream([], [], [], [], 0, 0), start, calls), Run(start, calls);
            && s.sent <= Kept(s.offers) && s.fed <= s.captured
            && s.enqueued == last.counters.transmittedBytes + |last.transmit| + s.discarded
            && last.engine == Final(engine, EventsOfRun(start, calls))
            && OutputsOf(OffersOfRun(start, calls)) == Present(Outputs(engine, EventsOfRun(start, calls)))
  {
    hide Engine.Valid, BytesOf, OutputsOf, Outputs, Present, Final, FollowRun, Run, EventsOfRun, OffersOfRun;
    RunIntact(Stream([], [], [], [], 0, 0), NewWorker(engine, receiveCapacity, transmitCapacity), calls);
  }

  // ---- Sizes ---------------------------------------------------------------------------

  /** Only single-byte answers carry a block or a register, and never both. */
  lemma ResultSizes(card: C.Card, device: Device, command: Command)
    ensures var result := card.Execute(device, command).result;
            && |result.response| <= 5
            && (result.readBlock.Some? || result.registerData.Some? ==> |result.response| == 1)
            && (result.readBlock.Some? ==> result.registerData.None?)
  {
    hide WordResponse, BigEndian, C.Card.CommandLba, C.Card.BeginWrite, Device.Read;
    WordResponseSize();
  }

  lemma WordResponseSize()
    ensures forall status, word :: |WordResponse(status, word)| == 5
  {}

  lemma CommandOutputFits(result: C.ModelResult)
    requires |result.response| <= 5
    requires result.readBlock.Some? || result.registerData.Some? ==> |result.response| == 1
    requires result.readBlock.Some? ==> result.registerData.None?
    ensures |CommandOutput(result).bytes| <= MAXIMUM_OUTPUT_SIZE
  {
    hide Crc16;
  }

  /** No engine output is longer than the fixed output buffer. */
  lemma OutputFits(e: Engine, event: Event)
    requires e.Valid()
    ensures var output := Step(e, event).1; output.Some? ==> |output.value.bytes| <= MAXIMUM_OUTPUT_SIZE
  {
    hide C.Card.Execute, CommandOutput, C.Card.WriteBlock, DataFramer.Push, PushCommandByte;
    match event {
      case Byte(byte) =>
        var decoded := PushCommandByte(e.frame, byte, e.card.commandCrcEnabled).1;
        if !e.framer.Receiving() && decoded.Some? && decoded.value.Ok? {
          ResultSizes(e.card, e.device, decoded.value.value);
          CommandOutputFits(e.card.Execute(e.device, decoded.value.value).result);
        }
      case Release =>
      case NextBlock =>
      case Poll =>
      case Refresh =>
    }
  }

  /** A transmit queue with room for one output never drops the refill of a multi-block read. */
  lemma RefillIsKept(w: Worker)
    requires w.Valid() && w.transmitCapacity >= MAXIMUM_OUTPUT_SIZE
    ensures forall offer | offer in w.DequeueTransmitByte().1 :: offer.kept
  {
    hide Step, Engine.Valid;
    OutputFits(w.engine, NextBlock);
  }
}
