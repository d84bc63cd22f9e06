/** What the worker's counters count, how far one call goes, and when nothing is dropped. */
module WorkerCounters {
  import opened Basics
  import opened SdSpiCardEngine
  import opened EngineRuns
  import opened SdSpiTargetWorker
  import opened StreamIntegrity

  // ---- Counters --------------------------------------------------------------------

  /** The outputs the transmit queue had no room for. */
  function Dropped(offers: seq<Offer>): nat {
    if offers == [] then 0 else (if offers[0].kept then 0 else 1) + Dropped(offers[1..])
  }

  lemma {:induction false} DroppedAppend(a: seq<Offer>, b: seq<Offer>)
    ensures Dropped(a + b) == Dropped(a) + Dropped(b)
  {
    if a == [] {
      assert a + b == b;
    } else {
      assert (a + b)[1..] == a[1..] + b;
      DroppedAppend(a[1..], b);
    }
  }

  /** How often something happened in a run. */
  function Count(happened: (Worker, Call) -> bool, w: Worker, calls: seq<Call>): nat
    requires w.Valid()
    decreases calls
  {
    if calls == [] then 0
    else (if happened(w, calls[0]) then 1 else 0) + Count(happened, Do(w, calls[0]).0, calls[1..])
  }

  function Taken(): (Worker, Call) -> bool { (w: Worker, call: Call) => call.Capture? && |w.received| < w.receiveCapacity }
  function Lost(): (Worker, Call) -> bool { (w: Worker, call: Call) => call.Capture? && |w.received| >= w.receiveCapacity }
  function Sent(): (Worker, Call) -> bool { (w: Worker, call: Call) => call.Dequeue? && w.transmit != [] }
  function Starved(): (Worker, Call) -> bool { (w: Worker, call: Call) => call.Dequeue? && w.transmit == [] }
  function GivenUp(): (Worker, Call) -> bool { (w: Worker, call: Call) => call.TimedOut? }

  /** One event counts at most one dropped output. */
  lemma FeedCounts(w: Worker, event: Event)
    requires w.Valid()
    ensures var (next, offers) := w.Feed(event);
            next.counters == w.counters.(transmitOverflows := w.counters.transmitOverflows + Dropped(offers))
            && next.received == w.received && next.transmitCapacity == w.transmitCapacity
            && next.receiveCapacity == w.receiveCapacity
  {
    hide Step, Engine.Valid;
  }

  lemma {:induction false} BytesCount(w: Worker, maxBytes: nat)
    requires w.Valid()
    ensures var (next, offers) := w.ProcessBytes(maxBytes);
            next.counters == w.counters.(transmitOverflows := w.counters.transmitOverflows + Dropped(offers))
            && next.received == w.received[Min(maxBytes, |w.received|)..] && next.transmitCapacity == w.transmitCapacity
            && next.receiveCapacity == w.receiveCapacity
    decreases maxBytes
  {
    hide Worker.Feed, Engine.Valid;
    if maxBytes > 0 && w.received != [] {
      var (next, offers) := w.ProcessByte();
      FeedCounts(w.(received := w.received[1..]), Byte(w.received[0]));
      BytesCount(next, maxBytes - 1);
      DroppedAppend(offers, next.ProcessBytes(maxBytes - 1).1);
      assert w.received[1..][Min(maxBytes - 1, |w.received| - 1)..] == w.received[Min(maxBytes, |w.received|)..];
    }
  }

  /** One call of process takes the oldest captured bytes, as many as it may, and leaves the rest. */
  lemma ProcessTakes(w: Worker, maxBytes: nat)
    requires w.Valid()
    ensures var (next, offers) := w.Process(maxBytes);
            next.counters == w.counters.(transmitOverflows := w.counters.transmitOverflows + Dropped(offers))
            && next.received == w.received[Min(maxBytes, |w.received|)..] && next.transmitCapacity == w.transmitCapacity
            && next.receiveCapacity == w.receiveCapacity
  {
    hide Worker.Feed, Worker.ProcessBytes, Engine.Valid;
    BytesCount(w, maxBytes);
    var (processed, offers) := w.ProcessBytes(maxBytes);
    FeedCounts(processed, Poll);
    DroppedAppend(offers, processed.Feed(Poll).1);
  }

  /** Every counter moves by what its call did. */
  lemma CallCounts(w: Worker, call: Call)
    requires w.Valid()
    ensures var (next, offers, _) := Do(w, call);
            && next.counters == Counters(
                 w.counters.receivedBytes + if Taken()(w, call) then 1 else 0,
                 w.counters.transmittedBytes + if Sent()(w, call) then 1 else 0,
                 w.counters.receiveOverflows + if Lost()(w, call) then 1 else 0,
                 w.counters.transmitOverflows + Dropped(offers),
                 w.counters.transmitUnderruns + if Starved()(w, call) then 1 else 0,
                 w.counters.timeouts + if GivenUp()(w, call) then 1 else 0)
  {
    hide Worker.Feed, Worker.Process, Engine.Valid, Step;
    match call
    case Process(maxBytes) => ProcessTakes(w, maxBytes);
    case QueueNext => FeedCounts(w, NextBlock);
    case Dequeue =>
      if |w.transmit| == 1 {
        FeedCounts(w.PopTransmit(), NextBlock);
      }
    case _ =>
  }

  /**
   * In every run of a new worker each counter is the number of times its event happened: bytes
   * captured and refused, bytes sent and missing, outputs dropped, transactions given up.
   */
  lemma {:induction false} RunCounts(w: Worker, calls: seq<Call>)
    requires w.Valid()
    ensures Run(w, calls).counters == Counters(
              w.counters.receivedBytes + Count(Taken(), w, calls),
              w.counters.transmittedBytes + Count(Sent(), w, calls),
              w.counters.receiveOverflows + Count(Lost(), w, calls),
              w.counters.transmitOverflows + Dropped(OffersOfRun(w, calls)),
              w.counters.transmitUnderruns + Count(Starved(), w, calls),
              w.counters.timeouts + Count(GivenUp(), w, calls))
    decreases calls
  {
    hide Do, Engine.Valid, Taken, Sent, Lost, Starved, GivenUp;
    if calls != [] {
      CallCounts(w, calls[0]);
      RunCounts(Do(w, calls[0]).0, calls[1..]);
      DroppedAppend(Do(w, calls[0]).1, OffersOfRun(Do(w, calls[0]).0, calls[1..]));
    }
  }

  // ---- Room ------------------------------------------------------------------------

  lemma FeedFits(w: Worker, event: Event)
    requires w.Valid() && |w.transmit| + MAXIMUM_OUTPUT_SIZE <= w.transmitCapacity
    ensures var (next, offers) := w.Feed(event);
            (forall offer <- offers :: offer.kept) && |next.transmit| <= |w.transmit| + MAXIMUM_OUTPUT_SIZE
            && next.transmitCapacity == w.transmitCapacity
  {
    hide Step, Engine.Valid;
    OutputFits(w.engine, event);
  }

  lemma {:induction false} BytesFit(w: Worker, maxBytes: nat)
    requires w.Valid() && |w.transmit| + maxBytes * MAXIMUM_OUTPUT_SIZE <= w.transmitCapacity
    ensures var (next, offers) := w.ProcessBytes(maxBytes);
            (forall offer <- offers :: offer.kept) && |next.transmit| <= |w.transmit| + maxBytes * MAXIMUM_OUTPUT_SIZE
            && next.transmitCapacity == w.transmitCapacity
    decreases maxBytes
  {
    hide Worker.Feed, Engine.Valid;
    if maxBytes > 0 && w.received != [] {
      FeedFits(w.(received := w.received[1..]), Byte(w.received[0]));
      BytesFit(w.ProcessByte().0, maxBytes - 1);
    }
  }

  /** A queue with room for one output per byte, and one more, takes everything the engine answers. */
  lemma NothingIsDropped(w: Worker, maxBytes: nat)
    requires w.Valid() && |w.transmit| + (maxBytes + 1) * MAXIMUM_OUTPUT_SIZE <= w.transmitCapacity
    ensures forall offer <- w.Process(maxBytes).1 :: offer.kept
  {
    hide Worker.Feed, Worker.ProcessBytes, Engine.Valid;
    BytesFit(w, maxBytes);
    var processed := w.ProcessBytes(maxBytes).0;
    if processed.transmit == [] {
      FeedFits(processed, Poll);
    }
  }
}
