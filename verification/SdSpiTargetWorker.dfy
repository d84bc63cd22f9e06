/** The bounded worker between captured SPI bytes and the byte engine. */
module SdSpiTargetWorker {
  import opened Basics
  import opened FixedRingQueue
  import opened SdSpiCardEngine
  import opened EngineRuns

  datatype Counters = Counters(
    receivedBytes: nat,
    transmittedBytes: nat,
    receiveOverflows: nat,
    transmitOverflows: nat,
    transmitUnderruns: nat,
    timeouts: nat)

  /** An engine output and whether the transmit queue took it. */
  datatype Offer = Offer(output: Output, kept: bool)

  datatype Worker = Worker(
    engine: Engine,
    received: seq<bv8>,
    transmit: seq<bv8>,
    receiveCapacity: nat,
    transmitCapacity: nat,
    counters: Counters)
  {
    predicate Valid() { engine.Valid() && |received| <= receiveCapacity && |transmit| <= transmitCapacity }

    function Capture(byte: bv8): (Worker, bool) {
      if |received| >= receiveCapacity then
        (this.(counters := counters.(receiveOverflows := counters.receiveOverflows + 1)), false)
      else
        (this.(received := received + [byte], counters := counters.(receivedBytes := counters.receivedBytes + 1)), true)
    }

    predicate Takes(output: Output)
      requires Valid()
    {
      |output.bytes| <= transmitCapacity - |transmit|
    }

    /** An output is queued whole or dropped whole. */
    function Enqueue(output: Output): (Worker, bool)
      requires Valid()
    {
      if !Takes(output) then
        (this.(counters := counters.(transmitOverflows := counters.transmitOverflows + 1)), false)
      else (this.(transmit := transmit + output.bytes), true)
    }

    /** One engine event, and the offer it led to. */
    function Feed(event: Event): (fed: (Worker, seq<Offer>))
      requires Valid()
      ensures fed.0.Valid()
    {
      var (engine', output) := Step(engine, event);
      var next := this.(engine := engine');
      match output
      case None => (next, [])
      case Some(o) => var (queued, kept) := next.Enqueue(o); (queued, [Offer(o, kept)])
    }

    function ProcessByte(): (done: (Worker, seq<Offer>))
      requires Valid() && received != []
      ensures done.0.Valid()
    {
      this.(received := received[1..]).Feed(Byte(received[0]))
    }

    function ProcessBytes(maxBytes: nat): (done: (Worker, seq<Offer>))
      requires Valid()
      ensures done.0.Valid()
      decreases maxBytes
    {
      if maxBytes == 0 || received == [] then (this, [])
      else
        var (next, offers) := ProcessByte();
        var (last, more) := next.ProcessBytes(maxBytes - 1);
        (last, offers + more)
    }

    function Process(maxBytes: nat): (done: (Worker, seq<Offer>))
      requires Valid()
      ensures done.0.Valid()
    {
      var (processed, offers) := ProcessBytes(maxBytes);
      if processed.transmit != [] then (processed, offers)
      else
        var (polled, more) := processed.Feed(Poll);
        (polled, offers + more)
    }

    function QueueNextMultiReadBlock(): (done: (Worker, seq<Offer>))
      requires Valid()
      ensures done.0.Valid()
    {
      Feed(NextBlock)
    }

    function PopTransmit(): (next: Worker)
      requires Valid() && transmit != []
      ensures next.Valid()
    {
      this.(transmit := transmit[1..], counters := counters.(transmittedBytes := counters.transmittedBytes + 1))
    }

    function DequeueTransmitByte(): (done: (Worker, seq<Offer>, Option<bv8>))
      requires Valid()
      ensures done.0.Valid()
    {
      if transmit == [] then
        (this.(counters := counters.(transmitUnderruns := counters.transmitUnderruns + 1)), [], None)
      else
        var popped := PopTransmit();
        if popped.transmit != [] then (popped, [], Some(transmit[0]))
        else
          var (next, offers) := popped.QueueNextMultiReadBlock();
          (next, offers, Some(transmit[0]))
    }

    function ChipSelectReleased(): (next: Worker)
      requires Valid()
      ensures next.Valid()
    {
      this.(received := [], transmit := [], engine := Step(engine, Release).0)
    }

    function TransactionTimedOut(): (next: Worker)
      requires Valid()
      ensures next.Valid()
    {
      this.(counters := counters.(timeouts := counters.timeouts + 1)).ChipSelectReleased()
    }
  }

  lemma UnfoldBytes(w: Worker, left: nat)
    requires w.Valid()
    ensures left == 0 || w.received == [] ==> w.ProcessBytes(left).0 == w
    ensures left != 0 && w.received != [] ==> w.ProcessBytes(left).0 == w.ProcessByte().0.ProcessBytes(left - 1).0
  {
    hide Worker.ProcessByte;
  }

  function NewWorker(engine: Engine, receiveCapacity: nat, transmitCapacity: nat): Worker {
    Worker(engine, [], [], receiveCapacity, transmitCapacity, Counters(0, 0, 0, 0, 0, 0))
  }

  class SdSpiTargetWorker {
    const engine: SdSpiCardEngine
    const received: FixedRingQueue<bv8>
    const transmit: FixedRingQueue<bv8>
    var counters: Counters

    ghost function Queues(): set<object> { {received, received.values, transmit, transmit.values} }

    ghost function Owned(): set<object> { {this} + Queues() + engine.Owned() }

    ghost predicate Valid()
      reads Owned()
    {
      && engine.Valid() && received.Valid() && transmit.Valid()
      && received != transmit && received.values != transmit.values
      && {this} + Queues() !! engine.Owned()
    }

    ghost function State(): Worker
      requires Valid()
      reads Owned()
    {
      Worker(engine.State(), received.Contents(), transmit.Contents(), received.values.Length, transmit.values.Length, counters)
    }

    lemma StateIsValid()
      requires Valid()
      ensures State().Valid()
    {}

    constructor (engine: SdSpiCardEngine, receiveCapacity: nat, transmitCapacity: nat)
      requires engine.Valid() && receiveCapacity > 0 && transmitCapacity > 0
      ensures this.engine == engine && Valid()
      ensures State() == NewWorker(engine.State(), receiveCapacity, transmitCapacity)
    {
      this.engine := engine;
      received := new FixedRingQueue<bv8>(receiveCapacity);
      transmit := new FixedRingQueue<bv8>(transmitCapacity);
      counters := Counters(0, 0, 0, 0, 0, 0);
    }

    method CaptureByte(byte: bv8) returns (ok: bool)
      requires Valid()
      modifies this, received, received.values
      ensures Valid() && (State(), ok) == old(State()).Capture(byte)
    {
      hide SdSpiCardEngine.Valid, SdSpiCardEngine.State, FixedRingQueue.Contents;
      ok := received.TryPush(byte);
      if ok {
        counters := counters.(receivedBytes := counters.receivedBytes + 1);
      } else {
        counters := counters.(receiveOverflows := counters.receiveOverflows + 1);
      }
    }

    /** The queue takes all of the bytes when they fit. */
    method PushAll(bytes: seq<bv8>)
      requires transmit.Valid() && |bytes| <= transmit.values.Length - transmit.size
      modifies transmit, transmit.values
      ensures transmit.Valid() && transmit.Contents() == old(transmit.Contents()) + bytes
    {
      hide FixedRingQueue.Contents;
      ghost var before := transmit.Contents();
      for index := 0 to |bytes|
        invariant transmit.Valid() && transmit.Contents() == before + bytes[..index]
      {
        var pushed := transmit.TryPush(bytes[index]);
        assert before + bytes[..index] + [bytes[index]] == before + bytes[..index + 1];
      }
      assert bytes[..|bytes|] == bytes;
    }

    method EnqueueOutput(output: Output) returns (kept: bool)
      requires Valid()
      modifies this, transmit, transmit.values
      ensures Valid() && old(State()).Valid() && (State(), kept) == old(State()).Enqueue(output)
    {
      hide SdSpiCardEngine.Valid, SdSpiCardEngine.State, FixedRingQueue.Contents;
      StateIsValid();
      if |output.bytes| > transmit.values.Length - transmit.size {
        counters := counters.(transmitOverflows := counters.transmitOverflows + 1);
        return false;
      }
      PushAll(output.bytes);
      return true;
    }

    /** Queue what the engine answered, if anything. */
    method Offered(output: Option<Output>) returns (kept: bool)
      requires Valid()
      modifies this, transmit, transmit.values
      ensures Valid() && old(State()).Valid()
      ensures output.Some? ==> (State(), kept) == old(State()).Enqueue(output.value)
      ensures output.None? ==> State() == old(State()) && !kept
    {
      hide SdSpiCardEngine.Valid, SdSpiCardEngine.State, FixedRingQueue.Contents, Worker.Enqueue;
      kept := false;
      StateIsValid();
      if output.Some? {
        kept := EnqueueOutput(output.value);
      }
    }

    method FeedByte(byte: bv8)
      requires Valid()
      modifies Owned()
      ensures Valid() && old(State()).Valid() && State() == old(State()).Feed(Byte(byte)).0
    {
      hide SdSpiCardEngine.Valid, SdSpiCardEngine.State, FixedRingQueue.Contents, Worker.Enqueue, Engine.PushByte;
      StateIsValid();
      var output := engine.PushByte(byte);
      var _ := Offered(output);
    }

    method FeedPoll()
      requires Valid()
      modifies Owned()
      ensures Valid() && old(State()).Valid() && State() == old(State()).Feed(Poll).0
    {
      hide SdSpiCardEngine.Valid, SdSpiCardEngine.State, FixedRingQueue.Contents, Worker.Enqueue, Engine.PollPendingIo;
      StateIsValid();
      var output := engine.PollPendingIo();
      var _ := Offered(output);
    }

    /** One pass of the byte loop: whether there was a byte. */
    method ProcessByte() returns (more: bool)
      requires Valid()
      modifies Owned()
      ensures Valid() && old(State()).Valid() && State().Valid()
      ensures more == (old(State()).received != [])
      ensures State() == if more then old(State()).ProcessByte().0 else old(State())
    {
      hide SdSpiCardEngine.Valid, SdSpiCardEngine.State, FixedRingQueue.Contents, Worker.Feed;
      StateIsValid();
      var byte := received.TryPop();
      more := byte.Some?;
      if more {
        FeedByte(byte.value);
      }
      StateIsValid();
    }

    /** The byte loop: at most maxBytes captured bytes reach the engine. */
    method ProcessBytes(maxBytes: nat)
      requires Valid()
      modifies Owned()
      ensures Valid() && old(State()).Valid() && State() == old(State()).ProcessBytes(maxBytes).0
    {
      hide *;
      StateIsValid();
      ghost var before := State();
      var left, more := maxBytes, true;
      while left != 0 && more
        invariant Valid() && State().Valid()
        invariant more ==> State().ProcessBytes(left).0 == before.ProcessBytes(maxBytes).0
        invariant !more ==> State() == before.ProcessBytes(maxBytes).0
      {
        UnfoldBytes(State(), left);
        left := left - 1;
        more := ProcessByte();
      }
      UnfoldBytes(State(), 0);
    }

    method Process(maxBytes: nat)
      requires Valid()
      modifies Owned()
      ensures Valid() && old(State()).Valid() && State() == old(State()).Process(maxBytes).0
    {
      hide SdSpiCardEngine.Valid, SdSpiCardEngine.State, FixedRingQueue.Contents, Worker.Feed, Worker.ProcessBytes;
      ProcessBytes(maxBytes);
      if transmit.size == 0 {
        FeedPoll();
      }
    }

    method QueueNextMultiReadBlock() returns (ok: bool)
      requires Valid()
      modifies Owned()
      ensures Valid() && old(State()).Valid() && State() == old(State()).QueueNextMultiReadBlock().0
      ensures ok <==> exists offer :: old(State()).QueueNextMultiReadBlock().1 == [offer] && offer.kept
    {
      hide SdSpiCardEngine.Valid, SdSpiCardEngine.State, FixedRingQueue.Contents, Worker.Enqueue, Engine.NextMultiReadBlock;
      StateIsValid();
      var output := engine.NextMultiReadBlock();
      ok := Offered(output);
    }

    method PopTransmit() returns (byte: Option<bv8>)
      requires Valid()
      modifies this, transmit
      ensures Valid() && old(State()).Valid()
      ensures byte == if old(State()).transmit == [] then None else Some(old(State()).transmit[0])
      ensures byte.Some? ==> State() == old(State()).PopTransmit()
      ensures byte.None? ==> State() == old(State()).(counters := old(counters).(transmitUnderruns := old(counters).transmitUnderruns + 1))
    {
      hide SdSpiCardEngine.Valid, SdSpiCardEngine.State, FixedRingQueue.Contents;
      StateIsValid();
      byte := transmit.TryPop();
      if byte.None? {
        counters := counters.(transmitUnderruns := counters.transmitUnderruns + 1);
      } else {
        counters := counters.(transmittedBytes := counters.transmittedBytes + 1);
      }
    }

    /** The engine refills the queue only once the whole preceding response has left it. */
    method DequeueTransmitByte() returns (byte: Option<bv8>)
      requires Valid()
      modifies Owned()
      ensures Valid() && old(State()).Valid()
      ensures var (next, _, output) := old(State()).DequeueTransmitByte(); State() == next && byte == output
    {
      hide SdSpiCardEngine.Valid, SdSpiCardEngine.State, FixedRingQueue.Contents, FixedRingQueue.Valid;
      hide Worker.QueueNextMultiReadBlock, Worker.PopTransmit, Worker.Valid;
      byte := PopTransmit();
      if byte.Some? && transmit.size == 0 {
        var _ := QueueNextMultiReadBlock();
      }
    }

    method ChipSelectReleased()
      requires Valid()
      modifies Owned()
      ensures Valid() && old(State()).Valid() && State() == old(State()).ChipSelectReleased()
    {
      hide SdSpiCardEngine.Valid, SdSpiCardEngine.State, FixedRingQueue.Contents, Engine.ChipSelectReleased;
      StateIsValid();
      received.Clear();
      transmit.Clear();
      engine.ChipSelectReleased();
    }

    method TransactionTimedOut()
      requires Valid()
      modifies Owned()
      ensures Valid() && old(State()).Valid() && State() == old(State()).TransactionTimedOut()
    {
      hide SdSpiCardEngine.Valid, SdSpiCardEngine.State, FixedRingQueue.Contents, Worker.ChipSelectReleased;
      StateIsValid();
      counters := counters.(timeouts := counters.timeouts + 1);
      ChipSelectReleased();
    }
  }
}
