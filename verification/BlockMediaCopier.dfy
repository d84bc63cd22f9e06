/** The whole-media copier: cancellation boundaries, prefixes, and ownership. */
module BlockMediaCopier {
  import opened Basics
  import opened BlockDevice
  import opened BlockBackendArbiter

  // ---- The observer and the order of events ------------------------------------------

  datatype Progress = Progress(completed: nat, total: nat, verified: nat, verifying: bool)

  /** A call of a backend, and its answer. */
  datatype Call =
    | CallPresent(present: bool)
    | CallProtected(protected: bool)
    | CallCount(count: nat)
    | CallRead(lba: nat, answer: BlockOperation)
    | CallWrite(lba: nat, answer: BlockOperation)
    | CallFlush(answer: BlockOperation)

  /** What happened: a cancellation check and its answer, or a call of one of the backends. */
  datatype Entry = Asked(answer: bool) | Called(backend: BlockBackend, call: Call)

  /** Every backend call comes right after a cancellation check answered false. */
  ghost predicate Checked(entries: seq<Entry>) {
    forall i | 0 <= i < |entries| && entries[i].Called? :: i > 0 && entries[i - 1] == Asked(false)
  }

  ghost predicate JustAllowed(entries: seq<Entry>) { entries != [] && entries[|entries| - 1] == Asked(false) }

  /** Since the start only checked calls were made and every check was answered false. */
  ghost predicate Calm(start: seq<Entry>, now: seq<Entry>) {
    && start <= now
    && (Checked(start) ==> Checked(now))
    && Asked(true) !in now[|start|..]
  }

  /** The last check was answered true, and nothing followed it. */
  ghost predicate Ended(start: seq<Entry>, now: seq<Entry>) {
    && |start| < |now| && now[|now| - 1] == Asked(true)
    && Calm(start, now[..|now| - 1])
    && (Checked(start) ==> Checked(now))
  }

  lemma AskedNext(start: seq<Entry>, now: seq<Entry>)
    requires Calm(start, now)
    ensures JustAllowed(now + [Asked(false)]) && Calm(start, now + [Asked(false)])
    ensures Ended(start, now + [Asked(true)])
  {
    assert (now + [Asked(true)])[..|now|] == now;
  }

  lemma CalledNext(start: seq<Entry>, now: seq<Entry>, entry: Entry)
    requires Calm(start, now) && JustAllowed(now) && entry.Called?
    ensures Calm(start, now + [entry])
  {
    if Checked(start) {
      forall i | 0 <= i < |now + [entry]| && (now + [entry])[i].Called?
        ensures i > 0 && (now + [entry])[i - 1] == Asked(false)
      {
        if i < |now| { assert now[i].Called?; }
      }
    }
  }

  class Log {
    ghost var entries: seq<Entry>
    constructor ()
      ensures entries == []
    {
      entries := [];
    }
  }

  /** Answers cancellation checks from a script (false past its end) and collects progress. */
  class BlockCopyObserver {
    const answers: seq<bool>
    const log: Log
    var asked: nat
    var reports: seq<Progress>

    constructor (answers: seq<bool>, log: Log)
      ensures this.answers == answers && this.log == log && asked == 0 && reports == []
    {
      this.answers := answers;
      this.log := log;
      asked, reports := 0, [];
    }

    predicate NeverCancels() { forall i | 0 <= i < |answers| :: !answers[i] }

    method Cancelled(ghost start: seq<Entry>) returns (answer: bool)
      requires Calm(start, log.entries)
      modifies `asked, log
      ensures NeverCancels() ==> !answer
      ensures log.entries == old(log.entries) + [Asked(answer)]
      ensures if answer then Ended(start, log.entries) else Calm(start, log.entries) && JustAllowed(log.entries)
    {
      AskedNext(start, log.entries);
      answer := asked < |answers| && answers[asked];
      asked := asked + 1;
      log.entries := log.entries + [Asked(answer)];
    }

    method Report(progress: Progress)
      modifies `reports
      ensures reports == old(reports) + [progress]
    {
      reports := reports + [progress];
    }
  }

  /**
   * A backend as the copier uses it: directly, or through the arbiter as its host-copy owner. Its
   * calls are in the log, and none may be made without a preceding check answered false.
   */
  class Medium {
    const backend: BlockBackend
    const arbiter: BlockBackendArbiter?
    const log: Log

    ghost predicate Usable()
      reads this, arbiter
    {
      arbiter != null ==> arbiter.backend == backend && arbiter.owner == HostCopy
    }

    constructor (backend: BlockBackend, arbiter: BlockBackendArbiter?, log: Log)
      ensures this.backend == backend && this.arbiter == arbiter && this.log == log
    {
      this.backend := backend;
      this.arbiter := arbiter;
      this.log := log;
    }

    method MediaPresent(ghost start: seq<Entry>) returns (present: bool)
      requires Usable() && JustAllowed(log.entries) && Calm(start, log.entries)
      modifies log
      ensures present == backend.present && Calm(start, log.entries)
      ensures log.entries == old(log.entries) + [Called(backend, CallPresent(present))]
    {
      present := if arbiter == null then backend.present else arbiter.MediaPresent(HostCopy);
      CalledNext(start, log.entries, Called(backend, CallPresent(present)));
      log.entries := log.entries + [Called(backend, CallPresent(present))];
    }

    method WriteProtected(ghost start: seq<Entry>) returns (protected: bool)
      requires Usable() && JustAllowed(log.entries) && Calm(start, log.entries)
      modifies log
      ensures protected == backend.writeProtected && Calm(start, log.entries)
      ensures log.entries == old(log.entries) + [Called(backend, CallProtected(protected))]
    {
      protected := if arbiter == null then backend.writeProtected else arbiter.WriteProtected(HostCopy);
      CalledNext(start, log.entries, Called(backend, CallProtected(protected)));
      log.entries := log.entries + [Called(backend, CallProtected(protected))];
    }

    method BlockCount(ghost start: seq<Entry>) returns (count: nat)
      requires Usable() && JustAllowed(log.entries) && Calm(start, log.entries)
      modifies log
      ensures count == backend.blocks.Length && Calm(start, log.entries)
      ensures log.entries == old(log.entries) + [Called(backend, CallCount(count))]
    {
      count := if arbiter == null then backend.blocks.Length else arbiter.BlockCount(HostCopy);
      CalledNext(start, log.entries, Called(backend, CallCount(count)));
      log.entries := log.entries + [Called(backend, CallCount(count))];
    }

    method Read(lba: nat, ghost start: seq<Entry>) returns (result: BlockOperation, block: Block)
      requires Usable() && JustAllowed(log.entries) && Calm(start, log.entries)
      modifies backend, log
      ensures (backend.State(), result, block) == old(backend.State()).Read(lba)
      ensures Calm(start, log.entries) && log.entries == old(log.entries) + [Called(backend, CallRead(lba, result))]
    {
      if arbiter == null {
        result, block := backend.Read(lba);
      } else {
        result, block := arbiter.Read(HostCopy, lba);
      }
      CalledNext(start, log.entries, Called(backend, CallRead(lba, result)));
      log.entries := log.entries + [Called(backend, CallRead(lba, result))];
    }

    method Write(lba: nat, block: Block, ghost start: seq<Entry>) returns (result: BlockOperation)
      requires Usable() && JustAllowed(log.entries) && Calm(start, log.entries)
      modifies backend, backend.blocks, log
      ensures (backend.State(), result) == old(backend.State()).Write(lba, block)
      ensures Calm(start, log.entries) && log.entries == old(log.entries) + [Called(backend, CallWrite(lba, result))]
    {
      if arbiter == null {
        result := backend.Write(lba, block);
      } else {
        result := arbiter.Write(HostCopy, lba, block);
      }
      CalledNext(start, log.entries, Called(backend, CallWrite(lba, result)));
      log.entries := log.entries + [Called(backend, CallWrite(lba, result))];
    }

    method Flush(ghost start: seq<Entry>) returns (result: BlockOperation)
      requires Usable() && JustAllowed(log.entries) && Calm(start, log.entries)
      modifies backend, log
      ensures (backend.State(), result) == old(backend.State()).Flush()
      ensures Calm(start, log.entries) && log.entries == old(log.entries) + [Called(backend, CallFlush(result))]
    {
      if arbiter == null {
        result := backend.Flush();
      } else {
        result := arbiter.Flush(HostCopy);
      }
      CalledNext(start, log.entries, Called(backend, CallFlush(result)));
      log.entries := log.entries + [Called(backend, CallFlush(result))];
    }
  }

  // ---- What the log of a copy says -------------------------------------------------------

  /** The checks and queries of a copy that may begin: the state of both media, then their sizes. */
  function PreflightLog(source: BlockBackend, destination: BlockBackend): seq<Entry> {
    MediaLog(source, destination) + SizesLog(source, destination)
  }

  function MediaLog(source: BlockBackend, destination: BlockBackend): seq<Entry> {
    [Asked(false), Called(source, CallPresent(true)), Asked(false), Called(destination, CallPresent(true)), Asked(false),
     Called(destination, CallProtected(false)), Asked(false)]
  }

  function SizesLog(source: BlockBackend, destination: BlockBackend): seq<Entry> {
    [Called(source, CallCount(source.blocks.Length)), Asked(false),
     Called(destination, CallCount(destination.blocks.Length)), Asked(false)]
  }

  /** One sector: read, then written, or the call that failed. */
  function ReadLog(source: BlockBackend, lba: nat, answer: BlockOperation): seq<Entry> {
    [Asked(false), Called(source, CallRead(lba, answer)), Asked(false)]
  }

  function WriteLog(source: BlockBackend, destination: BlockBackend, lba: nat, answer: BlockOperation): seq<Entry> {
    ReadLog(source, lba, BlockOperation.Complete) + [Called(destination, CallWrite(lba, answer)), Asked(false)]
  }

  /** The first n sectors, all read and written. */
  function CopiedLog(source: BlockBackend, destination: BlockBackend, n: nat): seq<Entry> {
    if n == 0 then []
    else CopiedLog(source, destination, n - 1) + WriteLog(source, destination, n - 1, BlockOperation.Complete)
  }

  function FlushLog(destination: BlockBackend, answer: BlockOperation): seq<Entry> {
    [Asked(false), Called(destination, CallFlush(answer)), Asked(false)]
  }

  /** One sector read back from both media, or the destination's read that failed. */
  function ReadBackLog(source: BlockBackend, destination: BlockBackend, lba: nat, answer: BlockOperation): seq<Entry> {
    ReadLog(source, lba, BlockOperation.Complete) + [Called(destination, CallRead(lba, answer)), Asked(false)]
  }

  /** The first n sectors, all read back. */
  function VerifiedLog(source: BlockBackend, destination: BlockBackend, n: nat): seq<Entry> {
    if n == 0 then []
    else VerifiedLog(source, destination, n - 1) + ReadBackLog(source, destination, n - 1, BlockOperation.Complete)
  }

  /** Everything up to and including a flush with this answer. */
  function FlushedLog(source: BlockBackend, destination: BlockBackend, answer: BlockOperation): seq<Entry> {
    PreflightLog(source, destination) + CopiedLog(source, destination, source.blocks.Length) + FlushLog(destination, answer)
  }

  /** A read that failed: of the source while copying, or of either medium while verifying. */
  ghost predicate FailedCopyRead(since: seq<Entry>, source: BlockBackend, destination: BlockBackend, copied: nat) {
    exists answer | answer != BlockOperation.Complete ::
      since == PreflightLog(source, destination) + CopiedLog(source, destination, copied) + ReadLog(source, copied, answer)
  }

  /** The verification stopped at this sector by a failed read of one of the media. */
  ghost predicate FailedReadBack(log: seq<Entry>, source: BlockBackend, destination: BlockBackend) {
    exists k: nat, answer | answer != BlockOperation.Complete ::
      k < source.blocks.Length
      && (log == VerifiedLog(source, destination, k) + ReadLog(source, k, answer)
          || log == VerifiedLog(source, destination, k) + ReadBackLog(source, destination, k, answer))
  }

  /**
   * What the log must say for each result. Complete: every sector was read and written, the flush
   * after the last write was answered Complete, and with verification every sector was read back from
   * both media; all calls were answered Complete. A failure is the answer of the call its name says,
   * and that call is the last one.
   */
  ghost predicate Explains(result: BlockCopyResult, since: seq<Entry>, source: BlockBackend, destination: BlockBackend,
                           verify: bool, copied: nat)
  {
    match result
    case Complete =>
      since == FlushedLog(source, destination, BlockOperation.Complete)
               + (if verify then VerifiedLog(source, destination, source.blocks.Length) + [Asked(false)] else [])
    case Cancelled => since != [] && since[|since| - 1] == Asked(true)
    case SourceUnavailable => LastCall(since) == Some(Called(source, CallPresent(false)))
    case DestinationUnavailable => LastCall(since) == Some(Called(destination, CallPresent(false)))
    case DestinationWriteProtected => LastCall(since) == Some(Called(destination, CallProtected(true)))
    case DestinationTooSmall =>
      LastCall(since) == Some(Called(destination, CallCount(destination.blocks.Length)))
      && destination.blocks.Length < source.blocks.Length
    case ReadFailed =>
      FailedCopyRead(since, source, destination, copied)
      || (verify && FlushedLog(source, destination, BlockOperation.Complete) <= since
          && FailedReadBack(since[|FlushedLog(source, destination, BlockOperation.Complete)|..], source, destination))
    case WriteFailed =>
      exists answer | answer != BlockOperation.Complete ::
        since == PreflightLog(source, destination) + CopiedLog(source, destination, copied)
                 + WriteLog(source, destination, copied, answer)
    case FlushFailed =>
      exists answer | answer != BlockOperation.Complete :: since == FlushedLog(source, destination, answer)
    case _ => false
  }

  /** A run of calls that was cancelled: it adds something, and ends with the check answered true. */
  ghost predicate Cut(before: seq<Entry>, now: seq<Entry>) {
    before <= now && |before| < |now| && now[|now| - 1] == Asked(true)
  }

  /** This was the last call, and the check after it was answered false. */
  ghost predicate LastWas(before: seq<Entry>, now: seq<Entry>, call: Entry) {
    before <= now && |before| + 2 <= |now| && now[|now| - 1] == Asked(false) && now[|now| - 2] == call
  }

  /** The last call, when the check after it was answered false. */
  function LastCall(log: seq<Entry>): Option<Entry> {
    if |log| < 2 || log[|log| - 1] != Asked(false) || !log[|log| - 2].Called? then None else Some(log[|log| - 2])
  }

  // ---- A call and the check after it -----------------------------------------------------
  // Every backend call of the source is followed by a cancellation check before its answer is used.

  /** The check after a call, in the log and for the caller. */
  ghost predicate Checkpoint(start: seq<Entry>, before: seq<Entry>, now: seq<Entry>, call: Entry, cancelled: bool) {
    now == before + [call, Asked(cancelled)]
    && if cancelled then Ended(start, now) else Calm(start, now) && JustAllowed(now)
  }

  /** media_present and the check after it. */
  method PresentChecked(medium: Medium, observer: BlockCopyObserver, ghost start: seq<Entry>)
    returns (present: bool, cancelled: bool)
    requires medium.log == observer.log && medium.Usable() && JustAllowed(observer.log.entries) && Calm(start, observer.log.entries)
    modifies observer`asked, observer.log
    ensures present == medium.backend.present
    ensures observer.NeverCancels() ==> !cancelled
    ensures Checkpoint(start, old(observer.log.entries), observer.log.entries, Called(medium.backend, CallPresent(present)), cancelled)
  {
    hide Calm, Ended, JustAllowed;
    present := medium.MediaPresent(start);
    cancelled := observer.Cancelled(start);
  }

  /** write_protected and the check after it. */
  method ProtectedChecked(medium: Medium, observer: BlockCopyObserver, ghost start: seq<Entry>)
    returns (protected: bool, cancelled: bool)
    requires medium.log == observer.log && medium.Usable() && JustAllowed(observer.log.entries) && Calm(start, observer.log.entries)
    modifies observer`asked, observer.log
    ensures protected == medium.backend.writeProtected
    ensures observer.NeverCancels() ==> !cancelled
    ensures Checkpoint(start, old(observer.log.entries), observer.log.entries, Called(medium.backend, CallProtected(protected)), cancelled)
  {
    hide Calm, Ended, JustAllowed;
    protected := medium.WriteProtected(start);
    cancelled := observer.Cancelled(start);
  }

  /** block_count and the check after it. */
  method CountChecked(medium: Medium, observer: BlockCopyObserver, ghost start: seq<Entry>)
    returns (count: nat, cancelled: bool)
    requires medium.log == observer.log && medium.Usable() && JustAllowed(observer.log.entries) && Calm(start, observer.log.entries)
    modifies observer`asked, observer.log
    ensures count == medium.backend.blocks.Length
    ensures observer.NeverCancels() ==> !cancelled
    ensures Checkpoint(start, old(observer.log.entries), observer.log.entries, Called(medium.backend, CallCount(count)), cancelled)
  {
    hide Calm, Ended, JustAllowed;
    count := medium.BlockCount(start);
    cancelled := observer.Cancelled(start);
  }

  /** read and the check after it. */
  method ReadChecked(medium: Medium, observer: BlockCopyObserver, lba: nat, ghost start: seq<Entry>)
    returns (result: BlockOperation, block: Block, cancelled: bool)
    requires medium.log == observer.log && medium.Usable() && JustAllowed(observer.log.entries) && Calm(start, observer.log.entries)
    modifies medium.backend, observer`asked, observer.log
    ensures (medium.backend.State(), result, block) == old(medium.backend.State()).Read(lba)
    ensures observer.NeverCancels() ==> !cancelled
    ensures Checkpoint(start, old(observer.log.entries), observer.log.entries, Called(medium.backend, CallRead(lba, result)), cancelled)
  {
    hide Calm, Ended, JustAllowed;
    result, block := medium.Read(lba, start);
    cancelled := observer.Cancelled(start);
  }

  /** write and the check after it. */
  method WriteChecked(medium: Medium, observer: BlockCopyObserver, lba: nat, block: Block, ghost start: seq<Entry>)
    returns (result: BlockOperation, cancelled: bool)
    requires medium.log == observer.log && medium.Usable() && JustAllowed(observer.log.entries) && Calm(start, observer.log.entries)
    modifies medium.backend, medium.backend.blocks, observer`asked, observer.log
    ensures (medium.backend.State(), result) == old(medium.backend.State()).Write(lba, block)
    ensures observer.NeverCancels() ==> !cancelled
    ensures Checkpoint(start, old(observer.log.entries), observer.log.entries, Called(medium.backend, CallWrite(lba, result)), cancelled)
  {
    hide Calm, Ended, JustAllowed;
    result := medium.Write(lba, block, start);
    cancelled := observer.Cancelled(start);
  }

  /** flush and the check after it. */
  method FlushChecked(medium: Medium, observer: BlockCopyObserver, ghost start: seq<Entry>)
    returns (result: BlockOperation, cancelled: bool)
    requires medium.log == observer.log && medium.Usable() && JustAllowed(observer.log.entries) && Calm(start, observer.log.entries)
    modifies medium.backend, observer`asked, observer.log
    ensures (medium.backend.State(), result) == old(medium.backend.State()).Flush()
    ensures observer.NeverCancels() ==> !cancelled
    ensures Checkpoint(start, old(observer.log.entries), observer.log.entries, Called(medium.backend, CallFlush(result)), cancelled)
  {
    hide Calm, Ended, JustAllowed;
    result := medium.Flush(start);
    cancelled := observer.Cancelled(start);
  }

  // ---- copy_block_media ------------------------------------------------------------------

  datatype BlockCopyResult =
    | Complete
    | Cancelled
    | ConfirmationRequired
    | OwnershipUnavailable
    | SourceUnavailable
    | DestinationUnavailable
    | DestinationWriteProtected
    | DestinationTooSmall
    | ReadFailed
    | WriteFailed
    | FlushFailed
    | VerificationFailed

  /** Two distinct media and an observer that share one log. */
  ghost predicate Apart(source: Medium, destination: Medium, observer: BlockCopyObserver) {
    && source.log == destination.log == observer.log
    && source.backend != destination.backend && source.backend.blocks != destination.backend.blocks
  }

  /** Nothing can go wrong: no check is answered true and no backend call waits or fails. */
  ghost predicate Smooth(source: Medium, destination: Medium, observer: BlockCopyObserver) {
    observer.NeverCancels() && source.backend.script == [] && destination.backend.script == []
  }

  ghost predicate Traced(start: seq<Entry>, now: seq<Entry>, cancelled: bool) {
    if cancelled then Ended(start, now) else Calm(start, now)
  }

  /** The destination holds the source's first k blocks, and after them what it held before. */
  ghost predicate HoldsPrefix(now: seq<Block>, before: seq<Block>, source: seq<Block>, k: nat) {
    && k <= |source| && k <= |before|
    && now == source[..k] + before[k..]
  }

  /** Every report since the given one claims no more blocks than were copied. */
  ghost predicate Truthful(reports: seq<Progress>, from: nat, k: nat) {
    forall i | from <= i < |reports| :: reports[i].completed <= k
  }

  /** Whether the media can be copied at all: both present, and the destination writable. */
  method CheckMedia(source: Medium, destination: Medium, observer: BlockCopyObserver, ghost start: seq<Entry>)
    returns (stop: Option<BlockCopyResult>)
    requires Apart(source, destination, observer) && source.Usable() && destination.Usable()
    requires Calm(start, observer.log.entries)
    modifies observer`asked, observer.log
    ensures Traced(start, observer.log.entries, stop == Some(Cancelled))
    ensures stop.None? ==> source.backend.present && destination.backend.present && !destination.backend.writeProtected
    ensures stop.None? ==>
              JustAllowed(observer.log.entries)
              && observer.log.entries == old(observer.log.entries) + MediaLog(source.backend, destination.backend)
    ensures stop in {None, Some(Cancelled), Some(SourceUnavailable), Some(DestinationUnavailable), Some(DestinationWriteProtected)}
    ensures observer.NeverCancels() ==> stop != Some(Cancelled)
    ensures stop.Some? ==> QueryExplains(stop.value, old(observer.log.entries), observer.log.entries, source.backend, destination.backend)
  {
    hide Calm, Ended, JustAllowed;
    var cancelled := observer.Cancelled(start);
    if cancelled {
      return Some(Cancelled);
    }
    var sourcePresent;
    sourcePresent, cancelled := PresentChecked(source, observer, start);
    if cancelled {
      return Some(Cancelled);
    }
    if !sourcePresent {
      return Some(SourceUnavailable);
    }
    var destinationPresent;
    destinationPresent, cancelled := PresentChecked(destination, observer, start);
    if cancelled {
      return Some(Cancelled);
    }
    if !destinationPresent {
      return Some(DestinationUnavailable);
    }
    var readOnly;
    readOnly, cancelled := ProtectedChecked(destination, observer, start);
    if cancelled {
      return Some(Cancelled);
    }
    return if readOnly then Some(DestinationWriteProtected) else None;
  }

  /** Whether the destination holds the source. */
  method CheckSizes(source: Medium, destination: Medium, observer: BlockCopyObserver, ghost start: seq<Entry>)
    returns (stop: Option<BlockCopyResult>, blocks: nat)
    requires Apart(source, destination, observer) && source.Usable() && destination.Usable()
    requires Calm(start, observer.log.entries) && JustAllowed(observer.log.entries)
    modifies observer`asked, observer.log
    ensures Traced(start, observer.log.entries, stop == Some(Cancelled))
    ensures stop.None? ==> blocks == source.backend.blocks.Length <= destination.backend.blocks.Length
    ensures stop.None? ==> observer.log.entries == old(observer.log.entries) + SizesLog(source.backend, destination.backend)
    ensures stop in {None, Some(Cancelled), Some(DestinationTooSmall)}
    ensures observer.NeverCancels() ==> stop != Some(Cancelled)
    ensures stop.Some? ==> QueryExplains(stop.value, old(observer.log.entries), observer.log.entries, source.backend, destination.backend)
  {
    hide Calm, Ended, JustAllowed;
    var cancelled;
    blocks, cancelled := CountChecked(source, observer, start);
    if cancelled {
      return Some(Cancelled), blocks;
    }
    var destinationBlocks;
    destinationBlocks, cancelled := CountChecked(destination, observer, start);
    if cancelled {
      return Some(Cancelled), blocks;
    }
    return if destinationBlocks < blocks then Some(DestinationTooSmall) else None, blocks;
  }

  /** The refusal names the answer of the last query. */
  ghost predicate QueryExplains(result: BlockCopyResult, before: seq<Entry>, now: seq<Entry>, source: BlockBackend,
                                destination: BlockBackend)
  {
    match result
    case Cancelled => Cut(before, now)
    case SourceUnavailable => !source.present && LastWas(before, now, Called(source, CallPresent(false)))
    case DestinationUnavailable => !destination.present && LastWas(before, now, Called(destination, CallPresent(false)))
    case DestinationWriteProtected =>
      destination.writeProtected && LastWas(before, now, Called(destination, CallProtected(true)))
    case DestinationTooSmall =>
      destination.blocks.Length < source.blocks.Length
      && LastWas(before, now, Called(destination, CallCount(destination.blocks.Length)))
    case _ => false
  }

  lemma QueryIsExplained(result: BlockCopyResult, before: seq<Entry>, middle: seq<Entry>, now: seq<Entry>,
                         source: BlockBackend, destination: BlockBackend, verify: bool)
    requires before <= middle && QueryExplains(result, middle, now, source, destination)
    ensures before <= now && Explains(result, now[|before|..], source, destination, verify, 0)
  {}

  /** The checks and queries before the first sector. */
  method Preflight(source: Medium, destination: Medium, observer: BlockCopyObserver, ghost start: seq<Entry>, ghost verify: bool)
    returns (stop: Option<BlockCopyResult>, blocks: nat)
    requires Apart(source, destination, observer) && source.Usable() && destination.Usable()
    requires Calm(start, observer.log.entries)
    modifies observer`asked, observer.log
    ensures Traced(start, observer.log.entries, stop == Some(Cancelled))
    ensures stop.None? ==> blocks == source.backend.blocks.Length <= destination.backend.blocks.Length
    ensures stop.None? ==> source.backend.present && destination.backend.present && !destination.backend.writeProtected
    ensures stop == Some(SourceUnavailable) ==> !source.backend.present
    ensures stop == Some(DestinationUnavailable) ==> !destination.backend.present
    ensures stop == Some(DestinationWriteProtected) ==> destination.backend.writeProtected
    ensures stop == Some(DestinationTooSmall) ==> destination.backend.blocks.Length < source.backend.blocks.Length
    ensures stop in {None, Some(Cancelled), Some(SourceUnavailable), Some(DestinationUnavailable),
                     Some(DestinationWriteProtected), Some(DestinationTooSmall)}
    ensures observer.NeverCancels() ==> stop != Some(Cancelled)
    ensures stop.None? ==>
              observer.log.entries == old(observer.log.entries) + PreflightLog(source.backend, destination.backend)
    ensures stop.Some? ==>
              old(observer.log.entries) <= observer.log.entries
              && Explains(stop.value, observer.log.entries[|old(observer.log.entries)|..], source.backend, destination.backend, verify, 0)
  {
    hide Calm, Ended, JustAllowed, Explains, MediaLog, SizesLog;
    ghost var before := observer.log.entries;
    blocks := 0;
    stop := CheckMedia(source, destination, observer, start);
    if stop.Some? {
      QueryIsExplained(stop.value, before, before, observer.log.entries, source.backend, destination.backend, verify);
      return;
    }
    ghost var middle := observer.log.entries;
    stop, blocks := CheckSizes(source, destination, observer, start);
    if stop.Some? {
      QueryIsExplained(stop.value, before, middle, observer.log.entries, source.backend, destination.backend, verify);
    }
  }

  /** One pass of the copy loop. */
  method CopySector(source: Medium, destination: Medium, observer: BlockCopyObserver, lba: nat, ghost start: seq<Entry>)
    returns (stop: Option<BlockCopyResult>, ghost written: bool)
    requires Apart(source, destination, observer) && source.Usable() && destination.Usable()
    requires Calm(start, observer.log.entries)
    requires lba < source.backend.blocks.Length <= destination.backend.blocks.Length
    modifies source.backend, destination.backend, destination.backend.blocks, observer`asked, observer.log
    ensures Traced(start, observer.log.entries, stop == Some(Cancelled))
    ensures stop in {None, Some(Cancelled), Some(ReadFailed), Some(WriteFailed)}
    ensures stop.None? ==> written
    ensures stop == Some(ReadFailed) || stop == Some(WriteFailed) ==> !written
    ensures destination.backend.blocks[..]
         == if written then old(destination.backend.blocks[..])[lba := source.backend.blocks[lba]] else old(destination.backend.blocks[..])
    ensures Smooth(source, destination, observer) ==> stop.None?
    ensures stop.None? ==>
              observer.log.entries
              == old(observer.log.entries) + WriteLog(source.backend, destination.backend, lba, BlockOperation.Complete)
    ensures stop == Some(ReadFailed) ==>
              exists answer | answer != BlockOperation.Complete ::
                observer.log.entries == old(observer.log.entries) + ReadLog(source.backend, lba, answer)
    ensures stop == Some(WriteFailed) ==>
              exists answer | answer != BlockOperation.Complete ::
                observer.log.entries == old(observer.log.entries) + WriteLog(source.backend, destination.backend, lba, answer)
    ensures stop == Some(Cancelled) ==> Cut(old(observer.log.entries), observer.log.entries)
  {
    hide Calm, Ended, JustAllowed;
    written := false;
    var cancelled := observer.Cancelled(start);
    if cancelled {
      return Some(Cancelled), written;
    }
    var readResult, sector;
    readResult, sector, cancelled := ReadChecked(source, observer, lba, start);
    if cancelled {
      return Some(Cancelled), written;
    }
    assert observer.log.entries == old(observer.log.entries) + ReadLog(source.backend, lba, readResult);
    if readResult != BlockOperation.Complete {
      return Some(ReadFailed), written;
    }
    var writeResult;
    writeResult, cancelled := WriteChecked(destination, observer, lba, sector, start);
    written := writeResult == BlockOperation.Complete;
    if cancelled {
      return Some(Cancelled), written;
    }
    assert observer.log.entries == old(observer.log.entries) + WriteLog(source.backend, destination.backend, lba, writeResult);
    return if writeResult != BlockOperation.Complete then Some(WriteFailed) else None, written;
  }

  /** The copy loop: a prefix of the source, and how long it got. */
  method CopySectors(source: Medium, destination: Medium, observer: BlockCopyObserver, blocks: nat, ghost start: seq<Entry>)
    returns (stop: Option<BlockCopyResult>, ghost copied: nat)
    requires Apart(source, destination, observer) && source.Usable() && destination.Usable()
    requires Calm(start, observer.log.entries)
    requires blocks == source.backend.blocks.Length <= destination.backend.blocks.Length
    modifies source.backend, destination.backend, destination.backend.blocks, observer`asked, observer`reports, observer.log
    ensures Traced(start, observer.log.entries, stop == Some(Cancelled))
    ensures stop in {None, Some(Cancelled), Some(ReadFailed), Some(WriteFailed)}
    ensures HoldsPrefix(destination.backend.blocks[..], old(destination.backend.blocks[..]), source.backend.blocks[..], copied)
    ensures stop.None? ==> copied == blocks && observer.reports == old(observer.reports) + CopiedReports(blocks, blocks)
    ensures stop == Some(ReadFailed) || stop == Some(WriteFailed) ==> copied < blocks
    ensures old(observer.reports) <= observer.reports && Truthful(observer.reports, |old(observer.reports)|, copied)
    ensures Smooth(source, destination, observer) ==> stop.None?
    ensures stop.None? ==>
              observer.log.entries
              == old(observer.log.entries) + CopiedLog(source.backend, destination.backend, source.backend.blocks.Length)
    ensures stop == Some(ReadFailed) ==>
              exists answer | answer != BlockOperation.Complete ::
                observer.log.entries == old(observer.log.entries) + CopiedLog(source.backend, destination.backend, copied)
                                        + ReadLog(source.backend, copied, answer)
    ensures stop == Some(WriteFailed) ==>
              exists answer | answer != BlockOperation.Complete ::
                observer.log.entries == old(observer.log.entries) + CopiedLog(source.backend, destination.backend, copied)
                                        + WriteLog(source.backend, destination.backend, copied, answer)
    ensures stop == Some(Cancelled) ==> Cut(old(observer.log.entries), observer.log.entries)
  {
    hide Calm, Ended, JustAllowed, ReadLog, WriteLog, CopiedLog, HoldsPrefix, Cut;
    ghost var before := destination.backend.blocks[..];
    ghost var begun := observer.log.entries;
    copied := 0;
    NothingCopied(before, source.backend.blocks[..]);
    CopiedNext(begun, source.backend, destination.backend, 0);
    var lba := 0;
    while lba < blocks
      invariant observer.log.entries == old(observer.log.entries) + CopiedLog(source.backend, destination.backend, lba)
      invariant 0 <= lba <= blocks && copied == lba
      invariant observer.reports == old(observer.reports) + CopiedReports(blocks, lba)
      invariant HoldsPrefix(destination.backend.blocks[..], before, source.backend.blocks[..], lba)
      invariant Calm(start, observer.log.entries)
      invariant old(observer.reports) <= observer.reports && Truthful(observer.reports, |old(observer.reports)|, copied)
    {
      ghost var written, holds := false, destination.backend.blocks[..];
      ghost var here := observer.log.entries;
      stop, written := CopySector(source, destination, observer, lba, start);
      if written {
        PrefixGrows(holds, before, source.backend.blocks[..], lba);
        copied := lba + 1;
      }
      if stop.Some? {
        CutLater(begun, here, observer.log.entries);
        return;
      }
      CopiedNext(begun, source.backend, destination.backend, lba);
      observer.Report(Progress(lba + 1, blocks, 0, false));
      lba := lba + 1;
    }
    stop := None;
  }

  lemma PrefixGrows(now: seq<Block>, before: seq<Block>, source: seq<Block>, k: nat)
    requires HoldsPrefix(now, before, source, k) && k < |source| && k < |before|
    ensures HoldsPrefix(now[k := source[k]], before, source, k + 1)
  {}

  lemma CopiedNext(begun: seq<Entry>, source: BlockBackend, destination: BlockBackend, k: nat)
    ensures CopiedLog(source, destination, 0) == [] && begun + [] == begun
    ensures begun + CopiedLog(source, destination, k) + WriteLog(source, destination, k, BlockOperation.Complete)
         == begun + CopiedLog(source, destination, k + 1)
  {}

  lemma CutLater(begun: seq<Entry>, here: seq<Entry>, now: seq<Entry>)
    ensures begun <= here && Cut(here, now) ==> Cut(begun, now)
  {}

  /** One pass of the verification loop: with the blocks equal it never finds a difference. */
  method VerifySector(source: Medium, destination: Medium, observer: BlockCopyObserver, lba: nat, ghost start: seq<Entry>)
    returns (stop: Option<BlockCopyResult>)
    requires Apart(source, destination, observer) && source.Usable() && destination.Usable()
    requires Calm(start, observer.log.entries)
    requires lba < source.backend.blocks.Length <= destination.backend.blocks.Length
    modifies source.backend, destination.backend, observer`asked, observer.log
    ensures Traced(start, observer.log.entries, stop == Some(Cancelled))
    ensures stop in {None, Some(Cancelled), Some(ReadFailed), Some(VerificationFailed)}
    ensures stop.None? ==> source.backend.blocks[lba] == destination.backend.blocks[lba]
    ensures stop == Some(VerificationFailed) ==> source.backend.blocks[lba] != destination.backend.blocks[lba]
    ensures Smooth(source, destination, observer) && source.backend.blocks[lba] == destination.backend.blocks[lba] ==> stop.None?
    ensures stop.None? ==>
              observer.log.entries
              == old(observer.log.entries) + ReadBackLog(source.backend, destination.backend, lba, BlockOperation.Complete)
    ensures stop == Some(ReadFailed) ==>
              exists answer | answer != BlockOperation.Complete ::
                observer.log.entries == old(observer.log.entries) + ReadLog(source.backend, lba, answer)
                || observer.log.entries == old(observer.log.entries) + ReadBackLog(source.backend, destination.backend, lba, answer)
    ensures stop == Some(Cancelled) ==> Cut(old(observer.log.entries), observer.log.entries)
  {
    hide Calm, Ended, JustAllowed;
    var cancelled := observer.Cancelled(start);
    if cancelled {
      return Some(Cancelled);
    }
    var sourceResult, expected;
    sourceResult, expected, cancelled := ReadChecked(source, observer, lba, start);
    if cancelled {
      return Some(Cancelled);
    }
    assert observer.log.entries == old(observer.log.entries) + ReadLog(source.backend, lba, sourceResult);
    if sourceResult != BlockOperation.Complete {
      return Some(ReadFailed);
    }
    var destinationResult, actual;
    destinationResult, actual, cancelled := ReadChecked(destination, observer, lba, start);
    if cancelled {
      return Some(Cancelled);
    }
    assert observer.log.entries == old(observer.log.entries) + ReadBackLog(source.backend, destination.backend, lba, destinationResult);
    if destinationResult != BlockOperation.Complete {
      return Some(ReadFailed);
    }
    return if expected != actual then Some(VerificationFailed) else None;
  }

  /** The verification loop. */
  method VerifySectors(source: Medium, destination: Medium, observer: BlockCopyObserver, blocks: nat, ghost start: seq<Entry>)
    returns (stop: Option<BlockCopyResult>)
    requires Apart(source, destination, observer) && source.Usable() && destination.Usable()
    requires Calm(start, observer.log.entries)
    requires blocks == source.backend.blocks.Length <= destination.backend.blocks.Length
    modifies source.backend, destination.backend, observer`asked, observer`reports, observer.log
    ensures Traced(start, observer.log.entries, stop == Some(Cancelled))
    ensures stop in {None, Some(Cancelled), Some(ReadFailed), Some(VerificationFailed)}
    ensures stop.None? ==> source.backend.blocks[..] == destination.backend.blocks[..blocks]
    ensures source.backend.blocks[..] == destination.backend.blocks[..blocks] ==> stop != Some(VerificationFailed)
    ensures Smooth(source, destination, observer) && source.backend.blocks[..] == destination.backend.blocks[..blocks] ==> stop.None?
    ensures old(observer.reports) <= observer.reports && Truthful(observer.reports, |old(observer.reports)|, blocks)
    ensures stop.None? ==>
              observer.log.entries
              == old(observer.log.entries) + (VerifiedLog(source.backend, destination.backend, source.backend.blocks.Length)
                                              + [Asked(false)])
    ensures stop.None? ==> observer.reports == old(observer.reports) + VerifiedReports(blocks, blocks)
    ensures stop == Some(ReadFailed) ==>
              old(observer.log.entries) <= observer.log.entries
              && FailedReadBack(observer.log.entries[|old(observer.log.entries)|..], source.backend, destination.backend)
    ensures stop == Some(Cancelled) ==> Cut(old(observer.log.entries), observer.log.entries)
  {
    hide Calm, Ended, JustAllowed, ReadLog, ReadBackLog;
    ghost var copied := source.backend.blocks[..] == destination.backend.blocks[..blocks];
    var lba := 0;
    while lba < blocks
      invariant 0 <= lba <= blocks
      invariant observer.reports == old(observer.reports) + VerifiedReports(blocks, lba)
      invariant source.backend.blocks[..lba] == destination.backend.blocks[..lba]
      invariant observer.log.entries == old(observer.log.entries) + VerifiedLog(source.backend, destination.backend, lba)
      invariant Calm(start, observer.log.entries)
      invariant old(observer.reports) <= observer.reports && Truthful(observer.reports, |old(observer.reports)|, blocks)
    {
      assert copied ==> source.backend.blocks[..][lba] == destination.backend.blocks[..blocks][lba];
      stop := VerifySector(source, destination, observer, lba, start);
      if stop.Some? {
        return;
      }
      observer.Report(Progress(blocks, blocks, lba + 1, true));
      lba := lba + 1;
    }
    assert source.backend.blocks[..lba] == source.backend.blocks[..];
    var cancelled := observer.Cancelled(start);
    stop := if cancelled then Some(Cancelled) else None;
  }

  /** The results of a copy that never started. */
  predicate Refused(result: BlockCopyResult) {
    result in {ConfirmationRequired, OwnershipUnavailable, SourceUnavailable, DestinationUnavailable,
               DestinationWriteProtected, DestinationTooSmall}
  }

  /** The progress of a copy: after each of the first k sectors, and after each of the first k read back. */
  function CopiedReports(total: nat, k: nat): seq<Progress> {
    if k == 0 then [] else CopiedReports(total, k - 1) + [Progress(k, total, 0, false)]
  }

  function VerifiedReports(total: nat, k: nat): seq<Progress> {
    if k == 0 then [] else VerifiedReports(total, k - 1) + [Progress(total, total, k, true)]
  }

  /** All reports of a copy that completes. */
  function WholeReports(total: nat, verify: bool): seq<Progress> {
    [Progress(0, total, 0, false)] + CopiedReports(total, total)
    + (if verify then [Progress(total, total, 0, true)] + VerifiedReports(total, total) else [])
  }

  lemma AllReports(before: seq<Progress>, total: nat, verify: bool)
    ensures before + [Progress(0, total, 0, false)] + CopiedReports(total, total)
            + (if verify then [Progress(total, total, 0, true)] + VerifiedReports(total, total) else [])
         == before + WholeReports(total, verify)
  {
    hide CopiedReports, VerifiedReports;
  }

  /** What every copy guarantees, whatever its result. */
  ghost predicate CopyGuarantees(result: BlockCopyResult, verify: bool, now: seq<Block>, before: seq<Block>,
                                 source: seq<Block>, copied: nat)
  {
    && HoldsPrefix(now, before, source, copied)
    && (result in {BlockCopyResult.Complete, FlushFailed} ==> copied == |source|)
    && (Refused(result) ==> copied == 0)
    && (result == WriteFailed ==> copied < |source|)
    && (result == ReadFailed && !verify ==> copied < |source|)
    && result != VerificationFailed
  }

  /** Nothing can go wrong, and the media are fit for the copy: it must complete. */
  ghost predicate SmoothCopy(source: BlockBackend, destination: BlockBackend, observer: BlockCopyObserver) {
    && observer.NeverCancels() && source.script == [] && destination.script == []
    && source.present && destination.present && !destination.writeProtected
    && source.blocks.Length <= destination.blocks.Length
  }

  /** What the log of the end of a copy says. */
  ghost predicate EndExplains(result: BlockCopyResult, before: seq<Entry>, now: seq<Entry>,
                              source: BlockBackend, destination: BlockBackend, verify: bool)
  {
    var flushed := before + FlushLog(destination, BlockOperation.Complete);
    match result
    case Complete =>
      now == flushed + (if verify then VerifiedLog(source, destination, source.blocks.Length) + [Asked(false)] else [])
    case FlushFailed => exists answer | answer != BlockOperation.Complete :: now == before + FlushLog(destination, answer)
    case ReadFailed => verify && flushed <= now && FailedReadBack(now[|flushed|..], source, destination)
    case _ => Cut(before, now)
  }

  /** The end of a copy: the final boundary, the flush, and the optional verification. */
  method FlushAndVerify(source: Medium, destination: Medium, verify: bool, observer: BlockCopyObserver,
                        blocks: nat, ghost start: seq<Entry>)
    returns (result: BlockCopyResult)
    requires Apart(source, destination, observer) && source.Usable() && destination.Usable()
    requires Calm(start, observer.log.entries)
    requires blocks == source.backend.blocks.Length <= destination.backend.blocks.Length
    requires destination.backend.blocks[..blocks] == source.backend.blocks[..]
    modifies source.backend, destination.backend, observer`asked, observer`reports, observer.log
    ensures Traced(start, observer.log.entries, result == Cancelled)
    ensures result in {BlockCopyResult.Complete, Cancelled, FlushFailed, ReadFailed}
    ensures result == ReadFailed ==> verify
    ensures Smooth(source, destination, observer) && destination.backend.present ==> result == BlockCopyResult.Complete
    ensures old(observer.reports) <= observer.reports && Truthful(observer.reports, |old(observer.reports)|, blocks)
    ensures result == BlockCopyResult.Complete ==>
              observer.reports == old(observer.reports)
                                  + (if verify then [Progress(blocks, blocks, 0, true)] + VerifiedReports(blocks, blocks) else [])
    ensures EndExplains(result, old(observer.log.entries), observer.log.entries, source.backend, destination.backend, verify)
  {
    hide Calm, Ended, JustAllowed, VerifiedLog, ReadBackLog, FailedReadBack;
    var cancelled := observer.Cancelled(start);
    if cancelled {
      return Cancelled;
    }
    var flushResult;
    flushResult, cancelled := FlushChecked(destination, observer, start);
    if cancelled {
      return Cancelled;
    }
    assert observer.log.entries == old(observer.log.entries) + FlushLog(destination.backend, flushResult);
    if flushResult != BlockOperation.Complete {
      return FlushFailed;
    }
    if !verify {
      return BlockCopyResult.Complete;
    }
    observer.Report(Progress(blocks, blocks, 0, true));
    var stop := VerifySectors(source, destination, observer, blocks, start);
    return if stop.Some? then stop.value else BlockCopyResult.Complete;
  }

  /** A copy after its preflight: the sectors, the flush, and the optional verification. */
  method CopyAndFinish(source: Medium, destination: Medium, verify: bool, observer: BlockCopyObserver, blocks: nat,
                       ghost start: seq<Entry>)
    returns (result: BlockCopyResult, ghost copied: nat)
    requires Apart(source, destination, observer) && source.Usable() && destination.Usable()
    requires Calm(start, observer.log.entries)
    requires observer.log.entries == start + PreflightLog(source.backend, destination.backend)
    requires blocks == source.backend.blocks.Length <= destination.backend.blocks.Length
    modifies source.backend, destination.backend, destination.backend.blocks, observer`asked, observer`reports, observer.log
    ensures Traced(start, observer.log.entries, result == Cancelled)
    ensures CopyGuarantees(result, verify, destination.backend.blocks[..], old(destination.backend.blocks[..]),
                           source.backend.blocks[..], copied)
    ensures result in {BlockCopyResult.Complete, Cancelled, ReadFailed, WriteFailed, FlushFailed}
    ensures Smooth(source, destination, observer) && destination.backend.present ==> result == BlockCopyResult.Complete
    ensures old(observer.reports) <= observer.reports && Truthful(observer.reports, |old(observer.reports)|, copied)
    ensures start <= observer.log.entries
    ensures result == BlockCopyResult.Complete ==>
              observer.reports == old(observer.reports) + WholeReports(source.backend.blocks.Length, verify)
    ensures Explains(result, observer.log.entries[|start|..], source.backend, destination.backend, verify, copied)
  {
    hide Calm, Ended, JustAllowed, Explains, PreflightLog, CopiedLog, EndExplains, ReadLog, WriteLog, Cut, FlushLog, WholeReports,
      CopiedReports, VerifiedReports;
    ghost var before := destination.backend.blocks[..];
    ghost var begun := observer.log.entries;
    var stop;
    observer.Report(Progress(0, blocks, 0, false));
    stop, copied := CopySectors(source, destination, observer, blocks, start);
    if stop.Some? {
      CopyExplains(stop.value, start, begun, observer.log.entries, source.backend, destination.backend, verify, copied);
      return stop.value, copied;
    }
    ghost var done := observer.log.entries;
    PrefixIsWhole(destination.backend.blocks[..], before, source.backend.blocks[..]);
    result := FlushAndVerify(source, destination, verify, observer, blocks, start);
    AllReports(old(observer.reports), blocks, verify);
    EndIsExplained(result, start, done, observer.log.entries, source.backend, destination.backend, verify, copied);
  }

  /** Copies every source block in order, flushes, and on request reads everything back. */
  method CopyBlockMedia(source: Medium, destination: Medium, verify: bool, observer: BlockCopyObserver)
    returns (result: BlockCopyResult, ghost copied: nat)
    requires Apart(source, destination, observer) && source.Usable() && destination.Usable()
    modifies source.backend, destination.backend, destination.backend.blocks, observer`asked, observer`reports, observer.log
    ensures Traced(old(observer.log.entries), observer.log.entries, result == Cancelled)
    ensures CopyGuarantees(result, verify, destination.backend.blocks[..], old(destination.backend.blocks[..]),
                           source.backend.blocks[..], copied)
    ensures result !in {ConfirmationRequired, OwnershipUnavailable}
    ensures result == SourceUnavailable ==> !source.backend.present
    ensures result == DestinationUnavailable ==> !destination.backend.present
    ensures result == DestinationWriteProtected ==> destination.backend.writeProtected
    ensures result == DestinationTooSmall ==> destination.backend.blocks.Length < source.backend.blocks.Length
    ensures SmoothCopy(source.backend, destination.backend, observer) ==> result == BlockCopyResult.Complete
    ensures old(observer.reports) <= observer.reports && Truthful(observer.reports, |old(observer.reports)|, copied)
    ensures old(observer.log.entries) <= observer.log.entries
    ensures result == BlockCopyResult.Complete ==>
              observer.reports == old(observer.reports) + WholeReports(source.backend.blocks.Length, verify)
    ensures Explains(result, observer.log.entries[|old(observer.log.entries)|..], source.backend, destination.backend, verify, copied)
  {
    hide Calm, Ended, JustAllowed, Explains, PreflightLog, HoldsPrefix, WholeReports;
    ghost var start := observer.log.entries;
    CalmAtStart(start);
    copied := 0;
    NothingCopied(destination.backend.blocks[..], source.backend.blocks[..]);
    var stop, blocks := Preflight(source, destination, observer, start, verify);
    if stop.Some? {
      return stop.value, copied;
    }
    result, copied := CopyAndFinish(source, destination, verify, observer, blocks, start);
  }

  lemma CopyExplains(result: BlockCopyResult, start: seq<Entry>, begun: seq<Entry>, now: seq<Entry>,
                     source: BlockBackend, destination: BlockBackend, verify: bool, copied: nat)
    requires begun == start + PreflightLog(source, destination)
    requires result in {Cancelled, ReadFailed, WriteFailed}
    requires result == Cancelled ==> Cut(begun, now)
    requires result == ReadFailed ==>
               exists answer | answer != BlockOperation.Complete ::
                 now == begun + CopiedLog(source, destination, copied) + ReadLog(source, copied, answer)
    requires result == WriteFailed ==>
               exists answer | answer != BlockOperation.Complete ::
                 now == begun + CopiedLog(source, destination, copied) + WriteLog(source, destination, copied, answer)
    ensures start <= now && Explains(result, now[|start|..], source, destination, verify, copied)
  {
    hide CopiedLog, PreflightLog, WriteLog, ReadLog;
    var before, middle := PreflightLog(source, destination), CopiedLog(source, destination, copied);
    forall answer | answer != BlockOperation.Complete
      ensures now == begun + middle + ReadLog(source, copied, answer) ==>
                start <= now && now[|start|..] == before + middle + ReadLog(source, copied, answer)
      ensures now == begun + middle + WriteLog(source, destination, copied, answer) ==>
                start <= now && now[|start|..] == before + middle + WriteLog(source, destination, copied, answer)
    {
      After(start, before, middle, ReadLog(source, copied, answer));
      After(start, before, middle, WriteLog(source, destination, copied, answer));
    }
  }

  lemma After(start: seq<Entry>, a: seq<Entry>, b: seq<Entry>, c: seq<Entry>)
    ensures var now := start + a + b + c; start <= now && now[|start|..] == a + b + c
  {
    assert start + a + b + c == start + (a + b + c);
  }

  lemma EndIsExplained(result: BlockCopyResult, start: seq<Entry>, done: seq<Entry>, now: seq<Entry>,
                       source: BlockBackend, destination: BlockBackend, verify: bool, copied: nat)
    requires done == start + PreflightLog(source, destination) + CopiedLog(source, destination, source.blocks.Length)
    requires result in {BlockCopyResult.Complete, Cancelled, FlushFailed, ReadFailed}
    requires EndExplains(result, done, now, source, destination, verify)
    ensures start <= now && Explains(result, now[|start|..], source, destination, verify, copied)
  {
    hide CopiedLog, PreflightLog, VerifiedLog, FailedReadBack, FailedCopyRead, FlushLog;
    var before, middle := PreflightLog(source, destination), CopiedLog(source, destination, source.blocks.Length);
    forall answer ensures done + FlushLog(destination, answer) == start + FlushedLog(source, destination, answer) {
      After(start, before, middle, FlushLog(destination, answer));
    }
    if result == BlockCopyResult.Complete {
      var rest := if verify then VerifiedLog(source, destination, source.blocks.Length) + [Asked(false)] else [];
      assert now == start + (FlushedLog(source, destination, BlockOperation.Complete) + rest);
    }
    if result == ReadFailed {
      var flushed := FlushedLog(source, destination, BlockOperation.Complete);
      assert now[|start|..][|flushed|..] == now[|start + flushed|..];
    }
  }

  /** The log decides the result: no two results leave the same one. */
  lemma LogDecides(since: seq<Entry>, source: BlockBackend, destination: BlockBackend, verify: bool,
                   r1: BlockCopyResult, c1: nat, r2: BlockCopyResult, c2: nat)
    requires source != destination
    requires Explains(r1, since, source, destination, verify, c1) && Explains(r2, since, source, destination, verify, c2)
    ensures r1 == r2
  {
    hide Explains;
    LastOf(since, source, destination, verify, r1, c1);
    LastOf(since, source, destination, verify, r2, c2);
  }

  /** How the log of each result ends. */
  ghost predicate EndsAs(result: BlockCopyResult, since: seq<Entry>, source: BlockBackend, destination: BlockBackend) {
    var last := LastCall(since);
    since != [] && (since[|since| - 1] == Asked(true) <==> result == Cancelled)
    && match result
       case Complete => last == None || last == Some(Called(destination, CallFlush(BlockOperation.Complete)))
       case ReadFailed => last.Some? && last.value.call.CallRead? && last.value.call.answer != BlockOperation.Complete
       case WriteFailed => last.Some? && last.value.call.CallWrite? && last.value.call.answer != BlockOperation.Complete
       case FlushFailed => last.Some? && last.value.call.CallFlush? && last.value.call.answer != BlockOperation.Complete
       case SourceUnavailable => last == Some(Called(source, CallPresent(false)))
       case DestinationUnavailable => last == Some(Called(destination, CallPresent(false)))
       case DestinationWriteProtected => last == Some(Called(destination, CallProtected(true)))
       case DestinationTooSmall => last.Some? && last.value.call.CallCount?
       case _ => true
  }

  lemma LastOf(since: seq<Entry>, source: BlockBackend, destination: BlockBackend, verify: bool, result: BlockCopyResult, copied: nat)
    requires Explains(result, since, source, destination, verify, copied)
    ensures EndsAs(result, since, source, destination) && result !in {ConfirmationRequired, OwnershipUnavailable, VerificationFailed}
  {
    hide CopiedLog, PreflightLog, VerifiedLog, FlushedLog;
    FlushedEnds(source, destination);
    VerifiedEnds(source, destination, source.blocks.Length);
    if result == ReadFailed && !FailedCopyRead(since, source, destination, copied) {
      var flushed := FlushedLog(source, destination, BlockOperation.Complete);
      var rest := since[|flushed|..];
      assert |rest| >= 2 && since[|since| - 1] == rest[|rest| - 1] && since[|since| - 2] == rest[|rest| - 2];
    }
  }

  lemma VerifiedEnds(source: BlockBackend, destination: BlockBackend, n: nat)
    ensures var log := VerifiedLog(source, destination, n); log == [] || log[|log| - 1] == Asked(false)
  {}

  lemma FlushedEnds(source: BlockBackend, destination: BlockBackend)
    ensures forall answer :: LastCall(FlushedLog(source, destination, answer)) == Some(Called(destination, CallFlush(answer)))
  {
    hide CopiedLog, PreflightLog;
  }

  lemma PrefixIsWhole(now: seq<Block>, before: seq<Block>, source: seq<Block>)
    requires HoldsPrefix(now, before, source, |source|)
    ensures now[..|source|] == source
  {}

  lemma CalmAtStart(start: seq<Entry>)
    ensures Calm(start, start)
  {}

  lemma NothingCopied(before: seq<Block>, source: seq<Block>)
    ensures HoldsPrefix(before, before, source, 0)
  {}

  // ---- The exclusive wrappers ------------------------------------------------------------------

  /** The other backend, and the arbitered one as the copier would use it. */
  ghost predicate ApartFrom(arbiter: BlockBackendArbiter, other: Medium, observer: BlockCopyObserver) {
    && other.log == observer.log
    && other.arbiter != arbiter && other.backend != arbiter.backend && other.backend.blocks != arbiter.backend.blocks
  }

  /** Copies under the arbiter's host-copy ownership and leaves the ownership as it was. */
  method CopyToExclusiveBackend(source: Medium, destination: BlockBackendArbiter, confirmed: bool, verify: bool,
                                observer: BlockCopyObserver)
    returns (result: BlockCopyResult, ghost copied: nat)
    requires ApartFrom(destination, source, observer) && source.Usable()
    modifies source.backend, destination, destination.backend, destination.backend.blocks, observer`asked, observer`reports, observer.log
    ensures destination.owner == old(destination.owner)
    ensures Traced(old(observer.log.entries), observer.log.entries, result == Cancelled)
    ensures CopyGuarantees(result, verify, destination.backend.blocks[..], old(destination.backend.blocks[..]),
                           source.backend.blocks[..], copied)
    ensures (result == ConfirmationRequired) == !confirmed
    ensures old(destination.owner) != Nobody ==>
              && result in {ConfirmationRequired, Cancelled, OwnershipUnavailable}
              && destination.backend.State() == old(destination.backend.State())
    ensures result == OwnershipUnavailable ==> old(destination.owner) != Nobody
    ensures confirmed && old(destination.owner) == Nobody && SmoothCopy(source.backend, destination.backend, observer)
            ==> result == BlockCopyResult.Complete
    ensures old(observer.log.entries) <= observer.log.entries
    ensures result !in {ConfirmationRequired, Cancelled, OwnershipUnavailable} ==>
              var begun := old(observer.log.entries) + [Asked(false), Asked(false)];
              begun <= observer.log.entries
              && Explains(result, observer.log.entries[|begun|..], source.backend, destination.backend, verify, copied)
  {
    hide Calm, Ended, JustAllowed, Explains, HoldsPrefix;
    ghost var start := observer.log.entries;
    CalmAtStart(start);
    copied := 0;
    NothingCopied(destination.backend.blocks[..], source.backend.blocks[..]);
    if !confirmed {
      return ConfirmationRequired, copied;
    }
    var cancelled := observer.Cancelled(start);
    if cancelled {
      return Cancelled, copied;
    }
    var acquired := destination.BeginHostCopy();
    cancelled := observer.Cancelled(start);
    if cancelled {
      result := Cancelled;
    } else if !acquired {
      result := OwnershipUnavailable;
    } else {
      var physical := new Medium(destination.backend, destination, observer.log);
      ghost var middle := observer.log.entries;
      result, copied := CopyBlockMedia(source, physical, verify, observer);
      TracedOnward(start, middle, observer.log.entries, result == Cancelled);
    }
    if acquired {
      var _ := destination.EndHostCopy();
    }
  }

  lemma TracedOnward(start: seq<Entry>, middle: seq<Entry>, now: seq<Entry>, cancelled: bool)
    requires Calm(start, middle) && Traced(middle, now, cancelled)
    ensures Traced(start, now, cancelled)
  {
    if cancelled {
      var last := now[..|now| - 1];
      assert last[|start|..] == middle[|start|..] + last[|middle|..];
    } else {
      assert now[|start|..] == middle[|start|..] + now[|middle|..];
    }
  }

  method CopyFromExclusiveBackend(source: BlockBackendArbiter, destination: Medium, confirmed: bool, verify: bool,
                                  observer: BlockCopyObserver)
    returns (result: BlockCopyResult, ghost copied: nat)
    requires ApartFrom(source, destination, observer) && destination.Usable()
    modifies source, source.backend, destination.backend, destination.backend.blocks, observer`asked, observer`reports, observer.log
    ensures source.owner == old(source.owner)
    ensures Traced(old(observer.log.entries), observer.log.entries, result == Cancelled)
    ensures CopyGuarantees(result, verify, destination.backend.blocks[..], old(destination.backend.blocks[..]),
                           source.backend.blocks[..], copied)
    ensures (result == ConfirmationRequired) == !confirmed
    ensures old(source.owner) != Nobody ==>
              && result in {ConfirmationRequired, Cancelled, OwnershipUnavailable}
              && destination.backend.State() == old(destination.backend.State())
    ensures result == OwnershipUnavailable ==> old(source.owner) != Nobody
    ensures confirmed && old(source.owner) == Nobody && SmoothCopy(source.backend, destination.backend, observer)
            ==> result == BlockCopyResult.Complete
    ensures old(observer.log.entries) <= observer.log.entries
    ensures result !in {ConfirmationRequired, Cancelled, OwnershipUnavailable} ==>
              var begun := old(observer.log.entries) + [Asked(false), Asked(false)];
              begun <= observer.log.entries
              && Explains(result, observer.log.entries[|begun|..], source.backend, destination.backend, verify, copied)
  {
    hide Calm, Ended, JustAllowed, Explains, HoldsPrefix;
    ghost var start := observer.log.entries;
    CalmAtStart(start);
    copied := 0;
    NothingCopied(destination.backend.blocks[..], source.backend.blocks[..]);
    if !confirmed {
      return ConfirmationRequired, copied;
    }
    var cancelled := observer.Cancelled(start);
    if cancelled {
      return Cancelled, copied;
    }
    var acquired := source.BeginHostCopy();
    cancelled := observer.Cancelled(start);
    if cancelled {
      result := Cancelled;
    } else if !acquired {
      result := OwnershipUnavailable;
    } else {
      var physical := new Medium(source.backend, source, observer.log);
      ghost var middle := observer.log.entries;
      result, copied := CopyBlockMedia(physical, destination, verify, observer);
      TracedOnward(start, middle, observer.log.entries, result == Cancelled);
    }
    if acquired {
      var _ := source.EndHostCopy();
    }
  }
}
