/** The fixed pool of sector buffers with LRU replacement (cdc_sector_buffer_pool.hpp). */
module SectorBufferPool {
  import opened Basics

  datatype SlotState = Free | Reading | Ready | Writing

  datatype Slot = Slot(data: Block, lba: U64, generation: U64, lastUsed: nat, state: SlotState) {
    predicate Holds(lba: U64, generation: U64) {
      this.lba == lba && this.generation == generation
    }

    predicate ReadyFor(lba: U64, generation: U64) { state == Ready && Holds(lba, generation) }

    /** The slot after invalidate_ready for this sector. */
    function Without(lba: U64, generation: U64): Slot {
      if ReadyFor(lba, generation) then FreeSlot() else this
    }

    predicate InFlight() { state == Reading || state == Writing }
  }

  function FreeSlot(): Slot { Slot(ZeroBlock(), 0, 0, 0, Free) }

  /** The first free slot, or |slots|. */
  function FirstFree(slots: seq<Slot>): (k: nat)
    ensures k <= |slots|
    ensures k < |slots| ==> slots[k].state == Free
    ensures forall j :: 0 <= j < k ==> slots[j].state != Free
  {
    if slots == [] || slots[0].state == Free then 0 else 1 + FirstFree(slots[1..])
  }

  /** Every ready slot among the first n was last used at or after tick. */
  predicate NoOlderReady(slots: seq<Slot>, n: nat, tick: nat)
    requires n <= |slots|
  {
    forall j :: 0 <= j < n && slots[j].state == Ready ==> tick <= slots[j].lastUsed
  }

  /** The least recently used ready slot among the first n, the earliest one on a tie. */
  function LeastRecent(slots: seq<Slot>, n: nat): (k: Option<nat>)
    requires n <= |slots|
    ensures k.None? ==> forall j :: 0 <= j < n ==> slots[j].state != Ready
    ensures k.Some? ==> k.value < n && slots[k.value].state == Ready
    ensures k.Some? ==> NoOlderReady(slots, n, slots[k.value].lastUsed)
  {
    if n == 0 then None
    else
      var best := LeastRecent(slots, n - 1);
      if slots[n - 1].state == Ready && (best.None? || slots[n - 1].lastUsed < slots[best.value].lastUsed)
      then Some(n - 1) else best
  }

  datatype Pool = Pool(slots: seq<Slot>, nextUse: nat) {
    function Candidate(): (k: Option<nat>)
      ensures k.Some? ==> k.value < |slots|
      ensures k.Some? ==> slots[k.value].state == Free || slots[k.value].state == Ready
    {
      var free := FirstFree(slots);
      if free < |slots| then Some(free) else LeastRecent(slots, |slots|)
    }

    function Put(k: nat, slot: Slot): Pool
      requires k < |slots|
    {
      this.(slots := slots[k := slot])
    }

    function Reserve(lba: U64, generation: U64, state: SlotState, data: Block): (Pool, Option<nat>) {
      match Candidate()
      case None => (this, None)
      case Some(k) => (Pool(slots[k := Slot(data, lba, generation, nextUse, state)], nextUse + 1), Some(k))
    }

    function ReserveRead(lba: U64, generation: U64): (Pool, Option<nat>) {
      Reserve(lba, generation, Reading, ZeroBlock())
    }

    function ReserveWrite(lba: U64, generation: U64, data: Block): (Pool, Option<nat>) {
      Reserve(lba, generation, Writing, data)
    }

    predicate Checked(handle: Option<nat>, state: SlotState, lba: U64, generation: U64) {
      handle.Some? && handle.value < |slots| && slots[handle.value].state == state
      && slots[handle.value].Holds(lba, generation)
    }

    function CompleteRead(handle: Option<nat>, lba: U64, generation: U64, data: Block): (Pool, bool) {
      if !Checked(handle, Reading, lba, generation) then (this, false)
      else (Put(handle.value, slots[handle.value].(data := data, state := Ready)), true)
    }

    function CompleteWrite(handle: Option<nat>, lba: U64, generation: U64): (Pool, bool) {
      if !Checked(handle, Writing, lba, generation) then (this, false)
      else (Put(handle.value, slots[handle.value].(state := Ready)), true)
    }

    predicate HasReady(lba: U64, generation: U64) {
      exists i :: 0 <= i < |slots| && slots[i].ReadyFor(lba, generation)
    }

    predicate Contains(lba: U64, generation: U64) {
      exists i :: 0 <= i < |slots| && slots[i].state != Free && slots[i].Holds(lba, generation)
    }

    function FirstReady(lba: U64, generation: U64, from: nat): (k: Option<nat>)
      requires from <= |slots|
      ensures k.Some? ==> from <= k.value < |slots| && slots[k.value].ReadyFor(lba, generation)
      ensures k.None? ==> forall i :: from <= i < |slots| ==> !slots[i].ReadyFor(lba, generation)
      ensures k.Some? ==> forall i :: from <= i < k.value ==> !slots[i].ReadyFor(lba, generation)
      decreases |slots| - from
    {
      if from == |slots| then None
      else if slots[from].ReadyFor(lba, generation) then Some(from)
      else FirstReady(lba, generation, from + 1)
    }

    function InvalidateReady(lba: U64, generation: U64): (p: Pool)
      ensures |p.slots| == |slots| && p.nextUse == nextUse
      ensures forall i :: 0 <= i < |slots| ==> p.slots[i] == slots[i].Without(lba, generation)
    {
      Pool(seq(|slots|, i requires 0 <= i < |slots| => slots[i].Without(lba, generation)), nextUse)
    }

    function CopyReady(lba: U64, generation: U64): (Pool, Option<Block>) {
      match FirstReady(lba, generation, 0)
      case None => (this, None)
      case Some(k) =>
        (Pool(slots[k := slots[k].(lastUsed := nextUse)], nextUse + 1), Some(slots[k].data))
    }

    function Release(handle: Option<nat>): (Pool, bool) {
      if handle.None? || handle.value >= |slots| || slots[handle.value].state == Free then (this, false)
      else (Put(handle.value, FreeSlot()), true)
    }

    function Clear(): (p: Pool)
      ensures |p.slots| == |slots| && forall i :: 0 <= i < |slots| ==> p.slots[i] == FreeSlot()
    {
      Pool(seq(|slots|, _ => FreeSlot()), nextUse)
    }
  }

  function NewPool(capacity: nat): Pool { Pool(seq(capacity, _ => FreeSlot()), 1) }

  class CdcSectorBufferPool {
    const slots: array<Slot>
    var nextUse: nat

    ghost function State(): Pool
      reads this, slots
    {
      Pool(slots[..], nextUse)
    }

    constructor (capacity: nat)
      ensures State() == NewPool(capacity) && fresh(slots)
    {
      slots := new Slot[capacity](_ => FreeSlot());
      nextUse := 1;
    }

    method Reserve(lba: U64, generation: U64, state: SlotState, data: Block) returns (handle: Option<nat>)
      modifies this, slots
      ensures (State(), handle) == old(State()).Reserve(lba, generation, state, data)
    {
      var candidate: Option<nat> := None;
      var index := 0;
      while index < slots.Length && slots[index].state != Free
        invariant 0 <= index <= slots.Length
        invariant forall j :: 0 <= j < index ==> slots[j].state != Free
        invariant candidate == LeastRecent(slots[..], index)
      {
        if slots[index].state == Ready
           && (candidate.None? || slots[index].lastUsed < slots[candidate.value].lastUsed) {
          candidate := Some(index);
        }
        index := index + 1;
      }
      if index < slots.Length {
        candidate := Some(index);
        assert slots[..][index].state == Free;
      }
      assert FirstFree(slots[..]) == index;
      if candidate.None? {
        return None;
      }
      slots[candidate.value] := Slot(data, lba, generation, nextUse, state);
      nextUse := nextUse + 1;
      return candidate;
    }

    method ReserveRead(lba: U64, generation: U64) returns (handle: Option<nat>)
      modifies this, slots
      ensures (State(), handle) == old(State()).ReserveRead(lba, generation)
    {
      handle := Reserve(lba, generation, Reading, ZeroBlock());
    }

    method ReserveWrite(lba: U64, generation: U64, data: Block) returns (handle: Option<nat>)
      modifies this, slots
      ensures (State(), handle) == old(State()).ReserveWrite(lba, generation, data)
    {
      handle := Reserve(lba, generation, Writing, data);
    }

    predicate Checked(handle: Option<nat>, state: SlotState, lba: U64, generation: U64)
      reads this, slots
      ensures Checked(handle, state, lba, generation) == State().Checked(handle, state, lba, generation)
    {
      handle.Some? && handle.value < slots.Length && slots[handle.value].state == state
      && slots[handle.value].Holds(lba, generation)
    }

    method CompleteRead(handle: Option<nat>, lba: U64, generation: U64, data: Block) returns (ok: bool)
      modifies slots
      ensures (State(), ok) == old(State()).CompleteRead(handle, lba, generation, data)
    {
      if !Checked(handle, Reading, lba, generation) {
        return false;
      }
      slots[handle.value] := slots[handle.value].(data := data, state := Ready);
      return true;
    }

    method CompleteWrite(handle: Option<nat>, lba: U64, generation: U64) returns (ok: bool)
      modifies slots
      ensures (State(), ok) == old(State()).CompleteWrite(handle, lba, generation)
    {
      if !Checked(handle, Writing, lba, generation) {
        return false;
      }
      slots[handle.value] := slots[handle.value].(state := Ready);
      return true;
    }

    method FindReady(lba: U64, generation: U64) returns (handle: Option<nat>)
      ensures handle == State().FirstReady(lba, generation, 0)
      ensures handle.Some? <==> State().HasReady(lba, generation)
    {
      var index := 0;
      while index < slots.Length
        invariant 0 <= index <= slots.Length
        invariant State().FirstReady(lba, generation, 0) == State().FirstReady(lba, generation, index)
      {
        if slots[index].ReadyFor(lba, generation) {
          assert slots[..][index].ReadyFor(lba, generation);
          return Some(index);
        }
        index := index + 1;
      }
      return None;
    }

    method Contains(lba: U64, generation: U64) returns (found: bool)
      ensures found <==> State().Contains(lba, generation)
    {
      var index := 0;
      while index < slots.Length
        invariant 0 <= index <= slots.Length
        invariant forall i :: 0 <= i < index ==> slots[i].state == Free || !slots[i].Holds(lba, generation)
      {
        if slots[index].state != Free && slots[index].Holds(lba, generation) {
          assert slots[..][index].Holds(lba, generation);
          return true;
        }
        index := index + 1;
      }
      return false;
    }

    method InvalidateReady(lba: U64, generation: U64)
      modifies slots
      ensures State() == old(State()).InvalidateReady(lba, generation)
    {
      for index := 0 to slots.Length
        invariant forall i :: index <= i < slots.Length ==> slots[i] == old(slots[i])
        invariant forall i :: 0 <= i < index ==> slots[i] == old(slots[i]).Without(lba, generation)
      {
        if slots[index].ReadyFor(lba, generation) {
          slots[index] := FreeSlot();
        }
      }
      assert slots[..] == old(State()).InvalidateReady(lba, generation).slots;
    }

    method CopyReady(lba: U64, generation: U64) returns (output: Option<Block>)
      modifies this, slots
      ensures (State(), output) == old(State()).CopyReady(lba, generation)
    {
      var handle := FindReady(lba, generation);
      if handle.None? {
        return None;
      }
      output := Some(slots[handle.value].data);
      slots[handle.value] := slots[handle.value].(lastUsed := nextUse);
      nextUse := nextUse + 1;
    }

    method Release(handle: Option<nat>) returns (ok: bool)
      modifies slots
      ensures (State(), ok) == old(State()).Release(handle)
    {
      if handle.None? || handle.value >= slots.Length || slots[handle.value].state == Free {
        return false;
      }
      slots[handle.value] := FreeSlot();
      return true;
    }

    method Clear()
      modifies slots
      ensures State() == old(State()).Clear()
    {
      for index := 0 to slots.Length
        invariant forall i :: 0 <= i < index ==> slots[i] == FreeSlot()
      {
        slots[index] := FreeSlot();
      }
      assert slots[..] == old(State()).Clear().slots;
    }
  }
}
