/** A fixed-capacity FIFO over a circular buffer. */
module FixedRingQueue {
  import opened Basics

  class FixedRingQueue<T(0)> {
    const values: array<T>
    var head: nat
    var tail: nat
    var size: nat

    ghost predicate Valid()
      reads this
    {
      && values.Length > 0 && head < values.Length && size <= values.Length
      && tail == (if head + size < values.Length then head + size else head + size - values.Length)
    }

    /** The queued values, oldest first, through the wrap-around. */
    ghost function Contents(): (contents: seq<T>)
      requires Valid()
      reads this, values
      ensures |contents| == size
    {
      if head + size <= values.Length then values[head..head + size]
      else values[head..] + values[..head + size - values.Length]
    }

    constructor (capacity: nat)
      requires capacity > 0
      ensures Valid() && fresh(values) && values.Length == capacity && Contents() == []
    {
      values := new T[capacity];
      head, tail, size := 0, 0, 0;
    }

    method Advance(index: nat) returns (next: nat)
      requires index < values.Length
      ensures next == if index + 1 == values.Length then 0 else index + 1
    {
      next := index + 1;
      if next == values.Length {
        next := 0;
      }
    }

    method TryPush(value: T) returns (ok: bool)
      requires Valid()
      modifies this, values
      ensures Valid()
      ensures ok == (|old(Contents())| < values.Length)
      ensures Contents() == if ok then old(Contents()) + [value] else old(Contents())
    {
      if size == values.Length {
        return false;
      }
      values[tail] := value;
      tail := Advance(tail);
      size := size + 1;
      return true;
    }

    method TryPop() returns (output: Option<T>)
      requires Valid()
      modifies this
      ensures Valid()
      ensures output == if old(Contents()) == [] then None else Some(old(Contents())[0])
      ensures Contents() == if old(Contents()) == [] then [] else old(Contents())[1..]
    {
      if size == 0 {
        return None;
      }
      output := Some(values[head]);
      head := Advance(head);
      size := size - 1;
    }

    method Clear()
      requires Valid()
      modifies this
      ensures Valid() && Contents() == []
    {
      head := 0;
      tail := 0;
      size := 0;
    }
  }
}
