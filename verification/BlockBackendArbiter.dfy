/** Exclusive ownership of a block backend: by the emulated card's client, or by a host copy. Each method is one atomic step. */
module BlockBackendArbiter {
  import opened Basics
  import opened BlockDevice

  datatype Owner = Nobody | EmulatedClient | HostCopy

  class BlockBackendArbiter {
    const backend: BlockBackend
    var owner: Owner

    constructor (backend: BlockBackend)
      ensures this.backend == backend && owner == Nobody
    {
      this.backend := backend;
      owner := Nobody;
    }

    /** One compare-and-exchange. */
    method Transition(expected: Owner, desired: Owner) returns (ok: bool)
      modifies this
      ensures ok == (old(owner) == expected)
      ensures owner == if ok then desired else old(owner)
    {
      ok := owner == expected;
      if ok {
        owner := desired;
      }
    }

    method ExposeToClient() returns (ok: bool)
      modifies this
      ensures ok == (old(owner) == Nobody) && owner == if ok then EmulatedClient else old(owner)
    {
      ok := Transition(Nobody, EmulatedClient);
    }

    method HideFromClient() returns (ok: bool)
      modifies this
      ensures ok == (old(owner) == EmulatedClient) && owner == if ok then Nobody else old(owner)
    {
      ok := Transition(EmulatedClient, Nobody);
    }

    method BeginHostCopy() returns (ok: bool)
      modifies this
      ensures ok == (old(owner) == Nobody) && owner == if ok then HostCopy else old(owner)
    {
      ok := Transition(Nobody, HostCopy);
    }

    method EndHostCopy() returns (ok: bool)
      modifies this
      ensures ok == (old(owner) == HostCopy) && owner == if ok then Nobody else old(owner)
    {
      ok := Transition(HostCopy, Nobody);
    }

    /** What a reader of the given kind sees: an absent, empty, protected medium unless it is the owner. */
    function BlockCount(reader: Owner): nat
      reads this
    {
      if owner == reader then backend.blocks.Length else 0
    }

    predicate MediaPresent(reader: Owner)
      reads this
    {
      owner == reader && backend.present
    }

    predicate WriteProtected(reader: Owner)
      reads this
    {
      owner != reader || backend.writeProtected
    }

    method Read(reader: Owner, lba: nat) returns (result: BlockOperation, block: Block)
      modifies backend
      ensures owner == reader ==> (backend.State(), result, block) == old(backend.State()).Read(lba)
      ensures owner != reader ==> result == Failed && backend.State() == old(backend.State())
    {
      if owner == reader {
        result, block := backend.Read(lba);
      } else {
        result, block := Failed, ZeroBlock();
      }
    }

    method Write(reader: Owner, lba: nat, block: Block) returns (result: BlockOperation)
      modifies backend, backend.blocks
      ensures owner == reader ==> (backend.State(), result) == old(backend.State()).Write(lba, block)
      ensures owner != reader ==> result == Failed && backend.State() == old(backend.State())
    {
      if owner == reader {
        result := backend.Write(lba, block);
      } else {
        result := Failed;
      }
    }

    method Flush(reader: Owner) returns (result: BlockOperation)
      modifies backend
      ensures owner == reader ==> (backend.State(), result) == old(backend.State()).Flush()
      ensures owner != reader ==> result == Failed && backend.State() == old(backend.State())
    {
      if owner == reader {
        result := backend.Flush();
      } else {
        result := Failed;
      }
    }
  }
}
