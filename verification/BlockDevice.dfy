/**
 * A block backend: an array of blocks whose calls may also report Pending or Failed. The answers
 * follow a script, so any behaviour of a device is some script; past its end calls succeed.
 * A call that does not complete changes nothing.
 */
module BlockDevice {
  import opened Basics

  datatype Device = Device(blocks: seq<Block>, present: bool, writeProtected: bool, calls: nat, script: seq<BlockOperation>) {
    function Fate(): BlockOperation { if calls < |script| then script[calls] else Complete }

    function Used(): Device { this.(calls := calls + 1) }

    function Read(lba: nat): (Device, BlockOperation, Block) {
      if Fate() != Complete then (Used(), Fate(), ZeroBlock())
      else if lba >= |blocks| then (Used(), Failed, ZeroBlock())
      else (Used(), Complete, blocks[lba])
    }

    function Write(lba: nat, block: Block): (Device, BlockOperation) {
      if Fate() != Complete then (Used(), Fate())
      else if lba >= |blocks| then (Used(), Failed)
      else (Used().(blocks := blocks[lba := block]), Complete)
    }

    function Flush(): (Device, BlockOperation) {
      (Used(), if present then Fate() else Failed)
    }

    /** A device whose calls never wait and never fail. */
    predicate Synchronous() { script == [] }
  }

  class BlockBackend {
    const blocks: array<Block>
    const present: bool
    const writeProtected: bool
    const script: seq<BlockOperation>
    var calls: nat

    ghost function State(): Device
      reads this, blocks
    {
      Device(blocks[..], present, writeProtected, calls, script)
    }

    constructor (blocks: array<Block>, present: bool, writeProtected: bool, script: seq<BlockOperation>)
      ensures this.blocks == blocks
      ensures State() == Device(blocks[..], present, writeProtected, 0, script)
    {
      this.blocks := blocks;
      this.present := present;
      this.writeProtected := writeProtected;
      this.script := script;
      calls := 0;
    }

    method Read(lba: nat) returns (result: BlockOperation, block: Block)
      modifies this
      ensures (State(), result, block) == old(State()).Read(lba)
    {
      var fate := if calls < |script| then script[calls] else Complete;
      calls := calls + 1;
      if fate != Complete {
        return fate, ZeroBlock();
      }
      if lba >= blocks.Length {
        return Failed, ZeroBlock();
      }
      return Complete, blocks[lba];
    }

    method Write(lba: nat, block: Block) returns (result: BlockOperation)
      modifies this, blocks
      ensures (State(), result) == old(State()).Write(lba, block)
    {
      var fate := if calls < |script| then script[calls] else Complete;
      calls := calls + 1;
      if fate != Complete {
        return fate;
      }
      if lba >= blocks.Length {
        return Failed;
      }
      blocks[lba] := block;
      return Complete;
    }

    method Flush() returns (result: BlockOperation)
      modifies this
      ensures (State(), result) == old(State()).Flush()
    {
      var fate := if calls < |script| then script[calls] else Complete;
      calls := calls + 1;
      return if present then fate else Failed;
    }
  }
}
