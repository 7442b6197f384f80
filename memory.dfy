/** The memory bus of libdmg/src/memory.rs: 0x10000 bytes, one for every
    16-bit address, so that neither read nor write can go out of bounds. */
module Memory {
  import opened Data

  const MemSize := 0x1_0000

  class MemoryBus {
    const memory: array<Byte>

    ghost predicate Valid()
      reads this
    {
      memory.Length == MemSize
    }

    /** The bytes of the bus; `MemoryBus` derives `PartialEq`, and the tests
        compare whole memories. */
    function Contents(): (s: seq<Byte>)
      reads this, memory
      requires Valid()
      ensures |s| == MemSize
    {
      memory[..]
    }

    /** `Default`: 0x10000 bytes, all zero. */
    constructor Default()
      ensures Valid() && fresh(memory)
      ensures Contents() == seq(MemSize, _ => 0)
      ensures forall addr: Address :: Read(addr) == 0
    {
      memory := new Byte[MemSize](_ => 0);
    }

    /** `read`: the byte stored at an address. */
    function Read(addr: Address): (b: Byte)
      reads this, memory
      requires Valid()
      ensures b == Contents()[addr]
    {
      memory[addr]
    }

    /** `write`: stores one byte; every other address keeps its byte. */
    method Write(addr: Address, data: Byte)
      requires Valid()
      modifies memory
      ensures Read(addr) == data
      ensures forall other: Address :: other != addr ==> Read(other) == old(Read(other))
      ensures Contents() == old(Contents())[addr := data]
    {
      memory[addr] := data;
    }
  }
}
