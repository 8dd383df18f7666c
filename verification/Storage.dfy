/** Word DRAM and scratch buffers (src/maps-sim/src/common/memory.cpp, src/maps-sim/src/npu/buffer.cpp). */
module Storage {

  /** The largest DRAM whose byte addresses fit a 32-bit word. */
  const MAX_WORDS: int := 0x4000_0000

  const BUFFER_SIZE: int := 2048

  class Memory {
    const data: array<int>

    predicate Valid()
    {
      data.Length <= MAX_WORDS
    }

    function Contents(): seq<int>
      reads data
    {
      data[..]
    }

    constructor (capacity: nat)
      requires capacity <= MAX_WORDS
      ensures Valid() && fresh(data) && data.Length == capacity
      ensures forall x :: 0 <= x < capacity ==> Contents()[x] == 0
    {
      data := new int[capacity](_ => 0);
    }

    method Read(addr: int) returns (ok: bool, value: int)
      requires 0 <= addr
      ensures ok == (addr < data.Length)
      ensures ok ==> value == Contents()[addr]
    {
      if addr >= data.Length { return false, 0; }
      return true, data[addr];
    }

    method Write(addr: int, value: int) returns (ok: bool)
      requires 0 <= addr
      modifies data
      ensures ok == (addr < data.Length)
      ensures Contents() == if ok then old(Contents())[addr := value] else old(Contents())
    {
      if addr >= data.Length { return false; }
      data[addr] := value;
      return true;
    }
  }

  class Buffer {
    const data: array<int>

    function Contents(): seq<int>
      reads data
    {
      data[..]
    }

    constructor (capacity: nat)
      ensures fresh(data) && data.Length == capacity
      ensures forall x :: 0 <= x < capacity ==> Contents()[x] == 0
    {
      data := new int[capacity](_ => 0);
    }

    method Reset()
      modifies data
      ensures forall x :: 0 <= x < data.Length ==> Contents()[x] == 0
    {
      forall x | 0 <= x < data.Length { data[x] := 0; }
    }

    method Read(addr: int) returns (ok: bool, value: int)
      requires 0 <= addr
      ensures ok == (addr < data.Length)
      ensures ok ==> value == Contents()[addr]
    {
      if addr >= data.Length { return false, 0; }
      return true, data[addr];
    }

    method Write(addr: int, value: int) returns (ok: bool)
      requires 0 <= addr
      modifies data
      ensures ok == (addr < data.Length)
      ensures Contents() == if ok then old(Contents())[addr := value] else old(Contents())
    {
      if addr >= data.Length { return false; }
      data[addr] := value;
      return true;
    }

    method Load(src: array<int>, len: nat) returns (ok: bool)
      requires len <= src.Length && src != data
      modifies data
      ensures ok == (len <= data.Length)
      ensures Contents() == if ok then src[..len] + old(Contents())[len..] else old(Contents())
    {
      if len > data.Length { return false; }
      forall x | 0 <= x < len { data[x] := src[x]; }
      return true;
    }

    method Dump(dst: array<int>, len: nat) returns (ok: bool)
      requires len <= dst.Length && dst != data
      modifies dst
      ensures ok == (len <= data.Length)
      ensures dst[..] == if ok then Contents()[..len] + old(dst[..])[len..] else old(dst[..])
    {
      if len > data.Length { return false; }
      forall x | 0 <= x < len { dst[x] := data[x]; }
      return true;
    }
  }
}
