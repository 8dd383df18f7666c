/** The system bus: byte, half-word and word accesses to DRAM, the NPU registers and the console
    (src/maps-sim/src/common/bus.cpp). */
module SystemBus {
  import opened Words
  import opened Options
  import opened Storage
  import opened ByteView
  import opened Schedule
  import opened Descriptors
  import opened Control
  import opened Costs
  import opened Device

  const NPU_BASE: int := 0x1000_0000
  const NPU_SIZE: int := 0x100
  const CONSOLE_BASE: int := 0x1000_0100
  const CONSOLE_SIZE: int := 0x100
  const CONSOLE_DATA: int := 0
  const CONSOLE_STATUS: int := 4

  /** The largest DRAM, in words, that stays below the register windows. */
  const DRAM_LIMIT: int := 0x400_0000

  predicate InDram(addr: int, size: int)
  {
    addr / WORD_BYTES < size
  }

  predicate InNpu(addr: int)
  {
    NPU_BASE <= addr < NPU_BASE + NPU_SIZE
  }

  predicate InConsole(addr: int)
  {
    CONSOLE_BASE <= addr < CONSOLE_BASE + CONSOLE_SIZE
  }

  /** DRAM and the register windows are apart exactly up to DRAM_LIMIT words; one word more and the byte and the word
      accessors decode the same address differently. */
  lemma WindowsApart(size: int)
    requires 0 <= size <= MAX_WORDS
    ensures size <= DRAM_LIMIT
       <==> forall addr :: 0 <= addr < TWO32 && InDram(addr, size) ==> !InNpu(addr) && !InConsole(addr)
  {
    if size > DRAM_LIMIT {
      assert InDram(NPU_BASE, size) && InNpu(NPU_BASE);
    }
  }

  function Half(bytes: seq<int>, addr: int): int
    requires 0 <= addr && addr + 1 < |bytes|
  {
    bytes[addr] + 0x100 * bytes[addr + 1]
  }

  function Word(bytes: seq<int>, addr: int): int
    requires 0 <= addr && addr + 3 < |bytes|
  {
    bytes[addr] + 0x100 * bytes[addr + 1] + 0x1_0000 * bytes[addr + 2] + 0x100_0000 * bytes[addr + 3]
  }

  /** What a byte store can change: the bytes of DRAM and the text on the console. */
  datatype Target = Target(bytes: seq<int>, console: Option<seq<int>>)

  /** A byte store as one step on the byte array. */
  function Poke(t: Target, addr: int, b: int): (bool, Target)
    requires 0 <= addr
  {
    if InConsole(addr) then
      if t.console.None? || addr != CONSOLE_BASE + CONSOLE_DATA then (false, t)
      else (true, t.(console := Some(t.console.value + [b])))
    else if addr < |t.bytes| then (true, t.(bytes := t.bytes[addr := b]))
    else (false, t)
  }

  /** What a word read finds in the register windows. */
  function WindowWord(npu: Option<View>, addr: int): Option<int>
    requires InNpu(addr) || InConsole(addr)
  {
    if InConsole(addr) then if addr - CONSOLE_BASE == CONSOLE_STATUS then Some(1) else None
    else if npu.None? then None else Register(npu.value, addr - NPU_BASE)
  }

  /** Equal but for the memory. */
  predicate SameRegisters(v: Option<View>, v': Option<View>)
  {
    v.Some? == v'.Some? && (v.Some? ==> v'.value == v.value.(mem := v'.value.mem))
  }

  class Console {
    var text: seq<int>

    constructor ()
      ensures text == []
    {
      text := [];
    }
  }

  class Bus {
    var memory: Memory?
    var npu: NpuDevice?
    var console: Console?

    ghost predicate Valid()
      reads Reach()
    {
      && ConsoleCells() !! NpuCells() && this !in Cells()
      && (memory != null ==> memory.Valid() && memory.data.Length <= DRAM_LIMIT)
      && (npu != null ==> npu.memory == memory && npu.Valid() && npu.Settled())
    }

    function Size(): nat
      reads this
    {
      if memory == null then 0 else memory.data.Length
    }

    /** DRAM as one little-endian array of bytes. */
    function Dram(): seq<int>
      reads this, if memory == null then {} else {memory.data}
    {
      if memory == null then [] else Bytes(memory.Contents())
    }

    function Text(): Option<seq<int>>
      reads this, console
    {
      if console == null then None else Some(console.text)
    }

    function State(): (t: Target)
      reads Reach()
      ensures t.bytes == Dram() && t.console == Text()
    {
      Target(Dram(), Text())
    }

    /** The NPU as the bus reaches it. */
    function Panel(): (v: Option<View>)
      reads Reach()
      ensures v.Some? <==> npu != null
      ensures v.Some? ==> Dram() == if v.value.mem.None? then [] else Bytes(v.value.mem.value)
    {
      if npu == null then None
      else
        var c := npu.controller;
        var mem := if memory == null then None else Some(memory.Contents());
        Some(View(npu.descAddr, c.state, c.error, c.perf, mem))
    }

    ghost function DramCells(): set<object>
      reads this
    {
      if memory == null then {} else {memory.data}
    }

    ghost function ConsoleCells(): set<object>
      reads this
    {
      if console == null then {} else {console}
    }

    ghost function NpuCells(): set<object>
      reads this
    {
      if npu == null then {} else {npu} + npu.controller.Scratch()
    }

    /** Everything a store can change. */
    ghost function Cells(): set<object>
      reads this
    {
      DramCells() + ConsoleCells() + NpuCells()
    }

    /** Everything the bus and its devices depend on. */
    ghost function Reach(): set<object>
      reads this
    {
      {this} + Cells() + if npu == null then {} else {npu.controller.grid.pe}
    }

    constructor ()
      ensures Valid() && memory == null && npu == null && console == null
    {
      memory, npu, console := null, null, null;
    }

    /** The three bindings of a computer, together. */
    method Bind(memory: Memory, npu: NpuDevice, console: Console)
      requires memory.Valid() && memory.data.Length <= DRAM_LIMIT
      requires npu.Valid() && npu.Settled() && npu.memory == memory
      requires this !in npu.controller.Scratch() && console !in npu.controller.Scratch()
      modifies this
      ensures Valid() && this.memory == memory && this.npu == npu && this.console == console
    {
      this.memory, this.npu, this.console := memory, npu, console;
    }

    method Read8(addr: int) returns (ok: bool, value: int)
      requires Valid() && IsUint32(addr)
      ensures Valid()
      ensures |Dram()| <= NPU_BASE && (ok <==> addr < |Dram()|)
      ensures ok ==> value == Dram()[addr]
    {
      if memory == null || !InDram(addr, memory.data.Length) { return false, 0; }
      var found, raw := memory.Read(addr / WORD_BYTES);
      return found, Lane(U32(raw), addr % WORD_BYTES);
    }

    method Read16(addr: int) returns (ok: bool, value: int)
      requires Valid() && IsUint32(addr)
      ensures Valid()
      ensures ok <==> addr % 2 == 0 && addr + 1 < |Dram()|
      ensures ok ==> value == Half(Dram(), addr)
    {
      hide NpuDevice.Valid;
      hide NpuDevice.Settled;
      hide Lane;
      hide Bytes;
      if addr % 2 != 0 || memory == null || !InDram(addr, memory.data.Length) { return false, 0; }
      var loOk, lo := Read8(addr);
      var hiOk, hi := Read8(addr + 1);
      return loOk && hiOk, lo + 0x100 * hi;
    }

    method Read32(addr: int) returns (ok: bool, value: int)
      requires Valid() && IsUint32(addr)
      ensures Valid()
      ensures !InNpu(addr) && !InConsole(addr) ==>
                && (ok <==> addr % 4 == 0 && addr + 3 < |Dram()|)
                && (ok ==> value == Word(Dram(), addr))
      ensures InNpu(addr) || InConsole(addr) ==>
                (ok <==> WindowWord(Panel(), addr).Some?) && (ok ==> value == WindowWord(Panel(), addr).value)
      ensures ok ==> IsUint32(value)
    {
      if addr % 4 != 0 { return false, 0; }
      if InNpu(addr) {
        if npu == null { return false, 0; }
        ok, value := npu.Read32(addr - NPU_BASE);
        return;
      }
      if InConsole(addr) { return addr - CONSOLE_BASE == CONSOLE_STATUS, 1; }
      if memory == null || !InDram(addr, memory.data.Length) { return false, 0; }
      var raw;
      ok, raw := memory.Read(addr / WORD_BYTES);
      value := U32(raw);
      WordRead(memory.Contents(), addr);
    }

    method WriteConsole(offset: int, value: int) returns (ok: bool)
      requires IsUint32(value)
      modifies ConsoleCells()
      ensures ok <==> console != null && offset == CONSOLE_DATA
      ensures Text() == if ok then Some(old(console.text) + [value % 0x100]) else old(Text())
    {
      if console == null || offset != CONSOLE_DATA { return false; }
      console.text := console.text + [value % 0x100];
      return true;
    }

    /** A byte store is exactly one step on the byte array. */
    method Write8(addr: int, value: int) returns (ok: bool)
      requires Valid() && IsUint32(addr) && IsByte(value)
      modifies DramCells(), ConsoleCells()
      ensures Valid() && Reach() == old(Reach())
      ensures (ok, State()) == old(Poke(State(), addr, value))
      ensures InConsole(addr) ==>
                && (ok <==> console != null && addr == CONSOLE_BASE + CONSOLE_DATA)
                && Text() == (if ok then Some(old(console.text) + [value]) else old(Text()))
                && Dram() == old(Dram()) && Panel() == old(Panel())
      ensures SameRegisters(old(Panel()), Panel())
      ensures !InConsole(addr) ==> (ok <==> addr < |old(Dram())|) && |old(Dram())| <= NPU_BASE && Text() == old(Text())
      ensures !InConsole(addr) ==> Dram() == if ok then old(Dram())[addr := value] else old(Dram())
    {
      hide Lane;
      hide WithLane;
      hide NpuDevice.Valid;
      hide NpuDevice.Settled;
      if InConsole(addr) {
        ok := WriteConsole(addr - CONSOLE_BASE, value);
        return;
      }
      if memory == null || !InDram(addr, memory.data.Length) { return false; }
      var w := addr / WORD_BYTES;
      var found, raw := memory.Read(w);
      ByteWritten(memory.Contents(), addr, value);
      ok := memory.Write(w, AsInt32(WithLane(U32(raw), addr % WORD_BYTES, value)));
    }

    method Write16(addr: int, value: int) returns (ok: bool)
      requires Valid() && IsUint32(addr) && 0 <= value < 0x1_0000
      modifies DramCells(), ConsoleCells()
      ensures Valid() && Reach() == old(Reach()) && Text() == old(Text()) && |Dram()| == |old(Dram())|
      ensures |Dram()| <= NPU_BASE && (ok <==> addr % 2 == 0 && addr + 1 < |Dram()|) && SameRegisters(old(Panel()), Panel())
      ensures Dram() == if ok then old(Dram())[addr := value % 0x100][addr + 1 := value / 0x100] else old(Dram())
    {
      if addr % 2 != 0 || memory == null || !InDram(addr, memory.data.Length) { return false; }
      hide NpuDevice.Valid;
      hide NpuDevice.Settled;
      hide Controller.Scratch;
      hide Lane;
      var lo, hi := value % 0x100, value / 0x100;
      ghost var before := Dram();
      assert addr + 1 < |before| <= NPU_BASE;
      hide Bytes;
      ok := Write8(addr, lo);
      assert ok && Dram() == before[addr := lo];
      if ok { ok := Write8(addr + 1, hi); }
      assert ok && Dram() == before[addr := lo][addr + 1 := hi];
    }

    method Write32(addr: int, value: int) returns (ok: bool)
      requires Valid() && IsUint32(addr) && IsUint32(value)
      modifies Cells()
      ensures Valid() && memory == old(memory) && npu == old(npu) && console == old(console) && Reach() == old(Reach())
      ensures |Dram()| == |old(Dram())|
      ensures !InNpu(addr) && !InConsole(addr) ==>
                && (ok <==> addr % 4 == 0 && addr + 3 < |Dram()|)
                && Dram() == (if ok then old(Dram())[addr := Lane(value, 0)][addr + 1 := Lane(value, 1)]
                                                    [addr + 2 := Lane(value, 2)][addr + 3 := Lane(value, 3)]
                              else old(Dram()))
      ensures InConsole(addr) ==>
                && (ok <==> console != null && addr == CONSOLE_BASE + CONSOLE_DATA)
                && Text() == (if ok then Some(old(console.text) + [value % 0x100]) else old(Text()))
                && Dram() == old(Dram()) && Panel() == old(Panel())
      ensures !InConsole(addr) ==> Text() == old(Text())
      ensures InNpu(addr) ==>
                && Text() == old(Text()) && (ok <==> npu != null && Takes(old(Panel()).value, addr - NPU_BASE, value))
                && (ok ==> Serves(old(Panel()).value, WriteCall(addr - NPU_BASE, value), Answer(true, 0), Panel().value))
      ensures !InNpu(addr) ==> SameRegisters(old(Panel()), Panel())
      ensures InNpu(addr) && (addr % 4 != 0 || npu == null) ==> !ok
      ensures npu != null && addr == NPU_BASE + DESC_ADDR ==> ok && npu.descAddr == value && npu.Shown() == old(npu.Shown())
      ensures npu != null && addr == NPU_BASE + CMD && value == CMD_RESET ==>
                ok && npu.descAddr == 0 && npu.Shown() == (IDLE, NONE, Perf(0, 0, 0, 0))
      ensures npu != null && addr != NPU_BASE + DESC_ADDR
              && !(addr == NPU_BASE + CMD && (value == CMD_START || value == CMD_RESET)) ==>
                (InNpu(addr) ==> !ok) && npu.descAddr == old(npu.descAddr) && npu.Shown() == old(npu.Shown())
      ensures addr == NPU_BASE + CMD && value == CMD_START && npu != null && memory != null ==>
                && npu.descAddr == old(npu.descAddr) && (ok <==> npu.controller.state == DONE)
                && (ok <==> Startable(old(memory.Contents()), npu.descAddr))
                && (ok ==> var d := Loaded(old(memory.Contents()), npu.descAddr).1;
                           Tileable(d) && RunOutcome(d, old(memory.Contents()), memory.Contents()))
      ensures InNpu(addr) && !(addr == NPU_BASE + CMD && value == CMD_START && ok) ==> Dram() == old(Dram())
    {
      hide RunOutcome;
      hide Startable;
      hide Loaded;
      hide Tileable;
      hide Bytes;
      hide Lane;
      hide Controller.Valid;
      if addr % 4 != 0 { return false; }
      if InNpu(addr) {
        if npu == null { return false; }
        ghost var before := Panel();
        ok := npu.Write32(addr - NPU_BASE, value);
        ServesTakes(before.value, addr - NPU_BASE, value, Answer(ok, 0), Panel().value);
        return;
      }
      if InConsole(addr) {
        ok := WriteConsole(addr - CONSOLE_BASE, value);
        return;
      }
      if memory == null || !InDram(addr, memory.data.Length) { return false; }
      WordWritten(memory.Contents(), addr, value);
      ok := memory.Write(addr / WORD_BYTES, AsInt32(value));
    }
  }

  /** The register windows, by address. */
  lemma WindowsByAddress(v: View)
    ensures WindowWord(Some(v), 0x1000_0000) == Some(v.descAddr) && WindowWord(Some(v), 0x1000_0004) == None
    ensures WindowWord(Some(v), 0x1000_0008) == Some(StateCode(v.state))
    ensures WindowWord(Some(v), 0x1000_000c) == Some(ErrorCode(v.error))
    ensures WindowWord(Some(v), 0x1000_0010) == Some(v.perf.cycles % TWO32)
    ensures WindowWord(Some(v), 0x1000_002c) == Some(v.perf.macs / TWO32)
    ensures WindowWord(Some(v), 0x1000_0100) == None && WindowWord(Some(v), 0x1000_0104) == Some(1)
    ensures forall addr :: (InNpu(addr) <==> 0x1000_0000 <= addr < 0x1000_0100)
                           && (InConsole(addr) <==> 0x1000_0100 <= addr < 0x1000_0200)
  {
  }
}
