/** The memory-mapped NPU device (src/maps-sim/src/npu/device.cpp). */
module Device {
  import opened Options
  import opened Words
  import opened Storage
  import opened Descriptors
  import opened Schedule
  import opened TiledGemm
  import opened Hazards
  import opened Costs
  import opened Control

  const DESC_ADDR: int := 0x00
  const CMD: int := 0x04
  const STATUS: int := 0x08
  const ERROR_CODE: int := 0x0c
  const CYCLE_COUNT_LO: int := 0x10
  const CYCLE_COUNT_HI: int := 0x14
  const DMA_READ_COUNT_LO: int := 0x18
  const DMA_READ_COUNT_HI: int := 0x1c
  const DMA_WRITE_COUNT_LO: int := 0x20
  const DMA_WRITE_COUNT_HI: int := 0x24
  const MAC_COUNT_LO: int := 0x28
  const MAC_COUNT_HI: int := 0x2c

  const CMD_START: int := 1
  const CMD_RESET: int := 2

  function StateCode(s: NpuState): int
  {
    match s case IDLE => 0 case BUSY => 1 case DONE => 2 case ERROR => 3
  }

  function ErrorCode(e: NpuError): int
  {
    match e case NONE => 0 case INVALID_DESC => 1 case OUT_OF_RANGE => 2 case BUFFER_FAIL => 3
  }

  /** The counter a pair of registers shows, low half first. */
  function Counter(p: Perf, offset: int): int
  {
    if offset == CYCLE_COUNT_LO || offset == CYCLE_COUNT_HI then p.cycles
    else if offset == DMA_READ_COUNT_LO || offset == DMA_READ_COUNT_HI then p.dmaReads
    else if offset == DMA_WRITE_COUNT_LO || offset == DMA_WRITE_COUNT_HI then p.dmaWrites
    else p.macs
  }

  /** The exact condition for START to succeed on the descriptor stored at `addr`. */
  ghost predicate Startable(mem: seq<int>, addr: int)
  {
    var (loaded, d) := Loaded(mem, addr);
    loaded && InMemory(d, |mem|) && FirstTileFits(d)
  }

  datatype Call = WriteCall(offset: int, value: int) | ReadCall(offset: int)

  datatype Answer = Answer(ok: bool, value: int)

  /** The device at one moment, and the memory it is bound to. */
  datatype View = View(descAddr: int, state: NpuState, error: NpuError, perf: Perf, mem: Option<seq<int>>)

  /** What a read of each register finds. */
  function Register(v: View, offset: int): Option<int>
  {
    match offset
    case 0x00 => Some(v.descAddr)
    case 0x08 => Some(match v.state case IDLE => 0 case BUSY => 1 case DONE => 2 case ERROR => 3)
    case 0x0c => Some(match v.error case NONE => 0 case INVALID_DESC => 1 case OUT_OF_RANGE => 2 case BUFFER_FAIL => 3)
    case 0x10 => Some(v.perf.cycles % 0x1_0000_0000)
    case 0x14 => Some(v.perf.cycles / 0x1_0000_0000)
    case 0x18 => Some(v.perf.dmaReads % 0x1_0000_0000)
    case 0x1c => Some(v.perf.dmaReads / 0x1_0000_0000)
    case 0x20 => Some(v.perf.dmaWrites % 0x1_0000_0000)
    case 0x24 => Some(v.perf.dmaWrites / 0x1_0000_0000)
    case 0x28 => Some(v.perf.macs % 0x1_0000_0000)
    case 0x2c => Some(v.perf.macs / 0x1_0000_0000)
    case _ => None
  }

  /** START: everything it changes, when it succeeds and when it does not. */
  ghost predicate Starts(before: View, ok: bool, after: View)
  {
    if before.mem.None? then !ok && after == before else
    var (loaded, d) := Loaded(before.mem.value, before.descAddr);
    && (ok <==> Startable(before.mem.value, before.descAddr))
    && if ok then
         && after.mem.Some? && Tileable(d) && RunOutcome(d, before.mem.value, after.mem.value)
         && after == View(before.descAddr, DONE, NONE, Wrapped(Add(before.perf, RunGain(d))), after.mem)
       else after == before.(state := ERROR, error := if loaded then OUT_OF_RANGE else INVALID_DESC)
  }

  /** One register access: a read changes nothing, and a write does what its register and value say. */
  ghost predicate Serves(before: View, call: Call, answer: Answer, after: View)
  {
    match call
    case ReadCall(offset) =>
      var found := Register(before, offset);
      after == before && (answer.ok <==> found.Some?) && (answer.ok ==> answer.value == found.value)
    case WriteCall(offset, value) =>
      if offset == 0x00 then answer.ok && after == before.(descAddr := value)
      else if offset == 0x04 && value == 1 then Starts(before, answer.ok, after)
      else if offset == 0x04 && value == 2 then answer.ok && after == View(0, IDLE, NONE, Perf(0, 0, 0, 0), before.mem)
      else !answer.ok && after == before
  }

  /** The writes that succeed. */
  ghost predicate Takes(v: View, offset: int, value: int)
  {
    || offset == 0x00
    || (offset == 0x04 && (value == 2 || (value == 1 && v.mem.Some? && Startable(v.mem.value, v.descAddr))))
  }

  lemma ServesTakes(before: View, offset: int, value: int, answer: Answer, after: View)
    requires Serves(before, WriteCall(offset, value), answer, after)
    ensures answer.ok <==> Takes(before, offset, value)
  {
    hide Startable;
    hide Loaded;
    hide RunOutcome;
    hide RunGain;
  }

  /** A run of the device: every view comes from the one before by one call. */
  ghost predicate IsHistory(views: seq<View>, calls: seq<Call>, answers: seq<Answer>)
  {
    && |calls| == |answers| && |views| == |calls| + 1
    && forall i :: 0 <= i < |calls| ==> Serves(views[i], calls[i], answers[i], views[i + 1])
  }

  lemma HistoryBegins(v: View)
    ensures IsHistory([v], [], [])
  {
  }

  lemma HistoryGoesOn(views: seq<View>, calls: seq<Call>, answers: seq<Answer>, call: Call, answer: Answer, next: View)
    requires IsHistory(views, calls, answers) && Serves(views[|calls|], call, answer, next)
    ensures IsHistory(views + [next], calls + [call], answers + [answer])
  {
    hide Serves;
  }

  class NpuDevice {
    const controller: Controller
    var memory: Memory?
    var descAddr: int

    ghost predicate Valid()
      reads this, controller, controller.dma, controller.grid.pe
    {
      && controller.Valid() && controller.memory == memory && IsUint32(descAddr)
      && controller.desc.NonNegativeWords()
    }

    /** What every sequence of calls on the device keeps: no call leaves it busy, ERROR is nonzero exactly when STATUS is
        ERROR, and the counters are 64-bit words. */
    predicate Settled()
      reads controller
    {
      controller.state != BUSY && (controller.error == NONE <==> controller.state != ERROR) && controller.perf.Words()
    }

    ghost function Footprint(): set<object>
      reads this, controller
    {
      {this} + controller.Scratch() + controller.Dram()
    }

    constructor ()
      ensures Valid() && Settled() && memory == null && controller.state == IDLE && fresh(Footprint())
    {
      controller := new Controller();
      memory, descAddr := null, 0;
    }

    method BindMemory(mem: Memory?)
      requires Valid() && (mem != null ==> mem.Valid() && mem.data !in controller.Buffers())
      modifies this, controller`memory, controller.dma
      ensures Valid() && memory == mem && (old(Settled()) ==> Settled())
    {
      memory := mem;
      controller.BindMemory(mem);
    }

    method Reset()
      requires Valid()
      modifies this`descAddr, controller.Scratch()
      ensures Valid() && Settled() && memory == old(memory) && descAddr == 0 && controller.state == IDLE
      ensures controller.perf == Perf(0, 0, 0, 0)
      ensures memory != null ==> memory.Contents() == old(memory.Contents())
    {
      descAddr := 0;
      controller.Reset();
      if memory != null { controller.BindMemory(memory); }
    }

    /** START: runs exactly the descriptor stored at DESC_ADDR, and succeeds exactly when STATUS is then DONE; without a
        memory it only refuses. */
    method Start() returns (ok: bool)
      requires Valid() && Settled()
      modifies controller.Scratch(), controller.Dram()
      ensures Valid() && Settled() && memory == old(memory) && descAddr == old(descAddr)
      ensures memory == null ==> !ok && Shown() == old(Shown())
      ensures memory != null ==>
                && (ok <==> controller.state == DONE) && (!ok <==> controller.state == ERROR)
                && (ok <==> Startable(old(memory.Contents()), descAddr))
                && (ok ==> var d := Loaded(old(memory.Contents()), descAddr).1;
                           && controller.desc == d && Tileable(d)
                           && controller.perf == Wrapped(Add(old(controller.perf), RunGain(d)))
                           && RunOutcome(d, old(memory.Contents()), memory.Contents()))
                && (!ok ==> memory.Contents() == old(memory.Contents()) && controller.perf == old(controller.perf)
                            && controller.error == if Loaded(old(memory.Contents()), descAddr).0 then OUT_OF_RANGE
                                                   else INVALID_DESC)
    {
      hide RunOutcome;
      hide FirstTileFits;
      hide InMemory;
      hide RunGain;
      hide IsPlan;
      hide EndsFit;
      if memory == null { return false; }
      var loaded, d := LoadFromMemory(memory, descAddr);
      LoadedValidates(memory.Contents(), descAddr);
      EndsFitBelowHalf(d);
      hide Loaded;
      hide Descriptor.Validate;
      if !loaded {
        ok := controller.Submit(d);
        return;
      }
      ok := controller.Submit(d);
      if ok { ok := controller.Run(); }
    }

    /** What the registers show. */
    function Shown(): (NpuState, NpuError, Perf)
      reads controller
    {
      (controller.state, controller.error, controller.perf)
    }

    ghost function Seen(): View
      reads this, controller, memory, if memory == null then {} else {memory.data}
    {
      View(descAddr, controller.state, controller.error, controller.perf,
           if memory == null then None else Some(memory.Contents()))
    }

    method Write32(offset: int, value: int) returns (ok: bool)
      requires Valid() && Settled() && IsUint32(value)
      modifies this`descAddr, controller.Scratch(), controller.Dram()
      ensures Valid() && Settled() && memory == old(memory)
      ensures offset == DESC_ADDR ==> ok && descAddr == value && Shown() == old(Shown())
      ensures offset == CMD && value == CMD_START ==> descAddr == old(descAddr)
      ensures offset == CMD && value == CMD_START && memory == null ==> !ok && Shown() == old(Shown())
      ensures offset == CMD && value == CMD_START && memory != null ==>
                && (ok <==> controller.state == DONE) && (!ok <==> controller.state == ERROR)
                && (ok <==> Startable(old(memory.Contents()), descAddr))
                && (ok ==> var d := Loaded(old(memory.Contents()), descAddr).1;
                           Tileable(d) && RunOutcome(d, old(memory.Contents()), memory.Contents()))
      ensures offset == CMD && value == CMD_RESET ==> ok && descAddr == 0 && Shown() == (IDLE, NONE, Perf(0, 0, 0, 0))
      ensures memory != null && !(offset == CMD && value == CMD_START && ok) ==> memory.Contents() == old(memory.Contents())
      ensures !(offset == DESC_ADDR || (offset == CMD && (value == CMD_START || value == CMD_RESET))) ==>
                !ok && descAddr == old(descAddr) && Shown() == old(Shown())
      ensures Serves(old(Seen()), WriteCall(offset, value), Answer(ok, 0), Seen())
    {
      hide RunOutcome;
      hide Startable;
      hide Loaded;
      hide RunGain;
      if offset == DESC_ADDR {
        descAddr := value;
        return true;
      }
      if offset == CMD && value == CMD_START {
        ok := Start();
        return;
      }
      if offset == CMD && value == CMD_RESET {
        Reset();
        return true;
      }
      return false;
    }

    method Read32(offset: int) returns (ok: bool, value: int)
      requires Valid() && Settled()
      ensures ok <==> offset % 4 == 0 && DESC_ADDR <= offset <= MAC_COUNT_HI && offset != CMD
      ensures offset == DESC_ADDR ==> value == descAddr
      ensures offset == STATUS ==> value == StateCode(controller.state)
      ensures offset == ERROR_CODE ==> value == ErrorCode(controller.error)
      ensures IsUint32(value) && Serves(Seen(), ReadCall(offset), Answer(ok, value), Seen())
      ensures ok && offset >= CYCLE_COUNT_LO && offset % 8 == 0 ==> value == Counter(controller.perf, offset) % TWO32
      ensures ok && offset >= CYCLE_COUNT_LO && offset % 8 != 0 ==> value == Counter(controller.perf, offset) / TWO32
    {
      var perf := controller.perf;
      ok, value := true, 0;
      if offset == DESC_ADDR { value := descAddr; }
      else if offset == STATUS { value := StateCode(controller.state); }
      else if offset == ERROR_CODE { value := ErrorCode(controller.error); }
      else if offset == CYCLE_COUNT_LO { value := perf.cycles % TWO32; }
      else if offset == CYCLE_COUNT_HI { value := perf.cycles / TWO32; }
      else if offset == DMA_READ_COUNT_LO { value := perf.dmaReads % TWO32; }
      else if offset == DMA_READ_COUNT_HI { value := perf.dmaReads / TWO32; }
      else if offset == DMA_WRITE_COUNT_LO { value := perf.dmaWrites % TWO32; }
      else if offset == DMA_WRITE_COUNT_HI { value := perf.dmaWrites / TWO32; }
      else if offset == MAC_COUNT_LO { value := perf.macs % TWO32; }
      else if offset == MAC_COUNT_HI { value := perf.macs / TWO32; }
      else { ok := false; }
    }

    /** Over every sequence of register accesses, in any order and with any values, the device stays settled, and each
        access has its own effect and no other. */
    method Serve(calls: seq<Call>) returns (answers: seq<Answer>, ghost views: seq<View>)
      requires Valid() && Settled()
      requires forall i :: 0 <= i < |calls| ==> calls[i].WriteCall? ==> IsUint32(calls[i].value)
      modifies this`descAddr, controller.Scratch(), controller.Dram()
      ensures Valid() && Settled() && memory == old(memory)
      ensures IsHistory(views, calls, answers) && views[0] == old(Seen()) && views[|calls|] == Seen()
    {
      hide Serves;
      hide IsHistory;
      answers, views := [], [Seen()];
      HistoryBegins(Seen());
      for i := 0 to |calls|
        invariant Valid() && Settled() && memory == old(memory) && |views| == i + 1
        invariant IsHistory(views, calls[..i], answers) && views[0] == old(Seen()) && views[i] == Seen()
      {
        var ok, value := true, 0;
        match calls[i] {
          case WriteCall(offset, word) => ok := Write32(offset, word);
          case ReadCall(offset) => ok, value := Read32(offset);
        }
        HistoryGoesOn(views, calls[..i], answers, calls[i], Answer(ok, value), Seen());
        assert calls[..i + 1] == calls[..i] + [calls[i]];
        answers, views := answers + [Answer(ok, value)], views + [Seen()];
      }
      assert calls[..|calls|] == calls;
    }
  }

  lemma LoadedValidates(mem: seq<int>, base: int)
    ensures var (loaded, d) := Loaded(mem, base); (loaded <==> d.Validate()) && d.Words() && d.NonNegativeWords()
    ensures DefaultDescriptor.Words() && DefaultDescriptor.NonNegativeWords()
  {
  }

  /** The failing half of `RunOutcome` is met through START: a DRAM of 1000 words from which the device accepts a
      descriptor with a hazard, and whose run does not store the product. */
  lemma HazardReachesDevice(after: seq<int>)
    ensures var mem := Overlaid(seq(1000, _ => 2), 900, Encode(OVERLAPPING));
            && Startable(mem, 3600) && Loaded(mem, 3600).1 == OVERLAPPING && Tileable(OVERLAPPING)
            && (RunOutcome(OVERLAPPING, mem, after) ==> !ProductStored(OVERLAPPING, mem, after))
  {
    hide Overlaid;
    hide Loaded;
    hide HazardFree;
    hide ProductStored;
    var twos := seq(1000, _ => 2);
    HazardExists();
    assert AllTwos(OVERLAPPING, twos);
    TwosBesideDescriptor(OVERLAPPING, twos, 3600);
    assert FirstTileFits(OVERLAPPING);
  }

  // ----- the register map and the block, by numbers -----

  lemma RegisterMap(p: Perf)
    ensures DESC_ADDR == 0x00 && CMD == 0x04 && STATUS == 0x08 && ERROR_CODE == 0x0c && CMD_START == 1 && CMD_RESET == 2
    ensures StateCode(IDLE) == 0 && StateCode(BUSY) == 1 && StateCode(DONE) == 2 && StateCode(ERROR) == 3
    ensures ErrorCode(NONE) == 0 && ErrorCode(INVALID_DESC) == 1 && ErrorCode(OUT_OF_RANGE) == 2
    ensures ErrorCode(BUFFER_FAIL) == 3
    ensures Counter(p, 0x10) == Counter(p, 0x14) == p.cycles && Counter(p, 0x18) == Counter(p, 0x1c) == p.dmaReads
    ensures Counter(p, 0x20) == Counter(p, 0x24) == p.dmaWrites && Counter(p, 0x28) == Counter(p, 0x2c) == p.macs
    ensures CYCLE_COUNT_LO == 0x10 && MAC_COUNT_HI == 0x2c
  {
  }

  /** START accepts the ten words at `addr` exactly if they are those of a valid block, the matrices they name end within
      memory, and the first tile fits buffers of 2048 words. */
  lemma StartableByWord(mem: seq<int>, addr: int)
    requires IsUint32(addr)
    ensures var w := addr / 4;
            Startable(mem, addr) <==>
              && addr % 4 == 0 && BlockValid(mem, w)
              && mem[w + 3] / 4 + mem[w] * mem[w + 2] <= |mem| && mem[w + 4] / 4 + mem[w + 2] * mem[w + 1] <= |mem|
              && mem[w + 5] / 4 + mem[w] * mem[w + 1] <= |mem|
              && Min(mem[w + 7], mem[w]) * Min(mem[w + 9], mem[w + 2]) <= 2048
              && Min(mem[w + 9], mem[w + 2]) * Min(mem[w + 8], mem[w + 1]) <= 2048
              && Min(mem[w + 7], mem[w]) * Min(mem[w + 8], mem[w + 1]) <= 2048
  {
    hide Loaded;
    LoadedByWord(mem, addr);
  }
}
