/** The simulated computer: core, bus, DRAM, NPU and console, with the host's system calls
    (src/maps-sim/src/system/machine.cpp). */
module Computer {
  import opened Options
  import opened Words
  import opened Storage
  import opened ByteView
  import opened Control
  import opened Device
  import opened SystemBus
  import opened Numbers
  import opened Isa
  import opened Processor

  const REG_A0: int := 10
  const REG_A1: int := 11
  const REG_A7: int := 17

  const SYSCALL_EXIT: int := 0
  const SYSCALL_PUTCHAR: int := 1
  const SYSCALL_WRITE: int := 2

  const FAILURE: bv32 := 0xffff_ffff

  /** What a WRITE of `len` bytes at `addr` prints: the bytes up to the first one outside DRAM. */
  function Printed(bytes: seq<int>, addr: int, len: int): (r: seq<int>)
    requires 0 <= addr && 0 <= len
    ensures |r| <= len
  {
    if addr >= |bytes| then [] else if addr + len <= |bytes| then bytes[addr..addr + len] else bytes[addr..]
  }

  lemma PrintedStep(bytes: seq<int>, addr: int, i: int)
    requires 0 <= addr && 0 <= i
    ensures Printed(bytes, addr, 0) == []
    ensures Printed(bytes, addr, i + 1)
         == Printed(bytes, addr, i) + if addr + i < |bytes| then [bytes[addr + i]] else []
  {
  }

  lemma PrintedStops(bytes: seq<int>, addr: int, i: int, len: int)
    requires 0 <= addr && 0 <= i <= len && addr + i >= |bytes|
    ensures Printed(bytes, addr, len) == Printed(bytes, addr, i)
  {
  }

  method Push(bus: Bus, console: Console, ch: int)
    requires bus.Valid() && bus.console == console
    modifies console
    ensures bus.Valid() && console.text == old(console.text) + [ch] && bus.Dram() == old(bus.Dram())
    ensures bus.Panel() == old(bus.Panel())
  {
    hide Controller.Valid;
    hide NpuDevice.Valid;
    hide NpuDevice.Settled;
    hide Controller.Scratch;
    hide Bytes;
    console.text := console.text + [ch];
  }

  /** One byte of DRAM goes to the console, if there is one. */
  method PrintByte(bus: Bus, console: Console, addr: int) returns (ok: bool)
    requires bus.Valid() && bus.console == console && 0 <= addr
    requires addr <= |bus.Dram()| || addr < TWO32
    modifies console
    ensures bus.Valid() && bus.Dram() == old(bus.Dram()) && bus.Panel() == old(bus.Panel())
    ensures ok <==> addr < |bus.Dram()|
    ensures console.text == old(console.text) + if ok then [bus.Dram()[addr]] else []
  {
    hide Bus.Valid;
    hide Bus.Dram;
    hide Bus.Reach;
    hide Bus.Panel;
    hide Bus.Cells;
    assert allocated(bus.Reach());
    var ch;
    ok, ch := bus.Read8(U32(addr));
    if ok { Push(bus, console, ch); }
  }

  /** WRITE prints the bytes one by one and gives up at the first it cannot read. */
  method PrintBytes(bus: Bus, console: Console, addr: int, len: int) returns (ok: bool)
    requires bus.Valid() && bus.console == console && IsUint32(addr) && IsUint32(len)
    modifies console
    ensures bus.Valid() && bus.Dram() == old(bus.Dram()) && bus.Panel() == old(bus.Panel())
    ensures ok <==> len == 0 || addr + len <= |bus.Dram()|
    ensures console.text == old(console.text) + Printed(bus.Dram(), addr, len)
  {
    hide Bus.Valid;
    hide Bus.Dram;
    hide Bus.Reach;
    hide Bus.Panel;
    hide Bus.Cells;
    hide Printed;
    ghost var bytes := bus.Dram();
    PrintedStep(bytes, addr, 0);
    for i := 0 to len
      invariant bus.Valid() && bus.Dram() == bytes && bus.Panel() == old(bus.Panel()) && (i == 0 || addr + i <= |bytes|)
      invariant console.text == old(console.text) + Printed(bytes, addr, i)
    {
      PrintedStep(bytes, addr, i);
      var readable := PrintByte(bus, console, addr + i);
      if !readable {
        PrintedStops(bytes, addr, i, len);
        return false;
      }
    }
    return true;
  }

  /** DRAM, the NPU and the console on one bus. */
  method Wire(capacity: nat) returns (memory: Memory, npu: NpuDevice, console: Console, bus: Bus)
    requires capacity <= DRAM_LIMIT
    ensures bus.Valid() && bus.memory == memory && bus.npu == npu && bus.console == console
    ensures memory.data.Length == capacity && console.text == []
  {
    hide NpuDevice.Valid;
    hide NpuDevice.Settled;
    hide Bus.Valid;
    console := new Console();
    bus := new Bus();
    memory := new Memory(capacity);
    npu := new NpuDevice();
    npu.BindMemory(memory);
    bus.Bind(memory, npu, console);
  }

  method ResetDevices(bus: Bus, npu: NpuDevice, console: Console)
    requires bus.Valid() && bus.npu == npu && bus.console == console
    modifies bus.NpuCells(), console
    ensures bus.Valid() && bus.Reach() == old(bus.Reach()) && bus.Dram() == old(bus.Dram()) && console.text == []
    ensures bus.memory == old(bus.memory) && bus.npu == npu && bus.console == console
    ensures npu.descAddr == 0 && npu.controller.state == IDLE
  {
    hide NpuDevice.Valid;
    hide NpuDevice.Settled;
    hide Bytes;
    npu.Reset();
    console.text := [];
  }

  // ----- runs -----

  /** The machine between two passes of the loop of a run. */
  datatype Moment = Moment(core: Core, halted: bool, faulted: bool, exitCode: int)

  /** The word fetched in a pass, and the core after the instruction, before the host serves a call. */
  datatype Pass = Pass(inst: bv32, retired: Core)

  function Printing(c: Core, text: seq<int>): Core
  {
    if c.target.console.None? then c else c.(target := c.target.(console := Some(c.target.console.value + text)))
  }

  /** A call that returns `result` in a0. */
  function Answered(c: Core, result: bv32): Core
    requires |c.regs| == REGISTERS
  {
    c.(regs := c.regs[10 := result], ecallPending := false)
  }

  /** The calls of the host, by the number in a7: exit, one character, a text in DRAM; any other one fails. */
  function Served(m: Moment): Moment
    requires |m.core.regs| == REGISTERS
  {
    var number, arg0, arg1 := Unsigned(m.core.regs[17]), Unsigned(m.core.regs[10]), Unsigned(m.core.regs[11]);
    var bytes := m.core.target.bytes;
    if number == 0 then
      m.(core := m.core.(ecallPending := false), halted := true, exitCode := AsInt32(arg0))
    else if number == 1 then
      m.(core := Answered(Printing(m.core, [arg0 % 0x100]), 1))
    else if number == 2 then
      var complete := arg1 == 0 || arg0 + arg1 <= |bytes|;
      m.(core := Answered(Printing(m.core, Printed(bytes, arg0, arg1)), if complete then m.core.regs[11] else 0xffff_ffff))
    else
      m.(core := Answered(m.core, 0xffff_ffff))
  }

  /** One pass of the loop: one instruction, then the call it makes, if it makes one.  An instruction that fails faults
      the core, leaves DRAM and the console as they are, and ends the run. */
  ghost predicate Passes(before: Moment, pass: Pass, after: Moment)
  {
    && |before.core.regs| == REGISTERS && !before.halted && !before.faulted
    && before.core.Coherent() && after.core.Coherent()
    && (if before.core.ecallPending || !Aligned(before.core.pc) then after == before.(faulted := true)
        else Decided(before.core, pass.inst, !after.faulted))
    && (if after.faulted then
          !after.halted && after.exitCode == before.exitCode && after.core.target == before.core.target
        else
          && Keeps(pass.inst, before.core, pass.retired)
          && Meets(pass.inst, before.core, pass.retired, pass.retired.pc, true)
          && var m := before.(core := pass.retired);
             after == if pass.retired.ecallPending then Served(m) else m)
  }

  /** A run: every moment comes from the one before by one pass. */
  ghost predicate IsRun(trace: seq<Moment>, passes: seq<Pass>)
  {
    |trace| == |passes| + 1 && forall i :: 0 <= i < |passes| ==> Passes(trace[i], passes[i], trace[i + 1])
  }

  lemma RunBegins(m: Moment)
    ensures IsRun([m], [])
  {
  }

  lemma RunGoesOn(trace: seq<Moment>, passes: seq<Pass>, pass: Pass, next: Moment)
    requires IsRun(trace, passes) && Passes(trace[|passes|], pass, next)
    ensures IsRun(trace + [next], passes + [pass])
  {
    hide Passes;
  }

  // ----- what every run keeps -----

  predicate IsPrefix(s: seq<int>, t: seq<int>)
  {
    |s| <= |t| && t[..|s|] == s
  }

  /** The console stays, and what it shows only grows. */
  predicate TextGrows(before: Target, after: Target)
  {
    && before.console.Some? == after.console.Some?
    && (before.console.Some? ==> IsPrefix(before.console.value, after.console.value))
  }

  lemma TextGrowsFurther(x: Target, y: Target, z: Target)
    requires TextGrows(x, y) && TextGrows(y, z)
    ensures TextGrows(x, z)
  {
  }

  lemma InstructionShows(inst: bv32, before: Core, after: Core, next: bv32)
    requires Keeps(inst, before, after) && Meets(inst, before, after, next, true)
    ensures TextGrows(before.target, after.target) && |after.regs| == REGISTERS
  {
    hide Loadable;
    hide Delivers;
    hide AfterStore;
    hide AccessFits;
    hide Takes;
    hide Serves;
    hide Unsigned;
    hide Opcode;
    hide Computed;
    hide BranchGoes;
    hide CsrStep;
    hide CsrAt;
    hide CsrKnown;
  }

  lemma CallShows(m: Moment)
    requires |m.core.regs| == REGISTERS
    ensures TextGrows(m.core.target, Served(m).core.target)
  {
    hide Printed;
    hide Unsigned;
  }

  lemma PassShows(before: Moment, pass: Pass, after: Moment)
    requires Passes(before, pass, after)
    ensures TextGrows(before.core.target, after.core.target)
    ensures !before.halted && (!after.halted ==> after.exitCode == before.exitCode)
  {
    hide Decided;
    hide Keeps;
    hide Meets;
    hide Printed;
    hide Unsigned;
    if !after.faulted {
      InstructionShows(pass.inst, before.core, pass.retired, pass.retired.pc);
      if pass.retired.ecallPending { CallShows(before.(core := pass.retired)); }
    }
  }

  /** The call that ends a program: `exit` in a7 and the code in a0, without a trap vector. */
  lemma ExitEnds(before: Moment, pass: Pass, after: Moment)
    requires Passes(before, pass, after) && pass.inst == 0x0000_0073 && before.core.csr.mtvec == 0 && !after.faulted
    ensures before.core.regs[17] == 0 ==> after.halted && after.exitCode == AsInt32(Unsigned(before.core.regs[10]))
    ensures before.core.regs[17] != 0 ==> !after.halted
    ensures after.core.pc == Following(before.core.pc)
  {
  }

  /** In every run what the console shows only grows, and the exit code stays until the program exits. */
  lemma {:induction false} RunShows(trace: seq<Moment>, passes: seq<Pass>, i: nat, j: nat)
    requires IsRun(trace, passes) && i <= j < |trace|
    ensures TextGrows(trace[i].core.target, trace[j].core.target)
    ensures !trace[j].halted ==> trace[j].exitCode == trace[i].exitCode
    decreases j - i
  {
    hide Passes;
    if i < j {
      RunShows(trace, passes, i, j - 1);
      PassShows(trace[j - 1], passes[j - 1], trace[j]);
      TextGrowsFurther(trace[i].core.target, trace[j - 1].core.target, trace[j].core.target);
    }
  }

  class Machine {
    const memory: Memory
    const bus: Bus
    const cpu: Cpu
    const npu: NpuDevice
    const console: Console
    var exitCode: int

    ghost predicate Valid()
      reads this, bus, cpu, cpu.bus, bus.Reach(), if cpu.bus == null then {} else cpu.bus.Reach()
    {
      && bus.memory == memory && bus.npu == npu && bus.console == console && cpu.bus == bus && cpu.Valid()
      && {this} !! bus.Reach() + {cpu, cpu.regs}
    }

    /** What holds between two instructions of every run. */
    ghost predicate Invariant()
      reads this, bus, cpu, cpu.regs, cpu.bus, bus.Reach(), if cpu.bus == null then {} else cpu.bus.Reach()
    {
      Valid() && (!cpu.faulted ==> cpu.Steady())
    }

    /** A machine that may start: if the first step gets past its guard, the core is as a run leaves it. */
    ghost predicate Ready()
      reads this, bus, cpu, cpu.regs, cpu.bus, bus.Reach(), if cpu.bus == null then {} else cpu.bus.Reach()
    {
      Valid() && (!cpu.GuardFires() ==> cpu.Steady())
    }

    ghost function Now(): Moment
      reads this, cpu, cpu.regs, cpu.bus, if cpu.bus == null then {} else cpu.bus.Reach()
    {
      Moment(cpu.Snapshot(), cpu.halted, cpu.faulted, exitCode)
    }

    constructor (capacity: nat)
      requires capacity <= DRAM_LIMIT
      ensures Invariant() && memory.data.Length == capacity && console.text == [] && !cpu.halted && !cpu.faulted
    {
      hide Bus.Valid;
      hide Bus.Dram;
      hide Bus.Reach;
      var dram, device, screen, wires := Wire(capacity);
      memory, npu, console, bus, exitCode := dram, device, screen, wires, 0;
      cpu := new Cpu(wires);
      assert allocated(wires.Reach());
    }

    method Reset(pc: bv32)
      requires Valid()
      modifies this, cpu, cpu.regs, bus.Cells()
      ensures Ready() && (Aligned(pc) ==> Invariant())
      ensures cpu.pc == pc && !cpu.halted && !cpu.faulted && console.text == [] && exitCode == 0
      ensures bus.Dram() == old(bus.Dram()) && npu.controller.state == IDLE
    {
      hide Bus.Valid;
      hide Bus.NpuCells;
      hide Controller.Scratch;
      hide Bytes;
      hide Aligned;
      ResetDevices(bus, npu, console);
      cpu.Reset(pc);
      exitCode := 0;
    }

    method Exit(code: int)
      requires Valid()
      modifies this`exitCode, cpu`halted, cpu`ecallPending
      ensures Valid() && !cpu.ecallPending
      ensures var m := old(Now()); Now() == m.(core := m.core.(ecallPending := false), halted := true, exitCode := code)
    {
      hide Bus.Valid;
      hide Bus.Dram;
      hide Bus.Reach;
      hide Bus.State;
      hide Bus.Panel;
      assert allocated(bus.Reach());
      exitCode := code;
      cpu.Halt();
    }

    method PutChar(ch: int)
      requires Valid()
      modifies console
      ensures Valid() && Now() == old(Now()).(core := Printing(old(Now().core), [ch]))
    {
      hide Bus.Valid;
      hide Bus.Dram;
      hide Bus.Reach;
      hide Bus.State;
      hide Bus.Panel;
      Push(bus, console, ch);
    }

    method Write(addr: int, len: int) returns (ok: bool)
      requires Valid() && IsUint32(addr) && IsUint32(len)
      modifies console
      ensures Valid() && Now() == old(Now()).(core := Printing(old(Now().core), Printed(old(bus.Dram()), addr, len)))
      ensures ok <==> len == 0 || addr + len <= |old(bus.Dram())|
    {
      hide Bus.Valid;
      hide Bus.Dram;
      hide Bus.Reach;
      hide Bus.State;
      hide Bus.Panel;
      hide Printed;
      ok := PrintBytes(bus, console, addr, len);
    }

    /** The result of a call goes to a0. */
    method Answer(result: bv32)
      requires Valid()
      modifies cpu`ecallPending, cpu.regs
      ensures Valid() && Now().core == Answered(old(Now().core), result)
      ensures !cpu.ecallPending && cpu.regs[0] == old(cpu.regs[0])
    {
      hide Bus.Valid;
      hide Bus.Dram;
      hide Bus.Reach;
      hide Bus.State;
      hide Bus.Panel;
      assert allocated(bus.Reach());
      ghost var was := cpu.Snapshot();
      cpu.SetReg(REG_A0, result);
      cpu.ClearEcall();
      assert cpu.regs[..] == was.regs[10 := result];
    }

    method HandleSyscall() returns (ok: bool)
      requires Valid() && cpu.regs[0] == 0 && Aligned(cpu.pc) && cpu.csr.Tidy()
      modifies this`exitCode, console, cpu`halted, cpu`ecallPending, cpu.regs
      ensures ok && Invariant() && Now() == Served(old(Now()))
    {
      hide Bus.Valid;
      hide Bus.Dram;
      hide Bus.Reach;
      hide Aligned;
      hide Unsigned;
      hide Printed;
      hide Bus.State;
      hide Bus.Panel;
      hide Printing;
      hide Answered;
      var number, arg0, arg1 := Unsigned(cpu.regs[REG_A7]), Unsigned(cpu.regs[REG_A0]), Unsigned(cpu.regs[REG_A1]);
      if number == SYSCALL_EXIT {
        Exit(AsInt32(arg0));
      } else if number == SYSCALL_PUTCHAR {
        PutChar(arg0 % 0x100);
        Answer(1);
      } else if number == SYSCALL_WRITE {
        var printed := Write(arg0, arg1);
        Answer(if printed then cpu.regs[REG_A1] else FAILURE);
      } else {
        Answer(FAILURE);
      }
      return true;
    }

    /** The body of the loop. */
    method Advance() returns (ok: bool, ghost pass: Pass)
      requires Ready() && !cpu.halted && !cpu.faulted
      modifies this`exitCode, cpu, cpu.regs, bus.Cells()
      ensures Valid() && Passes(old(Now()), pass, Now()) && (ok <==> !cpu.faulted)
      ensures if ok then Invariant() && Aligned(old(cpu.pc)) else !cpu.halted
    {
      hide Keeps;
      hide Meets;
      hide Decided;
      hide Aligned;
      hide Served;
      ghost var inst;
      ok, inst := cpu.Step();
      pass := Pass(inst, cpu.Snapshot());
      if ok && cpu.ecallPending { ok := HandleSyscall(); }
    }

    /** Every run is a trace: each pass is one instruction and the call it makes, and the run ends when the core has
        halted or faulted, or after `maxSteps` passes, and not before.  It keeps the invariant, so the guard of `Step`
        never fires in it; a run from a misaligned pc faults at once. */
    method Run(maxSteps: nat) returns (ok: bool, ghost trace: seq<Moment>, ghost passes: seq<Pass>)
      requires Ready()
      modifies this`exitCode, cpu, cpu.regs, bus.Cells()
      ensures Ready() && (old(Invariant()) ==> Invariant())
      ensures IsRun(trace, passes) && trace[0] == old(Now()) && trace[|passes|] == Now()
      ensures |passes| <= maxSteps && (|passes| == maxSteps || cpu.halted || cpu.faulted)
      ensures ok <==> cpu.halted && !cpu.faulted
      ensures maxSteps > 0 && !old(cpu.halted) && !Aligned(old(cpu.pc)) ==> cpu.faulted && !cpu.halted
    {
      hide Passes;
      hide Aligned;
      hide Bus.Valid;
      hide Bus.State;
      hide Bus.Panel;
      hide IsRun;
      trace, passes := [Now()], [];
      RunBegins(Now());
      var i := 0;
      while i < maxSteps && !cpu.halted && !cpu.faulted
        invariant Ready() && (old(Invariant()) || i > 0 ==> Invariant())
        invariant IsRun(trace, passes) && |trace| == |passes| + 1 && |passes| == i <= maxSteps
        invariant trace[0] == old(Now()) && trace[i] == Now() && (i > 0 ==> Aligned(old(cpu.pc)))
      {
        assert old(Invariant()) ==> !cpu.GuardFires();
        ghost var pass;
        ok, pass := Advance();
        RunGoesOn(trace, passes, pass, Now());
        trace, passes := trace + [Now()], passes + [pass];
        if !ok { return; }
        i := i + 1;
      }
      ok := cpu.halted && !cpu.faulted;
    }
  }
}
