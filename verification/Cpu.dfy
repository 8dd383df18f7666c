/** The RV32I core (src/maps-sim/src/cpu/cpu.cpp): what every instruction does, whatever its bits are. */
module Processor {
  import opened Words
  import opened Options
  import opened Numbers
  import opened Isa
  import opened ByteView
  import opened Descriptors
  import opened Schedule
  import opened Control
  import opened Device
  import opened SystemBus

  const ECALL: bv32 := 0x0000_0073
  const MRET: bv32 := 0x3020_0073

  const CSR_MSTATUS: bv32 := 0x300
  const CSR_MTVEC: bv32 := 0x305
  const CSR_MEPC: bv32 := 0x341
  const CSR_MCAUSE: bv32 := 0x342
  const CAUSE_ECALL: bv32 := 11

  const REGISTERS: int := 32

  lemma MaskAligns(x: bv32)
    ensures Aligned(x & !0x3)
  {
  }

  lemma NextAligned(x: bv32)
    requires Aligned(x)
    ensures Aligned(Following(x))
  {
  }

  /** The number of the destination register. */
  function Destination(inst: bv32): (r: int)
    ensures 0 <= r < REGISTERS
  {
    Rd(inst) as int
  }

  lemma DestinationIsRd(inst: bv32)
    ensures Destination(inst) == Rd(inst) as int
  {
  }

  // ----- operations, as the core computes them -----

  predicate SignedLess(x: bv32, y: bv32)
  {
    x ^ 0x8000_0000 < y ^ 0x8000_0000
  }

  lemma SignedLessIsBelow(x: bv32, y: bv32)
    ensures SignedLess(x, y) <==> Below(x, y)
  {
  }

  lemma Comparisons(funct3: bv32, x: bv32, y: bv32)
    ensures Compare(0, x, y) == Some(x == y) && Compare(1, x, y) == Some(x != y)
    ensures Compare(4, x, y) == Some(SignedLess(x, y)) && Compare(5, x, y) == Some(!SignedLess(x, y))
    ensures Compare(6, x, y) == Some(x < y) && Compare(7, x, y) == Some(x >= y)
    ensures funct3 != 0 && funct3 != 1 && !(4 <= funct3 <= 7) ==> Compare(funct3, x, y) == None
  {
    SignedLessIsBelow(x, y);
  }

  lemma Funct3Range(inst: bv32)
    ensures Funct3(inst) < 8
  {
  }

  /** The immediate form of a shift takes its amount from the register field, which is the low end of the immediate. */
  lemma ShiftAmount(inst: bv32)
    ensures Low5(ImmI(inst)) == Rs2(inst)
  {
  }

  /** A register-immediate instruction; a form that does not exist is unknown. */
  method RegisterImmediate(inst: bv32, x: bv32) returns (known: bool, value: bv32)
    ensures known <==> ImmediateForm(inst)
    ensures known ==> value == ImmediateValue(inst, x)
  {
    hide SignedLess;
    hide Plus;
    hide Minus;
    hide Xor;
    hide Or;
    hide And;
    hide Flag;
    hide Below;
    hide Lower;
    hide Left;
    hide Right;
    hide Filled;
    hide Low5;
    hide Funct3;
    hide Funct7;
    hide ImmI;
    hide Rs2;
    var funct3, funct7, imm := Funct3(inst), Funct7(inst), ImmI(inst);
    SignedLessIsBelow(x, imm);
    ShiftAmount(inst);
    Funct3Range(inst);
    known, value := true, 0;
    if funct3 == 0 { value := Plus(x, imm); }
    else if funct3 == 2 { value := Flag(SignedLess(x, imm)); }
    else if funct3 == 3 { value := Flag(Lower(x, imm)); }
    else if funct3 == 4 { value := Xor(x, imm); }
    else if funct3 == 6 { value := Or(x, imm); }
    else if funct3 == 7 { value := And(x, imm); }
    else if funct3 == 1 {
      known, value := funct7 == 0, Left(x, Rs2(inst));
    } else if funct7 == 0 {
      value := Right(x, Rs2(inst));
    } else {
      known, value := funct7 == 0x20, Filled(x, Rs2(inst));
    }
  }

  /** A register-register instruction. */
  method RegisterRegister(inst: bv32, x: bv32, y: bv32) returns (known: bool, value: bv32)
    ensures known <==> RegisterForm(inst)
    ensures known ==> value == RegisterValue(inst, x, y)
  {
    hide SignedLess;
    hide Plus;
    hide Minus;
    hide Xor;
    hide Or;
    hide And;
    hide Flag;
    hide Below;
    hide Lower;
    hide Left;
    hide Right;
    hide Filled;
    hide Low5;
    hide Funct3;
    hide Funct7;
    var funct3, funct7 := Funct3(inst), Funct7(inst);
    SignedLessIsBelow(x, y);
    Funct3Range(inst);
    known, value := funct7 == 0, 0;
    if funct3 == 0 {
      known := known || funct7 == 0x20;
      value := if funct7 == 0 then Plus(x, y) else Minus(x, y);
    } else if funct3 == 1 { value := Left(x, Low5(y)); }
    else if funct3 == 2 { value := Flag(SignedLess(x, y)); }
    else if funct3 == 3 { value := Flag(Lower(x, y)); }
    else if funct3 == 4 { value := Xor(x, y); }
    else if funct3 == 5 {
      known := known || funct7 == 0x20;
      value := if funct7 == 0 then Right(x, Low5(y)) else Filled(x, Low5(y));
    } else if funct3 == 6 { value := Or(x, y); }
    else { value := And(x, y); }
  }

  /** A taken branch checks its target. */
  method Branch(inst: bv32, pc: bv32, x: bv32, y: bv32) returns (ok: bool, nextPc: bv32)
    requires Aligned(pc)
    ensures ok ==> Aligned(nextPc)
    ensures var goes := BranchGoes(inst, pc, x, y); (ok <==> goes.Some?) && (ok ==> goes.value == nextPc)
  {
    NextAligned(pc);
    hide SignedLess;
    hide Compare;
    hide ImmB;
    hide Aligned;
    hide Funct3;
    Comparisons(Funct3(inst), x, y);
    var funct3 := Funct3(inst);
    var taken;
    if funct3 == 0 { taken := x == y; }
    else if funct3 == 1 { taken := x != y; }
    else if funct3 == 4 { taken := SignedLess(x, y); }
    else if funct3 == 5 { taken := !SignedLess(x, y); }
    else if funct3 == 6 { taken := x < y; }
    else if funct3 == 7 { taken := x >= y; }
    else { return false, Following(pc); }
    nextPc := if taken then Plus(pc, ImmB(inst)) else Following(pc);
    ok := !taken || Aligned(nextPc);
  }

  /** The value for the destination register and the next address, of an instruction that only computes; a jump to a
      misaligned address is known, but fails. */
  method Calculate(inst: bv32, pc: bv32, x: bv32, y: bv32) returns (known: bool, value: bv32, nextPc: bv32)
    requires Aligned(pc)
    ensures var result := Computed(inst, pc, x, y);
            && (known && Aligned(nextPc) <==> result.Some?)
            && (known && Aligned(nextPc) ==> result.value == Outcome(value, nextPc))
  {
    NextAligned(pc);
    hide ImmediateForm;
    hide RegisterForm;
    hide ImmediateValue;
    hide RegisterValue;
    hide Aligned;
    hide ImmI;
    hide ImmU;
    hide ImmJ;
    hide Opcode;
    hide Funct3;
    hide Funct7;
    var opcode := Opcode(inst);
    known, value, nextPc := true, 0, Following(pc);
    if opcode == LUI {
      value := ImmU(inst);
    } else if opcode == AUIPC {
      value := Plus(pc, ImmU(inst));
    } else if opcode == JAL {
      value, nextPc := Following(pc), Plus(pc, ImmJ(inst));
    } else if opcode == JALR {
      if Funct3(inst) != 0 { return false, 0, nextPc; }
      value, nextPc := Following(pc), Evened(Plus(x, ImmI(inst)));
    } else if opcode == OP_IMM {
      known, value := RegisterImmediate(inst, x);
    } else if opcode == OP {
      known, value := RegisterRegister(inst, x, y);
    } else {
      known := false;
    }
  }

  // ----- the core -----

  datatype Csrs = Csrs(mstatus: bv32, mtvec: bv32, mepc: bv32, mcause: bv32)
  {
    predicate Tidy()
    {
      Aligned(mtvec) && Aligned(mepc)
    }
  }

  function CsrAt(csr: Csrs, addr: bv32): Option<bv32>
  {
    if addr == CSR_MSTATUS then Some(csr.mstatus)
    else if addr == CSR_MTVEC then Some(csr.mtvec)
    else if addr == CSR_MEPC then Some(csr.mepc)
    else if addr == CSR_MCAUSE then Some(csr.mcause)
    else None
  }

  /** Two of the registers hold addresses, whose low bits stay clear. */
  function Masked(addr: bv32, value: bv32): bv32
  {
    if addr == CSR_MTVEC || addr == CSR_MEPC then value & !0x3 else value
  }

  /** The CSR instructions: funct3 says how, in its low bits, and where the operand comes from, in its high one. */
  predicate CsrForm(inst: bv32)
  {
    Funct3(inst) & 3 != 0
  }

  predicate CsrKnown(inst: bv32, csr: Csrs)
  {
    CsrForm(inst) && CsrAt(csr, inst >> 20).Some?
  }

  function CsrOperand(inst: bv32, x: bv32): bv32
  {
    if Funct3(inst) & 4 != 0 then Rs1(inst) as bv32 else x
  }

  function CsrUpdated(inst: bv32, value: bv32, operand: bv32): bv32
  {
    match Funct3(inst) & 3
    case 1 => operand
    case 2 => Or(value, operand)
    case _ => ClearBits(value, operand)
  }

  function ClearBits(value: bv32, mask: bv32): bv32 { value & !mask }

  /** Setting or clearing with operand field 0 does not write. */
  predicate CsrWrites(inst: bv32)
  {
    Funct3(inst) & 3 == 1 || Rs1(inst) != 0
  }

  /** Exactly the named register changes, as the instruction says, if it writes at all. */
  ghost predicate CsrStep(inst: bv32, before: Csrs, after: Csrs, x: bv32)
    requires CsrKnown(inst, before)
  {
    var addr := inst >> 20;
    var value := CsrAt(before, addr).value;
    forall a :: CsrAt(after, a) == if a == addr && CsrWrites(inst)
                                   then Some(Masked(addr, CsrUpdated(inst, value, CsrOperand(inst, x))))
                                   else CsrAt(before, a)
  }

  /** The low two bits of funct3 and its high bit, number by number. */
  lemma CsrForms(inst: bv32)
    ensures Funct3(inst) < 8
    ensures Funct3(inst) & 3 == 0 <==> Funct3(inst) == 0 || Funct3(inst) == 4
    ensures Funct3(inst) & 3 == 1 <==> Funct3(inst) == 1 || Funct3(inst) == 5
    ensures Funct3(inst) & 3 == 2 <==> Funct3(inst) == 2 || Funct3(inst) == 6
    ensures Funct3(inst) & 4 != 0 <==> Funct3(inst) >= 4
  {
  }

  /** What a CSR instruction would write, and whether it does. */
  method NewCsrValue(inst: bv32, before: bv32, x: bv32) returns (writes: bool, value: bv32)
    requires CsrForm(inst)
    ensures writes == CsrWrites(inst) && value == CsrUpdated(inst, before, CsrOperand(inst, x))
  {
    hide Or;
    hide ClearBits;
    hide Funct3;
    hide Rs1;
    CsrForms(inst);
    var funct3 := Funct3(inst);
    var operand := if funct3 >= 5 then Rs1(inst) as bv32 else x;
    value := if funct3 == 1 || funct3 == 5 then operand
             else if funct3 == 2 || funct3 == 6 then Or(before, operand)
             else ClearBits(before, operand);
    writes := !(funct3 != 1 && funct3 != 5 && Rs1(inst) == 0);
  }

  lemma SystemOpcodes()
    ensures Opcode(ECALL) == Opcode(MRET) == SYSTEM
  {
  }

  /** Instructions that never write a register. */
  predicate WritesNoRegister(inst: bv32)
  {
    Opcode(inst) == STORE || Opcode(inst) == BRANCH || inst == ECALL || inst == MRET
  }

  /** The core and what its stores can change, at one moment. */
  datatype Core = Core(pc: bv32, regs: seq<bv32>, csr: Csrs, ecallPending: bool, target: Target, npu: Option<View>)
  {
    /** The NPU and the bus see the same memory. */
    predicate Coherent()
    {
      npu.Some? ==> target.bytes == if npu.value.mem.None? then [] else Bytes(npu.value.mem.value)
    }
  }

  /** What an instruction that does not fault leaves alone, whatever its bits are. */
  ghost predicate Keeps(inst: bv32, before: Core, after: Core)
  {
    && |before.regs| == |after.regs| == REGISTERS
    && (forall r :: 0 < r < REGISTERS && (r != Destination(inst) || WritesNoRegister(inst)) ==>
          after.regs[r] == before.regs[r])
    && (Opcode(inst) != STORE ==> after.target == before.target && after.npu == before.npu)
    && (Opcode(inst) != SYSTEM ==> after.csr == before.csr)
    && (after.ecallPending <==> inst == ECALL && before.csr.mtvec == 0)
  }

  lemma BranchKeeps(inst: bv32, before: Core)
    requires |before.regs| == REGISTERS && !before.ecallPending && Opcode(inst) == BRANCH
    ensures Keeps(inst, before, before)
  {
    SystemOpcodes();
  }

  lemma StoreKeeps(inst: bv32, before: Core, target: Target, npu: Option<View>)
    requires |before.regs| == REGISTERS && !before.ecallPending && Opcode(inst) == STORE
    ensures Keeps(inst, before, before.(target := target, npu := npu))
  {
    SystemOpcodes();
  }

  lemma RegisterKeeps(inst: bv32, before: Core, regs: seq<bv32>)
    requires |before.regs| == |regs| == REGISTERS && !before.ecallPending
    requires Opcode(inst) != BRANCH && Opcode(inst) != STORE && Opcode(inst) != SYSTEM
    requires forall r :: 0 <= r < REGISTERS && r != Destination(inst) ==> regs[r] == before.regs[r]
    ensures Keeps(inst, before, before.(regs := regs))
  {
    SystemOpcodes();
  }

  lemma SystemKeeps(inst: bv32, before: Core, after: Core)
    requires |before.regs| == |after.regs| == REGISTERS && Opcode(inst) == SYSTEM && after.target == before.target
    requires after.npu == before.npu
    requires forall r :: 0 <= r < REGISTERS && r != Destination(inst) ==> after.regs[r] == before.regs[r]
    requires inst == ECALL || inst == MRET ==> after.regs == before.regs
    requires after.ecallPending <==> inst == ECALL && before.csr.mtvec == 0
    ensures Keeps(inst, before, after)
  {
  }

  lemma KeepsAfterRetiring(inst: bv32, before: Core, after: Core, next: bv32)
    requires Keeps(inst, before, after)
    ensures Keeps(inst, before, after.(pc := next, regs := after.regs[0 := 0]))
  {
  }

  /** An access of this width lies in an array of `size` bytes and is aligned. */
  predicate AccessFits(size: int, funct3: bv32, addr: int)
  {
    if funct3 == 0x0 || funct3 == 0x4 then addr < size
    else if funct3 == 0x1 || funct3 == 0x5 then addr % 2 == 0 && addr + 1 < size
    else funct3 == 0x2 && addr % 4 == 0 && addr + 3 < size
  }

  /** `loaded` is what a load of this width finds at `addr`: sign-extended bytes and half-words, or zero-extended. */
  ghost predicate Finds(bytes: seq<int>, funct3: bv32, addr: int, loaded: bv32)
    requires 0 <= addr && AccessFits(|bytes|, funct3, addr)
  {
    if funct3 == 0x0 || funct3 == 0x4 then
      && IsByte(bytes[addr])
      && loaded == if funct3 == 0x0 then SignExtend(FromUnsigned(bytes[addr]), 0x80) else FromUnsigned(bytes[addr])
    else if funct3 == 0x1 || funct3 == 0x5 then
      && IsUint32(Half(bytes, addr))
      && loaded == if funct3 == 0x1 then SignExtend(FromUnsigned(Half(bytes, addr)), 0x8000)
                   else FromUnsigned(Half(bytes, addr))
    else
      IsUint32(Word(bytes, addr)) && loaded == FromUnsigned(Word(bytes, addr))
  }

  /** The byte array after a store of this width. */
  function AfterStore(bytes: seq<int>, funct3: bv32, addr: int, value: int): seq<int>
    requires 0 <= addr && AccessFits(|bytes|, funct3, addr)
  {
    if funct3 == 0x0 || funct3 == 0x4 then bytes[addr := value % 0x100]
    else if funct3 == 0x1 || funct3 == 0x5 then
      bytes[addr := value % 0x1_0000 % 0x100][addr + 1 := value % 0x1_0000 / 0x100]
    else bytes[addr := Lane(value, 0)][addr + 1 := Lane(value, 1)][addr + 2 := Lane(value, 2)][addr + 3 := Lane(value, 3)]
  }

  // ----- the exact outcome of an instruction -----

  /** The source registers, and the address a load or a store names. */
  function X(inst: bv32, c: Core): bv32
    requires |c.regs| == REGISTERS
  {
    c.regs[Rs1(inst)]
  }

  function Y(inst: bv32, c: Core): bv32
    requires |c.regs| == REGISTERS
  {
    c.regs[Rs2(inst)]
  }

  function Address(inst: bv32, c: Core): (r: int)
    requires |c.regs| == REGISTERS
    ensures IsUint32(r)
  {
    Unsigned(Plus(X(inst, c), if Opcode(inst) == STORE then ImmS(inst) else ImmI(inst)))
  }

  lemma AddressOf(inst: bv32, c: Core, x: bv32)
    requires |c.regs| == REGISTERS && c.regs[Rs1(inst)] == x
    ensures Opcode(inst) == STORE ==> Address(inst, c) == Unsigned(Plus(x, ImmS(inst)))
    ensures Opcode(inst) == LOAD ==> Address(inst, c) == Unsigned(Plus(x, ImmI(inst)))
  {
    hide Plus;
    hide Opcode;
    hide ImmS;
    hide ImmI;
    hide Unsigned;
    hide Rs1;
  }

  /** A register of the NPU or of the console. */
  predicate InWindow(addr: int)
  {
    InNpu(addr) || InConsole(addr)
  }

  /** A load succeeds in range and aligned; of the registers only words are loaded. */
  predicate Loadable(c: Core, funct3: bv32, addr: int)
  {
    if InWindow(addr) then funct3 == 0x2 && WindowWord(c.npu, addr).Some? else AccessFits(|c.target.bytes|, funct3, addr)
  }

  /** What it finds there. */
  ghost predicate Delivers(c: Core, funct3: bv32, addr: int, loaded: bv32)
    requires 0 <= addr && Loadable(c, funct3, addr)
  {
    if InWindow(addr) then
      IsUint32(WindowWord(c.npu, addr).value) && loaded == FromUnsigned(WindowWord(c.npu, addr).value)
    else Finds(c.target.bytes, funct3, addr, loaded)
  }

  /** A store succeeds in range and aligned; the console takes bytes and words, and the NPU the words of `Takes`. */
  ghost predicate Storable(c: Core, funct3: bv32, addr: int, value: int)
  {
    if InConsole(addr) then (funct3 == 0 || funct3 == 0x2) && c.target.console.Some? && addr == CONSOLE_BASE + CONSOLE_DATA
    else if InNpu(addr) then funct3 == 0x2 && c.npu.Some? && Takes(c.npu.value, addr - NPU_BASE, value)
    else funct3 <= 0x2 && AccessFits(|c.target.bytes|, funct3, addr)
  }

  /** What it leaves: one more character, what the NPU does with the word, or new bytes in DRAM. */
  ghost predicate Leaves(c: Core, funct3: bv32, addr: int, value: int, target: Target, npu: Option<View>)
    requires 0 <= addr && Storable(c, funct3, addr, value)
  {
    if InConsole(addr) then
      target == c.target.(console := Some(c.target.console.value + [value % 0x100])) && npu == c.npu
    else if InNpu(addr) then
      && target.console == c.target.console && npu.Some?
      && Serves(c.npu.value, WriteCall(addr - NPU_BASE, value), Answer(true, 0), npu.value)
    else
      target == c.target.(bytes := AfterStore(c.target.bytes, funct3, addr, value)) && SameRegisters(c.npu, npu)
  }

  /** The exact condition under which an instruction does not fault. */
  ghost predicate Legal(inst: bv32, c: Core)
    requires |c.regs| == REGISTERS
  {
    var opcode := Opcode(inst);
    if opcode == BRANCH then BranchGoes(inst, c.pc, X(inst, c), Y(inst, c)).Some?
    else if opcode == STORE then Storable(c, Funct3(inst), Address(inst, c), Unsigned(Y(inst, c)))
    else if opcode == LOAD then Loadable(c, Funct3(inst), Address(inst, c))
    else if opcode == SYSTEM then inst == ECALL || inst == MRET || CsrKnown(inst, c.csr)
    else Computed(inst, c.pc, X(inst, c), Y(inst, c)).Some?
  }

  /** The value of the destination register after an instruction, x0 aside. */
  predicate Sets(inst: bv32, after: Core, value: bv32)
    requires |after.regs| == REGISTERS
  {
    Destination(inst) != 0 ==> after.regs[Destination(inst)] == value
  }

  /** Everything a legal instruction computes. */
  ghost predicate Does(inst: bv32, before: Core, after: Core, next: bv32)
    requires |before.regs| == |after.regs| == REGISTERS && Legal(inst, before)
  {
    var opcode, x, y, addr := Opcode(inst), X(inst, before), Y(inst, before), Address(inst, before);
    if opcode == BRANCH then BranchGoes(inst, before.pc, x, y) == Some(next)
    else if opcode == STORE then
      next == Following(before.pc) && Leaves(before, Funct3(inst), addr, Unsigned(y), after.target, after.npu)
    else if opcode == LOAD then
      && next == Following(before.pc)
      && (Destination(inst) != 0 ==> Delivers(before, Funct3(inst), addr, after.regs[Destination(inst)]))
    else if opcode == SYSTEM then
      && (inst == MRET ==> next == before.csr.mepc && after.csr == before.csr)
      && (inst == ECALL && before.csr.mtvec != 0 ==>
            next == before.csr.mtvec && after.csr == before.csr.(mepc := Following(before.pc), mcause := CAUSE_ECALL))
      && (inst == ECALL && before.csr.mtvec == 0 ==> next == Following(before.pc) && after.csr == before.csr)
      && (inst != ECALL && inst != MRET ==>
            && next == Following(before.pc) && CsrStep(inst, before.csr, after.csr, x)
            && Sets(inst, after, CsrAt(before.csr, inst >> 20).value))
    else
      var outcome := Computed(inst, before.pc, x, y).value;
      next == outcome.next && Sets(inst, after, outcome.value)
  }

  /** An instruction succeeds exactly when it is legal, and then does all it should. */
  ghost predicate Meets(inst: bv32, before: Core, after: Core, next: bv32, ok: bool)
  {
    && |before.regs| == |after.regs| == REGISTERS
    && (ok <==> Legal(inst, before)) && (ok ==> Does(inst, before, after, next))
  }

  lemma MeetsAfterRetiring(inst: bv32, before: Core, after: Core, next: bv32)
    requires Meets(inst, before, after, next, true)
    ensures Meets(inst, before, after.(pc := next, regs := after.regs[0 := 0]), next, true)
  {
    hide Legal;
    hide Opcode;
    hide Funct3;
    hide Rd;
    hide Rs1;
    hide Rs2;
    hide AfterStore;
    hide Finds;
    hide AccessFits;
    hide Computed;
    hide BranchGoes;
    hide CsrStep;
    hide Unsigned;
    hide Destination;
  }

  /** The fetch is a load of a word, and the word it finds decides the step by its legality. */
  ghost predicate Decided(before: Core, inst: bv32, ok: bool)
    requires |before.regs| == REGISTERS
  {
    var at := Unsigned(before.pc);
    if Loadable(before, 0x2, at) then Delivers(before, 0x2, at, inst) && (ok <==> Legal(inst, before)) else !ok
  }

  lemma MeetsDecides(inst: bv32, before: Core, after: Core, next: bv32, ok: bool)
    requires Meets(inst, before, after, next, ok)
    ensures |before.regs| == REGISTERS && (ok <==> Legal(inst, before))
  {
  }

  lemma BranchMeets(inst: bv32, before: Core, next: bv32, ok: bool)
    requires |before.regs| == REGISTERS && Opcode(inst) == BRANCH
    requires var goes := BranchGoes(inst, before.pc, X(inst, before), Y(inst, before));
             (ok <==> goes.Some?) && (ok ==> goes.value == next)
    ensures Meets(inst, before, before, next, ok)
  {
  }

  lemma StoreMeets(inst: bv32, before: Core, target: Target, npu: Option<View>, ok: bool)
    requires |before.regs| == REGISTERS && Opcode(inst) == STORE
    requires var addr, value := Address(inst, before), Unsigned(Y(inst, before));
             && (ok <==> Storable(before, Funct3(inst), addr, value))
             && (ok ==> Leaves(before, Funct3(inst), addr, value, target, npu))
    ensures Meets(inst, before, before.(target := target, npu := npu), Following(before.pc), ok)
  {
    hide Storable;
    hide Leaves;
    hide Opcode;
    hide Funct3;
    hide Rs1;
    hide Rs2;
    hide AfterStore;
    hide AccessFits;
    hide Unsigned;
  }

  lemma LoadMeets(inst: bv32, before: Core, after: Core, ok: bool)
    requires |before.regs| == |after.regs| == REGISTERS && Opcode(inst) == LOAD
    requires var addr := Address(inst, before);
             && (ok <==> Loadable(before, Funct3(inst), addr))
             && (ok ==> Delivers(before, Funct3(inst), addr, after.regs[Destination(inst)]))
    ensures Meets(inst, before, after, Following(before.pc), ok)
  {
    hide Loadable;
    hide Delivers;
    hide Opcode;
    hide Funct3;
    hide Rs1;
    hide Rs2;
    hide Finds;
    hide AccessFits;
    hide Unsigned;
    hide Destination;
  }

  lemma SystemMeets(inst: bv32, before: Core, after: Core, next: bv32, ok: bool)
    requires |before.regs| == |after.regs| == REGISTERS && Opcode(inst) == SYSTEM
    requires inst == ECALL || inst == MRET ==> ok
    requires inst == MRET ==> next == before.csr.mepc && after.csr == before.csr
    requires inst == ECALL && before.csr.mtvec != 0 ==>
               next == before.csr.mtvec && after.csr == before.csr.(mepc := Following(before.pc), mcause := CAUSE_ECALL)
    requires inst == ECALL && before.csr.mtvec == 0 ==> next == Following(before.pc) && after.csr == before.csr
    requires inst != ECALL && inst != MRET ==> next == Following(before.pc) && (ok <==> CsrKnown(inst, before.csr))
    requires inst != ECALL && inst != MRET && ok ==>
               CsrStep(inst, before.csr, after.csr, X(inst, before)) && Sets(inst, after, CsrAt(before.csr, inst >> 20).value)
    ensures Meets(inst, before, after, next, ok)
  {
    hide Opcode;
    hide Rs1;
    hide Rs2;
    hide CsrStep;
    hide CsrAt;
    hide CsrForm;
    hide Unsigned;
    hide Destination;
  }

  lemma ComputeMeets(inst: bv32, before: Core, after: Core, next: bv32, ok: bool)
    requires |before.regs| == |after.regs| == REGISTERS
    requires Opcode(inst) != BRANCH && Opcode(inst) != STORE && Opcode(inst) != SYSTEM && Opcode(inst) != LOAD
    requires var result := Computed(inst, before.pc, X(inst, before), Y(inst, before));
             (ok <==> result.Some?) && (ok ==> result.value == Outcome(after.regs[Destination(inst)], next))
    ensures Meets(inst, before, after, next, ok)
  {
    hide Opcode;
    hide Rs1;
    hide Rs2;
    hide Computed;
    hide Unsigned;
    hide Destination;
  }

  /** What `Cpu.System` promises, about snapshots. */
  ghost predicate SystemFacts(inst: bv32, before: Core, after: Core, next: bv32, ok: bool)
  {
    && |before.regs| == |after.regs| == REGISTERS && after.target == before.target && Opcode(inst) == SYSTEM
    && after.npu == before.npu
    && (forall r :: 0 <= r < REGISTERS && r != Destination(inst) ==> after.regs[r] == before.regs[r])
    && (inst == ECALL || inst == MRET ==> ok && after.regs == before.regs)
    && (inst == MRET ==> next == before.csr.mepc && after.csr == before.csr)
    && (inst == ECALL && before.csr.mtvec != 0 ==>
          next == before.csr.mtvec && after.csr == before.csr.(mepc := Following(before.pc), mcause := CAUSE_ECALL))
    && (inst == ECALL && before.csr.mtvec == 0 ==> next == Following(before.pc) && after.csr == before.csr)
    && (after.ecallPending <==> inst == ECALL && before.csr.mtvec == 0)
    && (inst != ECALL && inst != MRET ==> next == Following(before.pc) && (ok <==> CsrKnown(inst, before.csr)))
    && (inst != ECALL && inst != MRET && ok ==>
          CsrStep(inst, before.csr, after.csr, X(inst, before)) && Sets(inst, after, CsrAt(before.csr, inst >> 20).value))
  }

  lemma SystemDone(inst: bv32, before: Core, after: Core, next: bv32, ok: bool)
    requires SystemFacts(inst, before, after, next, ok)
    ensures Keeps(inst, before, after) && Meets(inst, before, after, next, ok)
    ensures after.target == before.target
  {
    hide Opcode;
    hide Destination;
    hide CsrStep;
    hide CsrAt;
    hide CsrKnown;
    hide Keeps;
    hide Meets;
    hide Rs1;
    SystemKeeps(inst, before, after);
    SystemMeets(inst, before, after, next, ok);
  }

  /** What `Cpu.Load` promises, about snapshots. */
  ghost predicate LoadFacts(inst: bv32, before: Core, after: Core, ok: bool)
  {
    && |before.regs| == |after.regs| == REGISTERS && after == before.(regs := after.regs) && Opcode(inst) == LOAD
    && (forall r :: 0 <= r < REGISTERS && r != Destination(inst) ==> after.regs[r] == before.regs[r])
    && var addr := Address(inst, before);
       && (ok <==> Loadable(before, Funct3(inst), addr))
       && (ok ==> Delivers(before, Funct3(inst), addr, after.regs[Destination(inst)]))
  }

  lemma LoadDone(inst: bv32, before: Core, after: Core, ok: bool)
    requires LoadFacts(inst, before, after, ok) && !before.ecallPending
    ensures Keeps(inst, before, after) && Meets(inst, before, after, Following(before.pc), ok)
    ensures after.target == before.target
  {
    hide Opcode;
    hide Destination;
    hide Finds;
    hide AccessFits;
    hide Address;
    hide Keeps;
    hide Meets;
    OpcodesDiffer(inst);
    RegisterKeeps(inst, before, after.regs);
    LoadMeets(inst, before, after, ok);
  }

  lemma OpcodesDiffer(inst: bv32)
    ensures Opcode(inst) == LOAD ==> Opcode(inst) != BRANCH && Opcode(inst) != STORE && Opcode(inst) != SYSTEM
  {
  }

  /** What `Cpu.Compute` promises, about snapshots. */
  ghost predicate ComputeFacts(inst: bv32, before: Core, after: Core, next: bv32, ok: bool)
  {
    && |before.regs| == |after.regs| == REGISTERS && after == before.(regs := after.regs)
    && (forall r :: 0 <= r < REGISTERS && r != Destination(inst) ==> after.regs[r] == before.regs[r])
    && var result := Computed(inst, before.pc, X(inst, before), Y(inst, before));
       (ok <==> result.Some?) && (ok ==> result.value == Outcome(after.regs[Destination(inst)], next))
  }

  lemma ComputeDone(inst: bv32, before: Core, after: Core, next: bv32, ok: bool)
    requires ComputeFacts(inst, before, after, next, ok) && !before.ecallPending
    requires Opcode(inst) != BRANCH && Opcode(inst) != STORE && Opcode(inst) != SYSTEM && Opcode(inst) != LOAD
    ensures Keeps(inst, before, after) && Meets(inst, before, after, next, ok)
    ensures after.target == before.target
  {
    hide Opcode;
    hide Destination;
    hide Computed;
    hide Keeps;
    hide Meets;
    hide Rs1;
    hide Rs2;
    RegisterKeeps(inst, before, after.regs);
    ComputeMeets(inst, before, after, next, ok);
  }

  class Cpu {
    var bus: Bus?
    const regs: array<bv32>
    var pc: bv32
    var halted: bool
    var faulted: bool
    var ecallPending: bool
    var csr: Csrs

    ghost predicate Valid()
      reads this, bus, if bus == null then {} else bus.Reach()
    {
      regs.Length == REGISTERS && (bus != null ==> bus.Valid() && {this, regs} !! bus.Reach())
    }

    /** What every run keeps between two instructions while the core has not faulted. */
    predicate Steady()
      reads this, regs
    {
      regs.Length == REGISTERS && regs[0] == 0 && Aligned(pc) && csr.Tidy() && !ecallPending
    }

    ghost function Cells(): set<object>
      reads this, bus
    {
      {this, regs} + if bus == null then {} else bus.Cells()
    }

    function Snapshot(): (c: Core)
      reads this, regs, bus, if bus == null then {} else bus.Reach()
      ensures c.Coherent()
    {
      if bus == null then Core(pc, regs[..], csr, ecallPending, SystemBus.Target([], None), None)
      else Core(pc, regs[..], csr, ecallPending, bus.State(), bus.Panel())
    }

    constructor (bus: Bus)
      requires bus.Valid()
      ensures Valid() && Steady() && this.bus == bus && fresh(regs) && !halted && !faulted
    {
      this.bus, pc, halted, faulted, ecallPending, csr := bus, 0, false, false, false, Csrs(0, 0, 0, 0);
      regs := new bv32[REGISTERS](_ => 0);
    }

    method Reset(pc: bv32)
      requires Valid()
      modifies this, regs
      ensures Valid() && bus == old(bus) && this.pc == pc && !halted && !faulted
      ensures Aligned(pc) ==> Steady()
    {
      forall r | 0 <= r < REGISTERS { regs[r] := 0; }
      this.pc, halted, faulted, ecallPending, csr := pc, false, false, false, Csrs(0, 0, 0, 0);
    }

    method SetReg(index: int, value: bv32)
      requires Valid() && 0 <= index
      modifies regs
      ensures Valid()
      ensures forall r :: 0 <= r < REGISTERS ==> regs[r] == if r == index != 0 then value else old(regs[r])
    {
      if index != 0 && index < REGISTERS { regs[index] := value; }
    }

    method Halt()
      requires Valid()
      modifies this`halted, this`ecallPending
      ensures Valid() && halted && !ecallPending
    {
      halted, ecallPending := true, false;
    }

    method ClearEcall()
      requires Valid()
      modifies this`ecallPending
      ensures Valid() && !ecallPending
    {
      ecallPending := false;
    }

    /** The test with which every step starts. */
    predicate GuardFires()
      reads this
    {
      halted || faulted || ecallPending || bus == null || !Aligned(pc)
    }

    method WriteCsr(addr: bv32, value: bv32) returns (ok: bool)
      modifies this`csr
      ensures ok <==> CsrAt(old(csr), addr).Some?
      ensures old(csr.Tidy()) ==> csr.Tidy()
      ensures forall a :: CsrAt(csr, a) == if ok && a == addr then Some(Masked(addr, value)) else CsrAt(old(csr), a)
    {
      MaskAligns(value);
      hide Aligned;
      if addr == CSR_MSTATUS { csr := csr.(mstatus := value); }
      else if addr == CSR_MTVEC { csr := csr.(mtvec := value & !0x3); }
      else if addr == CSR_MEPC { csr := csr.(mepc := value & !0x3); }
      else if addr == CSR_MCAUSE { csr := csr.(mcause := value); }
      else { return false; }
      return true;
    }

    /** A load succeeds exactly where it should and finds exactly what is there, sign-extended or zero-extended; no other
        register changes. */
    method Load(funct3: bv32, rd: bv5, address: bv32) returns (ok: bool)
      requires Valid() && bus != null
      modifies regs
      ensures Valid()
      ensures ok <==> Loadable(old(Snapshot()), funct3, Unsigned(address))
      ensures ok ==> Delivers(old(Snapshot()), funct3, Unsigned(address), regs[rd])
      ensures forall r :: 0 <= r < REGISTERS && r != rd as int ==> regs[r] == old(regs[r])
    {
      hide SignExtend;
      hide Unsigned;
      hide FromUnsigned;
      hide Controller.Valid;
      hide NpuDevice.Valid;
      hide NpuDevice.Settled;
      hide Bytes;
      hide Lane;
      hide WindowWord;
      hide Bus.NpuCells;
      hide Controller.Scratch;
      var addr, value := Unsigned(address), 0;
      if funct3 == 0x0 || funct3 == 0x4 {
        ok, value := bus.Read8(addr);
        if ok { regs[rd] := if funct3 == 0 then SignExtend(FromUnsigned(value), 0x80) else FromUnsigned(value); }
      } else if funct3 == 0x1 || funct3 == 0x5 {
        ok, value := bus.Read16(addr);
        if ok { regs[rd] := if funct3 == 1 then SignExtend(FromUnsigned(value), 0x8000) else FromUnsigned(value); }
      } else if funct3 == 0x2 {
        ok, value := bus.Read32(addr);
        if ok { regs[rd] := FromUnsigned(value); }
      } else {
        ok := false;
      }
    }

    /** A store succeeds exactly where it should, and leaves exactly what it should; a refused one changes neither DRAM nor
        the console. */
    method Store(funct3: bv32, address: bv32, word: bv32) returns (ok: bool)
      requires Valid() && bus != null
      modifies bus.Cells()
      ensures Valid()
      ensures ok <==> Storable(old(Snapshot()), funct3, Unsigned(address), Unsigned(word))
      ensures if ok then Leaves(old(Snapshot()), funct3, Unsigned(address), Unsigned(word), bus.State(), bus.Panel())
              else bus.State() == old(bus.State())
    {
      hide Loaded;
      hide Startable;
      hide RunOutcome;
      hide Tileable;
      hide Poke;
      hide Unsigned;
      hide FromUnsigned;
      hide Controller.Valid;
      hide NpuDevice.Valid;
      hide NpuDevice.Settled;
      hide Bytes;
      hide Lane;
      hide Bus.Dram;
      hide Bus.State;
      hide Bus.Panel;
      hide InDram;
      hide Serves;
      hide Takes;
      var addr, value := Unsigned(address), Unsigned(word);
      if funct3 == 0x0 {
        ok := bus.Write8(addr, value % 0x100);
      } else if funct3 == 0x1 {
        ok := bus.Write16(addr, value % 0x1_0000);
      } else if funct3 == 0x2 {
        ok := bus.Write32(addr, value);
      } else {
        ok := false;
      }
    }

    /** Environment call, trap return and CSR accesses.  A call with a trap vector saves the address of the next
        instruction; a trap return never finds it misaligned. */
    method System(inst: bv32, next: bv32) returns (ok: bool, nextPc: bv32)
      requires Valid() && csr.Tidy() && !ecallPending && Aligned(next)
      modifies this`csr, this`ecallPending, regs
      ensures csr.Tidy() && Aligned(nextPc)
      ensures forall r :: 0 <= r < REGISTERS && (r != Rd(inst) as int || r == 0) ==> regs[r] == old(regs[r])
      ensures inst == ECALL ==> ok && regs[..] == old(regs[..])
      ensures inst == ECALL && old(csr.mtvec) != 0 ==>
                nextPc == csr.mtvec && csr == old(csr).(mepc := next, mcause := CAUSE_ECALL) && !ecallPending
      ensures inst == ECALL && old(csr.mtvec) == 0 ==> nextPc == next && csr == old(csr) && ecallPending
      ensures inst == MRET ==> ok && nextPc == csr.mepc && csr == old(csr) && regs[..] == old(regs[..])
      ensures inst != ECALL ==> !ecallPending
      ensures inst != ECALL && inst != MRET ==> nextPc == next && (ok <==> CsrKnown(inst, old(csr)))
      ensures inst != ECALL && inst != MRET && ok ==>
                && CsrStep(inst, old(csr), csr, old(regs[Rs1(inst)]))
                && (Rd(inst) != 0 ==> regs[Rd(inst)] == CsrAt(old(csr), inst >> 20).value)
    {
      nextPc := next;
      if inst == ECALL {
        if csr.mtvec != 0 {
          csr := csr.(mepc := next, mcause := CAUSE_ECALL);
          return true, csr.mtvec;
        }
        ecallPending := true;
        return true, next;
      }
      if inst == MRET {
        nextPc := csr.mepc;
        return Aligned(nextPc), nextPc;
      }
      hide Aligned;
      hide Funct3;
      hide Rd;
      hide Rs1;
      hide Masked;
      ok := AccessCsr(inst);
    }

    /** The register is read, then written. */
    method AccessCsr(inst: bv32) returns (ok: bool)
      requires Valid() && csr.Tidy()
      modifies this`csr, regs
      ensures csr.Tidy() && (ok <==> CsrKnown(inst, old(csr)))
      ensures forall r :: 0 <= r < REGISTERS && (r != Rd(inst) as int || r == 0) ==> regs[r] == old(regs[r])
      ensures ok ==>
                && CsrStep(inst, old(csr), csr, old(regs[Rs1(inst)]))
                && (Rd(inst) != 0 ==> regs[Rd(inst)] == CsrAt(old(csr), inst >> 20).value)
    {
      hide Aligned;
      hide Funct3;
      hide Rd;
      hide Rs1;
      hide Masked;
      hide CsrAt;
      hide CsrUpdated;
      hide CsrOperand;
      hide CsrWrites;
      var addr := inst >> 20;
      if !CsrForm(inst) { return false; }
      var found := CsrAt(csr, addr);
      if found.None? { return false; }
      var writes, value := NewCsrValue(inst, found.value, regs[Rs1(inst)]);
      if Rd(inst) != 0 { regs[Rd(inst)] := found.value; }
      if !writes { return true; }
      ok := WriteCsr(addr, value);
    }

    /** Instructions that only compute a register and the next address. */
    method Compute(inst: bv32, next: bv32) returns (ok: bool, nextPc: bv32)
      requires regs.Length == REGISTERS && next == Following(pc) && Aligned(pc)
      modifies regs
      ensures ok ==> Aligned(nextPc)
      ensures forall r :: 0 <= r < REGISTERS && r != Rd(inst) as int ==> regs[r] == old(regs[r])
      ensures var result := Computed(inst, pc, old(regs[Rs1(inst)]), old(regs[Rs2(inst)]));
              (ok <==> result.Some?) && (ok ==> result.value == Outcome(regs[Rd(inst)], nextPc))
    {
      hide Computed;
      hide Rd;
      hide Rs1;
      hide Rs2;
      hide Aligned;
      var known, value;
      known, value, nextPc := Calculate(inst, pc, regs[Rs1(inst)], regs[Rs2(inst)]);
      if known { regs[Rd(inst)] := value; }
      ok := known && Aligned(nextPc);
    }

    /** One instruction word, by opcode; a call and a trap return never fail. */
    method Execute(inst: bv32, next: bv32) returns (ok: bool, nextPc: bv32)
      requires Valid() && bus != null && Steady() && next == Following(pc)
      modifies this`csr, this`ecallPending, regs, bus.Cells()
      ensures Valid() && csr.Tidy() && (ok ==> Aligned(nextPc))
      ensures bus == old(bus) && pc == old(pc) && halted == old(halted) && faulted == old(faulted)
      ensures inst == ECALL || inst == MRET ==> ok
      ensures ok ==> Keeps(inst, old(Snapshot()), Snapshot())
      ensures Meets(inst, old(Snapshot()), Snapshot(), nextPc, ok)
      ensures !ok ==> Snapshot().target == old(Snapshot()).target
    {
      SystemOpcodes();
      hide Opcode;
      hide Keeps;
      hide Meets;
      hide Aligned;
      hide Bus.Valid;
      hide Bus.NpuCells;
      hide Controller.Scratch;
      hide Bus.Cells;
      hide Bus.State;
      hide Bus.Panel;
      var opcode := Opcode(inst);
      if opcode == BRANCH { ok, nextPc := ExecuteBranch(inst, next); }
      else if opcode == STORE { ok, nextPc := ExecuteStore(inst, next); }
      else if opcode == SYSTEM { ok, nextPc := ExecuteSystem(inst, next); }
      else if opcode == LOAD { ok, nextPc := ExecuteLoad(inst, next); }
      else { ok, nextPc := ExecuteCompute(inst, next); }
    }

    method ExecuteBranch(inst: bv32, next: bv32) returns (ok: bool, nextPc: bv32)
      requires Valid() && bus != null && Steady() && next == Following(pc) && Opcode(inst) == BRANCH
      ensures Valid() && csr.Tidy() && (ok ==> Aligned(nextPc))
      ensures bus == old(bus) && pc == old(pc) && halted == old(halted) && faulted == old(faulted)
      ensures ok ==> Keeps(inst, old(Snapshot()), Snapshot())
      ensures Meets(inst, old(Snapshot()), Snapshot(), nextPc, ok)
      ensures !ok ==> Snapshot().target == old(Snapshot()).target
    {
      hide Bus.Reach;
      NextAligned(pc);
      hide Keeps;
      hide Meets;
      hide WritesNoRegister;
      hide Opcode;
      hide Rd;
      hide Funct3;
      hide Aligned;
      hide SignExtend;
      hide ImmI;
      hide ImmS;
      hide Bus.Valid;
      hide Bus.NpuCells;
      hide Controller.Scratch;
      hide Bus.Cells;
      hide Bus.State;
      hide Bus.Panel;
      hide BranchGoes;
      assert allocated(bus.Reach());
      ok, nextPc := Branch(inst, pc, regs[Rs1(inst)], regs[Rs2(inst)]);
      BranchKeeps(inst, Snapshot());
      BranchMeets(inst, Snapshot(), nextPc, ok);
    }

    method ExecuteStore(inst: bv32, next: bv32) returns (ok: bool, nextPc: bv32)
      requires Valid() && bus != null && Steady() && next == Following(pc) && Opcode(inst) == STORE
      modifies bus.Cells()
      ensures Valid() && csr.Tidy() && (ok ==> Aligned(nextPc))
      ensures bus == old(bus) && pc == old(pc) && halted == old(halted) && faulted == old(faulted)
      ensures ok ==> Keeps(inst, old(Snapshot()), Snapshot())
      ensures Meets(inst, old(Snapshot()), Snapshot(), nextPc, ok)
      ensures !ok ==> Snapshot().target == old(Snapshot()).target
    {
      hide Plus;
      hide InNpu;
      hide InConsole;
      hide AccessFits;
      hide AfterStore;
      hide Storable;
      hide Leaves;
      hide Unsigned;
      hide Rs1;
      hide Rs2;
      hide FromUnsigned;
      hide Controller.Valid;
      hide NpuDevice.Valid;
      hide NpuDevice.Settled;
      hide Bus.Dram;
      hide Bus.Text;
      NextAligned(pc);
      hide Keeps;
      hide Meets;
      hide WritesNoRegister;
      hide Opcode;
      hide Rd;
      hide Funct3;
      hide Aligned;
      hide SignExtend;
      hide ImmI;
      hide ImmS;
      hide Bus.Valid;
      hide Bus.NpuCells;
      hide Controller.Scratch;
      hide Bus.Cells;
      hide Bus.State;
      hide Bus.Panel;
      ghost var before := Snapshot();
      var addr := Plus(regs[Rs1(inst)], ImmS(inst));
      AddressOf(inst, before, regs[Rs1(inst)]);
      hide Address;
      assert before.target.bytes == bus.Dram();
      assert regs[Rs2(inst)] == Y(inst, before);
      ok := Store(Funct3(inst), addr, regs[Rs2(inst)]);
      nextPc := next;
      StoreKeeps(inst, before, bus.State(), bus.Panel());
      StoreMeets(inst, before, bus.State(), bus.Panel(), ok);
    }

    method ExecuteSystem(inst: bv32, next: bv32) returns (ok: bool, nextPc: bv32)
      requires Valid() && bus != null && Steady() && next == Following(pc) && Opcode(inst) == SYSTEM
      modifies this`csr, this`ecallPending, regs
      ensures Valid() && csr.Tidy() && (ok ==> Aligned(nextPc))
      ensures bus == old(bus) && pc == old(pc) && halted == old(halted) && faulted == old(faulted)
      ensures inst == ECALL || inst == MRET ==> ok
      ensures ok ==> Keeps(inst, old(Snapshot()), Snapshot())
      ensures Meets(inst, old(Snapshot()), Snapshot(), nextPc, ok)
      ensures !ok ==> Snapshot().target == old(Snapshot()).target
    {
      hide Keeps;
      hide Meets;
      hide SystemFacts;
      hide Opcode;
      hide Aligned;
      hide Bus.Valid;
      hide Bus.NpuCells;
      hide Controller.Scratch;
      hide Bus.Cells;
      hide Bus.State;
      hide Bus.Panel;
      ghost var before := Snapshot();
      ok, nextPc := SystemStep(inst, next);
      SystemDone(inst, before, Snapshot(), nextPc, ok);
    }

    method SystemStep(inst: bv32, next: bv32) returns (ok: bool, nextPc: bv32)
      requires Valid() && bus != null && Steady() && next == Following(pc) && Opcode(inst) == SYSTEM
      modifies this`csr, this`ecallPending, regs
      ensures Valid() && csr.Tidy() && Aligned(nextPc) && (inst == ECALL || inst == MRET ==> ok)
      ensures SystemFacts(inst, old(Snapshot()), Snapshot(), nextPc, ok)
    {
      hide Bus.Reach;
      hide Controller.Valid;
      hide NpuDevice.Valid;
      hide NpuDevice.Settled;
      hide Bus.Dram;
      hide Bus.Text;
      hide CsrStep;
      hide CsrAt;
      hide CsrKnown;
      hide Masked;
      NextAligned(pc);
      hide Opcode;
      hide Rd;
      hide Rs1;
      hide Rs2;
      hide Destination;
      hide Aligned;
      hide Bus.Valid;
      hide Bus.NpuCells;
      hide Controller.Scratch;
      hide Bus.Cells;
      hide Bus.State;
      hide Bus.Panel;
      assert allocated(bus.Reach());
      ghost var before := Snapshot();
      assert X(inst, before) == regs[Rs1(inst)];
      hide X;
      ok, nextPc := System(inst, next);
      DestinationIsRd(inst);
    }

    method ExecuteLoad(inst: bv32, next: bv32) returns (ok: bool, nextPc: bv32)
      requires Valid() && bus != null && Steady() && next == Following(pc) && Opcode(inst) == LOAD
      modifies regs
      ensures Valid() && csr.Tidy() && (ok ==> Aligned(nextPc))
      ensures bus == old(bus) && pc == old(pc) && halted == old(halted) && faulted == old(faulted)
      ensures ok ==> Keeps(inst, old(Snapshot()), Snapshot())
      ensures Meets(inst, old(Snapshot()), Snapshot(), nextPc, ok)
      ensures !ok ==> Snapshot().target == old(Snapshot()).target
    {
      NextAligned(pc);
      hide Keeps;
      hide Meets;
      hide LoadFacts;
      hide Opcode;
      hide Aligned;
      hide Bus.Valid;
      hide Bus.NpuCells;
      hide Controller.Scratch;
      hide Bus.Cells;
      hide Bus.State;
      hide Bus.Panel;
      hide Bus.Reach;
      ghost var before := Snapshot();
      ok := LoadStep(inst);
      nextPc := next;
      LoadDone(inst, before, Snapshot(), ok);
    }

    method LoadStep(inst: bv32) returns (ok: bool)
      requires Valid() && bus != null && Steady() && Opcode(inst) == LOAD
      modifies regs
      ensures Valid() && LoadFacts(inst, old(Snapshot()), Snapshot(), ok)
    {
      hide Plus;
      hide InNpu;
      hide InConsole;
      hide Finds;
      hide AccessFits;
      hide Unsigned;
      hide FromUnsigned;
      hide Opcode;
      hide Rd;
      hide Rs1;
      hide Funct3;
      hide Destination;
      hide Aligned;
      hide ImmI;
      hide Controller.Valid;
      hide NpuDevice.Valid;
      hide NpuDevice.Settled;
      hide Bus.Valid;
      hide Bus.NpuCells;
      hide Controller.Scratch;
      hide Bus.Cells;
      hide Bus.State;
      hide Bus.Panel;
      hide Bus.Dram;
      hide Bus.Text;
      hide Bus.Reach;
      assert allocated(bus.Reach());
      ghost var before := Snapshot();
      var addr := Plus(regs[Rs1(inst)], ImmI(inst));
      AddressOf(inst, before, regs[Rs1(inst)]);
      hide Address;
      ok := Load(Funct3(inst), Rd(inst), addr);
      DestinationIsRd(inst);
    }

    method ExecuteCompute(inst: bv32, next: bv32) returns (ok: bool, nextPc: bv32)
      requires Valid() && bus != null && Steady() && next == Following(pc)
      requires Opcode(inst) != BRANCH && Opcode(inst) != STORE && Opcode(inst) != SYSTEM && Opcode(inst) != LOAD
      modifies regs
      ensures Valid() && csr.Tidy() && (ok ==> Aligned(nextPc))
      ensures bus == old(bus) && pc == old(pc) && halted == old(halted) && faulted == old(faulted)
      ensures ok ==> Keeps(inst, old(Snapshot()), Snapshot())
      ensures Meets(inst, old(Snapshot()), Snapshot(), nextPc, ok)
      ensures !ok ==> Snapshot().target == old(Snapshot()).target
    {
      hide Keeps;
      hide Meets;
      hide ComputeFacts;
      hide Opcode;
      hide Aligned;
      hide Bus.Valid;
      hide Bus.NpuCells;
      hide Controller.Scratch;
      hide Bus.Cells;
      hide Bus.State;
      hide Bus.Panel;
      ghost var before := Snapshot();
      ok, nextPc := ComputeStep(inst, next);
      ComputeDone(inst, before, Snapshot(), nextPc, ok);
    }

    method ComputeStep(inst: bv32, next: bv32) returns (ok: bool, nextPc: bv32)
      requires Valid() && bus != null && Steady() && next == Following(pc)
      modifies regs
      ensures Valid() && (ok ==> Aligned(nextPc))
      ensures ComputeFacts(inst, old(Snapshot()), Snapshot(), nextPc, ok)
    {
      hide Bus.Reach;
      hide Controller.Valid;
      hide NpuDevice.Valid;
      hide NpuDevice.Settled;
      hide Bus.Dram;
      hide Bus.Text;
      hide Computed;
      NextAligned(pc);
      hide Opcode;
      hide Rd;
      hide Rs1;
      hide Rs2;
      hide Destination;
      hide Aligned;
      hide Bus.Valid;
      hide Bus.NpuCells;
      hide Controller.Scratch;
      hide Bus.Cells;
      hide Bus.State;
      hide Bus.Panel;
      assert allocated(bus.Reach());
      ghost var before := Snapshot();
      assert X(inst, before) == regs[Rs1(inst)] && Y(inst, before) == regs[Rs2(inst)];
      hide X;
      hide Y;
      ok, nextPc := Compute(inst, next);
      DestinationIsRd(inst);
    }

    method Fetch() returns (ok: bool, inst: bv32)
      requires Valid() && bus != null
      ensures Valid() && Snapshot() == old(Snapshot())
      ensures ok <==> Loadable(Snapshot(), 0x2, Unsigned(pc))
      ensures ok ==> Delivers(Snapshot(), 0x2, Unsigned(pc), inst)
    {
      hide Unsigned;
      hide FromUnsigned;
      hide Controller.Valid;
      hide NpuDevice.Valid;
      hide NpuDevice.Settled;
      hide Bytes;
      hide Lane;
      hide WindowWord;
      hide Bus.NpuCells;
      hide Controller.Scratch;
      hide Bus.Dram;
      hide Bus.Cells;
      var word;
      ok, word := bus.Read32(Unsigned(pc));
      inst := if ok then FromUnsigned(word) else 0;
    }

    /** One instruction.  It succeeds only if the guard lets it through, and then exactly when the word fetched is legal;
        success describes the step completely, failure faults the core, unless it was halted, and leaves DRAM and the
        console as they were. */
    method Step() returns (ok: bool, ghost inst: bv32)
      requires Valid()
      requires !GuardFires() ==> Steady()
      modifies Cells()
      ensures Valid() && bus == old(bus) && halted == old(halted)
      ensures ok ==> !old(halted) && !faulted && bus != null && regs[0] == 0 && Aligned(pc) && csr.Tidy()
      ensures ok ==> Keeps(inst, old(Snapshot()), Snapshot()) && Meets(inst, old(Snapshot()), Snapshot(), pc, true)
      ensures old(GuardFires()) ==> !ok
      ensures !old(GuardFires()) ==> Decided(old(Snapshot()), inst, ok)
      ensures !ok ==> faulted || halted
      ensures old(GuardFires()) ==> Snapshot() == old(Snapshot())
      ensures !ok ==> Snapshot().target == old(Snapshot()).target
    {
      hide Keeps;
      hide Meets;
      hide Finds;
      hide AccessFits;
      hide Legal;
      hide Loadable;
      hide Delivers;
      hide Unsigned;
      hide Bus.Valid;
      hide Bus.NpuCells;
      hide Controller.Scratch;
      hide Bus.Cells;
      hide Bus.State;
      hide Bus.Panel;
      hide Bus.Dram;
      ok, inst := !GuardFires(), 0;
      if ok {
        NextAligned(pc);
        hide Aligned;
        ghost var before := Snapshot();
        var word, next;
        ok, word := Fetch();
        inst := word;
        if ok {
          ok, next := Execute(word, Following(pc));
          MeetsDecides(word, before, Snapshot(), next, ok);
          if ok { Retire(word, next, before); }
        }
        faulted := !ok;
      } else {
        faulted := !halted;
      }
    }

    /** After an instruction x0 reads zero again and pc moves on. */
    method Retire(inst: bv32, next: bv32, ghost before: Core)
      requires Valid() && bus != null && Keeps(inst, before, Snapshot()) && Meets(inst, before, Snapshot(), next, true)
      modifies this`pc, regs
      ensures Valid() && bus == old(bus) && pc == next && regs[0] == 0
      ensures Keeps(inst, before, Snapshot()) && Meets(inst, before, Snapshot(), next, true)
    {
      hide Keeps;
      hide Meets;
      hide Bus.Valid;
      hide Bus.State;
      hide Bus.Panel;
      KeepsAfterRetiring(inst, before, Snapshot(), next);
      MeetsAfterRetiring(inst, before, Snapshot(), next);
      ghost var after := Snapshot();
      regs[0] := 0;
      pc := next;
      assert Snapshot() == after.(pc := next, regs := after.regs[0 := 0]);
    }
  }
}
