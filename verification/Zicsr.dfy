/** Environment calls, trap returns and accesses to control and status registers by the book (chapter 9 of the RISC-V
    Unprivileged ISA, chapter 3 of the Privileged Architecture): told by their bits and by what they do to numbers. */
module Zicsr {
  import opened Words
  import opened Options
  import opened Numbers
  import opened Encoding
  import opened Quotients
  import opened BitFacts
  import opened Isa
  import opened Processor
  import opened Rv32i

  lemma AllBitsSet(i: nat)
    requires i < 32
    ensures HasBit(0xffff_ffff, i) && (HasBit(0xffff_fffc, i) <==> i >= 2)
  {
    AllOnes(32, i);
    ThirtyTwo();
    hide PowerOfTwo;
    if i >= 2 {
      AllOnes(30, i - 2);
      TwoFirst(0xffff_fffc, i - 1);
      TwoFirst(0x7fff_fffe, i - 2);
    } else {
      TwoBits();
    }
  }

  lemma ThirtyTwo()
    ensures PowerOfTwo(32) == TWO32 && PowerOfTwo(30) == 0x4000_0000
  {
    assert PowerOfTwo(8) == 0x100 && PowerOfTwo(16) == 0x1_0000 && PowerOfTwo(24) == 0x100_0000;
  }

  lemma TwoBits()
    ensures !HasBit(0xffff_fffc, 0) && !HasBit(0xffff_fffc, 1)
  {
  }

  lemma TwoFirst(x: int, i: nat)
    ensures HasBit(x, i + 1) <==> HasBit(x / 2, i)
  {
    HalfFirst(x, PowerOfTwo(i));
  }

  lemma CsrMasks()
    ensures Unsigned(0xffff_ffff) == 0xffff_ffff && Unsigned(0xffff_fffc) == 0xffff_fffc
  {
  }

  lemma ClearIsAnd(value: bv32, mask: bv32) ensures ClearBits(value, mask) == And(value, !mask) {}

  lemma FlipIsNot(mask: bv32) ensures Xor(mask, 0xffff_ffff) == !mask { NotIsXor(mask); }

  lemma ClearUnfolds(value: bv32, mask: bv32)
    ensures ClearBits(value, mask) == And(value, Xor(mask, 0xffff_ffff))
  {
    hide ClearBits;
    hide And;
    hide Xor;
    ClearIsAnd(value, mask);
    FlipIsNot(mask);
  }

  lemma MaskedUnfolds(value: bv32) ensures value & !0x3 == And(value, 0xffff_fffc) {}

  /** Bit i of what an operation makes of a CSR: written, set or cleared. */
  predicate CsrBit(form: int, value: int, operand: int, i: nat)
  {
    if form == 1 then HasBit(operand, i)
    else if form == 2 then HasBit(value, i) || HasBit(operand, i)
    else HasBit(value, i) && !HasBit(operand, i)
  }

  lemma CsrBitIs(form: int, value: bv32, operand: bv32, i: nat)
    requires 1 <= form <= 3 && i < 32
    ensures var result := if form == 1 then operand else if form == 2 then Or(value, operand) else ClearBits(value, operand);
            && (HasBit(Unsigned(result), i) <==> CsrBit(form, Unsigned(value), Unsigned(operand), i))
            && (HasBit(Unsigned(And(result, 0xffff_fffc)), i) <==> i >= 2 && CsrBit(form, Unsigned(value), Unsigned(operand), i))
  {
    CsrMasks();
    hide Unsigned;
    hide HasBit;
    hide And;
    hide Or;
    hide Xor;
    hide ClearBits;
    AllBitsSet(i);
    ClearUnfolds(value, operand);
    BitwiseIs(operand, 0xffff_ffff, i);
    BitwiseIs(value, Xor(operand, 0xffff_ffff), i);
    BitwiseIs(value, operand, i);
    var result := if form == 1 then operand else if form == 2 then Or(value, operand) else ClearBits(value, operand);
    BitwiseIs(result, 0xffff_fffc, i);
  }

  // ----- the registers -----

  /** A register by its number. */
  function CsrNumber(csr: Csrs, number: int): Option<int>
  {
    if number == 0x300 then Some(Unsigned(csr.mstatus))
    else if number == 0x305 then Some(Unsigned(csr.mtvec))
    else if number == 0x341 then Some(Unsigned(csr.mepc))
    else if number == 0x342 then Some(Unsigned(csr.mcause))
    else None
  }

  lemma CsrAddresses()
    ensures Unsigned(CSR_MSTATUS) == 0x300 && Unsigned(CSR_MTVEC) == 0x305 && Unsigned(CSR_MEPC) == 0x341
    ensures Unsigned(CSR_MCAUSE) == 0x342 && Unsigned(CAUSE_ECALL) == 11
    ensures Unsigned(ECALL) == 0x73 && Unsigned(MRET) == 0x3020_0073
  {
  }

  lemma SameAddress(addr: bv32, code: bv32)
    ensures addr == code <==> Unsigned(addr) == Unsigned(code)
  {
    hide Unsigned;
    if Unsigned(addr) == Unsigned(code) { SameNumber(addr, code); }
  }

  lemma CsrAtIs(csr: Csrs, addr: bv32)
    ensures CsrAt(csr, addr).Some? <==> CsrNumber(csr, Unsigned(addr)).Some?
    ensures CsrAt(csr, addr).Some? ==> CsrNumber(csr, Unsigned(addr)) == Some(Unsigned(CsrAt(csr, addr).value))
    ensures (addr == CSR_MTVEC || addr == CSR_MEPC) <==> (Unsigned(addr) == 0x305 || Unsigned(addr) == 0x341)
  {
    CsrAddresses();
    hide Unsigned;
    SameAddress(addr, CSR_MSTATUS);
    SameAddress(addr, CSR_MTVEC);
    SameAddress(addr, CSR_MEPC);
    SameAddress(addr, CSR_MCAUSE);
  }

  lemma NumberUnfolds(inst: bv32)
    ensures inst >> 20 == Right(inst, 20)
  {
  }

  lemma NumberIs(inst: bv32)
    ensures Unsigned(inst >> 20) == Field(inst, 20, 12)
  {
    hide Unsigned;
    hide Right;
    Powers();
    NumberUnfolds(inst);
    RightIs(inst, 20);
    UpperFields(inst);
  }

  // ----- what an access does -----

  /** The operand of a CSR instruction: a register, or the number in its place. */
  function Operand(inst: bv32, before: Core): int
    requires |before.regs| == 32
  {
    if Field(inst, 12, 3) >= 4 then Rs1Of(inst) else Reg(before, Rs1Of(inst))
  }

  /** CSRRW always writes; CSRRS and CSRRC with operand field 0 do not. */
  predicate Writes(inst: bv32)
  {
    Field(inst, 12, 3) == 1 || Field(inst, 12, 3) == 5 || Rs1Of(inst) != 0
  }

  /** Register `number` after an access to it that writes: bit by bit, and the low two bits of an address stay clear. */
  ghost predicate NewValue(inst: bv32, before: Core, number: int, value: int)
    requires |before.regs| == 32 && CsrNumber(before.csr, number).Some?
  {
    var old' := CsrNumber(before.csr, number).value;
    forall i: nat :: i < 32 ==>
      (HasBit(value, i) <==>
         (number == 0x305 || number == 0x341 ==> i >= 2)
         && CsrBit(Field(inst, 12, 3) % 4, old', Operand(inst, before), i))
  }

  lemma FormNumbers(inst: bv32)
    ensures Field(inst, 12, 3) < 8
    ensures Funct3(inst) & 3 == 0 <==> Field(inst, 12, 3) == 0 || Field(inst, 12, 3) == 4
    ensures Funct3(inst) & 3 == 1 <==> Field(inst, 12, 3) == 1 || Field(inst, 12, 3) == 5
    ensures Funct3(inst) & 3 == 2 <==> Field(inst, 12, 3) == 2 || Field(inst, 12, 3) == 6
    ensures Funct3(inst) & 4 != 0 <==> Field(inst, 12, 3) >= 4
  {
    CsrForms(inst);
    Funct3Numbers(inst);
    OtherFunct3Numbers(inst);
    Powers();
    hide Field;
    hide Funct3;
    hide PowerOfTwo;
  }

  lemma Rs1Word(inst: bv32)
    ensures Unsigned(Rs1(inst) as bv32) == Rs1Of(inst) && (Rs1(inst) == 0 <==> Rs1Of(inst) == 0)
  {
    hide Unsigned;
    hide Field;
    FieldsAre(inst);
    SmallNumber(Rs1(inst));
    ZeroRegister(Rs1(inst));
    hide Rs1;
  }

  lemma ZeroRegister(r: bv5)
    ensures r == 0 <==> r as int == 0
  {
  }

  lemma OperandIs(inst: bv32, before: Core)
    requires |before.regs| == 32
    ensures Unsigned(CsrOperand(inst, X(inst, before))) == Operand(inst, before)
  {
    hide Unsigned;
    hide Field;
    hide Rs1;
    hide Funct3;
    Rs1Word(inst);
    FormNumbers(inst);
    Registers(inst, before);
    hide X;
  }

  lemma WritesIs(inst: bv32)
    ensures CsrWrites(inst) <==> Writes(inst)
  {
    hide Field;
    hide Rs1;
    hide Funct3;
    Rs1Word(inst);
    FormNumbers(inst);
  }

  lemma UpdatedIs(inst: bv32, value: bv32, operand: bv32)
    requires CsrForm(inst)
    ensures var form := Field(inst, 12, 3) % 4;
            1 <= form <= 3
            && CsrUpdated(inst, value, operand)
               == if form == 1 then operand else if form == 2 then Or(value, operand) else ClearBits(value, operand)
  {
    FormNumbers(inst);
    hide Field;
    hide Funct3;
    hide Or;
    hide ClearBits;
  }

  lemma MaskedIs(csr: Csrs, addr: bv32, value: bv32)
    ensures Masked(addr, value) == if Unsigned(addr) == 0x305 || Unsigned(addr) == 0x341 then And(value, 0xffff_fffc) else value
  {
    CsrAtIs(csr, addr);
    MaskedUnfolds(value);
    hide Unsigned;
    hide And;
  }

  /** What is written, by the reference, is what the book says. */
  lemma NewValueIs(inst: bv32, before: Core)
    requires |before.regs| == 32 && CsrKnown(inst, before.csr)
    ensures CsrNumber(before.csr, Field(inst, 20, 12)).Some?
    ensures var addr := inst >> 20;
            var updated := CsrUpdated(inst, CsrAt(before.csr, addr).value, CsrOperand(inst, X(inst, before)));
            NewValue(inst, before, Field(inst, 20, 12), Unsigned(Masked(addr, updated)))
  {
    hide Unsigned;
    hide Field;
    hide CsrAt;
    hide CsrNumber;
    hide CsrOperand;
    hide CsrForm;
    hide Operand;
    hide X;
    hide Masked;
    hide CsrUpdated;
    hide And;
    hide Or;
    hide ClearBits;
    hide HasBit;
    hide CsrBit;
    var addr, number := inst >> 20, Field(inst, 20, 12);
    NumberIs(inst);
    CsrAtIs(before.csr, addr);
    OperandIs(inst, before);
    var value, operand := CsrAt(before.csr, addr).value, CsrOperand(inst, X(inst, before));
    UpdatedIs(inst, value, operand);
    var updated := CsrUpdated(inst, value, operand);
    MaskedIs(before.csr, addr, updated);
    var form := Field(inst, 12, 3) % 4;
    forall i: nat | i < 32
      ensures HasBit(Unsigned(Masked(addr, updated)), i) <==>
                (number == 0x305 || number == 0x341 ==> i >= 2)
                && CsrBit(form, CsrNumber(before.csr, number).value, Operand(inst, before), i)
    {
      CsrBitIs(form, value, operand, i);
    }
  }

  /** ECALL, MRET, CSRRW, CSRRS, CSRRC and their immediate forms. */
  lemma SystemInstruction(inst: bv32, before: Core, after: Core, next: bv32)
    requires |before.regs| == |after.regs| == 32 && Field(inst, 0, 7) == 0x73
    ensures var f3, number := Field(inst, 12, 3), Field(inst, 20, 12);
            Legal(inst, before) <==>
              || Unsigned(inst) == 0x73 || Unsigned(inst) == 0x3020_0073
              || (f3 != 0 && f3 != 4 && CsrNumber(before.csr, number).Some?)
    ensures Legal(inst, before) && Does(inst, before, after, next) ==> SystemDoes(inst, before, after, next)
  {
    hide Unsigned;
    hide Field;
    hide Opcode;
    hide Legal;
    hide Does;
    hide CsrAt;
    hide CsrNumber;
    hide SystemDoes;
    hide X;
    Codes();
    OpcodeIs(inst, SYSTEM);
    CsrAddresses();
    SameAddress(inst, ECALL);
    SameAddress(inst, MRET);
    SystemLegal(inst, before);
    NumberIs(inst);
    CsrAtIs(before.csr, inst >> 20);
    FormNumbers(inst);
    hide Funct3;
    if Legal(inst, before) && Does(inst, before, after, next) { SystemEffect(inst, before, after, next); }
  }

  /** The effect of a system instruction, in numbers. */
  ghost predicate SystemDoes(inst: bv32, before: Core, after: Core, next: bv32)
    requires |before.regs| == |after.regs| == 32
  {
    var number := Field(inst, 20, 12);
    if Unsigned(inst) == 0x3020_0073 then next == before.csr.mepc && after.csr == before.csr
    else if Unsigned(inst) == 0x73 then
      if Unsigned(before.csr.mtvec) == 0 then GoesOn(before, next) && after.csr == before.csr
      else
        && next == before.csr.mtvec && after.csr.mstatus == before.csr.mstatus && after.csr.mtvec == before.csr.mtvec
        && Unsigned(after.csr.mepc) == (Unsigned(before.pc) + 4) % TWO32 && Unsigned(after.csr.mcause) == 11
    else
      && GoesOn(before, next) && CsrNumber(before.csr, number).Some?
      && (RdOf(inst) != 0 ==> Some(Reg(after, RdOf(inst))) == CsrNumber(before.csr, number))
      && (forall n :: n != number || !Writes(inst) ==> CsrNumber(after.csr, n) == CsrNumber(before.csr, n))
      && (Writes(inst) ==> CsrNumber(after.csr, number).Some?
                           && NewValue(inst, before, number, CsrNumber(after.csr, number).value))
  }

  lemma SystemLegal(inst: bv32, before: Core)
    requires |before.regs| == 32 && Opcode(inst) == SYSTEM
    ensures Legal(inst, before) <==> inst == ECALL || inst == MRET || CsrKnown(inst, before.csr)
  {
    hide Opcode;
    hide CsrKnown;
    hide X;
    hide Y;
    hide Address;
  }

  lemma SystemStepDoes(inst: bv32, before: Core, after: Core, next: bv32)
    requires |before.regs| == |after.regs| == 32 && Opcode(inst) == SYSTEM && Legal(inst, before)
    requires Does(inst, before, after, next)
    ensures inst == MRET ==> next == before.csr.mepc && after.csr == before.csr
    ensures inst == ECALL && before.csr.mtvec != 0 ==>
              next == before.csr.mtvec && after.csr == before.csr.(mepc := Following(before.pc), mcause := CAUSE_ECALL)
    ensures inst == ECALL && before.csr.mtvec == 0 ==> next == Following(before.pc) && after.csr == before.csr
    ensures inst != ECALL && inst != MRET ==>
              && CsrKnown(inst, before.csr) && next == Following(before.pc)
              && CsrStep(inst, before.csr, after.csr, X(inst, before))
              && (RdOf(inst) != 0 ==> after.regs[RdOf(inst)] == CsrAt(before.csr, inst >> 20).value)
  {
    Registers(inst, before);
    hide Unsigned;
    hide Field;
    hide Opcode;
    hide CsrKnown;
    hide CsrStep;
    hide CsrAt;
    hide X;
    hide Y;
    hide Address;
    hide Destination;
    hide Following;
  }

  /** Every number of twelve bits is the number of a word. */
  lemma OtherCsrsKept(before: Csrs, after: Csrs, addr: bv32, n: int)
    requires forall a :: a != addr ==> CsrAt(after, a) == CsrAt(before, a)
    requires n != Unsigned(addr)
    ensures CsrNumber(after, n) == CsrNumber(before, n)
  {
    CsrAddresses();
    if n == 0x300 { CsrKept(before, after, addr, CSR_MSTATUS); }
    else if n == 0x305 { CsrKept(before, after, addr, CSR_MTVEC); }
    else if n == 0x341 { CsrKept(before, after, addr, CSR_MEPC); }
    else if n == 0x342 { CsrKept(before, after, addr, CSR_MCAUSE); }
  }

  lemma CsrKept(before: Csrs, after: Csrs, addr: bv32, code: bv32)
    requires forall a :: a != addr ==> CsrAt(after, a) == CsrAt(before, a)
    requires Unsigned(code) != Unsigned(addr)
    ensures CsrAt(after, code) == CsrAt(before, code)
  {
    hide CsrAt;
  }

  lemma CsrEffect(inst: bv32, before: Core, after: Core)
    requires |before.regs| == |after.regs| == 32 && CsrKnown(inst, before.csr)
    requires CsrStep(inst, before.csr, after.csr, X(inst, before))
    ensures var number := Field(inst, 20, 12);
            && (forall n :: n != number || !Writes(inst) ==> CsrNumber(after.csr, n) == CsrNumber(before.csr, n))
            && (Writes(inst) ==> CsrNumber(after.csr, number).Some? && CsrNumber(before.csr, number).Some?
                                 && NewValue(inst, before, number, CsrNumber(after.csr, number).value))
  {
    hide Unsigned;
    hide Field;
    hide CsrAt;
    hide CsrNumber;
    hide CsrForm;
    hide CsrUpdated;
    hide CsrOperand;
    hide CsrWrites;
    hide Masked;
    hide Writes;
    hide NewValue;
    hide X;
    var addr, number := inst >> 20, Field(inst, 20, 12);
    NumberIs(inst);
    WritesIs(inst);
    CsrAtIs(before.csr, addr);
    CsrAtIs(after.csr, addr);
    if Writes(inst) { NewValueIs(inst, before); }
    forall n | n != number || !Writes(inst) ensures CsrNumber(after.csr, n) == CsrNumber(before.csr, n) {
      if n != number { OtherCsrsKept(before.csr, after.csr, addr, n); }
    }
  }

  lemma SystemEffect(inst: bv32, before: Core, after: Core, next: bv32)
    requires |before.regs| == |after.regs| == 32 && Opcode(inst) == SYSTEM && Legal(inst, before)
    requires Does(inst, before, after, next)
    ensures SystemDoes(inst, before, after, next)
  {
    hide Unsigned;
    hide Field;
    hide Opcode;
    hide CsrKnown;
    hide CsrStep;
    hide CsrAt;
    hide CsrNumber;
    hide Legal;
    hide Does;
    hide Writes;
    hide NewValue;
    hide X;
    hide Following;
    CsrAddresses();
    SameAddress(inst, ECALL);
    SameAddress(inst, MRET);
    SameAddress(before.csr.mtvec, 0);
    Zero();
    FourAfter(before.pc);
    SystemStepDoes(inst, before, after, next);
    if inst != ECALL && inst != MRET {
      NumberIs(inst);
      CsrFound(inst, before.csr);
      CsrEffect(inst, before, after);
    }
  }

  lemma CsrFound(inst: bv32, csr: Csrs)
    requires CsrKnown(inst, csr)
    ensures CsrAt(csr, inst >> 20).Some?
    ensures CsrNumber(csr, Field(inst, 20, 12)) == Some(Unsigned(CsrAt(csr, inst >> 20).value))
  {
    hide Unsigned;
    hide Field;
    hide CsrForm;
    NumberIs(inst);
    CsrAtIs(csr, inst >> 20);
    hide CsrAt;
    hide CsrNumber;
  }
}
