/** RV32I by the book (chapter 2 of the RISC-V Unprivileged ISA): every instruction of the core, told by its bits and by what
    it does to numbers, without the functions of `Isa`. */
module Rv32i {
  import opened Words
  import opened Options
  import opened BitFacts
  import opened Numbers
  import opened Encoding
  import opened Isa
  import opened ByteView
  import opened Device
  import opened SystemBus
  import opened Processor

  // ----- what an operation means -----

  /** A register-register operation, by funct3 and by whether it is the alternative one (bit 30). */
  ghost predicate Means(funct3: int, alternative: bool, x: int, y: int, value: int)
  {
    && (funct3 == 0 && !alternative ==> value == (x + y) % TWO32)
    && (funct3 == 0 && alternative ==> value == (x - y) % TWO32)
    && (funct3 == 1 ==> value == (x * PowerOfTwo(y % 32)) % TWO32)
    && (funct3 == 2 ==> value == if AsInt32(x) < AsInt32(y) then 1 else 0)
    && (funct3 == 3 ==> value == if x < y then 1 else 0)
    && (funct3 == 4 ==> forall i: nat :: i < 32 ==> (HasBit(value, i) <==> HasBit(x, i) != HasBit(y, i)))
    && (funct3 == 5 && !alternative ==> value == x / PowerOfTwo(y % 32))
    && (funct3 == 5 && alternative ==> AsInt32(value) == AsInt32(x) / PowerOfTwo(y % 32))
    && (funct3 == 6 ==> forall i: nat :: i < 32 ==> (HasBit(value, i) <==> HasBit(x, i) || HasBit(y, i)))
    && (funct3 == 7 ==> forall i: nat :: i < 32 ==> (HasBit(value, i) <==> HasBit(x, i) && HasBit(y, i)))
  }

  lemma Low5Unfolds(y: bv32) ensures Low5(y) as bv32 == And(y, 0x1f) {}

  /** The amount of a shift is its operand modulo 32. */
  lemma Low5Is(y: bv32)
    ensures Low5(y) as int == Unsigned(y) % 32
  {
    hide Unsigned;
    hide Low5;
    hide And;
    hide IsMask;
    SmallMasks();
    Powers();
    hide PowerOfTwo;
    Low5Unfolds(y);
    SmallNumber(Low5(y));
    MaskIs(y, 0x1f, 5);
  }

  lemma FlagIs(b: bool)
    ensures Unsigned(Flag(b)) == if b then 1 else 0
  {
    Zero();
  }

  lemma BitsMean(x: bv32, y: bv32)
    ensures Means(4, false, Unsigned(x), Unsigned(y), Unsigned(Xor(x, y)))
    ensures Means(6, false, Unsigned(x), Unsigned(y), Unsigned(Or(x, y)))
    ensures Means(7, false, Unsigned(x), Unsigned(y), Unsigned(And(x, y)))
  {
    hide Unsigned;
    hide HasBit;
    hide Xor;
    hide Or;
    hide And;
    forall i: nat { BitwiseIs(x, y, i); }
  }

  /** The reference operation is the operation of the book. */
  lemma OperateMeans(funct3: bv32, alternative: bool, x: bv32, y: bv32)
    requires funct3 < 8 && (alternative ==> funct3 == 0 || funct3 == 5)
    ensures Means(funct3 as int, alternative, Unsigned(x), Unsigned(y), Unsigned(Operate(funct3, alternative, x, y)))
  {
    hide Unsigned;
    hide HasBit;
    hide Plus;
    hide Minus;
    hide Xor;
    hide Or;
    hide And;
    hide Left;
    hide Right;
    hide Filled;
    hide Flag;
    hide Below;
    hide Lower;
    hide Low5;
    hide PowerOfTwo;
    if funct3 == 0 {
      PlusIs(x, y);
      MinusIs(x, y);
    } else if funct3 == 1 {
      Low5Is(y);
      LeftIs(x, Low5(y));
    } else if funct3 == 2 {
      BelowIs(x, y);
      FlagIs(Below(x, y));
    } else if funct3 == 3 {
      LowerIs(x, y);
      FlagIs(Lower(x, y));
    } else if funct3 == 5 {
      Low5Is(y);
      RightIs(x, Low5(y));
      FilledIs(x, Low5(y));
    } else {
      BitsMean(x, y);
    }
  }

  // ----- reading the bits -----

  lemma Codes()
    ensures Unsigned(LOAD) == 0x03 && Unsigned(OP_IMM) == 0x13 && Unsigned(AUIPC) == 0x17 && Unsigned(STORE) == 0x23
    ensures Unsigned(OP) == 0x33 && Unsigned(LUI) == 0x37 && Unsigned(BRANCH) == 0x63 && Unsigned(JALR) == 0x67
    ensures Unsigned(JAL) == 0x6f && Unsigned(SYSTEM) == 0x73
  {
  }

  lemma SmallCodes()
    ensures Unsigned(0) == 0 && Unsigned(1) == 1 && Unsigned(2) == 2 && Unsigned(3) == 3 && Unsigned(4) == 4
    ensures Unsigned(5) == 5 && Unsigned(6) == 6 && Unsigned(7) == 7 && Unsigned(0x20) == 0x20
  {
  }

  /** An opcode is told by its number. */
  lemma OpcodeIs(inst: bv32, code: bv32)
    ensures Opcode(inst) == code <==> Field(inst, 0, 7) == Unsigned(code)
  {
    hide Unsigned;
    hide Opcode;
    hide Field;
    FieldsAre(inst);
    if Unsigned(Opcode(inst)) == Unsigned(code) { SameNumber(Opcode(inst), code); }
  }

  lemma Funct3Is(inst: bv32, code: bv32)
    ensures Funct3(inst) == code <==> Field(inst, 12, 3) == Unsigned(code)
  {
    hide Unsigned;
    hide Funct3;
    hide Field;
    FieldsAre(inst);
    if Unsigned(Funct3(inst)) == Unsigned(code) { SameNumber(Funct3(inst), code); }
  }

  lemma Funct7Is(inst: bv32, code: bv32)
    ensures Funct7(inst) == code <==> Field(inst, 25, 7) == Unsigned(code)
  {
    hide Unsigned;
    hide Funct7;
    hide Field;
    FieldsAre(inst);
    if Unsigned(Funct7(inst)) == Unsigned(code) { SameNumber(Funct7(inst), code); }
  }

  /** The forms of funct3, number by number. */
  lemma Funct3Numbers(inst: bv32)
    ensures Funct3(inst) as int == Field(inst, 12, 3) && Funct3(inst) < 8
    ensures Funct3(inst) == 0 <==> Field(inst, 12, 3) == 0
    ensures Funct3(inst) == 1 <==> Field(inst, 12, 3) == 1
    ensures Funct3(inst) == 2 <==> Field(inst, 12, 3) == 2
    ensures Funct3(inst) == 4 <==> Field(inst, 12, 3) == 4
    ensures Funct3(inst) == 5 <==> Field(inst, 12, 3) == 5
  {
    FieldsAre(inst);
    assert Unsigned(Funct3(inst)) == Funct3(inst) as int;
    hide Unsigned;
    hide Field;
    Funct3Range(inst);
    hide Funct3;
    SmallCodes();
    Funct3Is(inst, 0);
    Funct3Is(inst, 1);
    Funct3Is(inst, 2);
    Funct3Is(inst, 4);
    Funct3Is(inst, 5);
  }

  lemma Funct7Numbers(inst: bv32)
    ensures Funct7(inst) == 0 <==> Field(inst, 25, 7) == 0
    ensures Funct7(inst) == 0x20 <==> Field(inst, 25, 7) == 0x20
  {
    hide Unsigned;
    hide Field;
    hide Funct7;
    SmallCodes();
    Funct7Is(inst, 0);
    Funct7Is(inst, 0x20);
  }

  lemma FollowingUnfolds(pc: bv32)
    ensures Following(pc) == Plus(pc, 4)
  {
  }

  lemma FourAfter(pc: bv32)
    ensures Unsigned(Following(pc)) == (Unsigned(pc) + 4) % TWO32
  {
    SmallCodes();
    hide Unsigned;
    hide Plus;
    hide Following;
    FollowingUnfolds(pc);
    PlusIs(pc, 4);
  }

  // ----- registers of a core -----

  function Reg(c: Core, r: int): int
    requires |c.regs| == 32 && 0 <= r < 32
  {
    Unsigned(c.regs[r])
  }

  /** The fields that name registers. */
  function RdOf(inst: bv32): (r: int)
    ensures 0 <= r < 32
  {
    Powers();
    Field(inst, 7, 5)
  }

  function Rs1Of(inst: bv32): (r: int)
    ensures 0 <= r < 32
  {
    Powers();
    Field(inst, 15, 5)
  }

  function Rs2Of(inst: bv32): (r: int)
    ensures 0 <= r < 32
  {
    Powers();
    Field(inst, 20, 5)
  }

  lemma Registers(inst: bv32, c: Core)
    requires |c.regs| == 32
    ensures Unsigned(X(inst, c)) == Reg(c, Rs1Of(inst)) && Unsigned(Y(inst, c)) == Reg(c, Rs2Of(inst))
    ensures Destination(inst) == RdOf(inst)
  {
    hide Unsigned;
    hide Field;
    hide Rd;
    hide Rs1;
    hide Rs2;
    FieldsAre(inst);
  }

  /** The next instruction. */
  ghost predicate GoesOn(before: Core, next: bv32)
  {
    Unsigned(next) == (Unsigned(before.pc) + 4) % TWO32
  }

  lemma OpcodesApart(inst: bv32)
    ensures Opcode(inst) == OP ==> Opcode(inst) !in {LOAD, OP_IMM, AUIPC, STORE, LUI, BRANCH, JALR, JAL, SYSTEM}
    ensures Opcode(inst) == OP_IMM ==> Opcode(inst) !in {LOAD, OP, AUIPC, STORE, LUI, BRANCH, JALR, JAL, SYSTEM}
    ensures Opcode(inst) == LUI ==> Opcode(inst) !in {LOAD, OP, AUIPC, STORE, OP_IMM, BRANCH, JALR, JAL, SYSTEM}
    ensures Opcode(inst) == AUIPC ==> Opcode(inst) !in {LOAD, OP, LUI, STORE, OP_IMM, BRANCH, JALR, JAL, SYSTEM}
    ensures Opcode(inst) == JAL ==> Opcode(inst) !in {LOAD, OP, LUI, STORE, OP_IMM, BRANCH, JALR, AUIPC, SYSTEM}
    ensures Opcode(inst) == JALR ==> Opcode(inst) !in {LOAD, OP, LUI, STORE, OP_IMM, BRANCH, JAL, AUIPC, SYSTEM}
  {
    hide Opcode;
  }

  // ----- the instructions -----

  /** What an instruction that only computes does, by the reference. */
  lemma Computing(inst: bv32, before: Core, after: Core, next: bv32)
    requires |before.regs| == |after.regs| == 32 && Opcode(inst) !in {BRANCH, STORE, LOAD, SYSTEM}
    ensures var result := Computed(inst, before.pc, X(inst, before), Y(inst, before));
            && (Legal(inst, before) <==> result.Some?)
            && (Legal(inst, before) && Does(inst, before, after, next) ==>
                  next == result.value.next
                  && (RdOf(inst) != 0 ==> Reg(after, RdOf(inst)) == Unsigned(result.value.value)))
  {
    hide Following;
    hide Evened;
    hide Plus;
    Registers(inst, before);
    hide Unsigned;
    hide Field;
    hide Opcode;
    hide Computed;
    hide X;
    hide Y;
    hide Address;
    hide Destination;
  }

  lemma ComputedOp(inst: bv32, pc: bv32, x: bv32, y: bv32)
    requires Opcode(inst) == OP
    ensures Computed(inst, pc, x, y)
         == if RegisterForm(inst) then Some(Outcome(RegisterValue(inst, x, y), Following(pc))) else None
  {
    hide Following;
    hide Evened;
    hide Plus;
    hide RegisterForm;
    hide RegisterValue;
    hide ImmediateForm;
    hide ImmediateValue;
    hide Opcode;
  }

  lemma ComputedOpImm(inst: bv32, pc: bv32, x: bv32, y: bv32)
    requires Opcode(inst) == OP_IMM
    ensures Computed(inst, pc, x, y)
         == if ImmediateForm(inst) then Some(Outcome(ImmediateValue(inst, x), Following(pc))) else None
  {
    hide Following;
    hide Evened;
    hide Plus;
    hide RegisterForm;
    hide RegisterValue;
    hide ImmediateForm;
    hide ImmediateValue;
    hide Opcode;
  }

  lemma RegisterMeans(inst: bv32, x: bv32, y: bv32)
    ensures var f3, f7 := Field(inst, 12, 3), Field(inst, 25, 7);
            && (RegisterForm(inst) <==> f7 == 0 || (f7 == 0x20 && (f3 == 0 || f3 == 5)))
            && (RegisterForm(inst) ==>
                  Means(f3, f7 == 0x20, Unsigned(x), Unsigned(y), Unsigned(RegisterValue(inst, x, y))))
  {
    hide Unsigned;
    hide Field;
    hide Funct3;
    hide Funct7;
    hide Operate;
    hide Means;
    Funct3Numbers(inst);
    Funct7Numbers(inst);
    if RegisterForm(inst) { OperateMeans(Funct3(inst), Funct7(inst) == 0x20, x, y); }
  }

  /** The immediate of an I-type instruction, modulo 2^32. */
  function Immediate(inst: bv32): int
  {
    Centered(Field(inst, 20, 12), 0x800) % TWO32
  }

  lemma SignedModulo(x: bv32)
    ensures Unsigned(x) == Signed(x) % TWO32
  {
    hide Unsigned;
  }

  lemma ImmediateIs(inst: bv32)
    ensures Unsigned(ImmI(inst)) == Immediate(inst)
  {
    hide Unsigned;
    hide Field;
    hide ImmI;
    SignedModulo(ImmI(inst));
    ImmIIs(inst);
  }

  lemma ImmediateMeans(inst: bv32, x: bv32)
    ensures var f3, f7 := Field(inst, 12, 3), Field(inst, 25, 7);
            && (ImmediateForm(inst) <==> (f3 != 1 && f3 != 5) || f7 == 0 || (f7 == 0x20 && f3 == 5))
            && (ImmediateForm(inst) ==>
                  Means(f3, f3 == 5 && f7 == 0x20, Unsigned(x), Immediate(inst), Unsigned(ImmediateValue(inst, x))))
  {
    hide Unsigned;
    hide Field;
    hide Funct3;
    hide Funct7;
    hide Operate;
    hide Means;
    hide ImmI;
    hide Immediate;
    Funct3Numbers(inst);
    Funct7Numbers(inst);
    ImmediateIs(inst);
    if ImmediateForm(inst) { OperateMeans(Funct3(inst), Funct7(inst) == 0x20 && Funct3(inst) == 5, x, ImmI(inst)); }
  }

  /** ADD, SUB, SLL, SLT, SLTU, XOR, SRL, SRA, OR and AND. */
  lemma RegisterInstruction(inst: bv32, before: Core, after: Core, next: bv32)
    requires |before.regs| == |after.regs| == 32 && Field(inst, 0, 7) == 0x33
    ensures var f3, f7 := Field(inst, 12, 3), Field(inst, 25, 7);
            && (Legal(inst, before) <==> f7 == 0 || (f7 == 0x20 && (f3 == 0 || f3 == 5)))
            && (Legal(inst, before) && Does(inst, before, after, next) ==>
                  && GoesOn(before, next)
                  && (RdOf(inst) != 0 ==>
                        Means(f3, f7 == 0x20, Reg(before, Rs1Of(inst)), Reg(before, Rs2Of(inst)), Reg(after, RdOf(inst)))))
  {
    hide Following;
    hide Evened;
    hide Plus;
    hide Unsigned;
    hide Field;
    hide Opcode;
    hide Computed;
    hide Legal;
    hide Does;
    hide RegisterForm;
    hide RegisterValue;
    hide Means;
    hide X;
    hide Y;
    Codes();
    OpcodeIs(inst, OP);
    OpcodesApart(inst);
    Registers(inst, before);
    FourAfter(before.pc);
    Computing(inst, before, after, next);
    ComputedOp(inst, before.pc, X(inst, before), Y(inst, before));
    RegisterMeans(inst, X(inst, before), Y(inst, before));
  }

  /** ADDI, SLLI, SLTI, SLTIU, XORI, SRLI, SRAI, ORI and ANDI. */
  lemma ImmediateInstruction(inst: bv32, before: Core, after: Core, next: bv32)
    requires |before.regs| == |after.regs| == 32 && Field(inst, 0, 7) == 0x13
    ensures var f3, f7 := Field(inst, 12, 3), Field(inst, 25, 7);
            && (Legal(inst, before) <==> (f3 != 1 && f3 != 5) || f7 == 0 || (f7 == 0x20 && f3 == 5))
            && (Legal(inst, before) && Does(inst, before, after, next) ==>
                  && GoesOn(before, next)
                  && (RdOf(inst) != 0 ==>
                        Means(f3, f3 == 5 && f7 == 0x20, Reg(before, Rs1Of(inst)), Immediate(inst), Reg(after, RdOf(inst)))))
  {
    hide Following;
    hide Evened;
    hide Plus;
    hide Unsigned;
    hide Field;
    hide Opcode;
    hide Computed;
    hide Legal;
    hide Does;
    hide ImmediateForm;
    hide ImmediateValue;
    hide Immediate;
    hide Means;
    hide X;
    hide Y;
    Codes();
    OpcodeIs(inst, OP_IMM);
    OpcodesApart(inst);
    Registers(inst, before);
    FourAfter(before.pc);
    Computing(inst, before, after, next);
    ComputedOpImm(inst, before.pc, X(inst, before), Y(inst, before));
    ImmediateMeans(inst, X(inst, before));
  }

  lemma ComputedUpper(inst: bv32, pc: bv32, x: bv32, y: bv32)
    requires Opcode(inst) == LUI || Opcode(inst) == AUIPC
    ensures Computed(inst, pc, x, y)
         == Some(Outcome(if Opcode(inst) == LUI then ImmU(inst) else Plus(pc, ImmU(inst)), Following(pc)))
  {
    hide Following;
    hide Evened;
    hide Plus;
    hide Opcode;
    hide ImmU;
  }

  /** LUI and AUIPC. */
  lemma UpperInstruction(inst: bv32, before: Core, after: Core, next: bv32)
    requires |before.regs| == |after.regs| == 32 && (Field(inst, 0, 7) == 0x37 || Field(inst, 0, 7) == 0x17)
    ensures Legal(inst, before)
    ensures Does(inst, before, after, next) ==>
              && GoesOn(before, next)
              && (RdOf(inst) != 0 && Field(inst, 0, 7) == 0x37 ==> Reg(after, RdOf(inst)) == Field(inst, 12, 20) * 0x1000)
              && (RdOf(inst) != 0 && Field(inst, 0, 7) == 0x17 ==>
                    Reg(after, RdOf(inst)) == (Unsigned(before.pc) + Field(inst, 12, 20) * 0x1000) % TWO32)
  {
    hide Following;
    hide Evened;
    hide Unsigned;
    hide Field;
    hide Opcode;
    hide Computed;
    hide Legal;
    hide Does;
    hide ImmU;
    hide Plus;
    hide X;
    hide Y;
    Codes();
    OpcodeIs(inst, LUI);
    OpcodeIs(inst, AUIPC);
    OpcodesApart(inst);
    FourAfter(before.pc);
    Computing(inst, before, after, next);
    ComputedUpper(inst, before.pc, X(inst, before), Y(inst, before));
    ImmUIs(inst);
    PlusIs(before.pc, ImmU(inst));
  }

  // ----- jumps -----

  lemma AlignedUnfolds(x: bv32)
    ensures Aligned(x) <==> And(x, 3) == 0
  {
    FourDivides(x);
  }

  lemma MaskOfThree()
    ensures IsMask(3, 2) && PowerOfTwo(2) == 4
  {
    assert IsMask(1, 1) && IsMask(0, 0);
  }

  lemma AlignedIs(x: bv32)
    ensures Aligned(x) <==> Unsigned(x) % 4 == 0
  {
    hide Unsigned;
    hide And;
    hide Aligned;
    hide IsMask;
    AlignedUnfolds(x);
    MaskOfThree();
    MaskIs(x, 3, 2);
    Zero();
    if Unsigned(And(x, 3)) == 0 { OnlyZero(And(x, 3)); }
  }

  lemma LastDigit(x: bv32)
    ensures Or(Evened(x), And(x, 1)) == x && And(Evened(x), And(x, 1)) == 0
  {
  }

  /** Clearing the lowest bit. */
  lemma EvenIs(x: bv32)
    ensures Unsigned(Evened(x)) == Unsigned(x) - Unsigned(x) % 2
  {
    hide Following;
    hide Evened;
    hide Unsigned;
    hide And;
    hide Or;
    hide IsMask;
    LastDigit(x);
    SmallMasks();
    Powers();
    hide PowerOfTwo;
    MaskIs(x, 1, 1);
    OrIs(Evened(x), And(x, 1));
  }

  lemma ComputedJump(inst: bv32, pc: bv32, x: bv32, y: bv32)
    requires Opcode(inst) == JAL || (Opcode(inst) == JALR && Funct3(inst) == 0)
    ensures Computed(inst, pc, x, y)
         == Linked(pc, if Opcode(inst) == JAL then Plus(pc, ImmJ(inst)) else Evened(Plus(x, ImmI(inst))))
  {
    hide Following;
    hide Evened;
    hide Plus;
    hide Opcode;
    hide ImmJ;
    hide ImmI;
    hide Linked;
    hide Funct3;
  }

  lemma ComputedNoJump(inst: bv32, pc: bv32, x: bv32, y: bv32)
    requires Opcode(inst) == JALR && Funct3(inst) != 0
    ensures Computed(inst, pc, x, y) == None
  {
    hide Following;
    hide Evened;
    hide Plus;
    hide Opcode;
    hide Linked;
    hide Funct3;
  }

  /** Where JAL and JALR go. */
  function JumpTarget(inst: bv32, before: Core): int
    requires |before.regs| == 32
  {
    if Field(inst, 0, 7) == 0x6f then
      (Unsigned(before.pc)
       + Centered(Field(inst, 31, 1) * 0x10_0000 + Field(inst, 12, 8) * 0x1000 + Field(inst, 20, 1) * 0x800
                  + Field(inst, 21, 10) * 2, 0x10_0000)) % TWO32
    else
      var target := (Reg(before, Rs1Of(inst)) + Immediate(inst)) % TWO32; target - target % 2
  }

  lemma JalGoes(inst: bv32, pc: bv32)
    ensures Unsigned(Plus(pc, ImmJ(inst)))
         == (Unsigned(pc)
             + Centered(Field(inst, 31, 1) * 0x10_0000 + Field(inst, 12, 8) * 0x1000 + Field(inst, 20, 1) * 0x800
                        + Field(inst, 21, 10) * 2, 0x10_0000)) % TWO32
  {
    hide Unsigned;
    hide Signed;
    hide Field;
    hide Plus;
    hide ImmJ;
    hide Centered;
    PlusSigned(pc, ImmJ(inst));
    ImmJIs(inst);
  }

  lemma JalrGoes(inst: bv32, before: Core)
    requires |before.regs| == 32 && Field(inst, 0, 7) == 0x67
    ensures var target := Evened(Plus(X(inst, before), ImmI(inst)));
            Unsigned(target) == JumpTarget(inst, before) && (Aligned(target) <==> JumpTarget(inst, before) % 4 == 0)
  {
    hide Following;
    hide Evened;
    hide Unsigned;
    hide Field;
    hide ImmI;
    hide Plus;
    hide X;
    hide Y;
    hide Aligned;
    hide Immediate;
    Registers(inst, before);
    ImmediateIs(inst);
    PlusIs(X(inst, before), ImmI(inst));
    EvenIs(Plus(X(inst, before), ImmI(inst)));
    AlignedIs(Evened(Plus(X(inst, before), ImmI(inst))));
  }

  lemma JalComputed(inst: bv32, before: Core)
    requires |before.regs| == 32 && Opcode(inst) == JAL
    ensures var result := Computed(inst, before.pc, X(inst, before), Y(inst, before));
            && (result.Some? <==> JumpTarget(inst, before) % 4 == 0)
            && (result.Some? ==> Unsigned(result.value.next) == JumpTarget(inst, before))
            && (result.Some? ==> Unsigned(result.value.value) == (Unsigned(before.pc) + 4) % TWO32)
  {
    hide Following;
    hide Evened;
    hide Unsigned;
    hide Field;
    hide Opcode;
    hide Computed;
    hide ImmJ;
    hide Plus;
    hide X;
    hide Y;
    hide Aligned;
    Codes();
    OpcodeIs(inst, JAL);
    FourAfter(before.pc);
    ComputedJump(inst, before.pc, X(inst, before), Y(inst, before));
    JalGoes(inst, before.pc);
    AlignedIs(Plus(before.pc, ImmJ(inst)));
  }

  lemma JalrComputed(inst: bv32, before: Core)
    requires |before.regs| == 32 && Opcode(inst) == JALR
    ensures var result := Computed(inst, before.pc, X(inst, before), Y(inst, before));
            && (result.Some? <==> Field(inst, 12, 3) == 0 && JumpTarget(inst, before) % 4 == 0)
            && (result.Some? ==> Unsigned(result.value.next) == JumpTarget(inst, before))
            && (result.Some? ==> Unsigned(result.value.value) == (Unsigned(before.pc) + 4) % TWO32)
  {
    hide Following;
    hide Evened;
    hide Unsigned;
    hide Field;
    hide Opcode;
    hide Computed;
    hide ImmI;
    hide Plus;
    hide X;
    hide Y;
    hide Aligned;
    hide JumpTarget;
    hide Funct3;
    Codes();
    OpcodeIs(inst, JALR);
    Funct3Numbers(inst);
    FourAfter(before.pc);
    JalrGoes(inst, before);
    if Funct3(inst) == 0 {
      ComputedJump(inst, before.pc, X(inst, before), Y(inst, before));
    } else {
      ComputedNoJump(inst, before.pc, X(inst, before), Y(inst, before));
    }
  }

  /** JAL and JALR: the address of the next instruction is linked; a target that is not a multiple of four is refused. */
  lemma JumpInstruction(inst: bv32, before: Core, after: Core, next: bv32)
    requires |before.regs| == |after.regs| == 32
    requires Field(inst, 0, 7) == 0x6f || Field(inst, 0, 7) == 0x67
    ensures Legal(inst, before) <==>
              (Field(inst, 0, 7) == 0x67 ==> Field(inst, 12, 3) == 0) && JumpTarget(inst, before) % 4 == 0
    ensures Legal(inst, before) && Does(inst, before, after, next) ==>
              && Unsigned(next) == JumpTarget(inst, before)
              && (RdOf(inst) != 0 ==> Reg(after, RdOf(inst)) == (Unsigned(before.pc) + 4) % TWO32)
  {
    hide Following;
    hide Evened;
    hide Plus;
    hide Unsigned;
    hide Field;
    hide Opcode;
    hide Computed;
    hide Legal;
    hide Does;
    hide JumpTarget;
    hide X;
    hide Y;
    Codes();
    OpcodeIs(inst, JAL);
    OpcodeIs(inst, JALR);
    OpcodesApart(inst);
    Computing(inst, before, after, next);
    if Opcode(inst) == JAL { JalComputed(inst, before); } else { JalrComputed(inst, before); }
  }

  // ----- branches -----

  /** BEQ, BNE, BLT, BGE, BLTU and BGEU. */
  predicate Taken(funct3: int, x: int, y: int)
  {
    || (funct3 == 0 && x == y) || (funct3 == 1 && x != y)
    || (funct3 == 4 && AsInt32(x) < AsInt32(y)) || (funct3 == 5 && AsInt32(x) >= AsInt32(y))
    || (funct3 == 6 && x < y) || (funct3 == 7 && x >= y)
  }

  function BranchTarget(inst: bv32, before: Core): int
  {
    (Unsigned(before.pc)
     + Centered(Field(inst, 31, 1) * 0x1000 + Field(inst, 7, 1) * 0x800 + Field(inst, 25, 6) * 32 + Field(inst, 8, 4) * 2,
                0x1000)) % TWO32
  }

  lemma LowerUnfolds(x: bv32, y: bv32)
    ensures Lower(x, y) <==> x < y
  {
  }

  lemma ComparisonsMean(x: bv32, y: bv32)
    ensures x == y <==> Unsigned(x) == Unsigned(y)
    ensures SignedLess(x, y) <==> Signed(x) < Signed(y)
    ensures x < y <==> Unsigned(x) < Unsigned(y)
  {
    hide Unsigned;
    hide SignedLess;
    hide Below;
    hide Lower;
    SignedLessIsBelow(x, y);
    BelowIs(x, y);
    LowerUnfolds(x, y);
    LowerIs(x, y);
    if Unsigned(x) == Unsigned(y) { SameNumber(x, y); }
  }

  lemma NotLower(x: bv32, y: bv32)
    ensures x >= y <==> !(x < y)
  {
  }

  lemma OtherFunct3Numbers(inst: bv32)
    ensures Funct3(inst) == 3 <==> Field(inst, 12, 3) == 3
    ensures Funct3(inst) == 6 <==> Field(inst, 12, 3) == 6
    ensures Funct3(inst) == 7 <==> Field(inst, 12, 3) == 7
  {
    hide Unsigned;
    hide Field;
    hide Funct3;
    SmallCodes();
    Funct3Is(inst, 3);
    Funct3Is(inst, 6);
    Funct3Is(inst, 7);
  }

  lemma CompareMeans(inst: bv32, x: bv32, y: bv32)
    ensures var f3 := Field(inst, 12, 3);
            && (Compare(Funct3(inst), x, y).Some? <==> f3 != 2 && f3 != 3)
            && (f3 != 2 && f3 != 3 ==> Compare(Funct3(inst), x, y) == Some(Taken(f3, Unsigned(x), Unsigned(y))))
  {
    ComparisonsMean(x, y);
    NotLower(x, y);
    hide Unsigned;
    hide Field;
    hide SignedLess;
    hide Compare;
    Funct3Numbers(inst);
    OtherFunct3Numbers(inst);
    Comparisons(Funct3(inst), x, y);
    hide Funct3;
  }

  lemma BranchLands(inst: bv32, before: Core)
    ensures Unsigned(Plus(before.pc, ImmB(inst))) == BranchTarget(inst, before)
    ensures Aligned(Plus(before.pc, ImmB(inst))) <==> BranchTarget(inst, before) % 4 == 0
  {
    hide Unsigned;
    hide Signed;
    hide Field;
    hide Centered;
    hide ImmB;
    hide Aligned;
    hide Plus;
    PlusSigned(before.pc, ImmB(inst));
    ImmBIs(inst);
    AlignedIs(Plus(before.pc, ImmB(inst)));
  }

  /** What a branch does, by the reference. */
  lemma Branching(inst: bv32, before: Core, after: Core, next: bv32)
    requires |before.regs| == |after.regs| == 32 && Opcode(inst) == BRANCH
    ensures var taken := Compare(Funct3(inst), X(inst, before), Y(inst, before));
            && (Legal(inst, before) <==> taken.Some? && (taken.value ==> Aligned(Plus(before.pc, ImmB(inst)))))
            && (Legal(inst, before) && Does(inst, before, after, next) ==>
                  next == if taken.value then Plus(before.pc, ImmB(inst)) else Following(before.pc))
  {
    hide Following;
    hide Evened;
    hide Plus;
    hide Opcode;
    hide Computed;
    hide Compare;
    hide ImmB;
    hide Aligned;
    hide Address;
    hide X;
    hide Y;
  }

  /** The branches. */
  lemma BranchInstruction(inst: bv32, before: Core, after: Core, next: bv32)
    requires |before.regs| == |after.regs| == 32 && Field(inst, 0, 7) == 0x63
    ensures var f3 := Field(inst, 12, 3);
            var taken := Taken(f3, Reg(before, Rs1Of(inst)), Reg(before, Rs2Of(inst)));
            && (Legal(inst, before) <==> f3 != 2 && f3 != 3 && (taken ==> BranchTarget(inst, before) % 4 == 0))
            && (Legal(inst, before) && Does(inst, before, after, next) ==>
                  if taken then Unsigned(next) == BranchTarget(inst, before) else GoesOn(before, next))
  {
    hide Following;
    hide Evened;
    hide Plus;
    hide Unsigned;
    hide Field;
    hide Opcode;
    hide Compare;
    hide BranchTarget;
    hide Taken;
    hide ImmB;
    hide Aligned;
    hide Legal;
    hide Does;
    hide X;
    hide Y;
    Codes();
    OpcodeIs(inst, BRANCH);
    FourAfter(before.pc);
    Registers(inst, before);
    CompareMeans(inst, X(inst, before), Y(inst, before));
    BranchLands(inst, before);
    Branching(inst, before, after, next);
  }

  // ----- loads and stores -----

  /** The address of a load, and of a store. */
  function LoadAddress(inst: bv32, c: Core): int
    requires |c.regs| == 32
  {
    (Reg(c, Rs1Of(inst)) + Immediate(inst)) % TWO32
  }

  function StoreAddress(inst: bv32, c: Core): int
    requires |c.regs| == 32
  {
    (Reg(c, Rs1Of(inst)) + Centered(Field(inst, 25, 7) * 32 + Field(inst, 7, 5), 0x800)) % TWO32
  }

  lemma AddressIs(inst: bv32, c: Core)
    requires |c.regs| == 32
    ensures Opcode(inst) == LOAD ==> Address(inst, c) == LoadAddress(inst, c)
    ensures Opcode(inst) == STORE ==> Address(inst, c) == StoreAddress(inst, c)
  {
    hide Unsigned;
    hide Signed;
    hide Field;
    hide Centered;
    hide Opcode;
    hide ImmI;
    hide ImmS;
    hide Plus;
    hide Immediate;
    hide X;
    hide Rs1;
    LoadIsNoStore();
    Registers(inst, c);
    ImmediateIs(inst);
    ImmSIs(inst);
    PlusIs(X(inst, c), ImmI(inst));
    PlusSigned(X(inst, c), ImmS(inst));
  }

  lemma LoadIsNoStore()
    ensures LOAD != STORE
  {
  }

  /** An access of 1, 2 or 4 bytes is aligned and in range. */
  predicate Fits(size: int, addr: int, width: int)
    requires width > 0
  {
    addr % width == 0 && addr + width <= size
  }

  /** LB, LH, LW, LBU and LHU: what a load finds. */
  predicate Loads(funct3: int, bytes: seq<int>, addr: int, value: int)
    requires 0 <= addr
  {
    && (funct3 == 0 && Fits(|bytes|, addr, 1) ==> AsInt32(value) == Centered(bytes[addr], 0x80))
    && (funct3 == 1 && Fits(|bytes|, addr, 2) ==> AsInt32(value) == Centered(bytes[addr] + 0x100 * bytes[addr + 1], 0x8000))
    && (funct3 == 2 && Fits(|bytes|, addr, 4) ==>
          value == bytes[addr] + 0x100 * bytes[addr + 1] + 0x1_0000 * bytes[addr + 2] + 0x100_0000 * bytes[addr + 3])
    && (funct3 == 4 && Fits(|bytes|, addr, 1) ==> value == bytes[addr])
    && (funct3 == 5 && Fits(|bytes|, addr, 2) ==> value == bytes[addr] + 0x100 * bytes[addr + 1])
  }

  /** SB, SH and SW: what a store leaves. */
  predicate Stores(funct3: int, bytes: seq<int>, addr: int, value: int, bytes': seq<int>)
    requires 0 <= addr
  {
    && (funct3 == 0 && Fits(|bytes|, addr, 1) ==> bytes' == bytes[addr := value % 0x100])
    && (funct3 == 1 && Fits(|bytes|, addr, 2) ==>
          bytes' == bytes[addr := value % 0x100][addr + 1 := value / 0x100 % 0x100])
    && (funct3 == 2 && Fits(|bytes|, addr, 4) ==>
          bytes' == bytes[addr := value % 0x100][addr + 1 := value / 0x100 % 0x100]
                         [addr + 2 := value / 0x1_0000 % 0x100][addr + 3 := value / 0x100_0000])
  }

  lemma BytesAreNumbers(b0: int, b1: int)
    requires IsByte(b0) && IsByte(b1)
    ensures Signed(SignExtend(FromUnsigned(b0), 0x80)) == Centered(b0, 0x80) && Unsigned(FromUnsigned(b0)) == b0
    ensures Signed(SignExtend(FromUnsigned(b0 + 0x100 * b1), 0x8000)) == Centered(b0 + 0x100 * b1, 0x8000)
    ensures Unsigned(FromUnsigned(b0 + 0x100 * b1)) == b0 + 0x100 * b1
  {
    hide Unsigned;
    hide Signed;
    hide SignExtend;
    hide FromUnsigned;
    ExtendByte(FromUnsigned(b0));
    ExtendHalf(FromUnsigned(b0 + 0x100 * b1));
  }

  /** What the load of the reference finds is what the book says. */
  lemma FindsMeans(inst: bv32, bytes: seq<int>, addr: int, loaded: bv32)
    requires 0 <= addr && (forall i :: 0 <= i < |bytes| ==> IsByte(bytes[i]))
    ensures var f3 := Field(inst, 12, 3);
            && (AccessFits(|bytes|, Funct3(inst), addr) <==>
                  || ((f3 == 0 || f3 == 4) && Fits(|bytes|, addr, 1)) || ((f3 == 1 || f3 == 5) && Fits(|bytes|, addr, 2))
                  || (f3 == 2 && Fits(|bytes|, addr, 4)))
            && (AccessFits(|bytes|, Funct3(inst), addr) && Finds(bytes, Funct3(inst), addr, loaded) ==>
                  Loads(f3, bytes, addr, Unsigned(loaded)))
  {
    hide Unsigned;
    hide SignExtend;
    hide FromUnsigned;
    hide Field;
    hide Centered;
    Funct3Numbers(inst);
    hide Funct3;
    if Fits(|bytes|, addr, 2) {
      BytesAreNumbers(bytes[addr], bytes[addr + 1]);
    } else if Fits(|bytes|, addr, 1) {
      BytesAreNumbers(bytes[addr], 0);
    }
  }

  lemma StoredHalves(value: int)
    requires IsUint32(value)
    ensures value % 0x1_0000 % 0x100 == value % 0x100 && value % 0x1_0000 / 0x100 == value / 0x100 % 0x100
  {
  }

  lemma AfterStoreMeans(inst: bv32, bytes: seq<int>, addr: int, value: int)
    requires 0 <= addr && IsUint32(value)
    ensures var f3 := Field(inst, 12, 3);
            && (Funct3(inst) <= 2 && AccessFits(|bytes|, Funct3(inst), addr) <==>
                  || (f3 == 0 && Fits(|bytes|, addr, 1)) || (f3 == 1 && Fits(|bytes|, addr, 2))
                  || (f3 == 2 && Fits(|bytes|, addr, 4)))
            && (Funct3(inst) <= 2 && AccessFits(|bytes|, Funct3(inst), addr) ==>
                  Stores(f3, bytes, addr, value, AfterStore(bytes, Funct3(inst), addr, value)))
  {
    hide Field;
    hide Lane;
    Funct3Numbers(inst);
    AtMostTwo(Funct3(inst));
    hide Funct3;
    StoredHalves(value);
    LanesAreRemainders(value);
  }

  lemma AtMostTwo(x: bv32)
    ensures x <= 2 <==> x == 0 || x == 1 || x == 2
  {
  }

  /** What a load does, by the reference. */
  lemma Loading(inst: bv32, before: Core, after: Core, next: bv32)
    requires |before.regs| == |after.regs| == 32 && Opcode(inst) == LOAD
    ensures var f3, addr := Funct3(inst), Address(inst, before);
            && (Legal(inst, before) <==> Loadable(before, f3, addr))
            && (Legal(inst, before) && Does(inst, before, after, next) ==>
                  && next == Following(before.pc)
                  && (RdOf(inst) != 0 ==> Delivers(before, f3, addr, after.regs[RdOf(inst)])))
  {
    hide Loadable;
    hide Delivers;
    Registers(inst, before);
    hide Unsigned;
    hide Field;
    hide Opcode;
    hide Finds;
    hide AccessFits;
    hide X;
    hide Y;
    hide Address;
    hide Destination;
    hide Following;
  }

  /** The 512 bytes from 0x10000000 are no memory. */
  predicate InRegisters(addr: int)
  {
    0x1000_0000 <= addr < 0x1000_0200
  }

  /** Registers are words: LW finds what the device or the console shows. */
  lemma WindowLoad(inst: bv32, before: Core, after: Core, next: bv32)
    requires |before.regs| == |after.regs| == 32 && Field(inst, 0, 7) == 0x03 && InRegisters(LoadAddress(inst, before))
    ensures var shown := WindowWord(before.npu, LoadAddress(inst, before));
            && (Legal(inst, before) <==> Field(inst, 12, 3) == 2 && shown.Some?)
            && (Legal(inst, before) && Does(inst, before, after, next) ==>
                  GoesOn(before, next) && (RdOf(inst) != 0 ==> Reg(after, RdOf(inst)) == shown.value))
  {
    hide Unsigned;
    hide FromUnsigned;
    hide Field;
    hide Opcode;
    hide WindowWord;
    hide Address;
    hide LoadAddress;
    hide Legal;
    hide Does;
    hide Following;
    Codes();
    OpcodeIs(inst, LOAD);
    FourAfter(before.pc);
    AddressIs(inst, before);
    Loading(inst, before, after, next);
    Funct3Numbers(inst);
    hide Funct3;
  }

  /** The loads; DRAM is an array of bytes. */
  lemma LoadInstruction(inst: bv32, before: Core, after: Core, next: bv32)
    requires |before.regs| == |after.regs| == 32 && Field(inst, 0, 7) == 0x03 && !InRegisters(LoadAddress(inst, before))
    requires forall i :: 0 <= i < |before.target.bytes| ==> IsByte(before.target.bytes[i])
    ensures var f3, addr, size := Field(inst, 12, 3), LoadAddress(inst, before), |before.target.bytes|;
            && (Legal(inst, before) <==>
                  || ((f3 == 0 || f3 == 4) && Fits(size, addr, 1)) || ((f3 == 1 || f3 == 5) && Fits(size, addr, 2))
                  || (f3 == 2 && Fits(size, addr, 4)))
            && (Legal(inst, before) && Does(inst, before, after, next) ==>
                  && GoesOn(before, next)
                  && (RdOf(inst) != 0 ==> Loads(f3, before.target.bytes, addr, Reg(after, RdOf(inst)))))
  {
    hide Unsigned;
    hide Field;
    hide Opcode;
    hide Finds;
    hide AccessFits;
    hide Loads;
    hide Fits;
    hide Address;
    hide LoadAddress;
    hide Legal;
    hide Does;
    hide Following;
    Codes();
    OpcodeIs(inst, LOAD);
    FourAfter(before.pc);
    AddressIs(inst, before);
    Loading(inst, before, after, next);
    FindsMeans(inst, before.target.bytes, Address(inst, before), after.regs[RdOf(inst)]);
  }

  /** What a store does, by the reference. */
  lemma Storing(inst: bv32, before: Core, after: Core, next: bv32)
    requires |before.regs| == |after.regs| == 32 && Opcode(inst) == STORE
    ensures var f3, addr, value := Funct3(inst), Address(inst, before), Unsigned(Y(inst, before));
            && (Legal(inst, before) <==> Storable(before, f3, addr, value))
            && (Legal(inst, before) && Does(inst, before, after, next) ==>
                  next == Following(before.pc) && Leaves(before, f3, addr, value, after.target, after.npu))
  {
    hide Storable;
    hide Leaves;
    hide Unsigned;
    hide Opcode;
    hide AfterStore;
    hide AccessFits;
    hide X;
    hide Y;
    hide Address;
    hide Following;
  }

  /** The console prints a byte or a word's low byte stored at its first address; the NPU takes the word of a command. */
  lemma WindowStore(inst: bv32, before: Core, after: Core, next: bv32)
    requires |before.regs| == |after.regs| == 32 && Field(inst, 0, 7) == 0x23 && InRegisters(StoreAddress(inst, before))
    requires Legal(inst, before) && Does(inst, before, after, next)
    ensures var f3, addr, value := Field(inst, 12, 3), StoreAddress(inst, before), Reg(before, Rs2Of(inst));
            && GoesOn(before, next)
            && (addr >= 0x1000_0100 ==>
                  && addr == 0x1000_0100 && (f3 == 0 || f3 == 2) && before.target.console.Some?
                  && after.npu == before.npu
                  && after.target == before.target.(console := Some(before.target.console.value + [value % 0x100])))
            && (addr < 0x1000_0100 ==>
                  && f3 == 2 && before.npu.Some? && after.npu.Some? && after.target.console == before.target.console
                  && Serves(before.npu.value, WriteCall(addr - 0x1000_0000, value), Answer(true, 0), after.npu.value))
  {
    hide Unsigned;
    hide Field;
    hide Opcode;
    hide Takes;
    hide Serves;
    hide Address;
    hide StoreAddress;
    hide Legal;
    hide Does;
    hide Following;
    hide X;
    hide Y;
    Codes();
    OpcodeIs(inst, STORE);
    FourAfter(before.pc);
    Registers(inst, before);
    AddressIs(inst, before);
    Storing(inst, before, after, next);
    Funct3Numbers(inst);
    hide Funct3;
  }

  /** The stores. */
  lemma StoreInstruction(inst: bv32, before: Core, after: Core, next: bv32)
    requires |before.regs| == |after.regs| == 32 && Field(inst, 0, 7) == 0x23 && !InRegisters(StoreAddress(inst, before))
    ensures var f3, addr, bytes := Field(inst, 12, 3), StoreAddress(inst, before), before.target.bytes;
            && (Legal(inst, before) <==>
                  || (f3 == 0 && Fits(|bytes|, addr, 1)) || (f3 == 1 && Fits(|bytes|, addr, 2))
                  || (f3 == 2 && Fits(|bytes|, addr, 4)))
            && (Legal(inst, before) && Does(inst, before, after, next) ==>
                  && GoesOn(before, next) && Stores(f3, bytes, addr, Reg(before, Rs2Of(inst)), after.target.bytes)
                  && after.target.console == before.target.console && SameRegisters(before.npu, after.npu))
  {
    hide Unsigned;
    hide Field;
    hide Opcode;
    hide AfterStore;
    hide AccessFits;
    hide Stores;
    hide Fits;
    hide Address;
    hide StoreAddress;
    hide Legal;
    hide Does;
    hide Following;
    hide X;
    hide Y;
    Codes();
    OpcodeIs(inst, STORE);
    FourAfter(before.pc);
    Registers(inst, before);
    AddressIs(inst, before);
    Storing(inst, before, after, next);
    AfterStoreMeans(inst, before.target.bytes, Address(inst, before), Unsigned(Y(inst, before)));
  }
}
