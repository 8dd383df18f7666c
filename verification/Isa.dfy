/** What RV32I instructions compute (chapter 2 of the RISC-V Unprivileged ISA), apart from memory and CSRs. */
module Isa {
  import opened Options

  const LOAD: bv32 := 0x03
  const OP_IMM: bv32 := 0x13
  const AUIPC: bv32 := 0x17
  const STORE: bv32 := 0x23
  const OP: bv32 := 0x33
  const LUI: bv32 := 0x37
  const BRANCH: bv32 := 0x63
  const JALR: bv32 := 0x67
  const JAL: bv32 := 0x6f
  const SYSTEM: bv32 := 0x73

  predicate Aligned(x: bv32)
  {
    x % 4 == 0
  }

  // ----- fields of an instruction -----

  function Opcode(inst: bv32): bv32 { inst & 0x7f }
  function Funct3(inst: bv32): bv32 { (inst >> 12) & 0x7 }
  function Funct7(inst: bv32): bv32 { (inst >> 25) & 0x7f }
  function Rd(inst: bv32): bv5 { ((inst >> 7) & 0x1f) as bv5 }
  function Rs1(inst: bv32): bv5 { ((inst >> 15) & 0x1f) as bv5 }
  function Rs2(inst: bv32): bv5 { ((inst >> 20) & 0x1f) as bv5 }

  /** The value with its sign bit, given as a mask, carried upwards. */
  function SignExtend(value: bv32, sign: bv32): bv32
  {
    (value ^ sign) - sign
  }

  function ImmI(inst: bv32): bv32
  {
    SignExtend(inst >> 20, 0x800)
  }

  function ImmS(inst: bv32): bv32
  {
    SignExtend(((inst >> 7) & 0x1f) | (((inst >> 25) & 0x7f) << 5), 0x800)
  }

  function ImmB(inst: bv32): bv32
  {
    SignExtend((((inst >> 31) & 0x1) << 12) | (((inst >> 7) & 0x1) << 11) | (((inst >> 25) & 0x3f) << 5)
               | (((inst >> 8) & 0xf) << 1), 0x1000)
  }

  function ImmU(inst: bv32): bv32
  {
    inst & 0xffff_f000
  }

  function ImmJ(inst: bv32): bv32
  {
    SignExtend((((inst >> 31) & 0x1) << 20) | (((inst >> 12) & 0xff) << 12) | (((inst >> 20) & 0x1) << 11)
               | (((inst >> 21) & 0x3ff) << 1), 0x10_0000)
  }

  // ----- the same immediates as an assembler places them -----

  /** Bits 31..`width` of an immediate repeat bit `width` - 1, given as a mask. */
  predicate Extended(imm: bv32, sign: bv32)
  {
    imm & !(sign | (sign - 1)) == if imm & sign == 0 then 0 else !(sign | (sign - 1))
  }

  function PlaceI(imm: bv32): bv32 { imm << 20 }

  function PlaceS(imm: bv32): bv32 { ((imm & 0xfe0) << 20) | ((imm & 0x1f) << 7) }

  function PlaceB(imm: bv32): bv32
  {
    ((imm & 0x1000) << 19) | ((imm & 0x7e0) << 20) | ((imm & 0x1e) << 7) | ((imm & 0x800) >> 4)
  }

  function PlaceJ(imm: bv32): bv32
  {
    ((imm & 0x10_0000) << 11) | ((imm & 0x7fe) << 20) | ((imm & 0x800) << 9) | (imm & 0xf_f000)
  }

  /** Every immediate an instruction can carry is read back, whatever the other bits are. */
  lemma PlacedI(imm: bv32, rest: bv32)
    requires Extended(imm, 0x800)
    ensures ImmI(PlaceI(imm) | (rest & 0x000f_ffff)) == imm
  {
  }

  lemma PlacedS(imm: bv32, rest: bv32)
    requires Extended(imm, 0x800)
    ensures ImmS(PlaceS(imm) | (rest & 0x01ff_f07f)) == imm
  {
  }

  lemma PlacedB(imm: bv32, rest: bv32)
    requires Extended(imm, 0x1000) && imm & 1 == 0
    ensures ImmB(PlaceB(imm) | (rest & 0x01ff_f07f)) == imm
  {
  }

  lemma PlacedJ(imm: bv32, rest: bv32)
    requires Extended(imm, 0x10_0000) && imm & 1 == 0
    ensures ImmJ(PlaceJ(imm) | (rest & 0xfff)) == imm
  {
  }

  // ----- operations -----

  predicate Negative(x: bv32)
  {
    x & 0x8000_0000 != 0
  }

  /** The signed order: negative numbers come first. */
  predicate Below(x: bv32, y: bv32)
  {
    if Negative(x) != Negative(y) then Negative(x) else x < y
  }

  function Plus(x: bv32, y: bv32): bv32 { x + y }

  /** The address of the next instruction. */
  function Following(pc: bv32): bv32 { pc + 4 }

  function Evened(x: bv32): bv32 { x & !1 }

  function Minus(x: bv32, y: bv32): bv32 { x - y }

  function Xor(x: bv32, y: bv32): bv32 { x ^ y }

  function Or(x: bv32, y: bv32): bv32 { x | y }

  function And(x: bv32, y: bv32): bv32 { x & y }

  function Left(x: bv32, n: bv5): bv32 { x << n }

  function Right(x: bv32, n: bv5): bv32 { x >> n }

  /** The unsigned order. */
  predicate Lower(x: bv32, y: bv32)
  {
    x < y
  }

  /** A right shift that fills with the sign. */
  function Filled(x: bv32, n: bv5): bv32
  {
    (x >> n) | if Negative(x) then !(0xffff_ffff >> n) else 0
  }

  function Flag(b: bool): bv32
  {
    if b then 1 else 0
  }

  function Low5(x: bv32): bv5 { (x & 0x1f) as bv5 }

  /** The operations of OP and OP-IMM; the alternative of addition is subtraction, of a right shift the signed one. */
  function Operate(funct3: bv32, alternative: bool, x: bv32, y: bv32): bv32
  {
    match funct3
    case 0 => if alternative then Minus(x, y) else Plus(x, y)
    case 1 => Left(x, Low5(y))
    case 2 => Flag(Below(x, y))
    case 3 => Flag(Lower(x, y))
    case 4 => Xor(x, y)
    case 5 => if alternative then Filled(x, Low5(y)) else Right(x, Low5(y))
    case 6 => Or(x, y)
    case _ => And(x, y)
  }

  /** Comparisons come in pairs: the low bit of funct3 negates. */
  function Compare(funct3: bv32, x: bv32, y: bv32): Option<bool>
  {
    var holds :=
      match funct3 >> 1 case 0 => Some(x == y) case 2 => Some(Below(x, y)) case 3 => Some(Lower(x, y)) case _ => None;
    if holds.None? then None else Some(holds.value != (funct3 & 1 == 1))
  }

  /** Where a branch goes; `None` for an unknown comparison and for a taken branch to a misaligned address. */
  function BranchGoes(inst: bv32, pc: bv32, x: bv32, y: bv32): Option<bv32>
  {
    match Compare(Funct3(inst), x, y)
    case None => None
    case Some(taken) => if !taken then Some(Following(pc)) else Landing(Plus(pc, ImmB(inst)))
  }

  function Landing(target: bv32): Option<bv32>
  {
    if Aligned(target) then Some(target) else None
  }

  datatype Outcome = Outcome(value: bv32, next: bv32)

  /** The forms of OP-IMM and OP that exist. */
  predicate ImmediateForm(inst: bv32)
  {
    || Funct7(inst) == 0 || (Funct7(inst) == 0x20 && Funct3(inst) == 5)
    || (Funct3(inst) != 1 && Funct3(inst) != 5)
  }

  predicate RegisterForm(inst: bv32)
  {
    Funct7(inst) == 0 || (Funct7(inst) == 0x20 && (Funct3(inst) == 0 || Funct3(inst) == 5))
  }

  function ImmediateValue(inst: bv32, x: bv32): bv32
  {
    Operate(Funct3(inst), Funct7(inst) == 0x20 && Funct3(inst) == 5, x, ImmI(inst))
  }

  function RegisterValue(inst: bv32, x: bv32, y: bv32): bv32
  {
    Operate(Funct3(inst), Funct7(inst) == 0x20, x, y)
  }

  /** The register value and the next address of an instruction that only computes; x and y are its source registers. */
  function Computed(inst: bv32, pc: bv32, x: bv32, y: bv32): Option<Outcome>
  {
    var opcode := Opcode(inst);
    if opcode == LUI then Some(Outcome(ImmU(inst), Following(pc)))
    else if opcode == AUIPC then Some(Outcome(Plus(pc, ImmU(inst)), Following(pc)))
    else if opcode == JAL then Linked(pc, Plus(pc, ImmJ(inst)))
    else if opcode == JALR && Funct3(inst) == 0 then Linked(pc, Evened(Plus(x, ImmI(inst))))
    else if opcode == OP_IMM && ImmediateForm(inst) then Some(Outcome(ImmediateValue(inst, x), Following(pc)))
    else if opcode == OP && RegisterForm(inst) then Some(Outcome(RegisterValue(inst, x, y), Following(pc)))
    else None
  }

  function Linked(pc: bv32, target: bv32): Option<Outcome>
  {
    if Aligned(target) then Some(Outcome(Following(pc), target)) else None
  }
}
