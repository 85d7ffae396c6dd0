/** The executors (src/Executors.cpp): what each instruction computes in the EX stage. */
module Executors {
  import opened Isa

  function SignedLess(a: Word, b: Word): bool { (a ^ 0x8000_0000) < (b ^ 0x8000_0000) }

  function Flag(b: bool): Word { if b then 1 else 0 }

  // Register shifts use the whole rs2 value as the count; a count of 32 or more is undefined in the source.

  function ShiftLeft(a: Word, n: Word): Word {
    if n < 32 then a << n else 0
  }

  function ShiftRight(a: Word, n: Word): Word {
    if n < 32 then a >> n else 0
  }

  function ShiftRightSigned(a: Word, n: Word): Word {
    if a < 0x8000_0000 then ShiftRight(a, n) else !ShiftRight(!a, n)
  }

  /** The instructions whose executor sets rd. */
  predicate ComputesRd(n: InstrName) {
    match n
    case LUI | AUIPC | JAL | JALR | ADDI | SLTI | SLTIU | XORI | ORI | ANDI | SLLI | SRLI | SRAI
       | ADD | SUB | SLL | SLT | SLTU | XOR | SRL | SRA | OR | AND => true
    case _ => false
  }

  predicate IsBranchName(n: InstrName) {
    match n
    case BEQ | BNE | BLT | BGE | BLTU | BGEU => true
    case _ => false
  }

  /** What an executor puts into rd. XORI and ANDI compute what the source computes. */
  function Alu(name: InstrName, a: Word, b: Word, imm: Word, pc: Word): Word {
    match name
    case LUI => imm
    case AUIPC => imm + pc
    case JAL => Following(pc)
    case JALR => Following(pc)
    case ADDI => a + imm
    case SLTI => Flag(SignedLess(a, imm))
    case SLTIU => Flag(a < imm)
    case XORI => a & imm
    case ORI => a | imm
    case ANDI => a ^ imm
    case SLLI => ShiftLeft(a, imm & 31)
    case SRLI => ShiftRight(a, imm & 31)
    case SRAI => ShiftRightSigned(a, imm & 31)
    case ADD => a + b
    case SUB => a - b
    case SLL => ShiftLeft(a, b)
    case SLT => Flag(SignedLess(a, b))
    case SLTU => Flag(a < b)
    case XOR => a ^ b
    case SRL => ShiftRight(a, b)
    case SRA => ShiftRightSigned(a, b)
    case OR => a | b
    case AND => a & b
    case _ => 0
  }

  /** The rd value after execution; an instruction whose executor leaves rd alone keeps the captured one. */
  function RdValue(i: Instr): Word {
    if ComputesRd(i.name) then Alu(i.name, i.rs1.value, i.rs2.value, i.imm, i.pc) else i.rd.value
  }

  function Compare(name: InstrName, a: Word, b: Word): bool {
    match name
    case BEQ => a == b
    case BNE => a != b
    case BLT => SignedLess(a, b)
    case BGE => !SignedLess(a, b)
    case BLTU => a < b
    case BGEU => a >= b
    case _ => false
  }

  function Taken(i: Instr): bool {
    if IsBranchName(i.name) then Compare(i.name, i.rs1.value, i.rs2.value) else i.taken
  }

  /** Where a jump goes: relative to pc, or for JALR to rs1 (whose low bit the source keeps). */
  function JumpTarget(name: InstrName, imm: Word, pc: Word, a: Word): Word {
    if name == JALR then imm + a else imm + pc
  }

  function Target(i: Instr): Word {
    if i.name == JAL || i.name == JALR || IsBranchName(i.name) then JumpTarget(i.name, i.imm, i.pc, i.rs1.value)
    else i.branchAddr
  }

  function Displaced(base: Word, offset: Word): Word { offset + base }

  function Address(i: Instr): Word {
    if i.acc == NoAccess then i.addr else Displaced(i.rs1.value, i.imm)
  }

  /** The EX stage of one instruction. Only the rd value, the branch outcome and the address change. */
  function Execute(i: Instr): (r: Instr)
    ensures r == i.(rd := r.rd, taken := r.taken, branchAddr := r.branchAddr, addr := r.addr)
    ensures r.rd.name == i.rd.name
  {
    i.(rd := Register(i.rd.name, RdValue(i)), taken := Taken(i), branchAddr := Target(i), addr := Address(i))
  }
}
