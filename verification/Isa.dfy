/** The instruction record and its enumerations (headers/types.h, headers/Instruction.h).
    Words are 32-bit vectors, so wrap-around is the hardware's own. */
module Isa {

  type Word = bv32
  type Byte = bv8
  /** The address of the next instruction word. */
  function Following(pc: Word): Word { pc + 4 }

  type RegNum = n: nat | n < 32

  datatype AccessType = Read | Write | NoAccess

  datatype InstrType = R | I | S | B | U | J | System | Untyped

  datatype InstrName =
    | LUI | AUIPC | JAL | JALR
    | BEQ | BNE | BLT | BGE | BLTU | BGEU
    | LB | LH | LW | LBU | LHU
    | SB | SH | SW
    | ADDI | SLTI | SLTIU | XORI | ORI | ANDI | SLLI | SRLI | SRAI
    | ADD | SUB | SLL | SLT | SLTU | XOR | SRL | SRA | OR | AND
    | ECALL
    | Unnamed

  datatype Register = Register(name: RegNum, value: Word)

  const NO_REG := Register(0, 0)

  /** One decoded instruction. The subclasses of the source are told apart by `typ`; a field that a
      subclass lacks holds a default. `addr` is the load or the store address. */
  datatype Instr = Instr(
    name: InstrName, typ: InstrType, acc: AccessType, accSize: nat, isBranch: bool,
    pc: Word, imm: Word, rs1: Register, rs2: Register, rd: Register,
    branchAddr: Word, taken: bool, addr: Word)

  const NO_INSTR := Instr(Unnamed, Untyped, NoAccess, 0, false, 0, 0, NO_REG, NO_REG, NO_REG, 0, false, 0)

  predicate ReadsRs1(t: InstrType) { t == R || t == I || t == S || t == B }

  predicate ReadsRs2(t: InstrType) { t == R || t == S || t == B }

  predicate WritesRd(t: InstrType) { t == R || t == I || t == U || t == J }

  /** The instruction locks register `n` from decode until its release. */
  predicate WriterOf(i: Instr, n: RegNum) { WritesRd(i.typ) && i.rd.name == n }

  predicate IsLoad(i: Instr) { i.acc == Read && i.typ == I }

  predicate IsStore(i: Instr) { i.acc == Write && i.typ == S }

  /** The instruction sends fetch elsewhere: JAL, JALR and a taken branch (src/PerfSim.cpp:100-103). */
  predicate Redirects(i: Instr) { i.isBranch && (i.typ == J || i.typ == I || (i.typ == B && i.taken)) }
}
