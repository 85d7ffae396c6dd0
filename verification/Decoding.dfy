/** Field extraction, immediates and the opcode table (src/Decoder.cpp, src/Instruction.cpp). */
module Decoding {
  import opened Isa

  function Opcode(w: Word): Word { w & 0x7f }
  function Funct3(w: Word): Word { (w >> 12) & 7 }
  function Funct7(w: Word): Word { (w >> 25) & 0x7f }
  function Rs1Field(w: Word): Word { (w >> 15) & 31 }
  function Rs2Field(w: Word): Word { (w >> 20) & 31 }
  function RdField(w: Word): Word { (w >> 7) & 31 }

  function Rs1(w: Word): RegNum { Rs1Field(w) as nat }
  function Rs2(w: Word): RegNum { Rs2Field(w) as nat }
  function Rd(w: Word): RegNum { RdField(w) as nat }

  // Immediates, piece by piece as src/Instruction.cpp assembles them. The U immediate is a plain mask.

  function ImmI(w: Word): Word {
    (if (w >> 31) & 1 == 1 then 0x1fffff << 11 else 0)
    + (((w >> 25) & 0x3f) << 5) + (((w >> 21) & 0xf) << 1) + ((w >> 20) & 1)
  }

  function ImmS(w: Word): Word {
    (if (w >> 31) & 1 == 1 then 0x1fffff << 11 else 0)
    + (((w >> 25) & 0x3f) << 5) + (((w >> 8) & 0xf) << 1) + ((w >> 7) & 1)
  }

  function ImmB(w: Word): Word {
    (if (w >> 31) & 1 == 1 then 0xfffff << 12 else 0)
    + (((w >> 25) & 0x3f) << 5) + (((w >> 8) & 0xf) << 1) + (((w >> 7) & 1) << 11)
  }

  function ImmU(w: Word): Word { w & 0xfffff000 }

  function ImmJ(w: Word): Word {
    (if (w >> 31) & 1 == 1 then 0xfff << 20 else 0)
    + (w & (0xff << 12)) + (((w >> 20) & 1) << 11) + (((w >> 25) & 0x3f) << 5) + (((w >> 21) & 0xf) << 1)
  }

  function Immediate(t: InstrType, w: Word): Word {
    match t
    case I => ImmI(w)
    case S => ImmS(w)
    case B => ImmB(w)
    case U => ImmU(w)
    case J => ImmJ(w)
    case _ => 0
  }

  /** What `recognize` leaves in the decoder's fields. */
  datatype Ident = Ident(name: InstrName, typ: InstrType, acc: AccessType, size: nat, isBranch: bool)

  function Plain(name: InstrName, t: InstrType): Ident { Ident(name, t, NoAccess, 0, false) }

  function BranchName(f3: Word): InstrName {
    if f3 == 0 then BEQ else if f3 == 1 then BNE
    else if f3 == 4 then BLT else if f3 == 5 then BGE
    else if f3 == 6 then BLTU else if f3 == 7 then BGEU
    else Unnamed
  }

  function LoadIdent(f3: Word): Ident {
    if f3 == 0 then Ident(LB, I, Read, 1, false)
    else if f3 == 1 then Ident(LH, I, Read, 2, false)
    else if f3 == 2 then Ident(LW, I, Read, 4, false)
    else if f3 == 4 then Ident(LBU, I, Read, 1, false)
    else if f3 == 5 then Ident(LHU, I, Read, 2, false)
    else Plain(Unnamed, I)
  }

  function StoreIdent(f3: Word): Ident {
    if f3 == 0 then Ident(SB, S, Write, 1, false)
    else if f3 == 1 then Ident(SH, S, Write, 2, false)
    else if f3 == 2 then Ident(SW, S, Write, 4, false)
    else Plain(Unnamed, S)
  }

  function ImmediateOpIdent(f3: Word, f7: Word): Ident {
    if f3 == 1 then Plain(SLLI, I)
    else if f3 == 5 then
      if f7 == 0 then Plain(SRLI, I)
      else if f7 == 0x20 then Plain(SRAI, I)
      else Plain(Unnamed, Untyped)
    else if f3 == 0 then Plain(ADDI, I)
    else if f3 == 2 then Plain(SLTI, I)
    else if f3 == 3 then Plain(SLTIU, I)
    else if f3 == 4 then Plain(XORI, I)
    else if f3 == 6 then Plain(ORI, I)
    else if f3 == 7 then Plain(ANDI, I)
    else Plain(Unnamed, Untyped)
  }

  function RegisterOpName(f3: Word, f7: Word): InstrName {
    if f7 == 0 then
      if f3 == 0 then ADD else if f3 == 1 then SLL
      else if f3 == 2 then SLT else if f3 == 3 then SLTU
      else if f3 == 4 then XOR else if f3 == 5 then SRL
      else if f3 == 6 then OR else if f3 == 7 then AND else Unnamed
    else if f7 == 0x20 then
      if f3 == 0 then SUB else if f3 == 5 then SRA else Unnamed
    else Unnamed
  }

  function Recognize(w: Word): Ident {
    var op, f3, f7 := Opcode(w), Funct3(w), Funct7(w);
    if op == 0x37 then Plain(LUI, U)
    else if op == 0x17 then Plain(AUIPC, U)
    else if op == 0x6f then Ident(JAL, J, NoAccess, 0, true)
    else if op == 0x67 then Ident(JALR, I, NoAccess, 0, true)
    else if op == 0x63 then Ident(BranchName(f3), B, NoAccess, 0, true)
    else if op == 0x03 then LoadIdent(f3)
    else if op == 0x23 then StoreIdent(f3)
    else if op == 0x13 then ImmediateOpIdent(f3, f7)
    else if op == 0x33 then Plain(RegisterOpName(f3, f7), R)
    else if op == 0x73 then Plain(if w == 0x73 then ECALL else Unnamed, System)
    else Plain(Unnamed, Untyped)
  }

  /** The instruction object `Decoder::decode` fills. `leftover` is the taken flag the recycled branch
      object still holds; no other type has a field that survives decoding and is read again. */
  function MakeInstr(w: Word, pc: Word, rs1: Register, rs2: Register, rd: Register, leftover: bool): (i: Instr)
    ensures var id := Recognize(w);
      i.name == id.name && i.typ == id.typ && i.acc == id.acc && i.isBranch == id.isBranch && i.accSize == id.size && i.pc == pc
    ensures WritesRd(i.typ) ==> i.rd == rd
  {
    var id := Recognize(w);
    Instr(id.name, id.typ, id.acc, id.size, id.isBranch, pc, Immediate(id.typ, w),
          if ReadsRs1(id.typ) then rs1 else NO_REG,
          if ReadsRs2(id.typ) then rs2 else NO_REG,
          if WritesRd(id.typ) then rd else NO_REG,
          0, id.typ == B && leftover, 0)
  }
}
