/** Encoding by sections 2.2 and 2.3 of the RISC-V Unprivileged ISA (20191213), and its round trips with
    `recognize`, the field extraction and the `calc_imm` methods (src/Decoder.cpp, src/Instruction.cpp). */
module Encoding {
  import opened Isa
  import opened Decoding
  import opened Executors

  // ---- The six formats ----

  function EncodeR(op: Word, f3: Word, f7: Word, rd: Word, rs1: Word, rs2: Word): Word {
    (f7 << 25) | (rs2 << 20) | (rs1 << 15) | (f3 << 12) | (rd << 7) | op
  }

  function EncodeI(op: Word, f3: Word, rd: Word, rs1: Word, imm: Word): Word {
    ((imm & 0xfff) << 20) | (rs1 << 15) | (f3 << 12) | (rd << 7) | op
  }

  function EncodeS(op: Word, f3: Word, rs1: Word, rs2: Word, imm: Word): Word {
    (((imm >> 5) & 0x7f) << 25) | (rs2 << 20) | (rs1 << 15) | (f3 << 12) | ((imm & 0x1f) << 7) | op
  }

  function EncodeB(op: Word, f3: Word, rs1: Word, rs2: Word, imm: Word): Word {
    (((imm >> 12) & 1) << 31) | (((imm >> 5) & 0x3f) << 25) | (rs2 << 20) | (rs1 << 15) | (f3 << 12)
    | (((imm >> 1) & 0xf) << 8) | (((imm >> 11) & 1) << 7) | op
  }

  function EncodeU(op: Word, rd: Word, imm: Word): Word { (imm & 0xffff_f000) | (rd << 7) | op }

  function EncodeJ(op: Word, rd: Word, imm: Word): Word {
    (((imm >> 20) & 1) << 31) | (((imm >> 1) & 0x3ff) << 21) | (((imm >> 11) & 1) << 20) | (imm & 0xf_f000)
    | (rd << 7) | op
  }

  predicate IsOp(op: Word) { op < 0x80 }
  predicate IsF3(f: Word) { f < 8 }
  predicate IsF7(f: Word) { f < 0x80 }
  predicate IsReg(r: Word) { r < 32 }

  // A sign-extended immediate of n bits, as an unsigned range check.
  predicate Fits12(imm: Word) { imm + 0x800 < 0x1000 }
  predicate FitsBranch(imm: Word) { imm + 0x1000 < 0x2000 && imm & 1 == 0 }
  predicate FitsJump(imm: Word) { imm + 0x10_0000 < 0x20_0000 && imm & 1 == 0 }
  predicate FitsUpper(imm: Word) { imm & 0xfff == 0 }

  // ---- Immediates without carries ----

  lemma DisjointAdd(a: Word, b: Word)
    requires a & b == 0
    ensures a + b == a | b
  {
  }

  function OrB(w: Word): Word {
    (if (w >> 31) & 1 == 1 then 0xffff_f000 else 0)
    | (((w >> 25) & 0x3f) << 5) | (((w >> 8) & 0xf) << 1) | (((w >> 7) & 1) << 11)
  }

  /** The parts of a B immediate occupy different bits, so the source's sum is an or. */
  lemma ImmBIsOr(w: Word)
    ensures ImmB(w) == OrB(w)
  {
    var s1: Word := if (w >> 31) & 1 == 1 then 0xfffff << 12 else 0;
    var s2, s3, s4 := ((w >> 25) & 0x3f) << 5, ((w >> 8) & 0xf) << 1, ((w >> 7) & 1) << 11;
    DisjointAdd(s1, s2);
    DisjointAdd(s1 | s2, s3);
    DisjointAdd(s1 | s2 | s3, s4);
  }

  function OrJ(w: Word): Word {
    (if (w >> 31) & 1 == 1 then 0xfff0_0000 else 0)
    | (w & 0xf_f000) | (((w >> 20) & 1) << 11) | (((w >> 25) & 0x3f) << 5) | (((w >> 21) & 0xf) << 1)
  }

  lemma ImmJIsOr(w: Word)
    ensures ImmJ(w) == OrJ(w)
  {
    var s1: Word := if (w >> 31) & 1 == 1 then 0xfff << 20 else 0;
    var s2, s3, s4, s5 := w & (0xff << 12), ((w >> 20) & 1) << 11, ((w >> 25) & 0x3f) << 5, ((w >> 21) & 0xf) << 1;
    DisjointAdd(s1, s2);
    DisjointAdd(s1 | s2, s3);
    DisjointAdd(s1 | s2 | s3, s4);
    DisjointAdd(s1 | s2 | s3 | s4, s5);
  }

  // ---- Immediates: decode after encode ----

  /** Whatever the other fields, `calc_imm` recovers every immediate in range, sign-extended. */
  lemma ImmediatesRoundTrip(op: Word, f3: Word, rd: Word, rs1: Word, rs2: Word, imm: Word)
    requires IsOp(op) && IsF3(f3) && IsReg(rd) && IsReg(rs1) && IsReg(rs2)
    ensures Fits12(imm) ==> ImmI(EncodeI(op, f3, rd, rs1, imm)) == imm
    ensures Fits12(imm) ==> ImmS(EncodeS(op, f3, rs1, rs2, imm)) == imm
    ensures FitsBranch(imm) ==> ImmB(EncodeB(op, f3, rs1, rs2, imm)) == imm
    ensures FitsUpper(imm) ==> ImmU(EncodeU(op, rd, imm)) == imm
    ensures FitsJump(imm) ==> ImmJ(EncodeJ(op, rd, imm)) == imm
  {
    RoundTripI(op, f3, rd, rs1, imm);
    RoundTripS(op, f3, rs1, rs2, imm);
    RoundTripB(op, f3, rs1, rs2, imm);
    RoundTripU(op, rd, imm);
    RoundTripJ(op, rd, imm);
  }

  lemma RoundTripI(op: Word, f3: Word, rd: Word, rs1: Word, imm: Word)
    requires IsOp(op) && IsF3(f3) && IsReg(rd) && IsReg(rs1)
    ensures Fits12(imm) ==> ImmI(EncodeI(op, f3, rd, rs1, imm)) == imm
  {
  }

  lemma RoundTripS(op: Word, f3: Word, rs1: Word, rs2: Word, imm: Word)
    requires IsOp(op) && IsF3(f3) && IsReg(rs1) && IsReg(rs2)
    ensures Fits12(imm) ==> ImmS(EncodeS(op, f3, rs1, rs2, imm)) == imm
  {
  }

  lemma RoundTripB(op: Word, f3: Word, rs1: Word, rs2: Word, imm: Word)
    requires IsOp(op) && IsF3(f3) && IsReg(rs1) && IsReg(rs2)
    ensures FitsBranch(imm) ==> ImmB(EncodeB(op, f3, rs1, rs2, imm)) == imm
  {
  }

  lemma RoundTripU(op: Word, rd: Word, imm: Word)
    requires IsOp(op) && IsReg(rd)
    ensures FitsUpper(imm) ==> ImmU(EncodeU(op, rd, imm)) == imm
  {
  }

  lemma RoundTripJ(op: Word, rd: Word, imm: Word)
    requires IsOp(op) && IsReg(rd)
    ensures FitsJump(imm) ==> ImmJ(EncodeJ(op, rd, imm)) == imm
  {
    ImmJIsOr(EncodeJ(op, rd, imm));
    hide ImmJ;
    EncodedOrJ(op, rd, imm);
  }

  lemma EncodedOrJ(op: Word, rd: Word, imm: Word)
    requires IsOp(op) && IsReg(rd)
    ensures FitsJump(imm) ==> OrJ(EncodeJ(op, rd, imm)) == imm
  {
  }

  // ---- Immediates: encode after decode ----

  /** Every word's immediate is in its format's range, and re-encoding the word's own fields gives it back. */
  lemma WordsReencode(w: Word)
    ensures Fits12(ImmI(w)) && Fits12(ImmS(w)) && FitsBranch(ImmB(w)) && FitsUpper(ImmU(w)) && FitsJump(ImmJ(w))
    ensures EncodeI(Opcode(w), Funct3(w), RdField(w), Rs1Field(w), ImmI(w)) == w
    ensures EncodeS(Opcode(w), Funct3(w), Rs1Field(w), Rs2Field(w), ImmS(w)) == w
    ensures EncodeB(Opcode(w), Funct3(w), Rs1Field(w), Rs2Field(w), ImmB(w)) == w
    ensures EncodeU(Opcode(w), RdField(w), ImmU(w)) == w
    ensures EncodeJ(Opcode(w), RdField(w), ImmJ(w)) == w
    ensures EncodeR(Opcode(w), Funct3(w), Funct7(w), RdField(w), Rs1Field(w), Rs2Field(w)) == w
  {
    ReencodeI(w);
    ReencodeS(w);
    ReencodeB(w);
    ReencodeU(w);
    ReencodeR(w);
    ReencodeJ(w);
  }

  lemma ReencodeI(w: Word)
    ensures Fits12(ImmI(w)) && EncodeI(Opcode(w), Funct3(w), RdField(w), Rs1Field(w), ImmI(w)) == w
  {
  }

  lemma ReencodeS(w: Word)
    ensures Fits12(ImmS(w)) && EncodeS(Opcode(w), Funct3(w), Rs1Field(w), Rs2Field(w), ImmS(w)) == w
  {
  }

  lemma ReencodeB(w: Word)
    ensures FitsBranch(ImmB(w)) && EncodeB(Opcode(w), Funct3(w), Rs1Field(w), Rs2Field(w), ImmB(w)) == w
  {
    ImmBIsOr(w);
    hide ImmB;
    ReencodeOrB(w);
  }

  lemma ReencodeOrB(w: Word)
    ensures FitsBranch(OrB(w)) && EncodeB(Opcode(w), Funct3(w), Rs1Field(w), Rs2Field(w), OrB(w)) == w
  {
    OrBFits(w);
    OrBParts(w);
  }

  lemma OrBFits(w: Word)
    ensures FitsBranch(OrB(w))
  {
  }

  lemma OrBParts(w: Word)
    ensures var imm := OrB(w);
      && ((imm >> 12) & 1) << 31 == w & 0x8000_0000
      && ((imm >> 5) & 0x3f) << 25 == w & 0x7e00_0000
      && ((imm >> 1) & 0xf) << 8 == w & 0xf00
      && ((imm >> 11) & 1) << 7 == w & 0x80
  {
  }

  lemma ReencodeU(w: Word)
    ensures FitsUpper(ImmU(w)) && EncodeU(Opcode(w), RdField(w), ImmU(w)) == w
  {
  }

  lemma ReencodeR(w: Word)
    ensures EncodeR(Opcode(w), Funct3(w), Funct7(w), RdField(w), Rs1Field(w), Rs2Field(w)) == w
  {
  }

  lemma ReencodeJ(w: Word)
    ensures FitsJump(ImmJ(w)) && EncodeJ(Opcode(w), RdField(w), ImmJ(w)) == w
  {
    ImmJIsOr(w);
    hide ImmJ;
    ReencodeOrJ(w);
  }

  lemma ReencodeOrJ(w: Word)
    ensures FitsJump(OrJ(w)) && EncodeJ(Opcode(w), RdField(w), OrJ(w)) == w
  {
    OrJFits(w);
    OrJParts(w);
  }

  lemma OrJFits(w: Word)
    ensures FitsJump(OrJ(w))
  {
  }

  /** Each piece of the J immediate goes back to the bits it came from. */
  lemma OrJParts(w: Word)
    ensures var imm := OrJ(w);
      && ((imm >> 20) & 1) << 31 == w & 0x8000_0000
      && ((imm >> 1) & 0x3ff) << 21 == w & 0x7fe0_0000
      && ((imm >> 11) & 1) << 20 == w & 0x10_0000
      && imm & 0xf_f000 == w & 0xf_f000
  {
  }

  // ---- The instruction listing (chapter 24 of the manual) ----

  datatype Format = FormatR | FormatI | FormatShift | FormatS | FormatB | FormatU | FormatJ | FormatSystem

  function FormatOf(n: InstrName): Format {
    match n
    case LUI | AUIPC => FormatU
    case JAL => FormatJ
    case JALR | LB | LH | LW | LBU | LHU | ADDI | SLTI | SLTIU | XORI | ORI | ANDI => FormatI
    case SLLI | SRLI | SRAI => FormatShift
    case BEQ | BNE | BLT | BGE | BLTU | BGEU => FormatB
    case SB | SH | SW => FormatS
    case ADD | SUB | SLL | SLT | SLTU | XOR | SRL | SRA | OR | AND => FormatR
    case ECALL | Unnamed => FormatSystem
  }

  function OpcodeOf(n: InstrName): Word {
    match n
    case LUI => 0x37
    case AUIPC => 0x17
    case JAL => 0x6f
    case JALR => 0x67
    case BEQ | BNE | BLT | BGE | BLTU | BGEU => 0x63
    case LB | LH | LW | LBU | LHU => 0x03
    case SB | SH | SW => 0x23
    case ADDI | SLTI | SLTIU | XORI | ORI | ANDI | SLLI | SRLI | SRAI => 0x13
    case ADD | SUB | SLL | SLT | SLTU | XOR | SRL | SRA | OR | AND => 0x33
    case ECALL | Unnamed => 0x73
  }

  function Funct3Of(n: InstrName): Word {
    match n
    case BNE | LH | SH | SLLI | SLL => 1
    case LW | SW | SLTI | SLT => 2
    case SLTIU | SLTU => 3
    case BLT | LBU | XORI | XOR => 4
    case BGE | LHU | SRLI | SRAI | SRL | SRA => 5
    case BLTU | ORI | OR => 6
    case BGEU | ANDI | AND => 7
    case _ => 0
  }

  function Funct7Of(n: InstrName): Word { if n == SUB || n == SRA || n == SRAI then 0x20 else 0 }

  /** What the rest of the simulator must be told about each instruction. */
  function IdentOf(n: InstrName): Ident {
    match n
    case LB | LBU => Ident(n, I, Read, 1, false)
    case LH | LHU => Ident(n, I, Read, 2, false)
    case LW => Ident(n, I, Read, 4, false)
    case SB => Ident(n, S, Write, 1, false)
    case SH => Ident(n, S, Write, 2, false)
    case SW => Ident(n, S, Write, 4, false)
    case JAL => Ident(n, J, NoAccess, 0, true)
    case JALR => Ident(n, I, NoAccess, 0, true)
    case BEQ | BNE | BLT | BGE | BLTU | BGEU => Ident(n, B, NoAccess, 0, true)
    case LUI | AUIPC => Ident(n, U, NoAccess, 0, false)
    case ADD | SUB | SLL | SLT | SLTU | XOR | SRL | SRA | OR | AND => Ident(n, R, NoAccess, 0, false)
    case ECALL | Unnamed => Ident(n, System, NoAccess, 0, false)
    case _ => Ident(n, I, NoAccess, 0, false)
  }

  /** An instruction as an assembler takes it; operands its format lacks are 0. */
  datatype Asm = Asm(name: InstrName, rd: Word, rs1: Word, rs2: Word, imm: Word)

  predicate Legal(a: Asm) {
    a.name != Unnamed && IsReg(a.rd) && IsReg(a.rs1) && IsReg(a.rs2)
    && match FormatOf(a.name)
       case FormatR => a.imm == 0
       case FormatI => a.rs2 == 0 && Fits12(a.imm)
       case FormatShift => a.rs2 == 0 && a.imm < 32
       case FormatS => a.rd == 0 && Fits12(a.imm)
       case FormatB => a.rd == 0 && FitsBranch(a.imm)
       case FormatU => a.rs1 == 0 && a.rs2 == 0 && FitsUpper(a.imm)
       case FormatJ => a.rs1 == 0 && a.rs2 == 0 && FitsJump(a.imm)
       case FormatSystem => a.rd == 0 && a.rs1 == 0 && a.rs2 == 0 && a.imm == 0
  }

  function Encode(a: Asm): Word {
    var op, f3, f7 := OpcodeOf(a.name), Funct3Of(a.name), Funct7Of(a.name);
    match FormatOf(a.name)
    case FormatR => EncodeR(op, f3, f7, a.rd, a.rs1, a.rs2)
    case FormatI => EncodeI(op, f3, a.rd, a.rs1, a.imm)
    case FormatShift => EncodeR(op, f3, f7, a.rd, a.rs1, a.imm)
    case FormatS => EncodeS(op, f3, a.rs1, a.rs2, a.imm)
    case FormatB => EncodeB(op, f3, a.rs1, a.rs2, a.imm)
    case FormatU => EncodeU(op, a.rd, a.imm)
    case FormatJ => EncodeJ(op, a.rd, a.imm)
    case FormatSystem => op
  }

  /** What the decoder reads back: its name, its register numbers and its immediate. */
  function Disassemble(w: Word): Asm {
    var id := Recognize(w);
    match FormatOf(id.name)
    case FormatR => Asm(id.name, RdField(w), Rs1Field(w), Rs2Field(w), 0)
    case FormatI => Asm(id.name, RdField(w), Rs1Field(w), 0, ImmI(w))
    case FormatShift => Asm(id.name, RdField(w), Rs1Field(w), 0, ImmI(w) & 31)
    case FormatS => Asm(id.name, 0, Rs1Field(w), Rs2Field(w), ImmS(w))
    case FormatB => Asm(id.name, 0, Rs1Field(w), Rs2Field(w), ImmB(w))
    case FormatU => Asm(id.name, RdField(w), 0, 0, ImmU(w))
    case FormatJ => Asm(id.name, RdField(w), 0, 0, ImmJ(w))
    case FormatSystem => Asm(id.name, 0, 0, 0, 0)
  }

  lemma FieldsOfR(op: Word, f3: Word, f7: Word, rd: Word, rs1: Word, rs2: Word)
    requires IsOp(op) && IsF3(f3) && IsF7(f7) && IsReg(rd) && IsReg(rs1) && IsReg(rs2)
    ensures var w := EncodeR(op, f3, f7, rd, rs1, rs2);
      && Opcode(w) == op && Funct3(w) == f3 && Funct7(w) == f7 && RdField(w) == rd && Rs1Field(w) == rs1 && Rs2Field(w) == rs2
  {
  }

  lemma FieldsOfI(op: Word, f3: Word, rd: Word, rs1: Word, imm: Word)
    requires IsOp(op) && IsF3(f3) && IsReg(rd) && IsReg(rs1)
    ensures var w := EncodeI(op, f3, rd, rs1, imm);
      Opcode(w) == op && Funct3(w) == f3 && RdField(w) == rd && Rs1Field(w) == rs1
  {
  }

  lemma FieldsOfS(op: Word, f3: Word, rs1: Word, rs2: Word, imm: Word)
    requires IsOp(op) && IsF3(f3) && IsReg(rs1) && IsReg(rs2)
    ensures var w := EncodeS(op, f3, rs1, rs2, imm);
      Opcode(w) == op && Funct3(w) == f3 && Rs1Field(w) == rs1 && Rs2Field(w) == rs2
  {
  }

  lemma FieldsOfB(op: Word, f3: Word, rs1: Word, rs2: Word, imm: Word)
    requires IsOp(op) && IsF3(f3) && IsReg(rs1) && IsReg(rs2)
    ensures var w := EncodeB(op, f3, rs1, rs2, imm);
      Opcode(w) == op && Funct3(w) == f3 && Rs1Field(w) == rs1 && Rs2Field(w) == rs2
  {
  }

  lemma FieldsOfUJ(op: Word, rd: Word, imm: Word)
    requires IsOp(op) && IsReg(rd)
    ensures Opcode(EncodeU(op, rd, imm)) == op && RdField(EncodeU(op, rd, imm)) == rd
    ensures Opcode(EncodeJ(op, rd, imm)) == op && RdField(EncodeJ(op, rd, imm)) == rd
  {
  }

  lemma ShiftAmount(op: Word, f3: Word, f7: Word, rd: Word, rs1: Word, amount: Word)
    requires IsOp(op) && IsF3(f3) && IsF7(f7) && IsReg(rd) && IsReg(rs1) && amount < 32
    ensures ImmI(EncodeR(op, f3, f7, rd, rs1, amount)) & 31 == amount
  {
  }

  predicate NeedsFunct3(f: Format) { f != FormatU && f != FormatJ && f != FormatSystem }
  predicate NeedsFunct7(f: Format) { f == FormatR || f == FormatShift }

  /** The fields the decoder looks at. It ignores funct3 of JALR and funct7 of SLLI. */
  predicate FieldsMatch(n: InstrName, op: Word, f3: Word, f7: Word) {
    && op == OpcodeOf(n) && (NeedsFunct3(FormatOf(n)) && n != JALR ==> f3 == Funct3Of(n))
    && (NeedsFunct7(FormatOf(n)) && n != SLLI ==> f7 == Funct7Of(n))
  }

  /** The opcode table, opcode by opcode. */
  lemma Rows(w: Word)
    ensures Opcode(w) == 0x03 ==> Recognize(w) == LoadIdent(Funct3(w))
    ensures Opcode(w) == 0x23 ==> Recognize(w) == StoreIdent(Funct3(w))
    ensures Opcode(w) == 0x13 ==> Recognize(w) == ImmediateOpIdent(Funct3(w), Funct7(w))
    ensures Opcode(w) == 0x63 ==> Recognize(w) == Ident(BranchName(Funct3(w)), B, NoAccess, 0, true)
    ensures Opcode(w) == 0x33 ==> Recognize(w) == Plain(RegisterOpName(Funct3(w), Funct7(w)), R)
    ensures Opcode(w) == 0x37 ==> Recognize(w) == Plain(LUI, U)
    ensures Opcode(w) == 0x17 ==> Recognize(w) == Plain(AUIPC, U)
    ensures Opcode(w) == 0x6f ==> Recognize(w) == Ident(JAL, J, NoAccess, 0, true)
    ensures Opcode(w) == 0x67 ==> Recognize(w) == Ident(JALR, I, NoAccess, 0, true)
    ensures Opcode(w) == 0x73 ==> Recognize(w) == Plain(if w == 0x73 then ECALL else Unnamed, System)
  {
    hide Opcode, Funct3, Funct7, LoadIdent, StoreIdent, ImmediateOpIdent, BranchName, RegisterOpName;
  }

  lemma RegisterRow(n: InstrName)
    requires FormatOf(n) == FormatR
    ensures OpcodeOf(n) == 0x33 && RegisterOpName(Funct3Of(n), Funct7Of(n)) == n && IdentOf(n) == Plain(n, R)
  {
  }

  lemma ShiftRow(n: InstrName, f7: Word)
    requires FormatOf(n) == FormatShift && (n != SLLI ==> f7 == Funct7Of(n))
    ensures OpcodeOf(n) == 0x13 && ImmediateOpIdent(Funct3Of(n), f7) == IdentOf(n)
  {
  }

  lemma ImmediateRow(n: InstrName, f7: Word)
    requires FormatOf(n) == FormatI
    ensures n == JALR ==> OpcodeOf(n) == 0x67 && IdentOf(n) == Ident(JALR, I, NoAccess, 0, true)
    ensures n != JALR ==> OpcodeOf(n) == 0x03 || OpcodeOf(n) == 0x13
    ensures OpcodeOf(n) == 0x03 ==> LoadIdent(Funct3Of(n)) == IdentOf(n)
    ensures OpcodeOf(n) == 0x13 ==> ImmediateOpIdent(Funct3Of(n), f7) == IdentOf(n)
  {
  }

  lemma StoreRow(n: InstrName)
    ensures FormatOf(n) == FormatS ==> OpcodeOf(n) == 0x23 && StoreIdent(Funct3Of(n)) == IdentOf(n)
  {
  }

  lemma BranchRow(n: InstrName)
    ensures FormatOf(n) == FormatB ==> OpcodeOf(n) == 0x63 && Ident(BranchName(Funct3Of(n)), B, NoAccess, 0, true) == IdentOf(n)
  {
  }

  lemma OtherRow(n: InstrName)
    ensures FormatOf(n) == FormatU ==> n == LUI || n == AUIPC
    ensures FormatOf(n) == FormatJ ==> n == JAL
    ensures FormatOf(n) == FormatSystem ==> n == ECALL || n == Unnamed
    ensures OpcodeOf(LUI) == 0x37 && OpcodeOf(AUIPC) == 0x17 && OpcodeOf(JAL) == 0x6f && OpcodeOf(ECALL) == 0x73
  {
  }

  /** The opcode table is the listing: the fields a format fixes determine the instruction. */
  lemma RecognizedByFields(n: InstrName, w: Word)
    requires n != Unnamed && (n == ECALL ==> w == 0x73) && FieldsMatch(n, Opcode(w), Funct3(w), Funct7(w))
    ensures Recognize(w) == IdentOf(n)
  {
    hide Opcode, Funct3, Funct7, OpcodeOf, Funct3Of, Funct7Of, Recognize, IdentOf, FormatOf, LoadIdent, StoreIdent,
         ImmediateOpIdent, BranchName, RegisterOpName;
    Rows(w);
    OtherIdents();
    OtherRow(n);
    LooseRows();
    StoreRow(n);
    BranchRow(n);
    match FormatOf(n)
    case FormatR => RegisterRow(n);
    case FormatShift => ShiftRow(n, Funct7(w));
    case FormatI => ImmediateRow(n, Funct7(w));
    case _ =>
  }

  /** The codes of every instruction fit their fields. */
  lemma CodesFit(n: InstrName)
    ensures IsOp(OpcodeOf(n)) && IsF3(Funct3Of(n)) && IsF7(Funct7Of(n))
    ensures IdentOf(n).name == n
  {
  }

  lemma DecodeEncodedR(a: Asm)
    requires Legal(a) && (FormatOf(a.name) == FormatR)
    ensures Recognize(Encode(a)) == IdentOf(a.name) && Disassemble(Encode(a)) == a
  {
    hide Recognize, OpcodeOf, Funct3Of, Funct7Of, IdentOf, Opcode, Funct3, Funct7, RdField, Rs1Field, Rs2Field,
         ImmI, ImmS, ImmB, ImmU, ImmJ, EncodeR, EncodeI, EncodeS, EncodeB, EncodeU, EncodeJ, IsOp, IsF3, IsF7, IsReg,
         Fits12, FitsBranch, FitsJump, FitsUpper;
    var op, f3, f7 := OpcodeOf(a.name), Funct3Of(a.name), Funct7Of(a.name);
    CodesFit(a.name);
    FieldsOfR(op, f3, f7, a.rd, a.rs1, a.rs2);
    RecognizedByFields(a.name, Encode(a));
  }

  lemma DecodeEncodedI(a: Asm)
    requires Legal(a) && (FormatOf(a.name) == FormatI)
    ensures Recognize(Encode(a)) == IdentOf(a.name) && Disassemble(Encode(a)) == a
  {
    hide Recognize, OpcodeOf, Funct3Of, Funct7Of, IdentOf, Opcode, Funct3, Funct7, RdField, Rs1Field, Rs2Field,
         ImmI, ImmS, ImmB, ImmU, ImmJ, EncodeR, EncodeI, EncodeS, EncodeB, EncodeU, EncodeJ, IsOp, IsF3, IsF7, IsReg,
         Fits12, FitsBranch, FitsJump, FitsUpper;
    var op, f3, f7 := OpcodeOf(a.name), Funct3Of(a.name), Funct7Of(a.name);
    CodesFit(a.name);
    FieldsOfI(op, f3, a.rd, a.rs1, a.imm);
    RoundTripI(op, f3, a.rd, a.rs1, a.imm);
    RecognizedByFields(a.name, Encode(a));
  }

  lemma DecodeEncodedShift(a: Asm)
    requires Legal(a) && (FormatOf(a.name) == FormatShift)
    ensures Recognize(Encode(a)) == IdentOf(a.name) && Disassemble(Encode(a)) == a
  {
    hide Recognize, OpcodeOf, Funct3Of, Funct7Of, IdentOf, Opcode, Funct3, Funct7, RdField, Rs1Field, Rs2Field,
         ImmI, ImmS, ImmB, ImmU, ImmJ, EncodeR, EncodeI, EncodeS, EncodeB, EncodeU, EncodeJ, IsOp, IsF3, IsF7, IsReg,
         Fits12, FitsBranch, FitsJump, FitsUpper;
    var op, f3, f7 := OpcodeOf(a.name), Funct3Of(a.name), Funct7Of(a.name);
    CodesFit(a.name);
    ShiftFits(a.imm);
    FieldsOfR(op, f3, f7, a.rd, a.rs1, a.imm);
    ShiftAmount(op, f3, f7, a.rd, a.rs1, a.imm);
    RecognizedByFields(a.name, Encode(a));
  }

  lemma DecodeEncodedS(a: Asm)
    requires Legal(a) && (FormatOf(a.name) == FormatS)
    ensures Recognize(Encode(a)) == IdentOf(a.name) && Disassemble(Encode(a)) == a
  {
    hide Recognize, OpcodeOf, Funct3Of, Funct7Of, IdentOf, Opcode, Funct3, Funct7, RdField, Rs1Field, Rs2Field,
         ImmI, ImmS, ImmB, ImmU, ImmJ, EncodeR, EncodeI, EncodeS, EncodeB, EncodeU, EncodeJ, IsOp, IsF3, IsF7, IsReg,
         Fits12, FitsBranch, FitsJump, FitsUpper;
    var op, f3, f7 := OpcodeOf(a.name), Funct3Of(a.name), Funct7Of(a.name);
    CodesFit(a.name);
    FieldsOfS(op, f3, a.rs1, a.rs2, a.imm);
    RoundTripS(op, f3, a.rs1, a.rs2, a.imm);
    RecognizedByFields(a.name, Encode(a));
  }

  lemma DecodeEncodedB(a: Asm)
    requires Legal(a) && (FormatOf(a.name) == FormatB)
    ensures Recognize(Encode(a)) == IdentOf(a.name) && Disassemble(Encode(a)) == a
  {
    hide Recognize, OpcodeOf, Funct3Of, Funct7Of, IdentOf, Opcode, Funct3, Funct7, RdField, Rs1Field, Rs2Field,
         ImmI, ImmS, ImmB, ImmU, ImmJ, EncodeR, EncodeI, EncodeS, EncodeB, EncodeU, EncodeJ, IsOp, IsF3, IsF7, IsReg,
         Fits12, FitsBranch, FitsJump, FitsUpper;
    var op, f3, f7 := OpcodeOf(a.name), Funct3Of(a.name), Funct7Of(a.name);
    CodesFit(a.name);
    FieldsOfB(op, f3, a.rs1, a.rs2, a.imm);
    RoundTripB(op, f3, a.rs1, a.rs2, a.imm);
    RecognizedByFields(a.name, Encode(a));
  }

  lemma DecodeEncodedUJ(a: Asm)
    requires Legal(a) && (FormatOf(a.name) == FormatU || FormatOf(a.name) == FormatJ)
    ensures Recognize(Encode(a)) == IdentOf(a.name) && Disassemble(Encode(a)) == a
  {
    hide Recognize, OpcodeOf, Funct3Of, Funct7Of, IdentOf, Opcode, Funct3, Funct7, RdField, Rs1Field, Rs2Field,
         ImmI, ImmS, ImmB, ImmU, ImmJ, EncodeR, EncodeI, EncodeS, EncodeB, EncodeU, EncodeJ, IsOp, IsF3, IsF7, IsReg,
         Fits12, FitsBranch, FitsJump, FitsUpper;
    var op, f3, f7 := OpcodeOf(a.name), Funct3Of(a.name), Funct7Of(a.name);
    CodesFit(a.name);
    FieldsOfUJ(op, a.rd, a.imm);
    RoundTripU(op, a.rd, a.imm);
    RoundTripJ(op, a.rd, a.imm);
    RecognizedByFields(a.name, Encode(a));
  }

  lemma DecodeEncodedSystem(a: Asm)
    requires Legal(a) && (FormatOf(a.name) == FormatSystem)
    ensures Recognize(Encode(a)) == IdentOf(a.name) && Disassemble(Encode(a)) == a
  {
    hide Recognize, OpcodeOf, Funct3Of, Funct7Of, IdentOf, Opcode, Funct3, Funct7, RdField, Rs1Field, Rs2Field,
         ImmI, ImmS, ImmB, ImmU, ImmJ, EncodeR, EncodeI, EncodeS, EncodeB, EncodeU, EncodeJ, IsOp, IsF3, IsF7, IsReg,
         Fits12, FitsBranch, FitsJump, FitsUpper;
    var op, f3, f7 := OpcodeOf(a.name), Funct3Of(a.name), Funct7Of(a.name);
    CodesFit(a.name);
    EcallOpcode();
    OnlyEcall(a.name);
    RecognizedByFields(a.name, Encode(a));
  }

  lemma OnlyEcall(n: InstrName)
    requires FormatOf(n) == FormatSystem && n != Unnamed
    ensures n == ECALL
  {
  }

  /** Encode, then extract and recognise: the same instruction with its type, access kind and size, its
      registers and its immediate. */
  lemma DecodeEncoded(a: Asm)
    requires Legal(a)
    ensures Recognize(Encode(a)) == IdentOf(a.name) && Disassemble(Encode(a)) == a
  {
    hide Recognize, Encode, IdentOf, Disassemble, Legal, FormatOf;
    match FormatOf(a.name) {
      case FormatR => DecodeEncodedR(a);
      case FormatI => DecodeEncodedI(a);
      case FormatShift => DecodeEncodedShift(a);
      case FormatS => DecodeEncodedS(a);
      case FormatB => DecodeEncodedB(a);
      case FormatU => DecodeEncodedUJ(a);
      case FormatJ => DecodeEncodedUJ(a);
      case FormatSystem => DecodeEncodedSystem(a);
    }
  }

  lemma ShiftFits(amount: Word)
    ensures amount < 32 ==> IsReg(amount)
  {
  }

  lemma EcallOpcode()
    ensures OpcodeOf(ECALL) == 0x73 && Opcode(0x73) == 0x73
  {
  }

  /** Distinct supported instructions never share a word. */
  lemma EncodeInjective(a: Asm, b: Asm)
    requires Legal(a) && Legal(b) && Encode(a) == Encode(b)
    ensures a == b
  {
    hide Encode, Disassemble, Legal;
    DecodeEncoded(a);
    DecodeEncoded(b);
  }

  /** Each name is recognised exactly on its fields. */
  lemma RecognizedExactly(n: InstrName, w: Word)
    requires n != Unnamed
    ensures Recognize(w).name == n <==> FieldsMatch(n, Opcode(w), Funct3(w), Funct7(w)) && (n == ECALL ==> w == 0x73)
  {
    hide Opcode, Funct3, Funct7, Recognize, FieldsMatch, IdentOf;
    IdentName(n);
    EcallOpcode();
    if Recognize(w).name == n { NameFixesFields(w); }
    if FieldsMatch(n, Opcode(w), Funct3(w), Funct7(w)) && (n == ECALL ==> w == 0x73) { RecognizedByFields(n, w); }
  }

  lemma NameFixesFields(w: Word)
    requires Recognize(w).name != Unnamed
    ensures FieldsMatch(Recognize(w).name, Opcode(w), Funct3(w), Funct7(w)) && (Recognize(w).name == ECALL ==> w == 0x73)
  {
    hide Opcode, Funct3, Funct7, FieldsMatch, LoadIdent, StoreIdent, ImmediateOpIdent, BranchName, RegisterOpName;
    var f3, f7 := Funct3(w), Funct7(w);
    LoadFields(f3, f7);
    StoreFields(f3, f7);
    ImmediateFields(f3, f7);
    BranchFields(f3, f7);
    RegisterFields(f3, f7);
    OtherFields(f3, f7);
  }

  lemma LoadFields(f3: Word, f7: Word)
    ensures var n := LoadIdent(f3).name; n != Unnamed ==> n != ECALL && FieldsMatch(n, 0x03, f3, f7)
  {
  }

  lemma StoreFields(f3: Word, f7: Word)
    ensures var n := StoreIdent(f3).name; n != Unnamed ==> n != ECALL && FieldsMatch(n, 0x23, f3, f7)
  {
  }

  lemma ImmediateFields(f3: Word, f7: Word)
    ensures var n := ImmediateOpIdent(f3, f7).name; n != Unnamed ==> n != ECALL && FieldsMatch(n, 0x13, f3, f7)
  {
    hide ImmediateOpIdent, FieldsMatch;
    if f3 == 1 || f3 == 5 { ShiftFields(f3, f7); } else { PlainFields(f3, f7); }
  }

  lemma ShiftFields(f3: Word, f7: Word)
    requires f3 == 1 || f3 == 5
    ensures var n := ImmediateOpIdent(f3, f7).name; n != Unnamed ==> n != ECALL && FieldsMatch(n, 0x13, f3, f7)
  {
  }

  lemma PlainFields(f3: Word, f7: Word)
    requires f3 != 1 && f3 != 5
    ensures var n := ImmediateOpIdent(f3, f7).name; n != Unnamed ==> n != ECALL && FieldsMatch(n, 0x13, f3, f7)
  {
  }

  lemma BranchFields(f3: Word, f7: Word)
    ensures var n := BranchName(f3); n != Unnamed ==> n != ECALL && FieldsMatch(n, 0x63, f3, f7)
  {
  }

  lemma RegisterFields(f3: Word, f7: Word)
    ensures var n := RegisterOpName(f3, f7); n != Unnamed ==> n != ECALL && FieldsMatch(n, 0x33, f3, f7)
  {
  }

  lemma OtherFields(f3: Word, f7: Word)
    ensures FieldsMatch(LUI, 0x37, f3, f7) && FieldsMatch(AUIPC, 0x17, f3, f7) && FieldsMatch(JAL, 0x6f, f3, f7)
    ensures FieldsMatch(JALR, 0x67, f3, f7) && FieldsMatch(ECALL, 0x73, f3, f7)
  {
    hide Funct3Of, Funct7Of, OpcodeOf;
    OtherRow(LUI);
    LooseRows();
  }

  lemma LooseRows()
    ensures OpcodeOf(JALR) == 0x67 && FormatOf(JALR) == FormatI && FormatOf(SLLI) == FormatShift
  {
  }

  // ---- The instruction object ----

  predicate HasRd(f: Format) { f == FormatR || f == FormatI || f == FormatShift || f == FormatU || f == FormatJ }
  predicate HasRs1(f: Format) { f == FormatR || f == FormatI || f == FormatShift || f == FormatS || f == FormatB }
  predicate HasRs2(f: Format) { f == FormatR || f == FormatS || f == FormatB }

  /** Every word with a name carries the table entry of its name. */
  lemma NamedIdent(w: Word)
    ensures Recognize(w).name != Unnamed ==> Recognize(w) == IdentOf(Recognize(w).name)
  {
    hide Opcode, Funct3, Funct7, IdentOf, Recognize, FieldsMatch;
    if Recognize(w).name != Unnamed {
      NameFixesFields(w);
      RecognizedByFields(Recognize(w).name, w);
    }
  }

  lemma OtherIdents()
    ensures IdentOf(LUI) == Plain(LUI, U) && IdentOf(AUIPC) == Plain(AUIPC, U) && IdentOf(ECALL) == Plain(ECALL, System)
    ensures IdentOf(JAL) == Ident(JAL, J, NoAccess, 0, true) && IdentOf(JALR) == Ident(JALR, I, NoAccess, 0, true)
  {
  }

  /** What a field of an object's class means for its format. */
  lemma TypeOfFormat(n: InstrName)
    requires n != Unnamed
    ensures var f := FormatOf(n); var t := IdentOf(n).typ;
      && (ReadsRs1(t) <==> HasRs1(f)) && (ReadsRs2(t) <==> HasRs2(f)) && (WritesRd(t) <==> HasRd(f))
      && (f == FormatI || f == FormatShift <==> t == I) && (f == FormatR <==> t == R) && (f == FormatS <==> t == S)
      && (f == FormatB <==> t == B) && (f == FormatU <==> t == U) && (f == FormatJ <==> t == J)
  {
  }

  /** `imm` is the immediate of `a`; a shift's executor uses the low five bits. */
  predicate Carries(a: Asm, imm: Word) { if FormatOf(a.name) == FormatShift then imm & 31 == a.imm else imm == a.imm }

  /** The immediate of an object made from a word is the disassembled one; shifts use its low five bits. */
  lemma ImmediateDisassembled(w: Word)
    requires Recognize(w).name != Unnamed
    ensures Carries(Disassemble(w), Immediate(Recognize(w).typ, w))
  {
    hide Recognize, IdentOf, FormatOf, RdField, Rs1Field, Rs2Field, ImmI, ImmS, ImmB, ImmU, ImmJ;
    NamedIdent(w);
    TypeOfFormat(Recognize(w).name);
  }

  /** Encode an instruction and build its object: immediate, sources and rd are the assembler's. */
  lemma MadeFromEncoded(a: Asm, pc: Word, r1: Register, r2: Register, rd: Register, leftover: bool)
    requires Legal(a)
    ensures var i := MakeInstr(Encode(a), pc, r1, r2, rd, leftover); var f := FormatOf(a.name);
      && i.name == a.name && i.pc == pc
      && Carries(a, i.imm)
      && (HasRs1(f) ==> i.rs1 == r1) && (HasRs2(f) ==> i.rs2 == r2) && (HasRd(f) ==> i.rd == rd)
    ensures var w := Encode(a); var f := FormatOf(a.name);
      && (HasRs1(f) ==> Rs1(w) == a.rs1 as int) && (HasRs2(f) ==> Rs2(w) == a.rs2 as int) && (HasRd(f) ==> Rd(w) == a.rd as int)
  {
    hide Recognize, Encode, IdentOf, FormatOf, Legal, RdField, Rs1Field, Rs2Field, ImmI, ImmS, ImmB, ImmU, ImmJ;
    DecodeEncoded(a);
    IdentName(a.name);
    LegalName(a);
    TypeOfFormat(a.name);
    ImmediateDisassembled(Encode(a));
  }

  lemma EncodedImmediate(a: Asm)
    requires Legal(a)
    ensures Carries(a, Immediate(IdentOf(a.name).typ, Encode(a)))
  {
    hide Recognize, Encode, IdentOf, Disassemble, Legal, Immediate, Carries;
    DecodeEncoded(a);
    IdentName(a.name);
    LegalName(a);
    ImmediateDisassembled(Encode(a));
  }

  lemma AssembledImmediates(t: InstrType, w: Word)
    ensures forall a: Asm | Legal(a) && Encode(a) == w && IdentOf(a.name).typ == t :: Carries(a, Immediate(t, w))
  {
    hide Recognize, Encode, IdentOf, Disassemble, Legal, Immediate, Carries;
    forall a: Asm | Legal(a) && Encode(a) == w && IdentOf(a.name).typ == t ensures Carries(a, Immediate(t, w)) {
      EncodedImmediate(a);
    }
  }

  lemma IdentName(n: InstrName)
    ensures IdentOf(n).name == n
  {
  }

  lemma LegalName(a: Asm)
    requires Legal(a)
    ensures a.name != Unnamed
  {
    hide FitsBranch, FitsJump, FitsUpper, Fits12, IsReg, FormatOf;
  }

  // ---- Constants and addresses from two instructions ----

  /** The upper part that LUI or AUIPC must load and the low part ADDI must add. */
  function Upper(c: Word): Word { (c + 0x800) & 0xffff_f000 }

  function Lower(c: Word): Word { if c & 0x800 == 0 then c & 0xfff else c | 0xffff_f000 }

  lemma PartsFit(c: Word)
    ensures FitsUpper(Upper(c)) && Fits12(Lower(c))
  {
  }

  lemma PartsSum(c: Word)
    ensures Plus(Upper(c), Lower(c)) == c
  {
    hide Upper, Lower;
    if c & 0x800 == 0 { LowHalfSum(c); } else { HighHalfSum(c); }
  }

  lemma LowHalfSum(c: Word)
    requires c & 0x800 == 0
    ensures Upper(c) + Lower(c) == c
  {
  }

  lemma HighHalfSum(c: Word)
    requires c & 0x800 != 0
    ensures Upper(c) + Lower(c) == c
  {
  }

  /** The rd value `w` computes at `pc` when its base register holds `a`. */
  function Computed(w: Word, pc: Word, a: Register, rd: Register): Word {
    Execute(MakeInstr(w, pc, a, NO_REG, rd, false)).rd.value
  }

  lemma ComputesFrom(a: Asm, pc: Word, r: Register, rd: Register)
    requires Legal(a) && (a.name == LUI || a.name == AUIPC || a.name == ADDI)
    ensures Computed(Encode(a), pc, r, rd) == Alu(a.name, if a.name == ADDI then r.value else 0, 0, a.imm, pc)
  {
    hide Recognize, Encode, Legal, RdField, Rs1Field, Rs2Field, ImmI, ImmS, ImmB, ImmU, ImmJ, Alu, JumpTarget,
         Displaced, Compare;
    DecodeEncoded(a);
    UpperIgnoresBase(a.name, r.value, a.imm, pc);
  }

  lemma UpperIgnoresBase(n: InstrName, b: Word, imm: Word, pc: Word)
    ensures n == LUI || n == AUIPC ==> Alu(n, b, 0, imm, pc) == Alu(n, 0, 0, imm, pc)
  {
  }

  lemma LegalParts(c: Word, rd: Word)
    requires IsReg(rd)
    ensures Legal(Asm(LUI, rd, 0, 0, Upper(c))) && Legal(Asm(AUIPC, rd, 0, 0, Upper(c)))
    ensures Legal(Asm(ADDI, rd, rd, 0, Lower(c)))
  {
    hide Upper, Lower, FitsUpper, Fits12;
    PartsFit(c);
  }

  /** LUI then ADDI leaves exactly `c`, for every 32-bit `c`, through encoding, decoding and executing. */
  lemma LoadConstant(c: Word, rd: Word, pc: Word, was: Register)
    requires IsReg(rd)
    ensures var hi := Computed(Encode(Asm(LUI, rd, 0, 0, Upper(c))), pc, NO_REG, was);
      Computed(Encode(Asm(ADDI, rd, rd, 0, Lower(c))), Following(pc), Register(was.name, hi), was) == c
  {
    hide Encode, Computed, Upper, Lower, IsReg, Legal, Following, Alu, Plus;
    var lui, addi := Asm(LUI, rd, 0, 0, Upper(c)), Asm(ADDI, rd, rd, 0, Lower(c));
    LegalParts(c, rd);
    ComputesFrom(lui, pc, NO_REG, was);
    LuiLoads(Upper(c), pc);
    ComputesFrom(addi, Following(pc), Register(was.name, Upper(c)), was);
    AluSums(Lower(c), Following(pc), Upper(c));
    PartsSum(c);
  }

  lemma LuiLoads(imm: Word, pc: Word)
    ensures Alu(LUI, 0, 0, imm, pc) == imm
  {
  }

  /** AUIPC then ADDI leaves pc + c, modulo 2^32. */
  lemma LoadAddress(c: Word, rd: Word, pc: Word, was: Register)
    requires IsReg(rd)
    ensures var hi := Computed(Encode(Asm(AUIPC, rd, 0, 0, Upper(c))), pc, NO_REG, was);
      Computed(Encode(Asm(ADDI, rd, rd, 0, Lower(c))), Following(pc), Register(was.name, hi), was) == Plus(pc, c)
  {
    hide Encode, Computed, Upper, Lower, IsReg, Legal, Following, Alu, Plus;
    var auipc, addi := Asm(AUIPC, rd, 0, 0, Upper(c)), Asm(ADDI, rd, rd, 0, Lower(c));
    LegalParts(c, rd);
    ComputesFrom(auipc, pc, NO_REG, was);
    var hi := Alu(AUIPC, 0, 0, Upper(c), pc);
    ComputesFrom(addi, Following(pc), Register(was.name, hi), was);
    PartsSum(c);
    AluSums(Upper(c), pc, 0);
    AluSums(Lower(c), Following(pc), hi);
    SumReorders(Upper(c), pc, Lower(c));
  }

  // 32-bit sums behind a name: the solver reorders them in one place only.
  function Plus(a: Word, b: Word): Word { a + b }

  lemma SumReorders(a: Word, b: Word, c: Word)
    ensures Plus(Plus(a, b), c) == Plus(b, Plus(a, c))
  {
    assert Plus(a, b) == a + b && Plus(a, c) == a + c;
    RawSumReorders(a, b, c);
  }

  lemma RawSumReorders(a: Word, b: Word, c: Word)
    ensures (a + b) + c == b + (a + c)
  {
  }

  lemma AluSums(imm: Word, pc: Word, a: Word)
    ensures Alu(AUIPC, 0, 0, imm, pc) == Plus(imm, pc) && Alu(ADDI, a, 0, imm, pc) == Plus(a, imm)
  {
  }
}
