/** The reference: one instruction at a time, built from the same decoder, executors and load widths,
    so that executor slips are common to both machines. */
module Sequential {
  import opened Isa
  import opened Decoding
  import opened Executors
  import opened Memories
  import opened StoreQueues
  import opened Machines

  datatype SeqState = SeqState(pc: Word, regs: RegVector, mem: Mem, halted: bool)

  function WordAt(mem: Mem, pc: Word): Word { ReadWord(mem, Index(pc), 4) }

  function CodeAt(s: SeqState): Word { WordAt(s.mem, s.pc) }

  /** The instruction decoded with the registers of `s`. `rdValue` and `leftover` are what decoding
      captures of the old rd and of the recycled object; execution must not depend on them. */
  function Issue(s: SeqState, rdValue: Word, leftover: bool): Instr {
    var w := CodeAt(s);
    MakeInstr(w, s.pc, s.regs[Rs1(w)], s.regs[Rs2(w)], Register(Rd(w), rdValue), leftover)
  }

  /** Memory access of an executed instruction. */
  function Complete(i: Instr, mem: Mem): Instr {
    if IsLoad(i) then Loaded(i, ReadWord(mem, Index(i.addr), i.accSize)) else i
  }

  /** The instruction at `s`, complete. */
  function Done(s: SeqState): Instr {
    Complete(Execute(Issue(s, 0, false)), s.mem)
  }

  function NextPc(i: Instr): Word { if Redirects(i) then i.branchAddr else Following(i.pc) }

  function NextRegs(regs: RegVector, i: Instr): RegVector {
    if WritesRd(i.typ) && i.rd.name != 0 then regs[i.rd.name := i.rd] else regs
  }

  function NextMem(mem: Mem, i: Instr): (r: Mem)
    ensures |r| == |mem|
  {
    if IsStore(i) then WriteWord(mem, Index(i.addr), i.accSize, i.rs2.value) else mem
  }

  function SeqStep(s: SeqState): SeqState {
    if s.halted then s
    else
      var i := Done(s);
      SeqState(NextPc(i), NextRegs(s.regs, i), NextMem(s.mem, i), i.name == ECALL)
  }

  function St(s0: SeqState, k: nat): SeqState { if k == 0 then s0 else SeqStep(St(s0, k - 1)) }

  // ---- What the opcode table guarantees about a recognised instruction ----

  /** Name, type, access and branch flag fit together. */
  predicate Fits(id: Ident) {
    && (id.acc == Read <==> IsLoadName(id.name))
    && (id.acc == Write <==> IsStoreName(id.name))
    && (id.acc == Read ==> id.typ == I) && (id.acc == Write ==> id.typ == S)
    && (id.acc != NoAccess ==> AccessSize(id.size))
    && (id.typ == B && id.name != Unnamed <==> IsBranchName(id.name))
    && (id.name == ECALL ==> id.typ == System)
    && (id.isBranch <==> id.typ == J || id.typ == B || id.name == JALR)
    && (id.name != Unnamed && id.typ == System ==> id.name == ECALL)
    && (id.name != Unnamed ==> id.typ != Untyped)
    && (id.isBranch ==> id.acc == NoAccess)
    && (ComputesRd(id.name) ==> id.acc == NoAccess)
    && (WritesRd(id.typ) && id.name != Unnamed && id.acc == NoAccess ==> ComputesRd(id.name))
  }

  /** The row of the opcode table an instruction carries. */
  function RowOf(i: Instr): Ident { Ident(i.name, i.typ, i.acc, i.accSize, i.isBranch) }

  predicate IsLoadName(n: InstrName) { n == LB || n == LH || n == LW || n == LBU || n == LHU }

  predicate IsStoreName(n: InstrName) { n == SB || n == SH || n == SW }

  lemma SignedLoadEntriesFit()
    ensures Fits(Ident(LB, I, Read, 1, false)) && Fits(Ident(LH, I, Read, 2, false)) && Fits(Ident(LW, I, Read, 4, false))
  {
  }

  lemma OtherLoadEntriesFit()
    ensures Fits(Ident(LBU, I, Read, 1, false)) && Fits(Ident(LHU, I, Read, 2, false)) && Fits(Plain(Unnamed, I))
  {
  }

  lemma StoreEntriesFit()
    ensures Fits(Ident(SB, S, Write, 1, false)) && Fits(Ident(SH, S, Write, 2, false)) && Fits(Ident(SW, S, Write, 4, false))
    ensures Fits(Plain(Unnamed, S))
  {
  }

  lemma AccessTablesFit(f3: Word)
    ensures Fits(LoadIdent(f3)) && Fits(StoreIdent(f3))
  {
    hide Fits;
    SignedLoadEntriesFit();
    OtherLoadEntriesFit();
    StoreEntriesFit();
  }

  lemma RecognizeFits(w: Word)
    ensures Fits(Recognize(w))
  {
    hide Opcode, Funct3, Funct7, Fits, LoadIdent, StoreIdent, ImmediateOpIdent, BranchName, RegisterOpName;
    var f3, f7 := Funct3(w), Funct7(w);
    AccessTablesFit(f3);
    ImmediateTableFits(f3, f7);
    BranchTableFits(f3);
    RegisterTableFits(f3, f7);
    OtherTablesFit();
    SystemEntriesFit();
  }

  lemma ImmediateTableFits(f3: Word, f7: Word)
    ensures Fits(ImmediateOpIdent(f3, f7))
  {
    hide Fits;
    ShiftEntriesFit();
    ArithmeticEntriesFit();
    BitwiseEntriesFit();
  }

  lemma ShiftEntriesFit()
    ensures Fits(Plain(SLLI, I)) && Fits(Plain(SRLI, I)) && Fits(Plain(SRAI, I)) && Fits(Plain(Unnamed, Untyped))
  {
  }

  lemma ArithmeticEntriesFit()
    ensures Fits(Plain(ADDI, I)) && Fits(Plain(SLTI, I)) && Fits(Plain(SLTIU, I))
  {
  }

  lemma BitwiseEntriesFit()
    ensures Fits(Plain(XORI, I)) && Fits(Plain(ORI, I)) && Fits(Plain(ANDI, I))
  {
  }

  lemma BranchTableFits(f3: Word)
    ensures Fits(Ident(BranchName(f3), B, NoAccess, 0, true))
  {
  }

  lemma RegisterTableFits(f3: Word, f7: Word)
    ensures Fits(Plain(RegisterOpName(f3, f7), R))
  {
  }

  lemma OtherTablesFit()
    ensures Fits(Plain(LUI, U)) && Fits(Plain(AUIPC, U)) && Fits(Ident(JAL, J, NoAccess, 0, true))
    ensures Fits(Ident(JALR, I, NoAccess, 0, true))
  {
  }

  lemma SystemEntriesFit()
    ensures Fits(Plain(ECALL, System)) && Fits(Plain(Unnamed, System)) && Fits(Plain(Unnamed, Untyped))
  {
  }

  lemma TargetIgnoresOld(i: Instr, r: Register, leftover: bool)
    ensures var j := i.(rd := r, taken := leftover); Target(j) == Target(i) && Address(j) == Address(i)
  {
    hide IsBranchName, JumpTarget, Displaced;
  }

  lemma RdIgnoresOld(i: Instr, r: Register, leftover: bool)
    ensures var j := i.(rd := r, taken := leftover);
      && (IsBranchName(i.name) || leftover == i.taken ==> Taken(j) == Taken(i))
      && (ComputesRd(i.name) || r.value == i.rd.value ==> RdValue(j) == RdValue(i))
  {
    hide Alu, Compare, ComputesRd, IsBranchName;
  }

  /** Executing and completing overwrites the old rd value and the old taken flag of instruction `i`. */
  lemma OldFieldsOverwritten(i: Instr, v: Word, leftover: bool, mem: Mem)
    requires WritesRd(i.typ) && !IsLoad(i) ==> ComputesRd(i.name)
    requires IsBranchName(i.name) || leftover == i.taken
    requires WritesRd(i.typ) || i.rd.value == v
    ensures var j := i.(rd := Register(i.rd.name, v), taken := leftover);
      Complete(Execute(j), mem) == Complete(Execute(i), mem)
  {
    hide RdValue, Taken, Target, Address, Extended, ReadWord, ComputesRd, IsBranchName;
    TargetIgnoresOld(i, Register(i.rd.name, v), leftover);
    RdIgnoresOld(i, Register(i.rd.name, v), leftover);
  }

  /** The completed instruction does not depend on the rd value and the taken flag that decoding found. */
  lemma IssueIrrelevance(s: SeqState, rdValue: Word, leftover: bool)
    requires Recognize(CodeAt(s)).name != Unnamed
    ensures Complete(Execute(Issue(s, rdValue, leftover)), s.mem) == Done(s)
  {
    hide Recognize, ReadWord, Rs1, Rs2, Rd, Immediate, Execute, Complete;
    RecognizeFits(CodeAt(s));
    var i, j := Issue(s, rdValue, leftover), Issue(s, 0, false);
    assert i == j.(rd := Register(j.rd.name, i.rd.value), taken := i.taken);
    OldFieldsOverwritten(j, i.rd.value, i.taken, s.mem);
  }
}
