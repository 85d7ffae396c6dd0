/** One step of the reference machine, in integers: where it goes, what it leaves in the registers and in memory.
    Neither the decoder nor the executors nor the widths of the accesses are named; they are what is proved right
    (src/Decoder.cpp, src/Executors.cpp, src/PerfSim.cpp:100-157, 166-207). */
module Behaviour {
  import opened Isa
  import opened Decoding
  import opened Executors
  import opened Memories
  import opened StoreQueues
  import opened Machines
  import opened Sequential
  import opened Encoding
  import opened Numbers
  import opened Manual
  import opened Refinement
  import opened Termination

  // ---- The reading of a state ----

  /** `n` bytes of memory at `a` as a number, the lowest first. */
  function Little(mem: Mem, a: nat, n: nat): nat
    decreases n
  {
    if n == 0 then 0 else ByteValue(ByteAt(mem, a)) + 256 * Little(mem, a + 1, n - 1)
  }

  predicate Operands(a: Asm) { Unsigned(a.rd) < 32 && Unsigned(a.rs1) < 32 && Unsigned(a.rs2) < 32 }

  function Reg(s: SeqState, r: Word): nat
    requires Unsigned(r) < 32
  {
    Unsigned(s.regs[Unsigned(r)].value)
  }

  /** The address of the access of a load or a store. */
  function AccessAt(a: Asm, s: SeqState): nat
    requires Operands(a)
  {
    (Reg(s, a.rs1) + Unsigned(a.imm)) % MODULUS
  }

  function AccessBytes(n: InstrName): nat {
    match n
    case LB | LBU | SB => 1
    case LH | LHU | SH => 2
    case LW | SW => 4
    case _ => 0
  }

  // ---- What a step does ----

  /** JAL, JALR and a branch that holds go to their destination, everything else to the next word. */
  function NextAddress(a: Asm, s: SeqState): nat
    requires Operands(a)
  {
    if a.name == JAL || a.name == JALR || (Branches(a.name) && Decides(a.name, Reg(s, a.rs1), Reg(s, a.rs2)))
    then Destination(a.name, Reg(s, a.rs1), Unsigned(a.imm), Unsigned(s.pc))
    else (Unsigned(s.pc) + 4) % MODULUS
  }

  /** What a load leaves of `data`, the number in memory. The sub-word loads keep one or two bits, as in the
      source. */
  predicate LoadLeaves(n: InstrName, data: nat, r: nat) {
    match n
    case LW => r == data
    case LBU => r == data % 2
    case LHU => r == data % 4
    case LB => r == if data % 2 == 1 then MODULUS - 1 else 0
    case LH => r == if data % 4 < 2 then data % 4 else MODULUS - 4 + data % 4
    case _ => true
  }

  predicate Loads(n: InstrName) { n == LW || n == LBU || n == LHU || n == LB || n == LH }
  predicate Stores(n: InstrName) { n == SW || n == SH || n == SB }

  ghost predicate Result(a: Asm, s: SeqState, r: nat)
    requires Operands(a)
  {
    if Loads(a.name) then LoadLeaves(a.name, Little(s.mem, AccessAt(a, s), AccessBytes(a.name)), r)
    else Computes(a.name, Reg(s, a.rs1), Reg(s, a.rs2), Unsigned(a.imm), Unsigned(s.pc), r)
  }

  ghost predicate RegistersStep(a: Asm, s: SeqState, t: SeqState)
    requires Operands(a)
  {
    forall n: RegNum ::
      if n != 0 && SetsRd(a.name) && n == Unsigned(a.rd) then t.regs[n].name == n && Result(a, s, Unsigned(t.regs[n].value))
      else t.regs[n] == s.regs[n]
  }

  /** A store changes exactly the bytes it covers, if they are all there. */
  ghost predicate MemoryStep(a: Asm, s: SeqState, t: SeqState)
    requires Operands(a)
  {
    var at, n := AccessAt(a, s), AccessBytes(a.name);
    && |t.mem| == |s.mem|
    && forall p: nat ::
      ByteValue(ByteAt(t.mem, p)) ==
        if Stores(a.name) && at + n <= |s.mem| && at <= p < at + n then ByteNumber(Reg(s, a.rs2), p - at)
        else ByteValue(ByteAt(s.mem, p))
  }

  /** `t` is the state after instruction `a` in state `s`. */
  ghost predicate Steps(a: Asm, s: SeqState, t: SeqState) {
    && Operands(a) && Unsigned(t.pc) == NextAddress(a, s) && RegistersStep(a, s, t) && MemoryStep(a, s, t)
    && (t.halted <==> a.name == ECALL)
  }

  // ---- Words of memory ----

  /** A word read from memory is the number there, whatever its width. */
  lemma ReadIsLittle(mem: Mem, a: nat, n: nat)
    requires n == 1 || n == 2 || n == 4
    ensures Unsigned(ReadWord(mem, a, n)) == Little(mem, a, n)
  {
    hide Unsigned, Pack, ByteValue;
    PackIs(ReadByte(mem, a, n, 0), ReadByte(mem, a, n, 1), ReadByte(mem, a, n, 2), ReadByte(mem, a, n, 3));
    NoByte();
    LittleParts(mem, a);
  }

  lemma NoByte()
    ensures ByteValue(0) == 0
  {
  }

  lemma LittleParts(mem: Mem, a: nat)
    ensures Little(mem, a, 1) == ByteValue(ByteAt(mem, a))
    ensures Little(mem, a, 2) == ByteValue(ByteAt(mem, a)) + 256 * ByteValue(ByteAt(mem, a + 1))
    ensures Little(mem, a, 4) == ByteValue(ByteAt(mem, a)) + 256 * ByteValue(ByteAt(mem, a + 1))
                                 + 65536 * ByteValue(ByteAt(mem, a + 2)) + 16777216 * ByteValue(ByteAt(mem, a + 3))
  {
    hide ByteValue;
    assert Little(mem, a + 3, 1) == ByteValue(ByteAt(mem, a + 3));
    assert Little(mem, a + 2, 2) == ByteValue(ByteAt(mem, a + 2)) + 256 * Little(mem, a + 3, 1);
    assert Little(mem, a + 1, 3) == ByteValue(ByteAt(mem, a + 1)) + 256 * Little(mem, a + 2, 2);
    assert Little(mem, a + 1, 1) == ByteValue(ByteAt(mem, a + 1));
  }

  lemma ExtendedRight(n: InstrName, data: Word)
    requires Loads(n)
    ensures LoadLeaves(n, Unsigned(data), Unsigned(Extended(n, AccessBytes(n), data)))
  {
    hide Unsigned, LoadLeaves, Extended, AccessBytes;
    match n
    case LW => WordLeft(data);
    case LB => ByteLeft(data);
    case LBU => ByteLeft(data);
    case _ => HalfLeft(data);
  }

  lemma WordLeft(data: Word)
    ensures LoadLeaves(LW, Unsigned(data), Unsigned(Extended(LW, AccessBytes(LW), data)))
  {
    hide Unsigned;
  }

  lemma ByteLeft(data: Word)
    ensures LoadLeaves(LB, Unsigned(data), Unsigned(Extended(LB, AccessBytes(LB), data)))
    ensures LoadLeaves(LBU, Unsigned(data), Unsigned(Extended(LBU, AccessBytes(LBU), data)))
  {
    hide Unsigned, SignExtend;
    MaskTwo(data);
    OneBitKept(data);
    Last();
    Zero();
  }

  lemma OneBitKept(data: Word)
    ensures SignExtend(data, 1, true) == if data & 1 == 1 then 0xffff_ffff else 0
    ensures SignExtend(data, 1, false) == data & 1
    ensures data & 1 == 1 || data & 1 == 0
  {
  }

  lemma HalfLeft(data: Word)
    ensures LoadLeaves(LH, Unsigned(data), Unsigned(Extended(LH, AccessBytes(LH), data)))
    ensures LoadLeaves(LHU, Unsigned(data), Unsigned(Extended(LHU, AccessBytes(LHU), data)))
  {
    hide Unsigned, SignExtend;
    MaskTwo(data);
    TwoBitsKept(data);
    SmallNumbers();
  }

  lemma TwoBitsKept(data: Word)
    ensures SignExtend(data, 2, false) == data & 3
    ensures data & 3 == 0 || data & 3 == 1 || data & 3 == 2 || data & 3 == 3
    ensures data & 3 == 0 || data & 3 == 1 ==> SignExtend(data, 2, true) == data & 3
    ensures data & 3 == 2 ==> SignExtend(data, 2, true) == 0xffff_fffe
    ensures data & 3 == 3 ==> SignExtend(data, 2, true) == 0xffff_ffff
  {
  }

  lemma SmallNumbers()
    ensures Unsigned(0) == 0 && Unsigned(1) == 1 && Unsigned(2) == 2 && Unsigned(3) == 3
    ensures Unsigned(0xffff_fffe) == MODULUS - 2 && Unsigned(0xffff_ffff) == MODULUS - 1
  {
  }

  /** A store of `n` bytes changes exactly the bytes it covers. */
  lemma WrittenRight(mem: Mem, a: nat, n: nat, w: Word, p: nat)
    requires n <= 4
    ensures |WriteWord(mem, a, n, w)| == |mem|
    ensures ByteValue(ByteAt(WriteWord(mem, a, n, w), p)) ==
      if a + n <= |mem| && a <= p < a + n then ByteNumber(Unsigned(w), p - a) else ByteValue(ByteAt(mem, p))
  {
    hide Unsigned, ByteValue, ByteNumber, ByteOf;
    if a + n <= |mem| {
      WriteWordByte(mem, a, n, w, p);
      if a <= p < a + n { ByteOfIs(w, p - a); }
    }
  }

  // ---- The instruction at a state ----

  /** Operands a name does not have do not matter, nor do the upper bits of a shift's immediate. */
  lemma OperandsMatter(n: InstrName, x: nat, y: nat, imm: nat, x': nat, y': nat, imm': nat, pc: nat, r: nat)
    requires HasRs1(FormatOf(n)) ==> x == x'
    requires HasRs2(FormatOf(n)) ==> y == y'
    requires if FormatOf(n) == FormatShift then imm % 32 == imm' % 32 else imm == imm'
    ensures Computes(n, x, y, imm, pc, r) <==> Computes(n, x', y', imm', pc, r)
  {
    hide Signed, HasBit, Pow2;
  }

  /** The register numbers of a word, and its immediate, as disassembled. */
  lemma FieldsAre(w: Word)
    requires Recognize(w).name != Unnamed
    ensures var a := Disassemble(w); var f := FormatOf(a.name);
      && Operands(a) && a.name == Recognize(w).name && Recognize(w) == IdentOf(a.name)
      && (HasRd(f) ==> Unsigned(a.rd) == Rd(w)) && (HasRs1(f) ==> Unsigned(a.rs1) == Rs1(w))
      && (HasRs2(f) ==> Unsigned(a.rs2) == Rs2(w)) && Carries(a, Immediate(Recognize(w).typ, w))
  {
    hide Recognize, IdentOf, FormatOf, RdField, Rs1Field, Rs2Field, Disassemble, Carries, Immediate, Unsigned, Rd, Rs1, Rs2,
         HasRd, HasRs1, HasRs2;
    NamedIdent(w);
    ImmediateDisassembled(w);
    DisassembledFields(w);
    Zero();
    FieldNumbers(w);
  }

  lemma DisassembledFields(w: Word)
    ensures var a := Disassemble(w); var f := FormatOf(a.name);
      && a.name == Recognize(w).name
      && a.rd == (if HasRd(f) then RdField(w) else 0) && a.rs1 == (if HasRs1(f) then Rs1Field(w) else 0)
      && a.rs2 == (if HasRs2(f) then Rs2Field(w) else 0)
  {
    hide Recognize, IdentOf, FormatOf, RdField, Rs1Field, Rs2Field, ImmI, ImmS, ImmB, ImmU, ImmJ;
  }

  lemma FieldNumbers(w: Word)
    ensures Unsigned(RdField(w)) == Rd(w) && Unsigned(Rs1Field(w)) == Rs1(w) && Unsigned(Rs2Field(w)) == Rs2(w)
  {
    hide RdField, Rs1Field, Rs2Field;
  }

  /** The value captured or computed for a field that the format has. */
  ghost predicate Reads(a: Asm, s: SeqState, i: Instr)
    requires Operands(a)
  {
    var f := FormatOf(a.name);
    && i.name == a.name && RowOf(i) == IdentOf(a.name) && i.pc == s.pc && Carries(a, i.imm)
    && (HasRs1(f) ==> Unsigned(i.rs1.value) == Reg(s, a.rs1)) && (HasRs2(f) ==> Unsigned(i.rs2.value) == Reg(s, a.rs2))
    && (HasRd(f) ==> i.rd.name == Unsigned(a.rd))
  }

  lemma IssueReads(s: SeqState)
    requires Recognize(CodeAt(s)).name != Unnamed
    ensures Operands(Disassemble(CodeAt(s))) && Reads(Disassemble(CodeAt(s)), s, Issue(s, 0, false))
  {
    hide Recognize, IdentOf, FormatOf, RdField, Rs1Field, Rs2Field, ImmI, ImmS, ImmB, ImmU, ImmJ, Carries, Immediate, Unsigned,
         Rd, Rs1, Rs2, CodeAt, Disassemble;
    FieldsAre(CodeAt(s));
    TypeOfFormat(Recognize(CodeAt(s)).name);
  }

  /** What the instruction is once executed and through MEM: its kind, its rd, its access and its jump. */
  ghost predicate Completed(a: Asm, s: SeqState, d: Instr)
    requires Operands(a)
  {
    && d.name == a.name && RowOf(d) == IdentOf(a.name) && d.pc == s.pc
    && RdDone(a, s, d) && AccessDone(a, s, d) && JumpDone(a, s, d)
  }

  ghost predicate RdDone(a: Asm, s: SeqState, d: Instr)
    requires Operands(a)
  {
    SetsRd(a.name) ==> d.rd.name == Unsigned(a.rd) && Result(a, s, Unsigned(d.rd.value))
  }

  ghost predicate AccessDone(a: Asm, s: SeqState, d: Instr)
    requires Operands(a)
  {
    Stores(a.name) ==> Index(d.addr) == AccessAt(a, s) && Unsigned(d.rs2.value) == Reg(s, a.rs2)
  }

  ghost predicate JumpDone(a: Asm, s: SeqState, d: Instr)
    requires Operands(a)
  {
    && (Branches(a.name) ==> (d.taken <==> Decides(a.name, Reg(s, a.rs1), Reg(s, a.rs2))))
    && (Branches(a.name) || a.name == JAL || a.name == JALR ==>
          Unsigned(d.branchAddr) == Destination(a.name, Reg(s, a.rs1), Unsigned(a.imm), Unsigned(s.pc)))
  }

  /** Loads and stores have an access, of the right width. */
  lemma AccessesAre(n: InstrName)
    requires n != Unnamed
    ensures var id := IdentOf(n);
      && (Loads(n) <==> id.acc == Read) && (Stores(n) <==> id.acc == Write) && (id.acc != NoAccess ==> id.size == AccessBytes(n))
      && (Loads(n) ==> id.typ == I && SetsRd(n) && FormatOf(n) == FormatI) && (Stores(n) ==> id.typ == S && FormatOf(n) == FormatS)
      && (id.isBranch <==> Branches(n) || n == JAL || n == JALR)
      && (Branches(n) ==> HasRs1(FormatOf(n)) && HasRs2(FormatOf(n)))
      && (n == JALR ==> FormatOf(n) == FormatI) && (n == JAL ==> FormatOf(n) == FormatJ)
  {
  }

  lemma ResultRight(a: Asm, s: SeqState, i: Instr)
    requires Operands(a) && Reads(a, s, i) && Arithmetic(a.name) && a.name != Unnamed
    ensures Result(a, s, Unsigned(Execute(i).rd.value))
  {
    hide Execute, Unsigned, Computes, FormatOf, IdentOf;
    ExecutesRight(i);
    AccessesAre(a.name);
    MaskFive(i.imm);
    MaskFive(a.imm);
    ShiftRest(a, i.imm);
    OperandsMatter(a.name, Unsigned(i.rs1.value), Unsigned(i.rs2.value), Unsigned(i.imm),
                   Reg(s, a.rs1), Reg(s, a.rs2), Unsigned(a.imm), Unsigned(s.pc), Unsigned(Execute(i).rd.value));
  }

  lemma ShiftRest(a: Asm, imm: Word)
    requires Carries(a, imm)
    ensures if FormatOf(a.name) == FormatShift then Unsigned(imm) % 32 == Unsigned(a.imm) % 32 else imm == a.imm
  {
    hide Unsigned, FormatOf;
    MaskFive(imm);
    if FormatOf(a.name) == FormatShift {
      assert a.imm == imm & 31;
      assert Unsigned(a.imm) == Unsigned(imm) % 32;
    }
  }

  lemma LoadRight(a: Asm, s: SeqState, e: Instr)
    requires Operands(a) && Loads(a.name) && e.name == a.name && IsLoad(e) && e.accSize == AccessBytes(a.name)
    requires Unsigned(e.addr) == AccessAt(a, s)
    ensures Result(a, s, Unsigned(Complete(e, s.mem).rd.value))
  {
    hide ReadWord, Extended, Unsigned, LoadLeaves, AccessAt;
    IndexIs(e.addr);
    ReadIsLittle(s.mem, Index(e.addr), e.accSize);
    ExtendedRight(a.name, ReadWord(s.mem, Index(e.addr), e.accSize));
  }

  lemma IndexIs(w: Word)
    ensures Index(w) == Unsigned(w)
  {
  }

  lemma CompleteFrame(e: Instr, mem: Mem)
    ensures var d := Complete(e, mem);
      && d == e.(rd := d.rd) && d.rd.name == e.rd.name && (!IsLoad(e) ==> d == e)
  {
    hide Loaded, ReadWord, Index;
  }

  lemma AddressOf(i: Instr, e: Instr)
    requires Executed(i, e) && i.acc != NoAccess
    ensures Unsigned(e.addr) == (Unsigned(i.rs1.value) + Unsigned(i.imm)) % MODULUS
  {
    hide Unsigned, Computes, Decides, Destination, FormatOf, IdentOf;
  }

  lemma AddressRight(a: Asm, s: SeqState, i: Instr)
    requires Operands(a) && Reads(a, s, i) && a.name != Unnamed && IdentOf(a.name).acc != NoAccess
    ensures Unsigned(Execute(i).addr) == AccessAt(a, s)
  {
    hide Execute, Unsigned, IdentOf, FormatOf, Executed, Carries, HasRs1, HasRs2, HasRd, Reg;
    AccessFormat(a.name);
    ShiftRest(a, i.imm);
    ExecutesRight(i);
    AddressOf(i, Execute(i));
  }

  lemma AccessFormat(n: InstrName)
    ensures IdentOf(n).acc != NoAccess ==> HasRs1(FormatOf(n)) && FormatOf(n) != FormatShift
  {
  }

  lemma RdRight(a: Asm, s: SeqState, i: Instr)
    requires Operands(a) && Reads(a, s, i) && a.name != Unnamed
    ensures RdDone(a, s, Complete(Execute(i), s.mem))
  {
    hide Execute, Unsigned, FormatOf, IdentOf, Complete, Result, AccessAt, AccessBytes, Reg, Carries;
    var e := Execute(i);
    CompleteFrame(e, s.mem);
    AccessesAre(a.name);
    if Loads(a.name) {
      AddressRight(a, s, i);
      LoadRight(a, s, e);
    } else if SetsRd(a.name) {
      ResultRight(a, s, i);
    }
  }

  lemma AccessRight(a: Asm, s: SeqState, i: Instr)
    requires Operands(a) && Reads(a, s, i) && a.name != Unnamed
    ensures AccessDone(a, s, Complete(Execute(i), s.mem))
  {
    hide Execute, Unsigned, FormatOf, IdentOf, Complete, Index, AccessAt, Reg, Carries;
    var e := Execute(i);
    CompleteFrame(e, s.mem);
    AccessesAre(a.name);
    if Stores(a.name) { AddressRight(a, s, i); }
    IndexIs(e.addr);
  }

  lemma JumpRight(a: Asm, s: SeqState, i: Instr)
    requires Operands(a) && Reads(a, s, i) && a.name != Unnamed
    ensures JumpDone(a, s, Complete(Execute(i), s.mem))
  {
    hide Execute, Unsigned, Computes, IdentOf, Complete, Decides, Destination, Result, Index;
    var e := Execute(i);
    CompleteFrame(e, s.mem);
    AccessesAre(a.name);
    BranchTypes(a.name);
    ShiftRest(a, i.imm);
    ExecutesRight(i);
    hide FormatOf;
    TargetIgnoresBase(a.name, Reg(s, a.rs1), Unsigned(i.rs1.value), Unsigned(a.imm), Unsigned(s.pc));
  }

  lemma TargetIgnoresBase(n: InstrName, x: nat, y: nat, imm: nat, pc: nat)
    ensures n != JALR ==> Destination(n, x, imm, pc) == Destination(n, y, imm, pc)
  {
  }

  lemma CompletedRight(a: Asm, s: SeqState, i: Instr)
    requires Operands(a) && Reads(a, s, i) && a.name != Unnamed
    ensures Completed(a, s, Complete(Execute(i), s.mem))
  {
    hide Execute, Unsigned, FormatOf, IdentOf, Complete, RdDone, AccessDone, JumpDone, Index;
    CompleteFrame(Execute(i), s.mem);
    RdRight(a, s, i);
    AccessRight(a, s, i);
    JumpRight(a, s, i);
  }

  lemma DoneRight(s: SeqState)
    requires Recognize(CodeAt(s)).name != Unnamed
    ensures Operands(Disassemble(CodeAt(s))) && Completed(Disassemble(CodeAt(s)), s, Done(s))
  {
    hide Issue, Execute, Complete, Disassemble, Recognize, CodeAt, Completed, Reads, Operands;
    IssueReads(s);
    NameOf(CodeAt(s));
    CompletedRight(Disassemble(CodeAt(s)), s, Issue(s, 0, false));
  }

  lemma NameOf(w: Word)
    ensures Disassemble(w).name == Recognize(w).name
  {
    hide Recognize;
    DisassembledFields(w);
  }

  lemma GoesRight(a: Asm, s: SeqState, d: Instr)
    requires Operands(a) && Completed(a, s, d) && a.name != Unnamed
    ensures Unsigned(NextPc(d)) == NextAddress(a, s)
  {
    hide Unsigned, FormatOf, IdentOf, Decides, Destination, Index, Following, RdDone, AccessDone;
    AccessesAre(a.name);
    NextWord(s.pc);
    BranchTypes(a.name);
  }

  lemma BranchTypes(n: InstrName)
    ensures Branches(n) ==> IdentOf(n).typ == B && n != JAL && n != JALR
    ensures IdentOf(JAL).typ == J && IdentOf(JALR).typ == I && !Branches(JAL) && !Branches(JALR)
  {
  }

  lemma LeavesRight(a: Asm, s: SeqState, d: Instr, t: SeqState)
    requires Operands(a) && Completed(a, s, d) && a.name != Unnamed && t.regs == NextRegs(s.regs, d)
    ensures RegistersStep(a, s, t)
  {
    hide Unsigned, FormatOf, IdentOf, Result, AccessDone, JumpDone;
    TypeOfFormat(a.name);
  }

  lemma StoreIs(a: Asm, s: SeqState, d: Instr)
    requires Operands(a) && Completed(a, s, d) && a.name != Unnamed
    ensures NextMem(s.mem, d) == if Stores(a.name) then WriteWord(s.mem, AccessAt(a, s), AccessBytes(a.name), d.rs2.value) else s.mem
    ensures Stores(a.name) ==> Unsigned(d.rs2.value) == Reg(s, a.rs2)
  {
    hide Unsigned, FormatOf, IdentOf, WriteWord, AccessAt, RdDone, JumpDone, AccessBytes, Index, Reg;
    AccessesAre(a.name);
  }

  lemma StoresRight(a: Asm, s: SeqState, d: Instr, t: SeqState)
    requires Operands(a) && Completed(a, s, d) && a.name != Unnamed && t.mem == NextMem(s.mem, d)
    ensures MemoryStep(a, s, t)
  {
    hide Unsigned, WriteWord, AccessAt, ByteNumber, ByteValue, ByteAt, Completed, AccessBytes, Reg, NextMem, Stores;
    StoreIs(a, s, d);
    AtMostFour(a.name);
    var at, n := AccessAt(a, s), AccessBytes(a.name);
    if Stores(a.name) {
      forall p: nat
        ensures ByteValue(ByteAt(t.mem, p)) ==
          if at + n <= |s.mem| && at <= p < at + n then ByteNumber(Reg(s, a.rs2), p - at) else ByteValue(ByteAt(s.mem, p))
      {
        WrittenRight(s.mem, at, n, d.rs2.value, p);
      }
    }
  }

  lemma AtMostFour(n: InstrName)
    ensures AccessBytes(n) <= 4
  {
  }

  /** Every step of the reference machine on a word with a name is what the name says: pc, registers, memory and
      halt. */
  lemma StepRight(s: SeqState)
    requires !s.halted && Recognize(CodeAt(s)).name != Unnamed
    ensures Steps(Disassemble(CodeAt(s)), s, SeqStep(s))
  {
    hide Done, Disassemble, Recognize, CodeAt, Operands, NextPc, NextRegs, NextMem, NextAddress, RegistersStep, MemoryStep;
    var a, d := Disassemble(CodeAt(s)), Done(s);
    DoneRight(s);
    NameOf(CodeAt(s));
    GoesRight(a, s, d);
    LeavesRight(a, s, d, SeqStep(s));
    StoresRight(a, s, d, SeqStep(s));
    NameOfCompleted(a, s, d);
  }

  lemma NameOfCompleted(a: Asm, s: SeqState, d: Instr)
    requires Operands(a) && Completed(a, s, d)
    ensures d.name == a.name
  {
  }

  /** The same for the word an assembler makes of a legal instruction, read from memory as a number. */
  lemma EncodedStepRight(a: Asm, s: SeqState)
    requires Legal(a) && !s.halted && Little(s.mem, Unsigned(s.pc), 4) == Unsigned(Encode(a))
    ensures Steps(a, s, SeqStep(s))
  {
    hide Legal, Encode, Disassemble, Recognize, Unsigned, Steps, Little, SeqStep, IdentOf, ReadWord;
    IndexIs(s.pc);
    ReadIsLittle(s.mem, Index(s.pc), 4);
    Injective(CodeAt(s), Encode(a));
    DecodeEncoded(a);
    NameOf(Encode(a));
    LegalName(a);
    StepRight(s);
  }

  // ---- The pipeline ----

  /** A run of instructions, each doing what its name says. */
  ghost predicate Trace(trace: seq<SeqState>) {
    forall k: nat | k + 1 < |trace| :: !trace[k].halted && Steps(Disassemble(CodeAt(trace[k])), trace[k], trace[k + 1])
  }

  /** A guarded run of the pipeline ends where n instructions, each doing what its name says, lead from the initial
      state: the registers and the memory are those of the last of them. */
  lemma RunBehaves(cfg: Config, s0: SeqState, junk: nat -> bool, n: nat) returns (trace: seq<SeqState>)
    requires RegsNamed(s0.regs) && !s0.halted && HaltsAt(s0, n) && Guarded(cfg, s0, n)
    ensures |trace| == n + 1 && trace[0] == s0 && Trace(trace) && trace[n].halted
    ensures var r := Run(cfg, Initial(s0), junk, 3 * n + 2);
      r.Ok? && r.value.halted && |r.value.retired| == n && r.value.rf.regs == trace[n].regs && r.value.mem == trace[n].mem
  {
    hide Run, St, Done, GoodAt, HaltsAt, Steps, Disassemble, CodeAt, Initial;
    RunTerminates(cfg, s0, junk, n);
    trace := seq(n + 1, k requires 0 <= k => St(s0, k));
    StartState(s0);
    HaltedAfter(s0, n);
    forall k: nat | k < n ensures !trace[k].halted && Steps(Disassemble(CodeAt(trace[k])), trace[k], trace[k + 1]) {
      StepOfRun(cfg, s0, n, k);
    }
  }

  lemma HaltedAfter(s0: SeqState, n: nat)
    requires HaltsAt(s0, n)
    ensures n > 0 && !St(s0, n - 1).halted && St(s0, n).halted
  {
    hide Done, St;
    StStep(s0, n - 1);
  }

  lemma StepOfRun(cfg: Config, s0: SeqState, n: nat, k: nat)
    requires HaltsAt(s0, n) && Guarded(cfg, s0, n) && k < n
    ensures !St(s0, k).halted && Steps(Disassemble(CodeAt(St(s0, k))), St(s0, k), St(s0, k + 1))
  {
    hide Done, SoundAt, FreeOfUse, FreeOfClash, Steps, Disassemble, CodeAt, HaltsAt, Recognize;
    HaltedAfter(s0, n);
    RunningBefore(s0, k, n - 1);
    assert GoodAt(cfg, s0, k);
    SoundBounds(s0, k);
    StepRight(St(s0, k));
    StepIs(s0, k);
  }

  lemma StepIs(s0: SeqState, k: nat)
    ensures St(s0, k + 1) == SeqStep(St(s0, k))
  {
    hide Done, SeqStep;
  }
}
