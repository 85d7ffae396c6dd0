/** Real inputs for each departure and for the guard: small programs of encoded words, started from reset. */
module Programs {
  import opened Isa
  import opened Decoding
  import opened Executors
  import opened Memories
  import opened StoreQueues
  import opened Machines
  import opened Scoreboard
  import opened Sequential
  import opened Refinement
  import opened Latches
  import opened Accounting
  import opened Termination
  import opened Departures
  import opened Abort
  import opened Derail
  import opened Squash
  import opened Exactness
  import opened ConfigEquivalence

  // ---- Loaded programs ----

  /** `s` starts at 0 with `words` loaded there, in 64 bytes of memory. */
  ghost predicate Holds(s: SeqState, words: seq<Word>) {
    && s.pc == 0 && !s.halted && RegsNamed(s.regs) && |s.mem| == 64
    && forall i: nat | i < |words| :: ReadWord(s.mem, 4 * i, 4) == words[i]
  }

  /** `words` as bytes, and zeros behind them. */
  function Image(words: seq<Word>): Mem
    requires |words| <= 16
  {
    seq(64, p requires 0 <= p < 64 => if p / 4 < |words| then ByteOf(words[p / 4], p % 4) else 0)
  }

  /** Every program of up to 16 words can be loaded. */
  lemma ImageHolds(words: seq<Word>, regs: RegVector)
    requires |words| <= 16 && RegsNamed(regs)
    ensures Holds(SeqState(0, regs, Image(words), false), words)
  {
    hide Pack, ByteOf;
    var m := Image(words);
    forall i: nat | i < |words| ensures ReadWord(m, 4 * i, 4) == words[i] {
      PackOf(words[i]);
      assert (4 * i) / 4 == i && (4 * i + 1) / 4 == i && (4 * i + 2) / 4 == i && (4 * i + 3) / 4 == i;
      assert (4 * i) % 4 == 0 && (4 * i + 1) % 4 == 1 && (4 * i + 2) % 4 == 2 && (4 * i + 3) % 4 == 3;
    }
  }

  // ---- The words ----

  const LW_X1: Word := 0x02002083    // lw x1, 32(x0)
  const SW_X1: Word := 0x02102223    // sw x1, 36(x0)
  const SW_RACE: Word := 0x00102623  // sw x1, 12(x0)
  const MV_X2_X1: Word := 0x00008113 // addi x2, x1, 0
  const LI_X1_5: Word := 0x00500093  // addi x1, x0, 5
  const LI_X1_7: Word := 0x00700093  // addi x1, x0, 7
  const LI_X2_1: Word := 0x00100113  // addi x2, x0, 1
  const LI_X3_1: Word := 0x00100193  // addi x3, x0, 1
  const NOP: Word := 0x00000013      // addi x0, x0, 0
  const JAL_8: Word := 0x0080006f    // jal x0, +8
  const BEQ_8: Word := 0x00000463    // beq x0, x0, +8
  const BEQ_X1: Word := 0x00108463   // beq x1, x1, +8
  const ECALL_WORD: Word := 0x73

  /** The fields of a word. */
  predicate Fields(w: Word, id: Ident, rs1: RegNum, rs2: RegNum, rd: RegNum, imm: Word) {
    Recognize(w) == id && Rs1(w) == rs1 && Rs2(w) == rs2 && Rd(w) == rd && Immediate(id.typ, w) == imm
  }

  lemma LoadWord()
    ensures Fields(LW_X1, Ident(LW, I, Read, 4, false), 0, 0, 1, 32)
  {
    assert Opcode(LW_X1) == 0x03 && Funct3(LW_X1) == 2 && Rs1Field(LW_X1) == 0 && Rs2Field(LW_X1) == 0 && RdField(LW_X1) == 1;
    assert ImmI(LW_X1) == 32;
  }

  lemma StoreWords()
    ensures Fields(SW_X1, Ident(SW, S, Write, 4, false), 0, 1, 4, 36)
    ensures Fields(SW_RACE, Ident(SW, S, Write, 4, false), 0, 1, 12, 12)
  {
    assert Opcode(SW_X1) == 0x23 && Funct3(SW_X1) == 2 && Rs1Field(SW_X1) == 0 && Rs2Field(SW_X1) == 1 && RdField(SW_X1) == 4;
    assert ImmS(SW_X1) == 36;
    assert Opcode(SW_RACE) == 0x23 && Funct3(SW_RACE) == 2 && Rs1Field(SW_RACE) == 0 && Rs2Field(SW_RACE) == 1 && RdField(SW_RACE) == 12;
    assert ImmS(SW_RACE) == 12;
  }

  lemma AddiWords()
    ensures Fields(MV_X2_X1, Plain(ADDI, I), 1, 0, 2, 0) && Fields(LI_X1_5, Plain(ADDI, I), 0, 5, 1, 5)
    ensures Fields(LI_X1_7, Plain(ADDI, I), 0, 7, 1, 7) && Fields(LI_X2_1, Plain(ADDI, I), 0, 1, 2, 1)
    ensures Fields(LI_X3_1, Plain(ADDI, I), 0, 1, 3, 1) && Fields(NOP, Plain(ADDI, I), 0, 0, 0, 0)
  {
    AddiWord(MV_X2_X1, 1, 0, 2, 0);
    AddiWord(LI_X1_5, 0, 5, 1, 5);
    AddiWord(LI_X1_7, 0, 7, 1, 7);
    AddiWord(LI_X2_1, 0, 1, 2, 1);
    AddiWord(LI_X3_1, 0, 1, 3, 1);
    AddiWord(NOP, 0, 0, 0, 0);
  }

  lemma AddiWord(w: Word, rs1: RegNum, rs2: RegNum, rd: RegNum, imm: Word)
    requires Opcode(w) == 0x13 && Funct3(w) == 0 && ImmI(w) == imm && Rs1(w) == rs1 && Rs2(w) == rs2 && Rd(w) == rd
    ensures Fields(w, Plain(ADDI, I), rs1, rs2, rd, imm)
  {
    hide Opcode, Funct3, Funct7, Rs1, Rs2, Rd, ImmI, ImmS, ImmB, ImmJ, ImmU;
  }

  lemma JumpWords()
    ensures Fields(JAL_8, Ident(JAL, J, NoAccess, 0, true), 0, 8, 0, 8)
    ensures Fields(BEQ_8, Ident(BEQ, B, NoAccess, 0, true), 0, 0, 8, 8)
    ensures Fields(BEQ_X1, Ident(BEQ, B, NoAccess, 0, true), 1, 1, 8, 8)
  {
    assert Opcode(JAL_8) == 0x6f && Rs1Field(JAL_8) == 0 && Rs2Field(JAL_8) == 8 && RdField(JAL_8) == 0;
    assert ImmJ(JAL_8) == 8;
    assert Opcode(BEQ_8) == 0x63 && Funct3(BEQ_8) == 0 && Rs1Field(BEQ_8) == 0 && Rs2Field(BEQ_8) == 0 && RdField(BEQ_8) == 8;
    assert ImmB(BEQ_8) == 8;
    assert Opcode(BEQ_X1) == 0x63 && Funct3(BEQ_X1) == 0 && Rs1Field(BEQ_X1) == 1 && Rs2Field(BEQ_X1) == 1 && RdField(BEQ_X1) == 8;
    assert ImmB(BEQ_X1) == 8;
  }

  lemma WordsNamed()
    ensures Recognize(LW_X1).name == LW && Recognize(SW_X1).name == SW && Recognize(SW_RACE).name == SW
    ensures Recognize(MV_X2_X1).name == ADDI && Recognize(LI_X1_5).name == ADDI && Recognize(LI_X1_7).name == ADDI
    ensures Recognize(LI_X2_1).name == ADDI && Recognize(LI_X3_1).name == ADDI && Recognize(NOP).name == ADDI
    ensures Recognize(JAL_8).name == JAL && Recognize(BEQ_8).name == BEQ && Recognize(BEQ_X1).name == BEQ
    ensures Recognize(ECALL_WORD).name == ECALL
  {
    hide Recognize, Rs1, Rs2, Rd, Immediate;
    LoadWord();
    StoreWords();
    AddiWords();
    JumpWords();
    EcallWord();
  }

  // ---- What they do ----

  lemma AddiDone(s: SeqState, rs1: RegNum, rs2: RegNum, rd: RegNum, imm: Word)
    requires Fields(CodeAt(s), Plain(ADDI, I), rs1, rs2, rd, imm)
    ensures var i := Done(s);
      && i.name == ADDI && i.typ == I && i.acc == NoAccess && !i.isBranch && i.pc == s.pc
      && i.rd == Register(rd, Alu(ADDI, s.regs[rs1].value, 0, imm, s.pc))
  {
    hide Recognize, Rs1, Rs2, Rd, Immediate, CodeAt, Alu, Taken, Target, Address;
  }

  lemma LoadDone(s: SeqState, rs2: RegNum, rd: RegNum, imm: Word)
    requires Fields(CodeAt(s), Ident(LW, I, Read, 4, false), 0, rs2, rd, imm) && s.regs[0].value == 0
    ensures var i := Done(s);
      && i.name == LW && i.typ == I && i.acc == Read && !i.isBranch && i.pc == s.pc
      && i.rd.name == rd && i.addr == imm && i.accSize == 4
  {
    hide Recognize, Rs1, Rs2, Rd, Immediate, CodeAt, ReadWord, Extended;
  }

  lemma StoreDone(s: SeqState, rs2: RegNum, rd: RegNum, imm: Word)
    requires Fields(CodeAt(s), Ident(SW, S, Write, 4, false), 0, rs2, rd, imm) && s.regs[0].value == 0
    ensures var i := Done(s);
      && i.name == SW && i.typ == S && i.acc == Write && !i.isBranch && i.pc == s.pc
      && i.rs2 == s.regs[rs2] && i.addr == imm && i.accSize == 4
  {
    hide Recognize, Rs1, Rs2, Rd, Immediate, CodeAt;
  }

  lemma JalDone(s: SeqState, rs1: RegNum, rs2: RegNum, rd: RegNum, imm: Word)
    requires Fields(CodeAt(s), Ident(JAL, J, NoAccess, 0, true), rs1, rs2, rd, imm)
    ensures var i := Done(s);
      && i.name == JAL && i.typ == J && i.acc == NoAccess && i.isBranch && i.pc == s.pc && i.rd.name == rd
      && i.branchAddr == JumpTarget(JAL, imm, s.pc, 0)
  {
    hide Recognize, Rs1, Rs2, Rd, Immediate, CodeAt, Alu, Taken, Address, RdValue, JumpTarget;
  }

  lemma BeqDone(s: SeqState, n: RegNum, rd: RegNum, imm: Word)
    requires Fields(CodeAt(s), Ident(BEQ, B, NoAccess, 0, true), n, n, rd, imm)
    ensures var i := Done(s);
      && i.name == BEQ && i.typ == B && i.acc == NoAccess && i.isBranch && i.pc == s.pc && i.taken
      && i.branchAddr == JumpTarget(BEQ, imm, s.pc, s.regs[n].value)
  {
    hide Recognize, Rs1, Rs2, Rd, Immediate, CodeAt, Alu, Address, RdValue, JumpTarget;
  }

  lemma EcallDone(s: SeqState)
    requires CodeAt(s) == ECALL_WORD
    ensures var i := Done(s); i.name == ECALL && i.typ == System && i.acc == NoAccess && !i.isBranch && i.pc == s.pc
    ensures Recognize(ECALL_WORD) == Plain(ECALL, System)
  {
    EcallWord();
    hide Recognize, Rs1, Rs2, Rd, Immediate, CodeAt;
  }

  // ---- Where they stand ----

  /** The sequential run is at `pc` after `k` instructions, where `w` stands, and has written no memory. */
  ghost predicate At(s0: SeqState, k: nat, pc: Word, w: Word) {
    var s := St(s0, k);
    !s.halted && s.pc == pc && s.mem == s0.mem && WordAt(s0.mem, pc) == w && s.regs[0].value == 0
  }

  lemma AtStart(s0: SeqState, words: seq<Word>)
    requires Holds(s0, words) && words != []
    ensures At(s0, 0, 0, words[0])
  {
    assert Index(0) == 4 * 0;
    hide ReadWord;
  }

  lemma AtNext(s0: SeqState, k: nat, pc: Word, w: Word)
    requires At(s0, k, pc, w)
    requires var i := Done(St(s0, k)); !IsStore(i) && i.name != ECALL
    ensures At(s0, k + 1, NextPc(Done(St(s0, k))), WordAt(s0.mem, NextPc(Done(St(s0, k)))))
  {
    hide St, Done, WordAt, NextPc;
    StStep(s0, k);
  }

  lemma AddiAt(s0: SeqState, k: nat, pc: Word, w: Word, rs1: RegNum, rs2: RegNum, rd: RegNum, imm: Word)
    requires At(s0, k, pc, w) && Fields(w, Plain(ADDI, I), rs1, rs2, rd, imm)
    ensures var i := Done(St(s0, k));
      i.typ == I && i.acc == NoAccess && !Redirects(i) && i.rd == Register(rd, Alu(ADDI, St(s0, k).regs[rs1].value, 0, imm, pc))
    ensures At(s0, k + 1, Following(pc), WordAt(s0.mem, Following(pc)))
  {
    hide Fields, WordAt, Recognize, Following, Done, St, Alu;
    AddiDone(St(s0, k), rs1, rs2, rd, imm);
    AtNext(s0, k, pc, w);
  }

  lemma LoadAt(s0: SeqState, k: nat, pc: Word, w: Word, rs2: RegNum, rd: RegNum, imm: Word)
    requires At(s0, k, pc, w) && Fields(w, Ident(LW, I, Read, 4, false), 0, rs2, rd, imm)
    ensures var i := Done(St(s0, k));
      IsLoad(i) && !Redirects(i) && i.rd.name == rd && i.addr == imm && i.accSize == 4
    ensures At(s0, k + 1, Following(pc), WordAt(s0.mem, Following(pc)))
  {
    hide Fields, WordAt, Recognize, Following, Done, St;
    LoadDone(St(s0, k), rs2, rd, imm);
    AtNext(s0, k, pc, w);
  }

  lemma EcallAt(s0: SeqState, k: nat, pc: Word)
    requires At(s0, k, pc, ECALL_WORD)
    ensures HaltsAt(s0, k + 1) && Done(St(s0, k)).acc == NoAccess && !Redirects(Done(St(s0, k)))
  {
    hide WordAt, Recognize, Following, Done, St;
    EcallDone(St(s0, k));
  }

  /** A taken jump: the run goes on at its target. */
  lemma JalAt(s0: SeqState, k: nat, pc: Word, w: Word, rs1: RegNum, rs2: RegNum, rd: RegNum, imm: Word)
    requires At(s0, k, pc, w) && Fields(w, Ident(JAL, J, NoAccess, 0, true), rs1, rs2, rd, imm)
    ensures var i := Done(St(s0, k)); i.acc == NoAccess && Redirects(i) && i.rd.name == rd && i.name != ECALL && i.pc == pc
    ensures var to := JumpTarget(JAL, imm, pc, 0); At(s0, k + 1, to, WordAt(s0.mem, to))
  {
    hide Fields, WordAt, Recognize, Following, Done, St, JumpTarget;
    JalDone(St(s0, k), rs1, rs2, rd, imm);
    AtNext(s0, k, pc, w);
  }

  lemma BeqAt(s0: SeqState, k: nat, pc: Word, w: Word, n: RegNum, rd: RegNum, imm: Word)
    requires At(s0, k, pc, w) && Fields(w, Ident(BEQ, B, NoAccess, 0, true), n, n, rd, imm)
    ensures var i := Done(St(s0, k)); i.acc == NoAccess && Redirects(i) && !WritesRd(i.typ) && i.name != ECALL && i.pc == pc
    ensures var to := JumpTarget(BEQ, imm, pc, St(s0, k).regs[n].value); At(s0, k + 1, to, WordAt(s0.mem, to))
  {
    hide Fields, WordAt, Recognize, Following, Done, St, JumpTarget;
    BeqDone(St(s0, k), n, rd, imm);
    AtNext(s0, k, pc, w);
  }

  /** A store: only memory and pc move. */
  lemma StoreAt(s0: SeqState, k: nat, pc: Word, w: Word, rs2: RegNum, rd: RegNum, imm: Word)
    requires At(s0, k, pc, w) && Fields(w, Ident(SW, S, Write, 4, false), 0, rs2, rd, imm)
    ensures var i := Done(St(s0, k));
      IsStore(i) && !Redirects(i) && i.rs2 == St(s0, k).regs[rs2] && i.addr == imm && i.accSize == 4
    ensures var s := St(s0, k + 1);
      !s.halted && s.pc == Following(pc) && s.mem == WriteWord(s0.mem, Index(imm), 4, St(s0, k).regs[rs2].value)
      && s.regs == St(s0, k).regs
  {
    hide Fields, WordAt, Recognize, Following, Done, St, WriteWord, Index;
    StoreDone(St(s0, k), rs2, rd, imm);
    StStep(s0, k);
  }

  /** The addresses used below. */
  predicate Near(pc: Word) { pc == 0 || pc == 4 || pc == 8 || pc == 12 || pc == 16 }

  lemma NearFits(mem: Mem, pc: Word)
    requires |mem| == 64 && Near(pc)
    ensures Fetchable(mem, pc) && Fetchable(mem, Following(pc)) && Fetchable(mem, Following(Following(pc)))
  {
  }

  lemma NearWords()
    ensures Following(0) == 4 && Following(4) == 8 && Following(8) == 12 && Following(12) == 16
    ensures JumpTarget(JAL, 8, 4, 0) == 12 && JumpTarget(BEQ, 8, 8, 0) == 16
    ensures Index(0) == 0 && Index(4) == 4 && Index(8) == 8 && Index(12) == 12 && Index(16) == 16
    ensures Index(32) == 32 && Index(36) == 36
  {
  }

  ghost predicate MemoryKept(s0: SeqState, k: nat) { forall j: nat | j <= k :: St(s0, j).mem == s0.mem }

  lemma ZeroAt(s0: SeqState, k: nat, pc: Word, w: Word)
    requires At(s0, k, pc, w)
    ensures St(s0, k).regs[0].value == 0
  {
    hide St, WordAt;
  }

  lemma KeptFrom(s0: SeqState, w: Word)
    requires At(s0, 0, 0, w)
    ensures MemoryKept(s0, 0)
  {
  }

  lemma KeptNext(s0: SeqState, k: nat, pc: Word, w: Word)
    requires MemoryKept(s0, k) && At(s0, k + 1, pc, w)
    ensures MemoryKept(s0, k + 1)
  {
    hide St, WordAt;
  }

  lemma SoundHere(s0: SeqState, k: nat, pc: Word, w: Word)
    requires |s0.mem| == 64 && Near(pc) && At(s0, k, pc, w) && Recognize(w).name != Unnamed && MemoryKept(s0, k)
    requires var i := Done(St(s0, k)); i.acc != NoAccess ==> InBounds(s0.mem, Index(i.addr), i.accSize)
    ensures SoundAt(s0, k)
  {
    hide St, Done, WordAt, Recognize, Fetchable, Following, Index, InBounds, Near;
    NearFits(s0.mem, pc);
  }

  lemma WordOf(s0: SeqState, words: seq<Word>, i: nat, pc: Word)
    requires Holds(s0, words) && i < |words| && Index(pc) == 4 * i
    ensures WordAt(s0.mem, pc) == words[i]
  {
    hide ReadWord, Index;
  }

  // ---- A load and its use ----

  const LOAD_USE: seq<Word> := [LW_X1, MV_X2_X1, ECALL_WORD]

  lemma UseRun(s0: SeqState)
    requires Holds(s0, LOAD_USE)
    ensures At(s0, 0, 0, LW_X1) && At(s0, 1, 4, MV_X2_X1) && At(s0, 2, 8, ECALL_WORD) && HaltsAt(s0, 3) && MemoryKept(s0, 2)
    ensures var i := Done(St(s0, 0)); IsLoad(i) && i.rd.name == 1 && i.addr == 32 && i.accSize == 4 && !Redirects(i)
    ensures var i := Done(St(s0, 1)); i.acc == NoAccess && !Redirects(i)
    ensures var i := Done(St(s0, 2)); i.acc == NoAccess && !Redirects(i)
  {
    hide Fields, WordAt, Recognize, Following, Index, Done, St, Alu, HaltsAt, Redirects, JumpTarget, At, Holds, MemoryKept, IsLoad;
    LoadWord();
    AddiWords();
    NearWords();
    AtStart(s0, LOAD_USE);
    KeptFrom(s0, LW_X1);
    LoadAt(s0, 0, 0, LW_X1, 0, 1, 32);
    WordOf(s0, LOAD_USE, 1, 4);
    KeptNext(s0, 0, 4, MV_X2_X1);
    AddiAt(s0, 1, 4, MV_X2_X1, 1, 0, 2, 0);
    WordOf(s0, LOAD_USE, 2, 8);
    KeptNext(s0, 1, 8, ECALL_WORD);
    EcallAt(s0, 2, 8);
  }

  lemma GoodHere(cfg: Config, s0: SeqState, k: nat)
    requires SoundAt(s0, k) && !Redirects(Done(St(s0, k)))
    requires k > 0 ==> !LoadUse(cfg, Done(St(s0, k - 1)), CodeAt(St(s0, k)))
    ensures GoodAt(cfg, s0, k)
  {
    hide SoundAt, Done, St, CodeAt, LoadUse, Redirects;
  }

  lemma UseIsSound(s0: SeqState)
    requires Holds(s0, LOAD_USE)
    ensures SoundAt(s0, 0) && SoundAt(s0, 1) && SoundAt(s0, 2)
  {
    hide Recognize, St, Done, WordAt, Redirects, Following, Index, HaltsAt, At, SoundAt;
    UseRun(s0);
    LoadWord();
    AddiWords();
    EcallWord();
    NearWords();
    assert St(s0, 0) == s0 by { StartState(s0); }
    SoundHere(s0, 0, 0, LW_X1);
    SoundHere(s0, 1, 4, MV_X2_X1);
    SoundHere(s0, 2, 8, ECALL_WORD);
  }

  /** `addi` takes nothing in MEM, and reads only rs1. */
  lemma UseGuard(s0: SeqState)
    requires Holds(s0, LOAD_USE)
    ensures forall cfg: Config :: Guarded(cfg, s0, 1)
    ensures forall cfg: Config | cfg.repaired :: Guarded(cfg, s0, 3)
    ensures forall cfg: Config | !cfg.repaired :: LoadUsePair(cfg, s0, 0)
  {
    hide Recognize, St, Done, WordAt, Redirects, Following, Index, HaltsAt, SoundAt, GoodAt, Rs1, Rs2, Rd, Immediate, CodeStable;
    UseRun(s0);
    UseIsSound(s0);
    AddiWords();
    EcallWord();
    StartState(s0);
    SoundIsStable(s0, 1);
    forall cfg: Config ensures GoodAt(cfg, s0, 0) { GoodHere(cfg, s0, 0); }
    forall cfg: Config | cfg.repaired ensures GoodAt(cfg, s0, 1) && GoodAt(cfg, s0, 2) {
      GoodHere(cfg, s0, 1);
      GoodHere(cfg, s0, 2);
    }
  }

  /** `lw x1, 32(x0); addi x2, x1, 0; ecall`. Repaired it meets the guard, and so ends right; as written no run of
      it ever retires its load. */
  lemma LoadUseProgram(cfg: Config, s0: SeqState, junk: nat -> bool, t: nat)
    requires Holds(s0, LOAD_USE)
    ensures HaltsAt(s0, 3) && (cfg.repaired ==> Guarded(cfg, s0, 3))
    ensures var r := Run(cfg, Initial(s0), junk, t);
      !cfg.repaired && r.Ok? ==> |r.value.retired| == 0 || r.value.retired[0] != Done(s0)
  {
    hide Recognize, St, Done, HaltsAt, GoodAt, LoadUsePair, Run, Initial;
    UseRun(s0);
    UseGuard(s0);
    StartState(s0);
    if !cfg.repaired && Run(cfg, Initial(s0), junk, t).Ok? { LoadNeverRetires(cfg, s0, 0, junk, t); }
  }

  // ---- A load and a store of what it loads ----

  const LOAD_STORE: seq<Word> := [LW_X1, SW_X1, ECALL_WORD]

  lemma DataRun(s0: SeqState)
    requires Holds(s0, LOAD_STORE)
    ensures At(s0, 0, 0, LW_X1) && At(s0, 1, 4, SW_X1) && MemoryKept(s0, 1)
    ensures var i := Done(St(s0, 0)); IsLoad(i) && i.rd.name == 1 && i.addr == 32 && i.accSize == 4 && !Redirects(i)
    ensures var i := Done(St(s0, 1)); i.addr == 36 && i.accSize == 4
  {
    hide Fields, WordAt, Recognize, Following, Index, Done, St, Alu, HaltsAt, Redirects, JumpTarget, At, Holds, MemoryKept, IsLoad;
    LoadWord();
    StoreWords();
    NearWords();
    AtStart(s0, LOAD_STORE);
    KeptFrom(s0, LW_X1);
    LoadAt(s0, 0, 0, LW_X1, 0, 1, 32);
    WordOf(s0, LOAD_STORE, 1, 4);
    KeptNext(s0, 0, 4, SW_X1);
    StoreAt(s0, 1, 4, SW_X1, 1, 4, 36);
  }

  lemma DataHalts(s0: SeqState)
    requires Holds(s0, LOAD_STORE)
    ensures HaltsAt(s0, 3)
  {
    hide Fields, WordAt, Recognize, Following, Index, Done, St, Redirects, WriteWord;
    DataRun(s0);
    StoreWords();
    NearWords();
    StoreAt(s0, 1, 4, SW_X1, 1, 4, 36);
    WordOf(s0, LOAD_STORE, 2, 8);
    KeptWord(s0.mem, 36, St(s0, 1).regs[1].value, 8);
    EcallDone(St(s0, 2));
  }

  lemma KeptWord(mem: Mem, a: Word, w: Word, pc: Word)
    requires InBounds(mem, Index(a), 4) && Index(pc) + 4 <= Index(a)
    ensures WordAt(WriteWord(mem, Index(a), 4, w), pc) == WordAt(mem, pc)
  {
    hide ReadWord, WriteWord, Index;
    ReadBack(mem, Index(a), w, Index(pc), 4);
  }

  lemma DataIsPair(cfg: Config, s0: SeqState)
    requires Holds(s0, LOAD_STORE)
    ensures SoundUpTo(s0, 2) && DataBehindLoad(cfg, s0, 1) && !DataBehindLoad(cfg, s0, 0)
    ensures Guarded(cfg, s0, 1) && (!cfg.repaired ==> LoadUsePair(cfg, s0, 0))
  {
    hide Recognize, St, Done, WordAt, Redirects, Following, Index, HaltsAt, SoundAt, GoodAt, Rs1, Rs2, Rd, Immediate, CodeStable;
    DataRun(s0);
    LoadWord();
    StoreWords();
    NearWords();
    StartState(s0);
    SoundHere(s0, 0, 0, LW_X1);
    SoundHere(s0, 1, 4, SW_X1);
    SoundIsStable(s0, 1);
    GoodHere(cfg, s0, 0);
  }

  /** `lw x1, 32(x0); sw x1, 36(x0); ecall`. Repaired the run has thrown "load hazart" after three cycles; as
      written it never retires its load either. */
  lemma StoreDataProgram(cfg: Config, s0: SeqState, junk: nat -> bool, t: nat)
    requires Holds(s0, LOAD_STORE)
    ensures HaltsAt(s0, 3) && DataBehindLoad(cfg, s0, 1)
    ensures cfg.repaired ==> Run(cfg, Initial(s0), junk, 3) == Err(LoadHazard)
    ensures var r := Run(cfg, Initial(s0), junk, t);
      !cfg.repaired && r.Ok? ==> |r.value.retired| == 0 || r.value.retired[0] != Done(s0)
  {
    hide Recognize, St, Done, HaltsAt, GoodAt, LoadUsePair, Run, Initial, DataBehindLoad, SoundAt;
    DataHalts(s0);
    DataIsPair(cfg, s0);
    StartState(s0);
    if cfg.repaired {
      RunThrows(cfg, s0, junk, 1);
    } else if Run(cfg, Initial(s0), junk, t).Ok? {
      LoadNeverRetires(cfg, s0, 0, junk, t);
    }
  }

  // ---- A jump over a writer of the register just written ----

  const CLASH: seq<Word> := [LI_X1_5, JAL_8, LI_X1_7, ECALL_WORD]

  lemma ClashRun(s0: SeqState)
    requires Holds(s0, CLASH)
    ensures At(s0, 0, 0, LI_X1_5) && At(s0, 1, 4, JAL_8) && At(s0, 2, 12, ECALL_WORD) && HaltsAt(s0, 3) && MemoryKept(s0, 2)
    ensures var i := Done(St(s0, 0)); i.typ == I && i.acc == NoAccess && i.rd == Register(1, 5) && !Redirects(i)
    ensures var i := Done(St(s0, 1)); i.acc == NoAccess && Redirects(i) && i.rd.name == 0
    ensures var i := Done(St(s0, 2)); i.acc == NoAccess && !Redirects(i)
    ensures WordAt(s0.mem, 8) == LI_X1_7
  {
    hide Fields, WordAt, Recognize, Following, Index, Done, St, Alu, HaltsAt, Redirects, JumpTarget, At, Holds, MemoryKept, IsLoad;
    AddiWords();
    JumpWords();
    NearWords();
    FivePlus(0);
    AtStart(s0, CLASH);
    KeptFrom(s0, LI_X1_5);
    ZeroAt(s0, 0, 0, LI_X1_5);
    AddiAt(s0, 0, 0, LI_X1_5, 0, 5, 1, 5);
    WordOf(s0, CLASH, 1, 4);
    KeptNext(s0, 0, 4, JAL_8);
    JalAt(s0, 1, 4, JAL_8, 0, 8, 0, 8);
    WordOf(s0, CLASH, 2, 8);
    WordOf(s0, CLASH, 3, 12);
    KeptNext(s0, 1, 12, ECALL_WORD);
    EcallAt(s0, 2, 12);
  }

  lemma FivePlus(pc: Word)
    ensures Alu(ADDI, 0, 0, 5, pc) == 5
  {
  }

  lemma ClashIsSound(s0: SeqState)
    requires Holds(s0, CLASH)
    ensures SoundUpTo(s0, 3)
  {
    hide Recognize, St, Done, WordAt, Redirects, Following, Index, HaltsAt, At, SoundAt;
    ClashRun(s0);
    WordsNamed();
    SoundHere(s0, 0, 0, LI_X1_5);
    SoundHere(s0, 1, 4, JAL_8);
    SoundHere(s0, 2, 12, ECALL_WORD);
  }

  lemma ClashIsThere(s0: SeqState)
    requires Holds(s0, CLASH) && s0.regs[1].value != 5
    ensures ClashingJump(s0, 1)
  {
    hide Recognize, St, Done, WordAt, Redirects, Following, Index, HaltsAt, Rs1, Rs2, Rd, Immediate;
    ClashRun(s0);
    AddiWords();
    NearWords();
    StartState(s0);
  }

  lemma ClashGuard(cfg: Config, s0: SeqState)
    requires Holds(s0, CLASH)
    ensures Guarded(cfg, s0, 1) && Enters(cfg, s0, 1) && (cfg.repaired ==> Guarded(cfg, s0, 3))
  {
    hide Recognize, St, Done, WordAt, Redirects, Following, Index, HaltsAt, SoundAt, Rs1, Rs2, Rd, Immediate;
    ClashRun(s0);
    ClashIsSound(s0);
  }

  /** `addi x1, x0, 5; jal x0, +8; addi x1, x0, 7; ecall`, x1 not 5 before. Repaired it meets the guard, and so
      ends right; as written the run has gone wrong after five cycles at the latest. */
  lemma ClashProgram(cfg: Config, s0: SeqState, junk: nat -> bool)
    requires Holds(s0, CLASH) && s0.regs[1].value != 5
    ensures HaltsAt(s0, 3) && (cfg.repaired ==> Guarded(cfg, s0, 3))
    ensures !cfg.repaired ==> exists t: nat | t <= 5 :: !FaithfulAt(cfg, s0, junk, t)
  {
    hide Recognize, St, Done, HaltsAt, Guarded, Run, Initial, ClashingJump, Enters, RegsAgree, TraceRight;
    ClashRun(s0);
    ClashGuard(cfg, s0);
    if !cfg.repaired {
      ClashIsThere(s0);
      var t := ClashGoesWrong(cfg, s0, junk, 1);
      assert !FaithfulAt(cfg, s0, junk, t);
    }
  }

  // ---- A guarded program with a load and a taken branch ----

  const GUARDED: seq<Word> := [LW_X1, LI_X2_1, BEQ_8, LI_X3_1, ECALL_WORD]

  lemma GuardedProgramRun(s0: SeqState)
    requires Holds(s0, GUARDED)
    ensures At(s0, 0, 0, LW_X1) && At(s0, 1, 4, LI_X2_1) && At(s0, 2, 8, BEQ_8) && At(s0, 3, 16, ECALL_WORD)
    ensures HaltsAt(s0, 4) && MemoryKept(s0, 3)
    ensures var i := Done(St(s0, 0)); IsLoad(i) && i.rd.name == 1 && i.addr == 32 && i.accSize == 4 && !Redirects(i)
    ensures var i := Done(St(s0, 1)); i.typ == I && i.acc == NoAccess && i.rd.name == 2 && !Redirects(i)
    ensures var i := Done(St(s0, 2)); i.acc == NoAccess && Redirects(i)
    ensures var i := Done(St(s0, 3)); i.acc == NoAccess && !Redirects(i)
    ensures WordAt(s0.mem, 12) == LI_X3_1
  {
    hide Fields, WordAt, Recognize, Following, Index, Done, St, Alu, HaltsAt, Redirects, JumpTarget, At, Holds, MemoryKept, IsLoad;
    LoadWord();
    AddiWords();
    JumpWords();
    NearWords();
    AtStart(s0, GUARDED);
    KeptFrom(s0, LW_X1);
    LoadAt(s0, 0, 0, LW_X1, 0, 1, 32);
    WordOf(s0, GUARDED, 1, 4);
    KeptNext(s0, 0, 4, LI_X2_1);
    AddiAt(s0, 1, 4, LI_X2_1, 0, 1, 2, 1);
    WordOf(s0, GUARDED, 2, 8);
    KeptNext(s0, 1, 8, BEQ_8);
    ZeroAt(s0, 2, 8, BEQ_8);
    BeqAt(s0, 2, 8, BEQ_8, 0, 8, 8);
    WordOf(s0, GUARDED, 3, 12);
    WordOf(s0, GUARDED, 4, 16);
    KeptNext(s0, 2, 16, ECALL_WORD);
    EcallAt(s0, 3, 16);
  }

  lemma GuardedProgramSound(s0: SeqState)
    requires Holds(s0, GUARDED)
    ensures SoundUpTo(s0, 4)
  {
    hide Recognize, St, Done, WordAt, Redirects, Following, Index, HaltsAt, At, SoundAt;
    GuardedProgramRun(s0);
    WordsNamed();
    NearWords();
    SoundHere(s0, 0, 0, LW_X1);
    SoundHere(s0, 1, 4, LI_X2_1);
    SoundHere(s0, 2, 8, BEQ_8);
    SoundHere(s0, 3, 16, ECALL_WORD);
  }

  /** `lw x1, 32(x0); addi x2, x0, 1; beq x0, x0, +8; addi x3, x0, 1; ecall`: the instruction behind the load
      reads another register, and the one jumped over writes another than the one ahead of the branch. */
  lemma GuardedProgram(cfg: Config, s0: SeqState, junk: nat -> bool)
    requires Holds(s0, GUARDED)
    ensures HaltsAt(s0, 4) && Guarded(cfg, s0, 4)
    ensures IsLoad(Done(St(s0, 0))) && Done(St(s0, 0)).rd.name == 1 && Redirects(Done(St(s0, 2)))
    ensures var r := Run(cfg, Initial(s0), junk, 14);
      r.Ok? && r.value.halted && |r.value.retired| == 4 && r.value.rf.regs == St(s0, 4).regs && r.value.mem == St(s0, 4).mem
  {
    hide St, Done, Redirects, HaltsAt, Guarded, Run, Initial;
    GuardedProgramRun(s0);
    GuardedProgramGood(cfg, s0);
    StartState(s0);
    RunTerminates(cfg, s0, junk, 4);
  }

  lemma GuardedProgramGood(cfg: Config, s0: SeqState)
    requires Holds(s0, GUARDED)
    ensures Guarded(cfg, s0, 4)
  {
    hide Recognize, St, Done, WordAt, Redirects, Following, Index, HaltsAt, SoundAt, Rs1, Rs2, Rd, Immediate;
    GuardedProgramRun(s0);
    GuardedProgramSound(s0);
    AddiWords();
    JumpWords();
    EcallWord();
    NearWords();
  }

  // ---- A store to the word that is being fetched ----

  const RACE: seq<Word> := [SW_RACE, NOP, NOP, NOP]

  ghost predicate RaceLoaded(s0: SeqState) { Holds(s0, RACE) && s0.regs[1].value == 0x73 }

  function Rewritten(mem: Mem): Mem { WriteWord(mem, 12, 4, 0x73) }

  /** Position `k`, behind the store, is a nop at `pc`. */
  ghost predicate NopAt(s0: SeqState, k: nat, pc: Word) {
    var s := St(s0, k);
    !s.halted && s.pc == pc && s.mem == Rewritten(s0.mem) && CodeAt(s) == NOP
  }

  lemma RaceWords(s0: SeqState)
    requires RaceLoaded(s0)
    ensures WordAt(s0.mem, 4) == NOP && WordAt(s0.mem, 8) == NOP && WordAt(s0.mem, 12) == NOP
    ensures WordAt(Rewritten(s0.mem), 4) == NOP && WordAt(Rewritten(s0.mem), 8) == NOP
    ensures WordAt(Rewritten(s0.mem), 12) == 0x73 && |Rewritten(s0.mem)| == 64
  {
    hide WordAt, Index, WriteWord, ReadWord;
    NearWords();
    WordOf(s0, RACE, 1, 4);
    WordOf(s0, RACE, 2, 8);
    WordOf(s0, RACE, 3, 12);
    KeptWord(s0.mem, 12, 0x73, 4);
    KeptWord(s0.mem, 12, 0x73, 8);
    WrittenWord(s0.mem, 12, 0x73);
  }

  lemma WrittenWord(mem: Mem, a: Word, w: Word)
    requires InBounds(mem, Index(a), 4)
    ensures WordAt(WriteWord(mem, Index(a), 4, w), a) == w
  {
    hide ReadWord, WriteWord, Index;
    ReadBack(mem, Index(a), w, 0, 0);
  }

  lemma RaceStore(s0: SeqState)
    requires RaceLoaded(s0)
    ensures At(s0, 0, 0, SW_RACE) && NopAt(s0, 1, 4)
    ensures var i := Done(St(s0, 0));
      IsStore(i) && !Redirects(i) && i.rs2.value == 0x73 && i.addr == 12 && i.accSize == 4
  {
    hide Fields, WordAt, Recognize, Following, Index, Done, St, Redirects, WriteWord;
    StoreWords();
    NearWords();
    RaceWords(s0);
    AtStart(s0, RACE);
    StoreAt(s0, 0, 0, SW_RACE, 1, 12, 12);
    StartState(s0);
  }

  lemma RaceNops(s0: SeqState)
    requires RaceLoaded(s0)
    ensures NopAt(s0, 2, 8)
    ensures var i := Done(St(s0, 1)); i.acc == NoAccess && !Redirects(i)
    ensures var i := Done(St(s0, 2)); i.acc == NoAccess && !Redirects(i)
  {
    hide WordAt, Following, Done, St, Redirects, Rewritten, NopAt, RaceLoaded;
    NearWords();
    RaceWords(s0);
    RaceStore(s0);
    NopIs(s0, 1, 4);
    NopNext(s0, 1, 4);
    NopIs(s0, 2, 8);
  }

  lemma NopIs(s0: SeqState, k: nat, pc: Word)
    requires NopAt(s0, k, pc)
    ensures var i := Done(St(s0, k)); i.acc == NoAccess && !Redirects(i)
  {
    hide Done, St, Redirects, CodeAt;
    NopDone(St(s0, k));
  }

  lemma NopNext(s0: SeqState, k: nat, pc: Word)
    requires NopAt(s0, k, pc) && WordAt(Rewritten(s0.mem), Following(pc)) == NOP
    ensures NopAt(s0, k + 1, Following(pc))
  {
    hide WordAt, Following, Done, St, Redirects, Rewritten;
    NopDone(St(s0, k));
    StStep(s0, k);
  }

  lemma NopDone(s: SeqState)
    requires CodeAt(s) == NOP
    ensures var i := Done(s); i.acc == NoAccess && !i.isBranch && !Redirects(i) && i.name == ADDI && i.pc == s.pc
  {
    hide Fields, WordAt, Recognize, Following, Index, Done, St, WriteWord, Alu, CodeAt;
    AddiWords();
    AddiDone(s, 0, 0, 0, 0);
  }

  lemma RaceGuard(cfg: Config, s0: SeqState)
    requires RaceLoaded(s0)
    ensures Guarded(cfg, s0, 3) && FollowsFreely(s0, 0) && FollowsFreely(s0, 1)
  {
    hide Recognize, St, Done, Redirects, Fetchable, Following, Index, SoundAt, CodeAt, LoadUse;
    RaceSound(s0);
    RaceStore(s0);
    RaceNops(s0);
    GoodHere(cfg, s0, 0);
    NoLoadNoUse(Done(St(s0, 0)), CodeAt(St(s0, 1)));
    NoLoadNoUse(Done(St(s0, 1)), CodeAt(St(s0, 2)));
    GoodHere(cfg, s0, 1);
    GoodHere(cfg, s0, 2);
  }

  lemma NoLoadNoUse(i: Instr, w: Word)
    ensures !IsLoad(i) ==> forall cfg: Config :: !LoadUse(cfg, i, w)
  {
    hide Recognize, Rs2;
  }

  lemma RaceSound(s0: SeqState)
    requires RaceLoaded(s0)
    ensures SoundAt(s0, 0) && SoundAt(s0, 1) && SoundAt(s0, 2)
  {
    hide Recognize, St, Done, WordAt, Redirects, Following, Index, At, SoundAt, RaceLoaded, NopAt, Rewritten, MemoryKept;
    RaceStore(s0);
    RaceNops(s0);
    RaceWords(s0);
    WordsNamed();
    NearWords();
    RaceSize(s0);
    KeptFrom(s0, SW_RACE);
    SoundHere(s0, 0, 0, SW_RACE);
    NopSound(s0, 1, 4);
    NopSound(s0, 2, 8);
  }

  /** The first three positions see one of the two memories. */
  lemma RaceSize(s0: SeqState)
    requires RaceLoaded(s0)
    ensures |s0.mem| == 64
    ensures forall j: nat | j <= 2 :: St(s0, j).mem == s0.mem || St(s0, j).mem == Rewritten(s0.mem)
  {
    hide Recognize, St, Done, WordAt, Redirects, Following, Index, At, Rewritten;
    StartState(s0);
    RaceStore(s0);
    RaceNops(s0);
  }

  lemma NopSound(s0: SeqState, k: nat, pc: Word)
    requires NopAt(s0, k, pc) && |s0.mem| == 64 && Near(pc) && Done(St(s0, k)).acc == NoAccess
    requires forall j: nat | j <= k :: St(s0, j).mem == s0.mem || St(s0, j).mem == Rewritten(s0.mem)
    requires WordAt(s0.mem, pc) == NOP && WordAt(Rewritten(s0.mem), pc) == NOP
    ensures SoundAt(s0, k)
  {
    hide Recognize, St, Done, WordAt, Following, Index, Near, Fetchable, WriteWord;
    WordsNamed();
    NearFits(Rewritten(s0.mem), pc);
    NearFits(s0.mem, pc);
  }

  /** No instruction is in EX before two cycles have passed. */
  lemma ArrivesLate(cfg: Config, m: Machine, s0: SeqState, k: nat)
    requires Arrives(cfg, m, s0, k)
    ensures m.clocks >= 2
  {
    hide Refines, Running, CleanStores;
    CountedOfRunning(cfg, m, s0);
  }

  lemma CountedOfRunning(cfg: Config, m: Machine, s0: SeqState)
    requires OnSchedule(cfg, m, s0) && Running(cfg, m, s0)
    ensures CountedRunning(m)
  {
    hide Refines, Running, Counted, CountedRunning;
  }

  lemma ComingSoon(cfg: Config, s0: SeqState, junk: nat -> bool)
    requires RegsNamed(s0.regs) && !s0.halted && Enters(cfg, s0, 0)
    ensures Coming(cfg, s0, junk, 0, 0) && Coming(cfg, s0, junk, 0, 1) && ArrivesAt(cfg, s0, junk, 0, 2)
  {
    hide Cycle, St, Enters, OnSchedule, Initial, Arrives;
    InitialOnSchedule(cfg, s0);
    InitialPosition(s0);
    StartState(s0);
    assert Coming(cfg, s0, junk, 0, 0);
    ComingStep(cfg, s0, junk, 0, 0);
    if ArrivesAt(cfg, s0, junk, 0, 1) { ArrivesLate(cfg, Run(cfg, Initial(s0), junk, 1).value, s0, 0); }
    ComingStep(cfg, s0, junk, 0, 1);
    if Coming(cfg, s0, junk, 0, 2) { ComingIsEarly(cfg, s0, junk, 0, 2); }
  }

  /** In step, with no instruction in EM, no store is on its way. */
  lemma NoStoreNoRace(r: bool, m: Machine, junk: bool)
    requires QueueEmpty(m) && !Live(m.em.load)
    ensures !FetchRace(r, m, junk)
  {
    hide WriteBack, ExecuteStage, DecodeStage, ReadWord, Index, FetchPc, Release;
    var m1 := WriteBack(Queued(r), m);
    WbFrame(Queued(r), m);
    if ToDecoded(Queued(r), m, junk).Ok? {
      var m2 := MemoryAccess(Queued(r), m1).value;
      ExecuteKeeps(Queued(r), m2);
      DecodeKeepsMem(Queued(r), ExecuteStage(Queued(r), m2), junk);
      BubbleWritesNothing(m.mem);
    }
  }

  lemma EmptyEm(m: Machine)
    requires PosDe(m) == 0
    ensures !Live(m.em.load)
  {
  }

  lemma NoEarlyRace(r: bool, s0: SeqState, junk: nat -> bool)
    requires RegsNamed(s0.regs) && !s0.halted && Enters(Queued(r), s0, 0)
    ensures RaceFree(r, Initial(s0), junk, 3)
  {
    hide Cycle, St, Enters, OnSchedule, FetchRace, QueueEmpty, Running;
    ComingSoon(Queued(r), s0, junk);
    forall k: nat | k < 3 ensures !RacesAt(r, Initial(s0), junk, k) {
      var m := Run(Queued(r), Initial(s0), junk, k).value;
      QueueAlwaysEmpty(Queued(r), s0.regs, s0.mem, s0.pc, junk, k);
      EmptyEm(m);
      NoStoreNoRace(r, m, junk(k));
    }
  }

  lemma DecodeKeepsFetch(cfg: Config, w: Machine, junk: bool)
    requires DecodeStage(cfg, w, junk).Ok?
    ensures DecodeStage(cfg, w, junk).value.wf.load == w.wf.load
  {
    hide ReadSources, MakeInstr, Recognize, Rd;
    if LiveFD(w.fd.load) && w.de.stop == 0 { SourcesKeep(cfg, w, w.fd.load.word); }
  }

  /** The store in MEM stands in the pending slot when fetch comes to 12. */
  ghost predicate RaceSet(d: Machine, mem: Mem) {
    && d.mem == mem && Apply(d.sq.pending, mem) == Rewritten(mem)
    && !d.wf.load.isStall && !d.wf.load.hazard && FetchPc(d.wf.load) == 12 && d.fd.stop == 0
  }

  lemma StorePushed(r: bool, m: Machine, mem: Mem)
    requires QueueEmpty(m) && Live(m.em.load) && m.mem == mem
    requires var i := m.em.load.instr; IsStore(i) && i.rs2.value == 0x73 && Index(i.addr) == 12 && i.accSize == 4
    ensures BeforeDecode(Queued(r), m).Ok?
    ensures var w := BeforeDecode(Queued(r), m).value; w.mem == mem && Apply(w.sq.pending, mem) == Rewritten(mem)
  {
    hide WriteBack, ExecuteStage, WriteWord, Index;
    var m1 := WriteBack(Queued(r), m);
    WbFrame(Queued(r), m);
    ExecuteKeeps(Queued(r), MemoryAccess(Queued(r), m1).value);
  }

  lemma RaceInEm(m: Machine, s0: SeqState)
    requires BackEnd(m, s0) && RaceLoaded(s0) && PosEm(m) == 0 && Live(m.em.load)
    ensures var i := m.em.load.instr; IsStore(i) && i.rs2.value == 0x73 && Index(i.addr) == 12 && i.accSize == 4
    ensures m.mem == s0.mem
  {
    hide Done, St, Complete, Issue, TraceRight, RegsAgree, LocksConserved, Index, WordAt;
    RaceStore(s0);
    NearWords();
    StartState(s0);
    CompleteKeeps(m.em.load.instr, m.mem);
  }

  lemma RaceFront(cfg: Config, m: Machine, s0: SeqState)
    requires BackEnd(m, s0) && RaceLoaded(s0) && Running(cfg, m, s0) && PosDe(m) == 1 && Live(m.de.load)
    ensures FetchPc(m.wf.load) == 12 && !m.wf.load.isStall && !m.wf.load.hazard
  {
    hide Done, St, InStep, LocksConserved, Following, WordAt, CodeAt, FetchedBefore, Redirects;
    BusyIsStraight(cfg, m, s0);
    RaceStore(s0);
    DePc(m, s0);
    NearWords();
  }

  lemma RaceDecoded(r: bool, m: Machine, s0: SeqState, junk: bool)
    requires RaceLoaded(s0) && Arrives(Queued(r), m, s0, 1) && Live(m.em.load) && QueueEmpty(m)
    ensures ToDecoded(Queued(r), m, junk).Ok? && RaceSet(ToDecoded(Queued(r), m, junk).value, s0.mem)
  {
    hide Done, St, InStep, LocksConserved, SoundAt, FollowsFreely, Refines, Counted, Running, AtDecode, BackEndGood, BeforeDecode,
         DecodeStage, RaceLoaded, FetchPc, Apply;
    RunningIsAwake(Queued(r), m, s0);
    RaceSoundUpTo(s0);
    RaceGuard(Queued(r), s0);
    BackOfRefines(Queued(r), m, s0);
    BoundaryBack(Queued(r), m, s0);
    BeforeDecodeRefines(Queued(r), m, s0);
    var w := BeforeDecode(Queued(r), m).value;
    NextDecoded(Queued(r), m, w, s0, 1, junk);
    RaceInEm(m, s0);
    RaceFront(Queued(r), m, s0);
    StorePushed(r, m, s0.mem);
    DecodeKeepsMem(Queued(r), w, junk);
    DecodeKeepsFetch(Queued(r), w, junk);
    FrontKept(m, w, s0);
    NextFree(DecodeStage(Queued(r), w, junk).value, s0, 0);
  }

  lemma RaceSoundUpTo(s0: SeqState)
    requires RaceLoaded(s0)
    ensures SoundUpTo(s0, 3)
  {
    hide SoundAt, RaceLoaded;
    RaceSound(s0);
  }

  lemma BackOfRefines(cfg: Config, m: Machine, s0: SeqState)
    requires Refines(cfg, m, s0)
    ensures BackEnd(m, s0) && InStep(m, s0)
  {
    hide InStep, LocksConserved, Running;
  }

  lemma FrontKept(m: Machine, w: Machine, s0: SeqState)
    requires AtDecode(m, w, s0)
    ensures w.wf.load == m.wf.load
  {
    hide Ready, Execute, Redirects, St;
  }

  lemma NextFree(d: Machine, s0: SeqState, x: nat)
    requires DecodedNext(d, s0, x)
    ensures d.fd.stop == 0
  {
    hide Staged, St, Issue, Fetchable, Following;
  }

  /** What was fetched in a completed cycle. */
  lemma FetchedWord(d: Machine)
    requires Finish(d).Ok? && !d.wf.load.isStall && !d.wf.load.hazard && d.fd.stop == 0
    ensures Finish(d).value.fd.load.word == WordAt(d.mem, FetchPc(d.wf.load))
  {
    hide ReadWord, Index, InBounds, Following, Advance;
  }

  /** One cycle of both machines from the race: with the queue the old word is fetched, without it the new. */
  lemma RaceCycle(r: bool, m: Machine, m': Machine, s0: SeqState, junk: bool)
    requires RaceLoaded(s0) && Arrives(Queued(r), m, s0, 1) && Live(m.em.load)
    requires QueueEmpty(m) && SameButId(m, m') && Tabled(m)
    ensures !m.halted && Cycle(Queued(r), m, junk).Ok? && Cycle(Direct(r), m', junk).Ok?
    ensures Cycle(Queued(r), m, junk).value.fd.load.word == NOP && Cycle(Direct(r), m', junk).value.fd.load.word == 0x73
  {
    hide St, Cycle, Finish, OnSchedule, Running, ToDecoded, Tabled, QueueEmpty, RaceLoaded, WordAt, FetchPc, Apply, PendingFits,
         Rewritten;
    ArrivesAwake(Queued(r), m, s0, 1);
    RaceCycles(Queued(r), m, s0, junk);
    SwitchExact(r, m, m', junk);
    RaceDecoded(r, m, s0, junk);
    RaceWords(s0);
    DecodedTwins(r, m, m', junk);
    CycleFinishes(Queued(r), m, junk);
    CycleFinishes(Direct(r), m', junk);
    FetchedWord(ToDecoded(Queued(r), m, junk).value);
    FetchedWord(ToDecoded(Direct(r), m', junk).value);
  }

  lemma RaceCycles(cfg: Config, m: Machine, s0: SeqState, junk: bool)
    requires RaceLoaded(s0) && Arrives(cfg, m, s0, 1)
    ensures Cycle(cfg, m, junk).Ok?
  {
    hide St, Cycle, Refines, Counted, Running, RaceLoaded, GoodAt, Clear;
    ArrivesAwake(cfg, m, s0, 1);
    RaceGuard(cfg, s0);
    GuardedIsClear(cfg, s0, m, 3);
    CycleOnSchedule(cfg, m, s0, junk);
  }

  /** `sw x1, 12(x0); nop; nop; nop` with x1 == 0x73. The store is in MEM in the cycle that fetches 12: the two
      settings agree for three cycles, and after the fourth one has fetched a nop and the other an ECALL. */
  lemma RaceProgram(r: bool, s0: SeqState, junk: nat -> bool)
    requires Holds(s0, RACE) && s0.regs[1].value == 0x73
    ensures forall t: nat | t <= 3 :: AgreeAt(r, Initial(s0), junk, t)
    ensures !AgreeAt(r, Initial(s0), junk, 4)
    ensures var a := Run(Queued(r), Initial(s0), junk, 4); a.Ok? && a.value.fd.load.word == NOP
    ensures var b := Run(Direct(r), Initial(s0), junk, 4); b.Ok? && b.value.fd.load.word == 0x73
  {
    hide Cycle, St, Arrives, FollowsFreely, Tabled, LocksConserved, QueueEmpty, Initial, RaceLoaded, GoodAt, Enters;
    assert RaceLoaded(s0) by { RaceIsLoaded(s0); }
    var m := RaceStart(r, s0, junk);
    SwitchInvisible(r, s0, junk, 3);
    SwitchInvisibleExactly(r, s0, junk, 3);
    RaceCycle(r, m, Run(Direct(r), Initial(s0), junk, 3).value, s0, junk(3));
    assert Run(Queued(r), Initial(s0), junk, 4) == Cycle(Queued(r), m, junk(3));
  }

  lemma RaceIsLoaded(s0: SeqState)
    requires Holds(s0, RACE) && s0.regs[1].value == 0x73
    ensures RaceLoaded(s0)
  {
  }

  /** Three cycles on, the store is in EM, a nop in DE and one in FD. */
  lemma RaceStart(r: bool, s0: SeqState, junk: nat -> bool) returns (m: Machine)
    requires RaceLoaded(s0)
    ensures Run(Queued(r), Initial(s0), junk, 3) == Ok(m) && RaceFree(r, Initial(s0), junk, 3)
    ensures Arrives(Queued(r), m, s0, 1) && Live(m.em.load)
  {
    hide Cycle, St, Arrives, FollowsFreely, Initial, GoodAt, Enters, WordAt, RacesAt;
    RaceGuard(Queued(r), s0);
    EntersBefore(Queued(r), s0, 1);
    EntersBefore(Queued(r), s0, 2);
    ComingSoon(Queued(r), s0, junk);
    NoEarlyRace(r, s0, junk);
    var p := Run(Queued(r), Initial(s0), junk, 2).value;
    ArrivesAwake(Queued(r), p, s0, 0);
    NextFollows(Queued(r), p, s0, 0, junk(2));
    m := Cycle(Queued(r), p, junk(2)).value;
  }

  // ---- A branch that hits the load just ahead with both operands ----

  const DOUBLE: seq<Word> := [LW_X1, BEQ_X1, ECALL_WORD, ECALL_WORD]

  lemma DoubleRun(s0: SeqState)
    requires Holds(s0, DOUBLE)
    ensures At(s0, 0, 0, LW_X1) && At(s0, 1, 4, BEQ_X1) && MemoryKept(s0, 1)
    ensures var i := Done(St(s0, 0)); IsLoad(i) && i.rd.name == 1 && i.addr == 32 && i.accSize == 4 && !Redirects(i)
    ensures Done(St(s0, 1)).acc == NoAccess
  {
    hide Fields, WordAt, Recognize, Following, Index, Done, St, Alu, HaltsAt, Redirects, JumpTarget, At, Holds, MemoryKept, IsLoad;
    LoadWord();
    JumpWords();
    NearWords();
    AtStart(s0, DOUBLE);
    KeptFrom(s0, LW_X1);
    LoadAt(s0, 0, 0, LW_X1, 0, 1, 32);
    WordOf(s0, DOUBLE, 1, 4);
    KeptNext(s0, 0, 4, BEQ_X1);
    BeqAt(s0, 1, 4, BEQ_X1, 1, 8, 8);
  }

  lemma DoublePair(cfg: Config, s0: SeqState)
    requires !cfg.repaired && Holds(s0, DOUBLE)
    ensures Guarded(cfg, s0, 1) && Enters(cfg, s0, 0) && LoadUsePair(cfg, s0, 0) && CodeAt(St(s0, 1)) == BEQ_X1
  {
    hide Recognize, St, Done, WordAt, Redirects, Following, Index, SoundAt, GoodAt, Rs1, Rs2, Rd, Immediate, CodeStable;
    DoubleRun(s0);
    WordsNamed();
    JumpWords();
    NearWords();
    StartState(s0);
    SoundHere(s0, 0, 0, LW_X1);
    SoundHere(s0, 1, 4, BEQ_X1);
    SoundIsStable(s0, 1);
    GoodHere(cfg, s0, 0);
  }

  /** Both operands wait for the load, so both are the register as it stands. */
  lemma DecodedEqual(cfg: Config, w: Machine, junk: bool)
    requires !cfg.repaired && DecodeStage(cfg, w, junk).Ok? && w.de.stop == 0 && DoubleHit(w)
    requires w.fd.load.word == BEQ_X1
    ensures var i := DecodeStage(cfg, w, junk).value.de.store.instr; i.acc == NoAccess && Redirects(Execute(i))
  {
    hide Recognize, Rs1, Rs2, Rd, Immediate;
    JumpWords();
    DoubleIsLive(w);
    HitReadsFile(cfg, w, 1, NeedExecute);
    HitReadsFile(cfg, ReadOperand(cfg, w, 1, NeedExecute).value.0, 1, NeedOfRs2(BEQ_X1));
    hide ReadOperand;
    BeqTaken(DecodeStage(cfg, w, junk).value.de.store.instr);
  }

  lemma HitReadsFile(cfg: Config, m: Machine, n: RegNum, need: NeededIn)
    requires LoadHit(m, n) && need == NeedExecute
    ensures ReadOperand(cfg, m, n, need).Ok?
    ensures var r := ReadOperand(cfg, m, n, need).value; r.1 == m.rf.regs[n] && r.0.rf == m.rf && LoadHit(r.0, n)
  {
  }

  lemma BeqTaken(i: Instr)
    requires i.name == BEQ && i.typ == B && i.isBranch && i.rs1 == i.rs2
    ensures Redirects(Execute(i))
  {
  }

  /** With the pair in DE and FD, decode hits twice. */
  lemma DoubleHits(cfg: Config, m: Machine, s0: SeqState, junk: bool)
    requires !cfg.repaired && Holds(s0, DOUBLE) && Refines(cfg, m, s0) && Running(cfg, m, s0) && PosDe(m) == 0 && Live(m.de.load)
    ensures BeforeDecode(cfg, m).Ok? && Cycle(cfg, m, junk).Ok?
    ensures DoubleHit(BeforeDecode(cfg, m).value) && BeforeDecode(cfg, m).value.fd.load.word == BEQ_X1
    ensures m.de.load.instr.typ != System && BeforeDecode(cfg, m).value.de.stop == 0
  {
    hide Cycle, St, Done, SoundAt, InStep, LocksConserved, AtDecode, BackEndGood, Running, DecodeStage, Finish, BeforeDecode,
         LoadUsePair, GoodAt, Enters, Recognize, Rs1, Rs2, Rd, Immediate, Holds, Ready, Advance, LoadHit, Execute, CodeAt;
    RunningIsAwake(cfg, m, s0);
    DoublePair(cfg, s0);
    GuardedIsSound(cfg, s0, 1);
    BoundaryBack(cfg, m, s0);
    BeforeDecodeRefines(cfg, m, s0);
    var w := BeforeDecode(cfg, m).value;
    PairHits(cfg, m, w, s0, 0);
    JumpWords();
    HitOfSource(w);
    LoadHazardExact(cfg, w, junk);
    CycleSplits(cfg, m, junk);
    ReadyOf(m, w, s0);
    ReadyAdvances(w, s0, PosEm(m));
    if DecodeStage(cfg, w, junk).Ok? {
      HoldOfHit(cfg, w, junk);
      DecodeKeepsMem(cfg, w, junk);
      HeldFinishes(DecodeStage(cfg, w, junk).value);
    }
    LoadInEx(m, w, s0);
  }

  lemma HitOfSource(w: Machine)
    requires SourceHit(w, BEQ_X1) && w.fd.load.word == BEQ_X1 && LiveFD(w.fd.load)
    ensures DoubleHit(w) && NeedOfRs2(BEQ_X1) == NeedExecute
  {
    hide Recognize, LoadHit, Rs1, Rs2, Rd, Immediate;
    JumpWords();
  }

  lemma HoldOfHit(cfg: Config, w: Machine, junk: bool)
    requires !cfg.repaired && DecodeStage(cfg, w, junk).Ok? && w.de.stop == 0 && DoubleHit(w)
    ensures DecodeStage(cfg, w, junk).value.fd.stop > 0
  {
    hide DecodeStage, DoubleHit;
    DecodeTwice(cfg, w, junk);
  }

  lemma LoadInEx(m: Machine, w: Machine, s0: SeqState)
    requires AtDecode(m, w, s0) && DoubleHit(w) && Live(m.de.load)
    ensures m.de.load.instr.typ != System
  {
    hide Ready, Execute, Redirects, St, Recognize, LoadHit;
    DoubleIsLive(w);
  }

  /** The cycle of the double hit: the branch comes to EX with fetch held. */
  lemma DoubleHolds(cfg: Config, m: Machine, s0: SeqState, junk: bool)
    requires !cfg.repaired && Holds(s0, DOUBLE) && Arrives(cfg, m, s0, 0)
    ensures !m.halted && Cycle(cfg, m, junk).Ok?
    ensures var n := Cycle(cfg, m, junk).value; JumpHeld(n) && n.fd.stop == 1 && n.em.load.hazard && !n.halted
  {
    hide Cycle, St, Done, InStep, Running, DecodeStage, BeforeDecode, AfterDecode, Recognize, Holds, LoadHit, Execute,
         DoubleHit, CountedRunning, Refines, SourceHit, LocksConserved, CountedAtDecode, Redirects;
    DoubleSetUp(cfg, m, s0);
    DoubleHits(cfg, m, s0, junk);
    CycleSplits(cfg, m, junk);
    var w := BeforeDecode(cfg, m).value;
    BeforeDecodeCounts(cfg, m);
    FrontOfCounted(m, w);
    DoubleIsLive(w);
    HeldByDoubleHit(cfg, m, w, junk);
    AfterDecodes(cfg, w, junk);
    DecodedEqual(cfg, w, junk);
    DoubleMarks(cfg, w, junk);
    CycleConservesLocks(cfg, m, junk);
    StopsOfLocks(Cycle(cfg, m, junk).value);
    LaterHalts(cfg, w, junk);
  }

  lemma DoubleSetUp(cfg: Config, m: Machine, s0: SeqState)
    requires Arrives(cfg, m, s0, 0)
    ensures !m.halted && Refines(cfg, m, s0) && LocksConserved(m) && CleanStores(m) && CountedRunning(m)
  {
    hide St, Done, InStep, Running, LocksConserved, CountedRunning;
    CountedOfRunning(cfg, m, s0);
    ArrivesAwake(cfg, m, s0, 0);
  }

  lemma AfterDecodes(cfg: Config, w: Machine, junk: bool)
    requires AfterDecode(cfg, w, junk).Ok?
    ensures DecodeStage(cfg, w, junk).Ok?
  {
    hide DecodeStage, Finish;
  }

  /** A double hit cancels the load. */
  lemma DoubleMarks(cfg: Config, w: Machine, junk: bool)
    requires !cfg.repaired && AfterDecode(cfg, w, junk).Ok? && w.em.stop == 0 && w.de.stop == 0 && DoubleHit(w)
    ensures AfterDecode(cfg, w, junk).value.em.load.hazard
  {
    hide AfterDecode, Recognize, LoadHit, Rs1, Rs2;
    HitCancelsInEm(cfg, w, junk);
  }

  lemma FrontOfCounted(m: Machine, w: Machine)
    requires CountedRunning(m) && CountedAtDecode(m, w)
    ensures !m.wf.store.isStall && !m.wf.store.hazard && w.em.stop == 0 && w.mw.stop == 0 && LiveFD(m.fd.load) == LiveFD(w.fd.load)
    ensures !w.halted
  {
    hide Execute, Redirects;
  }

  lemma LaterHalts(cfg: Config, w: Machine, junk: bool)
    requires AfterDecode(cfg, w, junk).Ok?
    ensures AfterDecode(cfg, w, junk).value.halted == w.halted
  {
    hide ReadSources, MakeInstr, Recognize, Rd, Advance, ReadWord, Following, Index, InBounds;
    if LiveFD(w.fd.load) && w.de.stop == 0 { SourcesKeep(cfg, w, w.fd.load.word); }
  }

  /** A jump over a bubble, with fetch held, throws nothing. */
  lemma HeldJumpGoesOn(cfg: Config, m: Machine, junk: bool)
    requires JumpHeld(m) && m.fd.stop > 0 && QueueEmpty(m) && !Live(m.em.load)
    ensures Cycle(cfg, m, junk).Ok?
  {
    hide Cycle, BeforeDecode, DecodeStage, Finish, Execute, Redirects, Advance, QueueEmpty;
    JammedQueue(cfg, m);
    CycleSplits(cfg, m, junk);
    var w := BeforeDecode(cfg, m).value;
    HeldJumpFront(cfg, m);
    QuietDecode(cfg, w, junk);
    DecodeKeepsMem(cfg, w, junk);
    HeldFinishes(DecodeStage(cfg, w, junk).value);
  }

  lemma HeldJumpFront(cfg: Config, m: Machine)
    requires JumpHeld(m) && BeforeDecode(cfg, m).Ok?
    ensures var w := BeforeDecode(cfg, m).value; w.de.load.instr.acc != Read && w.fd.stop >= m.fd.stop
  {
    hide WriteBack, MemoryAccess, ExecuteStage, Execute, Redirects;
    var m1 := WriteBack(cfg, m);
    WbLatches(cfg, m);
    MemFrame(cfg, m1);
    ExecuteKeeps(cfg, MemoryAccess(cfg, m1).value);
  }

  /** `lw x1, 32(x0); beq x1, x1, +8`: as written the branch executes after three cycles with fetch held, and the
      word behind it, in the fetch latch, is not cancelled. */
  lemma DoubleHitProgram(cfg: Config, s0: SeqState, junk: nat -> bool)
    requires !cfg.repaired && Holds(s0, DOUBLE)
    ensures Run(cfg, Initial(s0), junk, 3).Ok? && Run(cfg, Initial(s0), junk, 4).Ok?
    ensures var m, n := Run(cfg, Initial(s0), junk, 3).value, Run(cfg, Initial(s0), junk, 4).value;
      var i := Execute(m.de.load.instr);
      && !m.halted && Live(m.de.load) && Redirects(i) && m.fd.stop == 1
      && n.fd.load == m.fd.load && LiveFD(n.fd.load) && !Squashed(m, n, i)
  {
    hide Cycle, Arrives, Initial, Enters, Guarded, QueueEmpty, Execute, Redirects, Squashed;
    DoublePair(cfg, s0);
    ComingSoon(cfg, s0, junk);
    var p := Run(cfg, Initial(s0), junk, 2).value;
    DoubleHolds(cfg, p, s0, junk(2));
    var m := Run(cfg, Initial(s0), junk, 3).value;
    assert m == Cycle(cfg, p, junk(2)).value;
    EmptyInitial(cfg, s0, junk, 3);
    HeldJumpGoesOn(cfg, m, junk(3));
    HeldSquashExact(cfg, m, junk(3));
    assert Run(cfg, Initial(s0), junk, 4) == Cycle(cfg, m, junk(3));
  }

  lemma EmptyInitial(cfg: Config, s0: SeqState, junk: nat -> bool, t: nat)
    requires Run(cfg, Initial(s0), junk, t).Ok?
    ensures QueueEmpty(Run(cfg, Initial(s0), junk, t).value)
  {
    hide Run, QueueEmpty;
    QueueAlwaysEmpty(cfg, s0.regs, s0.mem, s0.pc, junk, t);
  }
}
