/** Branch squash, exactly (src/HazardUnit.cpp:59-69): what one executed jump cancels, what it does not,
    and where fetch goes on. No guard on the program, only that nothing is held; as written that fails exactly
    behind an instruction that hits the load just ahead with both operands. */
module Squash {
  import opened Isa
  import opened Decoding
  import opened Executors
  import opened Memories
  import opened StoreQueues
  import opened Machines
  import opened Scoreboard
  import opened Sequential
  import opened Refinement
  import opened Latches
  import opened Accounting
  import opened Termination
  import opened Numbers
  import opened Manual
  import opened Encoding

  /** EX holds a live jump or taken branch, and nothing is held. */
  predicate JumpInEx(m: Machine) {
    && Live(m.de.load) && m.de.load.instr.acc == NoAccess && Redirects(Execute(m.de.load.instr))
    && NoStops(m) && m.em.stop == 0 && m.mw.stop == 0
    && NoCancelInStores(m) && !m.wf.store.isStall && !m.wf.store.hazard
  }

  /** One cycle later: the jump `i` alone has moved on, the two words behind it are cancelled and fetch is
      sent to its target. */
  predicate Squashed(m: Machine, n: Machine, i: Instr) {
    && Live(n.em.load) && n.em.load.instr == i
    && n.de.load.hazard && n.de.load.isStall == !LiveFD(m.fd.load)
    && n.fd.load.hazard && n.fd.load.isStall == (m.wf.load.isStall || m.wf.load.hazard)
    && !n.mw.load.hazard && n.mw.load.isStall == !Live(m.em.load)
    && !n.wf.load.isStall && !n.wf.load.hazard && FetchPc(n.wf.load) == i.branchAddr
    && NoStops(n) && n.em.stop == 0 && n.mw.stop == 0 && NoCancelInStores(n)
    && n.branches == m.branches + 1
    && n.halted == (m.halted || (Live(m.mw.load) && m.mw.load.instr.name == ECALL))
  }

  /** Two cycles later: the target has been fetched, and the cancelled words have not come any further. */
  predicate Resumed(m: Machine, n: Machine, i: Instr) {
    && Live(n.mw.load) && n.mw.load.instr == i
    && n.em.load.isStall && n.de.load.isStall
    && LiveFD(n.fd.load) && n.fd.load.pc == i.branchAddr
    && n.branches == m.branches + 1
  }

  /** What ID leaves of the front end behind a jump. */
  lemma QuietDecode(cfg: Config, w: Machine, junk: bool)
    requires Live(w.de.load) ==> w.de.load.instr.acc != Read
    ensures var r := DecodeStage(cfg, w, junk); r.Ok? && var d := r.value;
      && d.wf == w.wf && d.fd == w.fd && d.em == w.em && d.mw == w.mw && d.branches == w.branches
      && d.de == w.de.(store := d.de.store) && d.de.store.hazard == w.de.store.hazard
      && (w.de.stop == 0 ==> d.de.store.isStall == !LiveFD(w.fd.load)) && d.halted == w.halted
  {
    hide ReadSources, MakeInstr, Recognize, Rd, SourceHit;
    HitNeedsLoad(w);
    QuietSources(cfg, w, w.fd.load.word);
  }

  /** IF and the update, when nothing is held. */
  lemma FreeFinish(d: Machine)
    requires Finish(d).Ok? && d.wf.stop == 0 && d.fd.stop == 0 && d.de.stop == 0 && d.em.stop == 0 && d.mw.stop == 0
    ensures var n := Finish(d).value; var stall := d.wf.load.isStall || d.wf.load.hazard;
      && n.de == Buffer(CLEAR, d.de.store, 0) && n.em == Buffer(CLEAR, d.em.store, 0) && n.mw == Buffer(CLEAR, d.mw.store, 0)
      && n.fd.store == FD_CLEAR && n.fd.load.hazard == d.fd.store.hazard && n.fd.load.isStall == stall
      && (!stall ==> n.fd.load.pc == FetchPc(d.wf.load))
      && n.wf.load == d.wf.store.(pc := n.wf.load.pc) && n.branches == d.branches && n.halted == d.halted
      && n.wf.stop == 0 && n.fd.stop == 0
  {
    hide ReadWord, InBounds, Index, Following, Advance;
  }

  /** Each executed jump cancels exactly the word in decode and the word in fetch. */
  lemma SquashExact(cfg: Config, m: Machine, junk: bool)
    requires JumpInEx(m) && Cycle(cfg, m, junk).Ok?
    ensures Squashed(m, Cycle(cfg, m, junk).value, Execute(m.de.load.instr))
  {
    hide Cycle, Execute, Redirects, Release, WriteBack, MemoryAccess, ExecuteStage, DecodeStage, Finish, Index;
    CycleIs(cfg, m, junk);
    var m1 := WriteBack(cfg, m);
    WbLatches(cfg, m);
    MemFrame(cfg, m1);
    MemLatches(cfg, m1);
    var m2 := MemoryAccess(cfg, m1).value;
    ExecuteKeeps(cfg, m2);
    var w := ExecuteStage(cfg, m2);
    JumpIsNotSystem(Execute(m.de.load.instr));
    QuietDecode(cfg, w, junk);
    FreeFinish(DecodeStage(cfg, w, junk).value);
  }

  lemma JumpIsNotSystem(i: Instr)
    ensures Redirects(i) ==> i.typ != System
  {
  }

  /** The cancelled words get no further, and fetch goes on at the target. */
  lemma ResumeExact(cfg: Config, m: Machine, junk: bool, junk': bool)
    requires JumpInEx(m) && Cycle(cfg, m, junk).Ok? && Cycle(cfg, Cycle(cfg, m, junk).value, junk').Ok?
    ensures Resumed(m, Cycle(cfg, Cycle(cfg, m, junk).value, junk').value, Execute(m.de.load.instr))
  {
    hide Cycle, Execute, Redirects, Release, WriteBack, MemoryAccess, ExecuteStage, DecodeStage, Finish, Index;
    SquashExact(cfg, m, junk);
    var n := Cycle(cfg, m, junk).value;
    CycleIs(cfg, n, junk');
    var n1 := WriteBack(cfg, n);
    WbLatches(cfg, n);
    MemFrame(cfg, n1);
    MemLatches(cfg, n1);
    var n2 := MemoryAccess(cfg, n1).value;
    ExecuteKeeps(cfg, n2);
    var w := ExecuteStage(cfg, n2);
    QuietDecode(cfg, w, junk');
    FreeFinish(DecodeStage(cfg, w, junk').value);
  }

  /** EX holds a live instruction of the opcode table, and nothing is held. */
  predicate FreeInEx(m: Machine) {
    && Live(m.de.load) && OfTable(m.de.load.instr) && NoStops(m) && m.em.stop == 0 && m.mw.stop == 0
    && NoCancelInStores(m) && !m.wf.store.isStall && !m.wf.store.hazard
  }

  /** By name and operands: JAL, JALR and a branch whose comparison holds, and nothing else, squash; fetch goes on at
      the destination of the name. */
  lemma SquashByName(cfg: Config, m: Machine, junk: bool)
    requires FreeInEx(m) && Cycle(cfg, m, junk).Ok?
    ensures var n := Cycle(cfg, m, junk).value; var i := m.de.load.instr;
      if Jumps(i) then
        && Squashed(m, n, Execute(i))
        && Unsigned(FetchPc(n.wf.load)) == Destination(i.name, Unsigned(i.rs1.value), Unsigned(i.imm), Unsigned(i.pc))
      else n.branches == m.branches
  {
    hide Cycle, Execute, Redirects, OfTable, Jumps, Unsigned, Destination, FormatOf, Executed;
    var i := m.de.load.instr;
    JumpsRedirect(i);
    if Jumps(i) {
      JumpAccess(i);
      SquashExact(cfg, m, junk);
      JumpGoes(i);
    } else {
      QuietBranches(cfg, m, junk);
    }
  }

  lemma JumpAccess(i: Instr)
    requires OfTable(i) && Jumps(i)
    ensures i.acc == NoAccess
  {
    hide Unsigned, Decides;
  }

  lemma JumpGoes(i: Instr)
    requires Jumps(i)
    ensures Unsigned(Execute(i).branchAddr) == Destination(i.name, Unsigned(i.rs1.value), Unsigned(i.imm), Unsigned(i.pc))
  {
    hide Unsigned, Decides, Execute, Destination, Computes;
    ExecutesRight(i);
  }

  /** A cycle whose EX redirects nothing counts no jump. */
  lemma QuietBranches(cfg: Config, m: Machine, junk: bool)
    requires Live(m.de.load) && !Redirects(Execute(m.de.load.instr)) && Cycle(cfg, m, junk).Ok?
    ensures Cycle(cfg, m, junk).value.branches == m.branches
  {
    hide Cycle, Execute, Redirects, Release, WriteBack, MemoryAccess, ExecuteStage, DecodeStage, Finish, Index;
    CycleIs(cfg, m, junk);
    var m1 := WriteBack(cfg, m);
    WbLatches(cfg, m);
    MemFrame(cfg, m1);
    var m2 := MemoryAccess(cfg, m1).value;
    ExecuteKeeps(cfg, m2);
    var w := ExecuteStage(cfg, m2);
    DecodeKeepsBranches(cfg, w, junk);
    BranchesKept(DecodeStage(cfg, w, junk).value);
  }

  lemma DecodeKeepsBranches(cfg: Config, w: Machine, junk: bool)
    requires DecodeStage(cfg, w, junk).Ok?
    ensures DecodeStage(cfg, w, junk).value.branches == w.branches
  {
    hide ReadSources, MakeInstr, Recognize, Rd;
    if LiveFD(w.fd.load) && w.de.stop == 0 { SourcesKeep(cfg, w, w.fd.load.word); }
  }

  /** Over every regular run: a jump that executes squashes exactly as stated, unless the cycle throws. */
  lemma RunSquashes(cfg: Config, s0: SeqState, junk: nat -> bool, t: nat)
    requires Regular(cfg, Initial(s0), junk, t) && Run(cfg, Initial(s0), junk, t).Ok?
    ensures var m := Run(cfg, Initial(s0), junk, t).value; var i := Execute(m.de.load.instr);
      var n, n' := Run(cfg, Initial(s0), junk, t + 1), Run(cfg, Initial(s0), junk, t + 2);
      !m.halted && Live(m.de.load) && Redirects(i) ==>
        (n.Ok? ==> Squashed(m, n.value, i)) && (n'.Ok? ==> n.Ok? && Resumed(m, n'.value, i))
  {
    hide Cycle, Execute, Redirects, Initial, Regular, Counted, Resumed, JumpInEx;
    RunCounts(cfg, s0, junk, t);
    var m := Run(cfg, Initial(s0), junk, t).value;
    if !m.halted && Live(m.de.load) && Redirects(Execute(m.de.load.instr)) {
      JumpsAreReady(m);
      var n := Run(cfg, Initial(s0), junk, t + 1);
      assert n == Cycle(cfg, m, junk(t));
      if n.Ok? {
        SquashExact(cfg, m, junk(t));
        if Cycle(cfg, n.value, junk(t + 1)).Ok? { ResumeExact(cfg, m, junk(t), junk(t + 1)); }
      }
    }
  }

  /** Guarded runs are regular and never throw: there every jump squashes and resumes. */
  lemma GuardedRunSquashes(cfg: Config, s0: SeqState, junk: nat -> bool, t: nat)
    requires RegsNamed(s0.regs) && !s0.halted && Guarded(cfg, s0, t + 2)
    ensures Run(cfg, Initial(s0), junk, t).Ok? && Run(cfg, Initial(s0), junk, t + 1).Ok? && Run(cfg, Initial(s0), junk, t + 2).Ok?
    ensures var m := Run(cfg, Initial(s0), junk, t).value; var i := Execute(m.de.load.instr);
      !m.halted && Live(m.de.load) && Redirects(i) ==>
        && Squashed(m, Run(cfg, Initial(s0), junk, t + 1).value, i)
        && Resumed(m, Run(cfg, Initial(s0), junk, t + 2).value, i)
  {
    hide Run, Execute, Redirects, Initial, GoodAt, Squashed, Resumed, Refines, Regular;
    RunRefines(cfg, s0, junk, t);
    RunRefines(cfg, s0, junk, t + 1);
    RunRefines(cfg, s0, junk, t + 2);
    GuardedIsRegular(cfg, s0, junk, t);
    RunSquashes(cfg, s0, junk, t);
  }

  lemma JumpsAreReady(m: Machine)
    requires Counted(m) && !m.halted && Live(m.de.load) && Redirects(Execute(m.de.load.instr))
    ensures JumpInEx(m) && !(Live(m.mw.load) && m.mw.load.instr.name == ECALL)
  {
  }

  // ---- The exception: fetch is held ----

  /** EX holds a live jump, and behind it fetch may be held at the word now in FD. */
  predicate JumpHeld(m: Machine) {
    && Live(m.de.load) && m.de.load.instr.acc == NoAccess && Redirects(Execute(m.de.load.instr)) && LiveFD(m.fd.load)
    && m.wf.stop == m.fd.stop && m.de.stop == 0 && m.em.stop == 0 && m.mw.stop == 0
    && NoCancelInStores(m) && !m.wf.store.isStall && !m.wf.store.hazard
  }

  /** A jump squashes as it should if and only if fetch is not held; held, the word in FD is not cancelled and
      will be decoded again. */
  lemma HeldSquashExact(cfg: Config, m: Machine, junk: bool)
    requires JumpHeld(m) && Cycle(cfg, m, junk).Ok?
    ensures var n := Cycle(cfg, m, junk).value;
      && (Squashed(m, n, Execute(m.de.load.instr)) <==> m.fd.stop == 0)
      && (m.fd.stop > 0 ==> n.fd.load == m.fd.load && LiveFD(n.fd.load) && n.branches == m.branches + 1)
  {
    hide Cycle, Execute, Redirects, Release, WriteBack, MemoryAccess, ExecuteStage, DecodeStage, Finish, Index;
    if m.fd.stop == 0 {
      SquashExact(cfg, m, junk);
    } else {
      CycleIs(cfg, m, junk);
      var m1 := WriteBack(cfg, m);
      WbLatches(cfg, m);
      MemFrame(cfg, m1);
      MemLatches(cfg, m1);
      var m2 := MemoryAccess(cfg, m1).value;
      ExecuteKeeps(cfg, m2);
      var w := ExecuteStage(cfg, m2);
      QuietDecode(cfg, w, junk);
      FinishLatches(DecodeStage(cfg, w, junk).value);
      BranchesKept(DecodeStage(cfg, w, junk).value);
    }
  }

  lemma BranchesKept(d: Machine)
    requires Finish(d).Ok?
    ensures Finish(d).value.branches == d.branches
  {
    hide ReadWord, InBounds, Index, Following, Advance;
  }

  /** As written, two operands that hit hold fetch twice. */
  lemma DoubleStalls(cfg: Config, m: Machine, w: Word)
    requires !cfg.repaired && ReadSources(cfg, m, w).Ok? && LiveFD(m.fd.load) && w == m.fd.load.word && DoubleHit(m)
    ensures var a := ReadSources(cfg, m, w).value.0; a.fd.stop == m.fd.stop + 2 && a.wf.stop == m.wf.stop + 2
  {
    hide Recognize, Rs1, Rs2, NeedOfRs2, ReadOperand;
    OperandCounts(cfg, m, Rs1(w), NeedExecute);
    OperandCounts(cfg, ReadOperand(cfg, m, Rs1(w), NeedExecute).value.0, Rs2(w), NeedOfRs2(w));
  }

  /** As written, behind a cycle with nothing held fetch is held if and only if both operands of the word in FD
      hit the load in EX; that word is then in DE and, once more, in FD. */
  lemma HeldByDoubleHit(cfg: Config, m: Machine, w: Machine, junk: bool)
    requires !cfg.repaired && CleanStores(m) && CountedRunning(m) && CountedAtDecode(m, w)
    requires Live(m.de.load) && m.de.load.instr.typ != System && AfterDecode(cfg, w, junk).Ok?
    ensures var n := AfterDecode(cfg, w, junk).value;
      && n.fd.stop == n.wf.stop == One(DoubleHit(w))
      && (DoubleHit(w) ==>
            && n.fd.load == m.fd.load && Live(n.de.load) && n.de.load.pc == m.fd.load.pc && NoCancelInStores(n) && n.de.stop == 0
            && n.wf.store == m.wf.store && n.de.load.instr == DecodeStage(cfg, w, junk).value.de.store.instr)
  {
    hide Execute, DecodeStage, Finish, SourceHit, DoubleHit, AfterDecode, CleanStores, CountedRunning, CountedAtDecode;
    if DoubleHit(w) { HeldTwice(cfg, m, w, junk); } else { NotHeld(cfg, m, w, junk); }
  }

  lemma NotHeld(cfg: Config, m: Machine, w: Machine, junk: bool)
    requires !cfg.repaired && CleanStores(m) && CountedRunning(m) && CountedAtDecode(m, w) && !DoubleHit(w)
    requires Live(m.de.load) && m.de.load.instr.typ != System && AfterDecode(cfg, w, junk).Ok?
    ensures var n := AfterDecode(cfg, w, junk).value; n.fd.stop == 0 && n.wf.stop == 0
  {
    hide Execute, DecodeStage, Finish, SourceHit, DoubleHit;
    HitNeedsLoad(w);
    assert SourceHit(w, w.fd.load.word) ==> !Redirects(w.em.store.instr);
    hide Redirects;
    DecodeCounts(cfg, w, junk);
    FinishCounts(DecodeStage(cfg, w, junk).value);
  }

  lemma DecodeTwice(cfg: Config, w: Machine, junk: bool)
    requires !cfg.repaired && DecodeStage(cfg, w, junk).Ok? && w.de.stop == 0 && DoubleHit(w)
    ensures var d := DecodeStage(cfg, w, junk).value;
      && d.fd.stop == w.fd.stop + 2 && d.wf.stop == w.wf.stop + 2 && d.fd.load == w.fd.load && d.wf.load == w.wf.load
      && d.fd.store == w.fd.store && d.wf.store == w.wf.store && d.de.store.hazard == w.de.store.hazard
      && !d.de.store.isStall && d.de.store.pc == w.fd.load.pc && d.de.stop == 0 && d.em.stop == w.em.stop && d.mw.stop == w.mw.stop
  {
    hide Recognize, Rd, Rs1, Rs2, ReadSources, MakeInstr, DoubleHit;
    assert LiveFD(w.fd.load) by { DoubleIsLive(w); }
    SourcesKeep(cfg, w, w.fd.load.word);
    SourcesHit(cfg, w, w.fd.load.word);
    DoubleStalls(cfg, w, w.fd.load.word);
  }

  lemma DoubleIsLive(w: Machine)
    requires DoubleHit(w)
    ensures LiveFD(w.fd.load) && Live(w.de.load) && w.de.load.instr.acc == Read
  {
    hide Recognize, Rs1, Rs2;
  }

  lemma HeldTwice(cfg: Config, m: Machine, w: Machine, junk: bool)
    requires !cfg.repaired && CleanStores(m) && CountedRunning(m) && CountedAtDecode(m, w) && DoubleHit(w)
    requires Live(m.de.load) && m.de.load.instr.typ != System && AfterDecode(cfg, w, junk).Ok?
    ensures var n := AfterDecode(cfg, w, junk).value;
      && n.fd.stop == 1 && n.wf.stop == 1 && n.fd.load == m.fd.load
      && Live(n.de.load) && n.de.load.pc == m.fd.load.pc && NoCancelInStores(n) && n.de.stop == 0
      && n.wf.store == m.wf.store && n.de.load.instr == DecodeStage(cfg, w, junk).value.de.store.instr
  {
    hide Execute, DecodeStage, Finish, DoubleHit;
    DoubleIsLive(w);
    assert !Redirects(w.em.store.instr);
    hide Redirects;
    DecodeTwice(cfg, w, junk);
    FinishCounts(DecodeStage(cfg, w, junk).value);
  }
}
