/** What each stage of one cycle does to the latches, on any machine (src/PerfSim.cpp:53-187). */
module Latches {
  import opened Isa
  import opened Decoding
  import opened Executors
  import opened Memories
  import opened StoreQueues
  import opened Machines
  import opened Scoreboard
  import opened Refinement
  import opened ConfigEquivalence

  lemma CycleIs(cfg: Config, m: Machine, junk: bool)
    requires Cycle(cfg, m, junk).Ok?
    ensures MemoryAccess(cfg, WriteBack(cfg, m)).Ok?
    ensures var d := DecodeStage(cfg, ExecuteStage(cfg, MemoryAccess(cfg, WriteBack(cfg, m)).value), junk);
      d.Ok? && Cycle(cfg, m, junk) == Finish(d.value)
  {
    hide WriteBack, MemoryAccess, ExecuteStage, DecodeStage, Fetch, Update;
  }

  /** What MEM leaves in its latches. */
  lemma MemLatches(cfg: Config, m: Machine)
    requires MemoryAccess(cfg, m).Ok?
    ensures var w := MemoryAccess(cfg, m).value; var l := m.em.load;
      && w.em == m.em.(load := w.em.load) && w.mw == m.mw.(store := w.mw.store)
      && w.mw.store.hazard == m.mw.store.hazard && w.mw.store.isStall == !Live(l)
      && (Live(l) && l.instr.acc == NoAccess ==> w.mw.store.pc == l.pc && w.mw.store.instr == l.instr)
  {
    hide ReadData, Loaded, Pushed, WriteWord, Release, Index, InBounds;
  }

  lemma WbLatches(cfg: Config, m: Machine)
    ensures var w := WriteBack(cfg, m);
      && SameFront(m, w) && w.em == m.em && w.mw == m.mw
      && w.halted == (m.halted || (Live(m.mw.load) && m.mw.load.instr.name == ECALL))
  {
    hide Release, WriteBackReg;
  }

  /** Without a hit, reading operands stalls nothing. */
  lemma QuietOperand(cfg: Config, m: Machine, n: RegNum, need: NeededIn)
    requires !LoadHit(m, n)
    ensures ReadOperand(cfg, m, n, need).Ok? && Untouched(m, ReadOperand(cfg, m, n, need).value.0)
  {
    hide Stall;
  }

  lemma QuietSources(cfg: Config, m: Machine, w: Word)
    requires !SourceHit(m, w)
    ensures ReadSources(cfg, m, w).Ok? && Untouched(m, ReadSources(cfg, m, w).value.0)
  {
    hide ReadOperand, Recognize, Rs1, Rs2, NeedOfRs2;
    var t := Recognize(w).typ;
    var a := m;
    if ReadsRs1(t) {
      QuietOperand(cfg, m, Rs1(w), NeedExecute);
      a := ReadOperand(cfg, m, Rs1(w), NeedExecute).value.0;
    }
    if ReadsRs2(t) { QuietOperand(cfg, a, Rs2(w), NeedOfRs2(w)); }
  }

  lemma HitNeedsLoad(w: Machine)
    ensures SourceHit(w, w.fd.load.word) ==> Live(w.de.load) && w.de.load.instr.acc == Read
  {
    hide Recognize, Rs1, Rs2;
  }

  /** As written, reading operands leaves DE alone, and a hit cancels what is in EM and holds fetch. */
  lemma OperandHits(cfg: Config, m: Machine, n: RegNum, need: NeededIn)
    requires !cfg.repaired && ReadOperand(cfg, m, n, need).Ok?
    ensures var a := ReadOperand(cfg, m, n, need).value.0;
      a.de == m.de && (LoadHit(m, n) ==> a.em.store.hazard && a.fd.stop == m.fd.stop + 1 && a.wf.stop == m.wf.stop + 1)
      && (LoadHit(a, n) <==> LoadHit(m, n)) && a.fd.stop >= m.fd.stop && a.wf.stop >= m.wf.stop
      && (m.em.store.hazard ==> a.em.store.hazard)
  {
  }

  lemma SourcesHit(cfg: Config, m: Machine, w: Word)
    requires !cfg.repaired && ReadSources(cfg, m, w).Ok?
    ensures var a := ReadSources(cfg, m, w).value.0;
      a.de == m.de && (SourceHit(m, w) ==> a.em.store.hazard && a.fd.stop > m.fd.stop && a.wf.stop > m.wf.stop)
  {
    hide Recognize, Rs1, Rs2, NeedOfRs2, ReadOperand;
    var t := Recognize(w).typ;
    var a := m;
    if ReadsRs1(t) {
      OperandHits(cfg, m, Rs1(w), NeedExecute);
      OperandKeeps(cfg, m, Rs1(w), NeedExecute);
      a := ReadOperand(cfg, m, Rs1(w), NeedExecute).value.0;
    }
    if ReadsRs2(t) { OperandHits(cfg, a, Rs2(w), NeedOfRs2(w)); }
  }

  /** ID as written: EM keeps its instruction, cancelled by a hit; a live word in FD is decoded. */
  lemma DecodeLatches(cfg: Config, w: Machine, junk: bool)
    requires !cfg.repaired && DecodeStage(cfg, w, junk).Ok?
    ensures var d := DecodeStage(cfg, w, junk).value; var decodes := LiveFD(w.fd.load) && w.de.stop == 0;
      && d.retired == w.retired && d.mw == w.mw && d.fd.load == w.fd.load && d.de.load == w.de.load && d.de.stop == w.de.stop
      && d.em.stop == w.em.stop && d.em.store == w.em.store.(hazard := d.em.store.hazard)
      && d.em.store.hazard == (w.em.store.hazard || (decodes && SourceHit(w, w.fd.load.word)))
      && (decodes && SourceHit(w, w.fd.load.word) ==> d.fd.stop > 0 && d.wf.stop > 0)
  {
    hide ReadSources, MakeInstr, Recognize, Rd, SourceHit;
    if LiveFD(w.fd.load) && w.de.stop == 0 {
      SourcesKeep(cfg, w, w.fd.load.word);
      SourcesHit(cfg, w, w.fd.load.word);
      if !SourceHit(w, w.fd.load.word) { QuietSources(cfg, w, w.fd.load.word); }
    }
  }

  /** The instruction ID leaves in DE. */
  lemma DecodedInstr(cfg: Config, w: Machine, junk: bool)
    requires !cfg.repaired && DecodeStage(cfg, w, junk).Ok? && LiveFD(w.fd.load) && w.de.stop == 0
    ensures var l := DecodeStage(cfg, w, junk).value.de.store; var id := Recognize(w.fd.load.word);
      && !l.isStall && l.hazard == w.de.store.hazard && l.instr.pc == w.fd.load.pc
      && l.instr.typ == id.typ && l.instr.acc == id.acc && l.instr.isBranch == id.isBranch && l.instr.name == id.name
  {
    hide ReadSources, Recognize, Rd;
    SourcesHit(cfg, w, w.fd.load.word);
  }

  /** IF and the update. */
  lemma FinishLatches(d: Machine)
    requires Finish(d).Ok? && d.em.stop == 0 && d.mw.stop == 0
    ensures var n := Finish(d).value;
      && n.retired == d.retired && n.em == Buffer(CLEAR, d.em.store, 0) && n.mw == Buffer(CLEAR, d.mw.store, 0)
      && n.de == Swap(d.de, CLEAR) && (d.fd.stop > 0 ==> n.fd.load == d.fd.load)
  {
    hide ReadWord, InBounds, Index, Following, Advance;
  }

  // ---- The pc a latch carries ----

  lemma DecodedPc(cfg: Config, w: Machine, junk: bool)
    requires DecodeStage(cfg, w, junk).Ok? && LiveFD(w.fd.load) && w.de.stop == 0
    ensures var d := DecodeStage(cfg, w, junk).value; d.de.store.pc == d.de.store.instr.pc == w.fd.load.pc
    ensures var i := DecodeStage(cfg, w, junk).value.de.store.instr; var id := Recognize(w.fd.load.word);
      i.typ == id.typ && i.acc == id.acc && i.isBranch == id.isBranch && i.name == id.name
      && (WritesRd(i.typ) ==> i.rd == w.rf.regs[Rd(w.fd.load.word)])
  {
    hide Recognize, Rd, ReadSources;
    SourcesKeep(cfg, w, w.fd.load.word);
  }

  /** Every live latch behind ID carries the pc of its instruction. */
  predicate PcsAgree(m: Machine) {
    && (Live(m.de.load) ==> m.de.load.pc == m.de.load.instr.pc) && (Live(m.em.load) ==> m.em.load.pc == m.em.load.instr.pc)
    && (Live(m.mw.load) ==> m.mw.load.pc == m.mw.load.instr.pc)
  }

  lemma WbKeepsPcs(cfg: Config, m: Machine)
    requires PcsAgree(m)
    ensures PcsAgree(WriteBack(cfg, m))
  {
    hide Release, WriteBackReg;
  }

  lemma StoreKeepsLatches(cfg: Config, m: Machine, i: Instr)
    requires StoreData(cfg, m, i).Ok?
    ensures var w := StoreData(cfg, m, i).value; w.de == m.de && w.em == m.em && w.mw == m.mw
  {
    hide Pushed, WriteWord, Index, InBounds;
  }

  lemma MemKeepsPcs(cfg: Config, m: Machine)
    requires PcsAgree(m) && MemoryAccess(cfg, m).Ok?
    ensures var w := MemoryAccess(cfg, m).value;
      w.de == m.de && (!w.mw.store.isStall ==> w.mw.store.pc == w.mw.store.instr.pc)
  {
    hide ReadData, StoreData, Loaded, Release;
    if Live(m.em.load) && IsStore(m.em.load.instr) { StoreKeepsLatches(cfg, m, m.em.load.instr); }
  }

  lemma ExKeepsPcs(cfg: Config, m: Machine)
    requires Live(m.de.load) ==> m.de.load.pc == m.de.load.instr.pc
    ensures var w := ExecuteStage(cfg, m);
      && (!w.em.store.isStall ==> w.em.store.pc == w.em.store.instr.pc) && w.mw == m.mw && w.em.load == m.em.load
      && (Live(w.de.load) ==> w.de.load.pc == w.de.load.instr.pc)
  {
    hide Execute, Redirects, Release;
  }

  lemma LaterKeepPcs(cfg: Config, w: Machine, junk: bool)
    requires AfterEx(w) && AfterDecode(cfg, w, junk).Ok?
    requires !w.em.store.isStall ==> w.em.store.pc == w.em.store.instr.pc
    requires !w.mw.store.isStall ==> w.mw.store.pc == w.mw.store.instr.pc
    ensures PcsAgree(AfterDecode(cfg, w, junk).value)
  {
    hide AfterDecode, DecodeStage, RegsNamed;
    LaterStages(cfg, w, junk);
    DeAfterFinish(cfg, w, junk);
    if LiveFD(w.fd.load) && w.de.stop == 0 { DecodedPc(cfg, w, junk); }
  }

  lemma CycleKeepsPcs(cfg: Config, m: Machine, junk: bool)
    requires LocksConserved(m) && PcsAgree(m) && Cycle(cfg, m, junk).Ok?
    ensures PcsAgree(Cycle(cfg, m, junk).value)
  {
    hide Cycle, WriteBack, MemoryAccess, ExecuteStage, AfterDecode, DecodeStage, LocksConserved, AfterEx;
    CycleIs(cfg, m, junk);
    var m1 := WriteBack(cfg, m);
    WbKeepsPcs(cfg, m);
    MemKeepsPcs(cfg, m1);
    var m2 := MemoryAccess(cfg, m1).value;
    ExKeepsPcs(cfg, m2);
    BeforeDecodeStep(cfg, m);
    CycleSplits(cfg, m, junk);
    LaterKeepPcs(cfg, ExecuteStage(cfg, m2), junk);
  }

  /** In every run of every program the latches behind ID carry their instruction's pc. */
  lemma {:induction false} RunKeepsPcs(cfg: Config, regs: RegVector, mem: Mem, entry: Word, junk: nat -> bool, t: nat)
    requires RegsNamed(regs) && Run(cfg, Reset(regs, mem, entry), junk, t).Ok?
    ensures PcsAgree(Run(cfg, Reset(regs, mem, entry), junk, t).value)
  {
    hide Cycle, LocksConserved;
    if t > 0 {
      RunKeepsPcs(cfg, regs, mem, entry, junk, t - 1);
      RunConservesLocks(cfg, regs, mem, entry, junk, t - 1);
      var p := Run(cfg, Reset(regs, mem, entry), junk, t - 1).value;
      if !p.halted { CycleKeepsPcs(cfg, p, junk(t - 1)); }
    }
  }
}
