/** The register scoreboard over every run, with no assumption on the program: lock conservation and
    the totality of the bypass (src/RegFile.cpp, src/HazardUnit.cpp). Both hold as written and repaired. */
module Scoreboard {
  import opened Isa
  import opened Decoding
  import opened Executors
  import opened Memories
  import opened StoreQueues
  import opened Machines

  /** 1 when the latch holds an instruction, cancelled or not, that still owes register `n` a release. */
  function Owes(l: Latch<Instr>, n: RegNum): int { if !l.isStall && WriterOf(l.instr, n) then 1 else 0 }

  predicate FileSound(rf: RegState) { RegsNamed(rf.regs) && rf.locks[0] == 0 }

  /** Stages MEM and WB never stop, and DE only behind a system instruction. */
  predicate StopsSound(m: Machine) {
    && m.em.stop == 0 && m.mw.stop == 0
    && (m.de.stop > 0 ==> !m.de.load.isStall && m.de.load.hazard && m.de.load.instr.typ == System)
  }

  /** Every lock on a register is owed by exactly one instruction in the DE, EM or MW load latch. */
  ghost predicate LocksConserved(m: Machine) {
    && FileSound(m.rf) && StopsSound(m)
    && forall n: RegNum | n != 0 ::
         m.rf.locks[n] + Owes(m.de.load, n) + Owes(m.em.load, n) + Owes(m.mw.load, n) == 0
  }

  // ---- Stage by stage ----

  ghost predicate AfterWb(m: Machine) {
    && FileSound(m.rf) && StopsSound(m)
    && forall n: RegNum | n != 0 :: m.rf.locks[n] + Owes(m.de.load, n) + Owes(m.em.load, n) == 0
  }

  ghost predicate AfterMem(m: Machine) {
    && FileSound(m.rf) && StopsSound(m)
    && (!m.mw.store.isStall ==> Live(m.em.load) && m.em.load.instr == m.mw.store.instr)
    && forall n: RegNum | n != 0 :: m.rf.locks[n] + Owes(m.de.load, n) + Owes(m.mw.store, n) == 0
  }

  ghost predicate AfterEx(m: Machine) {
    && FileSound(m.rf) && StopsSound(m)
    && (!m.mw.store.isStall ==> Live(m.em.load) && m.em.load.instr == m.mw.store.instr)
    && (!m.em.store.isStall ==>
          m.em.store.instr == m.de.load.instr && (Live(m.de.load) || m.de.load.instr.typ == System))
    && forall n: RegNum | n != 0 :: m.rf.locks[n] + Owes(m.em.store, n) + Owes(m.mw.store, n) == 0
  }

  ghost predicate AfterId(m: Machine) {
    && FileSound(m.rf) && StopsSound(m)
    && forall n: RegNum | n != 0 ::
         m.rf.locks[n] + Owes(m.em.store, n) + Owes(m.mw.store, n)
         + (if m.de.stop > 0 then 0 else Owes(m.de.store, n)) == 0
  }

  lemma WbStep(cfg: Config, m: Machine)
    requires LocksConserved(m)
    ensures AfterWb(WriteBack(cfg, m))
  {
    forall n: RegNum | n != 0
      ensures var w := WriteBack(cfg, m); w.rf.locks[n] + Owes(w.de.load, n) + Owes(w.em.load, n) == 0
    {
      assert m.rf.locks[n] + Owes(m.de.load, n) + Owes(m.em.load, n) + Owes(m.mw.load, n) == 0;
    }
  }

  lemma ReadCannotLock(cfg: Config, m: Machine)
    requires Live(m.em.load) && MemoryAccess(cfg, m).Ok?
    ensures var w := MemoryAccess(cfg, m).value; var i := w.mw.store.instr;
      && w.rf == m.rf && w.de == m.de && w.em.stop == m.em.stop && w.mw.stop == m.mw.stop
      && !w.mw.store.isStall && w.em.load == m.em.load.(instr := i)
      && i == m.em.load.instr.(rd := i.rd) && i.rd.name == m.em.load.instr.rd.name
  {
    hide Loaded, ReadData, Pushed, WriteWord, Index, InBounds;
  }

  lemma MemStep(cfg: Config, m: Machine)
    requires AfterWb(m) && MemoryAccess(cfg, m).Ok?
    ensures AfterMem(MemoryAccess(cfg, m).value)
  {
    hide Release, StoreData, ReadData, Loaded, RegsNamed;
    ReleaseStep(cfg, m.rf, m.em.load.instr);
    if Live(m.em.load) { ReadCannotLock(cfg, m); }
    hide PassToMw;
    var w := MemoryAccess(cfg, m).value;
    forall n: RegNum | n != 0 ensures w.rf.locks[n] + Owes(w.de.load, n) + Owes(w.mw.store, n) == 0 {
      assert m.rf.locks[n] + Owes(m.de.load, n) + Owes(m.em.load, n) == 0;
    }
  }

  lemma ReleaseStep(cfg: Config, rf: RegState, i: Instr)
    requires FileSound(rf)
    ensures FileSound(Release(cfg, rf, i))
    ensures forall n: RegNum | n != 0 ::
      Release(cfg, rf, i).locks[n] == rf.locks[n] + if WriterOf(i, n) then 1 else 0
  {
  }

  /** The front end after EX: an executed redirection marks the store latches, an executed system
      instruction holds IF, ID and EX. */
  predicate FrontAfterEx(m: Machine, w: Machine) {
    var live, i := Live(m.de.load), Execute(m.de.load.instr);
    var jumps, exits := live && Redirects(i), live && i.typ == System;
    && w.wf.load == m.wf.load && w.fd.load == m.fd.load
    && w.wf.store == (if jumps then m.wf.store.(isJump := true, pcJump := i.branchAddr) else m.wf.store)
    && w.fd.store == (if jumps then m.fd.store.(hazard := true) else m.fd.store)
    && w.de.store == (if jumps then m.de.store.(hazard := true) else m.de.store)
    && w.branches == m.branches + (if jumps then 1 else 0)
    && w.wf.stop == m.wf.stop + (if exits then 5 else 0)
    && w.fd.stop == m.fd.stop + (if exits then 5 else 0)
    && w.de.stop == m.de.stop + (if exits then 5 else 0)
  }

  predicate SameOutside(m: Machine, w: Machine) {
    && w.mem == m.mem && w.sq == m.sq && w.retired == m.retired && w.ic == m.ic && w.clocks == m.clocks
    && w.halted == m.halted && w.stops == m.stops
  }

  lemma ExecuteKeepsFront(cfg: Config, m: Machine)
    ensures FrontAfterEx(m, ExecuteStage(cfg, m)) && SameOutside(m, ExecuteStage(cfg, m))
  {
    hide Execute, Redirects, Release;
  }

  /** What the EX stage leaves: a live instruction moves on and no lock moves; a cancelled one is released. */
  lemma ExecuteKeeps(cfg: Config, m: Machine)
    ensures var w := ExecuteStage(cfg, m);
      && FrontAfterEx(m, w) && SameOutside(m, w)
      && w.em.load == m.em.load && w.mw == m.mw && w.em.stop == m.em.stop
      && w.em.store.hazard == m.em.store.hazard
      && (if Live(m.de.load) then
            && w.rf == m.rf && !w.em.store.isStall && w.em.store.instr == Execute(m.de.load.instr)
            && w.de.load == m.de.load.(instr := Execute(m.de.load.instr), hazard := m.de.load.instr.typ == System)
          else
            && w.rf == (if m.de.load.isStall then m.rf else Release(cfg, m.rf, m.de.load.instr))
            && w.em.store.isStall && w.de.load == m.de.load)
  {
    hide Execute, Redirects, Release, FrontAfterEx, SameOutside;
    ExecuteKeepsFront(cfg, m);
  }

  lemma ExStep(cfg: Config, m: Machine)
    requires AfterMem(m)
    ensures AfterEx(ExecuteStage(cfg, m))
  {
    hide Execute, Release, ExecuteStage, RegsNamed;
    ExecuteKeeps(cfg, m);
    ReleaseStep(cfg, m.rf, m.de.load.instr);
    var w := ExecuteStage(cfg, m);
    forall n: RegNum | n != 0 ensures w.rf.locks[n] + Owes(w.em.store, n) + Owes(w.mw.store, n) == 0 {
      assert m.rf.locks[n] + Owes(m.de.load, n) + Owes(m.mw.store, n) == 0;
    }
  }

  /** A locked register has a live writer in the DE or the EM load latch: the fall-through of
      `HazardUnit::decode`, which returns an uninitialised register, is never reached. */
  lemma LockedHasLiveWriter(m: Machine, n: RegNum)
    requires AfterEx(m) && m.rf.locks[n] != 0
    ensures HitsEx(m, n) || HitsMem(m, n)
  {
    assert m.rf.locks[n] + Owes(m.em.store, n) + Owes(m.mw.store, n) == 0;
  }

  /** `a` is `m` but for cancel flags in the store latches, fetch stops and counters. */
  predicate SameButStalled(m: Machine, a: Machine) {
    && a.rf == m.rf && a.de.load == m.de.load && a.em.load == m.em.load && a.mw == m.mw && a.fd.load == m.fd.load
    && a.de.stop == m.de.stop && a.em.stop == m.em.stop && a.mem == m.mem && a.sq == m.sq
    && a.fd.store == m.fd.store && a.wf.load == m.wf.load && a.wf.store == m.wf.store
    && a.retired == m.retired && a.ic == m.ic && a.clocks == m.clocks && a.halted == m.halted && a.branches == m.branches
    && a.de.store == m.de.store.(hazard := a.de.store.hazard)
    && a.em.store == m.em.store.(hazard := a.em.store.hazard)
  }

  lemma OperandKeeps(cfg: Config, m: Machine, n: RegNum, need: NeededIn)
    requires ReadOperand(cfg, m, n, need).Ok?
    ensures SameButStalled(m, ReadOperand(cfg, m, n, need).value.0)
  {
    hide HitsEx, HitsMem, Stall, SameButStalled;
    StallKeeps(cfg, m);
    CountersKeep(m, m.bypassesMemEx + 1, m.bypassesWbEx);
    CountersKeep(m, m.bypassesMemEx, m.bypassesWbEx + 1);
    CountersKeep(m, m.bypassesMemEx, m.bypassesWbEx);
  }

  lemma CountersKeep(m: Machine, a: nat, b: nat)
    ensures SameButStalled(m, m.(bypassesMemEx := a, bypassesWbEx := b))
  {
  }

  lemma StallKeeps(cfg: Config, m: Machine)
    ensures SameButStalled(m, Stall(cfg, m))
  {
  }

  /** Reading operands moves no lock and no instruction. */
  lemma SourcesKeep(cfg: Config, m: Machine, w: Word)
    requires ReadSources(cfg, m, w).Ok?
    ensures SameButStalled(m, ReadSources(cfg, m, w).value.0)
  {
    hide Recognize, Rs1, Rs2, NeedOfRs2, ReadOperand;
    var t := Recognize(w).typ;
    var a := m;
    if ReadsRs1(t) {
      OperandKeeps(cfg, m, Rs1(w), NeedExecute);
      a := ReadOperand(cfg, m, Rs1(w), NeedExecute).value.0;
    }
    if ReadsRs2(t) { OperandKeeps(cfg, a, Rs2(w), NeedOfRs2(w)); }
  }

  lemma IdStep(cfg: Config, m: Machine, junk: bool)
    requires AfterEx(m) && DecodeStage(cfg, m, junk).Ok?
    ensures AfterId(DecodeStage(cfg, m, junk).value)
  {
    hide ReadSources, MakeInstr, Recognize, Rd;
    var w := DecodeStage(cfg, m, junk).value;
    if LiveFD(m.fd.load) && m.de.stop == 0 {
      SourcesKeep(cfg, m, m.fd.load.word);
    }
    forall n: RegNum | n != 0
      ensures w.rf.locks[n] + Owes(w.em.store, n) + Owes(w.mw.store, n)
              + (if w.de.stop > 0 then 0 else Owes(w.de.store, n)) == 0
    {
      assert m.rf.locks[n] + Owes(m.em.store, n) + Owes(m.mw.store, n) == 0;
    }
  }

  lemma EndStep(m: Machine)
    requires AfterId(m) && Fetch(m).Ok? && Update(Fetch(m).value).Ok?
    ensures LocksConserved(Update(Fetch(m).value).value)
  {
    hide ReadWord, Apply;
    var w := Update(Fetch(m).value).value;
    forall n: RegNum | n != 0
      ensures w.rf.locks[n] + Owes(w.de.load, n) + Owes(w.em.load, n) + Owes(w.mw.load, n) == 0
    {
      assert m.rf.locks[n] + Owes(m.em.store, n) + Owes(m.mw.store, n)
             + (if m.de.stop > 0 then 0 else Owes(m.de.store, n)) == 0;
    }
  }

  /** The machine as decode sees it, once WB, MEM and EX of the cycle are done. */
  function BeforeDecode(cfg: Config, m: Machine): Outcome<Machine> {
    var m2 :- MemoryAccess(cfg, WriteBack(cfg, m));
    Ok(ExecuteStage(cfg, m2))
  }

  lemma BeforeDecodeStep(cfg: Config, m: Machine)
    requires LocksConserved(m) && BeforeDecode(cfg, m).Ok?
    ensures AfterEx(BeforeDecode(cfg, m).value)
  {
    hide WriteBack, MemoryAccess, ExecuteStage, AfterEx, LocksConserved, AfterWb, AfterMem;
    WbStep(cfg, m);
    MemStep(cfg, WriteBack(cfg, m));
    ExStep(cfg, MemoryAccess(cfg, WriteBack(cfg, m)).value);
  }

  lemma LiveMovesOn(cfg: Config, m: Machine)
    requires BeforeDecode(cfg, m).Ok?
    ensures var w := BeforeDecode(cfg, m).value;
      (Live(w.de.load) ==> !w.em.store.isStall) && (Live(w.em.load) ==> !w.mw.store.isStall)
  {
    hide WriteBack, ExecuteStage, Release, ReadData, Loaded, Pushed, WriteWord, Index, InBounds, FrontAfterEx;
    ExecuteKeeps(cfg, MemoryAccess(cfg, WriteBack(cfg, m)).value);
  }

  /** The counters: every operand read in ID counts one bypass, by where its newest writer is on its way. From EX to
      EX; through WB when that writer is a load, which also stops, or is in MEM already; none when nothing on its way
      writes the register. */
  lemma BypassesCounted(cfg: Config, m: Machine, n: RegNum, need: NeededIn)
    requires LocksConserved(m) && BeforeDecode(cfg, m).Ok? && n != 0
    requires var w := BeforeDecode(cfg, m).value; ReadOperand(cfg, w, n, need).Ok? && (cfg.repaired ==> !w.de.store.hazard)
    ensures var w := BeforeDecode(cfg, m).value; var a := ReadOperand(cfg, w, n, need).value.0;
      var inEx, inMem, load := Owes(w.em.store, n) == 1, Owes(w.mw.store, n) == 1, w.em.store.instr.acc == Read;
      && a.bypassesMemEx == w.bypassesMemEx + (if inEx && !load then 1 else 0)
      && a.bypassesWbEx == w.bypassesWbEx + (if (inEx && load) || (!inEx && inMem) then 1 else 0)
      && a.stops == w.stops + (if inEx && load then 1 else 0)
  {
    hide BeforeDecode, LocksConserved;
    BeforeDecodeStep(cfg, m);
    LiveMovesOn(cfg, m);
    var w := BeforeDecode(cfg, m).value;
    assert w.rf.locks[n] + Owes(w.em.store, n) + Owes(w.mw.store, n) == 0;
  }

  /** One cycle, squashes, load-use stalls and the ECALL drain included, conserves every lock. */
  lemma CycleConservesLocks(cfg: Config, m: Machine, junk: bool)
    requires LocksConserved(m) && Cycle(cfg, m, junk).Ok?
    ensures LocksConserved(Cycle(cfg, m, junk).value)
  {
    hide WriteBack, MemoryAccess, ExecuteStage, DecodeStage, Fetch, Update, AfterEx, LocksConserved;
    BeforeDecodeStep(cfg, m);
    var m3 := BeforeDecode(cfg, m).value;
    IdStep(cfg, m3, junk);
    EndStep(DecodeStage(cfg, m3, junk).value);
  }

  /** Lock conservation in every reachable state, for every program. */
  lemma {:induction false} RunConservesLocks(
    cfg: Config, regs: RegVector, mem: Mem, entry: Word, junk: nat -> bool, t: nat)
    requires RegsNamed(regs) && Run(cfg, Reset(regs, mem, entry), junk, t).Ok?
    ensures LocksConserved(Run(cfg, Reset(regs, mem, entry), junk, t).value)
  {
    hide Cycle;
    if t > 0 {
      RunConservesLocks(cfg, regs, mem, entry, junk, t - 1);
      var p := Run(cfg, Reset(regs, mem, entry), junk, t - 1).value;
      if !p.halted { CycleConservesLocks(cfg, p, junk(t - 1)); }
    }
  }

  /** In every run, whenever decode finds a source locked, a live writer is there to bypass from. */
  lemma BypassIsTotal(cfg: Config, regs: RegVector, mem: Mem, entry: Word, junk: nat -> bool, t: nat, n: RegNum)
    requires RegsNamed(regs) && Run(cfg, Reset(regs, mem, entry), junk, t).Ok?
    requires var m := Run(cfg, Reset(regs, mem, entry), junk, t).value;
      BeforeDecode(cfg, m).Ok? && BeforeDecode(cfg, m).value.rf.locks[n] != 0
    ensures var m := BeforeDecode(cfg, Run(cfg, Reset(regs, mem, entry), junk, t).value).value;
      HitsEx(m, n) || HitsMem(m, n)
  {
    hide Run, BeforeDecode, AfterEx, LocksConserved;
    RunConservesLocks(cfg, regs, mem, entry, junk, t);
    BeforeDecodeStep(cfg, Run(cfg, Reset(regs, mem, entry), junk, t).value);
    LockedHasLiveWriter(BeforeDecode(cfg, Run(cfg, Reset(regs, mem, entry), junk, t).value).value, n);
  }
}
