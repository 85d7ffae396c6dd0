/** The load-use interlock over runs (src/HazardUnit.cpp:24-31): as written, a program in which an
    instruction reads the rd of the load just ahead never retires that load. */
module Derail {
  import opened Isa
  import opened Decoding
  import opened Executors
  import opened Memories
  import opened StoreQueues
  import opened Machines
  import opened Scoreboard
  import opened Sequential
  import opened Refinement
  import opened Latches
  import opened Departures

  // ---- The four phases after the hit ----

  predicate Moving(m: Machine) {
    && m.em.stop == 0 && m.mw.stop == 0 && !m.em.store.hazard && !m.mw.store.hazard && !m.mw.load.hazard
  }

  /** The load at position `y` is cancelled in EM; a copy of word `w` from `q` is in DE, the next one in FD. */
  predicate CopyInDe(m: Machine, y: nat, q: Word, w: Word) {
    && Moving(m) && PosEm(m) == y && !Live(m.em.load)
    && Live(m.de.load) && m.de.load.instr.pc == q && m.de.load.instr.typ != System && m.de.stop == 0 && !m.de.store.hazard
    && LiveFD(m.fd.load) && m.fd.load.pc == q && m.fd.load.word == w && Recognize(w).typ != System
    && (m.de.load.instr.acc == Read ==> !m.de.load.instr.isBranch)
  }

  predicate CopyInEm(m: Machine, y: nat, q: Word) {
    && Moving(m) && PosEm(m) == y && Live(m.em.load) && m.em.load.instr.pc == q
  }

  predicate CopyInMw(m: Machine, y: nat, q: Word) {
    |m.retired| == y && Live(m.mw.load) && m.mw.load.instr.pc == q
  }

  predicate CopyRetired(m: Machine, y: nat, q: Word) { |m.retired| > y && m.retired[y].pc == q }

  predicate Derailed(m: Machine, y: nat, q: Word, w: Word) {
    CopyInDe(m, y, q, w) || CopyInEm(m, y, q) || CopyInMw(m, y, q) || CopyRetired(m, y, q)
  }

  /** WB, MEM and EX as far as the phases need them. */
  lemma BackLatches(cfg: Config, m: Machine)
    requires MemoryAccess(cfg, WriteBack(cfg, m)).Ok?
    ensures var w := ExecuteStage(cfg, MemoryAccess(cfg, WriteBack(cfg, m)).value);
      && w.retired == (if Live(m.mw.load) then m.retired + [m.mw.load.instr] else m.retired)
      && FrontAfterEx(m, w) && w.em.stop == m.em.stop && w.mw.stop == m.mw.stop
      && w.mw.store.hazard == m.mw.store.hazard && w.mw.store.isStall == !Live(m.em.load)
      && (Live(m.em.load) ==> w.mw.store.instr.pc == m.em.load.instr.pc)
      && w.em.store.hazard == m.em.store.hazard && w.em.store.isStall == !Live(m.de.load)
      && (Live(m.de.load) ==> w.em.store.instr == Execute(m.de.load.instr))
      && (Live(m.de.load) ==> w.de.load == m.de.load.(instr := Execute(m.de.load.instr), hazard := m.de.load.instr.typ == System))
  {
    hide WriteBack, MemoryAccess, ExecuteStage, Execute, Redirects, Release;
    var m1 := WriteBack(cfg, m);
    WbLatches(cfg, m);
    MemFrame(cfg, m1);
    MemLatches(cfg, m1);
    ExecuteKeeps(cfg, MemoryAccess(cfg, m1).value);
    WbTrace(cfg, m);
    TraceOfMem(cfg, m1);
  }

  lemma TraceOfMem(cfg: Config, m: Machine)
    requires MemoryAccess(cfg, m).Ok?
    ensures var w := MemoryAccess(cfg, m).value;
      w.retired == m.retired && (Live(m.em.load) ==> w.mw.store.instr.pc == m.em.load.instr.pc)
  {
    hide ReadData, Loaded, Pushed, WriteWord, Release, Index, InBounds;
  }

  /** A copy that is not hit goes on to EM; one that is, is cancelled by the next copy. */
  lemma CopyMoves(cfg: Config, m: Machine, y: nat, q: Word, w: Word, junk: bool)
    requires !cfg.repaired && CopyInDe(m, y, q, w) && Cycle(cfg, m, junk).Ok?
    ensures var n := Cycle(cfg, m, junk).value; CopyInDe(n, y, q, w) || CopyInEm(n, y, q)
  {
    hide Cycle, WriteBack, MemoryAccess, ExecuteStage, DecodeStage, Finish, Recognize, SourceHit, Execute;
    CycleIs(cfg, m, junk);
    BackLatches(cfg, m);
    var b := ExecuteStage(cfg, MemoryAccess(cfg, WriteBack(cfg, m)).value);
    DecodeLatches(cfg, b, junk);
    DecodedInstr(cfg, b, junk);
    HitNeedsLoad(b);
    RecognizeFits(w);
    FinishLatches(DecodeStage(cfg, b, junk).value);
  }

  lemma MovesOn(cfg: Config, m: Machine, y: nat, q: Word, junk: bool)
    requires !cfg.repaired && Cycle(cfg, m, junk).Ok? && m.em.stop == 0 && m.mw.stop == 0
    ensures var n := Cycle(cfg, m, junk).value;
      && (CopyInEm(m, y, q) ==> CopyInMw(n, y, q)) && (CopyInMw(m, y, q) ==> CopyRetired(n, y, q))
      && (CopyRetired(m, y, q) ==> CopyRetired(n, y, q))
  {
    hide Cycle, WriteBack, MemoryAccess, ExecuteStage, DecodeStage, Finish, Execute, FrontAfterEx, SourceHit;
    CycleIs(cfg, m, junk);
    BackLatches(cfg, m);
    var b := ExecuteStage(cfg, MemoryAccess(cfg, WriteBack(cfg, m)).value);
    DecodeLatches(cfg, b, junk);
    FinishLatches(DecodeStage(cfg, b, junk).value);
  }

  // ---- The run ----

  /** Position `y` is a load and the next word, not rewritten, reads its rd. */
  ghost predicate LoadUsePair(cfg: Config, s0: SeqState, y: nat) {
    !St(s0, y + 1).halted && LoadUse(cfg, Done(St(s0, y)), CodeAt(St(s0, y + 1))) && CodeStable(s0, y + 1)
  }

  /** With the pair in DE and FD, decode hits. */
  lemma PairHits(cfg: Config, m: Machine, w: Machine, s0: SeqState, y: nat)
    requires !cfg.repaired && InStep(m, s0) && Running(cfg, m, s0) && AtDecode(m, w, s0)
    requires PosDe(m) == y && Live(m.de.load) && LoadUsePair(cfg, s0, y) && SoundAt(s0, y)
    ensures w.fd.load == m.fd.load && LiveFD(w.fd.load) && w.de.stop == 0 && !Redirects(w.em.store.instr)
    ensures m.fd.load.pc == Following(St(s0, y).pc) && m.fd.load.word == CodeAt(St(s0, y + 1))
    ensures SourceHit(w, m.fd.load.word) && Recognize(m.fd.load.word).typ != System
  {
    hide Done, St, InStep, CodeAt, Recognize, Execute, Redirects, Following, Fetchable, CodeStable, FetchReady, Index,
         InBounds, Rs1, Rs2, FetchedBefore, NeedOfRs2, LoadHit, Ready, SoundAt;
    SoundBounds(s0, y);
    BusyIsStraight(cfg, m, s0);
    ExecutedFacts(m, w, s0);
    OnPathPc(cfg, m, w, s0);
    DePc(m, s0);
    StraightWord(cfg, m, s0);
    LoadIsHit(m, w, s0);
  }

  /** The cycle of the hit. */
  lemma PairDerails(cfg: Config, m: Machine, s0: SeqState, y: nat, junk: bool)
    requires !cfg.repaired && Refines(cfg, m, s0) && Running(cfg, m, s0) && SoundUpTo(s0, y + 1)
    requires PosDe(m) == y && Live(m.de.load) && LoadUsePair(cfg, s0, y) && Cycle(cfg, m, junk).Ok?
    ensures CopyInDe(Cycle(cfg, m, junk).value, y, Following(St(s0, y).pc), CodeAt(St(s0, y + 1)))
  {
    hide Cycle, WriteBack, MemoryAccess, ExecuteStage, DecodeStage, Finish, Recognize, SourceHit, Execute, St, Done, Running,
         LocksConserved, AtDecode, SoundAt, LoadUsePair, CodeAt, Following, TraceRight, RegsAgree, Complete, Issue, Redirects;
    RunningIsAwake(cfg, m, s0);
    BoundaryBack(cfg, m, s0);
    BeforeDecodeRefines(cfg, m, s0);
    CycleIs(cfg, m, junk);
    BackLatches(cfg, m);
    var b := ExecuteStage(cfg, MemoryAccess(cfg, WriteBack(cfg, m)).value);
    PairHits(cfg, m, b, s0, y);
    DecodeLatches(cfg, b, junk);
    DecodedInstr(cfg, b, junk);
    RecognizeFits(m.fd.load.word);
    StopsOfLocks(m);
    FinishLatches(DecodeStage(cfg, b, junk).value);
  }

  /** As written, a run of a program with such a pair, harmless up to there, is ahead of the pair or derailed. */
  lemma {:induction false} PairRun(cfg: Config, s0: SeqState, y: nat, junk: nat -> bool, t: nat)
    requires !cfg.repaired && RegsNamed(s0.regs) && !s0.halted && Guarded(cfg, s0, y + 1) && LoadUsePair(cfg, s0, y)
    requires Run(cfg, Initial(s0), junk, t).Ok?
    ensures var m := Run(cfg, Initial(s0), junk, t).value;
      Before(cfg, m, s0, y) || (LocksConserved(m) && Derailed(m, y, Following(St(s0, y).pc), CodeAt(St(s0, y + 1))))
  {
    hide Cycle, Refines, St, Done, GoodAt, Running, LoadUsePair, Initial, CopyInDe, CopyInEm, CopyInMw, CopyRetired, CodeAt,
         Following, LocksConserved;
    if t == 0 {
      ResetRefines(cfg, s0);
      InitialPosition(s0);
    } else {
      PairRun(cfg, s0, y, junk, t - 1);
      var p := Run(cfg, Initial(s0), junk, t - 1).value;
      if !p.halted {
        if Before(cfg, p, s0, y) {
          BeforeStep(cfg, p, s0, y, junk(t - 1));
        } else {
          DerailedStep(cfg, p, y, Following(St(s0, y).pc), CodeAt(St(s0, y + 1)), junk(t - 1));
        }
      }
    }
  }

  lemma BeforeStep(cfg: Config, m: Machine, s0: SeqState, y: nat, junk: bool)
    requires !cfg.repaired && Before(cfg, m, s0, y) && !m.halted && Guarded(cfg, s0, y + 1) && LoadUsePair(cfg, s0, y)
    requires Cycle(cfg, m, junk).Ok?
    ensures var n := Cycle(cfg, m, junk).value;
      Before(cfg, n, s0, y) || (LocksConserved(n) && Derailed(n, y, Following(St(s0, y).pc), CodeAt(St(s0, y + 1))))
  {
    hide Cycle, Refines, St, Done, GoodAt, Running, CopyInDe, CopyInEm, CopyInMw, CopyRetired, CodeAt, Following,
         LocksConserved, LoadUse, CodeStable;
    RunningBefore(s0, y, y + 1);
    BeforeIsRunning(cfg, m, s0, y);
    if PosFd(m) == y + 1 {
      GuardedIsSound(cfg, s0, y + 1);
      PairDerails(cfg, m, s0, y, junk);
      LocksOfRefines(cfg, m, s0);
      CycleConservesLocks(cfg, m, junk);
    } else {
      GuardedIsClear(cfg, s0, m, y + 1);
      CycleRefines(cfg, m, s0, junk);
      CycleAdvances(cfg, m, s0, junk);
    }
  }

  lemma LocksOfRefines(cfg: Config, m: Machine, s0: SeqState)
    requires Refines(cfg, m, s0)
    ensures LocksConserved(m)
  {
    hide InStep, Running, LocksConserved;
  }

  lemma DerailedStep(cfg: Config, m: Machine, y: nat, q: Word, w: Word, junk: bool)
    requires !cfg.repaired && LocksConserved(m) && Derailed(m, y, q, w) && Cycle(cfg, m, junk).Ok?
    ensures LocksConserved(Cycle(cfg, m, junk).value) && Derailed(Cycle(cfg, m, junk).value, y, q, w)
  {
    hide Cycle, CopyInDe, CopyInEm, CopyInMw, CopyRetired, LocksConserved;
    CycleConservesLocks(cfg, m, junk);
    StopsOfLocks(m);
    if CopyInDe(m, y, q, w) { CopyMoves(cfg, m, y, q, w, junk); } else { MovesOn(cfg, m, y, q, junk); }
  }

  /** The load never retires: whatever the run retires at its position is something else. */
  lemma LoadNeverRetires(cfg: Config, s0: SeqState, y: nat, junk: nat -> bool, t: nat)
    requires !cfg.repaired && RegsNamed(s0.regs) && !s0.halted && Guarded(cfg, s0, y + 1) && LoadUsePair(cfg, s0, y)
    requires Run(cfg, Initial(s0), junk, t).Ok?
    ensures var m := Run(cfg, Initial(s0), junk, t).value; |m.retired| <= y || m.retired[y] != Done(St(s0, y))
  {
    hide Run, Refines, St, Done, GoodAt, LoadUsePair, Initial, LocksConserved, Following;
    PairRun(cfg, s0, y, junk, t);
    PcOfDone(s0, y);
    FollowingDiffers(St(s0, y).pc);
  }

  lemma PcOfDone(s0: SeqState, y: nat)
    ensures Done(St(s0, y)).pc == St(s0, y).pc
  {
    hide St, WordAt, Recognize, Rs1, Rs2, Rd, CodeAt, Immediate, Execute, Loaded, ReadWord, Index;
  }

  lemma FollowingDiffers(pc: Word)
    ensures Following(pc) != pc
  {
  }
}
