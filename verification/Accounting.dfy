/** Cycle accounting (src/PerfSim.cpp:28-42): where every clock of a terminating run goes. */
module Accounting {
  import opened Isa
  import opened Decoding
  import opened Executors
  import opened Memories
  import opened StoreQueues
  import opened Machines
  import opened Scoreboard
  import opened Sequential
  import opened Refinement
  import opened Latches

  /** EX bubbles still to come from the latches: two after a squash, one when only fetch has resumed. */
  function Lag(m: Machine): nat { if Live(m.de.load) then 0 else if LiveFD(m.fd.load) then 1 else 2 }

  /** Instructions that have passed EX and still count: retired, in MW or in EM. */
  function Passed(m: Machine): nat { m.ic + One(Live(m.mw.load)) + One(Live(m.em.load)) }

  predicate CleanStores(m: Machine) {
    NoCancelInStores(m) && !m.mw.load.hazard && m.em.stop == 0 && m.mw.stop == 0
  }

  predicate BranchesTouchNoMemory(i: Instr) { i.isBranch ==> i.acc == NoAccess }

  predicate CountedRunning(m: Machine) {
    && !m.halted && NoStops(m) && FetchReady(m)
    && (Live(m.de.load) ==> LiveFD(m.fd.load) && BranchesTouchNoMemory(m.de.load.instr))
    && (Live(m.mw.load) ==> m.mw.load.instr.name != ECALL) && (Live(m.em.load) ==> m.em.load.instr.name != ECALL)
    && m.clocks + Lag(m) == Passed(m) + m.stops + 2 + 2 * m.branches
  }

  predicate CountedEm(m: Machine) {
    && !m.halted && FrontHeld(m, 4) && Live(m.em.load) && m.em.load.instr.name == ECALL
    && (Live(m.mw.load) ==> m.mw.load.instr.name != ECALL)
    && m.clocks == Passed(m) + m.stops + 2 + 2 * m.branches
  }

  predicate CountedMw(m: Machine) {
    && !m.halted && FrontHeld(m, 3) && m.em.load.isStall && Live(m.mw.load) && m.mw.load.instr.name == ECALL
    && m.clocks == Passed(m) + m.stops + 3 + 2 * m.branches
  }

  /** Every clock of the run so far is an instruction, a stop, a squash bubble or start-up. */
  predicate Counted(m: Machine) {
    CleanStores(m) && (
      || CountedRunning(m) || CountedEm(m) || CountedMw(m)
      || (m.halted && m.clocks == m.ic + 4 + 2 * m.branches + m.stops))
  }

  /** Both operands of the word in FD hit the load in EX. */
  predicate DoubleHit(w: Machine) {
    var word := w.fd.load.word;
    && LiveFD(w.fd.load) && ReadsRs1(Recognize(word).typ) && LoadHit(w, Rs1(word))
    && ReadsRs2(Recognize(word).typ) && LoadHit(w, Rs2(word))
  }

  /** What the accounting excludes: ECALL retiring with the run unfinished behind it cannot happen; a
      system word other than ECALL reaching EX, and, as written, a double hit. */
  predicate Irregular(cfg: Config, w: Machine) {
    || (!cfg.repaired && DoubleHit(w))
    || (!w.em.store.isStall && (w.em.store.instr.typ == System) != (w.em.store.instr.name == ECALL))
  }

  // ---- WB, MEM and EX ----

  /** `w` is what decode finds in the cycle from `m`, as far as counting goes. */
  predicate CountedAtDecode(m: Machine, w: Machine) {
    && FrontAfterEx(m, w) && w.clocks == m.clocks && w.stops == m.stops
    && w.ic == m.ic + One(Live(m.mw.load))
    && w.halted == (m.halted || (Live(m.mw.load) && m.mw.load.instr.name == ECALL))
    && (w.mw.store.isStall <==> !Live(m.em.load)) && w.mw.store.instr.name == (if Live(m.em.load) then m.em.load.instr.name else w.mw.store.instr.name)
    && (w.em.store.isStall <==> !Live(m.de.load))
    && (Live(m.de.load) ==> w.em.store.instr == Execute(m.de.load.instr))
    && !w.em.store.hazard && !w.mw.store.hazard && w.em.stop == 0 && w.mw.stop == 0
    && w.de.load == (if Live(m.de.load) then m.de.load.(instr := Execute(m.de.load.instr), hazard := m.de.load.instr.typ == System)
                     else m.de.load)
  }

  lemma WbCounts(cfg: Config, m: Machine)
    requires CleanStores(m)
    ensures var w := WriteBack(cfg, m);
      && w.ic == m.ic + One(Live(m.mw.load)) && |w.retired| == |m.retired| + One(Live(m.mw.load))
      && SameFront(m, w) && w.em == m.em && w.mw == m.mw
      && w.halted == (m.halted || (Live(m.mw.load) && m.mw.load.instr.name == ECALL))
  {
    hide Release, WriteBackReg;
  }

  lemma MemCounts(cfg: Config, m: Machine)
    requires MemoryAccess(cfg, m).Ok?
    ensures var w := MemoryAccess(cfg, m).value;
      && w.ic == m.ic && w.retired == m.retired && SameFront(m, w) && w.halted == m.halted && w.em.store == m.em.store && w.em.stop == m.em.stop
      && w.mw.stop == m.mw.stop && w.mw.store.hazard == m.mw.store.hazard
      && (w.mw.store.isStall <==> !Live(m.em.load))
      && (Live(m.em.load) ==> w.mw.store.instr.name == m.em.load.instr.name)
  {
    hide Loaded, ReadData, Pushed, WriteWord, Index, InBounds, Release;
  }

  lemma BeforeDecodeCounts(cfg: Config, m: Machine)
    requires CleanStores(m) && BeforeDecode(cfg, m).Ok?
    ensures CountedAtDecode(m, BeforeDecode(cfg, m).value)
  {
    hide WriteBack, MemoryAccess, ExecuteStage, Execute, Redirects, Release;
    WbCounts(cfg, m);
    MemCounts(cfg, WriteBack(cfg, m));
    ExecuteKeeps(cfg, MemoryAccess(cfg, WriteBack(cfg, m)).value);
  }

  // ---- ID ----

  /** `a` is `m` with one load-use stall taken. */
  predicate StalledOnce(cfg: Config, m: Machine, a: Machine) {
    a == m.(stops := m.stops + 1, fd := m.fd.(stop := m.fd.stop + 1), wf := m.wf.(stop := m.wf.stop + 1),
            em := m.em.(store := m.em.store.(hazard := m.em.store.hazard || !cfg.repaired)),
            de := m.de.(store := m.de.store.(hazard := m.de.store.hazard || cfg.repaired)),
            bypassesMemEx := a.bypassesMemEx, bypassesWbEx := a.bypassesWbEx)
  }

  lemma OperandCounts(cfg: Config, m: Machine, n: RegNum, need: NeededIn)
    requires ReadOperand(cfg, m, n, need).Ok?
    ensures var a := ReadOperand(cfg, m, n, need).value.0;
      if LoadHit(m, n) && !(cfg.repaired && m.de.store.hazard) then StalledOnce(cfg, m, a) else Untouched(m, a)
  {
  }

  lemma SourcesCount(cfg: Config, m: Machine, w: Word)
    requires ReadSources(cfg, m, w).Ok? && LiveFD(m.fd.load) && w == m.fd.load.word
    requires SourceHit(m, w) ==> !m.de.store.hazard
    requires cfg.repaired || !DoubleHit(m)
    ensures var a := ReadSources(cfg, m, w).value.0;
      if SourceHit(m, w) then StalledOnce(cfg, m, a) else Untouched(m, a)
  {
    hide Recognize, Rs1, Rs2, NeedOfRs2, ReadOperand;
    var t := Recognize(w).typ;
    var a := m;
    if ReadsRs1(t) {
      OperandCounts(cfg, m, Rs1(w), NeedExecute);
      a := ReadOperand(cfg, m, Rs1(w), NeedExecute).value.0;
    }
    if ReadsRs2(t) { OperandCounts(cfg, a, Rs2(w), NeedOfRs2(w)); }
  }

  /** ID's effect on the counts: one instruction decoded, at most one stall. */
  lemma DecodeCounts(cfg: Config, w: Machine, junk: bool)
    requires DecodeStage(cfg, w, junk).Ok? && LiveFD(w.fd.load) && w.de.stop == 0
    requires SourceHit(w, w.fd.load.word) ==> !w.de.store.hazard
    requires cfg.repaired || !DoubleHit(w)
    ensures var d := DecodeStage(cfg, w, junk).value;
      var hit := SourceHit(w, w.fd.load.word);
      && d.de.store.hazard == (w.de.store.hazard || (hit && cfg.repaired)) && !d.de.store.isStall && d.de.load == w.de.load
      && d.em == w.em.(store := w.em.store.(hazard := w.em.store.hazard || (hit && !cfg.repaired)))
      && d.mw == w.mw && d.wf == w.wf.(stop := w.wf.stop + One(hit)) && d.fd == w.fd.(stop := w.fd.stop + One(hit))
      && d.stops == w.stops + One(hit) && d.ic == w.ic && d.clocks == w.clocks && d.branches == w.branches
      && d.halted == w.halted && d.de.stop == 0 && BranchesTouchNoMemory(d.de.store.instr)
  {
    hide Recognize, Rd, ReadSources, MakeInstr, SourceHit, DoubleHit;
    RecognizeFits(w.fd.load.word);
    SourcesCount(cfg, w, w.fd.load.word);
  }

  lemma IdleCounts(cfg: Config, w: Machine, junk: bool)
    requires !LiveFD(w.fd.load) || w.de.stop > 0
    ensures DecodeStage(cfg, w, junk) == Ok(w.(de := w.de.(store := w.de.store.(isStall := !LiveFD(w.fd.load)))))
  {
  }

  // ---- IF and the update ----

  /** The latches and counters of the next boundary. */
  lemma FinishCounts(d: Machine)
    requires Finish(d).Ok? && !d.wf.load.isStall && !d.wf.load.hazard
    ensures var n := Finish(d).value;
      && n.de == Swap(d.de, CLEAR) && n.em == Swap(d.em, CLEAR) && n.mw == Swap(d.mw, CLEAR)
      && n.ic == d.ic && n.clocks == d.clocks + 1 && n.branches == d.branches && n.stops == d.stops && n.halted == d.halted
      && (d.fd.stop == 0 && d.wf.stop == 0 ==>
            && n.fd.stop == 0 && n.fd.store == FD_CLEAR && !n.fd.load.isStall && n.fd.load.hazard == d.fd.store.hazard
            && n.wf.stop == 0 && n.wf.store == WF_CLEAR && n.wf.load == d.wf.store.(pc := n.wf.load.pc))
      && (d.fd.stop > 0 && d.wf.stop > 0 ==>
            && n.fd == d.fd.(stop := d.fd.stop - 1, store := d.fd.store.(isStall := false))
            && n.wf == d.wf.(stop := d.wf.stop - 1))
  {
    hide ReadWord, Following, Advance, Index, InBounds;
  }

  // ---- The cycle ----

  /** EX is busy: one more instruction, and two bubbles ahead if it jumps. */
  lemma BusyCycleCounts(cfg: Config, m: Machine, w: Machine, junk: bool)
    requires CleanStores(m) && CountedRunning(m) && CountedAtDecode(m, w) && !Irregular(cfg, w)
    requires Live(m.de.load) && m.de.load.instr.typ != System && AfterDecode(cfg, w, junk).Ok?
    ensures var n := AfterDecode(cfg, w, junk).value; CleanStores(n) && CountedRunning(n)
  {
    hide Execute, DecodeStage, Finish, SourceHit, DoubleHit;
    HitNeedsLoad(w);
    assert SourceHit(w, w.fd.load.word) ==> !Redirects(w.em.store.instr);
    hide Redirects;
    DecodeCounts(cfg, w, junk);
    FinishCounts(DecodeStage(cfg, w, junk).value);
  }

  /** EX has a bubble, ID refills it. */
  lemma RefillCycleCounts(cfg: Config, m: Machine, w: Machine, junk: bool)
    requires CleanStores(m) && CountedRunning(m) && CountedAtDecode(m, w) && !Irregular(cfg, w)
    requires !Live(m.de.load) && LiveFD(m.fd.load) && AfterDecode(cfg, w, junk).Ok?
    ensures var n := AfterDecode(cfg, w, junk).value; CleanStores(n) && CountedRunning(n)
  {
    hide Execute, Redirects, DecodeStage, Finish, SourceHit, DoubleHit;
    HitNeedsLoad(w);
    DecodeCounts(cfg, w, junk);
    FinishCounts(DecodeStage(cfg, w, junk).value);
  }

  /** EX and ID have bubbles, IF refills. */
  lemma EmptyCycleCounts(cfg: Config, m: Machine, w: Machine, junk: bool)
    requires CleanStores(m) && CountedRunning(m) && CountedAtDecode(m, w)
    requires !LiveFD(m.fd.load) && AfterDecode(cfg, w, junk).Ok?
    ensures var n := AfterDecode(cfg, w, junk).value; CleanStores(n) && CountedRunning(n)
  {
    hide Execute, Redirects, DecodeStage, Finish;
    IdleCounts(cfg, w, junk);
    FinishCounts(DecodeStage(cfg, w, junk).value);
  }

  /** The front end is held: the latches behind it move on. */
  lemma HeldCycleCounts(cfg: Config, w: Machine, junk: bool)
    requires w.de.stop > 0 && w.fd.stop > 0 && w.wf.stop > 0 && w.em.stop == 0 && w.mw.stop == 0
    requires NoCancelInStores(w) && !w.wf.load.isStall && !w.wf.load.hazard && AfterDecode(cfg, w, junk).Ok?
    ensures var n := AfterDecode(cfg, w, junk).value;
      && CleanStores(n) && n.mw.load == w.mw.store && n.em.load == w.em.store && n.de.load == w.de.load
      && n.wf.stop == w.wf.stop - 1 && n.fd.stop == w.fd.stop - 1 && n.de.stop == w.de.stop - 1 && n.wf.load == w.wf.load
      && n.ic == w.ic && n.clocks == w.clocks + 1 && n.branches == w.branches && n.stops == w.stops && n.halted == w.halted
  {
    hide DecodeStage, Finish;
    IdleCounts(cfg, w, junk);
    FinishCounts(DecodeStage(cfg, w, junk).value);
  }

  lemma DrainEmCounts(cfg: Config, m: Machine, w: Machine, junk: bool)
    requires CleanStores(m) && CountedAtDecode(m, w) && AfterDecode(cfg, w, junk).Ok? && CountedEm(m)
    ensures var n := AfterDecode(cfg, w, junk).value; CleanStores(n) && CountedMw(n)
  {
    hide Execute, Redirects, AfterDecode;
    HeldCycleCounts(cfg, w, junk);
  }

  lemma DrainMwCounts(cfg: Config, m: Machine, w: Machine, junk: bool)
    requires CleanStores(m) && CountedAtDecode(m, w) && AfterDecode(cfg, w, junk).Ok? && CountedMw(m)
    ensures var n := AfterDecode(cfg, w, junk).value;
      CleanStores(n) && n.halted && n.clocks == n.ic + 4 + 2 * n.branches + n.stops
  {
    hide Execute, Redirects, AfterDecode;
    HeldCycleCounts(cfg, w, junk);
  }

  lemma EcallCycleCounts(cfg: Config, m: Machine, w: Machine, junk: bool)
    requires CleanStores(m) && CountedRunning(m) && CountedAtDecode(m, w) && AfterDecode(cfg, w, junk).Ok?
    requires Live(m.de.load) && m.de.load.instr.typ == System && !Irregular(cfg, w)
    ensures Counted(AfterDecode(cfg, w, junk).value)
  {
    hide Execute, AfterDecode, DoubleHit;
    assert !Redirects(w.em.store.instr);
    HeldCycleCounts(cfg, w, junk);
  }

  /** One regular cycle keeps the account, squashes, stalls and the drain included. */
  lemma CycleCounts(cfg: Config, m: Machine, junk: bool)
    requires Counted(m) && !m.halted && Cycle(cfg, m, junk).Ok? && !Irregular(cfg, BeforeDecode(cfg, m).value)
    ensures Counted(Cycle(cfg, m, junk).value)
  {
    hide Cycle, BeforeDecode, AfterDecode, CleanStores, CountedAtDecode, CountedRunning, CountedEm, CountedMw, Irregular;
    CycleNeedsDecode(cfg, m, junk);
    BeforeDecodeCounts(cfg, m);
    CycleSplits(cfg, m, junk);
    var w := BeforeDecode(cfg, m).value;
    if CountedEm(m) {
      DrainEmCounts(cfg, m, w, junk);
    } else if CountedMw(m) {
      DrainMwCounts(cfg, m, w, junk);
    } else if Live(m.de.load) {
      if m.de.load.instr.typ == System { EcallCycleCounts(cfg, m, w, junk); } else { BusyCycleCounts(cfg, m, w, junk); }
    } else if LiveFD(m.fd.load) {
      RefillCycleCounts(cfg, m, w, junk);
    } else {
      EmptyCycleCounts(cfg, m, w, junk);
    }
  }

  lemma CycleNeedsDecode(cfg: Config, m: Machine, junk: bool)
    requires Cycle(cfg, m, junk).Ok?
    ensures BeforeDecode(cfg, m).Ok?
  {
    hide WriteBack, MemoryAccess, ExecuteStage, DecodeStage, Fetch, Update;
  }

  /** No cycle before `t` is irregular. */
  ghost predicate Regular(cfg: Config, m: Machine, junk: nat -> bool, t: nat) {
    forall k: nat | k < t && Run(cfg, m, junk, k).Ok? && !Run(cfg, m, junk, k).value.halted ::
      var w := BeforeDecode(cfg, Run(cfg, m, junk, k).value); w.Ok? ==> !Irregular(cfg, w.value)
  }

  lemma {:induction false} RunCounts(cfg: Config, s0: SeqState, junk: nat -> bool, t: nat)
    requires Regular(cfg, Initial(s0), junk, t) && Run(cfg, Initial(s0), junk, t).Ok?
    ensures Counted(Run(cfg, Initial(s0), junk, t).value)
  {
    hide Cycle, BeforeDecode, Irregular, Counted, Initial;
    if t == 0 {
      InitialCounted(s0);
    } else {
      RunCounts(cfg, s0, junk, t - 1);
      var p := Run(cfg, Initial(s0), junk, t - 1).value;
      if !p.halted {
        CycleNeedsDecode(cfg, p, junk(t - 1));
        CycleCounts(cfg, p, junk(t - 1));
      }
    }
  }

  lemma InitialCounted(s0: SeqState)
    ensures Counted(Initial(s0))
  {
  }

  /** At exit every clock is accounted for: one per retired instruction, four to fill and drain, two per
      taken jump, one per load-use stop. No guard on the program but regularity. */
  lemma ClocksAtExit(cfg: Config, s0: SeqState, junk: nat -> bool, t: nat)
    requires Regular(cfg, Initial(s0), junk, t) && Run(cfg, Initial(s0), junk, t).Ok?
    requires Run(cfg, Initial(s0), junk, t).value.halted
    ensures var m := Run(cfg, Initial(s0), junk, t).value; m.clocks == m.ic + 4 + 2 * m.branches + m.stops
  {
    hide Run, Initial, Regular;
    RunCounts(cfg, s0, junk, t);
  }
}
