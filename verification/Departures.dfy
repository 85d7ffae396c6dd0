/** Where the code as written departs from its evident intent, and exactly when: the load-use interlock
    (src/HazardUnit.cpp:24-34), the release of cancelled writers (src/PerfSim.cpp:94-95, 121-122) and
    `signExtend` (src/PerfSim.cpp:190-207). */
module Departures {
  import opened Isa
  import opened Decoding
  import opened Executors
  import opened Memories
  import opened StoreQueues
  import opened Machines
  import opened Scoreboard
  import opened Sequential
  import opened Refinement
  import opened Latches
  import opened Accounting
  import opened ConfigEquivalence

  // ---- The "load hazart" exception ----

  /** Decode throws exactly when a store's data register hits the load in EX. */
  lemma LoadHazardExact(cfg: Config, w: Machine, junk: bool)
    ensures DecodeStage(cfg, w, junk).Err? <==>
      var word := w.fd.load.word;
      LiveFD(w.fd.load) && w.de.stop == 0 && NeedOfRs2(word) == NeedMemory && LoadHit(w, Rs2(word))
  {
    hide Rs1, Rs2, Rd, MakeInstr, HitsMem;
    var word := w.fd.load.word;
    hide Recognize;
    RecognizeFits(word);
    assert NeedOfRs2(word) == NeedMemory ==> Recognize(word).typ == S;
    if LiveFD(w.fd.load) && w.de.stop == 0 {
      var t := Recognize(word).typ;
      if ReadsRs1(t) { OperandErr(cfg, w, Rs1(word), NeedExecute); }
      if ReadsRs2(t) {
        var a := if ReadsRs1(t) then ReadOperand(cfg, w, Rs1(word), NeedExecute).value.0 else w;
        if ReadsRs1(t) { OperandKeeps(cfg, w, Rs1(word), NeedExecute); }
        OperandErr(cfg, a, Rs2(word), NeedOfRs2(word));
      }
    }
  }

  lemma OperandErr(cfg: Config, m: Machine, n: RegNum, need: NeededIn)
    ensures ReadOperand(cfg, m, n, need).Err? <==> LoadHit(m, n) && need == NeedMemory
  {
  }

  // ---- Load-use as written ----

  /** The load in EX, and behind it a word that reads its rd. */
  predicate LoadUseHit(w: Machine) { LiveFD(w.fd.load) && w.de.stop == 0 && SourceHit(w, w.fd.load.word) }

  /** What the as-written interlock leaves: the load cancelled in EM, the dependent alive in DE and, once
      more, in FD. */
  predicate LoadCancelled(w: Machine, n: Machine) {
    && !n.em.load.isStall && n.em.load.hazard && n.em.load.instr == w.em.store.instr
    && Live(n.de.load) && n.de.load.pc == n.fd.load.pc && n.fd.load == w.fd.load
  }

  lemma CancelsTheLoad(cfg: Config, m: Machine, w: Machine, junk: bool)
    requires !cfg.repaired && CleanStores(m) && CountedRunning(m) && CountedAtDecode(m, w) && !DoubleHit(w)
    requires Live(m.de.load) && LoadUseHit(w) && AfterDecode(cfg, w, junk).Ok?
    ensures LoadCancelled(w, AfterDecode(cfg, w, junk).value)
  {
    hide Execute, DecodeStage, Finish, SourceHit, DoubleHit;
    HitNeedsLoad(w);
    assert !Redirects(w.em.store.instr);
    hide Redirects;
    DecodeCounts(cfg, w, junk);
    DecodedPc(cfg, w, junk);
    FinishCounts(DecodeStage(cfg, w, junk).value);
  }

  /** A cancelled instruction in EM reaches neither MW nor memory nor the queue: after the cycle MW holds a
      bubble, nothing has retired but the instruction that was in MW, and memory and queue have only taken
      their own step, which from an empty queue is none. */
  lemma CancelledNeverRetires(cfg: Config, m: Machine, junk: bool)
    requires Cycle(cfg, m, junk).Ok? && m.em.load.hazard && m.em.stop == 0 && m.mw.stop == 0
    ensures var n := Cycle(cfg, m, junk).value;
      && n.mw.load.isStall && n.retired == (if Live(m.mw.load) then m.retired + [m.mw.load.instr] else m.retired)
      && Advance(m.sq, m.mem) == Ok((n.sq, n.mem))
      && (QueueEmpty(m) ==> n.mem == m.mem && QueueEmpty(n))
  {
    hide Cycle, Finish, DecodeStage, ExecuteStage, WriteBack, Advance, FrontAfterEx;
    CycleIs(cfg, m, junk);
    var m1 := WriteBack(cfg, m);
    WbFrame(cfg, m);
    WbLatches(cfg, m);
    WbTrace(cfg, m);
    CancelledAccess(cfg, m1);
    var m2 := MemoryAccess(cfg, m1).value;
    ExecuteKeeps(cfg, m2);
    var w := ExecuteStage(cfg, m2);
    DecodeKeepsMem(cfg, w, junk);
    CycleNeedsDecode(cfg, m, junk);
    CycleSplits(cfg, m, junk);
    LaterStages(cfg, w, junk);
    FinishAdvances(DecodeStage(cfg, w, junk).value);
    if QueueEmpty(m) { EmptyAdvances(m); }
  }

  lemma WbTrace(cfg: Config, m: Machine)
    ensures WriteBack(cfg, m).retired == if Live(m.mw.load) then m.retired + [m.mw.load.instr] else m.retired
  {
    hide Release, WriteBackReg;
  }

  lemma CancelledAccess(cfg: Config, m: Machine)
    requires m.em.load.hazard
    ensures MemoryAccess(cfg, m).Ok?
    ensures var w := MemoryAccess(cfg, m).value;
      && w.mem == m.mem && w.sq == m.sq && w.retired == m.retired && w.mw.store.isStall
      && w.em.stop == m.em.stop && w.mw.stop == m.mw.stop
  {
    hide Release;
  }

  lemma FinishAdvances(d: Machine)
    requires Finish(d).Ok?
    ensures Advance(d.sq, d.mem) == Ok((Finish(d).value.sq, Finish(d).value.mem))
  {
    hide Advance, ReadWord, Index, InBounds, Following;
  }

  lemma EmptyAdvances(m: Machine)
    requires QueueEmpty(m)
    ensures Advance(m.sq, m.mem) == Ok((m.sq, m.mem))
  {
    BubbleWritesNothing(m.mem);
    assert ([] + [m.sq.pending])[1..] == [];
  }

  // ---- The livelock ----

  /** A load of its own base register: `lw x, imm(x)`. */
  predicate SelfLoad(word: Word, n: RegNum) {
    Recognize(word).typ == I && Recognize(word).acc == Read && Rs1(word) == n && Rd(word) == n && n != 0
  }

  /** Right behind a live load of `n`, FD holds `lw n, imm(n)`. */
  ghost predicate Stuck(m: Machine, n: RegNum) {
    && LocksConserved(m) && CleanStores(m) && !m.halted && NoStops(m) && FetchReady(m)
    && LiveFD(m.fd.load) && SelfLoad(m.fd.load.word, n)
    && Live(m.de.load) && IsLoad(m.de.load.instr) && !m.de.load.instr.isBranch && m.de.load.instr.rd.name == n
    && (Live(m.mw.load) ==> m.mw.load.instr.name != ECALL) && (Live(m.em.load) ==> m.em.load.instr.name != ECALL)
    && m.ic == |m.retired|
  }

  function InFlight(m: Machine): nat { |m.retired| + One(Live(m.mw.load)) + One(Live(m.em.load)) }

  /** As written, the next copy cancels the one before it: the machine is stuck in the same way. */
  lemma StuckStep(cfg: Config, m: Machine, n: RegNum, junk: bool)
    requires !cfg.repaired && Stuck(m, n) && Cycle(cfg, m, junk).Ok?
    ensures var m' := Cycle(cfg, m, junk).value;
      Stuck(m', n) && !Live(m'.em.load) && m'.fd.load == m.fd.load && InFlight(m') == InFlight(m)
  {
    hide Cycle, BeforeDecode, AfterDecode, LocksConserved, CountedAtDecode, Recognize, Rs1, Rd;
    CycleNeedsDecode(cfg, m, junk);
    BeforeDecodeCounts(cfg, m);
    BeforeDecodeStep(cfg, m);
    CycleSplits(cfg, m, junk);
    CycleConservesLocks(cfg, m, junk);
    var w := BeforeDecode(cfg, m).value;
    RetiredGrows(cfg, m);
    StuckDecode(cfg, m, w, n, junk);
  }

  lemma RetiredGrows(cfg: Config, m: Machine)
    requires CleanStores(m) && BeforeDecode(cfg, m).Ok?
    ensures |BeforeDecode(cfg, m).value.retired| == |m.retired| + One(Live(m.mw.load))
  {
    hide WriteBack, MemoryAccess, ExecuteStage, FrontAfterEx, Release, Execute;
    WbCounts(cfg, m);
    MemCounts(cfg, WriteBack(cfg, m));
    ExecuteKeeps(cfg, MemoryAccess(cfg, WriteBack(cfg, m)).value);
  }

  lemma StuckDecode(cfg: Config, m: Machine, w: Machine, n: RegNum, junk: bool)
    requires !cfg.repaired && Stuck(m, n) && CountedAtDecode(m, w) && AfterEx(w) && AfterDecode(cfg, w, junk).Ok?
    requires |w.retired| == |m.retired| + One(Live(m.mw.load))
    ensures var m' := AfterDecode(cfg, w, junk).value;
      && CleanStores(m') && !m'.halted && NoStops(m') && FetchReady(m') && m'.fd.load == m.fd.load
      && Live(m'.de.load) && IsLoad(m'.de.load.instr) && !m'.de.load.instr.isBranch && m'.de.load.instr.rd.name == n
      && (Live(m'.mw.load) ==> m'.mw.load.instr.name != ECALL) && !Live(m'.em.load)
      && m'.ic == |m'.retired| && InFlight(m') == InFlight(m)
  {
    hide DecodeStage, Finish, Recognize, Rs1, Rd, LocksConserved, AfterEx, SourceHit, DoubleHit;
    SelfLoadHits(w, n);
    hide Execute;
    RecognizeFits(m.fd.load.word);
    DecodeCounts(cfg, w, junk);
    DecodedPc(cfg, w, junk);
    NamesKept(w, n);
    FinishCounts(DecodeStage(cfg, w, junk).value);
    LaterStages(cfg, w, junk);
  }

  lemma NamesKept(w: Machine, n: RegNum)
    requires AfterEx(w)
    ensures w.rf.regs[n].name == n
  {
  }

  /** The stuck word hits its predecessor, once. */
  lemma SelfLoadHits(w: Machine, n: RegNum)
    requires AfterEx(w) && LiveFD(w.fd.load) && SelfLoad(w.fd.load.word, n)
    requires Live(w.de.load) && !w.em.store.isStall && w.em.store.instr == w.de.load.instr
    requires IsLoad(w.de.load.instr) && w.de.load.instr.rd.name == n
    ensures SourceHit(w, w.fd.load.word) && !DoubleHit(w)
  {
    hide Recognize, Rs1, Rd, Rs2;
    assert w.rf.locks[n] + Owes(w.em.store, n) + Owes(w.mw.store, n) == 0;
  }

  /** With fetch held, a cycle can still fail only on the store that leaves the queue. */
  lemma HeldFinishes(d: Machine)
    requires d.fd.stop > 0 && Advance(d.sq, d.mem).Ok?
    ensures Finish(d).Ok?
  {
    hide Advance, ReadWord, Index, InBounds, Following;
  }

  /** A stuck machine decodes without an exception and fetches nothing. */
  lemma StuckFinishes(cfg: Config, m: Machine, n: RegNum, junk: bool)
    requires !cfg.repaired && Stuck(m, n) && BeforeDecode(cfg, m).Ok?
    requires var w := BeforeDecode(cfg, m).value; Advance(w.sq, w.mem).Ok?
    ensures Cycle(cfg, m, junk).Ok?
  {
    hide Cycle, BeforeDecode, LocksConserved, Recognize, Rs1, Rs2, Rd, Advance, Finish, DecodeStage, SourceHit, DoubleHit, AfterEx,
         LoadHit, Execute;
    BeforeDecodeCounts(cfg, m);
    BeforeDecodeStep(cfg, m);
    CycleSplits(cfg, m, junk);
    var w := BeforeDecode(cfg, m).value;
    LoadHazardExact(cfg, w, junk);
    LoadOfStuck(m, w, n);
    SelfLoadHits(w, n);
    DecodeCounts(cfg, w, junk);
    DecodeKeepsMem(cfg, w, junk);
    HeldFinishes(DecodeStage(cfg, w, junk).value);
  }

  /** The load in EX, as decode sees it. */
  lemma LoadOfStuck(m: Machine, w: Machine, n: RegNum)
    requires Stuck(m, n) && CountedAtDecode(m, w)
    ensures Live(w.de.load) && !w.em.store.isStall && w.em.store.instr == w.de.load.instr
    ensures IsLoad(w.de.load.instr) && w.de.load.instr.rd.name == n && w.de.stop == 0
    ensures LiveFD(w.fd.load) && SelfLoad(w.fd.load.word, n) && w.fd.stop == 0 && !w.de.store.hazard
    ensures NeedOfRs2(w.fd.load.word) == NeedExecute
  {
    hide Recognize, Rs1, Rd, LocksConserved;
  }

  /** Stuck for good: nothing but bubbles ahead, and no store on its way. */
  ghost predicate Jammed(m: Machine, n: RegNum) { Stuck(m, n) && QueueEmpty(m) && !Live(m.em.load) }

  lemma JammedGoesOn(cfg: Config, m: Machine, n: RegNum, junk: bool)
    requires !cfg.repaired && Jammed(m, n)
    ensures Cycle(cfg, m, junk).Ok? && Jammed(Cycle(cfg, m, junk).value, n)
  {
    hide Cycle, Stuck, WriteBack, ExecuteStage, Release, QueueEmpty;
    JammedQueue(cfg, m);
    StuckFinishes(cfg, m, n, junk);
    StuckStep(cfg, m, n, junk);
    CycleEmptiesQueue(cfg, m, junk);
  }

  lemma JammedQueue(cfg: Config, m: Machine)
    requires QueueEmpty(m) && !Live(m.em.load)
    ensures BeforeDecode(cfg, m).Ok?
    ensures var w := BeforeDecode(cfg, m).value; Advance(w.sq, w.mem).Ok?
  {
    hide WriteBack, ExecuteStage, Release, FrontAfterEx;
    WbFrame(cfg, m);
    ExecuteKeeps(cfg, MemoryAccess(cfg, WriteBack(cfg, m)).value);
  }

  /** The livelock: as written a load of its own base right behind a load of that register is decoded
      for ever. However long the run, it does not end, FD keeps the same word, and at most the
      instructions already in MEM and WB still retire. Only their accesses, in the first cycle, can throw. */
  lemma {:induction false} SelfLoadLivelock(cfg: Config, m: Machine, n: RegNum, junk: nat -> bool, t: nat)
    requires !cfg.repaired && Stuck(m, n) && QueueEmpty(m)
    ensures Run(cfg, m, junk, t).Ok? <==> t == 0 || Cycle(cfg, m, junk(0)).Ok?
    ensures Run(cfg, m, junk, t).Ok? ==>
      var m' := Run(cfg, m, junk, t).value;
      Stuck(m', n) && (t > 0 ==> Jammed(m', n)) && m'.fd.load == m.fd.load && InFlight(m') == InFlight(m)
  {
    hide Cycle, Stuck, QueueEmpty;
    if t > 0 {
      SelfLoadLivelock(cfg, m, n, junk, t - 1);
      if Run(cfg, m, junk, t - 1).Ok? {
        var p := Run(cfg, m, junk, t - 1).value;
        StuckAwake(p, n);
        if t > 1 { JammedGoesOn(cfg, p, n, junk(t - 1)); }
        if Cycle(cfg, p, junk(t - 1)).Ok? {
          StuckStep(cfg, p, n, junk(t - 1));
          CycleEmptiesQueue(cfg, p, junk(t - 1));
        }
      }
    }
  }

  lemma StuckAwake(m: Machine, n: RegNum)
    requires Stuck(m, n)
    ensures !m.halted
  {
  }

  // ---- The livelock in a program ----

  /** Positions y and y + 1 of the sequential run: a load of `n`, then `lw n, imm(n)`. */
  ghost predicate SelfLoadPair(s0: SeqState, y: nat, n: RegNum) {
    && !St(s0, y).halted && IsLoad(Done(St(s0, y))) && Done(St(s0, y)).rd.name == n
    && SelfLoad(CodeAt(St(s0, y + 1)), n) && CodeStable(s0, y + 1)
  }

  lemma BusyIsStraight(cfg: Config, m: Machine, s0: SeqState)
    requires Running(cfg, m, s0) && Live(m.de.load)
    ensures Straight(cfg, m, s0) && !St(s0, PosDe(m)).halted && NoStops(m)
  {
    hide St, Done, Redirects, Following, FetchedBefore, StaleHarmless;
  }

  /** What DE and FD hold when the pair stands there. */
  lemma PairInLatches(cfg: Config, m: Machine, s0: SeqState, y: nat, n: RegNum)
    requires InStep(m, s0) && Straight(cfg, m, s0) && SelfLoadPair(s0, y, n) && PosDe(m) == y && Live(m.de.load)
    ensures IsLoad(m.de.load.instr) && !m.de.load.instr.isBranch && m.de.load.instr.rd.name == n
    ensures SelfLoad(m.fd.load.word, n)
  {
    hide St, WordAt, CodeStable, Recognize, Rs1, Rs2, Rd, Following, FetchedBefore, CodeAt, Immediate,
         TraceRight, RegsAgree, SelfLoad, Redirects;
    var s := St(s0, y);
    RecognizeFits(CodeAt(s));
    LoadShape(m.de.load.instr, s);
    hide Done, Issue, Execute, Complete;
    StStep(s0, y);
    StraightWord(cfg, m, s0);
  }

  /** A decoded instruction whose completion is a load is a load of the same register, and no jump. */
  lemma LoadShape(i: Instr, s: SeqState)
    requires i == Issue(s, i.rd.value, i.taken)
    ensures IsLoad(Done(s)) ==> IsLoad(i) && !i.isBranch && i.rd.name == Done(s).rd.name && !Redirects(Done(s)) && Done(s).name != ECALL
    ensures Done(s).pc == i.pc == s.pc
  {
    hide WordAt, Recognize, Rs1, Rs2, Rd, CodeAt, Immediate, Execute, Loaded, ReadWord, Index;
    RecognizeFits(CodeAt(s));
  }

  lemma MwAheadIsNotEcall(m: Machine, s0: SeqState)
    requires InStep(m, s0) && Live(m.mw.load) && !St(s0, PosEm(m)).halted
    ensures m.mw.load.instr.name != ECALL
  {
    hide Done, St, Complete, Issue, TraceRight, RegsAgree;
    RunningBefore(s0, PosMw(m), PosEm(m));
    StStep(s0, PosMw(m));
  }

  lemma EmAheadIsNotEcall(m: Machine, s0: SeqState)
    requires InStep(m, s0) && Live(m.em.load) && !St(s0, PosDe(m)).halted && !St(s0, PosEm(m)).halted
    ensures m.em.load.instr.name != ECALL
  {
    hide Done, St, Complete, Issue, TraceRight, RegsAgree;
    StStep(s0, PosEm(m));
    CompleteKeeps(m.em.load.instr, m.mem);
  }

  lemma AheadIsNotEcall(cfg: Config, m: Machine, s0: SeqState)
    requires InStep(m, s0) && !St(s0, PosDe(m)).halted
    ensures Live(m.mw.load) ==> m.mw.load.instr.name != ECALL
    ensures Live(m.em.load) ==> m.em.load.instr.name != ECALL
  {
    hide Done, St, InStep;
    RunningBefore(s0, PosEm(m), PosDe(m));
    if Live(m.mw.load) { MwAheadIsNotEcall(m, s0); }
    if Live(m.em.load) { EmAheadIsNotEcall(m, s0); }
  }

  /** When the pair stands in DE and FD, the machine is stuck. */
  lemma PairSticks(cfg: Config, m: Machine, s0: SeqState, y: nat, n: RegNum)
    requires Refines(cfg, m, s0) && Running(cfg, m, s0) && SelfLoadPair(s0, y, n) && n != 0
    requires PosDe(m) == y && Live(m.de.load)
    ensures Stuck(m, n)
  {
    hide Done, St, SelfLoadPair, Redirects, RegsAgree, TraceRight, Complete, Issue, SelfLoad, Following,
         FetchedBefore, Starting, Squashing;
    BusyIsStraight(cfg, m, s0);
    PairInLatches(cfg, m, s0, y, n);
    AheadIsNotEcall(cfg, m, s0);
    StopsOfLocks(m);
    hide LocksConserved;
  }

  lemma StopsOfLocks(m: Machine)
    requires LocksConserved(m)
    ensures m.em.stop == 0 && m.mw.stop == 0
  {
  }

  /** Not yet past the pair. */
  ghost predicate Before(cfg: Config, m: Machine, s0: SeqState, y: nat) {
    Refines(cfg, m, s0) && PosFd(m) <= y + 1 && PosDe(m) <= y
  }

  lemma BeforeIsRunning(cfg: Config, m: Machine, s0: SeqState, y: nat)
    requires Before(cfg, m, s0, y) && !St(s0, y).halted
    ensures Running(cfg, m, s0)
  {
    hide St, Running, InStep, LocksConserved;
    if DrainingEm(m, s0) {
      EmEcall(m, s0);
      RunningBefore(s0, PosEm(m) + 1, y);
    } else if DrainingMw(m, s0) {
      MwEcall(m, s0);
      RunningBefore(s0, PosMw(m) + 1, y);
    } else if Finished(m, s0) {
      LastEcall(m, s0);
      RunningBefore(s0, |m.retired|, y);
    }
  }

  lemma PairRuns(s0: SeqState, y: nat, n: RegNum)
    requires SelfLoadPair(s0, y, n)
    ensures !St(s0, y).halted
  {
    hide St, Done, SelfLoad, CodeStable;
  }

  lemma EmEcall(m: Machine, s0: SeqState)
    requires InStep(m, s0) && DrainingEm(m, s0)
    ensures St(s0, PosEm(m) + 1).halted
  {
    hide Done, St, Complete, Issue, TraceRight, RegsAgree, FrontHeld;
    StStep(s0, PosEm(m));
    CompleteKeeps(m.em.load.instr, m.mem);
  }

  lemma MwEcall(m: Machine, s0: SeqState)
    requires InStep(m, s0) && DrainingMw(m, s0)
    ensures St(s0, PosMw(m) + 1).halted
  {
    hide Done, St, Complete, Issue, TraceRight, RegsAgree, FrontHeld;
    StStep(s0, PosMw(m));
  }

  lemma LastEcall(m: Machine, s0: SeqState)
    requires InStep(m, s0) && Finished(m, s0)
    ensures St(s0, |m.retired|).halted
  {
    hide Done, St, Complete, Issue, RegsAgree;
    var k := |m.retired| - 1;
    assert m.retired[k] == Done(St(s0, k));
    StStep(s0, k);
  }

  /** In step, the store in MEM fits. */
  lemma ReadyAdvances(w: Machine, s0: SeqState, x: nat)
    requires Ready(w, s0, x)
    ensures Advance(w.sq, w.mem).Ok?
  {
    hide AfterEx, RegsAgree, TraceRight, St, Done, Complete, InBounds, WriteWord;
  }

  lemma ReadyOf(m: Machine, w: Machine, s0: SeqState)
    requires AtDecode(m, w, s0)
    ensures Ready(w, s0, PosEm(m))
  {
    hide Ready, Execute, Redirects, St;
  }

  /** From the pair in DE and FD the machine jams, with no exception. */
  lemma PairJams(cfg: Config, m: Machine, s0: SeqState, y: nat, n: RegNum, junk: bool)
    requires !cfg.repaired && Refines(cfg, m, s0) && Running(cfg, m, s0) && SelfLoadPair(s0, y, n) && n != 0
    requires PosDe(m) == y && Live(m.de.load) && SoundUpTo(s0, y + 1)
    ensures Cycle(cfg, m, junk).Ok? && Jammed(Cycle(cfg, m, junk).value, n)
  {
    hide Cycle, St, Done, Refines, Running, SelfLoadPair, Stuck, SoundAt, BackEndGood, AtDecode, BeforeDecode, Ready, Advance;
    RunningIsAwake(cfg, m, s0);
    PairSticks(cfg, m, s0, y, n);
    BoundaryBack(cfg, m, s0);
    BeforeDecodeRefines(cfg, m, s0);
    ReadyOf(m, BeforeDecode(cfg, m).value, s0);
    ReadyAdvances(BeforeDecode(cfg, m).value, s0, PosEm(m));
    StuckFinishes(cfg, m, n, junk);
    StuckStep(cfg, m, n, junk);
    RefinesEmptiesQueue(cfg, m, s0);
    CycleEmptiesQueue(cfg, m, junk);
  }

  lemma RefinesEmptiesQueue(cfg: Config, m: Machine, s0: SeqState)
    requires Refines(cfg, m, s0)
    ensures QueueEmpty(m)
  {
    hide St, Done, Complete, Issue, TraceRight, RegsAgree, LocksConserved, Running;
  }

  /** The naive refinement is false of the code: a program in which a load of `n` is followed by
      `lw n, imm(n)`, harmless up to there, neither halts nor throws as written, however long it runs. */
  lemma {:induction false} SelfLoadPairNeverEnds(
    cfg: Config, s0: SeqState, y: nat, n: RegNum, junk: nat -> bool, t: nat)
    requires !cfg.repaired && n != 0 && RegsNamed(s0.regs) && !s0.halted
    requires SelfLoadPair(s0, y, n) && Guarded(cfg, s0, y + 1)
    ensures Run(cfg, Initial(s0), junk, t).Ok?
    ensures var m := Run(cfg, Initial(s0), junk, t).value; !m.halted && (Before(cfg, m, s0, y) || Jammed(m, n))
  {
    hide Cycle, Refines, Jammed, St, Done, GoodAt, Running, SelfLoadPair, Initial;
    if t == 0 {
      ResetRefines(cfg, s0);
      InitialPosition(s0);
      PairRuns(s0, y, n);
      BeforeIsRunning(cfg, Initial(s0), s0, y);
      RunningIsAwake(cfg, Initial(s0), s0);
    } else {
      SelfLoadPairNeverEnds(cfg, s0, y, n, junk, t - 1);
      var p := Run(cfg, Initial(s0), junk, t - 1).value;
      if Jammed(p, n) {
        JammedGoesOn(cfg, p, n, junk(t - 1));
        JammedAwake(Cycle(cfg, p, junk(t - 1)).value, n);
      } else {
        BeforePairStep(cfg, p, s0, y, n, junk(t - 1));
      }
    }
  }

  lemma JammedAwake(m: Machine, n: RegNum)
    requires Jammed(m, n)
    ensures !m.halted
  {
    hide QueueEmpty, LocksConserved;
  }

  lemma BeforePairStep(cfg: Config, m: Machine, s0: SeqState, y: nat, n: RegNum, junk: bool)
    requires !cfg.repaired && n != 0 && !m.halted && Before(cfg, m, s0, y)
    requires SelfLoadPair(s0, y, n) && Guarded(cfg, s0, y + 1)
    ensures Cycle(cfg, m, junk).Ok?
    ensures var m' := Cycle(cfg, m, junk).value; !m'.halted && (Before(cfg, m', s0, y) || Jammed(m', n))
  {
    hide Cycle, Refines, Jammed, St, Done, GoodAt, Running, SelfLoadPair;
    PairRuns(s0, y, n);
    BeforeIsRunning(cfg, m, s0, y);
    if PosFd(m) == y + 1 {
      GuardedIsSound(cfg, s0, y + 1);
      PairJams(cfg, m, s0, y, n, junk);
      JammedAwake(Cycle(cfg, m, junk).value, n);
    } else {
      GuardedIsClear(cfg, s0, m, y + 1);
      CycleRefines(cfg, m, s0, junk);
      CycleAdvances(cfg, m, s0, junk);
      var m' := Cycle(cfg, m, junk).value;
      BeforeIsRunning(cfg, m', s0, y);
      RunningIsAwake(cfg, m', s0);
    }
  }

  // ---- Exactly when a cycle of the guarded run goes wrong as written ----

  lemma HitCancelsInEm(cfg: Config, w: Machine, junk: bool)
    requires !cfg.repaired && AfterDecode(cfg, w, junk).Ok? && w.em.stop == 0
    requires LiveFD(w.fd.load) && w.de.stop == 0 && SourceHit(w, w.fd.load.word)
    ensures AfterDecode(cfg, w, junk).value.em.load.hazard
  {
    hide ReadSources, MakeInstr, Recognize, Rd, Advance, ReadWord, Following, Index, SourceHit, InBounds;
    SourcesHit(cfg, w, w.fd.load.word);
    SourcesKeep(cfg, w, w.fd.load.word);
  }

  /** As written, a cycle on the sequential path keeps the guarded shape if and only if no operand of the
      instruction in ID hits the load in EX; otherwise it cancels that load. */
  lemma InterlockExact(cfg: Config, m: Machine, w: Machine, s0: SeqState, junk: bool)
    requires !cfg.repaired && InStep(m, s0) && AtDecode(m, w, s0) && Straight(cfg, m, s0)
    requires !m.halted && NoStops(m) && FetchReady(m)
    requires !w.em.store.isStall ==> !Redirects(w.em.store.instr) && w.em.store.instr.typ != System
    requires var z := St(s0, PosFd(m));
      !z.halted && z.pc == m.fd.load.pc && CodeAt(z) == m.fd.load.word && Fetchable(s0.mem, Following(z.pc))
    requires !St(s0, PosEm(m)).halted && !St(s0, PosDe(m)).halted
    requires AfterDecode(cfg, w, junk).Ok?
    ensures Lands(cfg, AfterDecode(cfg, w, junk), s0) <==> !SourceHit(w, m.fd.load.word)
  {
    hide Done, St, DecodeStage, Finish, Recognize, CodeAt, WordAt, Following, Fetchable, Straight, Redirects, SourceHit,
         AtDecode, Running, DrainingEm, DrainingMw, Finished;
    FrontOfDecode(cfg, m, w, s0);
    if SourceHit(w, m.fd.load.word) {
      hide InStep, AfterDecode;
      HitCancelsInEm(cfg, w, junk);
      CancelledIsOutOfStep(AfterDecode(cfg, w, junk).value, s0);
    } else {
      DecodeNext(cfg, m, w, s0, junk);
      FinishStep(cfg, DecodeStage(cfg, w, junk).value, s0, PosEm(m));
    }
  }

  lemma CancelledIsOutOfStep(m: Machine, s0: SeqState)
    requires m.em.load.hazard
    ensures !InStep(m, s0)
  {
    hide Done, St, Complete, Issue, TraceRight, RegsAgree;
  }

  lemma FrontOfDecode(cfg: Config, m: Machine, w: Machine, s0: SeqState)
    requires AtDecode(m, w, s0) && Straight(cfg, m, s0) && NoStops(m)
    requires !w.em.store.isStall ==> !Redirects(w.em.store.instr) && w.em.store.instr.typ != System
    ensures w.fd.load == m.fd.load && LiveFD(w.fd.load) && w.de.stop == 0 && w.em.stop == 0
  {
    hide Staged, St, FetchedBefore, Following;
  }

  /** The value a cancelled writer restores differs from the sequential one, and no jump overwrites it. */
  ghost predicate StaleHarmful(m: Machine, s0: SeqState) {
    var i := m.de.load.instr;
    WritesRd(i.typ) && i.rd.name != 0 && !Relinks(m.em.load, i.rd.name)
    && i.rd != St(s0, PosEm(m)).regs[i.rd.name]
  }

  /** As written, the release of the squashed instruction leaves the registers right if and only if the
      value it captured is the sequential one or the jump overwrites it. */
  lemma ReleaseExact(cfg: Config, m: Machine, s0: SeqState)
    requires !cfg.repaired && BackEnd(m, s0) && (Live(m.mw.load) ==> !St(s0, PosMw(m)).halted)
    requires Live(m.em.load) && !St(s0, PosEm(m)).halted && !m.de.load.isStall && m.de.load.hazard
    requires var i := Done(St(s0, PosEm(m))); i.acc != NoAccess ==> InBounds(m.mem, Index(i.addr), i.accSize)
    ensures BeforeDecode(cfg, m).Ok?
    ensures var w := BeforeDecode(cfg, m).value;
      RegsAgree(w.rf, St(s0, PosEm(m)), w.mw.store) <==> !StaleHarmful(m, s0)
  {
    hide Done, St, Execute, Release, RegsAgree, Redirects, FrontAfterEx, SameOutside, TraceRight, LocksConserved,
         Complete, Issue, Index, InBounds;
    var x := PosEm(m);
    var m1 := WriteBack(cfg, m);
    RetireRefines(cfg, m, s0);
    WbFrame(cfg, m);
    hide WriteBack, BackEnd;
    AccessRefines(cfg, m1, s0, x);
    MemFrame(cfg, m1);
    var m2 := MemoryAccess(cfg, m1).value;
    hide MemoryAccess, Retired;
    ExecuteKeeps(cfg, m2);
    hide ExecuteStage;
    ReleaseClobbers(cfg, m2.rf, m.de.load.instr, St(s0, x), m2.mw.store);
  }

  lemma ReleaseClobbers(cfg: Config, rf: RegState, i: Instr, s: SeqState, l: Latch<Instr>)
    requires !cfg.repaired && rf.regs == s.regs
    ensures RegsAgree(Release(cfg, rf, i), s, l) <==>
      !(WritesRd(i.typ) && i.rd.name != 0 && !Relinks(l, i.rd.name) && i.rd != s.regs[i.rd.name])
  {
    if WritesRd(i.typ) && i.rd.name != 0 {
      assert Release(cfg, rf, i).regs[i.rd.name] == i.rd;
    }
  }

  /** As written, the cycle in which a jump executes keeps the guarded shape if and only if there is no
      clash: the instruction in MEM and the wrong-path one write a register that the jump does not, with
      different values. */
  lemma ClashExact(cfg: Config, m: Machine, w: Machine, s0: SeqState, junk: bool)
    requires !cfg.repaired && InStep(m, s0) && AtDecode(m, w, s0) && Straight(cfg, m, s0) && Live(m.de.load)
    requires !m.halted && NoStops(m) && FetchReady(m) && Redirects(w.em.store.instr)
    requires Recognize(CodeAt(St(s0, PosDe(m)))).name != Unnamed && Fetchable(s0.mem, m.wf.load.pc)
    requires !St(s0, PosEm(m)).halted && !St(s0, PosDe(m)).halted
    ensures Lands(cfg, AfterDecode(cfg, w, junk), s0) <==> !MachineClash(w)
  {
    hide Done, St, DecodeStage, Finish, Recognize, CodeAt, WordAt, Following, Fetchable, Straight, Redirects, AtDecode,
         MachineClash, StaleAt, DecodedWrong, InStep, Running, FetchReady;
    var x := PosEm(m);
    DecodeWrong(cfg, m, w, s0, junk);
    var d := DecodeStage(cfg, w, junk).value;
    if MachineClash(w) {
      StaleIsNotSquashing(cfg, d, s0, x);
    } else {
      FinishWrong(cfg, d, s0, x);
    }
  }

  lemma StaleIsNotSquashing(cfg: Config, d: Machine, s0: SeqState, x: nat)
    requires !cfg.repaired && DecodedWrong(d, s0, x)
    requires !StaleAt(d.de.store.instr, d.em.store.instr, St(s0, PosDone(d, x)))
    ensures !Lands(cfg, Finish(d), s0)
  {
    hide Done, TraceRight, RegsAgree, Finish, WordAt, CodeAt, Fetchable, St, Complete, Issue, Redirects,
         BackEndAccessed, Following,
         FetchedBefore, InStep;
    FetchCommits(d, s0, x);
  }

  // ---- Sub-word loads ----

  /** The value a load of `size` bytes should leave, by section 2.6 of the RISC-V Unprivileged ISA. */
  function IsaExtended(name: InstrName, data: Word): Word {
    match name
    case LB => if data & 0x80 == 0 then data & 0xff else data | 0xffff_ff00
    case LH => if data & 0x8000 == 0 then data & 0xffff else data | 0xffff_0000
    case LBU => data & 0xff
    case LHU => data & 0xffff
    case _ => data
  }

  /** Bytes used as bits: each sub-word load is right exactly on the values that fit in `size` bits. */
  lemma SubWordLoadsExact(data: Word)
    ensures Extended(LB, 1, data) == IsaExtended(LB, data) <==> data & 0xff in {0, 0xff}
    ensures Extended(LBU, 1, data) == IsaExtended(LBU, data) <==> data & 0xff < 2
    ensures Extended(LH, 2, data) == IsaExtended(LH, data) <==> data & 0xffff in {0, 1, 0xfffe, 0xffff}
    ensures Extended(LHU, 2, data) == IsaExtended(LHU, data) <==> data & 0xffff < 4
    ensures Extended(LW, 4, data) == IsaExtended(LW, data)
  {
    LoadByteExact(data);
    LoadHalfExact(data);
  }

  lemma LoadByteExact(data: Word)
    ensures Extended(LB, 1, data) == IsaExtended(LB, data) <==> data & 0xff == 0 || data & 0xff == 0xff
  {
  }

  lemma LoadHalfExact(data: Word)
    ensures Extended(LH, 2, data) == IsaExtended(LH, data) <==>
      data & 0xffff == 0 || data & 0xffff == 1 || data & 0xffff == 0xfffe || data & 0xffff == 0xffff
  {
  }

  /** What the stack held above a sub-word read never reaches a register. */
  lemma GarbageNeverShows(name: InstrName, size: nat, mem: Mem, addr: nat, garbage: Word)
    requires IsLoadName(name) && AccessSize(size)
    ensures Extended(name, size, FromMemory(mem, addr, size, garbage)) == Extended(name, size, ReadWord(mem, addr, size))
  {
    var d, r := FromMemory(mem, addr, size, garbage), ReadWord(mem, addr, size);
    FromMemoryIsRead(mem, addr, size);
    if size == 4 {
    } else {
      LowBitsOnly(name, size, ByteAt(mem, addr),
        if size > 1 then ByteAt(mem, addr + 1) else ByteOf(garbage, 1), ByteOf(garbage, 2), ByteOf(garbage, 3));
      LowBitsOnly(name, size, ByteAt(mem, addr), if size > 1 then ByteAt(mem, addr + 1) else 0, 0, 0);
    }
  }

  /** A sub-word load depends on the lowest byte alone. */
  lemma LowBitsOnly(name: InstrName, size: nat, b0: Byte, b1: Byte, b2: Byte, b3: Byte)
    requires size == 1 || size == 2
    requires IsLoadName(name)
    ensures Extended(name, size, Pack(b0, b1, b2, b3)) == Extended(name, size, Pack(b0, 0, 0, 0))
  {
    hide SignExtend, Pack;
    LowBitsExtended(size, b0, b1, b2, b3);
  }

  lemma LowBitsExtended(size: nat, b0: Byte, b1: Byte, b2: Byte, b3: Byte)
    requires size == 1 || size == 2
    ensures forall signed: bool :: SignExtend(Pack(b0, b1, b2, b3), size, signed) == SignExtend(Pack(b0, 0, 0, 0), size, signed)
  {
    var w, v := Pack(b0, b1, b2, b3), Pack(b0, 0, 0, 0);
    assert w & 3 == v & 3;
    hide Pack;
    LowBitsDecide(w, v, size, true);
    LowBitsDecide(w, v, size, false);
  }

  lemma LowBitsDecide(w: Word, v: Word, size: nat, signed: bool)
    requires size == 1 || size == 2
    requires w & 3 == v & 3
    ensures SignExtend(w, size, signed) == SignExtend(v, size, signed)
  {
  }

  // ---- Executor slips ----

  /** XORI and ANDI, whose operators are exchanged, are right only on two zeros. */
  lemma SwappedOperatorsExact(a: Word, imm: Word)
    ensures Alu(XORI, a, 0, imm, 0) == a ^ imm <==> a == 0 && imm == 0
    ensures Alu(ANDI, a, 0, imm, 0) == a & imm <==> a == 0 && imm == 0
  {
  }

  /** JALR is right exactly when the sum is even: the source does not clear bit 0. */
  lemma JalrExact(imm: Word, pc: Word, a: Word)
    ensures JumpTarget(JALR, imm, pc, a) == (imm + a) & 0xffff_fffe <==> (imm + a) & 1 == 0
  {
  }
}
