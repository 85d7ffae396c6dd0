/** The pipeline retires what the sequential machine retires (src/PerfSim.cpp, src/HazardUnit.cpp):
    as written under the guard below, and with the repaired interlock without its load-use and clash parts. */
module Refinement {
  import opened Isa
  import opened Decoding
  import opened Executors
  import opened Memories
  import opened StoreQueues
  import opened Machines
  import opened Scoreboard
  import opened Sequential

  // ---- The guard, position by position of the sequential run ----

  predicate Fetchable(mem: Mem, pc: Word) { InBounds(mem, Index(pc), 4) }

  predicate Reads(w: Word, n: RegNum) {
    var t := Recognize(w).typ;
    (ReadsRs1(t) && Rs1(w) == n) || (ReadsRs2(t) && Rs2(w) == n)
  }

  /** The word right behind `load` needs its rd too early: any read as written, only store data repaired. */
  predicate LoadUse(cfg: Config, load: Instr, w: Word) {
    IsLoad(load) && load.rd.name != 0
    && if cfg.repaired then NeedOfRs2(w) == NeedMemory && Rs2(w) == load.rd.name else Reads(w, load.rd.name)
  }

  /** The word behind `jump` and the instruction ahead of it write one register that `jump` does not. */
  predicate Clash(prev: Instr, jump: Instr, w: Word) {
    WritesRd(Recognize(w).typ) && Rd(w) != 0 && WriterOf(prev, Rd(w)) && !WriterOf(jump, Rd(w))
  }

  /** A clash that shows: what `prev` writes differs from what the word behind the jump captured before. */
  predicate Clobbers(prev: Instr, jump: Instr, before: SeqState, w: Word) {
    Clash(prev, jump, w) && before.regs[Rd(w)] != prev.rd
  }

  /** The three instructions before position `k` do not rewrite its word. */
  ghost predicate CodeStable(s0: SeqState, k: nat) {
    forall j: nat | j <= k <= j + 3 :: WordAt(St(s0, j).mem, St(s0, k).pc) == CodeAt(St(s0, k))
  }

  /** Position `k` is a recognised instruction with its fetches and its access in bounds, not rewritten by
      the three instructions before it. */
  ghost predicate SoundAt(s0: SeqState, k: nat) {
    var s := St(s0, k);
    var i := Done(s);
    s.halted || (
      && Recognize(CodeAt(s)).name != Unnamed
      && Fetchable(s.mem, s.pc) && Fetchable(s.mem, Following(s.pc)) && (i.name != ECALL ==> Fetchable(s.mem, Following(Following(s.pc))))
      && (i.acc != NoAccess ==> InBounds(s.mem, Index(i.addr), i.accSize))
      && CodeStable(s0, k)
    )
  }

  ghost predicate FreeOfUse(cfg: Config, s0: SeqState, k: nat) {
    k > 0 && !St(s0, k).halted ==> !LoadUse(cfg, Done(St(s0, k - 1)), CodeAt(St(s0, k)))
  }

  /** As written, no clash at a jump right behind an instruction that does not jump itself. */
  ghost predicate FreeOfClash(cfg: Config, s0: SeqState, k: nat) {
    var s := St(s0, k);
    !cfg.repaired && k > 0 && !s.halted && Redirects(Done(s)) && !Redirects(Done(St(s0, k - 1))) ==>
      forall j: nat | j <= k <= j + 2 ::
        !Clobbers(Done(St(s0, k - 1)), Done(s), St(s0, k - 1), WordAt(St(s0, j).mem, Following(s.pc)))
  }

  /** Position `k` can be decoded. */
  ghost predicate Enters(cfg: Config, s0: SeqState, k: nat) { SoundAt(s0, k) && FreeOfUse(cfg, s0, k) }

  /** Position `k` is harmless: sound, no load-use and no clash. */
  ghost predicate GoodAt(cfg: Config, s0: SeqState, k: nat) { Enters(cfg, s0, k) && FreeOfClash(cfg, s0, k) }

  ghost predicate SoundUpTo(s0: SeqState, n: nat) { forall k: nat | k < n :: SoundAt(s0, k) }

  ghost predicate Guarded(cfg: Config, s0: SeqState, n: nat) { forall k: nat | k < n :: GoodAt(cfg, s0, k) }

  /** All that has been decoded is harmless, and the position in FD can be decoded. */
  ghost predicate Clear(cfg: Config, s0: SeqState, m: Machine) {
    Guarded(cfg, s0, PosFd(m)) && Enters(cfg, s0, PosFd(m))
  }

  lemma GuardedIsClear(cfg: Config, s0: SeqState, m: Machine, n: nat)
    requires Guarded(cfg, s0, n) && PosFd(m) < n
    ensures Clear(cfg, s0, m)
  {
    hide SoundAt, FreeOfUse, FreeOfClash;
    assert GoodAt(cfg, s0, PosFd(m));
  }

  lemma ClearIsSound(cfg: Config, s0: SeqState, m: Machine)
    requires Clear(cfg, s0, m)
    ensures SoundUpTo(s0, PosFd(m) + 1)
  {
    hide SoundAt, FreeOfUse, FreeOfClash;
    forall k: nat | k < PosFd(m) + 1 ensures SoundAt(s0, k) {
      if k < PosFd(m) { assert GoodAt(cfg, s0, k); }
    }
  }

  lemma GuardedIsSound(cfg: Config, s0: SeqState, n: nat)
    requires Guarded(cfg, s0, n)
    ensures SoundUpTo(s0, n)
  {
    hide SoundAt, FreeOfUse, FreeOfClash;
    forall k: nat | k < n ensures SoundAt(s0, k) { assert GoodAt(cfg, s0, k); }
  }

  // ---- What the latches hold ----

  function One(b: bool): nat { if b then 1 else 0 }

  /** Positions in the sequential run: of the instruction in MW, in EM, in DE and in FD. */
  function PosMw(m: Machine): nat { |m.retired| }
  function PosEm(m: Machine): nat { PosMw(m) + One(Live(m.mw.load)) }
  function PosDe(m: Machine): nat { PosEm(m) + One(Live(m.em.load)) }
  function PosFd(m: Machine): nat { PosDe(m) + One(Live(m.de.load)) }

  ghost predicate TraceRight(retired: seq<Instr>, s0: SeqState) {
    forall k: nat | k < |retired| :: retired[k] == Done(St(s0, k))
  }

  /** `l` holds a live jump that is about to write register `n`. */
  predicate Relinks(l: Latch<Instr>, n: RegNum) { n != 0 && Live(l) && Redirects(l.instr) && WriterOf(l.instr, n) }

  /** Every register has the sequential value, unless the jump in `l` is about to overwrite it. */
  ghost predicate RegsAgree(rf: RegState, s: SeqState, l: Latch<Instr>) {
    forall n: RegNum :: !Relinks(l, n) ==> rf.regs[n] == s.regs[n]
  }

  predicate NoCancelInStores(m: Machine) {
    !m.fd.store.hazard && !m.de.store.hazard && !m.em.store.hazard && !m.mw.store.hazard
  }

  /** The back end holds consecutive positions of the sequential run. */
  ghost predicate BackEnd(m: Machine, s0: SeqState) { LocksConserved(m) && InStep(m, s0) }

  ghost predicate InStep(m: Machine, s0: SeqState) {
    && NoCancelInStores(m) && TraceRight(m.retired, s0) && m.ic == |m.retired|
    && RegsAgree(m.rf, St(s0, PosMw(m)), m.mw.load)
    && !m.mw.load.hazard && !m.em.load.hazard
    && (Live(m.mw.load) ==> m.mw.load.instr == Done(St(s0, PosMw(m))))
    && (Live(m.em.load) ==> Complete(m.em.load.instr, m.mem) == Done(St(s0, PosEm(m))))
    && m.mem == St(s0, PosEm(m)).mem && m.sq.queue == [] && m.sq.pending == NO_STORE
    && (Live(m.de.load) ==>
          m.de.load.instr == Issue(St(s0, PosDe(m)), m.de.load.instr.rd.value, m.de.load.instr.taken))
  }

  /** `w` is the word at `pc` in the memory of one of the last positions before `z`. */
  ghost predicate FetchedBefore(s0: SeqState, z: nat, last: nat, pc: Word, w: Word) {
    exists j: nat :: j <= last && j <= z <= j + 3 && w == WordAt(St(s0, j).mem, pc)
  }

  predicate NoStops(m: Machine) { m.wf.stop == 0 && m.fd.stop == 0 && m.de.stop == 0 }

  predicate FetchReady(m: Machine) {
    !m.wf.load.isStall && !m.wf.load.hazard && !m.wf.store.isStall && !m.wf.store.hazard && !m.wf.store.isJump
  }

  predicate Starting(m: Machine, s0: SeqState) {
    && m.fd.load.isStall && m.de.load.isStall && m.em.load.isStall && m.mw.load.isStall
    && !m.wf.load.isJump && m.wf.load.pc == s0.pc && m.retired == []
  }

  /** Straight-line fetch. Behind a jump or ECALL in DE the word in FD is the not yet cancelled wrong path. */
  ghost predicate Straight(cfg: Config, m: Machine, s0: SeqState) {
    && LiveFD(m.fd.load)
    && !m.wf.load.isJump && m.wf.load.pc == Following(m.fd.load.pc)
    && m.fd.load.pc == (if Live(m.de.load) then Following(m.de.load.instr.pc) else St(s0, PosDe(m)).pc)
    && FetchedBefore(s0, PosFd(m), PosDe(m), m.fd.load.pc, m.fd.load.word)
    && (Live(m.de.load) && Live(m.em.load) ==> !Redirects(m.em.load.instr))
    && (!cfg.repaired ==> !m.de.load.hazard)
  }

  /** The cycle after a taken jump executed: DE and FD are cancelled, and the rd value a cancelled
      writer will restore is the sequential one unless the jump is about to overwrite it. */
  ghost predicate Squashing(cfg: Config, m: Machine, s0: SeqState) {
    && !m.fd.load.isStall && m.fd.load.hazard && !m.de.load.isStall && m.de.load.hazard
    && Live(m.em.load) && Redirects(m.em.load.instr)
    && m.wf.load.isJump && m.wf.load.pcJump == m.em.load.instr.branchAddr
    && (!cfg.repaired ==> StaleHarmless(m, s0))
  }

  ghost predicate StaleHarmless(m: Machine, s0: SeqState) {
    var i := m.de.load.instr;
    WritesRd(i.typ) && i.rd.name != 0 && !WriterOf(m.em.load.instr, i.rd.name) ==>
      i.rd == St(s0, PosEm(m)).regs[i.rd.name]
  }

  ghost predicate Running(cfg: Config, m: Machine, s0: SeqState) {
    && !m.halted && NoStops(m) && FetchReady(m) && !St(s0, PosDe(m)).halted
    && (Starting(m, s0) || Straight(cfg, m, s0) || Squashing(cfg, m, s0))
  }

  lemma RunningIsAwake(cfg: Config, m: Machine, s0: SeqState)
    requires Running(cfg, m, s0)
    ensures !m.halted
  {
    hide St, Done, Straight, Starting, Squashing;
  }

  predicate FrontHeld(m: Machine, stop: nat) {
    && m.wf.stop == stop && m.fd.stop == stop && m.de.stop == stop
    && !m.de.load.isStall && m.de.load.hazard && m.de.load.instr.typ == System
    && !m.wf.load.isStall && !m.wf.load.hazard
  }

  /** ECALL executed: it is in EM, then in MW, and the front end holds still. */
  ghost predicate DrainingEm(m: Machine, s0: SeqState) {
    && !m.halted && FrontHeld(m, 4) && Live(m.em.load) && m.em.load.instr.name == ECALL
    && !St(s0, PosEm(m)).halted
  }

  ghost predicate DrainingMw(m: Machine, s0: SeqState) {
    && !m.halted && FrontHeld(m, 3) && m.em.load.isStall && Live(m.mw.load) && m.mw.load.instr.name == ECALL
    && !St(s0, PosMw(m)).halted
  }

  /** ECALL retired, and with it exactly the sequential run up to its halt. */
  ghost predicate Finished(m: Machine, s0: SeqState) {
    && m.halted && m.em.load.isStall && m.mw.load.isStall && !Live(m.de.load)
    && |m.retired| > 0 && m.retired[|m.retired| - 1].name == ECALL && !St(s0, |m.retired| - 1).halted
  }

  /** The inductive shape of the guarded run. */
  ghost predicate Refines(cfg: Config, m: Machine, s0: SeqState) {
    BackEnd(m, s0) && (Running(cfg, m, s0) || DrainingEm(m, s0) || DrainingMw(m, s0) || Finished(m, s0))
  }

  // ---- WB, MEM and EX of one cycle ----

  /** Memory once the store now in MEM, if any, has been written. */
  ghost predicate StorePending(m: Machine, before: Mem, after: Mem) {
    && m.sq.queue == [] && (m.sq.pending.size > 0 ==> InBounds(m.mem, m.sq.pending.addr, m.sq.pending.size))
    && (m.mem == before || m.mem == after) && Apply(m.sq.pending, m.mem) == after
  }

  function PosDone(m: Machine, x: nat): nat { x + One(!m.mw.store.isStall) }
  function PosIssue(m: Machine, x: nat): nat { PosDone(m, x) + One(!m.em.store.isStall) }

  /** The instruction in MEM is complete. */
  ghost predicate BackEndAccessed(m: Machine, s0: SeqState, x: nat) {
    && TraceRight(m.retired, s0) && m.ic == |m.retired| == x
    && !m.em.store.hazard && !m.mw.store.hazard
    && (m.mw.store.isStall <==> !Live(m.em.load))
    && (!m.mw.store.isStall ==> m.mw.store.instr == Done(St(s0, x)))
    && StorePending(m, St(s0, x).mem, St(s0, PosDone(m, x)).mem)
  }

  /** What WB, MEM and EX have put in place for the next boundary: everything up to EM is complete, the
      instruction from DE is executed. `x` is the position of the instruction now in MEM. */
  ghost predicate Staged(m: Machine, s0: SeqState, x: nat) {
    && BackEndAccessed(m, s0, x) && RegsAgree(m.rf, St(s0, x), m.mw.store)
    && (!m.em.store.isStall ==>
          Complete(m.em.store.instr, St(s0, PosDone(m, x)).mem) == Done(St(s0, PosDone(m, x))))
  }

  ghost predicate Ready(m: Machine, s0: SeqState, x: nat) {
    AfterEx(m) && Staged(m, s0, x) && (Live(m.de.load) ==> !m.em.store.isStall)
  }

  lemma StStep(s0: SeqState, k: nat)
    requires !St(s0, k).halted
    ensures St(s0, k + 1).pc == NextPc(Done(St(s0, k)))
    ensures St(s0, k + 1).regs == NextRegs(St(s0, k).regs, Done(St(s0, k)))
    ensures St(s0, k + 1).mem == NextMem(St(s0, k).mem, Done(St(s0, k)))
    ensures St(s0, k + 1).halted == (Done(St(s0, k)).name == ECALL)
  {
    hide Done, NextPc, NextRegs, NextMem, Following;
  }

  /** A halted state stays halted, so what came before a running one was running. */
  lemma {:induction false} RunningBefore(s0: SeqState, j: nat, k: nat)
    requires j <= k && !St(s0, k).halted
    ensures !St(s0, j).halted
    decreases k
  {
    hide Done, Following;
    if j < k { RunningBefore(s0, j, k - 1); }
  }

  lemma {:induction false} SameMemSize(s0: SeqState, k: nat)
    ensures |St(s0, k).mem| == |s0.mem|
  {
    hide Done, NextRegs, NextPc, Following;
    if k > 0 { SameMemSize(s0, k - 1); }
  }

  /** After WB: MW's instruction is retired and the registers are the sequential ones. */
  ghost predicate Retired(m: Machine, s0: SeqState, x: nat) {
    && AfterWb(m) && TraceRight(m.retired, s0) && m.ic == |m.retired| == x && m.rf.regs == St(s0, x).regs
    && (Live(m.em.load) ==> Complete(m.em.load.instr, m.mem) == Done(St(s0, x)))
    && m.mem == St(s0, x).mem && m.sq.queue == [] && m.sq.pending == NO_STORE
    && !m.em.load.hazard && !m.mw.store.hazard && !m.em.store.hazard
  }

  lemma RetireRefines(cfg: Config, m: Machine, s0: SeqState)
    requires BackEnd(m, s0) && (Live(m.mw.load) ==> !St(s0, PosMw(m)).halted)
    ensures Retired(WriteBack(cfg, m), s0, PosEm(m))
  {
    hide Done, Complete, St, Issue, Following;
    WbStep(cfg, m);
    if Live(m.mw.load) { StStep(s0, PosMw(m)); }
    var w := WriteBack(cfg, m);
    forall k | 0 <= k < 32 ensures w.rf.regs[k] == St(s0, PosEm(m)).regs[k] {
      var n: RegNum := k;
      assert !(n != 0 && Live(m.mw.load) && WriterOf(m.mw.load.instr, n)) ==> m.rf.regs[n] == St(s0, PosMw(m)).regs[n];
    }
    assert w.rf.regs == St(s0, PosEm(m)).regs;
  }

  lemma ReadDataEmpty(cfg: Config, m: Machine, i: Instr)
    requires m.sq.queue == [] && InBounds(m.mem, Index(i.addr), i.accSize)
    ensures ReadData(cfg, m, i) == Ok(ReadWord(m.mem, Index(i.addr), i.accSize))
  {
    hide SearchResult, ReadWord, FromMemory, Following;
    EmptyQueueReads(m.mem, Index(i.addr), i.accSize, 0);
    FromMemoryIsRead(m.mem, Index(i.addr), i.accSize);
  }

  lemma CompleteKeeps(i: Instr, mem: Mem)
    ensures Complete(i, mem) == i.(rd := Complete(i, mem).rd) && Complete(i, mem).rd.name == i.rd.name
    ensures !IsLoad(i) ==> Complete(i, mem) == i
  {
    hide Loaded, ReadWord, Following;
  }

  lemma StallRefines(cfg: Config, m: Machine, s0: SeqState, x: nat)
    requires Retired(m, s0, x) && !Live(m.em.load)
    ensures MemoryAccess(cfg, m).Ok?
    ensures var w := MemoryAccess(cfg, m).value; BackEndAccessed(w, s0, x) && w.rf.regs == St(s0, x).regs
  {
    hide Done, St, WriteWord, AfterWb, TraceRight, Following;
    BubbleWritesNothing(m.mem);
  }

  /** What MEM does to a live instruction `i`: it passes `j` on, keeping everything else. */
  predicate Passed(m: Machine, w: Machine, j: Instr) {
    && w.rf == m.rf && w.retired == m.retired && w.ic == m.ic && w.em.store == m.em.store
    && w.em.load == m.em.load.(instr := j)
    && w.mw.store == m.mw.store.(isStall := false, pc := m.em.load.pc, instr := j)
  }

  lemma AccessLoad(cfg: Config, m: Machine)
    requires Live(m.em.load) && IsLoad(m.em.load.instr) && m.sq.queue == []
    requires InBounds(m.mem, Index(m.em.load.instr.addr), m.em.load.instr.accSize)
    ensures MemoryAccess(cfg, m).Ok?
    ensures var w := MemoryAccess(cfg, m).value;
      Passed(m, w, Complete(m.em.load.instr, m.mem)) && w.mem == m.mem && w.sq == m.sq
  {
    hide ReadData, ReadWord, Loaded, Following;
    ReadDataEmpty(cfg, m, m.em.load.instr);
  }

  lemma PushPends(m: Machine, a: nat, n: nat, d: Word)
    requires m.sq.queue == [] && m.sq.pending == NO_STORE && InBounds(m.mem, a, n)
    ensures StorePending(m.(sq := Pushed(m.sq, a, n, d)), m.mem, WriteWord(m.mem, a, n, d))
  {
    hide WriteWord, InBounds, Following;
  }

  /** Queued or direct, the store's bytes are pending or written. */
  lemma StoreDataPends(cfg: Config, m: Machine, i: Instr)
    requires m.sq.queue == [] && m.sq.pending == NO_STORE && InBounds(m.mem, Index(i.addr), i.accSize)
    ensures StoreData(cfg, m, i).Ok?
    ensures var w := StoreData(cfg, m, i).value;
      && w == m.(mem := w.mem, sq := w.sq)
      && StorePending(w, m.mem, WriteWord(m.mem, Index(i.addr), i.accSize, i.rs2.value))
  {
    hide WriteWord, InBounds, Index, Pushed, Following;
    PushPends(m, Index(i.addr), i.accSize, i.rs2.value);
    BubbleWritesNothing(WriteWord(m.mem, Index(i.addr), i.accSize, i.rs2.value));
  }

  lemma AccessStore(cfg: Config, m: Machine)
    requires Live(m.em.load) && IsStore(m.em.load.instr) && m.sq.queue == [] && m.sq.pending == NO_STORE
    requires InBounds(m.mem, Index(m.em.load.instr.addr), m.em.load.instr.accSize)
    ensures MemoryAccess(cfg, m).Ok?
    ensures var w := MemoryAccess(cfg, m).value;
      Passed(m, w, m.em.load.instr) && StorePending(w, m.mem, NextMem(m.mem, m.em.load.instr))
  {
    hide WriteWord, StoreData, InBounds, Apply, Following;
    StoreDataPends(cfg, m, m.em.load.instr);
  }

  lemma AccessOther(cfg: Config, m: Machine)
    requires Live(m.em.load) && !IsLoad(m.em.load.instr) && !IsStore(m.em.load.instr)
    ensures MemoryAccess(cfg, m).Ok?
    ensures var w := MemoryAccess(cfg, m).value;
      Passed(m, w, m.em.load.instr) && w.mem == m.mem && w.sq == m.sq
  {
  }

  lemma AccessRefines(cfg: Config, m: Machine, s0: SeqState, x: nat)
    requires Retired(m, s0, x) && Live(m.em.load) && !St(s0, x).halted
    requires var i := Done(St(s0, x)); i.acc != NoAccess ==> InBounds(St(s0, x).mem, Index(i.addr), i.accSize)
    ensures MemoryAccess(cfg, m).Ok?
    ensures var w := MemoryAccess(cfg, m).value; BackEndAccessed(w, s0, x) && w.rf.regs == St(s0, x).regs
  {
    hide Done, St, WriteWord, AfterWb, TraceRight, NextRegs, NextPc, MemoryAccess, Complete, Following;
    StStep(s0, x);
    BubbleWritesNothing(m.mem);
    var i := m.em.load.instr;
    CompleteKeeps(i, m.mem);
    if IsLoad(i) {
      AccessLoad(cfg, m);
    } else if IsStore(i) {
      AccessStore(cfg, m);
    } else {
      AccessOther(cfg, m);
    }
  }

  /** What the EX release of a cancelled writer may write, seen before it: as written, the captured rd. */
  ghost predicate ReleaseHarmless(cfg: Config, m: Machine, s: SeqState) {
    var i := m.de.load.instr;
    !cfg.repaired && !m.de.load.isStall && m.de.load.hazard && WritesRd(i.typ) && i.rd.name != 0
    && !Relinks(m.em.load, i.rd.name)
    ==> i.rd == s.regs[i.rd.name]
  }

  lemma ReleaseAgrees(cfg: Config, rf: RegState, i: Instr, s: SeqState, l: Latch<Instr>)
    requires rf.regs == s.regs
    requires !cfg.repaired && WritesRd(i.typ) && i.rd.name != 0 && !Relinks(l, i.rd.name) ==>
      i.rd == s.regs[i.rd.name]
    ensures RegsAgree(Release(cfg, rf, i), s, l)
  {
  }

  lemma NothingToRelease(rf: RegState, s: SeqState, l: Latch<Instr>)
    requires rf.regs == s.regs
    ensures RegsAgree(rf, s, l)
  {
  }

  lemma ExecuteRefines(cfg: Config, m: Machine, s0: SeqState, x: nat)
    requires AfterMem(m) && BackEndAccessed(m, s0, x) && m.rf.regs == St(s0, x).regs
    requires Live(m.de.load) ==>
      && Recognize(CodeAt(St(s0, PosDone(m, x)))).name != Unnamed
      && m.de.load.instr == Issue(St(s0, PosDone(m, x)), m.de.load.instr.rd.value, m.de.load.instr.taken)
    requires ReleaseHarmless(cfg, m, St(s0, x))
    ensures Ready(ExecuteStage(cfg, m), s0, x)
    ensures !ExecuteStage(cfg, m).em.store.isStall <==> Live(m.de.load)
  {
    hide St, Done, Complete, Issue, Execute, Release, AfterEx, Recognize, CodeAt, Redirects, TraceRight, Apply,
         ExecuteStage, RegsAgree, Following;
    ExStep(cfg, m);
    ExecuteKeeps(cfg, m);
    NothingToRelease(m.rf, St(s0, x), m.mw.store);
    if !m.de.load.isStall && m.de.load.hazard {
      ReleaseAgrees(cfg, m.rf, m.de.load.instr, St(s0, x), m.mw.store);
    }
    if Live(m.de.load) {
      IssueIrrelevance(St(s0, PosDone(m, x)), m.de.load.instr.rd.value, m.de.load.instr.taken);
    }
  }

  predicate SameFront(m: Machine, w: Machine) {
    w.wf == m.wf && w.fd == m.fd && w.de == m.de && w.clocks == m.clocks && w.branches == m.branches && w.stops == m.stops
  }

  lemma WbFrame(cfg: Config, m: Machine)
    ensures var w := WriteBack(cfg, m);
      && SameFront(m, w) && w.em == m.em && w.mem == m.mem && w.sq == m.sq
      && w.halted == (m.halted || (Live(m.mw.load) && m.mw.load.instr.name == ECALL))
  {
    hide Release, WriteBackReg, Following;
  }

  /** MEM leaves the front end alone. */
  lemma MemFrame(cfg: Config, m: Machine)
    requires MemoryAccess(cfg, m).Ok?
    ensures var w := MemoryAccess(cfg, m).value;
      && SameFront(m, w) && w.halted == m.halted
      && w.em.load.isStall == m.em.load.isStall && w.em.load.hazard == m.em.load.hazard
      && w.em.load.instr.typ == m.em.load.instr.typ && w.em.load.instr.rd.name == m.em.load.instr.rd.name
      && Redirects(w.em.load.instr) == Redirects(m.em.load.instr)
      && (Live(m.em.load) ==> w.mw.store.instr == w.em.load.instr)
  {
    hide ReadData, Loaded, Pushed, WriteWord, Release, Following;
  }

  /** What the boundary must provide for WB, MEM and EX to go right. */
  ghost predicate BackEndGood(cfg: Config, m: Machine, s0: SeqState) {
    && BackEnd(m, s0)
    && (Live(m.mw.load) ==> !St(s0, PosMw(m)).halted)
    && (Live(m.em.load) ==>
          && !St(s0, PosEm(m)).halted
          && var i := Done(St(s0, PosEm(m))); i.acc != NoAccess ==> InBounds(m.mem, Index(i.addr), i.accSize))
    && (Live(m.de.load) ==> Recognize(CodeAt(St(s0, PosDe(m)))).name != Unnamed)
    && ReleaseHarmless(cfg, m, St(s0, PosEm(m)))
  }

  /** `w` is what decode finds in the cycle that starts in `m`. */
  ghost predicate AtDecode(m: Machine, w: Machine, s0: SeqState) {
    && Ready(w, s0, PosEm(m)) && FrontAfterEx(m, w) && w.clocks == m.clocks
    && w.halted == (m.halted || (Live(m.mw.load) && m.mw.load.instr.name == ECALL))
    && (w.mw.store.isStall <==> !Live(m.em.load)) && (w.em.store.isStall <==> !Live(m.de.load))
    && (Live(m.de.load) ==> w.em.store.instr == Execute(m.de.load.instr))
    && w.de.load == (if Live(m.de.load) then m.de.load.(instr := Execute(m.de.load.instr), hazard := m.de.load.instr.typ == System)
                     else m.de.load)
  }

  /** WB and MEM. */
  lemma BackStagesRefine(cfg: Config, m: Machine, s0: SeqState)
    requires BackEndGood(cfg, m, s0)
    ensures MemoryAccess(cfg, WriteBack(cfg, m)).Ok?
    ensures var w := MemoryAccess(cfg, WriteBack(cfg, m)).value;
      && AfterMem(w) && BackEndAccessed(w, s0, PosEm(m)) && w.rf.regs == St(s0, PosEm(m)).regs
      && SameFront(m, w) && PosDone(w, PosEm(m)) == PosDe(m) && ReleaseHarmless(cfg, w, St(s0, PosEm(m)))
      && w.halted == (m.halted || (Live(m.mw.load) && m.mw.load.instr.name == ECALL))
      && (w.mw.store.isStall <==> !Live(m.em.load))
  {
    hide Done, St, WriteBack, MemoryAccess, Complete, Issue, Recognize, CodeAt, AfterWb, AfterMem, TraceRight,
         RegsAgree, StorePending, LocksConserved, Following;
    RetireRefines(cfg, m, s0);
    var m1 := WriteBack(cfg, m);
    WbFrame(cfg, m);
    if Live(m1.em.load) { AccessRefines(cfg, m1, s0, PosEm(m)); } else { StallRefines(cfg, m1, s0, PosEm(m)); }
    MemStep(cfg, m1);
    MemFrame(cfg, m1);
  }

  lemma BeforeDecodeRefines(cfg: Config, m: Machine, s0: SeqState)
    requires BackEndGood(cfg, m, s0)
    ensures BeforeDecode(cfg, m).Ok? && AtDecode(m, BeforeDecode(cfg, m).value, s0)
  {
    hide Done, St, WriteBack, MemoryAccess, ExecuteStage, Execute, Complete, Issue, Recognize, CodeAt, AfterMem,
         AfterEx, TraceRight,
         RegsAgree, Redirects, LocksConserved, Following, BackEndAccessed, ReleaseHarmless, Release;
    BackStagesRefine(cfg, m, s0);
    var m2 := MemoryAccess(cfg, WriteBack(cfg, m)).value;
    ExecuteRefines(cfg, m2, s0, PosEm(m));
    ExecuteKeeps(cfg, m2);
  }

  // ---- ID: every captured operand is the sequential one ----

  predicate LoadHit(m: Machine, n: RegNum) {
    m.rf.locks[n] != 0 && HitsEx(m, n) && m.de.load.instr.acc == Read
  }

  /** `w` is `m` but for the bypass counters. */
  predicate Untouched(m: Machine, w: Machine) {
    w == m.(bypassesMemEx := w.bypassesMemEx, bypassesWbEx := w.bypassesWbEx)
  }

  lemma StRegs(s0: SeqState, k: nat, n: RegNum)
    requires !St(s0, k).halted
    ensures St(s0, k + 1).regs[n]
         == if n != 0 && WriterOf(Done(St(s0, k)), n) then Done(St(s0, k)).rd else St(s0, k).regs[n]
  {
    hide Done, St, Following;
    StStep(s0, k);
  }

  /** The newest write to `n` still in flight, else the register file. */
  lemma NewestWrite(m: Machine, s0: SeqState, x: nat, n: RegNum)
    requires Ready(m, s0, x) && n != 0
    requires !m.mw.store.isStall ==> !St(s0, x).halted
    requires !m.em.store.isStall ==> !St(s0, PosDone(m, x)).halted
    ensures var v := St(s0, PosIssue(m, x)).regs[n];
      if !m.em.store.isStall && WriterOf(m.em.store.instr, n) then !IsLoad(m.em.store.instr) ==> v == m.em.store.instr.rd
      else if !m.mw.store.isStall && WriterOf(m.mw.store.instr, n) then v == m.mw.store.instr.rd
      else v == m.rf.regs[n]
  {
    hide Done, St, Complete, StorePending, TraceRight, AfterEx, Following;
    if !m.mw.store.isStall { StRegs(s0, x, n); }
    if !m.em.store.isStall {
      StRegs(s0, PosDone(m, x), n);
      CompleteKeeps(m.em.store.instr, St(s0, PosDone(m, x)).mem);
    }
    assert !(Live(m.mw.store) && WriterOf(m.mw.store.instr, n)) ==> m.rf.regs[n] == St(s0, x).regs[n];
  }

  /** Whatever the source of the value (register file, EX result, MEM result), it is the sequential one. */
  lemma OperandRight(cfg: Config, m: Machine, s0: SeqState, x: nat, n: RegNum, need: NeededIn)
    requires Ready(m, s0, x) && !LoadHit(m, n)
    requires !m.mw.store.isStall ==> !St(s0, x).halted
    requires !m.em.store.isStall ==> !St(s0, PosDone(m, x)).halted
    ensures ReadOperand(cfg, m, n, need).Ok?
    ensures var r := ReadOperand(cfg, m, n, need).value;
      Untouched(m, r.0) && r.1 == St(s0, PosIssue(m, x)).regs[n]
  {
    hide Done, St, Complete, StorePending, TraceRight, Following;
    if n == 0 {
      ZeroRight(m, s0, x);
    } else {
      NewestWrite(m, s0, x, n);
      assert m.rf.locks[n] + Owes(m.em.store, n) + Owes(m.mw.store, n) == 0;
    }
  }

  lemma ZeroRight(m: Machine, s0: SeqState, x: nat)
    requires Ready(m, s0, x)
    requires !m.mw.store.isStall ==> !St(s0, x).halted
    requires !m.em.store.isStall ==> !St(s0, PosDone(m, x)).halted
    ensures m.rf.regs[0] == St(s0, PosIssue(m, x)).regs[0]
  {
    hide Done, St, Complete, StorePending, TraceRight, Following;
    if !m.mw.store.isStall { StRegs(s0, x, 0); }
    if !m.em.store.isStall { StRegs(s0, PosDone(m, x), 0); }
  }

  predicate SourceHit(m: Machine, w: Word) {
    var t := Recognize(w).typ;
    (ReadsRs1(t) && LoadHit(m, Rs1(w))) || (ReadsRs2(t) && LoadHit(m, Rs2(w)))
  }

  /** The operands read for word `w` are the registers of `s`. */
  predicate SourcesAre(r: (Machine, Register, Register), m: Machine, w: Word, s: SeqState) {
    && Untouched(m, r.0)
    && (ReadsRs1(Recognize(w).typ) ==> r.1 == s.regs[Rs1(w)])
    && (ReadsRs2(Recognize(w).typ) ==> r.2 == s.regs[Rs2(w)])
  }

  lemma SourcesRight(cfg: Config, m: Machine, s0: SeqState, x: nat, w: Word)
    requires Ready(m, s0, x) && !SourceHit(m, w)
    requires !m.mw.store.isStall ==> !St(s0, x).halted
    requires !m.em.store.isStall ==> !St(s0, PosDone(m, x)).halted
    ensures ReadSources(cfg, m, w).Ok?
    ensures SourcesAre(ReadSources(cfg, m, w).value, m, w, St(s0, PosIssue(m, x)))
  {
    hide Recognize, Rs1, Rs2, NeedOfRs2, ReadOperand, St, Complete, StorePending, TraceRight, Done, RegsAgree,
         AfterEx, Following;
    var t := Recognize(w).typ;
    var a := m;
    if ReadsRs1(t) {
      OperandRight(cfg, m, s0, x, Rs1(w), NeedExecute);
      a := ReadOperand(cfg, m, Rs1(w), NeedExecute).value.0;
    }
    if ReadsRs2(t) {
      ReadyUntouched(m, a, s0, x);
      OperandRight(cfg, a, s0, x, Rs2(w), NeedOfRs2(w));
    }
  }

  lemma ReadyUntouched(m: Machine, w: Machine, s0: SeqState, x: nat)
    requires Ready(m, s0, x) && Untouched(m, w)
    ensures Ready(w, s0, x)
  {
    hide Done, St, Complete, TraceRight, Apply, RegsAgree, Following;
  }

  /** Decode without a load-use hit: one more lock and the new instruction in the DE store latch. */
  lemma DecodeRight(cfg: Config, m: Machine, s0: SeqState, x: nat, junk: bool)
    requires Ready(m, s0, x) && LiveFD(m.fd.load) && m.de.stop == 0 && !SourceHit(m, m.fd.load.word)
    requires !m.mw.store.isStall ==> !St(s0, x).halted
    requires !m.em.store.isStall ==> !St(s0, PosDone(m, x)).halted
    ensures DecodeStage(cfg, m, junk).Ok?
    ensures var w := DecodeStage(cfg, m, junk).value; var i := w.de.store.instr; var l := m.fd.load;
      && w == m.(rf := w.rf, de := m.de.(store := Latch(false, m.de.store.hazard, l.pc, i)),
                 bypassesMemEx := w.bypassesMemEx, bypassesWbEx := w.bypassesWbEx)
      && w.rf.regs == m.rf.regs && i.typ == Recognize(l.word).typ && i.pc == l.pc
      && (WritesRd(i.typ) ==> i.rd == m.rf.regs[Rd(l.word)])
      && (var z := St(s0, PosIssue(m, x)); CodeAt(z) == l.word && z.pc == l.pc ==> i == Issue(z, i.rd.value, i.taken))
  {
    hide Recognize, Rs1, Rs2, Rd, ReadSources, Immediate, St, Done, Complete, StorePending, TraceRight,
         RegsAgree, SourceHit, CodeAt, Following;
    SourcesRight(cfg, m, s0, x, m.fd.load.word);
  }

  // ---- IF and the latch update ----

  function Finish(m: Machine): Outcome<Machine> {
    var f :- Fetch(m);
    Update(f)
  }

  /** The back end of the next boundary. */
  ghost predicate BackCommitted(m: Machine, n: Machine, s0: SeqState, x: nat) {
    && TraceRight(n.retired, s0) && n.ic == |n.retired| == x && RegsAgree(n.rf, St(s0, x), n.mw.load)
    && !n.mw.load.hazard && !n.em.load.hazard && !n.em.store.hazard && !n.mw.store.hazard
    && (Live(n.mw.load) ==> n.mw.load.instr == Done(St(s0, x)))
    && (Live(n.em.load) ==> Complete(n.em.load.instr, n.mem) == Done(St(s0, PosEm(n))))
    && n.mem == St(s0, PosEm(n)).mem && n.sq.queue == [] && n.sq.pending == NO_STORE
    && PosEm(n) == PosDone(m, x) && PosDe(n) == PosIssue(m, x)
    && n.em.load == m.em.store && n.mw.load == m.mw.store && n.de == Swap(m.de, CLEAR)
    && n.halted == m.halted && n.clocks == m.clocks + 1 && n.retired == m.retired
  }

  lemma UpdateCommits(m: Machine, s0: SeqState, x: nat)
    requires Staged(m, s0, x) && m.em.stop == 0 && m.mw.stop == 0
    ensures Update(m).Ok?
    ensures var n := Update(m).value;
      BackCommitted(m, n, s0, x) && n.wf == Swap(m.wf, WF_CLEAR) && n.fd == Swap(m.fd, FD_CLEAR)
  {
    hide Done, St, Complete, TraceRight, RegsAgree, Apply, Following;
    assert Advance(m.sq, m.mem).Ok?;
  }

  /** IF fetches: the word and the next pc reach the load latches. */
  lemma FetchCommits(m: Machine, s0: SeqState, x: nat)
    requires Staged(m, s0, x) && m.em.stop == 0 && m.mw.stop == 0 && m.wf.stop == 0 && m.fd.stop == 0
    requires !m.wf.load.isStall && !m.wf.load.hazard && Fetchable(s0.mem, FetchPc(m.wf.load))
    ensures Finish(m).Ok?
    ensures var n := Finish(m).value; var pc := FetchPc(m.wf.load);
      && BackCommitted(m, n, s0, x)
      && n.fd == Buffer(FD_CLEAR, FD(false, m.fd.store.hazard, pc, WordAt(m.mem, pc)), 0)
      && n.wf == Buffer(WF_CLEAR, m.wf.store.(pc := Following(pc)), 0)
    ensures m.mem == St(s0, x).mem || m.mem == St(s0, PosDone(m, x)).mem
  {
    hide Done, St, Complete, TraceRight, RegsAgree, Update, ReadWord, Index, Following;
    SameMemSize(s0, x);
    SameMemSize(s0, PosDone(m, x));
    StagedFetch(m, s0, x);
    UpdateCommits(Fetch(m).value, s0, x);
  }

  lemma StagedFetch(m: Machine, s0: SeqState, x: nat)
    requires Staged(m, s0, x) && Fetch(m).Ok?
    ensures Staged(Fetch(m).value, s0, x)
  {
    hide Done, St, Complete, TraceRight, RegsAgree, ReadWord, Index, InBounds, Apply, Following;
  }

  /** IF is held: only the stop counts move. */
  lemma HoldCommits(m: Machine, s0: SeqState, x: nat)
    requires Staged(m, s0, x) && m.em.stop == 0 && m.mw.stop == 0 && m.wf.stop > 0 && m.fd.stop > 0
    requires !m.wf.load.isStall && !m.wf.load.hazard
    ensures Finish(m).Ok?
    ensures var n := Finish(m).value;
      && BackCommitted(m, n, s0, x)
      && n.fd == m.fd.(stop := m.fd.stop - 1, store := m.fd.store.(isStall := false))
      && n.wf == m.wf.(stop := m.wf.stop - 1)
  {
    hide Done, St, Complete, TraceRight, RegsAgree, Update, ReadWord, Index, Following;
    StagedFetch(m, s0, x);
    UpdateCommits(Fetch(m).value, s0, x);
  }

  // ---- The cycle, case by case ----

  function AfterDecode(cfg: Config, m: Machine, junk: bool): Outcome<Machine> {
    var d :- DecodeStage(cfg, m, junk);
    Finish(d)
  }

  /** The next boundary but for the locks, which are conserved anyway. */
  ghost predicate Lands(cfg: Config, r: Outcome<Machine>, s0: SeqState) {
    r.Ok? && InStep(r.value, s0)
    && (Running(cfg, r.value, s0) || DrainingEm(r.value, s0) || DrainingMw(r.value, s0) || Finished(r.value, s0))
  }

  lemma FetchedHere(s0: SeqState, x: nat, last: nat, z: nat, mem: Mem, pc: Word)
    requires x <= last && z <= x + 3 && last <= z
    requires exists j: nat :: x <= j <= last && mem == St(s0, j).mem
    ensures FetchedBefore(s0, z, last, pc, WordAt(mem, pc))
  {
    hide St, WordAt, Following;
  }

  /** Decode finds nothing to decode. */
  lemma DecodeIdle(cfg: Config, m: Machine, s0: SeqState, x: nat, junk: bool)
    requires Ready(m, s0, x) && (!LiveFD(m.fd.load) || m.de.stop > 0)
    ensures var d := DecodeStage(cfg, m, junk);
      d.Ok? && d.value == m.(de := m.de.(store := m.de.store.(isStall := !LiveFD(m.fd.load)))) && Staged(d.value, s0, x)
  {
    hide Done, St, Complete, TraceRight, RegsAgree, Apply, Following;
  }

  lemma ReadyStops(m: Machine, s0: SeqState, x: nat)
    requires Ready(m, s0, x)
    ensures m.em.stop == 0 && m.mw.stop == 0
  {
    hide Staged, Following;
  }

  lemma StartState(s0: SeqState)
    ensures St(s0, 0) == s0
  {
  }

  /** The back end of the next boundary is in step once the new DE instruction is. */
  lemma CommitInStep(d: Machine, n: Machine, s0: SeqState, x: nat)
    requires BackCommitted(d, n, s0, x) && !n.fd.store.hazard && !n.de.store.hazard
    requires Live(n.de.load) ==>
      n.de.load.instr == Issue(St(s0, PosDe(n)), n.de.load.instr.rd.value, n.de.load.instr.taken)
    ensures InStep(n, s0)
  {
    hide Done, Complete, TraceRight, RegsAgree, St, Issue, Following;
  }

  /** While the sequential run goes on behind MW, the pipeline does not stop. */
  lemma StillRunning(m: Machine, w: Machine, s0: SeqState)
    requires InStep(m, s0) && AtDecode(m, w, s0) && !m.halted && !St(s0, PosEm(m)).halted
    ensures !w.halted
  {
    hide Done, Complete, TraceRight, RegsAgree, St, Issue, Execute, Ready, Redirects, Following;
    if Live(m.mw.load) {
      RunningBefore(s0, PosMw(m), PosEm(m));
      StStep(s0, PosMw(m));
    }
  }

  /** A boundary with an empty DE latch and a word fetched where the sequential run is. */
  lemma LandStraight(cfg: Config, d: Machine, n: Machine, s0: SeqState, x: nat)
    requires BackCommitted(d, n, s0, x) && !Live(n.de.load) && !n.de.load.hazard
    requires !n.de.store.hazard && n.de.stop == 0 && !n.halted && !St(s0, PosDe(n)).halted
    requires var pc := St(s0, PosDe(n)).pc;
      && n.fd == Buffer(FD_CLEAR, FD(false, false, pc, WordAt(d.mem, pc)), 0)
      && n.wf == Buffer(WF_CLEAR, WF(false, false, false, Following(pc), n.wf.load.pcJump), 0)
    requires d.mem == St(s0, x).mem || d.mem == St(s0, PosDone(d, x)).mem
    ensures Lands(cfg, Ok(n), s0)
  {
    hide Done, Complete, TraceRight, RegsAgree, St, Issue, CodeAt, FetchedBefore, Following;
    CommitInStep(d, n, s0, x);
    FetchedHere(s0, x, PosDe(n), PosFd(n), d.mem, St(s0, PosDe(n)).pc);
    assert Straight(cfg, n, s0);
  }

  lemma StartCase(cfg: Config, m: Machine, w: Machine, s0: SeqState, junk: bool)
    requires InStep(m, s0) && AtDecode(m, w, s0) && Starting(m, s0)
    requires !m.halted && NoStops(m) && FetchReady(m) && !s0.halted && Fetchable(s0.mem, s0.pc)
    ensures Lands(cfg, AfterDecode(cfg, w, junk), s0)
  {
    hide Done, Complete, TraceRight, RegsAgree, DecodeStage, Finish, Staged, AfterEx, WordAt, Execute,
         Fetchable, Redirects, St, Lands, Following;
    StartState(s0);
    ReadyStops(w, s0, 0);
    DecodeIdle(cfg, w, s0, 0, junk);
    var d := DecodeStage(cfg, w, junk).value;
    FetchCommits(d, s0, 0);
    LandStraight(cfg, d, Finish(d).value, s0, 0);
  }

  lemma TargetIsNext(m: Machine, s0: SeqState)
    requires InStep(m, s0) && Live(m.em.load) && Redirects(m.em.load.instr) && !St(s0, PosEm(m)).halted
    ensures St(s0, PosEm(m) + 1).pc == m.em.load.instr.branchAddr
  {
    hide Done, TraceRight, RegsAgree, St, Complete, Following;
    StStep(s0, PosEm(m));
    CompleteKeeps(m.em.load.instr, m.mem);
  }

  /** The squash: the cancelled instructions vanish and fetch resumes at the jump's target. */
  lemma SquashCase(cfg: Config, m: Machine, w: Machine, s0: SeqState, junk: bool)
    requires InStep(m, s0) && AtDecode(m, w, s0) && Squashing(cfg, m, s0)
    requires !m.halted && NoStops(m) && FetchReady(m)
    requires !St(s0, PosEm(m)).halted && !St(s0, PosDe(m)).halted && Fetchable(s0.mem, St(s0, PosDe(m)).pc)
    ensures Lands(cfg, AfterDecode(cfg, w, junk), s0)
  {
    hide Done, TraceRight, RegsAgree, DecodeStage, Finish, Staged, AfterEx, WordAt, Execute,
         Fetchable, St, Complete, StaleHarmless, Lands, Following;
    var x := PosEm(m);
    TargetIsNext(m, s0);
    StillRunning(m, w, s0);
    hide Redirects, Following;
    ReadyStops(w, s0, x);
    DecodeIdle(cfg, w, s0, x, junk);
    var d := DecodeStage(cfg, w, junk).value;
    FetchCommits(d, s0, x);
    LandStraight(cfg, d, Finish(d).value, s0, x);
  }

  /** The instruction just executed is the sequential one, and its kind is consistent. */
  lemma ExecutedFacts(m: Machine, w: Machine, s0: SeqState)
    requires InStep(m, s0) && AtDecode(m, w, s0) && Live(m.de.load)
    requires Recognize(CodeAt(St(s0, PosDe(m)))).name != Unnamed
    ensures var e, i := w.em.store.instr, Done(St(s0, PosDe(m)));
      && e == i.(rd := e.rd) && e.rd.name == i.rd.name && e.pc == St(s0, PosDe(m)).pc == m.de.load.instr.pc
      && (IsLoad(e) || e == i)
      && (Redirects(e) ==> e.acc == NoAccess && e.name != ECALL && e.typ != System)
      && (e.typ == System <==> e.name == ECALL) && (e.acc == Read ==> IsLoad(e))
  {
    hide Done, St, Complete, TraceRight, RegsAgree, Execute, Recognize, CodeAt, StorePending, AfterEx, Rs1, Rs2,
         Rd, Immediate, Following;
    RecognizeFits(CodeAt(St(s0, PosDe(m))));
    CompleteKeeps(w.em.store.instr, St(s0, PosDe(m)).mem);
  }

  /** Unless DE redirects or exits, FD's pc is the sequential run's next one. */
  lemma OnPathPc(cfg: Config, m: Machine, w: Machine, s0: SeqState)
    requires InStep(m, s0) && AtDecode(m, w, s0) && Straight(cfg, m, s0) && !St(s0, PosDe(m)).halted
    requires Live(m.de.load) ==>
      && Recognize(CodeAt(St(s0, PosDe(m)))).name != Unnamed
      && !Redirects(w.em.store.instr) && w.em.store.instr.typ != System
    ensures !St(s0, PosFd(m)).halted && St(s0, PosFd(m)).pc == m.fd.load.pc
  {
    hide Done, St, Complete, TraceRight, RegsAgree, Execute, Recognize, WordAt, CodeAt, Ready, FetchedBefore, Following;
    if Live(m.de.load) {
      ExecutedFacts(m, w, s0);
      StStep(s0, PosDe(m));
    }
  }

  lemma OnPathWord(s0: SeqState, z: nat, last: nat, pc: Word, w: Word)
    requires FetchedBefore(s0, z, last, pc, w) && CodeStable(s0, z) && St(s0, z).pc == pc
    ensures CodeAt(St(s0, z)) == w
  {
    hide St, WordAt, Following;
    var j: nat :| j <= last && j <= z <= j + 3 && w == WordAt(St(s0, j).mem, pc);
  }

  /** As written, the guard leaves no load-use hit; repaired, none that needs its value in MEM. */
  lemma HitIsLoadUse(cfg: Config, m: Machine, w: Machine, s0: SeqState, n: RegNum)
    requires InStep(m, s0) && AtDecode(m, w, s0) && LoadHit(w, n)
    requires Live(m.de.load) ==> Recognize(CodeAt(St(s0, PosDe(m)))).name != Unnamed
    ensures Live(m.de.load) && n != 0 && !Redirects(w.em.store.instr) && w.em.store.instr.typ != System
    ensures IsLoad(Done(St(s0, PosDe(m)))) && Done(St(s0, PosDe(m))).rd.name == n
  {
    hide Done, St, Complete, TraceRight, RegsAgree, Execute, Recognize, StorePending, CodeAt, Following;
    if Live(m.de.load) { ExecutedFacts(m, w, s0); }
  }

  /** A live load in DE with rd other than x0 is what decode hits. */
  lemma LoadIsHit(m: Machine, w: Machine, s0: SeqState)
    requires AtDecode(m, w, s0) && Live(m.de.load) && IsLoad(w.em.store.instr)
    ensures forall n: RegNum :: LoadHit(w, n) <==> n != 0 && w.em.store.instr.rd.name == n
  {
    hide Done, St, Complete, TraceRight, RegsAgree, StorePending, CodeAt, Following, Redirects;
  }

  /** Fetch went on at `pc`. */
  predicate FetchedNext(mem: Mem, n: Machine, pc: Word) {
    && n.fd == Buffer(FD_CLEAR, FD(false, false, pc, WordAt(mem, pc)), 0)
    && n.wf == Buffer(WF_CLEAR, WF(false, false, false, Following(pc), n.wf.load.pcJump), 0)
  }

  /** The fetched word comes from the memory of a recent enough position. */
  lemma FetchedNextBefore(d: Machine, n: Machine, s0: SeqState, x: nat, pc: Word)
    requires PosEm(n) == PosDone(d, x) && PosDe(n) == PosIssue(d, x)
    requires FetchedNext(d.mem, n, pc)
    requires d.mem == St(s0, x).mem || d.mem == St(s0, PosDone(d, x)).mem
    ensures FetchedBefore(s0, PosFd(n), PosDe(n), n.fd.load.pc, n.fd.load.word)
  {
    hide St, WordAt, FetchedBefore, Following;
    FetchedHere(s0, x, PosDe(n), PosFd(n), d.mem, pc);
  }

  lemma StraightAfterStep(cfg: Config, n: Machine, s0: SeqState, mem: Mem)
    requires Live(n.de.load) && FetchedNext(mem, n, Following(n.de.load.instr.pc))
    requires FetchedBefore(s0, PosFd(n), PosDe(n), n.fd.load.pc, n.fd.load.word)
    requires Live(n.em.load) ==> !Redirects(n.em.load.instr)
    ensures Straight(cfg, n, s0) && FetchReady(n) && n.wf.stop == 0 && n.fd.stop == 0 && !n.fd.store.hazard
  {
    hide St, WordAt, FetchedBefore, Redirects, Following;
  }

  /** A boundary with the next instruction decoded and the word behind it fetched. */
  lemma LandStep(cfg: Config, d: Machine, n: Machine, s0: SeqState, x: nat)
    requires BackCommitted(d, n, s0, x) && Live(n.de.load)
    requires n.de.load.instr == Issue(St(s0, PosDe(n)), n.de.load.instr.rd.value, n.de.load.instr.taken)
    requires !n.de.store.hazard && n.de.stop == 0 && !n.halted && !St(s0, PosDe(n)).halted
    requires FetchedNext(d.mem, n, Following(n.de.load.instr.pc))
    requires Live(n.em.load) ==> !Redirects(n.em.load.instr)
    requires d.mem == St(s0, x).mem || d.mem == St(s0, PosDone(d, x)).mem
    ensures Lands(cfg, Ok(n), s0)
  {
    hide Done, Complete, TraceRight, RegsAgree, St, Issue, CodeAt, FetchedBefore, Redirects, InStep, WordAt,
         Straight, FetchedNext, FetchReady, Following;
    FetchedNextBefore(d, n, s0, x, Following(n.de.load.instr.pc));
    StraightAfterStep(cfg, n, s0, d.mem);
    CommitInStep(d, n, s0, x);
  }

  /** The next instruction stands in the DE store latch, with the sequential operands. */
  ghost predicate DecodedNext(d: Machine, s0: SeqState, x: nat) {
    var i, z := d.de.store.instr, St(s0, PosIssue(d, x));
    && Staged(d, s0, x) && d.em.stop == 0 && d.mw.stop == 0
    && i == Issue(z, i.rd.value, i.taken) && !z.halted && Fetchable(s0.mem, Following(i.pc))
    && Live(d.de.store) && NoStops(d) && !d.fd.store.hazard && !d.halted
    && !d.wf.load.isStall && !d.wf.load.hazard && FetchPc(d.wf.load) == Following(i.pc) && d.wf.store == d.wf.store.(isStall := false, hazard := false, isJump := false)
    && (!d.em.store.isStall ==> !Redirects(d.em.store.instr))
  }

  lemma DecodeNext(cfg: Config, m: Machine, w: Machine, s0: SeqState, junk: bool)
    requires InStep(m, s0) && AtDecode(m, w, s0) && Straight(cfg, m, s0)
    requires !m.halted && NoStops(m) && FetchReady(m)
    requires !w.em.store.isStall ==> !Redirects(w.em.store.instr) && w.em.store.instr.typ != System
    requires !SourceHit(w, m.fd.load.word)
    requires var z := St(s0, PosFd(m));
      !z.halted && z.pc == m.fd.load.pc && CodeAt(z) == m.fd.load.word && Fetchable(s0.mem, Following(z.pc))
    requires !St(s0, PosEm(m)).halted && !St(s0, PosDe(m)).halted
    ensures DecodeStage(cfg, w, junk).Ok? && DecodedNext(DecodeStage(cfg, w, junk).value, s0, PosEm(m))
  {
    hide Done, TraceRight, RegsAgree, DecodeStage, AfterEx, WordAt, CodeAt, Execute, SourceHit, Recognize, Rd,
         Fetchable, St, Complete, Issue, Redirects, StorePending, FetchedBefore, BackEndAccessed, Following;
    var x := PosEm(m);
    StillRunning(m, w, s0);
    ReadyStops(w, s0, x);
    DecodeRight(cfg, w, s0, x, junk);
    StagedAfterDecode(w, DecodeStage(cfg, w, junk).value, s0, x);
  }

  lemma StagedAfterDecode(m: Machine, d: Machine, s0: SeqState, x: nat)
    requires Staged(m, s0, x) && d.rf.regs == m.rf.regs
    requires d.retired == m.retired && d.ic == m.ic && d.em == m.em && d.mw == m.mw && d.mem == m.mem && d.sq == m.sq
    ensures Staged(d, s0, x)
  {
    hide Done, Complete, St, Apply, Following;
  }

  lemma FinishStep(cfg: Config, d: Machine, s0: SeqState, x: nat)
    requires DecodedNext(d, s0, x)
    ensures Lands(cfg, Finish(d), s0)
  {
    hide Done, TraceRight, RegsAgree, Finish, WordAt, CodeAt, Fetchable, St, Complete, Issue, Lands, Redirects,
         BackEndAccessed, Following;
    FetchCommits(d, s0, x);
    LandStep(cfg, d, Finish(d).value, s0, x);
  }

  // A taken jump: the wrong path is decoded and fetched once more, and marked.

  /** A jump never hits: only a load in DE can make decode wait. */
  lemma NoHitBehindJump(m: Machine, w: Machine, s0: SeqState, word: Word)
    requires InStep(m, s0) && AtDecode(m, w, s0) && Live(m.de.load)
    requires Recognize(CodeAt(St(s0, PosDe(m)))).name != Unnamed && Redirects(w.em.store.instr)
    ensures !SourceHit(w, word)
  {
    hide Done, St, Complete, TraceRight, RegsAgree, Execute, Recognize, CodeAt, Following, Rs1, Rs2, StorePending;
    ExecutedFacts(m, w, s0);
  }

  /** The clash on the machine: behind a jump, the wrong-path word in FD and the instruction in MEM write
      one register that the jump does not, and the value decode captures is not the one on its way. */
  predicate MachineClash(w: Machine) {
    && !w.mw.store.isStall && Clash(w.mw.store.instr, w.em.store.instr, w.fd.load.word)
    && w.rf.regs[Rd(w.fd.load.word)] != w.mw.store.instr.rd
  }

  /** The rd value decode captures is the sequential one unless MEM holds a different value for it. */
  lemma CaptureExact(w: Machine, s0: SeqState, x: nat, n: RegNum)
    requires Staged(w, s0, x) && n != 0 && (!w.mw.store.isStall ==> !St(s0, x).halted)
    ensures w.rf.regs[n] == St(s0, PosDone(w, x)).regs[n] <==>
      !(!w.mw.store.isStall && WriterOf(w.mw.store.instr, n) && w.rf.regs[n] != w.mw.store.instr.rd)
  {
    hide Done, St, Complete, TraceRight, StorePending, Following;
    if !w.mw.store.isStall { StRegs(s0, x, n); }
  }

  predicate StaleAt(i: Instr, jump: Instr, s: SeqState) {
    WritesRd(i.typ) && i.rd.name != 0 && !WriterOf(jump, i.rd.name) ==> i.rd == s.regs[i.rd.name]
  }

  ghost predicate DecodedWrong(d: Machine, s0: SeqState, x: nat) {
    var e := d.em.store.instr;
    && Staged(d, s0, x) && d.em.stop == 0 && d.mw.stop == 0 && NoStops(d) && !d.halted
    && !d.em.store.isStall && Redirects(e) && !d.de.store.isStall && d.de.store.hazard && d.fd.store.hazard
    && !d.wf.load.isStall && !d.wf.load.hazard && Fetchable(s0.mem, FetchPc(d.wf.load))
    && !d.wf.store.isStall && !d.wf.store.hazard && d.wf.store.isJump && d.wf.store.pcJump == e.branchAddr
    && !St(s0, PosIssue(d, x)).halted
  }

  lemma DecodeWrong(cfg: Config, m: Machine, w: Machine, s0: SeqState, junk: bool)
    requires InStep(m, s0) && AtDecode(m, w, s0) && Straight(cfg, m, s0) && Live(m.de.load)
    requires !m.halted && NoStops(m) && FetchReady(m) && Redirects(w.em.store.instr)
    requires Recognize(CodeAt(St(s0, PosDe(m)))).name != Unnamed && Fetchable(s0.mem, m.wf.load.pc)
    requires !St(s0, PosEm(m)).halted && !St(s0, PosDe(m)).halted
    ensures DecodeStage(cfg, w, junk).Ok?
    ensures var d := DecodeStage(cfg, w, junk).value;
      && DecodedWrong(d, s0, PosEm(m))
      && (StaleAt(d.de.store.instr, d.em.store.instr, St(s0, PosDone(d, PosEm(m)))) <==> !MachineClash(w))
  {
    hide Done, TraceRight, RegsAgree, DecodeStage, AfterEx, WordAt, CodeAt, Execute, SourceHit, Recognize, Rd,
         Fetchable, St, Complete, Issue, Redirects, StorePending, FetchedBefore, BackEndAccessed, Following,
         MachineClash, StaleAt;
    var x := PosEm(m);
    StillRunning(m, w, s0);
    ReadyStops(w, s0, x);
    NoHitBehindJump(m, w, s0, m.fd.load.word);
    ExecutedFacts(m, w, s0);
    StStep(s0, PosDe(m));
    DecodeRight(cfg, w, s0, x, junk);
    var d := DecodeStage(cfg, w, junk).value;
    StagedAfterDecode(w, d, s0, x);
    StaleIsClash(w, d, s0, x);
  }

  lemma StaleIsClash(w: Machine, d: Machine, s0: SeqState, x: nat)
    requires Ready(w, s0, x) && (!w.mw.store.isStall ==> !St(s0, x).halted)
    requires d.em == w.em && d.mw == w.mw
    requires var i := d.de.store.instr; var word := w.fd.load.word;
      i.typ == Recognize(word).typ && (WritesRd(i.typ) ==> i.rd == w.rf.regs[Rd(word)])
    ensures StaleAt(d.de.store.instr, d.em.store.instr, St(s0, PosDone(d, x))) <==> !MachineClash(w)
  {
    hide Done, St, TraceRight, RegsAgree, Recognize, Rd, Complete, AfterEx, BackEndAccessed, Following;
    var n := Rd(w.fd.load.word);
    NamedRd(w, s0, x, n);
    if n != 0 { CaptureExact(w, s0, x, n); }
  }

  lemma NamedRd(m: Machine, s0: SeqState, x: nat, n: RegNum)
    requires Ready(m, s0, x)
    ensures m.rf.regs[n].name == n
  {
    hide Staged;
  }

  lemma FinishWrong(cfg: Config, d: Machine, s0: SeqState, x: nat)
    requires DecodedWrong(d, s0, x)
    requires !cfg.repaired ==> StaleAt(d.de.store.instr, d.em.store.instr, St(s0, PosDone(d, x)))
    ensures Lands(cfg, Finish(d), s0)
  {
    hide Done, TraceRight, RegsAgree, Finish, WordAt, CodeAt, Fetchable, St, Complete, Issue, Redirects,
         BackEndAccessed, Following,
         Straight, Starting, InStep;
    FetchCommits(d, s0, x);
    CommitInStep(d, Finish(d).value, s0, x);
  }

  // ECALL: the front end is held.

  lemma EcallCase(cfg: Config, m: Machine, w: Machine, s0: SeqState, junk: bool)
    requires InStep(m, s0) && AtDecode(m, w, s0) && Live(m.de.load)
    requires !m.halted && NoStops(m) && FetchReady(m) && w.em.store.instr.typ == System
    requires Recognize(CodeAt(St(s0, PosDe(m)))).name != Unnamed
    requires !St(s0, PosEm(m)).halted && !St(s0, PosDe(m)).halted
    ensures Lands(cfg, AfterDecode(cfg, w, junk), s0)
  {
    hide Done, TraceRight, RegsAgree, DecodeStage, Finish, Staged, AfterEx, WordAt, CodeAt, Recognize, Execute,
         St, Complete, Redirects, Following, InStep, Issue;
    var x := PosEm(m);
    StillRunning(m, w, s0);
    ReadyStops(w, s0, x);
    ExecutedFacts(m, w, s0);
    DecodeIdle(cfg, w, s0, x, junk);
    var d := DecodeStage(cfg, w, junk).value;
    HoldCommits(d, s0, x);
    StoresClean(m, s0);
    CommitInStep(d, Finish(d).value, s0, x);
  }

  lemma StoresClean(m: Machine, s0: SeqState)
    requires InStep(m, s0)
    ensures NoCancelInStores(m)
  {
    hide TraceRight, RegsAgree, St, Done, Complete, Issue;
  }

  /** A held front end: nothing is decoded or fetched, the back end moves on. */
  lemma DrainStep(cfg: Config, m: Machine, w: Machine, s0: SeqState, junk: bool, stop: nat)
    requires InStep(m, s0) && AtDecode(m, w, s0) && FrontHeld(m, stop) && stop > 0
    ensures AfterDecode(cfg, w, junk).Ok?
    ensures var n := AfterDecode(cfg, w, junk).value;
      && InStep(n, s0) && FrontHeld(n, stop - 1) && n.em.load.isStall
      && n.mw.load == w.mw.store && n.halted == w.halted && n.retired == w.retired
  {
    hide Done, TraceRight, RegsAgree, DecodeStage, Finish, Staged, AfterEx, WordAt, CodeAt, Recognize, Execute,
         St, Complete, Redirects, Following, InStep, Issue;
    var x := PosEm(m);
    ReadyStops(w, s0, x);
    DecodeIdle(cfg, w, s0, x, junk);
    var d := DecodeStage(cfg, w, junk).value;
    HoldCommits(d, s0, x);
    StoresClean(m, s0);
    CommitInStep(d, Finish(d).value, s0, x);
  }

  // The repaired interlock: the dependent copy is cancelled and decoded again one cycle later.

  /** `a` is `m` held for one cycle: fetch and decode stop once, the copy being decoded is cancelled. */
  predicate HeldOnce(m: Machine, a: Machine) {
    a == m.(stops := m.stops + 1, fd := m.fd.(stop := m.fd.stop + 1), wf := m.wf.(stop := m.wf.stop + 1),
            de := m.de.(store := m.de.store.(hazard := true)),
            bypassesMemEx := a.bypassesMemEx, bypassesWbEx := a.bypassesWbEx)
  }

  lemma RepairedOperand(cfg: Config, m: Machine, n: RegNum, need: NeededIn)
    requires cfg.repaired && !(LoadHit(m, n) && need == NeedMemory)
    ensures ReadOperand(cfg, m, n, need).Ok?
    ensures var a := ReadOperand(cfg, m, n, need).value.0;
      if LoadHit(m, n) && !m.de.store.hazard then HeldOnce(m, a) else Untouched(m, a)
  {
  }

  lemma RepairedSources(cfg: Config, m: Machine, w: Word)
    requires cfg.repaired && SourceHit(m, w) && !m.de.store.hazard
    requires ReadsRs2(Recognize(w).typ) && LoadHit(m, Rs2(w)) ==> NeedOfRs2(w) == NeedExecute
    ensures ReadSources(cfg, m, w).Ok? && HeldOnce(m, ReadSources(cfg, m, w).value.0)
  {
    hide Recognize, Rs1, Rs2, NeedOfRs2, ReadOperand;
    var t := Recognize(w).typ;
    var a := m;
    if ReadsRs1(t) {
      RepairedOperand(cfg, m, Rs1(w), NeedExecute);
      a := ReadOperand(cfg, m, Rs1(w), NeedExecute).value.0;
    }
    if ReadsRs2(t) { RepairedOperand(cfg, a, Rs2(w), NeedOfRs2(w)); }
  }

  /** The dependent copy stands cancelled in the DE store latch; FD keeps the word. */
  ghost predicate DecodedHeld(d: Machine, w: Machine, s0: SeqState, x: nat) {
    && Staged(d, s0, x) && d.em.stop == 0 && d.mw.stop == 0 && !d.halted
    && d.de.stop == 0 && !d.de.store.isStall && d.de.store.hazard && !d.fd.store.hazard
    && d.fd.stop == 1 && d.wf.stop == 1 && d.fd.load == w.fd.load && d.wf.load == w.wf.load && d.wf.store == w.wf.store
    && d.em.store == w.em.store && d.mw.store == w.mw.store
  }

  lemma DecodeHeld(cfg: Config, m: Machine, w: Machine, s0: SeqState, junk: bool)
    requires InStep(m, s0) && AtDecode(m, w, s0) && Straight(cfg, m, s0) && cfg.repaired
    requires !m.halted && NoStops(m) && FetchReady(m) && SourceHit(w, m.fd.load.word)
    requires !w.em.store.isStall ==> !Redirects(w.em.store.instr) && w.em.store.instr.typ != System
    requires var word := m.fd.load.word;
      ReadsRs2(Recognize(word).typ) && LoadHit(w, Rs2(word)) ==> NeedOfRs2(word) == NeedExecute
    requires !St(s0, PosEm(m)).halted
    ensures DecodeStage(cfg, w, junk).Ok? && DecodedHeld(DecodeStage(cfg, w, junk).value, w, s0, PosEm(m))
  {
    hide Done, TraceRight, RegsAgree, AfterEx, WordAt, CodeAt, Execute, SourceHit, Recognize, Rd, Rs2, NeedOfRs2, LoadHit,
         St, Complete, Issue, Redirects, StorePending, FetchedBefore, BackEndAccessed, Following, ReadSources, MakeInstr;
    var x := PosEm(m);
    StillRunning(m, w, s0);
    ReadyStops(w, s0, x);
    StoresClean(m, s0);
    RepairedSources(cfg, w, m.fd.load.word);
    StagedAfterDecode(w, DecodeStage(cfg, w, junk).value, s0, x);
  }

  lemma FinishHeld(cfg: Config, m: Machine, d: Machine, w: Machine, s0: SeqState)
    requires InStep(m, s0) && AtDecode(m, w, s0) && Straight(cfg, m, s0) && cfg.repaired && Live(m.de.load)
    requires DecodedHeld(d, w, s0, PosEm(m)) && FetchReady(m) && !Redirects(w.em.store.instr)
    requires !St(s0, PosFd(m)).halted && St(s0, PosFd(m)).pc == m.fd.load.pc
    ensures Lands(cfg, Finish(d), s0)
  {
    hide Done, TraceRight, RegsAgree, Finish, Ready, Staged, WordAt, CodeAt, Execute, FetchedBefore,
         St, Complete, Redirects, Following, InStep, Issue, Starting, Squashing, DrainingEm, DrainingMw, Finished;
    var x := PosEm(m);
    HoldCommits(d, s0, x);
    var n := Finish(d).value;
    CommitInStep(d, n, s0, x);
    FetchedBeforeLater(s0, PosFd(m), PosDe(m), PosDe(n), m.fd.load.pc, m.fd.load.word);
    assert Straight(cfg, n, s0);
  }

  lemma FetchedBeforeLater(s0: SeqState, z: nat, last: nat, last': nat, pc: Word, w: Word)
    requires FetchedBefore(s0, z, last, pc, w) && last <= last'
    ensures FetchedBefore(s0, z, last', pc, w)
  {
    hide St, WordAt;
  }

  // ---- The whole cycle and the whole run ----

  lemma StraightCase(cfg: Config, m: Machine, w: Machine, s0: SeqState, junk: bool)
    requires InStep(m, s0) && AtDecode(m, w, s0) && Straight(cfg, m, s0)
    requires !m.halted && NoStops(m) && FetchReady(m) && !St(s0, PosDe(m)).halted && !St(s0, PosEm(m)).halted
    requires SoundAt(s0, PosDe(m)) && Enters(cfg, s0, PosFd(m)) && (Live(m.de.load) ==> GoodAt(cfg, s0, PosDe(m)))
    ensures Lands(cfg, AfterDecode(cfg, w, junk), s0)
  {
    hide Done, St, InStep, AtDecode, Straight, DecodeStage, Finish, Lands, Recognize, CodeAt, WordAt, Redirects,
         CodeStable, Following,
         Fetchable, LoadUse, Clash, SourceHit, MachineClash, DecodedWrong, DecodedNext, DecodedHeld, InBounds, FetchReady;
    var x, y, z := PosEm(m), PosDe(m), PosFd(m);
    SoundBounds(s0, y);
    DeLatchShape(m, w, s0);
    if Live(m.de.load) && w.em.store.instr.typ == System {
      EcallCase(cfg, m, w, s0, junk);
    } else if Live(m.de.load) && Redirects(w.em.store.instr) {
      JumpGuard(cfg, m, w, s0);
      DecodeWrong(cfg, m, w, s0, junk);
      FinishWrong(cfg, DecodeStage(cfg, w, junk).value, s0, x);
    } else {
      OnPathPc(cfg, m, w, s0);
      StraightWord(cfg, m, s0);
      SoundBounds(s0, z);
      HitGuard(cfg, m, w, s0);
      if SourceHit(w, m.fd.load.word) {
        DecodeHeld(cfg, m, w, s0, junk);
        FinishHeld(cfg, m, DecodeStage(cfg, w, junk).value, w, s0);
      } else {
        DecodeNext(cfg, m, w, s0, junk);
        FinishStep(cfg, DecodeStage(cfg, w, junk).value, s0, x);
      }
    }
  }

  /** The parts of the guard that concern position `k` alone, in the sizes fetch checks. */
  lemma SoundBounds(s0: SeqState, k: nat)
    requires SoundAt(s0, k) && !St(s0, k).halted
    ensures var s := St(s0, k);
      && Recognize(CodeAt(s)).name != Unnamed && CodeStable(s0, k)
      && Fetchable(s0.mem, s.pc) && Fetchable(s0.mem, Following(s.pc))
      && (Done(s).name != ECALL ==> Fetchable(s0.mem, Following(Following(s.pc))))
      && (Done(s).acc != NoAccess ==> InBounds(s.mem, Index(Done(s).addr), Done(s).accSize))
  {
    hide Done, St, CodeAt, WordAt, Recognize, LoadUse, Clash, Redirects, Following, CodeStable, Index;
    SameMemSize(s0, k);
  }

  lemma DeLatchShape(m: Machine, w: Machine, s0: SeqState)
    requires AtDecode(m, w, s0)
    ensures w.em.store.isStall <==> !Live(m.de.load)
  {
    hide Ready, Execute, Redirects;
  }

  lemma StraightWord(cfg: Config, m: Machine, s0: SeqState)
    requires Straight(cfg, m, s0) && CodeStable(s0, PosFd(m)) && St(s0, PosFd(m)).pc == m.fd.load.pc
    ensures CodeAt(St(s0, PosFd(m))) == m.fd.load.word
  {
    hide St, WordAt, CodeAt, CodeStable, FetchedBefore, Following, Redirects;
    OnPathWord(s0, PosFd(m), PosDe(m), m.fd.load.pc, m.fd.load.word);
  }

  /** The wrong-path fetch behind a jump is in bounds. */
  lemma JumpFetches(cfg: Config, m: Machine, w: Machine, s0: SeqState)
    requires InStep(m, s0) && AtDecode(m, w, s0) && Straight(cfg, m, s0) && Live(m.de.load)
    requires Redirects(w.em.store.instr) && !St(s0, PosDe(m)).halted && SoundAt(s0, PosDe(m))
    ensures Fetchable(s0.mem, m.wf.load.pc)
  {
    hide Done, St, InStep, AtDecode, Recognize, CodeAt, CodeStable, Following, Index, Fetchable, SoundAt, FreeOfClash,
         FetchedBefore, InBounds, Redirects;
    SoundBounds(s0, PosDe(m));
    ExecutedFacts(m, w, s0);
  }

  /** Behind an instruction that is no jump, the register file decode sees is the one before it. */
  lemma CapturedBefore(w: Machine, s0: SeqState, x: nat, n: RegNum)
    requires Ready(w, s0, x) && !Redirects(w.mw.store.instr)
    ensures w.rf.regs[n] == St(s0, x).regs[n]
  {
    hide AfterEx, BackEndAccessed, St, Done, Complete;
  }

  /** The clash on the machine is the clash in the program, for the word behind the jump. */
  lemma ClashInProgram(m: Machine, w: Machine, s0: SeqState)
    requires InStep(m, s0) && AtDecode(m, w, s0) && Live(m.de.load) && Live(m.em.load) && !Redirects(m.em.load.instr)
    requires Recognize(CodeAt(St(s0, PosDe(m)))).name != Unnamed && w.fd.load == m.fd.load
    ensures MachineClash(w) <==>
      Clobbers(Done(St(s0, PosEm(m))), Done(St(s0, PosDe(m))), St(s0, PosEm(m)), m.fd.load.word)
  {
    hide Done, St, InStep, Recognize, CodeAt, Following, Clash, Rd, Ready, Execute, Redirects;
    ExecutedFacts(m, w, s0);
    MovedFacts(m, w, s0);
    ClashIrrelevance(Done(St(s0, PosEm(m))), Done(St(s0, PosDe(m))), w.em.store.instr, m.fd.load.word);
    CapturedBefore(w, s0, PosEm(m), Rd(m.fd.load.word));
  }

  /** At a jump the guard keeps the wrong-path fetch in bounds and excludes the clash. */
  lemma JumpGuard(cfg: Config, m: Machine, w: Machine, s0: SeqState)
    requires InStep(m, s0) && AtDecode(m, w, s0) && Straight(cfg, m, s0) && Live(m.de.load)
    requires Redirects(w.em.store.instr) && !St(s0, PosDe(m)).halted && SoundAt(s0, PosDe(m))
    requires FreeOfClash(cfg, s0, PosDe(m))
    ensures Fetchable(s0.mem, m.wf.load.pc)
    ensures !cfg.repaired ==> !MachineClash(w)
  {
    hide Done, St, InStep, Recognize, CodeAt, CodeStable, Following, Clobbers, Clash, Index, Rd, Fetchable, SoundAt,
         FreeOfClash, FetchedBefore, Ready, Execute, Redirects;
    JumpFetches(cfg, m, w, s0);
    if !cfg.repaired && !w.mw.store.isStall {
      SoundBounds(s0, PosDe(m));
      ExecutedFacts(m, w, s0);
      MovedFacts(m, w, s0);
      ClashInProgram(m, w, s0);
      DePc(m, s0);
      JumpKept(Done(St(s0, PosDe(m))), w.em.store.instr);
      NoClashAt(cfg, s0, PosDe(m), m.fd.load.word);
    }
  }

  lemma JumpKept(i: Instr, e: Instr)
    requires e == i.(rd := e.rd)
    ensures Redirects(e) == Redirects(i)
  {
  }

  lemma DePc(m: Machine, s0: SeqState)
    requires InStep(m, s0) && Live(m.de.load)
    ensures m.de.load.instr.pc == St(s0, PosDe(m)).pc
  {
    hide Done, St, TraceRight, RegsAgree, Complete, Recognize, Rs1, Rs2, Rd, CodeAt, Immediate;
  }

  /** The instruction now in MEM is the sequential one, and it is not a jump when DE is alive. */
  lemma MovedFacts(m: Machine, w: Machine, s0: SeqState)
    requires InStep(m, s0) && AtDecode(m, w, s0) && Live(m.em.load)
    ensures w.mw.store.instr == Done(St(s0, PosEm(m)))
    ensures Redirects(Done(St(s0, PosEm(m)))) == Redirects(m.em.load.instr)
  {
    hide Done, St, TraceRight, RegsAgree, Execute, Complete, AfterEx, StorePending;
    CompleteKeeps(m.em.load.instr, m.mem);
  }

  lemma ClashIrrelevance(prev: Instr, jump: Instr, e: Instr, w: Word)
    requires e.typ == jump.typ && e.rd.name == jump.rd.name
    ensures Clash(prev, jump, w) == Clash(prev, e, w)
  {
    hide Recognize, Rd;
  }

  lemma NoClashAt(cfg: Config, s0: SeqState, k: nat, w: Word)
    requires FreeOfClash(cfg, s0, k) && !St(s0, k).halted && !cfg.repaired && k > 0
    requires Redirects(Done(St(s0, k))) && !Redirects(Done(St(s0, k - 1)))
    requires FetchedBefore(s0, k + 1, k, Following(St(s0, k).pc), w)
    ensures !Clobbers(Done(St(s0, k - 1)), Done(St(s0, k)), St(s0, k - 1), w)
  {
    hide Done, St, CodeAt, WordAt, Recognize, LoadUse, Clash, Redirects, Following, CodeStable, Index, InBounds;
  }

  /** The guard leaves no load-use hit as written, and none for store data when repaired. */
  lemma HitGuard(cfg: Config, m: Machine, w: Machine, s0: SeqState)
    requires InStep(m, s0) && AtDecode(m, w, s0) && !St(s0, PosDe(m)).halted && !St(s0, PosFd(m)).halted
    requires Recognize(CodeAt(St(s0, PosDe(m)))).name != Unnamed
    requires Enters(cfg, s0, PosFd(m)) && CodeAt(St(s0, PosFd(m))) == m.fd.load.word
    ensures SourceHit(w, m.fd.load.word) ==> cfg.repaired && Live(m.de.load)
    ensures var word := m.fd.load.word;
      ReadsRs2(Recognize(word).typ) && LoadHit(w, Rs2(word)) ==> NeedOfRs2(word) == NeedExecute
  {
    hide Done, St, Recognize, CodeAt, WordAt, CodeStable, Following, Clash, Index, InBounds, Fetchable, InStep, AtDecode,
         LoadHit, Rs1, Rs2, NeedOfRs2, Redirects;
    var word := m.fd.load.word;
    forall n: RegNum | LoadHit(w, n)
      ensures Live(m.de.load) && n != 0 && IsLoad(Done(St(s0, PosDe(m)))) && Done(St(s0, PosDe(m))).rd.name == n
    {
      HitIsLoadUse(cfg, m, w, s0, n);
    }
  }

  lemma CycleSplits(cfg: Config, m: Machine, junk: bool)
    requires BeforeDecode(cfg, m).Ok?
    ensures Cycle(cfg, m, junk) == AfterDecode(cfg, BeforeDecode(cfg, m).value, junk)
  {
    hide WriteBack, MemoryAccess, ExecuteStage, DecodeStage, Fetch, Update;
  }

  /** Everything ahead of a running position is running, named and in bounds. */
  lemma BoundaryBack(cfg: Config, m: Machine, s0: SeqState)
    requires Refines(cfg, m, s0) && !m.halted && SoundUpTo(s0, PosDe(m) + 1)
    ensures BackEndGood(cfg, m, s0)
    ensures Running(cfg, m, s0) ==> !St(s0, PosEm(m)).halted
  {
    hide Done, St, TraceRight, RegsAgree, CodeAt, Recognize, Complete, Issue, Redirects, Following, GoodAt,
         Index, InBounds,
         LocksConserved, Fetchable, CodeStable, FetchedBefore;
    var x, y := PosEm(m), PosDe(m);
    if Running(cfg, m, s0) {
      RunningBefore(s0, x, y);
      RunningBefore(s0, PosMw(m), y);
      SoundBounds(s0, y);
      if Live(m.em.load) { SoundBounds(s0, x); }
    } else if DrainingEm(m, s0) {
      RunningBefore(s0, PosMw(m), x);
      SoundBounds(s0, x);
    }
  }

  lemma BoundaryGood(cfg: Config, m: Machine, s0: SeqState)
    requires Refines(cfg, m, s0) && !m.halted && Clear(cfg, s0, m)
    ensures BackEndGood(cfg, m, s0) && SoundAt(s0, PosDe(m)) && Enters(cfg, s0, PosFd(m))
    ensures Live(m.de.load) ==> GoodAt(cfg, s0, PosDe(m))
    ensures Running(cfg, m, s0) ==> !St(s0, PosEm(m)).halted
  {
    hide St, SoundAt, FreeOfUse, FreeOfClash, Refines, BackEndGood, Running;
    ClearIsSound(cfg, s0, m);
    if Live(m.de.load) { assert GoodAt(cfg, s0, PosDe(m)); }
    BoundaryBack(cfg, m, s0);
  }

  /** One guarded cycle raises no exception and keeps the shape. */
  lemma CycleRefines(cfg: Config, m: Machine, s0: SeqState, junk: bool)
    requires Refines(cfg, m, s0) && !m.halted && Clear(cfg, s0, m)
    ensures Cycle(cfg, m, junk).Ok? && Refines(cfg, Cycle(cfg, m, junk).value, s0)
  {
    hide Cycle, Done, St, InStep, AtDecode, Straight, Starting, Squashing, DecodeStage, Finish, AfterDecode,
         Fetchable, FetchReady, Index,
         BackEndGood, LocksConserved, GoodAt, Following, CodeAt, Recognize, BeforeDecode, Redirects;
    BoundaryGood(cfg, m, s0);
    BeforeDecodeRefines(cfg, m, s0);
    CycleSplits(cfg, m, junk);
    var w := BeforeDecode(cfg, m).value;
    LandsFromRefines(cfg, m, w, s0, junk);
    CycleConservesLocks(cfg, m, junk);
  }

  lemma LandsFromRefines(cfg: Config, m: Machine, w: Machine, s0: SeqState, junk: bool)
    requires Refines(cfg, m, s0) && !m.halted && AtDecode(m, w, s0)
    requires Clear(cfg, s0, m)
    ensures Lands(cfg, AfterDecode(cfg, w, junk), s0)
  {
    hide Done, St, InStep, AtDecode, Straight, Squashing, DecodeStage, Finish, AfterDecode, Fetchable, Index,
         BackEndGood, LocksConserved, GoodAt, Following, CodeAt, Recognize, BeforeDecode, Redirects, CodeStable, Guarded;
    BoundaryGood(cfg, m, s0);
    if Running(cfg, m, s0) {
      SoundBounds(s0, PosDe(m));
      if Starting(m, s0) {
        StartState(s0);
        StartCase(cfg, m, w, s0, junk);
      } else if Straight(cfg, m, s0) {
        StraightCase(cfg, m, w, s0, junk);
      } else {
        SquashCase(cfg, m, w, s0, junk);
      }
    } else if DrainingEm(m, s0) {
      DrainStep(cfg, m, w, s0, junk, 4);
      DrainFacts(m, w, s0);
    } else {
      DrainStep(cfg, m, w, s0, junk, 3);
      DrainFacts(m, w, s0);
    }
  }

  lemma DrainFacts(m: Machine, w: Machine, s0: SeqState)
    requires InStep(m, s0) && AtDecode(m, w, s0) && (DrainingEm(m, s0) || DrainingMw(m, s0))
    ensures DrainingEm(m, s0) ==>
      !w.halted && Live(w.mw.store) && w.mw.store.instr.name == ECALL && |w.retired| == PosEm(m)
    ensures DrainingMw(m, s0) ==>
      w.halted && w.mw.store.isStall && |w.retired| > 0 && w.retired[|w.retired| - 1].name == ECALL
      && !St(s0, |w.retired| - 1).halted
  {
    hide Done, RegsAgree, St, Complete, Redirects, Issue, StorePending, AfterEx, Execute;
    if DrainingEm(m, s0) {
      StillRunning(m, w, s0);
      CompleteKeeps(m.em.load.instr, m.mem);
    } else {
      assert w.retired[PosMw(m)] == Done(St(s0, PosMw(m)));
    }
  }

  /** Each cycle takes at most one new position into the pipeline. */
  lemma PositionGrows(cfg: Config, m: Machine, s0: SeqState, junk: bool)
    requires Refines(cfg, m, s0) && BeforeDecode(cfg, m).Ok? && AtDecode(m, BeforeDecode(cfg, m).value, s0)
    requires Cycle(cfg, m, junk).Ok?
    ensures var n := Cycle(cfg, m, junk).value;
      && PosMw(n) == PosEm(m) && PosEm(n) == PosDe(m) && PosDe(n) <= PosFd(m)
      && (!n.em.load.hazard ==> PosDe(n) == PosFd(m)) && n.clocks == m.clocks + 1
  {
    hide Done, St, InStep, Straight, Starting, Squashing, Fetchable, FetchReady, LocksConserved, GoodAt,
         Following, CodeAt, Recognize,
         BeforeDecode, Redirects, Cycle, DecodeStage, Fetch, Update, Running, DrainingEm, DrainingMw, Finished,
         Execute, Staged, AfterEx,
         FrontAfterEx;
    var w := BeforeDecode(cfg, m).value;
    CycleSplits(cfg, m, junk);
    ReadyStops(w, s0, PosEm(m));
    ReadyCount(w, s0, PosEm(m));
    LaterStages(cfg, w, junk);
  }

  lemma ReadyCount(w: Machine, s0: SeqState, x: nat)
    requires Ready(w, s0, x)
    ensures |w.retired| == x && !w.mw.store.hazard
  {
    hide AfterEx, RegsAgree, St, Done, Complete, StorePending, TraceRight;
  }

  /** ID, IF and the update retire nothing and move EM and MW on. */
  lemma LaterStages(cfg: Config, w: Machine, junk: bool)
    requires AfterDecode(cfg, w, junk).Ok? && w.em.stop == 0 && w.mw.stop == 0
    ensures var n := AfterDecode(cfg, w, junk).value;
      && n.retired == w.retired && n.mw.load == w.mw.store && n.clocks == w.clocks + 1
      && n.em.load == w.em.store.(hazard := n.em.load.hazard)
  {
    hide ReadSources, MakeInstr, Recognize, Rd, Advance, ReadWord, Following, Index;
    if LiveFD(w.fd.load) && w.de.stop == 0 { SourcesKeep(cfg, w, w.fd.load.word); }
  }

  /** The machine that starts at `s0`. */
  function Initial(s0: SeqState): Machine { Reset(s0.regs, s0.mem, s0.pc) }

  lemma ResetRefines(cfg: Config, s0: SeqState)
    requires RegsNamed(s0.regs) && !s0.halted
    ensures Refines(cfg, Initial(s0), s0)
  {
    hide Done, CodeAt, Complete;
    StartState(s0);
  }

  /** The refinement theorem. For every program, configuration and number of cycles `t` whose first `t`
      positions satisfy the guard, the run raises no exception; what it retired is a prefix of the
      sequential run, and registers, memory and latches stand where that run stands. */
  lemma {:induction false} RunRefines(cfg: Config, s0: SeqState, junk: nat -> bool, t: nat)
    requires RegsNamed(s0.regs) && !s0.halted && Guarded(cfg, s0, t)
    ensures Run(cfg, Initial(s0), junk, t).Ok?
    ensures var m := Run(cfg, Initial(s0), junk, t).value;
      Refines(cfg, m, s0) && (m.halted || (m.clocks == t && PosFd(m) <= t))
  {
    hide Cycle, Refines, GoodAt, Done, St, BeforeDecode, AtDecode, Initial;
    if t == 0 {
      ResetRefines(cfg, s0);
      InitialPosition(s0);
    } else {
      RunRefines(cfg, s0, junk, t - 1);
      var p := Run(cfg, Initial(s0), junk, t - 1).value;
      if !p.halted {
        GuardedIsClear(cfg, s0, p, t);
        CycleRefines(cfg, p, s0, junk(t - 1));
        CycleAdvances(cfg, p, s0, junk(t - 1));
      }
    }
  }

  /** A run that has thrown or halted stays so. */
  lemma {:induction false} RunEnds(cfg: Config, m: Machine, junk: nat -> bool, t: nat, limit: nat)
    requires t <= limit
    ensures var r := Run(cfg, m, junk, t); r.Err? || r.value.halted ==> Run(cfg, m, junk, limit) == r
  {
    hide Cycle;
    if t < limit { RunEnds(cfg, m, junk, t, limit - 1); }
  }

  lemma InitialPosition(s0: SeqState)
    ensures PosFd(Initial(s0)) == 0 && Initial(s0).clocks == 0
  {
  }

  lemma CycleAdvances(cfg: Config, m: Machine, s0: SeqState, junk: bool)
    requires Refines(cfg, m, s0) && !m.halted && Clear(cfg, s0, m) && Cycle(cfg, m, junk).Ok?
    ensures var n := Cycle(cfg, m, junk).value;
      && PosMw(n) == PosEm(m) && PosEm(n) == PosDe(m) && PosDe(n) <= PosFd(m)
      && (!n.em.load.hazard ==> PosDe(n) == PosFd(m)) && n.clocks == m.clocks + 1
  {
    hide Cycle, Refines, GoodAt, Done, St, BeforeDecode, AtDecode, BackEndGood, Running;
    BoundaryGood(cfg, m, s0);
    BeforeDecodeRefines(cfg, m, s0);
    PositionGrows(cfg, m, s0, junk);
  }
}
