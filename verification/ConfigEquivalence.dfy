/** The store-queue switch (headers/Config.h, src/PerfSim.cpp:128-147): the queue is empty at every cycle
    boundary, and the two settings agree exactly while no fetched word is stored to in the same cycle. */
module ConfigEquivalence {
  import opened Isa
  import opened Decoding
  import opened Executors
  import opened Memories
  import opened StoreQueues
  import opened Machines
  import opened Scoreboard
  import opened Sequential
  import opened Refinement

  function Queued(repaired: bool): Config { Config(true, repaired) }
  function Direct(repaired: bool): Config { Config(false, repaired) }

  predicate QueueEmpty(m: Machine) { m.sq.queue == [] && m.sq.pending == NO_STORE }

  /** Equal but for memory and queue. */
  predicate SameButMem(a: Machine, b: Machine) { b == a.(mem := b.mem, sq := b.sq) }

  /** Equal but for the store counter. */
  predicate SameButId(a: Machine, b: Machine) { b == a.(sq := a.sq.(id := b.sq.id)) }

  // ---- The queue over whole runs ----

  lemma CycleEmptiesQueue(cfg: Config, m: Machine, junk: bool)
    requires QueueEmpty(m) && Cycle(cfg, m, junk).Ok?
    ensures QueueEmpty(Cycle(cfg, m, junk).value)
  {
    hide WriteBack, ExecuteStage, DecodeStage, Fetch, Apply;
    var m1 := WriteBack(cfg, m);
    WbFrame(cfg, m);
    AccessKeepsQueue(cfg, m1);
    var m2 := MemoryAccess(cfg, m1).value;
    hide MemoryAccess;
    LaterKeepQueue(cfg, m2, junk);
  }

  lemma AccessKeepsQueue(cfg: Config, m: Machine)
    requires MemoryAccess(cfg, m).Ok?
    ensures MemoryAccess(cfg, m).value.sq.queue == m.sq.queue
  {
    hide Loaded, ReadData, WriteWord, Release, Index, InBounds;
  }

  lemma LaterKeepQueue(cfg: Config, m: Machine, junk: bool)
    requires DecodeStage(cfg, ExecuteStage(cfg, m), junk).Ok?
    requires Fetch(DecodeStage(cfg, ExecuteStage(cfg, m), junk).value).Ok?
    ensures Fetch(DecodeStage(cfg, ExecuteStage(cfg, m), junk).value).value.sq == m.sq
  {
    ExecuteKeeps(cfg, m);
    var w := ExecuteStage(cfg, m);
    hide ExecuteStage, FrontAfterEx;
    DecodeKeepsMem(cfg, w, junk);
    var d := DecodeStage(cfg, w, junk).value;
    hide DecodeStage;
    FetchKeepsMem(d);
  }

  lemma DecodeKeepsMem(cfg: Config, m: Machine, junk: bool)
    requires DecodeStage(cfg, m, junk).Ok?
    ensures var d := DecodeStage(cfg, m, junk).value; d.sq == m.sq && d.mem == m.mem
  {
    hide ReadSources, MakeInstr, Recognize, Rd;
    if LiveFD(m.fd.load) && m.de.stop == 0 { SourcesKeep(cfg, m, m.fd.load.word); }
  }

  lemma FetchKeepsMem(m: Machine)
    requires Fetch(m).Ok?
    ensures Fetch(m).value.sq == m.sq && Fetch(m).value.mem == m.mem
  {
    hide ReadWord, Index, InBounds, Following;
  }

  /** In every run the queue is empty at the start of every cycle, so a push finds it empty and the
      merging loop of `tryConcatenate` has nothing to run over. */
  lemma {:induction false} QueueAlwaysEmpty(cfg: Config, regs: RegVector, mem: Mem, entry: Word, junk: nat -> bool, t: nat)
    requires Run(cfg, Reset(regs, mem, entry), junk, t).Ok?
    ensures QueueEmpty(Run(cfg, Reset(regs, mem, entry), junk, t).value)
  {
    hide Cycle;
    if t > 0 {
      QueueAlwaysEmpty(cfg, regs, mem, entry, junk, t - 1);
      var p := Run(cfg, Reset(regs, mem, entry), junk, t - 1).value;
      if !p.halted { CycleEmptiesQueue(cfg, p, junk(t - 1)); }
    }
  }

  // ---- Two machines side by side ----

  /** `b` has written what `a` has queued. */
  ghost predicate Twin(a: Machine, b: Machine) {
    && SameButMem(a, b) && a.sq.queue == [] && QueueEmpty(b)
    && b.mem == Apply(a.sq.pending, a.mem)
  }

  predicate PendingFits(a: Machine) { a.sq.pending.size > 0 ==> InBounds(a.mem, a.sq.pending.addr, a.sq.pending.size) }

  /** Every live instruction before MEM carries a row of the opcode table. */
  predicate Tabled(m: Machine) {
    && (Live(m.em.load) ==> Fits(RowOf(m.em.load.instr)))
    && (Live(m.de.load) ==> Fits(RowOf(m.de.load.instr)))
  }

  /** Queued, a store never fails yet; direct, it fails when it does not fit. */
  lemma StoreTwins(r: bool, m: Machine, m': Machine, i: Instr)
    requires QueueEmpty(m) && SameButId(m, m') && AccessSize(i.accSize)
    ensures var a := StoreData(Queued(r), m, i); var b := StoreData(Direct(r), m', i);
      && a.Ok? && (b.Ok? <==> PendingFits(a.value)) && (b.Ok? ==> Twin(a.value, b.value))
  {
    hide WriteWord, Index;
    BubbleWritesNothing(WriteWord(m.mem, Index(i.addr), i.accSize, i.rs2.value));
  }

  lemma LoadTwins(r: bool, m: Machine, m': Machine, i: Instr)
    requires QueueEmpty(m) && SameButId(m, m')
    ensures ReadData(Queued(r), m, i) == ReadData(Direct(r), m', i)
  {
    hide ReadWord, Index;
    if InBounds(m.mem, Index(i.addr), i.accSize) {
      EmptyQueueReads(m.mem, Index(i.addr), i.accSize, 0);
      FromMemoryIsRead(m.mem, Index(i.addr), i.accSize);
    }
  }

  lemma PassTwins(a: Machine, b: Machine, i: Instr)
    requires Twin(a, b)
    ensures Twin(PassToMw(a, i), PassToMw(b, i))
  {
    hide Apply;
  }

  lemma MemTwins(r: bool, m: Machine, m': Machine)
    requires QueueEmpty(m) && SameButId(m, m') && Tabled(m)
    ensures var a := MemoryAccess(Queued(r), m); var b := MemoryAccess(Direct(r), m');
      && (b.Ok? <==> a.Ok? && PendingFits(a.value)) && (b.Ok? ==> Twin(a.value, b.value))
  {
    hide StoreData, ReadData, Loaded, Apply, PassToMw, Release, InBounds;
    BubbleWritesNothing(m.mem);
    var l := m.em.load;
    if Live(l) && IsStore(l.instr) {
      StoreTwins(r, m, m', l.instr);
      var a := StoreData(Queued(r), m, l.instr).value;
      PassKeepsQueue(a, l.instr);
      if StoreData(Direct(r), m', l.instr).Ok? { PassTwins(a, StoreData(Direct(r), m', l.instr).value, l.instr); }
    } else if Live(l) && IsLoad(l.instr) {
      LoadTwins(r, m, m', l.instr);
      if ReadData(Queued(r), m, l.instr).Ok? {
        var i := Loaded(l.instr, ReadData(Queued(r), m, l.instr).value);
        PassTwins(m, m', i);
        PassKeepsQueue(m, i);
      }
    } else {
      SameRelease(r, m.rf, l.instr);
      PassTwins(m, m', l.instr);
      PassKeepsQueue(m, l.instr);
    }
  }

  lemma SameRelease(r: bool, rf: RegState, i: Instr)
    ensures Release(Queued(r), rf, i) == Release(Direct(r), rf, i)
  {
  }

  lemma PassKeepsQueue(m: Machine, i: Instr)
    ensures PassToMw(m, i).sq == m.sq && PassToMw(m, i).mem == m.mem
  {
  }

  lemma ExecuteTwins(r: bool, a: Machine, b: Machine)
    requires Twin(a, b)
    ensures Twin(ExecuteStage(Queued(r), a), ExecuteStage(Direct(r), b))
    ensures ExecuteStage(Queued(r), a).sq == a.sq && ExecuteStage(Queued(r), a).mem == a.mem
  {
    hide Execute, Redirects, Apply, Release;
    SameRelease(r, a.rf, a.de.load.instr);
  }

  lemma StallTwins(r: bool, a: Machine, b: Machine)
    requires Twin(a, b)
    ensures Twin(Stall(Queued(r), a), Stall(Direct(r), b))
    ensures Stall(Queued(r), a).sq == a.sq && Stall(Queued(r), a).mem == a.mem
  {
    hide Apply;
  }

  lemma OperandTwins(r: bool, a: Machine, b: Machine, n: RegNum, need: NeededIn)
    requires Twin(a, b)
    ensures var x := ReadOperand(Queued(r), a, n, need); var y := ReadOperand(Direct(r), b, n, need);
      && (x.Ok? <==> y.Ok?)
      && (x.Ok? ==> Twin(x.value.0, y.value.0) && x.value.1 == y.value.1 && x.value.0.sq == a.sq && x.value.0.mem == a.mem)
  {
    hide Apply, Stall;
    StallTwins(r, a, b);
  }

  lemma SourceTwins(r: bool, a: Machine, b: Machine, w: Word)
    requires Twin(a, b)
    ensures var x := ReadSources(Queued(r), a, w); var y := ReadSources(Direct(r), b, w);
      && (x.Ok? <==> y.Ok?)
      && (x.Ok? ==> Twin(x.value.0, y.value.0) && x.value.1 == y.value.1 && x.value.2 == y.value.2)
  {
    hide Apply, Recognize, Rs1, Rs2, NeedOfRs2, ReadOperand, Twin;
    var t := Recognize(w).typ;
    var a1, b1 := a, b;
    if ReadsRs1(t) {
      OperandTwins(r, a, b, Rs1(w), NeedExecute);
      if ReadOperand(Queued(r), a, Rs1(w), NeedExecute).Ok? {
        a1, b1 := ReadOperand(Queued(r), a, Rs1(w), NeedExecute).value.0, ReadOperand(Direct(r), b, Rs1(w), NeedExecute).value.0;
      }
    }
    if ReadsRs2(t) { OperandTwins(r, a1, b1, Rs2(w), NeedOfRs2(w)); }
  }

  lemma DecodeTwins(r: bool, a: Machine, b: Machine, junk: bool)
    requires Twin(a, b)
    ensures var x := DecodeStage(Queued(r), a, junk); var y := DecodeStage(Direct(r), b, junk);
      (x.Ok? <==> y.Ok?) && (x.Ok? ==> Twin(x.value, y.value))
  {
    hide Apply, Recognize, Rd, MakeInstr, ReadSources;
    SourceTwins(r, a, b, a.fd.load.word);
  }

  // ---- The race ----

  /** IF fetches in this cycle, and the store now pending changes the word it fetches. */
  ghost predicate Races(d: Machine) {
    && !d.wf.load.isStall && !d.wf.load.hazard && d.fd.stop == 0
    && var pc := Index(FetchPc(d.wf.load)); ReadWord(d.mem, pc, 4) != ReadWord(Apply(d.sq.pending, d.mem), pc, 4)
  }

  function ToDecoded(cfg: Config, m: Machine, junk: bool): Outcome<Machine> {
    var w :- BeforeDecode(cfg, m);
    DecodeStage(cfg, w, junk)
  }

  /** In the cycle from `m`, the store in MEM rewrites the word that IF fetches. */
  ghost predicate FetchRace(r: bool, m: Machine, junk: bool) {
    var d := ToDecoded(Queued(r), m, junk); d.Ok? && Races(d.value)
  }

  lemma FetchTwins(a: Machine, b: Machine)
    requires Twin(a, b) && PendingFits(a)
    ensures Finish(a).Ok? <==> Finish(b).Ok?
    ensures Finish(a).Ok? ==> (SameButId(Finish(a).value, Finish(b).value) <==> !Races(a))
  {
    hide ReadWord, Index, Following, WriteWord;
    BubbleWritesNothing(b.mem);
  }

  lemma UnfitFails(a: Machine)
    requires a.sq.queue == [] && !PendingFits(a)
    ensures Finish(a).Err?
  {
    hide ReadWord, Index, Following, Apply;
  }

  lemma WbTwins(r: bool, m: Machine, m': Machine)
    requires SameButId(m, m')
    ensures SameButId(WriteBack(Queued(r), m), WriteBack(Direct(r), m'))
    ensures Tabled(m) ==> Tabled(WriteBack(Queued(r), m))
  {
    SameRelease(r, m.rf, m.mw.load.instr);
    hide Release, WriteBackReg;
  }

  lemma DecodedTwins(r: bool, m: Machine, m': Machine, junk: bool)
    requires QueueEmpty(m) && SameButId(m, m') && Tabled(m)
    ensures var x := ToDecoded(Queued(r), m, junk); var y := ToDecoded(Direct(r), m', junk);
      && (y.Ok? <==> x.Ok? && PendingFits(x.value)) && (y.Ok? ==> Twin(x.value, y.value))
      && (x.Ok? ==> x.value.sq.queue == [])
  {
    hide WriteBack, MemoryAccess, ExecuteStage, DecodeStage, Twin, PendingFits, Tabled;
    WbTwins(r, m, m');
    var m1, m1' := WriteBack(Queued(r), m), WriteBack(Direct(r), m');
    WbFrame(Queued(r), m);
    MemTwins(r, m1, m1');
    if MemoryAccess(Queued(r), m1).Ok? {
      var a := MemoryAccess(Queued(r), m1).value;
      AccessKeepsQueue(Queued(r), m1);
      ExecuteKeeps(Queued(r), a);
      if DecodeStage(Queued(r), ExecuteStage(Queued(r), a), junk).Ok? { DecodeKeepsMem(Queued(r), ExecuteStage(Queued(r), a), junk); }
      SameFits(a, if ToDecoded(Queued(r), m, junk).Ok? then ToDecoded(Queued(r), m, junk).value else a);
      if MemoryAccess(Direct(r), m1').Ok? {
        var b := MemoryAccess(Direct(r), m1').value;
        ExecuteTwins(r, a, b);
        DecodeTwins(r, ExecuteStage(Queued(r), a), ExecuteStage(Direct(r), b), junk);
      }
    }
  }

  lemma SameFits(a: Machine, b: Machine)
    ensures a.sq == b.sq && a.mem == b.mem ==> PendingFits(a) == PendingFits(b)
  {
  }

  lemma CycleFinishes(cfg: Config, m: Machine, junk: bool)
    ensures Cycle(cfg, m, junk).Ok? <==> ToDecoded(cfg, m, junk).Ok? && Finish(ToDecoded(cfg, m, junk).value).Ok?
    ensures Cycle(cfg, m, junk).Ok? ==> Cycle(cfg, m, junk) == Finish(ToDecoded(cfg, m, junk).value)
  {
    hide WriteBack, MemoryAccess, ExecuteStage, DecodeStage, Fetch, Update;
  }

  /** One cycle with and without the store queue: both raise an exception or neither does, and then they
      agree on everything but the store counter if and only if no fetched word is being stored to. */
  lemma SwitchExact(r: bool, m: Machine, m': Machine, junk: bool)
    requires QueueEmpty(m) && SameButId(m, m') && Tabled(m)
    ensures Cycle(Queued(r), m, junk).Ok? <==> Cycle(Direct(r), m', junk).Ok?
    ensures Cycle(Queued(r), m, junk).Ok? ==>
      (SameButId(Cycle(Queued(r), m, junk).value, Cycle(Direct(r), m', junk).value) <==> !FetchRace(r, m, junk))
  {
    hide Cycle, ToDecoded, Finish, Twin, PendingFits, Races, Tabled, QueueEmpty;
    DecodedTwins(r, m, m', junk);
    CycleFinishes(Queued(r), m, junk);
    CycleFinishes(Direct(r), m', junk);
    var x := ToDecoded(Queued(r), m, junk);
    if x.Ok? {
      if PendingFits(x.value) {
        FetchTwins(x.value, ToDecoded(Direct(r), m', junk).value);
      } else {
        UnfitFails(x.value);
      }
    }
  }

  // ---- Whole runs ----
  lemma CycleKeepsTabled(cfg: Config, m: Machine, junk: bool)
    requires LocksConserved(m) && Tabled(m) && Cycle(cfg, m, junk).Ok?
    ensures Tabled(Cycle(cfg, m, junk).value)
  {
    hide WriteBack, MemoryAccess, ExecuteStage, Cycle, AfterDecode, LocksConserved, Release, FrontAfterEx,
         Execute, AfterEx, AfterWb, AfterMem;
    CycleOk(cfg, m, junk);
    BeforeDecodeStep(cfg, m);
    var m1 := WriteBack(cfg, m);
    WbFrame(cfg, m);
    MemFrame(cfg, m1);
    var m2 := MemoryAccess(cfg, m1).value;
    ExecuteKeeps(cfg, m2);
    CycleSplits(cfg, m, junk);
    AfterDecodeTabled(cfg, ExecuteStage(cfg, m2), junk);
  }

  lemma CycleOk(cfg: Config, m: Machine, junk: bool)
    requires Cycle(cfg, m, junk).Ok?
    ensures MemoryAccess(cfg, WriteBack(cfg, m)).Ok?
  {
    hide WriteBack, MemoryAccess, ExecuteStage, DecodeStage, Fetch, Update;
  }

  /** What ID leaves behind for DE. */
  lemma DecodedRow(cfg: Config, w: Machine, junk: bool)
    requires DecodeStage(cfg, w, junk).Ok? && LiveFD(w.fd.load) && w.de.stop == 0
    ensures var i := DecodeStage(cfg, w, junk).value.de.store.instr; Fits(RowOf(i))
  {
    hide ReadSources, Recognize, Rd;
    RecognizeFits(w.fd.load.word);
    SourcesKeep(cfg, w, w.fd.load.word);
  }

  lemma DeAfterFinish(cfg: Config, w: Machine, junk: bool)
    requires AfterDecode(cfg, w, junk).Ok?
    ensures DecodeStage(cfg, w, junk).Ok?
    ensures var n := AfterDecode(cfg, w, junk).value; var d := DecodeStage(cfg, w, junk).value;
      n.de == Swap(d.de, CLEAR) && d.de.stop == w.de.stop && d.de.load == w.de.load
      && (!LiveFD(w.fd.load) && w.de.stop == 0 ==> d.de.store.isStall)
  {
    hide ReadSources, MakeInstr, Recognize, Rd, Advance, ReadWord, Following, Index, InBounds;
    if LiveFD(w.fd.load) && w.de.stop == 0 { SourcesKeep(cfg, w, w.fd.load.word); }
  }

  lemma AfterDecodeTabled(cfg: Config, w: Machine, junk: bool)
    requires AfterEx(w) && AfterDecode(cfg, w, junk).Ok?
    requires !w.em.store.isStall ==> Fits(RowOf(w.em.store.instr))
    ensures Tabled(AfterDecode(cfg, w, junk).value)
  {
    hide AfterDecode, DecodeStage, RegsNamed;
    LaterStages(cfg, w, junk);
    DeAfterFinish(cfg, w, junk);
    if LiveFD(w.fd.load) && w.de.stop == 0 { DecodedRow(cfg, w, junk); }
  }

  /** In cycle `k` of the run, completed, a fetch races with a store. */
  ghost predicate RacesAt(r: bool, m: Machine, junk: nat -> bool, k: nat) {
    var a := Run(Queued(r), m, junk, k);
    a.Ok? && !a.value.halted && Cycle(Queued(r), a.value, junk(k)).Ok? && FetchRace(r, a.value, junk(k))
  }

  /** No cycle before `t` races. */
  ghost predicate RaceFree(r: bool, m: Machine, junk: nat -> bool, t: nat) {
    forall k: nat | k < t :: !RacesAt(r, m, junk, k)
  }

  /** After `t` cycles both runs have raised an exception, or they stand in the same state. */
  ghost predicate AgreeAt(r: bool, m: Machine, junk: nat -> bool, t: nat) {
    var a := Run(Queued(r), m, junk, t);
    var b := Run(Direct(r), m, junk, t);
    (a.Ok? <==> b.Ok?) && (a.Ok? ==> SameButId(a.value, b.value))
  }

  /** What the two runs have in common at a boundary. */
  ghost predicate InTune(r: bool, m: Machine, junk: nat -> bool, t: nat) {
    && AgreeAt(r, m, junk, t)
    && var a := Run(Queued(r), m, junk, t); a.Ok? ==> Tabled(a.value) && QueueEmpty(a.value) && LocksConserved(a.value)
  }

  /** In tune at `t`, the runs agree at `t + 1` if and only if cycle `t` does not race. */
  lemma InTuneStep(r: bool, m: Machine, junk: nat -> bool, t: nat)
    requires InTune(r, m, junk, t)
    ensures AgreeAt(r, m, junk, t + 1) <==> !RacesAt(r, m, junk, t)
    ensures AgreeAt(r, m, junk, t + 1) ==> InTune(r, m, junk, t + 1)
  {
    hide Cycle, FetchRace, Tabled, LocksConserved, QueueEmpty;
    var a := Run(Queued(r), m, junk, t);
    if a.Ok? && !a.value.halted {
      SwitchExact(r, a.value, Run(Direct(r), m, junk, t).value, junk(t));
      if Cycle(Queued(r), a.value, junk(t)).Ok? {
        CycleKeepsTabled(Queued(r), a.value, junk(t));
        CycleEmptiesQueue(Queued(r), a.value, junk(t));
        CycleConservesLocks(Queued(r), a.value, junk(t));
      }
    }
  }

  /** Over whole runs the switch is invisible as long as no fetch races with a store: both raise an exception or
      neither does, and at every boundary registers, memory, latches and counters are the same. */
  lemma {:induction false} SwitchInvisible(r: bool, s0: SeqState, junk: nat -> bool, t: nat)
    requires RegsNamed(s0.regs) && RaceFree(r, Initial(s0), junk, t)
    ensures InTune(r, Initial(s0), junk, t)
  {
    hide InTune, RacesAt, Initial;
    if t == 0 {
      InitialInTune(r, s0, junk);
    } else {
      SwitchInvisible(r, s0, junk, t - 1);
      InTuneStep(r, Initial(s0), junk, t - 1);
    }
  }

  lemma InitialInTune(r: bool, s0: SeqState, junk: nat -> bool)
    requires RegsNamed(s0.regs)
    ensures InTune(r, Initial(s0), junk, 0)
  {
    hide Tabled, LocksConserved, QueueEmpty;
    InitialTabled(s0);
  }

  /** The two settings agree at every boundary up to `t` if and only if no cycle before `t` races. */
  lemma {:induction false} SwitchInvisibleExactly(r: bool, s0: SeqState, junk: nat -> bool, t: nat)
    requires RegsNamed(s0.regs)
    ensures (forall k: nat | k <= t :: AgreeAt(r, Initial(s0), junk, k)) <==> RaceFree(r, Initial(s0), junk, t)
  {
    hide InTune, RacesAt, AgreeAt, Initial;
    if t == 0 {
      InitialAgrees(r, s0, junk);
    } else {
      SwitchInvisibleExactly(r, s0, junk, t - 1);
      if RaceFree(r, Initial(s0), junk, t - 1) {
        SwitchInvisible(r, s0, junk, t - 1);
        InTuneStep(r, Initial(s0), junk, t - 1);
        assert RaceFree(r, Initial(s0), junk, t) <==> !RacesAt(r, Initial(s0), junk, t - 1);
      }
    }
  }

  lemma InitialAgrees(r: bool, s0: SeqState, junk: nat -> bool)
    ensures AgreeAt(r, Initial(s0), junk, 0)
  {
    hide Initial;
  }

  lemma InitialTabled(s0: SeqState)
    requires RegsNamed(s0.regs)
    ensures Tabled(Initial(s0)) && LocksConserved(Initial(s0)) && QueueEmpty(Initial(s0))
  {
  }
}
