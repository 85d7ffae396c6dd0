/** The guard is exact: over every program whose code is sound, the pipeline runs it as the sequential machine
    does if and only if each position is harmless (src/PerfSim.cpp, src/HazardUnit.cpp). */
module Exactness {
  import opened Isa
  import opened Decoding
  import opened Executors
  import opened Memories
  import opened StoreQueues
  import opened Machines
  import opened Scoreboard
  import opened Sequential
  import opened Refinement
  import opened Latches
  import opened Accounting
  import opened Termination
  import opened Departures
  import opened Abort
  import opened Derail

  // ---- Every position is reached ----

  /** Position `k` stands in DE. */
  ghost predicate Arrives(cfg: Config, m: Machine, s0: SeqState, k: nat) {
    OnSchedule(cfg, m, s0) && Running(cfg, m, s0) && PosDe(m) == k && Live(m.de.load)
  }

  ghost predicate ArrivesAt(cfg: Config, s0: SeqState, junk: nat -> bool, k: nat, t: nat) {
    var r := Run(cfg, Initial(s0), junk, t);
    r.Ok? && r.value.clocks == t && Arrives(cfg, r.value, s0, k)
  }

  /** On its way to position `k` after `t` cycles. */
  ghost predicate Coming(cfg: Config, s0: SeqState, junk: nat -> bool, k: nat, t: nat) {
    var r := Run(cfg, Initial(s0), junk, t);
    r.Ok? && r.value.clocks == t && OnSchedule(cfg, r.value, s0) && PosFd(r.value) <= k
  }

  lemma ComingStep(cfg: Config, s0: SeqState, junk: nat -> bool, k: nat, t: nat)
    requires Guarded(cfg, s0, k) && Enters(cfg, s0, k) && !St(s0, k).halted && Coming(cfg, s0, junk, k, t)
    ensures Coming(cfg, s0, junk, k, t + 1) || ArrivesAt(cfg, s0, junk, k, t + 1)
  {
    hide Cycle, St, GoodAt, Enters, Running, InStep, LocksConserved, Initial, Counted;
    var m := Run(cfg, Initial(s0), junk, t).value;
    BeforeIsRunning(cfg, m, s0, k);
    RunningIsAwake(cfg, m, s0);
    ComingIsClear(cfg, s0, m, k);
    CycleOnSchedule(cfg, m, s0, junk(t));
    CycleAdvances(cfg, m, s0, junk(t));
    BeforeIsRunning(cfg, Cycle(cfg, m, junk(t)).value, s0, k);
  }

  lemma ComingIsClear(cfg: Config, s0: SeqState, m: Machine, k: nat)
    requires Guarded(cfg, s0, k) && Enters(cfg, s0, k) && PosFd(m) <= k
    ensures Clear(cfg, s0, m)
  {
    hide SoundAt, FreeOfUse, FreeOfClash;
    if PosFd(m) < k { GuardedIsClear(cfg, s0, m, k); }
  }

  /** Whoever is still on the way is early. */
  lemma ComingIsEarly(cfg: Config, s0: SeqState, junk: nat -> bool, k: nat, t: nat)
    requires Coming(cfg, s0, junk, k, t) && !St(s0, k).halted
    ensures t <= 3 * k + 1
  {
    hide Cycle, St, Running, InStep, LocksConserved, Initial, CountedRunning, Counted;
    BeforeIsRunning(cfg, Run(cfg, Initial(s0), junk, t).value, s0, k);
  }

  lemma {:induction false} ReachFrom(cfg: Config, s0: SeqState, junk: nat -> bool, k: nat, t: nat) returns (u: nat)
    requires Guarded(cfg, s0, k) && Enters(cfg, s0, k) && !St(s0, k).halted && Coming(cfg, s0, junk, k, t)
    ensures t < u <= 3 * k + 2 && ArrivesAt(cfg, s0, junk, k, u)
    decreases 3 * k + 2 - t
  {
    hide Coming, ArrivesAt, St, GoodAt, Enters;
    ComingIsEarly(cfg, s0, junk, k, t);
    ComingStep(cfg, s0, junk, k, t);
    if ArrivesAt(cfg, s0, junk, k, t + 1) {
      u := t + 1;
    } else {
      u := ReachFrom(cfg, s0, junk, k, t + 1);
    }
  }

  /** Every position that runs, with nothing harmful before it, comes to EX within 3k + 2 cycles. */
  lemma Reach(cfg: Config, s0: SeqState, junk: nat -> bool, k: nat) returns (u: nat)
    requires RegsNamed(s0.regs) && !s0.halted
    requires Guarded(cfg, s0, k) && Enters(cfg, s0, k) && !St(s0, k).halted
    ensures 0 < u <= 3 * k + 2 && ArrivesAt(cfg, s0, junk, k, u)
  {
    hide St, GoodAt, Enters, Cycle, OnSchedule, Initial;
    InitialOnSchedule(cfg, s0);
    InitialPosition(s0);
    assert Coming(cfg, s0, junk, k, 0);
    u := ReachFrom(cfg, s0, junk, k, 0);
  }

  // ---- The next position follows at once ----

  /** Behind a sequential instruction that is no load, as seen by the interlock as written, nothing waits. */
  ghost predicate FollowsFreely(s0: SeqState, k: nat) {
    var i := Done(St(s0, k));
    !St(s0, k + 1).halted && !Redirects(i) && !LoadUse(Config(false, false), i, CodeAt(St(s0, k + 1)))
  }

  lemma NextDecoded(cfg: Config, m: Machine, w: Machine, s0: SeqState, k: nat, junk: bool)
    requires InStep(m, s0) && AtDecode(m, w, s0) && Running(cfg, m, s0) && Live(m.de.load) && PosDe(m) == k
    requires SoundAt(s0, k) && SoundAt(s0, k + 1) && FollowsFreely(s0, k)
    requires !St(s0, PosEm(m)).halted
    ensures DecodeStage(cfg, w, junk).Ok? && DecodedNext(DecodeStage(cfg, w, junk).value, s0, PosEm(m))
  {
    hide Done, St, InStep, CodeAt, Recognize, Execute, Redirects, Following, Fetchable, CodeStable, FetchReady,
         Index, InBounds, Rs1, Rs2, FetchedBefore, Ready, SoundAt, SourceHit, LoadUse, DecodedNext, DecodeStage;
    BusyIsStraight(cfg, m, s0);
    SoundBounds(s0, k);
    ExecutedFacts(m, w, s0);
    JumpKept(Done(St(s0, k)), w.em.store.instr);
    StStep(s0, k);
    OnPathPc(cfg, m, w, s0);
    SoundBounds(s0, k + 1);
    StraightWord(cfg, m, s0);
    HitGuard(Config(false, false), m, w, s0);
    DecodeNext(cfg, m, w, s0, junk);
  }

  lemma NextIsBusy(cfg: Config, m: Machine, s0: SeqState, k: nat, junk: bool)
    requires Refines(cfg, m, s0) && Running(cfg, m, s0) && Live(m.de.load) && PosDe(m) == k
    requires SoundUpTo(s0, k + 2) && FollowsFreely(s0, k) && Cycle(cfg, m, junk).Ok?
    ensures Live(Cycle(cfg, m, junk).value.de.load)
  {
    hide Cycle, St, Done, SoundAt, InStep, LocksConserved, AtDecode, BackEndGood, Running, DecodeStage, Finish, DecodedNext,
         FollowsFreely, BeforeDecode;
    RunningIsAwake(cfg, m, s0);
    BoundaryBack(cfg, m, s0);
    BeforeDecodeRefines(cfg, m, s0);
    CycleSplits(cfg, m, junk);
    var w := BeforeDecode(cfg, m).value;
    NextDecoded(cfg, m, w, s0, k, junk);
    NextInLatches(cfg, DecodeStage(cfg, w, junk).value, s0, PosEm(m));
  }

  lemma NextFollows(cfg: Config, m: Machine, s0: SeqState, k: nat, junk: bool)
    requires Arrives(cfg, m, s0, k) && Guarded(cfg, s0, k + 1) && Enters(cfg, s0, k + 1) && FollowsFreely(s0, k)
    ensures Cycle(cfg, m, junk).Ok?
    ensures Arrives(cfg, Cycle(cfg, m, junk).value, s0, k + 1) && Live(Cycle(cfg, m, junk).value.em.load)
    ensures Cycle(cfg, m, junk).value.clocks == m.clocks + 1
  {
    hide Cycle, St, Done, GoodAt, Enters, InStep, LocksConserved, Running, Counted, Quick, CountedRunning, SoundAt;
    RunningIsAwake(cfg, m, s0);
    ComingIsClear(cfg, s0, m, k + 1);
    CycleOnSchedule(cfg, m, s0, junk);
    CycleAdvances(cfg, m, s0, junk);
    EntersIsSound(cfg, s0, k + 1);
    NextIsBusy(cfg, m, s0, k, junk);
    var n := Cycle(cfg, m, junk).value;
    EmClean(n, s0);
    BeforeIsRunning(cfg, n, s0, k + 1);
  }

  lemma EmClean(m: Machine, s0: SeqState)
    requires BackEnd(m, s0)
    ensures !m.em.load.hazard
  {
    hide InStep;
    EmIsLive(m, s0);
  }

  lemma EntersIsSound(cfg: Config, s0: SeqState, n: nat)
    requires Guarded(cfg, s0, n) && Enters(cfg, s0, n)
    ensures SoundUpTo(s0, n + 1)
  {
    hide SoundAt, FreeOfUse, FreeOfClash;
    forall k: nat | k < n + 1 ensures SoundAt(s0, k) {
      if k < n { assert GoodAt(cfg, s0, k); }
    }
  }

  lemma NextInLatches(cfg: Config, d: Machine, s0: SeqState, x: nat)
    requires DecodedNext(d, s0, x)
    ensures Finish(d).Ok? && Live(Finish(d).value.de.load)
  {
    hide Done, TraceRight, RegsAgree, Finish, WordAt, CodeAt, Fetchable, St, Complete, Issue, Redirects,
         BackEndAccessed, Following;
    FetchCommits(d, s0, x);
  }

  // ---- A clash spoils a register ----

  /** The word behind a jump is not rewritten while it may be fetched. */
  ghost predicate ShadowStable(s0: SeqState, k: nat) {
    var s := St(s0, k);
    !s.halted && Redirects(Done(s)) ==>
      forall j: nat | j <= k <= j + 2 :: WordAt(St(s0, j).mem, Following(s.pc)) == WordAt(s.mem, Following(s.pc))
  }

  /** The jump at position `k` clashes with the instruction ahead of it. */
  ghost predicate ClashingJump(s0: SeqState, k: nat) {
    && k > 0 && !St(s0, k).halted && Redirects(Done(St(s0, k))) && !Redirects(Done(St(s0, k - 1)))
    && Clobbers(Done(St(s0, k - 1)), Done(St(s0, k)), St(s0, k - 1), WordAt(St(s0, k).mem, Following(St(s0, k).pc)))
    && ShadowStable(s0, k)
  }

  lemma ShadowWord(s0: SeqState, k: nat, pc: Word, w: Word)
    requires ShadowStable(s0, k) && !St(s0, k).halted && Redirects(Done(St(s0, k)))
    requires FetchedBefore(s0, k + 1, k, pc, w) && pc == Following(St(s0, k).pc)
    ensures w == WordAt(St(s0, k).mem, pc)
  {
    hide St, Done, WordAt, Following, Redirects;
  }

  /** With the clashing jump in DE and the writer ahead of it in EM, the clash is on the machine. */
  lemma ClashOnMachine(cfg: Config, m: Machine, w: Machine, s0: SeqState, k: nat)
    requires InStep(m, s0) && AtDecode(m, w, s0) && Running(cfg, m, s0) && Live(m.de.load) && Live(m.em.load)
    requires PosDe(m) == k && ClashingJump(s0, k) && SoundAt(s0, k)
    ensures MachineClash(w) && Redirects(w.em.store.instr) && Straight(cfg, m, s0)
    ensures Recognize(CodeAt(St(s0, k))).name != Unnamed && Fetchable(s0.mem, m.wf.load.pc)
  {
    hide Done, St, InStep, CodeAt, Recognize, Execute, Redirects, Following, Fetchable, CodeStable, FetchReady,
         Index, InBounds, FetchedBefore, Ready, SoundAt, Clobbers, MachineClash, WordAt, ShadowStable;
    BusyIsStraight(cfg, m, s0);
    SoundBounds(s0, k);
    ExecutedFacts(m, w, s0);
    JumpKept(Done(St(s0, k)), w.em.store.instr);
    MovedFacts(m, w, s0);
    DePc(m, s0);
    ShadowWord(s0, k, m.fd.load.pc, m.fd.load.word);
    ClashInProgram(m, w, s0);
    JumpFetches(cfg, m, w, s0);
  }

  /** The cycle of a clashing jump leaves a cancelled writer whose release will do harm. */
  ghost predicate Poisoned(m: Machine, s0: SeqState, k: nat) {
    && BackEnd(m, s0) && PosEm(m) == k && Live(m.em.load) && !m.de.load.isStall && m.de.load.hazard
    && StaleHarmful(m, s0) && !m.halted
  }

  lemma WrongIsPoison(cfg: Config, d: Machine, s0: SeqState, x: nat)
    requires DecodedWrong(d, s0, x) && !StaleAt(d.de.store.instr, d.em.store.instr, St(s0, PosDone(d, x)))
    requires Finish(d).Ok? ==> LocksConserved(Finish(d).value)
    ensures Finish(d).Ok? && Poisoned(Finish(d).value, s0, PosDone(d, x))
  {
    hide Done, TraceRight, RegsAgree, Finish, WordAt, CodeAt, Fetchable, St, Complete, Issue, Redirects,
         BackEndAccessed, Following, InStep, LocksConserved;
    FetchCommits(d, s0, x);
    CommitInStep(d, Finish(d).value, s0, x);
  }

  lemma ClashPoisons(cfg: Config, m: Machine, s0: SeqState, k: nat, junk: bool)
    requires !cfg.repaired && Refines(cfg, m, s0) && Running(cfg, m, s0) && Live(m.de.load) && Live(m.em.load)
    requires PosDe(m) == k && ClashingJump(s0, k) && SoundUpTo(s0, k + 1)
    ensures Cycle(cfg, m, junk).Ok? && Poisoned(Cycle(cfg, m, junk).value, s0, k)
  {
    hide Cycle, St, Done, SoundAt, InStep, LocksConserved, AtDecode, BackEndGood, DecodeStage, Finish, Poisoned,
         ClashingJump, BeforeDecode, MachineClash, DecodedWrong, StaleAt, Recognize, CodeAt, Fetchable, Redirects,
         Straight, Starting, Squashing, FetchReady;
    BoundaryBack(cfg, m, s0);
    BeforeDecodeRefines(cfg, m, s0);
    CycleSplits(cfg, m, junk);
    var w := BeforeDecode(cfg, m).value;
    ClashOnMachine(cfg, m, w, s0, k);
    DecodeWrong(cfg, m, w, s0, junk);
    var d := DecodeStage(cfg, w, junk).value;
    if Cycle(cfg, m, junk).Ok? { CycleConservesLocks(cfg, m, junk); }
    WrongIsPoison(cfg, d, s0, PosEm(m));
    DecodeLatches(cfg, w, junk);
    WrongPosition(m, w, d, s0);
  }

  lemma WrongPosition(m: Machine, w: Machine, d: Machine, s0: SeqState)
    requires AtDecode(m, w, s0) && d.mw.store == w.mw.store
    ensures PosDone(d, PosEm(m)) == PosDe(m)
  {
    hide Ready, St, Execute, Redirects;
  }

  /** ID, IF and the update write no register. */
  lemma LaterRegs(cfg: Config, w: Machine, junk: bool)
    requires AfterDecode(cfg, w, junk).Ok?
    ensures AfterDecode(cfg, w, junk).value.rf.regs == w.rf.regs
  {
    hide ReadSources, MakeInstr, Recognize, Rd, Advance, ReadWord, Following, Index, InBounds;
    if LiveFD(w.fd.load) && w.de.stop == 0 { SourcesKeep(cfg, w, w.fd.load.word); }
  }

  /** One cycle later the harm is done. */
  lemma PoisonSpoils(cfg: Config, m: Machine, s0: SeqState, k: nat, junk: bool)
    requires !cfg.repaired && Poisoned(m, s0, k) && !St(s0, k).halted && SoundAt(s0, k)
    requires Cycle(cfg, m, junk).Ok?
    ensures var n := Cycle(cfg, m, junk).value;
      |n.retired| == k && !RegsAgree(n.rf, St(s0, k), n.mw.load)
  {
    hide Cycle, St, Done, SoundAt, InStep, AfterDecode, BeforeDecode, RegsAgree, StaleHarmful, Recognize, CodeAt, Fetchable,
         LocksConserved, Index, InBounds;
    RunningBefore(s0, PosMw(m), k);
    SoundBounds(s0, k);
    MemoryIsSeq(m, s0);
    ReleaseExact(cfg, m, s0);
    var w := BeforeDecode(cfg, m).value;
    CycleSplits(cfg, m, junk);
    CleanOfBack(m, s0);
    RetiredGrows(cfg, m);
    BeforeDecodeCounts(cfg, m);
    LaterRegs(cfg, w, junk);
    LaterStages(cfg, w, junk);
    AgreeOnRegs(w.rf, Cycle(cfg, m, junk).value.rf, St(s0, k), w.mw.store);
  }

  lemma MemoryIsSeq(m: Machine, s0: SeqState)
    requires BackEnd(m, s0)
    ensures m.mem == St(s0, PosEm(m)).mem
  {
    hide Done, St, Complete, Issue, TraceRight, RegsAgree, LocksConserved;
  }

  lemma CleanOfBack(m: Machine, s0: SeqState)
    requires BackEnd(m, s0)
    ensures CleanStores(m)
  {
    hide Done, St, Complete, Issue, TraceRight, RegsAgree, LocksConserved;
    StopsOfLocks(m);
  }

  lemma AgreeOnRegs(a: RegState, b: RegState, s: SeqState, l: Latch<Instr>)
    requires a.regs == b.regs
    ensures RegsAgree(a, s, l) == RegsAgree(b, s, l)
  {
    hide Relinks;
  }

  lemma ClashSpoils(cfg: Config, m: Machine, s0: SeqState, k: nat, junk: bool, junk': bool)
    requires !cfg.repaired && Arrives(cfg, m, s0, k) && Live(m.em.load) && ClashingJump(s0, k) && SoundUpTo(s0, k + 1)
    ensures !m.halted && Cycle(cfg, m, junk).Ok? && !Cycle(cfg, m, junk).value.halted
    ensures var r := Cycle(cfg, Cycle(cfg, m, junk).value, junk');
      r.Ok? ==> |r.value.retired| == k && !RegsAgree(r.value.rf, St(s0, k), r.value.mw.load)
  {
    hide Cycle, St, Done, ClashingJump, RegsAgree, Poisoned, SoundAt, Running, Refines, Counted;
    RunningIsAwake(cfg, m, s0);
    ClashPoisons(cfg, m, s0, k, junk);
    var n := Cycle(cfg, m, junk).value;
    PoisonIsAwake(n, s0, k);
    JumpRuns(s0, k);
    if Cycle(cfg, n, junk').Ok? { PoisonSpoils(cfg, n, s0, k, junk'); }
  }

  /** As written, a clashing jump with nothing harmful before it spoils a register: two cycles after it stood in
      EX, the register file is not the sequential one. */
  lemma ClashGoesWrong(cfg: Config, s0: SeqState, junk: nat -> bool, k: nat) returns (t: nat)
    requires !cfg.repaired && RegsNamed(s0.regs) && !s0.halted
    requires Guarded(cfg, s0, k) && Enters(cfg, s0, k) && ClashingJump(s0, k)
    ensures t <= 3 * k + 2
    ensures var r := Run(cfg, Initial(s0), junk, t);
      r.Ok? ==> |r.value.retired| == k && !RegsAgree(r.value.rf, St(s0, k), r.value.mw.load)
  {
    hide Cycle, St, Done, GoodAt, Enters, Initial, ClashingJump, RegsAgree, Arrives;
    EntersIsSound(cfg, s0, k);
    JumpRuns(s0, k);
    var u := ReachWithPrev(cfg, s0, junk, k);
    var m := Run(cfg, Initial(s0), junk, u).value;
    ClashSpoils(cfg, m, s0, k, junk(u), junk(u + 1));
    assert Run(cfg, Initial(s0), junk, u + 1) == Cycle(cfg, m, junk(u));
    t := u + 2;
  }

  lemma PoisonIsAwake(m: Machine, s0: SeqState, k: nat)
    requires Poisoned(m, s0, k)
    ensures !m.halted
  {
    hide BackEnd, StaleHarmful, St;
  }

  lemma JumpRuns(s0: SeqState, k: nat)
    requires ClashingJump(s0, k)
    ensures k > 0 && !St(s0, k).halted && !Redirects(Done(St(s0, k - 1)))
  {
    hide St, Done, Clobbers, ShadowStable, WordAt, Redirects;
  }

  /** With no jump ahead, position `k` follows position `k - 1` at once. */
  lemma ReachWithPrev(cfg: Config, s0: SeqState, junk: nat -> bool, k: nat) returns (u: nat)
    requires !cfg.repaired && RegsNamed(s0.regs) && !s0.halted && Guarded(cfg, s0, k) && Enters(cfg, s0, k)
    requires k > 0 && !St(s0, k).halted && !Redirects(Done(St(s0, k - 1)))
    ensures u <= 3 * k && ArrivesAt(cfg, s0, junk, k, u) && Live(Run(cfg, Initial(s0), junk, u).value.em.load)
  {
    hide Cycle, St, Done, GoodAt, Initial, Redirects, CodeAt, Enters, Arrives;
    RunningBefore(s0, k - 1, k);
    EntersBefore(cfg, s0, k);
    u := Reach(cfg, s0, junk, k - 1);
    var m := Run(cfg, Initial(s0), junk, u).value;
    ArrivesAwake(cfg, m, s0, k - 1);
    FreeIsFollowed(cfg, s0, k - 1);
    NextFollows(cfg, m, s0, k - 1, junk(u));
    u := u + 1;
  }

  lemma EntersBefore(cfg: Config, s0: SeqState, k: nat)
    requires Guarded(cfg, s0, k) && k > 0
    ensures Guarded(cfg, s0, k - 1) && Enters(cfg, s0, k - 1)
  {
    hide SoundAt, FreeOfUse, FreeOfClash;
    assert GoodAt(cfg, s0, k - 1);
  }

  lemma ArrivesAwake(cfg: Config, m: Machine, s0: SeqState, k: nat)
    requires Arrives(cfg, m, s0, k)
    ensures !m.halted
  {
    hide OnSchedule, Running;
    RunningIsAwake(cfg, m, s0);
  }

  lemma FreeIsFollowed(cfg: Config, s0: SeqState, k: nat)
    requires !cfg.repaired && Enters(cfg, s0, k + 1) && !St(s0, k + 1).halted && !Redirects(Done(St(s0, k)))
    ensures FollowsFreely(s0, k)
  {
    hide SoundAt, St, Done, CodeAt, Redirects;
  }

  // ---- A store-data pair throws ----

  /** The first pair of a load and a store of what it loads makes the intended machine throw, within 3k cycles. */
  lemma RunThrows(cfg: Config, s0: SeqState, junk: nat -> bool, k: nat)
    requires cfg.repaired && RegsNamed(s0.regs) && !s0.halted && SoundUpTo(s0, k + 1)
    requires DataBehindLoad(cfg, s0, k) && forall j: nat | j < k :: !DataBehindLoad(cfg, s0, j)
    ensures Run(cfg, Initial(s0), junk, 3 * k) == Err(LoadHazard)
  {
    hide Cycle, St, Done, GoodAt, Enters, Initial, Arrives, DataBehindLoad, SoundAt;
    PairIsLater(cfg, s0, k);
    FreeIsGuarded(cfg, s0, k);
    EntersBefore(cfg, s0, k);
    var u := Reach(cfg, s0, junk, k - 1);
    PairThrows(cfg, Run(cfg, Initial(s0), junk, u).value, s0, k - 1, junk(u));
    assert Run(cfg, Initial(s0), junk, u + 1) == Err(LoadHazard);
    RunEnds(cfg, Initial(s0), junk, u + 1, 3 * k);
  }

  lemma PairThrows(cfg: Config, m: Machine, s0: SeqState, k: nat, junk: bool)
    requires cfg.repaired && Arrives(cfg, m, s0, k) && Guarded(cfg, s0, k + 1) && SoundAt(s0, k + 1)
    requires DataBehindLoad(cfg, s0, k + 1)
    ensures !m.halted && Cycle(cfg, m, junk) == Err(LoadHazard)
  {
    hide Cycle, St, Done, GoodAt, Arrives, DataBehindLoad, SoundAt;
    ArrivesAwake(cfg, m, s0, k);
    ArrivesOnPath(cfg, m, s0, k);
    CycleThrowsExactly(cfg, m, s0, junk);
  }

  lemma PairIsLater(cfg: Config, s0: SeqState, k: nat)
    requires DataBehindLoad(cfg, s0, k)
    ensures k > 0 && !St(s0, k - 1).halted
  {
    hide St, Done, LoadUse, CodeAt;
    RunningBefore(s0, k - 1, k);
  }

  lemma FreeIsGuarded(cfg: Config, s0: SeqState, k: nat)
    requires cfg.repaired && SoundUpTo(s0, k) && forall j: nat | j < k :: !DataBehindLoad(cfg, s0, j)
    ensures Guarded(cfg, s0, k)
  {
    hide SoundAt, DataBehindLoad, GoodAt;
    forall j: nat | j < k ensures GoodAt(cfg, s0, j) { RepairedGood(cfg, s0, j); }
  }

  lemma ArrivesOnPath(cfg: Config, m: Machine, s0: SeqState, k: nat)
    requires Arrives(cfg, m, s0, k) && Guarded(cfg, s0, k + 1)
    ensures OnPath(cfg, m, s0) && PosFd(m) == k + 1
  {
    hide Refines, Counted, Running, GoodAt;
  }

  // ---- The guard is exact ----

  /** What has retired is the sequential run so far, and registers and memory are its. */
  ghost predicate Faithful(m: Machine, s0: SeqState) {
    TraceRight(m.retired, s0) && RegsAgree(m.rf, St(s0, PosMw(m)), m.mw.load) && m.mem == St(s0, PosEm(m)).mem
  }

  ghost predicate FaithfulAt(cfg: Config, s0: SeqState, junk: nat -> bool, t: nat) {
    var r := Run(cfg, Initial(s0), junk, t);
    r.Ok? && Faithful(r.value, s0)
  }

  ghost predicate RetiredBy(cfg: Config, s0: SeqState, junk: nat -> bool, k: nat, t: nat) {
    var r := Run(cfg, Initial(s0), junk, t);
    r.Ok? && |r.value.retired| > k
  }

  /** The pipeline does what the sequential machine does: no exception, never a wrong state, and every
      instruction of the sequential run retires. */
  ghost predicate Works(cfg: Config, s0: SeqState, junk: nat -> bool) {
    && (forall t: nat :: FaithfulAt(cfg, s0, junk, t))
    && (forall k: nat :: !St(s0, k).halted ==> exists t: nat :: RetiredBy(cfg, s0, junk, k, t))
  }

  lemma GuardedIsFaithful(cfg: Config, s0: SeqState, junk: nat -> bool, t: nat)
    requires RegsNamed(s0.regs) && !s0.halted && Guarded(cfg, s0, t)
    ensures FaithfulAt(cfg, s0, junk, t)
  {
    hide Run, St, Done, GoodAt, LocksConserved, Running, Complete, Issue, RegsAgree, TraceRight, Initial;
    RunRefines(cfg, s0, junk, t);
  }

  /** How far the run has come: position `k` has passed DE, EM or MW after one, two or three cycles. */
  lemma PositionsMove(cfg: Config, s0: SeqState, junk: nat -> bool, t: nat)
    requires RegsNamed(s0.regs) && !s0.halted && Guarded(cfg, s0, t + 1)
    ensures Run(cfg, Initial(s0), junk, t).Ok? && Run(cfg, Initial(s0), junk, t + 1).Ok?
    ensures var m, n := Run(cfg, Initial(s0), junk, t).value, Run(cfg, Initial(s0), junk, t + 1).value;
      PosMw(n) >= PosEm(m) && PosEm(n) >= PosDe(m) && PosDe(n) >= PosFd(m)
  {
    hide Cycle, St, Done, GoodAt, Refines, Initial;
    RunRefines(cfg, s0, junk, t);
    RunRefines(cfg, s0, junk, t + 1);
    var m := Run(cfg, Initial(s0), junk, t).value;
    if m.halted {
      HaltedIsEmpty(cfg, m, s0);
    } else {
      GuardedIsClear(cfg, s0, m, t + 1);
      CycleAdvances(cfg, m, s0, junk(t));
      RefinesClean(cfg, Cycle(cfg, m, junk(t)).value, s0);
    }
  }

  lemma HaltedIsEmpty(cfg: Config, m: Machine, s0: SeqState)
    requires Refines(cfg, m, s0) && m.halted
    ensures PosMw(m) == PosFd(m)
  {
    hide BackEnd, St, Done, FrontHeld, FetchReady, Straight, Starting, Squashing;
  }

  lemma RefinesClean(cfg: Config, m: Machine, s0: SeqState)
    requires Refines(cfg, m, s0)
    ensures !m.em.load.hazard
  {
    hide BackEnd, Running, DrainingEm, DrainingMw, Finished;
    EmClean(m, s0);
  }

  lemma GuardedSubset(cfg: Config, s0: SeqState, n: nat)
    requires forall k: nat :: GoodAt(cfg, s0, k)
    ensures Guarded(cfg, s0, n)
  {
    hide GoodAt;
  }

  /** Under the guard every instruction of the sequential run retires. */
  lemma AllRetire(cfg: Config, s0: SeqState, junk: nat -> bool, k: nat)
    requires RegsNamed(s0.regs) && !s0.halted && !St(s0, k).halted && forall j: nat :: GoodAt(cfg, s0, j)
    ensures exists t: nat :: RetiredBy(cfg, s0, junk, k, t)
  {
    hide St, GoodAt, Initial, Arrives, Run, Guarded;
    GuardedSubset(cfg, s0, k + 1);
    EntersBefore(cfg, s0, k + 1);
    var u := Reach(cfg, s0, junk, k);
    ArrivesInDe(cfg, Run(cfg, Initial(s0), junk, u).value, s0, k);
    GuardedSubset(cfg, s0, u + 1);
    GuardedSubset(cfg, s0, u + 2);
    GuardedSubset(cfg, s0, u + 3);
    PositionsMove(cfg, s0, junk, u);
    PositionsMove(cfg, s0, junk, u + 1);
    PositionsMove(cfg, s0, junk, u + 2);
    assert RetiredBy(cfg, s0, junk, k, u + 3);
  }

  lemma ArrivesInDe(cfg: Config, m: Machine, s0: SeqState, k: nat)
    requires Arrives(cfg, m, s0, k)
    ensures PosFd(m) == k + 1
  {
    hide OnSchedule, Running;
  }

  lemma {:induction false} FirstBad(cfg: Config, s0: SeqState, n: nat) returns (k: nat)
    requires !GoodAt(cfg, s0, n)
    ensures !GoodAt(cfg, s0, k) && Guarded(cfg, s0, k)
    decreases n
  {
    hide GoodAt;
    if j: nat :| j < n && !GoodAt(cfg, s0, j) { k := FirstBad(cfg, s0, j); } else { k := n; }
  }

  /** A load-use pair at `k - 1` and `k` breaks the run: as written the load never retires as it should,
      repaired the run throws. */
  lemma UseBreaks(cfg: Config, s0: SeqState, junk: nat -> bool, k: nat)
    requires RegsNamed(s0.regs) && !s0.halted && Guarded(cfg, s0, k) && SoundAt(s0, k) && !FreeOfUse(cfg, s0, k)
    ensures !Works(cfg, s0, junk)
  {
    hide St, Done, GoodAt, SoundAt, Initial, Run, RegsAgree, CodeAt, LoadUse, CodeStable, Index, InBounds, Fetchable;
    RunningBefore(s0, k - 1, k);
    if cfg.repaired {
      GuardedIsSound(cfg, s0, k);
      GuardedHasNoPair(cfg, s0, k);
      RunThrows(cfg, s0, junk, k);
      assert !FaithfulAt(cfg, s0, junk, 3 * k);
    } else if Works(cfg, s0, junk) {
      SoundIsStable(s0, k);
      var t: nat :| RetiredBy(cfg, s0, junk, k - 1, t);
      assert FaithfulAt(cfg, s0, junk, t);
      LoadNeverRetires(cfg, s0, k - 1, junk, t);
    }
  }

  lemma SoundIsStable(s0: SeqState, k: nat)
    requires SoundAt(s0, k) && !St(s0, k).halted
    ensures CodeStable(s0, k)
  {
    hide St, Done, CodeAt, Recognize, Fetchable, Following, InBounds, Index, CodeStable;
  }

  lemma GuardedHasNoPair(cfg: Config, s0: SeqState, k: nat)
    requires cfg.repaired && Guarded(cfg, s0, k)
    ensures forall j: nat | j < k :: !DataBehindLoad(cfg, s0, j)
  {
    hide SoundAt, DataBehindLoad, FreeOfUse, FreeOfClash;
    forall j: nat | j < k ensures !DataBehindLoad(cfg, s0, j) {
      assert GoodAt(cfg, s0, j);
      RepairedGood(cfg, s0, j);
    }
  }

  lemma ClashBreaks(cfg: Config, s0: SeqState, junk: nat -> bool, k: nat)
    requires RegsNamed(s0.regs) && !s0.halted && Guarded(cfg, s0, k) && Enters(cfg, s0, k) && !FreeOfClash(cfg, s0, k)
    requires ShadowStable(s0, k)
    ensures !Works(cfg, s0, junk)
  {
    hide St, Done, Guarded, Enters, Initial, Run, RegsAgree, FreeOfClash, ShadowStable;
    ClashIsStable(cfg, s0, k);
    var t := ClashGoesWrong(cfg, s0, junk, k);
    assert !FaithfulAt(cfg, s0, junk, t);
  }

  lemma ClashIsStable(cfg: Config, s0: SeqState, k: nat)
    requires !FreeOfClash(cfg, s0, k) && ShadowStable(s0, k)
    ensures !cfg.repaired && ClashingJump(s0, k)
  {
    hide St, Done, Redirects, WordAt, Clobbers, Following;
  }

  /** The run-level "if and only if". Over every program of recognised, in-bounds code that does not rewrite
      what is being fetched, the pipeline works if and only if every position is harmless: as written, no
      instruction reads the rd of the load just ahead and no jump clashes; repaired, no store takes its data
      from the load just ahead. */
  lemma WorksExactly(cfg: Config, s0: SeqState, junk: nat -> bool)
    requires RegsNamed(s0.regs) && !s0.halted
    requires forall k: nat :: SoundAt(s0, k)
    requires !cfg.repaired ==> forall k: nat :: ShadowStable(s0, k)
    ensures Works(cfg, s0, junk) <==> forall k: nat :: GoodAt(cfg, s0, k)
  {
    hide GoodAt, St, SoundAt, ShadowStable, FaithfulAt, RetiredBy, Guarded;
    if n: nat :| !GoodAt(cfg, s0, n) {
      var k := FirstBad(cfg, s0, n);
      BadIsUseOrClash(cfg, s0, k);
      if FreeOfUse(cfg, s0, k) { ClashBreaks(cfg, s0, junk, k); } else { UseBreaks(cfg, s0, junk, k); }
    } else {
      forall t: nat ensures FaithfulAt(cfg, s0, junk, t) { GuardedSubset(cfg, s0, t); GuardedIsFaithful(cfg, s0, junk, t); }
      forall k: nat | !St(s0, k).halted ensures exists t: nat :: RetiredBy(cfg, s0, junk, k, t) { AllRetire(cfg, s0, junk, k); }
    }
  }

  lemma BadIsUseOrClash(cfg: Config, s0: SeqState, k: nat)
    requires !GoodAt(cfg, s0, k) && SoundAt(s0, k)
    ensures FreeOfUse(cfg, s0, k) ==> Enters(cfg, s0, k) && !FreeOfClash(cfg, s0, k) && !cfg.repaired
  {
    hide SoundAt, FreeOfUse, St, Done, Redirects, WordAt, Clobbers;
  }
}
