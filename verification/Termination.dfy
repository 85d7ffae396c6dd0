/** Total correctness of `run` under the guard: if the sequential program reaches ECALL as its n-th
    instruction, the loop ends within 3n + 2 cycles in the sequential machine's final state. */
module Termination {
  import opened Isa
  import opened Decoding
  import opened Executors
  import opened Memories
  import opened StoreQueues
  import opened Machines
  import opened Scoreboard
  import opened Sequential
  import opened Refinement
  import opened Latches
  import opened Accounting

  /** ECALL is the `n`-th instruction of the sequential run. */
  ghost predicate HaltsAt(s0: SeqState, n: nat) {
    n > 0 && !St(s0, n - 1).halted && Done(St(s0, n - 1)).name == ECALL
  }

  /** While ECALL has not executed, three cycles per executed instruction are enough. */
  predicate Quick(m: Machine) { m.clocks + Lag(m) <= 3 * PosDe(m) + 2 }

  /** With EX empty the bubbles only shrink. */
  lemma LagFalls(cfg: Config, m: Machine, w: Machine, junk: bool)
    requires CleanStores(m) && CountedRunning(m) && CountedAtDecode(m, w)
    requires !Live(m.de.load) && AfterDecode(cfg, w, junk).Ok? && !Irregular(cfg, w)
    ensures Lag(AfterDecode(cfg, w, junk).value) < Lag(m)
  {
    hide Execute, Redirects, DecodeStage, Finish, SourceHit, DoubleHit;
    HitNeedsLoad(w);
    if LiveFD(w.fd.load) { DecodeCounts(cfg, w, junk); } else { IdleCounts(cfg, w, junk); }
    FinishCounts(DecodeStage(cfg, w, junk).value);
  }

  /** The guard makes every cycle regular. */
  lemma GuardIsRegular(cfg: Config, m: Machine, w: Machine, s0: SeqState)
    requires Refines(cfg, m, s0) && !m.halted && AtDecode(m, w, s0) && Clear(cfg, s0, m)
    ensures !Irregular(cfg, w)
  {
    hide Done, St, InStep, Straight, GoodAt, CodeAt, Recognize, Execute, Ready, Redirects, Following, Fetchable,
         LocksConserved,
         CodeStable, Rs1, Rs2, FetchReady, Index, InBounds, Starting, LoadHit, SourceHit;
    BoundaryGood(cfg, m, s0);
    if Live(m.de.load) { GuardOfBusy(cfg, m, w, s0); } else { NoHitWithoutLoad(w); }
  }

  lemma NoHitWithoutLoad(w: Machine)
    requires !Live(w.de.load)
    ensures !DoubleHit(w)
  {
    hide Recognize, Rs1, Rs2;
  }

  lemma GuardOfBusy(cfg: Config, m: Machine, w: Machine, s0: SeqState)
    requires InStep(m, s0) && Running(cfg, m, s0) && AtDecode(m, w, s0) && Live(m.de.load)
    requires SoundAt(s0, PosDe(m)) && Enters(cfg, s0, PosFd(m))
    ensures !Irregular(cfg, w)
  {
    hide Done, St, InStep, GoodAt, CodeAt, Recognize, Execute, Ready, Redirects, Following, Fetchable,
         CodeStable, FetchReady, Index, InBounds, SourceHit, Rs1, Rs2, LoadHit, FetchedBefore;
    SoundBounds(s0, PosDe(m));
    ExecutedFacts(m, w, s0);
    var word := m.fd.load.word;
    DoubleIsHit(w);
    if Redirects(w.em.store.instr) {
      NoHitBehindJump(m, w, s0, word);
    } else if w.em.store.instr.typ != System {
      OnPathPc(cfg, m, w, s0);
      SoundBounds(s0, PosFd(m));
      StraightWord(cfg, m, s0);
      HitGuard(cfg, m, w, s0);
    } else {
      NoHitWithoutLoad(w);
    }
  }

  lemma DoubleIsHit(w: Machine)
    ensures DoubleHit(w) ==> SourceHit(w, w.fd.load.word)
  {
    hide Recognize, Rs1, Rs2, LoadHit;
  }

  /** Guarded runs are regular. */
  lemma GuardedIsRegular(cfg: Config, s0: SeqState, junk: nat -> bool, t: nat)
    requires RegsNamed(s0.regs) && !s0.halted && Guarded(cfg, s0, t)
    ensures Regular(cfg, Initial(s0), junk, t)
  {
    hide Cycle, Refines, GoodAt, Done, St, Initial, BeforeDecode, Irregular, AtDecode, BackEndGood;
    forall k: nat | k < t && Run(cfg, Initial(s0), junk, k).Ok? && !Run(cfg, Initial(s0), junk, k).value.halted
      ensures var w := BeforeDecode(cfg, Run(cfg, Initial(s0), junk, k).value); w.Ok? ==> !Irregular(cfg, w.value)
    {
      RunRefines(cfg, s0, junk, k);
      var m := Run(cfg, Initial(s0), junk, k).value;
      GuardedIsClear(cfg, s0, m, t);
      BoundaryGood(cfg, m, s0);
      BeforeDecodeRefines(cfg, m, s0);
      GuardIsRegular(cfg, m, BeforeDecode(cfg, m).value, s0);
    }
  }

  /** A running machine under the guard: in the account, quick, and as written never stalled. */
  ghost predicate OnSchedule(cfg: Config, m: Machine, s0: SeqState) {
    && Refines(cfg, m, s0) && Counted(m) && (Running(cfg, m, s0) ==> CountedRunning(m) && Quick(m))
  }

  /** ECALL drains in two cycles: from EM to MW, from MW to retirement. */
  lemma DrainAdvances(cfg: Config, m: Machine, s0: SeqState, junk: bool)
    requires Refines(cfg, m, s0) && !m.halted && Clear(cfg, s0, m)
    requires DrainingEm(m, s0) || DrainingMw(m, s0)
    ensures Cycle(cfg, m, junk).Ok?
    ensures DrainingEm(m, s0) ==> DrainingMw(Cycle(cfg, m, junk).value, s0)
    ensures DrainingMw(m, s0) ==> Finished(Cycle(cfg, m, junk).value, s0)
  {
    hide Cycle, Done, St, InStep, AtDecode, BeforeDecode, AfterDecode, BackEndGood, LocksConserved, Running, GoodAt;
    BoundaryGood(cfg, m, s0);
    BeforeDecodeRefines(cfg, m, s0);
    CycleSplits(cfg, m, junk);
    var w := BeforeDecode(cfg, m).value;
    DrainStep(cfg, m, w, s0, junk, if DrainingEm(m, s0) then 4 else 3);
    DrainFacts(m, w, s0);
  }

  lemma EmIsLive(m: Machine, s0: SeqState)
    requires InStep(m, s0)
    ensures !m.em.load.hazard
  {
    hide Done, St, Complete, Issue, TraceRight, RegsAgree;
  }

  lemma CycleOnSchedule(cfg: Config, m: Machine, s0: SeqState, junk: bool)
    requires OnSchedule(cfg, m, s0) && !m.halted && Clear(cfg, s0, m)
    ensures Cycle(cfg, m, junk).Ok? && OnSchedule(cfg, Cycle(cfg, m, junk).value, s0)
  {
    hide Cycle, Done, St, InStep, AtDecode, Straight, Starting, Squashing, BeforeDecode, AfterDecode,
         BackEndGood, LocksConserved,
         GoodAt, Irregular, CountedAtDecode, Redirects, Following;
    CycleRefines(cfg, m, s0, junk);
    BoundaryGood(cfg, m, s0);
    BeforeDecodeRefines(cfg, m, s0);
    var w := BeforeDecode(cfg, m).value;
    GuardIsRegular(cfg, m, w, s0);
    CycleCounts(cfg, m, junk);
    CycleAdvances(cfg, m, s0, junk);
    EmIsLive(Cycle(cfg, m, junk).value, s0);
    CycleSplits(cfg, m, junk);
    BeforeDecodeCounts(cfg, m);
    if !Running(cfg, m, s0) {
      DrainAdvances(cfg, m, s0, junk);
    } else if !Live(m.de.load) {
      LagFalls(cfg, m, w, junk);
    }
  }

  lemma {:induction false} RunOnSchedule(cfg: Config, s0: SeqState, junk: nat -> bool, t: nat)
    requires RegsNamed(s0.regs) && !s0.halted && Guarded(cfg, s0, t)
    ensures Run(cfg, Initial(s0), junk, t).Ok?
    ensures OnSchedule(cfg, Run(cfg, Initial(s0), junk, t).value, s0)
  {
    hide Cycle, OnSchedule, GoodAt, Done, St, Initial;
    RunRefines(cfg, s0, junk, t);
    if t == 0 {
      InitialOnSchedule(cfg, s0);
    } else {
      RunOnSchedule(cfg, s0, junk, t - 1);
      RunRefines(cfg, s0, junk, t - 1);
      var p := Run(cfg, Initial(s0), junk, t - 1).value;
      if !p.halted { GuardedIsClear(cfg, s0, p, t); CycleOnSchedule(cfg, p, s0, junk(t - 1)); }
    }
  }

  lemma InitialOnSchedule(cfg: Config, s0: SeqState)
    requires RegsNamed(s0.regs) && !s0.halted
    ensures OnSchedule(cfg, Initial(s0), s0)
  {
    hide Done, Complete, CodeAt, Refines, Running;
    ResetRefines(cfg, s0);
    InitialCounted(s0);
    assert CountedRunning(Initial(s0)) && Quick(Initial(s0));
  }

  /** Positions after the halt satisfy the guard. */
  lemma GuardedOnwards(cfg: Config, s0: SeqState, n: nat, t: nat)
    requires HaltsAt(s0, n) && Guarded(cfg, s0, n)
    ensures Guarded(cfg, s0, t)
  {
    hide Done, St, CodeAt, Recognize, WordAt, CodeStable, LoadUse, Clash, Redirects, Following, Fetchable, Index,
         InBounds;
    forall k: nat | k < t ensures GoodAt(cfg, s0, k) {
      if k >= n {
        StStep(s0, n - 1);
        if !St(s0, k).halted { RunningBefore(s0, n, k); }
      }
    }
  }

  /** Before its ECALL has executed a run is younger than 3n cycles. */
  lemma RunningIsYoung(cfg: Config, m: Machine, s0: SeqState, n: nat)
    requires OnSchedule(cfg, m, s0) && Running(cfg, m, s0) && HaltsAt(s0, n)
    ensures m.clocks < 3 * n
  {
    hide Done, St, InStep, Straight, Starting, Squashing, CountedRunning, CountedEm, CountedMw;
    if PosDe(m) >= n {
      RunningBefore(s0, n, PosDe(m));
      StStep(s0, n - 1);
    }
  }

  /** The final state is the sequential one, retired instruction by retired instruction. */
  lemma FinishedRight(cfg: Config, m: Machine, s0: SeqState, n: nat)
    requires Refines(cfg, m, s0) && m.halted && HaltsAt(s0, n)
    ensures |m.retired| == n && TraceRight(m.retired, s0)
    ensures m.rf.regs == St(s0, n).regs && m.mem == St(s0, n).mem
  {
    hide Done, St, LocksConserved, Complete, Issue, Straight, Starting, Squashing;
    var k := |m.retired| - 1;
    assert m.retired[k] == Done(St(s0, k));
    if k < n - 1 {
      StStep(s0, k);
      RunningBefore(s0, k + 1, n - 1);
    } else if k > n - 1 {
      StStep(s0, n - 1);
      RunningBefore(s0, n, k);
    }
    forall i | 0 <= i < 32 ensures m.rf.regs[i] == St(s0, n).regs[i] {
      var r: RegNum := i;
      assert !(r != 0 && Live(m.mw.load) && WriterOf(m.mw.load.instr, r)) ==> m.rf.regs[r] == St(s0, n).regs[r];
    }
    assert m.rf.regs == St(s0, n).regs;
  }

  /** ECALL executed: two more cycles and the loop ends. */
  lemma EndsAfterDrain(cfg: Config, s0: SeqState, junk: nat -> bool, t: nat)
    requires RegsNamed(s0.regs) && !s0.halted && Guarded(cfg, s0, t + 2)
    requires Run(cfg, Initial(s0), junk, t).Ok? && !Running(cfg, Run(cfg, Initial(s0), junk, t).value, s0)
    ensures Run(cfg, Initial(s0), junk, t + 2).Ok? && Run(cfg, Initial(s0), junk, t + 2).value.halted
  {
    hide Cycle, Done, St, GoodAt, Running, Initial, BackEnd, FrontHeld;
    RunRefines(cfg, s0, junk, t);
    RunRefines(cfg, s0, junk, t + 1);
    RunRefines(cfg, s0, junk, t + 2);
    var m := Run(cfg, Initial(s0), junk, t).value;
    if !m.halted {
      GuardedIsClear(cfg, s0, m, t + 2);
      DrainAdvances(cfg, m, s0, junk(t));
      var m1 := Run(cfg, Initial(s0), junk, t + 1).value;
      if DrainingMw(m1, s0) { GuardedIsClear(cfg, s0, m1, t + 2); DrainAdvances(cfg, m1, s0, junk(t + 1)); }
    }
  }

  /** Termination and the final state. `run` needs no fuel: 3n + 2 cycles suffice for every guarded
      program whose n-th instruction is ECALL, and then exactly n instructions have retired, the
      registers and memory are the sequential ones, and each clock is accounted for. */
  lemma RunTerminates(cfg: Config, s0: SeqState, junk: nat -> bool, n: nat)
    requires RegsNamed(s0.regs) && !s0.halted && HaltsAt(s0, n) && Guarded(cfg, s0, n)
    ensures var r := Run(cfg, Initial(s0), junk, 3 * n + 2);
      && r.Ok? && r.value.halted && |r.value.retired| == n && TraceRight(r.value.retired, s0)
      && r.value.rf.regs == St(s0, n).regs && r.value.mem == St(s0, n).mem
      && r.value.clocks == n + 4 + 2 * r.value.branches + r.value.stops
  {
    hide Run, Done, St, GoodAt, Running, Initial, BackEnd, TraceRight, HaltsAt;
    GuardedOnwards(cfg, s0, n, 3 * n + 2);
    RunRefines(cfg, s0, junk, 3 * n);
    RunOnSchedule(cfg, s0, junk, 3 * n);
    var m := Run(cfg, Initial(s0), junk, 3 * n).value;
    if Running(cfg, m, s0) {
      RunningIsYoung(cfg, m, s0, n);
      RunningIsAwake(cfg, m, s0);
    }
    EndsAfterDrain(cfg, s0, junk, 3 * n);
    RunOnSchedule(cfg, s0, junk, 3 * n + 2);
    var f := Run(cfg, Initial(s0), junk, 3 * n + 2).value;
    FinishedRight(cfg, f, s0, n);
    CountOfRetired(cfg, f, s0);
  }

  lemma CountOfRetired(cfg: Config, m: Machine, s0: SeqState)
    requires Refines(cfg, m, s0)
    ensures m.ic == |m.retired|
  {
    hide St, Done, Running, TraceRight, RegsAgree, LocksConserved, Complete, Issue;
  }

  /** The guard is no empty promise: every program that starts with ECALL meets it and halts at once. */
  lemma EcallFirst(cfg: Config, s0: SeqState)
    requires !s0.halted && CodeAt(s0) == 0x73 && Fetchable(s0.mem, s0.pc) && Fetchable(s0.mem, Following(s0.pc))
    ensures HaltsAt(s0, 1) && Guarded(cfg, s0, 1)
  {
    hide Index, InBounds, Following, Rs1, Rs2, Rd, Immediate, Execute, WordAt;
    EcallWord();
    hide Recognize;
    assert St(s0, 0) == s0;
    var i := Issue(s0, 0, false);
    assert i.name == ECALL && i.typ == System && i.acc == NoAccess;
    assert Done(s0) == Execute(i);
    assert CodeStable(s0, 0);
  }

  lemma EcallWord()
    ensures Recognize(0x73) == Plain(ECALL, System)
  {
    assert Opcode(0x73) == 0x73;
  }
}
