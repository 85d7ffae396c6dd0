/** The repaired machine on every program: it needs no load-use and no clash guard. It follows the sequential
    run until, and only when, a store takes its data from the load just ahead, which still throws
    (src/HazardUnit.cpp:33). */
module Abort {
  import opened Isa
  import opened Decoding
  import opened Executors
  import opened Memories
  import opened StoreQueues
  import opened Machines
  import opened Scoreboard
  import opened Sequential
  import opened Refinement
  import opened Departures

  /** Position `k` stores what the load just before it loads. */
  ghost predicate DataBehindLoad(cfg: Config, s0: SeqState, k: nat) {
    k > 0 && !St(s0, k).halted && LoadUse(cfg, Done(St(s0, k - 1)), CodeAt(St(s0, k)))
  }

  /** The store-data hit that decode throws on. */
  predicate DataHazard(w: Machine) {
    var word := w.fd.load.word;
    LiveFD(w.fd.load) && w.de.stop == 0 && NeedOfRs2(word) == NeedMemory && LoadHit(w, Rs2(word))
  }

  lemma RepairedGood(cfg: Config, s0: SeqState, k: nat)
    requires cfg.repaired && SoundAt(s0, k)
    ensures GoodAt(cfg, s0, k) <==> !DataBehindLoad(cfg, s0, k)
  {
    hide SoundAt, St, Done, CodeAt, Recognize, Clash, LoadUse, Redirects;
  }

  /** Behind a live instruction, decode meets the hazard exactly when the program has it there. */
  lemma HazardIsData(cfg: Config, m: Machine, w: Machine, s0: SeqState)
    requires cfg.repaired && InStep(m, s0) && AtDecode(m, w, s0) && Running(cfg, m, s0) && Live(m.de.load)
    requires GoodAt(cfg, s0, PosDe(m)) && SoundAt(s0, PosFd(m))
    ensures DataHazard(w) <==> DataBehindLoad(cfg, s0, PosFd(m))
  {
    hide Done, St, InStep, CodeAt, Recognize, Execute, Redirects, Following, Fetchable, CodeStable, FetchReady,
         Index, InBounds, Rs1, Rs2,
         FetchedBefore, NeedOfRs2, LoadHit, Ready;
    SoundBounds(s0, PosDe(m));
    ExecutedFacts(m, w, s0);
    var i := Done(St(s0, PosDe(m)));
    if DataHazard(w) { HitIsLoadUse(cfg, m, w, s0, Rs2(w.fd.load.word)); }
    if IsLoad(i) {
      OnPathPc(cfg, m, w, s0);
      StraightWord(cfg, m, s0);
      LoadIsHit(m, w, s0);
    }
  }

  /** On the sequential path, with no store-data pair up to the word in DE (or FD, when DE is empty). */
  ghost predicate OnPath(cfg: Config, m: Machine, s0: SeqState) {
    Refines(cfg, m, s0) && Guarded(cfg, s0, PosDe(m) + 1)
  }

  lemma PathIsSound(cfg: Config, m: Machine, s0: SeqState)
    requires OnPath(cfg, m, s0)
    ensures SoundUpTo(s0, PosDe(m) + 1)
  {
    hide SoundAt, FreeOfUse, FreeOfClash, Refines;
    forall k: nat | k < PosDe(m) + 1 ensures SoundAt(s0, k) { assert GoodAt(cfg, s0, k); }
  }

  /** The word in FD is good unless decode is about to throw on it. */
  lemma NextIsGood(cfg: Config, m: Machine, w: Machine, s0: SeqState)
    requires cfg.repaired && OnPath(cfg, m, s0) && !m.halted && AtDecode(m, w, s0) && SoundAt(s0, PosFd(m))
    requires !DataHazard(w)
    ensures Guarded(cfg, s0, PosFd(m) + 1)
  {
    hide Done, St, InStep, LocksConserved, AtDecode, GoodAt, SoundAt, DataHazard, DataBehindLoad, Starting,
         Straight, Squashing, FetchReady;
    if Live(m.de.load) {
      HazardIsData(cfg, m, w, s0);
      RepairedGood(cfg, s0, PosFd(m));
    }
  }

  lemma ThrowIsHazard(cfg: Config, w: Machine, junk: bool)
    requires DecodeStage(cfg, w, junk).Err?
    ensures DecodeStage(cfg, w, junk) == Err(LoadHazard)
  {
    hide Recognize, Rs1, Rs2, Rd, MakeInstr, HitsEx, HitsMem, Stall;
  }

  /** Where the hazard stands, the program has a store-data pair. */
  lemma HazardInProgram(cfg: Config, m: Machine, w: Machine, s0: SeqState)
    requires cfg.repaired && OnPath(cfg, m, s0) && !m.halted && AtDecode(m, w, s0) && SoundAt(s0, PosFd(m))
    requires DataHazard(w)
    ensures DataBehindLoad(cfg, s0, PosFd(m))
  {
    hide Done, St, InStep, LocksConserved, GoodAt, SoundAt, DataBehindLoad, Starting, Straight, Squashing,
         FetchReady, Ready, Execute, Redirects;
    HazardIsData(cfg, m, w, s0);
  }

  /** One cycle of the repaired machine: it throws if and only if a store takes its data from the load just
      ahead, and else stays on the path. */
  lemma CycleThrowsExactly(cfg: Config, m: Machine, s0: SeqState, junk: bool)
    requires cfg.repaired && OnPath(cfg, m, s0) && !m.halted && SoundAt(s0, PosFd(m))
    ensures var r := Cycle(cfg, m, junk);
      if DataBehindLoad(cfg, s0, PosFd(m)) then r == Err(LoadHazard)
      else r.Ok? && OnPath(cfg, r.value, s0) && PosFd(r.value) <= PosFd(m) + 1
  {
    hide Cycle, Done, St, AtDecode, GoodAt, SoundAt, DataHazard, DataBehindLoad, BeforeDecode, Refines,
         DecodeStage, Finish;
    PathIsSound(cfg, m, s0);
    BoundaryBack(cfg, m, s0);
    BeforeDecodeRefines(cfg, m, s0);
    CycleSplits(cfg, m, junk);
    var w := BeforeDecode(cfg, m).value;
    LoadHazardExact(cfg, w, junk);
    if DataHazard(w) {
      HazardThrows(cfg, w, junk);
      HazardInProgram(cfg, m, w, s0);
    } else {
      NextIsGood(cfg, m, w, s0);
      assert GoodAt(cfg, s0, PosFd(m));
      RepairedGood(cfg, s0, PosFd(m));
      GuardedIsClear(cfg, s0, m, PosFd(m) + 1);
      CycleRefines(cfg, m, s0, junk);
      CycleAdvances(cfg, m, s0, junk);
    }
  }

  lemma HazardThrows(cfg: Config, w: Machine, junk: bool)
    requires DataHazard(w)
    ensures DecodeStage(cfg, w, junk) == Err(LoadHazard)
  {
    hide Recognize, Rs1, Rs2, LoadHit, DecodeStage, NeedOfRs2;
    LoadHazardExact(cfg, w, junk);
    ThrowIsHazard(cfg, w, junk);
  }

  /** The refinement of the intended machine, over every program of recognised instructions that stays in
      bounds and does not rewrite itself: its runs are on the sequential path, or have thrown "load hazart"
      because the program stores what it has just loaded. */
  lemma {:induction false} RunRefinesOrThrows(cfg: Config, s0: SeqState, junk: nat -> bool, t: nat)
    requires cfg.repaired && RegsNamed(s0.regs) && !s0.halted && SoundUpTo(s0, t + 1)
    ensures var r := Run(cfg, Initial(s0), junk, t);
      if r.Ok? then OnPath(cfg, r.value, s0) && PosFd(r.value) <= t
      else r == Err(LoadHazard) && exists k: nat | k < t :: DataBehindLoad(cfg, s0, k)
  {
    hide Cycle, Refines, GoodAt, SoundAt, DataBehindLoad, Initial, Done, St;
    if t == 0 {
      ResetRefines(cfg, s0);
      InitialPosition(s0);
      FirstIsGood(cfg, s0);
    } else {
      RunRefinesOrThrows(cfg, s0, junk, t - 1);
      var p := Run(cfg, Initial(s0), junk, t - 1);
      if p.Ok? && !p.value.halted { CycleThrowsExactly(cfg, p.value, s0, junk(t - 1)); }
    }
  }

  lemma FirstIsGood(cfg: Config, s0: SeqState)
    requires cfg.repaired && SoundAt(s0, 0)
    ensures Guarded(cfg, s0, 1)
  {
    hide SoundAt, St, GoodAt;
    RepairedGood(cfg, s0, 0);
  }
}
