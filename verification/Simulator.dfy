/** The simulator as objects (headers/PerfSim.h, src/PerfSim.cpp). Each stage method mutates latches,
    registers and shared instruction objects in place; `Abs` is the machine value they stand for, and
    each method is proved to compute on it what Machine.dfy specifies. */
module Simulators {
  import opened Isa
  import Decoding
  import opened Executors
  import opened Memories
  import opened StoreQueues
  import opened Machines
  import opened Scoreboard
  import opened Sequential
  import opened Refinement
  import opened Termination
  import opened Departures
  import opened ConfigEquivalence
  import opened Instructions
  import opened Hardware
  import opened Decoders
  import Manual

  /** The machine after the executed instruction `i` has redirected or stopped fetch. */
  function Redirected(m: Machine, i: Instr): Machine {
    var m1 := if Redirects(i) then Machines.Branch(m, i.branchAddr) else m;
    if i.typ == System then Machines.Exit(m1) else m1
  }

  /** By name: JAL, JALR and a taken branch, and nothing else, send fetch to their target and are counted. */
  predicate SentByName(m: Machine, r: Machine, i: Instr) {
    var jumps := i.name == JAL || i.name == JALR || (Manual.Branches(i.name) && i.taken);
    && r.branches == m.branches + (if jumps then 1 else 0)
    && r.wf.store == (if jumps then m.wf.store.(isJump := true, pcJump := i.branchAddr) else m.wf.store)
    && (jumps ==> r.fd.store.hazard && r.de.store.hazard)
  }

  lemma RedirectedByName(m: Machine, i: Instr)
    ensures Manual.OfTable(i) ==> SentByName(m, Redirected(m, i), i)
  {
    hide Redirects, Manual.Branches, Manual.OfTable;
    if Manual.OfTable(i) { Manual.RedirectsByName(i); }
  }

  lemma RowToExecute(i: Instr)
    requires Fits(RowOf(i))
    ensures i.acc != NoAccess ==> !IsBranchName(i.name) && !ComputesRd(i.name)
  {
    hide ComputesRd, IsBranchName;
  }

  lemma RedirectedKeepsEm(m: Machine, i: Instr, em: Buffer<Latch<Instr>>)
    ensures Redirected(m.(em := em), i) == Redirected(m, i).(em := em) && Redirected(m, i).em == m.em
  {
    hide Redirects;
  }

  /** The steps of the execute stage. */
  lemma ExecutedByCases(cfg: Config, m: Machine)
    ensures var l := m.de.load; var r := ExecuteStage(cfg, m);
      if Live(l) then
        var i := Executors.Execute(l.instr);
        var m1 := m.(em := m.em.(store := m.em.store.(isStall := false)));
        var m2 := Redirected(m1.(de := m1.de.(load := m1.de.load.(instr := i))), i);
        r == m2.(em := m2.em.(store := m2.em.store.(pc := l.pc, instr := i)))
      else
        var m1 := m.(em := m.em.(store := m.em.store.(isStall := true)));
        r == if l.isStall then m1 else m1.(rf := Release(cfg, m.rf, l.instr))
  {
    hide Executors.Execute, Release, Redirects, Machines.Branch, Machines.Exit;
    var i := Executors.Execute(m.de.load.instr);
    var d := m.(de := m.de.(load := m.de.load.(instr := i)));
    RedirectedKeepsEm(d, i, m.em.(store := m.em.store.(isStall := false)));
    RedirectedKeepsEm(d, i, m.em.(store := m.em.store.(isStall := false, pc := m.de.load.pc, instr := i)));
  }

  /** The machine after the access of the live instruction `i` in MEM, before it is passed on. */
  function Accessed(cfg: Config, m: Machine, i: Instr): Outcome<Machine> {
    if IsStore(i) then Machines.StoreData(cfg, m, i)
    else if IsLoad(i) then
      var data :- ReadData(cfg, m, i);
      Ok(m.(em := m.em.(load := m.em.load.(instr := Loaded(i, data)))))
    else Ok(m)
  }

  /** The access of the live instruction `i` in MEM on `m`, down to the MW store latch. */
  ghost predicate PassesOn(cfg: Config, m: Machine, pc: Word, i: Instr, ok: bool, a: Machine) {
    var r := Accessed(cfg, m, i);
    ok == r.Ok? && (ok ==> a == r.value.(mw := r.value.mw.(store := r.value.mw.store.(pc := pc, instr := r.value.em.load.instr))))
  }

  function MarkedMw(m: Machine, stall: bool): Machine { m.(mw := m.mw.(store := m.mw.store.(isStall := stall))) }

  /** The memory stage, when there is nothing to do but release and when there is an access. */
  lemma NothingAccessed(cfg: Config, m: Machine)
    requires !Live(m.em.load) && !cfg.repaired
    ensures var m1 := MarkedMw(m, true);
      Performs(true, if m.em.load.isStall then m1 else m1.(rf := WriteBackReg(m1.rf, m.em.load.instr)), Machines.MemoryAccess(cfg, m))
  {
  }

  lemma LiveAccessed(cfg: Config, m: Machine, ok: bool, a: Machine)
    requires Live(m.em.load) && PassesOn(cfg, MarkedMw(m, false), m.em.load.pc, m.em.load.instr, ok, a)
    ensures Performs(ok, a, Machines.MemoryAccess(cfg, m))
  {
    hide Machines.StoreData, ReadData, Loaded;
    DataIgnoresMw(cfg, m, m.mw.(store := m.mw.store.(isStall := false)), m.em.load.instr);
  }

  lemma EmptyPassedOn(load: Ref)
    ensures forall store: Ref :: store.isStall && store.instr == null ==> PassedOn(store, load)
  {
  }

  lemma LiveIsTabled(m: Machine)
    requires Tabled(m)
    ensures Live(m.em.load) ==> Fits(RowOf(m.em.load.instr))
  {
  }

  lemma MarkKeepsQueue(m: Machine, stall: bool)
    ensures QueueEmpty(MarkedMw(m, stall)) <==> QueueEmpty(m)
  {
  }

  lemma DataIgnoresMw(cfg: Config, m: Machine, mw: Buffer<Latch<Instr>>, i: Instr)
    ensures ReadData(cfg, m.(mw := mw), i) == ReadData(cfg, m, i)
    ensures var a := Machines.StoreData(cfg, m, i); var b := Machines.StoreData(cfg, m.(mw := mw), i);
      && (a.Ok? <==> b.Ok?)
      && (a.Ok? ==> b.value == a.value.(mw := mw) && a.value.em == m.em && a.value.mw == m.mw)
      && (a.Err? ==> a == b)
  {
    hide WriteWord, Index, InBounds, SearchResult, ReadWord;
  }

  /** Reading operands neither looks at the DE store latch nor, as written, touches it. */
  lemma OperandIgnoresDeStore(cfg: Config, m: Machine, n: RegNum, need: NeededIn, l: Latch<Instr>)
    requires !cfg.repaired
    ensures var a := ReadOperand(cfg, m, n, need); var b := ReadOperand(cfg, m.(de := m.de.(store := l)), n, need);
      if a.Ok? then a.value.0.de == m.de && b == Ok((a.value.0.(de := m.de.(store := l)), a.value.1)) else b == a
  {
  }

  lemma SourcesIgnoreDeStore(cfg: Config, m: Machine, w: Word, l: Latch<Instr>)
    requires !cfg.repaired
    ensures var a := ReadSources(cfg, m, w); var b := ReadSources(cfg, m.(de := m.de.(store := l)), w);
      if a.Ok? then a.value.0.de == m.de && b == Ok((a.value.0.(de := m.de.(store := l)), a.value.1, a.value.2)) else b == a
  {
    hide ReadOperand, Decoding.Recognize, Decoding.Rs1, Decoding.Rs2, NeedOfRs2;
    OperandIgnoresDeStore(cfg, m, Decoding.Rs1(w), NeedExecute, l);
    var a := if ReadsRs1(Decoding.Recognize(w).typ) then ReadOperand(cfg, m, Decoding.Rs1(w), NeedExecute) else Ok((m, NO_REG));
    if a.Ok? { OperandIgnoresDeStore(cfg, a.value.0, Decoding.Rs2(w), NeedOfRs2(w), l); }
  }

  lemma WordPlaced(cfg: Config, m: Machine, fd: FD, leftover: bool, ok: bool, i: Instr, a: Machine)
    requires DecodesTo(cfg, m, fd.word, fd.pc, leftover, ok, i, a)
    ensures DecodesInto(cfg, m, fd, leftover, ok, a.(de := a.de.(store := a.de.store.(pc := fd.pc, instr := i))))
  {
    hide ReadSources, RdLocked, Decoding.MakeInstr, Decoding.Rd;
  }

  function MarkedDe(m: Machine, stall: bool): Machine { m.(de := m.de.(store := m.de.store.(isStall := stall))) }

  /** The decode stage, when there is nothing to decode and when there is. */
  lemma NothingDecoded(cfg: Config, m: Machine, junk: bool)
    requires !LiveFD(m.fd.load) || m.de.stop > 0
    ensures Performs(true, MarkedDe(m, !LiveFD(m.fd.load)), DecodeStage(cfg, m, junk))
  {
  }

  lemma WordDecoded(cfg: Config, m: Machine, junk: bool, ok: bool, a: Machine)
    requires !cfg.repaired && LiveFD(m.fd.load) && m.de.stop == 0
    requires DecodesInto(cfg, MarkedDe(m, false), m.fd.load, junk, ok, a)
    ensures Performs(ok, a, DecodeStage(cfg, m, junk))
  {
    hide ReadSources, Decoding.MakeInstr, Decoding.Rd, Decoding.Recognize;
    SourcesIgnoreDeStore(cfg, m, m.fd.load.word, m.de.store.(isStall := false));
  }

  lemma DecodeKeepsLoad(cfg: Config, m: Machine, junk: bool)
    requires DecodeStage(cfg, m, junk).Ok?
    ensures DecodeStage(cfg, m, junk).value.de.load == m.de.load
  {
    hide ReadSources, Decoding.MakeInstr, Decoding.Recognize, Decoding.Rd;
    if LiveFD(m.fd.load) && m.de.stop == 0 { SourcesKeep(cfg, m, m.fd.load.word); }
  }

  /** What the stages before EX leave in place for those after them. */
  lemma BackEndFacts(cfg: Config, m: Machine)
    requires Tabled(m) && QueueEmpty(m)
    ensures var m1 := Machines.WriteBack(cfg, m); var r := Machines.MemoryAccess(cfg, m1);
      && Tabled(m1) && QueueEmpty(m1)
      && (r.Ok? ==> Live(r.value.de.load) ==> Fits(RowOf(r.value.de.load.instr)))
  {
    hide Machines.WriteBack, Machines.MemoryAccess, Fits;
    WbFrame(cfg, m);
    var m1 := Machines.WriteBack(cfg, m);
    if Machines.MemoryAccess(cfg, m1).Ok? { MemFrame(cfg, m1); }
  }

  /** ID and IF. */
  function Fronted(cfg: Config, m: Machine, junk: bool): Outcome<Machine> {
    var m4 :- DecodeStage(cfg, m, junk);
    Machines.Fetch(m4)
  }

  /** What holds at every cycle boundary of every run. */
  ghost predicate Sound(m: Machine) { LocksConserved(m) && Tabled(m) && QueueEmpty(m) }

  lemma CycleKeepsSound(cfg: Config, m: Machine, junk: bool)
    requires Sound(m) && Cycle(cfg, m, junk).Ok?
    ensures Sound(Cycle(cfg, m, junk).value)
  {
    hide LocksConserved, Tabled, QueueEmpty, Cycle;
    CycleConservesLocks(cfg, m, junk);
    CycleKeepsTabled(cfg, m, junk);
    CycleEmptiesQueue(cfg, m, junk);
  }

  lemma InitialSound(s0: SeqState)
    requires RegsNamed(s0.regs)
    ensures Sound(Initial(s0))
  {
    hide Initial, LocksConserved, Tabled, QueueEmpty;
    InitialTabled(s0);
  }

  predicate SmallQueue(q: QueueState) { forall s: Store | s in q.queue + [q.pending] :: s.size <= 4 }

  /** The queue's update and the clock. */
  function Ticked(m: Machine): Outcome<Machine> {
    var r :- Advance(m.sq, m.mem);
    Ok(m.(sq := r.0, mem := r.1, clocks := m.clocks + 1))
  }

  /** The stages and their updates, put together from what the methods of the simulator compute. */
  function AllStages(cfg: Config, m: Machine, junk: bool): Outcome<Machine> {
    var m3 :- BeforeDecode(cfg, m);
    var m5 :- Fronted(cfg, m3, junk);
    Ok(Machines.UpdateStages(m5))
  }

  lemma SoundAfterEx(cfg: Config, m: Machine)
    requires Sound(m) && BeforeDecode(cfg, m).Ok?
    ensures AfterEx(BeforeDecode(cfg, m).value)
  {
    hide LocksConserved, AfterEx, BeforeDecode, QueueEmpty, Tabled;
    BeforeDecodeStep(cfg, m);
  }

  /** The stages and then the queue make a cycle. */
  lemma CycleInParts(cfg: Config, m: Machine, junk: bool)
    requires Sound(m)
    ensures var a := AllStages(cfg, m, junk);
      Cycle(cfg, m, junk) == (if a.Ok? then Ticked(a.value) else a) && (a.Ok? ==> SmallQueue(a.value.sq))
  {
    hide LocksConserved, Machines.WriteBack, Machines.MemoryAccess, ExecuteStage, DecodeStage, Machines.Fetch,
         Advance, SmallQueue, QueueEmpty, Tabled;
    if BeforeDecode(cfg, m).Ok? && Fronted(cfg, BeforeDecode(cfg, m).value, junk).Ok? { QueueStaysSmall(cfg, m, junk); }
  }

  lemma QueueStaysSmall(cfg: Config, m: Machine, junk: bool)
    requires Sound(m) && BeforeDecode(cfg, m).Ok? && Fronted(cfg, BeforeDecode(cfg, m).value, junk).Ok?
    ensures SmallQueue(Fronted(cfg, BeforeDecode(cfg, m).value, junk).value.sq)
  {
    hide LocksConserved, Machines.WriteBack, Machines.MemoryAccess, ExecuteStage, DecodeStage, Machines.Fetch,
         Tabled, QueueEmpty;
    BackEndFacts(cfg, m);
    PushIsSmall(cfg, Machines.WriteBack(cfg, m));
    LaterKeepQueue(cfg, Machines.MemoryAccess(cfg, Machines.WriteBack(cfg, m)).value, junk);
  }

  lemma PushIsSmall(cfg: Config, m: Machine)
    requires Tabled(m) && QueueEmpty(m) && Machines.MemoryAccess(cfg, m).Ok?
    ensures SmallQueue(Machines.MemoryAccess(cfg, m).value.sq)
  {
    hide WriteWord, Index, InBounds, ReadData, Loaded, Release, ComputesRd, IsBranchName;
  }

  /** A run of `t` cycles looks at the first `t` leftover flags. */
  lemma {:induction false} RunDepends(cfg: Config, m: Machine, j: nat -> bool, j': nat -> bool, t: nat)
    requires forall k: nat | k < t :: j(k) == j'(k)
    ensures Machines.Run(cfg, m, j, t) == Machines.Run(cfg, m, j', t)
  {
    hide Cycle;
    if t > 0 { RunDepends(cfg, m, j, j', t - 1); }
  }

  function With(junk: nat -> bool, t: nat, leftover: bool): nat -> bool {
    (k: nat) => if k == t then leftover else junk(k)
  }

  lemma RunExtends(cfg: Config, m: Machine, junk: nat -> bool, t: nat, leftover: bool)
    requires var r := Machines.Run(cfg, m, junk, t); r.Ok? && !r.value.halted
    ensures Machines.Run(cfg, m, With(junk, t, leftover), t + 1) == Cycle(cfg, Machines.Run(cfg, m, junk, t).value, leftover)
  {
    hide Cycle;
    RunDepends(cfg, m, junk, With(junk, t, leftover), t);
  }

  lemma RunStarts(cfg: Config, m: Machine, junk: nat -> bool)
    ensures Machines.Run(cfg, m, junk, 0) == Ok(m)
  {
  }

  /** The sequential program's final state, every retired instruction right and every clock accounted for. */
  ghost predicate EndsRight(m: Machine, s0: SeqState, n: nat) {
    && m.halted && |m.retired| == n && TraceRight(m.retired, s0)
    && m.rf.regs == St(s0, n).regs && m.mem == St(s0, n).mem
    && m.clocks == n + 4 + 2 * m.branches + m.stops && m.clocks <= 3 * n + 2
  }

  /** A guarded run that has not halted is young. */
  lemma GuardedIsYoung(cfg: Config, s0: SeqState, junk: nat -> bool, n: nat, t: nat)
    requires RegsNamed(s0.regs) && !s0.halted && HaltsAt(s0, n) && Guarded(cfg, s0, n) && t <= 3 * n + 2
    requires var r := Machines.Run(cfg, Initial(s0), junk, t); r.Ok? && !r.value.halted
    ensures t < 3 * n + 2
  {
    hide Machines.Run, HaltsAt, Initial, GoodAt, Guarded, RegsNamed;
    RunTerminates(cfg, s0, junk, n);
  }

  /** No guarded cycle raises an exception. */
  lemma GuardedRuns(cfg: Config, s0: SeqState, junk: nat -> bool, n: nat, t: nat)
    requires RegsNamed(s0.regs) && !s0.halted && HaltsAt(s0, n) && Guarded(cfg, s0, n)
    ensures Machines.Run(cfg, Initial(s0), junk, t).Ok?
  {
    hide Machines.Run, HaltsAt, Initial, GoodAt, Cycle, RegsNamed;
    GuardedOnwards(cfg, s0, n, t);
    RunRefines(cfg, s0, junk, t);
  }

  lemma {:induction false} RunClocks(cfg: Config, s0: SeqState, junk: nat -> bool, t: nat)
    requires RegsNamed(s0.regs) && !s0.halted && Guarded(cfg, s0, t)
    ensures var r := Machines.Run(cfg, Initial(s0), junk, t); r.Ok? && r.value.clocks <= t
  {
    hide Cycle, Refines, GoodAt, Initial, RegsNamed;
    RunRefines(cfg, s0, junk, t);
    if t == 0 {
      InitialPosition(s0);
    } else {
      RunClocks(cfg, s0, junk, t - 1);
      RunRefines(cfg, s0, junk, t - 1);
      var p := Machines.Run(cfg, Initial(s0), junk, t - 1).value;
      if !p.halted { GuardedIsClear(cfg, s0, p, t); CycleAdvances(cfg, p, s0, junk(t - 1)); }
    }
  }

  lemma GuardedEnd(cfg: Config, s0: SeqState, junk: nat -> bool, n: nat, t: nat)
    requires RegsNamed(s0.regs) && !s0.halted && HaltsAt(s0, n) && Guarded(cfg, s0, n) && t <= 3 * n + 2
    requires var r := Machines.Run(cfg, Initial(s0), junk, t); r.Ok? && r.value.halted
    ensures EndsRight(Machines.Run(cfg, Initial(s0), junk, t).value, s0, n)
  {
    hide Machines.Run, HaltsAt, Initial, GoodAt, Cycle, TraceRight, St, RegsNamed;
    RunTerminates(cfg, s0, junk, n);
    RunEnds(cfg, Initial(s0), junk, t, 3 * n + 2);
    GuardedOnwards(cfg, s0, n, t);
    RunClocks(cfg, s0, junk, t);
  }

  lemma StackedRegs(top: Word)
    ensures ZeroRegs()[2].name == 2
    ensures WriteReg(Lock(RegState(ZeroRegs(), seq(32, _ => 0)), 2), Register(2, top)) == RegState(StackRegs(top), seq(32, _ => 0))
    ensures RegsNamed(StackRegs(top))
  {
    var rf := WriteReg(Lock(RegState(ZeroRegs(), seq(32, _ => 0)), 2), Register(2, top));
    assert rf.regs == StackRegs(top);
    assert rf.locks == seq(32, _ => 0);
  }

  function StackRegs(top: Word): RegVector {
    seq(32, n requires 0 <= n < 32 => Register(n, if n == 2 then top else 0))
  }

  /** The sequential machine over the same loaded memory. */
  function LoadedState(mem: Mem, entry: Word, top: Word): SeqState {
    SeqState(entry, StackRegs(top), WriteWord(mem, Index(top), 4, 0), false)
  }

  /** What is loaded: the stack pointer, x2, at the top, every other register 0, four zero bytes at the top, the rest
      of memory as it was, and fetch at the entry. */
  lemma LoadedIs(mem: Mem, entry: Word, top: Word)
    requires Index(top) + 4 <= |mem|
    ensures var s := LoadedState(mem, entry, top);
      && s.pc == entry && !s.halted && s.regs[2] == Register(2, top) && |s.mem| == |mem|
      && (forall n: RegNum | n != 2 :: s.regs[n] == Register(n, 0))
      && (forall p: nat :: ByteAt(s.mem, p) == if Index(top) <= p < Index(top) + 4 then 0 else ByteAt(mem, p))
  {
    hide Index, WriteWord, ByteAt;
    forall p: nat
      ensures ByteAt(WriteWord(mem, Index(top), 4, 0), p) == if Index(top) <= p < Index(top) + 4 then 0 else ByteAt(mem, p)
    {
      WriteWordByte(mem, Index(top), 4, 0, p);
      ZeroBytes(p - Index(top));
    }
  }

  lemma ZeroBytes(k: int)
    ensures 0 <= k < 4 ==> ByteOf(0, k) == 0
  {
  }

  /** The call that returned `ok` raised an exception where `r` has a fault, and else left the machine `a`. */
  ghost predicate Performs(ok: bool, a: Machine, r: Outcome<Machine>) {
    ok == r.Ok? && (ok ==> a == r.value)
  }

  /** Decoding the word in `fd` on `m`, down to the DE store latch. */
  ghost predicate DecodesInto(cfg: Config, m: Machine, fd: FD, leftover: bool, ok: bool, a: Machine) {
    var s := ReadSources(cfg, m, fd.word);
    ok == s.Ok? && (ok ==>
      var n := RdLocked(s.value.0, fd.word);
      var i := Decoding.MakeInstr(fd.word, fd.pc, s.value.1, s.value.2, s.value.0.rf.regs[Decoding.Rd(fd.word)], leftover);
      a == n.(de := n.de.(store := n.de.store.(pc := fd.pc, instr := i))))
  }

  /** `set_pc` on the object just filled. */
  lemma PcSet(cfg: Config, m: Machine, word: Word, pc0: Word, pc: Word, leftover: bool, ok: bool, i: Instr, a: Machine)
    requires DecodesTo(cfg, m, word, pc0, leftover, ok, i, a)
    ensures DecodesTo(cfg, m, word, pc, leftover, ok, i.(pc := pc), a)
  {
    hide Decoding.Recognize, Decoding.Immediate, Decoding.Rd, ReadSources, RdLocked;
  }

  /** The fetch stage by the cases its method distinguishes. */
  lemma FetchByCases(m: Machine, fd: Buffer<FD>, wf: Buffer<WF>, ok: bool)
    requires var l := m.wf.load; var marked := m.fd.(store := m.fd.store.(isStall := l.isStall || l.hazard)); var pc := FetchPc(l);
      if l.isStall || l.hazard || m.fd.stop > 0 then ok && fd == marked && wf == m.wf
      else
        && ok == InBounds(m.mem, Index(pc), 4)
        && (ok ==> fd == marked.(store := marked.store.(pc := pc, word := ReadWord(m.mem, Index(pc), 4)))
                   && wf == m.wf.(store := m.wf.store.(pc := Following(pc))))
    ensures Performs(ok, m.(fd := fd, wf := wf), Machines.Fetch(m))
  {
    hide InBounds, Index, ReadWord, Following;
  }

  class PerfSim {
    const sqEnabled: bool
    const memory: Memory
    const hu: HazardUnit
    const decoder: Decoder
    const pipeline: Pipeline
    var ic: nat
    var clocks: nat
    var isStop: bool
    ghost var retired: seq<Instr>

    /** A simulator over a loaded memory: the stack pointer at its top, a zero argument count there, and
        fetch at `entry`. `top` is the address five bytes below the end. */
    constructor (sqEnabled: bool, memory: Memory, entry: Word, top: Word)
      requires Index(top) + 5 == memory.bytes.Length
      modifies memory.bytes
      ensures this.sqEnabled == sqEnabled && this.memory == memory
      ensures Valid() && Abs() == Initial(LoadedState(old(memory.Content()), entry, top))
    {
      hide Abs, Valid, Settled, Initial, LoadedState, Index, Decoder.RingsValid, ZeroRegs;
      this.sqEnabled, this.memory := sqEnabled, memory;
      var rf := new RegFile();
      var wfSt := new Stage<WF>(WF_CLEAR);
      var fdSt := new Stage<FD>(FD_CLEAR);
      var deSt := new Stage<Ref>(REF_CLEAR);
      var emSt := new Stage<Ref>(REF_CLEAR);
      var mwSt := new Stage<Ref>(REF_CLEAR);
      var unit := new HazardUnit(rf, wfSt, fdSt, deSt, emSt, mwSt);
      hu := unit;
      decoder := new Decoder(unit);
      pipeline := new Pipeline(memory);
      ic, clocks, isStop, retired := 0, 0, false, [];
      new;
      BlankShows();
      Prepare(entry, top);
    }

    /** New parts are a machine with nothing in it. */
    lemma BlankShows()
      requires Wired() && hu.rf.State() == RegState(ZeroRegs(), seq(32, _ => 0))
      requires hu.wfSt.View() == Buffer(WF_CLEAR, WF_CLEAR, 0) && hu.fdSt.View() == Buffer(FD_CLEAR, FD_CLEAR, 0)
      requires hu.deSt.View() == hu.emSt.View() == hu.mwSt.View() == Buffer(REF_CLEAR, REF_CLEAR, 0)
      requires hu.bypassesMemEx == hu.bypassesWbEx == hu.branches == hu.stops == 0
      requires pipeline.State() == QueueState([], NO_STORE, 0) && ic == clocks == 0 && !isStop && retired == []
      ensures Settled() && Abs() == Reset(ZeroRegs(), memory.Content(), 0).(wf := Buffer(WF_CLEAR, WF_CLEAR, 0))
    {
    }

    method SetStack(top: Word)
      requires Wired() && Index(top) + 5 == memory.bytes.Length
      modifies hu.rf.regs, hu.rf.locker, memory.bytes
      ensures Abs() == old(Abs()).(rf := WriteReg(Lock(old(Abs()).rf, 2), Register(old(Abs()).rf.regs[2].name, top)),
                                   mem := WriteWord(old(memory.Content()), Index(top), 4, 0))
    {
      hide Index, InBounds, WriteWord, RegFile.State, HazardUnit.Onto, At;
      ghost var rest := Rest();
      hu.OntoOther(rest, rest);
      var sp := hu.rf.GetReg(2, true);
      sp := sp.(value := top);
      var ok := memory.Write(0, Index(top), 4);
      hu.rf.Write(sp);
      hu.StillOnto(rest);
      hu.OntoOther(rest, Rest());
      hu.OntoOther(rest, rest);
    }

    method SetEntry(entry: Word)
      requires Wired() && hu.wfSt.stop == 0
      modifies hu.wfSt
      ensures Abs() == old(Abs()).(wf := Buffer(WF_CLEAR, old(Abs()).wf.store.(pc := entry, isStall := false), 0))
    {
      hide Abs;
      InIf();
      hu.wfSt.store := hu.wfSt.store.(pc := entry, isStall := false);
      hu.wfSt.Update();
      FrontStored();
    }

    method Prepare(entry: Word, top: Word)
      requires Wired() && Index(top) + 5 == memory.bytes.Length && hu.wfSt.stop == 0
      requires Settled() && Abs() == Reset(ZeroRegs(), memory.Content(), 0).(wf := Buffer(WF_CLEAR, WF_CLEAR, 0))
      modifies hu.rf.regs, hu.rf.locker, memory.bytes, hu.wfSt
      ensures Valid() && Abs() == Initial(LoadedState(old(memory.Content()), entry, top))
    {
      hide Index, InBounds, WriteWord, Abs, Sound, Lock, WriteReg, ZeroRegs, StackRegs, RegsNamed;
      StackedRegs(top);
      SetStack(top);
      SetEntry(entry);
      InitialSound(LoadedState(old(memory.Content()), entry, top));
      assert Settled();
    }

    /** What is not behind the hazard unit. */
    ghost function Rest(): Machine
      reads this, memory.bytes, pipeline
    {
      Reset(seq(32, _ => NO_REG), memory.Content(), 0)
        .(sq := pipeline.State(), ic := ic, clocks := clocks, halted := isStop, retired := retired)
    }

    ghost function Abs(): Machine
      requires hu.rf.Valid()
      reads this, memory.bytes, pipeline, hu, hu.rf.regs, hu.rf.locker, hu.wfSt, hu.fdSt, hu.deSt, hu.emSt, hu.mwSt
      reads hu.deSt.store.instr, hu.deSt.load.instr, hu.emSt.store.instr, hu.emSt.load.instr
      reads hu.mwSt.store.instr, hu.mwSt.load.instr
    {
      hu.Onto(Rest())
    }

    ghost function Cfg(): Config { Config(sqEnabled, false) }

    /** How the objects are connected; none of it ever changes. */
    ghost predicate Wired() {
      && hu.Valid() && decoder.hu == hu && decoder.RingsValid() && pipeline.memory == memory
      && memory.bytes as object != hu.rf.regs && memory.bytes as object != hu.rf.locker
    }

    /** `hu.write`. */
    method Release(i: Instruction)
      requires Wired()
      modifies hu.rf.regs, hu.rf.locker
      ensures Abs() == old(Abs()).(rf := WriteBackReg(old(Abs()).rf, old(i.Value())))
    {
      hide RegFile.State, At, HazardUnit.Onto, WriteBackReg;
      hu.Write(i, Rest());
      assert Rest() == old(Rest());
    }

    method ReleaseCancelled(l: Ref)
      requires Wired() && (!l.isStall ==> l.instr != null)
      modifies hu.rf.regs, hu.rf.locker
      ensures Abs() == if !l.isStall && l.hazard then old(Abs()).(rf := WriteBackReg(old(Abs()).rf, old(At(l.instr)))) else old(Abs())
    {
      hide Abs, WriteBackReg;
      if !l.isStall && l.hazard { Release(l.instr); }
    }

    method Retire(i: Instruction)
      requires Wired()
      modifies `ic, `isStop, `retired
      ensures Abs() == old(Abs()).(ic := old(ic) + 1, retired := old(retired) + [i.Value()], halted := old(isStop) || i.name == ECALL)
    {
      hide RegFile.State, At, HazardUnit.Onto;
      ghost var rest := Rest();
      ic := ic + 1;
      retired := retired + [i.Value()];
      if i.name == ECALL { isStop := true; }
      hu.StillOnto(rest);
      hu.OntoOther(rest, Rest());
      hu.OntoOther(rest, rest);
    }

    lemma InWb()
      requires Wired()
      ensures Abs().mw.load == Seen(hu.mwSt.load) && Abs().ic == ic && Abs().halted == isStop && Abs().retired == retired
    {
    }

    method WriteBack()
      requires Wired() && hu.LoadsSet()
      modifies `ic, `isStop, `retired, hu.rf.regs, hu.rf.locker
      ensures Abs() == Machines.WriteBack(Cfg(), old(Abs()))
    {
      hide Abs, WriteBackReg;
      var l := hu.mwSt.load;
      InWb();
      if l.isStall { return; }
      var i := l.instr;
      Release(i);
      if l.hazard { return; }
      Retire(i);
    }

    /** The data path of a store: into the queue's pending slot, or straight to memory. */
    method StoreData(i: Instruction) returns (ok: bool)
      requires Wired() && AccessSize(i.accSize)
      modifies pipeline, memory.bytes
      ensures Performs(ok, Abs(), Machines.StoreData(Cfg(), old(Abs()), i.Value()))
    {
      hide RegFile.State, At, HazardUnit.Onto, WriteWord, Index;
      ghost var rest := Rest();
      ok := true;
      if sqEnabled {
        pipeline.Push(Index(i.addr), i.accSize, i.rs2.value);
      } else {
        ok := memory.Write(i.rs2.value, Index(i.addr), i.accSize);
      }
      hu.StillOnto(rest);
      hu.OntoOther(rest, Rest());
      hu.OntoOther(rest, rest);
    }

    /** The data path of a load, extended. `garbage` is the uninitialised word the queue reads into. */
    method LoadData(i: Instruction, garbage: Word) returns (ok: bool, data: Word)
      requires Wired() && Fits(RowOf(i.Value())) && i.acc == Read && QueueEmpty(Abs())
      ensures var r := ReadData(Cfg(), Abs(), i.Value());
        ok == r.Ok? && (ok ==> data == Extended(i.name, i.accSize, r.value))
    {
      hide RegFile.State, At, SearchResult, FromMemory, ReadWord, Extended, Index, ComputesRd, IsBranchName;
      if sqEnabled {
        ok, data := pipeline.SearchData(Index(i.addr), i.accSize, garbage);
      } else {
        ok, data := memory.Read(0, Index(i.addr), i.accSize);
      }
      QueueReads(memory.Content(), i.Value(), garbage);
      data := Extended(i.name, i.accSize, data);
    }

    /** No store latch refers to anything, and a live latch refers to an object that no older one does. */
    ghost predicate Linked()
      reads hu.deSt, hu.emSt, hu.mwSt`load, hu.deSt.load.instr
    {
      && hu.deSt.store.instr == null && hu.emSt.store.instr == null
      && hu.LoadsSet() && Apart()
    }

    ghost predicate Apart()
      reads hu.deSt`load, hu.emSt`load, hu.mwSt`load, hu.deSt.load.instr
    {
      var de, em, mw := hu.deSt.load, hu.emSt.load.instr, hu.mwSt.load.instr;
      && (em != null ==> em != mw)
      && (de.instr != null && (de.instr == em || de.instr == mw) ==> de.hazard && de.instr.typ == System)
    }

    /** rd of the load in MEM. */
    method Deliver(i: Instruction, data: Word)
      requires Wired() && Linked() && hu.mwSt.store.instr == null && i == hu.emSt.load.instr && i.typ != System
      modifies i
      ensures Abs() == old(Abs()).(em := old(Abs()).em.(load := old(Abs()).em.load.(
          instr := old(i.Value()).(rd := Register(old(i.rd.name), data)))))
      ensures i.typ == old(i.typ)
    {
      hide RegFile.State, HazardUnit.Onto;
      hu.OntoOther(Rest(), Rest());
      i.rd := Register(i.rd.name, data);
      hu.StagesStill(Rest());
      hu.OntoOther(Rest(), Rest());
      assert Rest() == old(Rest());
    }

    /** What the live instruction in MEM does to memory, and memory to it. */
    method Access(i: Instruction, garbage: Word) returns (ok: bool)
      requires Wired() && Linked() && hu.mwSt.store.instr == null && i == hu.emSt.load.instr
      requires Fits(RowOf(i.Value())) && QueueEmpty(Abs())
      modifies i, pipeline, memory.bytes
      ensures i.typ == old(i.typ)
      ensures Performs(ok, Abs(), Accessed(Cfg(), old(Abs()), old(i.Value())))
    {
      hide Abs, Machines.StoreData, ReadData, ComputesRd, IsBranchName, Extended, QueueEmpty;
      ok := true;
      if i.acc == Write && i.typ == S {
        ok := StoreData(i);
      }
      if i.acc == Read && i.typ == I {
        var data;
        ok, data := LoadData(i, garbage);
        if ok { Deliver(i, data); }
      }
    }

    twostate lemma MwStored()
      requires Wired()
      requires unchanged(this, pipeline, memory.bytes, hu, hu.rf.regs, hu.rf.locker, hu.wfSt, hu.fdSt, hu.deSt, hu.emSt)
      requires hu.mwSt.load == old(hu.mwSt.load) && hu.mwSt.stop == old(hu.mwSt.stop)
      requires Kept(hu.deSt.store.instr) && Kept(hu.deSt.load.instr) && Kept(hu.emSt.store.instr)
      requires Kept(hu.emSt.load.instr) && Kept(hu.mwSt.load.instr)
      ensures Abs() == old(Abs()).(mw := old(Abs()).mw.(store := Seen(hu.mwSt.store)))
    {
      hide RegFile.State, At;
    }

    method MarkMw(stall: bool)
      requires Wired()
      modifies hu.mwSt`store
      ensures hu.mwSt.store == old(hu.mwSt.store).(isStall := stall)
      ensures Abs() == MarkedMw(old(Abs()), stall)
    {
      hide Abs, At;
      InMem();
      hu.mwSt.store := hu.mwSt.store.(isStall := stall);
      MwStored();
    }

    /** The live half of `memoryAccess`. */
    method AccessAndPass(l: Ref, garbage: Word) returns (ok: bool)
      requires Wired() && Linked() && hu.mwSt.store.instr == null && l == hu.emSt.load && l.instr != null
      requires Fits(RowOf(l.instr.Value())) && QueueEmpty(Abs())
      modifies hu.mwSt`store, l.instr, pipeline, memory.bytes
      ensures Linked()
      ensures !old(hu.mwSt.store.isStall) ==> PassedOn(hu.mwSt.store, l)
      ensures PassesOn(Cfg(), old(Abs()), l.pc, old(l.instr.Value()), ok, Abs())
    {
      hide Abs, QueueEmpty, Fits, Accessed;
      ok := Access(l.instr, garbage);
      InMem();
      label Accessed:
      hu.mwSt.store := hu.mwSt.store.(instr := l.instr, pc := l.pc);
      MwStored@Accessed();
    }

    lemma InMem()
      requires Wired()
      ensures Abs().em.load == Seen(hu.emSt.load) && Abs().mw.store == Seen(hu.mwSt.store)
    {
    }

    method CancelledInMem(l: Ref, ghost m: Machine)
      requires Wired() && Linked() && l == hu.emSt.load && !LiveRef(l)
      requires Abs() == MarkedMw(m, true) && m.em.load == Seen(l)
      modifies hu.rf.regs, hu.rf.locker
      ensures Linked() && Performs(true, Abs(), Machines.MemoryAccess(Cfg(), m))
    {
      hide Abs, Apart, WriteBackReg, Machines.MemoryAccess, MarkedMw, Performs;
      ReleaseCancelled(l);
      NothingAccessed(Cfg(), m);
    }

    method LiveInMem(l: Ref, garbage: Word, ghost m: Machine) returns (ok: bool)
      requires Wired() && Linked() && hu.mwSt.store.instr == null && !hu.mwSt.store.isStall
      requires l == hu.emSt.load && LiveRef(l) && Tabled(m) && QueueEmpty(m)
      requires Abs() == MarkedMw(m, false) && m.em.load == Seen(l)
      modifies hu.mwSt`store, l.instr, pipeline, memory.bytes
      ensures Linked() && PassedOn(hu.mwSt.store, l)
      ensures Performs(ok, Abs(), Machines.MemoryAccess(Cfg(), m))
    {
      hide Abs, Tabled, QueueEmpty, Fits, RowOf, Apart, Machines.MemoryAccess, MarkedMw, Performs, PassesOn, PassedOn;
      LiveIsTabled(m);
      MarkKeepsQueue(m, false);
      ok := AccessAndPass(l, garbage);
      LiveAccessed(Cfg(), m, ok, Abs());
    }

    /** `memoryAccess`. */
    method MemoryAccess(garbage: Word) returns (ok: bool)
      requires Wired() && Linked() && hu.mwSt.store.instr == null && hu.mwSt.stop == 0
      requires Tabled(Abs()) && QueueEmpty(Abs())
      modifies hu.mwSt`store, hu.emSt.load.instr, hu.rf.regs, hu.rf.locker, pipeline, memory.bytes
      ensures Linked()
      ensures PassedOn(hu.mwSt.store, hu.emSt.load)
      ensures Performs(ok, Abs(), Machines.MemoryAccess(Cfg(), old(Abs())))
    {
      hide Abs, Tabled, QueueEmpty, Apart, Machines.MemoryAccess, MarkedMw, Performs, PassedOn, Seen;
      var l := hu.emSt.load;
      var stall := l.isStall || l.hazard;
      InMem();
      EmptyPassedOn(l);
      ghost var m := Abs();
      ok := true;
      MarkMw(stall);
      if stall || hu.mwSt.stop > 0 {
        CancelledInMem(l, m);
      } else {
        ok := LiveInMem(l, garbage, m);
      }
    }

    twostate lemma EmStored()
      requires Wired()
      requires unchanged(this, pipeline, memory.bytes, hu, hu.rf.regs, hu.rf.locker, hu.wfSt, hu.fdSt, hu.deSt, hu.mwSt)
      requires hu.emSt.load == old(hu.emSt.load) && hu.emSt.stop == old(hu.emSt.stop)
      requires Kept(hu.deSt.store.instr) && Kept(hu.deSt.load.instr) && Kept(hu.emSt.load.instr)
      requires Kept(hu.mwSt.store.instr) && Kept(hu.mwSt.load.instr)
      ensures Abs() == old(Abs()).(em := old(Abs()).em.(store := Seen(hu.emSt.store)))
    {
      hide RegFile.State, At;
    }

    lemma InEx()
      requires Wired()
      ensures Abs().de.load == Seen(hu.deSt.load) && Abs().em.store == Seen(hu.emSt.store)
    {
    }

    method MarkEm(stall: bool)
      requires Wired()
      modifies hu.emSt`store
      ensures hu.emSt.store == old(hu.emSt.store).(isStall := stall)
      ensures Abs() == old(Abs()).(em := old(Abs()).em.(store := old(Abs()).em.store.(isStall := stall)))
    {
      hide Abs, At;
      InEx();
      hu.emSt.store := hu.emSt.store.(isStall := stall);
      EmStored();
    }

    /** The executor runs on the object in EX, which no other latch refers to. */
    method Perform(i: Instruction)
      requires Wired() && Linked() && i == hu.deSt.load.instr && LiveRef(hu.deSt.load) && Fits(RowOf(i.Value()))
      requires hu.mwSt.store.instr == null || hu.mwSt.store.instr == hu.emSt.load.instr
      modifies i
      ensures i.typ == old(i.typ)
      ensures Abs() == old(Abs()).(de := old(Abs()).de.(load := old(Abs()).de.load.(instr := Executors.Execute(old(i.Value())))))
    {
      hide RegFile.State, HazardUnit.Onto, Executors.Execute, ComputesRd, IsBranchName, Manual.Executed, Fits, RowOf;
      RowToExecute(i.Value());
      hu.OntoOther(Rest(), Rest());
      i.Execute();
      hu.StagesStill(Rest());
      hu.OntoOther(Rest(), Rest());
      assert Rest() == old(Rest());
    }

    /** The calls of `hu.branch` and `hu.exit` after execution. */
    method Redirect(i: Instruction)
      requires Wired()
      modifies hu, hu.wfSt`store, hu.wfSt`stop, hu.fdSt`store, hu.fdSt`stop, hu.deSt
      ensures hu.deSt.store.instr == old(hu.deSt.store.instr) && hu.deSt.load.instr == old(hu.deSt.load.instr)
      ensures hu.deSt.load.isStall == old(hu.deSt.load.isStall)
      ensures hu.deSt.load.hazard == (old(hu.deSt.load.hazard) || i.typ == System)
      ensures Abs() == Redirected(old(Abs()), i.Value())
      ensures Manual.OfTable(i.Value()) ==> SentByName(old(Abs()), Abs(), i.Value())
    {
      hide RegFile.State, HazardUnit.Onto, At, Machines.Branch, Machines.Exit, Manual.OfTable, SentByName;
      RedirectedByName(Abs(), i.Value());
      if i.isBranch && (i.typ == J || i.typ == I || (i.typ == B && i.taken)) {
        hu.Branch(i, Rest());
        assert Rest() == old(Rest());
      }
      if i.typ == System {
        hu.Exit(Rest());
        assert Rest() == old(Rest());
      }
    }

    /** The live half of `execute`. */
    method ExecuteAndPass(l: Ref)
      requires Wired() && Linked() && l == hu.deSt.load && LiveRef(l) && Fits(RowOf(l.instr.Value()))
      requires hu.mwSt.store.instr == null || hu.mwSt.store.instr == hu.emSt.load.instr
      modifies hu, hu.wfSt`store, hu.wfSt`stop, hu.fdSt`store, hu.fdSt`stop, hu.deSt, hu.emSt`store, l.instr
      ensures hu.deSt.store.instr == null && hu.LoadsSet() && Apart()
      ensures hu.deSt.load.instr == l.instr
      ensures hu.emSt.store == old(hu.emSt.store).(instr := l.instr, pc := l.pc) && hu.emSt.store.instr != hu.emSt.load.instr
      ensures var m := old(Abs()); var i := Executors.Execute(old(l.instr.Value()));
        var m2 := Redirected(m.(de := m.de.(load := m.de.load.(instr := i))), i);
        Abs() == m2.(em := m2.em.(store := m2.em.store.(pc := l.pc, instr := i)))
    {
      hide Abs, Fits, Redirected, Executors.Execute, RowOf, SentByName, Manual.OfTable, Redirects, Live;
      InEx();
      Perform(l.instr);
      InEx();
      SendOn(l);
    }

    /** The executed instruction redirects or exits, and goes to the EM latch. */
    method SendOn(l: Ref)
      requires Wired() && Linked() && l == hu.deSt.load && LiveRef(l)
      requires hu.mwSt.store.instr == null || hu.mwSt.store.instr == hu.emSt.load.instr
      modifies hu, hu.wfSt`store, hu.wfSt`stop, hu.fdSt`store, hu.fdSt`stop, hu.deSt, hu.emSt`store
      ensures hu.deSt.store.instr == null && hu.LoadsSet() && Apart()
      ensures hu.deSt.load.instr == l.instr
      ensures hu.emSt.store == old(hu.emSt.store).(instr := l.instr, pc := l.pc) && hu.emSt.store.instr != hu.emSt.load.instr
      ensures var i := l.instr.Value(); var m2 := Redirected(old(Abs()), i);
        Abs() == m2.(em := m2.em.(store := m2.em.store.(pc := l.pc, instr := i)))
    {
      hide Abs, Redirected, RowOf, SentByName, Manual.OfTable;
      InEx();
      Redirect(l.instr);
      PassToEm(l);
    }

    /** `execute`. */
    method Execute()
      requires Wired() && Linked() && hu.emSt.stop == 0
      requires Live(Abs().de.load) ==> Fits(RowOf(Abs().de.load.instr))
      requires hu.mwSt.store.instr == null || hu.mwSt.store.instr == hu.emSt.load.instr
      modifies hu, hu.wfSt`store, hu.wfSt`stop, hu.fdSt`store, hu.fdSt`stop, hu.deSt, hu.emSt`store
      modifies hu.deSt.load.instr, hu.rf.regs, hu.rf.locker
      ensures hu.deSt.store.instr == null && hu.LoadsSet() && Apart()
      ensures hu.deSt.load.instr == old(hu.deSt.load.instr)
      ensures PassedOn(hu.emSt.store, hu.deSt.load) && (!hu.emSt.store.isStall ==> hu.emSt.store.instr != hu.emSt.load.instr)
      ensures Abs() == ExecuteStage(Cfg(), old(Abs()))
    {
      hide Abs, Tabled, Fits, WriteBackReg, Redirected, Executors.Execute, ExecuteStage, RowOf, Apart;
      var l := hu.deSt.load;
      var stall := l.isStall || l.hazard;
      ExByCases();
      MarkEm(stall);
      if stall || hu.emSt.stop > 0 {
        ReleaseCancelled(l);
        return;
      }
      ExecuteAndPass(l);
    }

    method PassToEm(l: Ref)
      requires Wired()
      modifies hu.emSt`store
      ensures hu.emSt.store == old(hu.emSt.store).(instr := l.instr, pc := l.pc)
      ensures Abs() == old(Abs()).(em := old(Abs()).em.(store := old(Abs()).em.store.(pc := l.pc, instr := At(l.instr))))
    {
      hide Abs, At;
      InEx();
      hu.emSt.store := hu.emSt.store.(instr := l.instr, pc := l.pc);
      EmStored();
    }

    /** The execute stage by the cases its method distinguishes. */
    lemma ExByCases()
      requires Wired() && hu.LoadsSet()
      ensures var m := Abs(); var l := hu.deSt.load; var r := ExecuteStage(Cfg(), m);
        if LiveRef(l) then
          var i := Executors.Execute(l.instr.Value());
          var m1 := m.(em := m.em.(store := m.em.store.(isStall := false)));
          var m2 := Redirected(m1.(de := m1.de.(load := m1.de.load.(instr := i))), i);
          && Abs().de.load == Seen(l) && Live(Seen(l))
          && r == m2.(em := m2.em.(store := m2.em.store.(pc := l.pc, instr := i)))
        else
          var m1 := m.(em := m.em.(store := m.em.store.(isStall := true)));
          r == if l.isStall then m1 else m1.(rf := WriteBackReg(m.rf, l.instr.Value()))
    {
      hide Abs, Fits, WriteBackReg, Executors.Execute, ExecuteStage, Redirected;
      InEx();
      ExecutedByCases(Cfg(), Abs());
    }

    twostate lemma DeStored()
      requires Wired()
      requires unchanged(this, pipeline, memory.bytes, hu, hu.rf.regs, hu.rf.locker, hu.wfSt, hu.fdSt, hu.emSt, hu.mwSt)
      requires hu.deSt.load == old(hu.deSt.load) && hu.deSt.stop == old(hu.deSt.stop)
      requires Kept(hu.deSt.load.instr) && Kept(hu.emSt.store.instr) && Kept(hu.emSt.load.instr)
      requires Kept(hu.mwSt.store.instr) && Kept(hu.mwSt.load.instr)
      ensures Abs() == old(Abs()).(de := old(Abs()).de.(store := Seen(hu.deSt.store)))
    {
      hide RegFile.State, At;
    }

    lemma InId()
      requires Wired()
      ensures Abs().de.store == Seen(hu.deSt.store) && Abs().de.stop == hu.deSt.stop && Abs().fd.load == hu.fdSt.load
      ensures Abs().rf == hu.rf.State()
    {
    }

    /** Ready for decode. */
    ghost predicate CanDecode()
      requires Wired()
      reads this, memory.bytes, pipeline, hu, hu.rf.regs, hu.rf.locker, hu.wfSt, hu.fdSt, hu.deSt, hu.emSt, hu.mwSt
      reads hu.deSt.store.instr, hu.deSt.load.instr, hu.emSt.store.instr, hu.emSt.load.instr
      reads hu.mwSt.store.instr, hu.mwSt.load.instr
      reads decoder.Rings()
    {
      hu.LoadsSet() && RegsNamed(Abs().rf.regs) && decoder.Aged(0) && decoder.Passed()
    }

    method MarkDe(stall: bool)
      requires Wired() && CanDecode()
      modifies hu.deSt`store
      ensures CanDecode() && hu.deSt.store == old(hu.deSt.store).(isStall := stall)
      ensures Abs() == MarkedDe(old(Abs()), stall)
    {
      hide Abs, At, Decoder.Aged, Decoder.Held, HazardUnit.LoadsSet, RegsNamed;
      InId();
      hu.deSt.store := hu.deSt.store.(isStall := stall);
      DeStored();
      decoder.SameAge();
    }

    /** What the decoder sees of the simulator. */
    lemma AtDecoder()
      requires Wired()
      ensures decoder.hu == hu && hu.Valid() && hu.rf.Valid() && decoder.RingsValid() && !Cfg().repaired
      ensures memory.bytes as object != hu.rf.regs && memory.bytes as object != hu.rf.locker
      ensures Abs() == hu.Onto(Rest()) && Abs().rf == hu.rf.State()
    {
    }

    twostate lemma StillRest()
      requires unchanged(this, memory.bytes, pipeline)
      ensures Rest() == old(Rest())
    {
    }

    /** `decoder.decode` and `set_pc`. */
    method DecodeWord(word: Word, pc: Word) returns (ok: bool, p: Instruction, ghost leftover: bool)
      requires Wired() && CanDecode()
      modifies decoder, decoder.RingOf(word), decoder.NextSlot(word), hu, hu.wfSt`stop, hu.fdSt`stop
      modifies hu.emSt`store, hu.rf.locker
      ensures hu.emSt.store == old(hu.emSt.store).(hazard := hu.emSt.store.hazard)
      ensures decoder.Unlatched(p) && (fresh(p) || p == old(decoder.NextSlot(word))) && decoder.Held(p, 1) && decoder.Aged(1)
      ensures DecodesTo(Cfg(), old(Abs()), word, pc, leftover, ok, p.Value(), Abs())
    {
      hide Wired, Abs, Rest, Cfg, HazardUnit.Onto, HazardUnit.Valid, HazardUnit.LoadsSet, RegFile.State,
           RegFile.Valid, RegsNamed,
           Decoder.RingsValid, Decoder.Rings, Decoder.Slots, Decoder.Aged, Decoder.Held, Decoder.Passed,
           Decoder.Unlatched, DecodesTo;
      AtDecoder();
      ghost var cfg, rest := Cfg(), Rest();
      ok, p, leftover := decoder.Decode(word, cfg, rest);
      StillRest();
      AtDecoder();
      PcSet(Cfg(), old(Abs()), word, p.pc, pc, leftover, ok, p.Value(), Abs());
      label Decoded:
      SetPc(p, pc);
      decoder.StillAged@Decoded(p);
    }

    method SetPc(p: Instruction, pc: Word)
      requires Wired() && decoder.Unlatched(p)
      modifies p
      ensures p.Value() == old(p.Value()).(pc := pc) && Abs() == old(Abs())
    {
      hide HazardUnit.Onto, RegFile.State;
      p.pc := pc;
      hu.StillOnto(Rest());
      assert Rest() == old(Rest());
    }

    /** The object in the DE store latch is in no load latch and the newest of its ring. */
    ghost predicate NewInDe()
      requires Wired()
      reads hu.deSt, hu.emSt`load, hu.mwSt`load, decoder.Rings()
    {
      var p := hu.deSt.store.instr;
      p != null ==> p != hu.deSt.load.instr && p != hu.emSt.load.instr && p != hu.mwSt.load.instr && decoder.Held(p, 1)
    }

    /** Decode has left at most a new object in the DE store latch, and none when it was idle. */
    ghost predicate DeReady()
      requires Wired()
      reads hu.deSt, hu.emSt`load, hu.mwSt`load, decoder.Rings()
    {
      && NewInDe() && decoder.Aged(1) && (hu.deSt.stop > 0 ==> decoder.Aged(0))
      && (hu.deSt.store.instr == null <==> hu.deSt.stop > 0 || hu.deSt.store.isStall)
    }

    lemma NoneInDe()
      requires Wired() && CanDecode() && (hu.deSt.stop > 0 || hu.deSt.store.isStall)
      ensures DeReady() && hu.deSt.store.instr == null
    {
      hide Decoder.Aged;
      decoder.MoreAged();
    }

    /** The live half of `decode`. */
    method DecodeAndPass(fd: FD) returns (ok: bool, ghost leftover: bool)
      requires Wired() && CanDecode() && hu.deSt.stop == 0 && !hu.deSt.store.isStall
      modifies hu, hu.wfSt`stop, hu.fdSt`stop, hu.deSt`store, hu.emSt`store, hu.rf.locker
      modifies decoder, decoder.RingOf(fd.word), decoder.NextSlot(fd.word)
      ensures hu.emSt.store == old(hu.emSt.store).(hazard := hu.emSt.store.hazard)
      ensures DeReady() && (fresh(hu.deSt.store.instr) || hu.deSt.store.instr == old(decoder.NextSlot(fd.word)))
      ensures DecodesInto(Cfg(), old(Abs()), fd, leftover, ok, Abs())
    {
      hide Abs, CanDecode, DeReady, DecodesTo, DecodesInto, Decoder.Held, Decoder.Aged, Decoder.Unlatched,
           Decoder.RingsValid, Decoder.NextSlot;
      var p;
      ok, p, leftover := DecodeWord(fd.word, fd.pc);
      WordPlaced(Cfg(), old(Abs()), fd, leftover, ok, p.Value(), Abs());
      PlaceInDe(p, fd.pc);
    }

    method PlaceInDe(p: Instruction, pc: Word)
      requires Wired() && decoder.Unlatched(p) && decoder.Held(p, 1) && decoder.Aged(1)
      requires hu.deSt.stop == 0 && !hu.deSt.store.isStall
      modifies hu.deSt`store
      ensures DeReady() && hu.deSt.store.instr == p
      ensures Abs() == old(Abs()).(de := old(Abs()).de.(store := old(Abs()).de.store.(pc := pc, instr := p.Value())))
    {
      hide Abs, Decoder.Held, Decoder.Aged;
      InId();
      hu.deSt.store := hu.deSt.store.(instr := p, pc := pc);
      DeStored();
      decoder.StillAged(p);
    }

    /** `decode`. */
    method Decode() returns (ok: bool, ghost leftover: bool)
      requires Wired() && CanDecode()
      modifies hu, hu.wfSt`stop, hu.fdSt`stop, hu.deSt`store, hu.emSt`store, hu.rf.locker
      modifies decoder, decoder.RingOf(hu.fdSt.load.word), decoder.NextSlot(hu.fdSt.load.word)
      ensures hu.emSt.store == old(hu.emSt.store).(hazard := hu.emSt.store.hazard)
      ensures DeReady()
      ensures hu.deSt.store.instr != null ==> fresh(hu.deSt.store.instr) || hu.deSt.store.instr == old(decoder.NextSlot(hu.fdSt.load.word))
      ensures Performs(ok, Abs(), DecodeStage(Cfg(), old(Abs()), leftover))
    {
      hide Abs, CanDecode, DeReady, Decoder.RingsValid, Decoder.NextSlot, DecodeStage, DecodesInto, Performs, MarkedDe;
      var fd := hu.fdSt.load;
      var stall := fd.isStall || fd.hazard;
      InId();
      ghost var m := Abs();
      ok, leftover := true, false;
      MarkDe(stall);
      if stall || hu.deSt.stop > 0 {
        NoneInDe();
        NothingDecoded(Cfg(), m, leftover);
      } else {
        ok, leftover := DecodeAndPass(fd);
        WordDecoded(Cfg(), m, leftover, ok, Abs());
      }
    }

    twostate lemma FrontStored()
      requires Wired() && unchanged(this, pipeline, memory.bytes, hu, hu.rf.regs, hu.rf.locker, hu.deSt, hu.emSt, hu.mwSt)
      requires hu.LatchedKept()
      ensures Abs() == old(Abs()).(fd := hu.fdSt.View(), wf := hu.wfSt.View())
    {
      hide RegFile.State, At;
    }

    lemma InIf()
      requires Wired()
      ensures Abs().fd == hu.fdSt.View() && Abs().wf == hu.wfSt.View() && Abs().mem == memory.Content()
    {
    }

    /** `fetch`. */
    method Fetch() returns (ok: bool)
      requires Wired()
      modifies hu.fdSt`store, hu.wfSt`store
      ensures Performs(ok, Abs(), Machines.Fetch(old(Abs())))
    {
      hide Abs, ReadWord, FromMemory, Index, InBounds, Following, Machines.Fetch;
      InIf();
      ghost var m := Abs();
      var l := hu.wfSt.load;
      var stall := l.isStall || l.hazard;
      hu.fdSt.store := hu.fdSt.store.(isStall := stall);
      ok := true;
      if !(stall || hu.fdSt.stop > 0) {
        var pc := if l.isJump then l.pcJump else l.pc;
        ok := FetchWord(pc);
      }
      FrontStored();
      FetchByCases(m, hu.fdSt.View(), hu.wfSt.View(), ok);
    }

    /** The access of `fetch`. */
    method FetchWord(pc: Word) returns (ok: bool)
      requires Wired()
      modifies hu.fdSt`store, hu.wfSt`store
      ensures ok == InBounds(memory.Content(), Index(pc), 4)
      ensures ok ==> hu.fdSt.store == old(hu.fdSt.store).(pc := pc, word := ReadWord(memory.Content(), Index(pc), 4))
      ensures ok ==> hu.wfSt.store == old(hu.wfSt.store).(pc := Following(pc))
    {
      hide ReadWord, FromMemory, Index, InBounds, Following;
      var word;
      ok, word := memory.Read(0, Index(pc), 4);
      FromMemoryIsRead(memory.Content(), Index(pc), 4);
      hu.fdSt.store := hu.fdSt.store.(pc := pc, word := word);
      hu.wfSt.store := hu.wfSt.store.(pc := Following(pc));
    }

    /** At a cycle boundary. */
    ghost predicate Settled()
      requires Wired()
      reads hu.deSt, hu.emSt, hu.mwSt, hu.deSt.load.instr, decoder.Rings()
    {
      Linked() && hu.mwSt.store.instr == null && decoder.Aged(0) && hu.emSt.stop == 0 && hu.mwSt.stop == 0
    }

    /** MEM and WB never stop, and EX only behind a system instruction. */
    ghost predicate StopsKnown()
      reads hu.deSt, hu.emSt`stop, hu.mwSt`stop, hu.deSt.load.instr
    {
      var l := hu.deSt.load;
      hu.emSt.stop == 0 && hu.mwSt.stop == 0 && (hu.deSt.stop > 0 && l.instr != null ==> l.hazard && l.instr.typ == System)
    }

    /** Before the stages are updated. */
    ghost predicate Filled()
      requires Wired()
      reads hu.deSt, hu.emSt, hu.mwSt, hu.deSt.load.instr, decoder.Rings()
    {
      && hu.LoadsSet() && Apart() && NewInDe() && decoder.Aged(1)
      && (hu.deSt.stop > 0 ==> decoder.Held(hu.deSt.load.instr, 1)) && StopsKnown()
      && (hu.emSt.store.instr != null ==> hu.emSt.store.instr != hu.emSt.load.instr)
      && (hu.deSt.store.instr == null <==> hu.deSt.stop > 0 || hu.deSt.store.isStall)
      && PassedOn(hu.emSt.store, hu.deSt.load) && PassedOn(hu.mwSt.store, hu.emSt.load)
    }

    /** Every stage has been updated and nothing else has changed. */
    twostate predicate Updated()
      reads this, pipeline, memory.bytes, hu, hu.rf.regs, hu.rf.locker, hu.wfSt, hu.fdSt, hu.deSt, hu.emSt
      reads hu.mwSt, decoder.Rings()
    {
      && unchanged(this, pipeline, memory.bytes, hu, hu.rf.regs, hu.rf.locker) && decoder.RingsKept()
      && hu.wfSt.View() == Swap(old(hu.wfSt.View()), WF_CLEAR) && hu.fdSt.View() == Swap(old(hu.fdSt.View()), FD_CLEAR)
      && hu.deSt.View() == Swap(old(hu.deSt.View()), REF_CLEAR) && hu.emSt.View() == Swap(old(hu.emSt.View()), REF_CLEAR)
      && hu.mwSt.View() == Swap(old(hu.mwSt.View()), REF_CLEAR)
    }

    twostate predicate LoadedFromStores()
      reads hu.deSt, hu.emSt, hu.mwSt
    {
      && (hu.deSt.load.instr == old(hu.deSt.load.instr) || hu.deSt.load.instr == old(hu.deSt.store.instr))
      && hu.emSt.load.instr == old(hu.emSt.store.instr) && hu.mwSt.load.instr == old(hu.mwSt.store.instr)
    }

    twostate lemma UpdatedAbs()
      requires Wired() && Updated() && hu.LatchedKept()
      ensures Abs() == Machines.UpdateStages(old(Abs()))
    {
      hide RegFile.State, SeenBoth;
      SeenSwapped(hu.deSt);
      SeenSwapped(hu.emSt);
      SeenSwapped(hu.mwSt);
    }

    twostate lemma UpdatedLinks()
      requires Wired() && Updated() && hu.LatchedKept() && old(Filled())
      ensures Settled() && LoadedFromStores()
    {
      hide RegFile.State, At;
      assert hu.deSt.store.instr == null && hu.emSt.store.instr == null && hu.mwSt.store.instr == null;
      assert hu.LoadsSet();
      assert Apart();
      assert decoder.Aged(0);
    }

    /** The five `update` calls. */
    method UpdateStages()
      requires Wired() && Filled()
      modifies hu.wfSt, hu.fdSt, hu.deSt, hu.emSt, hu.mwSt
      ensures Settled() && LoadedFromStores()
      ensures Abs() == Machines.UpdateStages(old(Abs()))
    {
      hide Abs, Filled, Settled, LoadedFromStores, Updated, HazardUnit.LatchedKept;
      UpdateEach();
      UpdatedAbs();
      UpdatedLinks();
    }

    method UpdateEach()
      requires Wired()
      modifies hu.wfSt, hu.fdSt, hu.deSt, hu.emSt, hu.mwSt
      ensures Updated() && hu.LatchedKept()
    {
      hide Decoder.RingsValid;
      hu.wfSt.Update();
      hu.fdSt.Update();
      UpdateLatches();
    }

    method UpdateLatches()
      requires Wired()
      modifies hu.deSt, hu.emSt, hu.mwSt
      ensures hu.deSt.View() == Swap(old(hu.deSt.View()), REF_CLEAR)
      ensures hu.emSt.View() == Swap(old(hu.emSt.View()), REF_CLEAR) && hu.mwSt.View() == Swap(old(hu.mwSt.View()), REF_CLEAR)
    {
      hu.deSt.Update();
      hu.emSt.Update();
      hu.mwSt.Update();
    }

    lemma StopsOfStages()
      requires Wired() && StopsSound(Abs())
      ensures StopsKnown()
    {
    }

    /** WB and MEM. */
    method WbThenMem(garbage: Word) returns (ok: bool)
      requires Wired() && Linked() && hu.mwSt.store.instr == null && hu.mwSt.stop == 0 && Tabled(Abs())
      requires QueueEmpty(Abs())
      modifies `ic, `isStop, `retired, hu.mwSt`store, hu.rf.regs, hu.rf.locker, hu.emSt.load.instr, pipeline, memory.bytes
      ensures Linked() && PassedOn(hu.mwSt.store, hu.emSt.load)
      ensures var r := Machines.MemoryAccess(Cfg(), Machines.WriteBack(Cfg(), old(Abs())));
        ok == r.Ok? && (ok ==> Abs() == r.value && (Live(Abs().de.load) ==> Fits(RowOf(Abs().de.load.instr))))
    {
      hide Abs, Tabled, QueueEmpty, Machines.WriteBack, Machines.MemoryAccess, Fits, RowOf;
      BackEndFacts(Cfg(), Abs());
      WriteBack();
      ok := MemoryAccess(garbage);
    }

    ghost predicate StoresFrom(de: Instruction?, em: Instruction?)
      reads hu.deSt, hu.emSt, hu.mwSt
    {
      && hu.deSt.load.instr == de && (hu.emSt.store.instr == null || hu.emSt.store.instr == de)
      && (hu.mwSt.store.instr == null || hu.mwSt.store.instr == em)
    }

    /** WB, MEM and EX. */
    method BackEnd(garbage: Word) returns (ok: bool)
      requires Wired() && Linked() && hu.mwSt.store.instr == null && hu.emSt.stop == 0 && hu.mwSt.stop == 0
      requires Tabled(Abs()) && QueueEmpty(Abs())
      modifies `ic, `isStop, `retired, hu, hu.wfSt`store, hu.wfSt`stop, hu.fdSt`store, hu.fdSt`stop, hu.deSt
      modifies hu.emSt`store, hu.mwSt`store, hu.rf.regs, hu.rf.locker
      modifies hu.deSt.load.instr, hu.emSt.load.instr, pipeline, memory.bytes
      ensures ok ==> Executed() && hu.deSt.load.instr == old(hu.deSt.load.instr)
      ensures ok ==> StoresFrom(old(hu.deSt.load.instr), old(hu.emSt.load.instr))
      ensures Performs(ok, Abs(), BeforeDecode(Cfg(), old(Abs())))
    {
      hide Abs, Tabled, QueueEmpty, Machines.WriteBack, Machines.MemoryAccess, ExecuteStage, Fits, RowOf, Apart,
           Decoder.RingsValid;
      ok := WbThenMem(garbage);
      if ok { Execute(); }
    }

    /** Nothing but decoding ages a slot. */
    method AgedBackEnd(garbage: Word) returns (ok: bool)
      requires Wired() && Settled() && Sound(Abs())
      modifies `ic, `isStop, `retired, hu, hu.wfSt`store, hu.wfSt`stop, hu.fdSt`store, hu.fdSt`stop, hu.deSt
      modifies hu.emSt`store, hu.mwSt`store, hu.rf.regs, hu.rf.locker
      modifies hu.deSt.load.instr, hu.emSt.load.instr, pipeline, memory.bytes
      ensures ok ==> Executed() && decoder.Aged(0) && StoresFrom(old(hu.deSt.load.instr), old(hu.emSt.load.instr))
      ensures decoder.NextSlot(hu.fdSt.load.word) == old(decoder.NextSlot(hu.fdSt.load.word))
      ensures Performs(ok, Abs(), BeforeDecode(Cfg(), old(Abs())))
    {
      hide Abs, Tabled, QueueEmpty, LocksConserved, BeforeDecode, Executed, Linked, Performs, Decoder.Aged,
           Decoder.NextSlot;
      ok := BackEnd(garbage);
      decoder.SameNext(hu.fdSt.load.word);
      if ok { decoder.SameAge(); }
    }

    /** After EX. */
    ghost predicate Executed()
      requires Wired()
      reads hu.deSt, hu.emSt, hu.mwSt, hu.deSt.load.instr
    {
      && hu.deSt.store.instr == null && hu.LoadsSet() && Apart()
      && PassedOn(hu.emSt.store, hu.deSt.load) && (!hu.emSt.store.isStall ==> hu.emSt.store.instr != hu.emSt.load.instr)
      && PassedOn(hu.mwSt.store, hu.emSt.load)
    }

    /** What decode leaves in the latches is ready for the update. */
    twostate lemma DecodedFills()
      requires Wired() && old(Executed() && StopsKnown())
      requires hu.deSt.load == old(hu.deSt.load) && unchanged(hu.mwSt) && hu.emSt.load == old(hu.emSt.load)
      requires hu.deSt.stop == old(hu.deSt.stop) && hu.emSt.stop == old(hu.emSt.stop)
      requires Abs().de.load == old(Abs()).de.load
      requires hu.emSt.store == old(hu.emSt.store).(hazard := hu.emSt.store.hazard)
      requires DeReady()
      ensures Filled()
    {
      hide Decoder.Held;
    }

    /** ID. */
    method DecodeFilling() returns (ok: bool, ghost leftover: bool)
      requires Wired() && Executed() && StopsKnown() && decoder.Aged(0) && RegsNamed(Abs().rf.regs)
      modifies hu, hu.wfSt`stop, hu.fdSt`stop, hu.deSt`store, hu.emSt`store, hu.rf.locker
      modifies decoder, decoder.RingOf(hu.fdSt.load.word), decoder.NextSlot(hu.fdSt.load.word)
      ensures ok ==> Filled()
      ensures hu.emSt.store == old(hu.emSt.store).(hazard := hu.emSt.store.hazard)
      ensures hu.deSt.store.instr != null ==> fresh(hu.deSt.store.instr) || hu.deSt.store.instr == old(decoder.NextSlot(hu.fdSt.load.word))
      ensures Performs(ok, Abs(), DecodeStage(Cfg(), old(Abs()), leftover))
    {
      hide Abs, DecodeStage, Filled, Decoder.Held, Decoder.Aged, DeReady;
      ok, leftover := Decode();
      if ok {
        DecodeKeepsLoad(Cfg(), old(Abs()), leftover);
        DecodedFills();
      }
    }

    twostate lemma StillFilled()
      requires Wired() && old(Filled()) && unchanged(hu.deSt, hu.emSt, hu.mwSt) && decoder.RingsKept()
      requires old(hu.deSt.load.instr) != null ==> unchanged(old(hu.deSt.load.instr))
      ensures Filled()
    {
    }

    lemma FrontReady()
      requires Wired() && AfterEx(Abs())
      ensures StopsKnown() && RegsNamed(Abs().rf.regs)
    {
      StopsOfStages();
    }

    /** ID and IF. */
    method FrontEnd() returns (ok: bool, ghost leftover: bool)
      requires Wired() && Executed() && decoder.Aged(0) && AfterEx(Abs())
      modifies hu, hu.wfSt`stop, hu.wfSt`store, hu.fdSt`stop, hu.fdSt`store, hu.deSt`store, hu.emSt`store, hu.rf.locker
      modifies decoder, decoder.RingOf(hu.fdSt.load.word), decoder.NextSlot(hu.fdSt.load.word)
      ensures ok ==> Filled()
      ensures hu.emSt.store.instr == old(hu.emSt.store.instr)
      ensures hu.deSt.store.instr != null ==> fresh(hu.deSt.store.instr) || hu.deSt.store.instr == old(decoder.NextSlot(hu.fdSt.load.word))
      ensures Performs(ok, Abs(), Fronted(Cfg(), old(Abs()), leftover))
    {
      hide Abs, DecodeStage, Machines.Fetch, Filled, Executed, AfterEx, Decoder.Aged, Decoder.Held;
      FrontReady();
      ok, leftover := DecodeFilling();
      label Decoded:
      if ok {
        ok := Fetch();
        StillFilled@Decoded();
      }
    }

    ghost predicate Valid()
      reads this, memory.bytes, pipeline, hu, hu.rf.regs, hu.rf.locker, hu.wfSt, hu.fdSt, hu.deSt, hu.emSt, hu.mwSt
      reads hu.deSt.store.instr, hu.deSt.load.instr, hu.emSt.store.instr, hu.emSt.load.instr
      reads hu.mwSt.store.instr, hu.mwSt.load.instr
      reads decoder.Rings()
    {
      Wired() && Settled() && Sound(Abs())
    }

    /** `pipeline.update` and the clock. */
    method Tick() returns (ok: bool)
      requires Wired() && SmallQueue(Abs().sq)
      modifies this`clocks, pipeline, memory.bytes
      ensures Performs(ok, Abs(), Ticked(old(Abs())))
    {
      hide HazardUnit.Onto, RegFile.State, At, Apply, InBounds;
      hu.OntoOther(Rest(), Rest());
      ghost var rest := Rest();
      ok := pipeline.Update();
      clocks := clocks + 1;
      hu.StillOnto(rest);
      hu.OntoOther(rest, Rest());
      hu.OntoOther(rest, rest);
    }

    /** The latches refer to what they referred to, moved on, or to the slot just taken. */
    twostate predicate MovedOn()
      requires Wired()
      reads hu.deSt, hu.emSt, hu.mwSt
    {
      var de, em, mw := hu.deSt.load.instr, hu.emSt.load.instr, hu.mwSt.load.instr;
      && (em == null || em == old(hu.deSt.load.instr)) && (mw == null || mw == old(hu.emSt.load.instr))
      && (de == null || de == old(hu.deSt.load.instr) || fresh(de) || de == old(decoder.NextSlot(hu.fdSt.load.word)))
    }

    twostate lemma StillSettled()
      requires Wired() && old(Settled()) && unchanged(hu.deSt, hu.emSt, hu.mwSt) && decoder.RingsKept()
      requires hu.deSt.load.instr != null ==> unchanged(hu.deSt.load.instr)
      ensures Settled()
    {
    }

    /** The five stages and the five updates of one iteration. */
    method Stages(garbage: Word) returns (ok: bool, ghost leftover: bool)
      requires Wired() && Settled() && Sound(Abs())
      modifies this, hu, hu.wfSt, hu.fdSt, hu.deSt, hu.emSt, hu.mwSt, hu.rf.regs, hu.rf.locker
      modifies hu.deSt.load.instr, hu.emSt.load.instr, pipeline, memory.bytes
      modifies decoder, decoder.RingOf(hu.fdSt.load.word), decoder.NextSlot(hu.fdSt.load.word)
      ensures ok ==> Settled() && MovedOn()
      ensures Performs(ok, Abs(), AllStages(Cfg(), old(Abs()), leftover))
    {
      hide Abs, Sound, BeforeDecode, Fronted, Settled, Executed, Filled, Machines.UpdateStages, AfterEx,
           Decoder.Aged, Decoder.RingsValid, Decoder.NextSlot, Decoder.RingOf;
      ghost var m := Abs();
      leftover := false;
      ok := AgedBackEnd(garbage);
      if ok {
        SoundAfterEx(Cfg(), m);
        ok, leftover := FrontEnd();
        if ok { UpdateStages(); }
      }
    }

    /** One iteration of the loop in `run`. */
    method Clock(garbage: Word) returns (ok: bool, ghost leftover: bool)
      requires Valid()
      modifies this, hu, hu.wfSt, hu.fdSt, hu.deSt, hu.emSt, hu.mwSt, hu.rf.regs, hu.rf.locker
      modifies hu.deSt.load.instr, hu.emSt.load.instr, pipeline, memory.bytes
      modifies decoder, decoder.RingOf(hu.fdSt.load.word), decoder.NextSlot(hu.fdSt.load.word)
      ensures ok ==> Valid() && MovedOn()
      ensures Performs(ok, Abs(), Cycle(Cfg(), old(Abs()), leftover))
    {
      hide Abs, Sound, Cycle, AllStages, Settled, Ticked, SmallQueue, Decoder.NextSlot, Decoder.RingsValid;
      ghost var m := Abs();
      ok, leftover := Stages(garbage);
      CycleInParts(Cfg(), m, leftover);
      if ok {
        label Staged:
        ok := Tick();
        StillSettled@Staged();
        if ok { CycleKeepsSound(Cfg(), m, leftover); }
      }
    }

    /** The loop, for at most `limit` iterations: any program, any state a run can be in. */
    method RunFor(limit: nat) returns (ok: bool, ghost junk: nat -> bool)
      requires Valid()
      modifies this, hu, hu.wfSt, hu.fdSt, hu.deSt, hu.emSt, hu.mwSt, hu.rf.regs, hu.rf.locker
      modifies hu.deSt.load.instr, hu.emSt.load.instr, pipeline, memory.bytes, decoder, decoder.Rings(), decoder.Slots()
      ensures ok == Machines.Run(Cfg(), old(Abs()), junk, limit).Ok?
      ensures ok ==> Valid() && Abs() == Machines.Run(Cfg(), old(Abs()), junk, limit).value
    {
      hide Valid, Abs, Cycle, Machines.Run, With, Decoder.Slots, Decoder.Rings, Decoder.RingsValid,
           Decoder.RingOf, Decoder.NextSlot;
      StopShows();
      ghost var m, de, em := Abs(), hu.deSt.load.instr, hu.emSt.load.instr;
      ok, junk := true, _ => false;
      RunStarts(Cfg(), m, junk);
      var t := 0;
      while t < limit && !isStop
        invariant t <= limit && Valid() && Wired() && decoder.RingsValid() && isStop == Abs().halted
        invariant Machines.Run(Cfg(), m, junk, t) == Ok(Abs())
        invariant Mine(hu.deSt.load.instr, de, em) || fresh(hu.deSt.load.instr)
        invariant Mine(hu.emSt.load.instr, de, em) || fresh(hu.emSt.load.instr)
        decreases limit - t
      {
        ghost var leftover;
        var garbage: Word := *;
        decoder.NextIsOwned(hu.fdSt.load.word);
        ok, leftover := Clock(garbage);
        RunExtends(Cfg(), m, junk, t, leftover);
        junk, t := With(junk, t, leftover), t + 1;
        if !ok { break; }
        StopShows();
      }
      RunEnds(Cfg(), m, junk, t, limit);
    }

    /** `run`, total under the guard: the loop of the source, with no bound of its own, ends in the final
        state of the sequential program after at most three cycles an instruction and two to drain. */
    method Run(ghost s0: SeqState, ghost n: nat)
      requires Valid() && Abs() == Initial(s0) && RegsNamed(s0.regs) && !s0.halted
      requires HaltsAt(s0, n) && Guarded(Cfg(), s0, n)
      modifies this, hu, hu.wfSt, hu.fdSt, hu.deSt, hu.emSt, hu.mwSt, hu.rf.regs, hu.rf.locker
      modifies hu.deSt.load.instr, hu.emSt.load.instr, pipeline, memory.bytes, decoder, decoder.Rings(), decoder.Slots()
      ensures Valid() && EndsRight(Abs(), s0, n)
    {
      hide Valid, Abs, Cycle, Machines.Run, With, Decoder.Slots, Decoder.Rings, Decoder.RingsValid,
           Decoder.RingOf, Decoder.NextSlot, HaltsAt, Initial, Guarded, RegsNamed, EndsRight;
      StopShows();
      ghost var de, em := hu.deSt.load.instr, hu.emSt.load.instr;
      ghost var junk: nat -> bool := _ => false;
      RunStarts(Cfg(), Initial(s0), junk);
      ghost var t := 0;
      while !isStop
        invariant t <= 3 * n + 2 && Valid() && Wired() && decoder.RingsValid() && isStop == Abs().halted
        invariant Machines.Run(Cfg(), Initial(s0), junk, t) == Ok(Abs())
        invariant Mine(hu.deSt.load.instr, de, em) || fresh(hu.deSt.load.instr)
        invariant Mine(hu.emSt.load.instr, de, em) || fresh(hu.emSt.load.instr)
        decreases 3 * n + 2 - t
      {
        GuardedIsYoung(Cfg(), s0, junk, n, t);
        ghost var leftover;
        var ok;
        var garbage: Word := *;
        decoder.NextIsOwned(hu.fdSt.load.word);
        ok, leftover := Clock(garbage);
        RunExtends(Cfg(), Initial(s0), junk, t, leftover);
        junk, t := With(junk, t, leftover), t + 1;
        GuardedRuns(Cfg(), s0, junk, n, t);
        StopShows();
      }
      GuardedEnd(Cfg(), s0, junk, n, t);
    }

    ghost predicate Mine(p: Instruction?, de: Instruction?, em: Instruction?)
    {
      p == null || p == de || p == em || p in decoder.Slots()
    }

    lemma StopShows()
      requires Valid()
      ensures Wired() && decoder.RingsValid() && isStop == Abs().halted
    {
    }
  }

  /** A load that finds the queue empty: the right bytes, and the garbage above them never shows. */
  lemma QueueReads(mem: Mem, i: Instr, garbage: Word)
    requires Fits(RowOf(i)) && i.acc == Read
    ensures SearchResult([], mem, Index(i.addr), i.accSize, garbage).Ok? <==> InBounds(mem, Index(i.addr), i.accSize)
    ensures SearchResult([], mem, Index(i.addr), i.accSize, 0).Ok? <==> InBounds(mem, Index(i.addr), i.accSize)
    ensures InBounds(mem, Index(i.addr), i.accSize) ==>
      && Extended(i.name, i.accSize, SearchResult([], mem, Index(i.addr), i.accSize, garbage).value)
         == Extended(i.name, i.accSize, SearchResult([], mem, Index(i.addr), i.accSize, 0).value)
      && FromMemory(mem, Index(i.addr), i.accSize, 0) == ReadWord(mem, Index(i.addr), i.accSize)
  {
    hide Index, FromMemory, ReadWord, Extended, ComputesRd, IsBranchName;
    if InBounds(mem, Index(i.addr), i.accSize) {
      EmptyQueueReads(mem, Index(i.addr), i.accSize, garbage);
      EmptyQueueReads(mem, Index(i.addr), i.accSize, 0);
      FromMemoryIsRead(mem, Index(i.addr), i.accSize);
      GarbageNeverShows(i.name, i.accSize, mem, Index(i.addr), garbage);
    }
  }
}
