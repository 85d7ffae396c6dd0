/** One cycle of the simulator as a function on values (src/PerfSim.cpp, src/HazardUnit.cpp,
    src/RegFile.cpp, headers/Stage.h). The classes of Simulator.dfy are proved to compute it. */
module Machines {
  import opened Isa
  import opened Decoding
  import opened Executors
  import opened Memories
  import opened StoreQueues

  /** `sqEnabled` is the source's store-queue switch. `repaired` selects the intended interlock and
      release: a load-use hit cancels the dependent copy, once, and a cancelled instruction only
      unlocks its register. The source is `repaired == false`. */
  datatype Config = Config(sqEnabled: bool, repaired: bool)

  // ---- Register file ----

  type RegVector = s: seq<Register> | |s| == 32 witness seq(32, _ => NO_REG)
  type LockVector = s: seq<int> | |s| == 32 witness seq(32, _ => 0)

  datatype RegState = RegState(regs: RegVector, locks: LockVector)

  /** `getReg` with write access: one more lock, except on x0. */
  function Lock(rf: RegState, n: RegNum): RegState {
    if n == 0 then rf else rf.(locks := rf.locks[n := rf.locks[n] - 1])
  }

  function Unlock(rf: RegState, n: RegNum): RegState {
    if n == 0 then rf else rf.(locks := rf.locks[n := rf.locks[n] + 1])
  }

  /** `RegFile::write`: the value and one lock less, x0 ignored. */
  function WriteReg(rf: RegState, r: Register): RegState {
    if r.name == 0 then rf else Unlock(rf.(regs := rf.regs[r.name := r]), r.name)
  }

  /** `HazardUnit::write`, used both to retire and to release. */
  function WriteBackReg(rf: RegState, i: Instr): RegState {
    if WritesRd(i.typ) then WriteReg(rf, i.rd) else rf
  }

  function Release(cfg: Config, rf: RegState, i: Instr): RegState {
    if !cfg.repaired then WriteBackReg(rf, i)
    else if WritesRd(i.typ) then Unlock(rf, i.rd.name) else rf
  }

  // ---- Latches ----

  datatype WF = WF(isStall: bool, hazard: bool, isJump: bool, pc: Word, pcJump: Word)
  datatype FD = FD(isStall: bool, hazard: bool, pc: Word, word: Word)

  /** DE, EM and MW have the same fields. */
  datatype Latch<I> = Latch(isStall: bool, hazard: bool, pc: Word, instr: I)

  const WF_CLEAR := WF(false, false, false, 0, 0)
  const FD_CLEAR := FD(true, false, 0, 0)
  const CLEAR := Latch(true, false, 0, NO_INSTR)

  predicate Live(l: Latch<Instr>) { !l.isStall && !l.hazard }

  predicate LiveFD(l: FD) { !l.isStall && !l.hazard }

  /** A double-buffered stage with its stop count. */
  datatype Buffer<T> = Buffer(store: T, load: T, stop: nat)

  /** `Stage<T>::update`: hold while stopped, else swap and clear. */
  function Swap<T>(b: Buffer<T>, clear: T): Buffer<T> {
    if b.stop > 0 then b.(stop := b.stop - 1) else Buffer(clear, b.store, 0)
  }

  datatype Machine = Machine(
    rf: RegState,
    wf: Buffer<WF>, fd: Buffer<FD>, de: Buffer<Latch<Instr>>, em: Buffer<Latch<Instr>>, mw: Buffer<Latch<Instr>>,
    mem: Mem, sq: QueueState,
    ic: nat, clocks: nat, halted: bool,
    bypassesMemEx: nat, bypassesWbEx: nat, branches: nat, stops: nat,
    retired: seq<Instr>)

  // ---- WB ----

  function WriteBack(cfg: Config, m: Machine): Machine {
    var l := m.mw.load;
    if l.isStall then m
    else if l.hazard then m.(rf := Release(cfg, m.rf, l.instr))
    else m.(rf := WriteBackReg(m.rf, l.instr), ic := m.ic + 1, retired := m.retired + [l.instr],
            halted := m.halted || l.instr.name == ECALL)
  }

  // ---- MEM ----

  /** `signExtend`, whose `size` counts bytes but is used as a number of bits. */
  function SignExtend(num: Word, size: nat, signed: bool): Word {
    if size == 4 then num
    else
      var mask: Word := if size == 1 then 1 else 3;
      var signBit := (num >> (if size == 1 then 0 else 1)) & 1;
      if signed && signBit == 1 then !mask | num else mask & num
  }

  function Extended(name: InstrName, size: nat, data: Word): Word {
    if name == LHU || name == LBU then SignExtend(data, size, false)
    else if name == LH || name == LB || name == LW then SignExtend(data, size, true)
    else data
  }

  function Loaded(i: Instr, data: Word): (r: Instr)
    ensures r == i.(rd := r.rd) && r.rd.name == i.rd.name
  {
    i.(rd := Register(i.rd.name, Extended(i.name, i.accSize, data)))
  }

  function ReadData(cfg: Config, m: Machine, i: Instr): Outcome<Word> {
    if cfg.sqEnabled then SearchResult(m.sq.queue, m.mem, Index(i.addr), i.accSize, 0)
    else if InBounds(m.mem, Index(i.addr), i.accSize) then Ok(ReadWord(m.mem, Index(i.addr), i.accSize))
    else Err(OutOfMemory)
  }

  function StoreData(cfg: Config, m: Machine, i: Instr): Outcome<Machine> {
    if cfg.sqEnabled then Ok(m.(sq := Pushed(m.sq, Index(i.addr), i.accSize, i.rs2.value)))
    else if InBounds(m.mem, Index(i.addr), i.accSize) then
      Ok(m.(mem := WriteWord(m.mem, Index(i.addr), i.accSize, i.rs2.value)))
    else Err(OutOfMemory)
  }

  function PassToMw(m: Machine, i: Instr): Machine {
    m.(em := m.em.(load := m.em.load.(instr := i)),
       mw := m.mw.(store := m.mw.store.(isStall := false, pc := m.em.load.pc, instr := i)))
  }

  function MemoryAccess(cfg: Config, m: Machine): Outcome<Machine> {
    var l := m.em.load;
    if !Live(l) then
      var m1 := m.(mw := m.mw.(store := m.mw.store.(isStall := true)));
      Ok(if l.isStall then m1 else m1.(rf := Release(cfg, m1.rf, l.instr)))
    else if IsStore(l.instr) then
      var m1 :- StoreData(cfg, m, l.instr);
      Ok(PassToMw(m1, l.instr))
    else if IsLoad(l.instr) then
      var data :- ReadData(cfg, m, l.instr);
      Ok(PassToMw(m, Loaded(l.instr, data)))
    else Ok(PassToMw(m, l.instr))
  }

  // ---- EX ----

  /** `HazardUnit::branch`. */
  function Branch(m: Machine, target: Word): Machine {
    m.(wf := m.wf.(store := m.wf.store.(isJump := true, pcJump := target)),
       fd := m.fd.(store := m.fd.store.(hazard := true)),
       de := m.de.(store := m.de.store.(hazard := true)),
       branches := m.branches + 1)
  }

  /** `HazardUnit::exit`. */
  function Exit(m: Machine): Machine {
    m.(wf := m.wf.(stop := m.wf.stop + 5), fd := m.fd.(stop := m.fd.stop + 5),
       de := m.de.(stop := m.de.stop + 5, load := m.de.load.(hazard := true)))
  }

  function ExecuteStage(cfg: Config, m: Machine): Machine {
    var l := m.de.load;
    if !Live(l) then
      var m1 := m.(em := m.em.(store := m.em.store.(isStall := true)));
      if l.isStall then m1 else m1.(rf := Release(cfg, m1.rf, l.instr))
    else
      var i := Execute(l.instr);
      var m1 := m.(de := m.de.(load := m.de.load.(instr := i)),
                   em := m.em.(store := m.em.store.(isStall := false, pc := l.pc, instr := i)));
      var m2 := if Redirects(i) then Branch(m1, i.branchAddr) else m1;
      if i.typ == System then Exit(m2) else m2
  }

  // ---- ID ----

  datatype NeededIn = NeedExecute | NeedMemory

  /** The interlock. As written it cancels the load, in the EM store latch, and holds fetch and decode
      one cycle per operand that hits; repaired, it cancels the copy being decoded and holds once. */
  function Stall(cfg: Config, m: Machine): Machine {
    if !cfg.repaired then
      m.(stops := m.stops + 1, bypassesWbEx := m.bypassesWbEx + 1,
         fd := m.fd.(stop := m.fd.stop + 1), wf := m.wf.(stop := m.wf.stop + 1),
         em := m.em.(store := m.em.store.(hazard := true)))
    else if m.de.store.hazard then m
    else
      m.(stops := m.stops + 1, bypassesWbEx := m.bypassesWbEx + 1,
         fd := m.fd.(stop := m.fd.stop + 1), wf := m.wf.(stop := m.wf.stop + 1),
         de := m.de.(store := m.de.store.(hazard := true)))
  }

  predicate HitsEx(m: Machine, n: RegNum) { Live(m.de.load) && WriterOf(m.de.load.instr, n) }

  predicate HitsMem(m: Machine, n: RegNum) { Live(m.em.load) && WriterOf(m.em.load.instr, n) }

  /** `HazardUnit::decode` for register `n`, already known to be locked. */
  function Bypass(cfg: Config, m: Machine, n: RegNum, need: NeededIn): Outcome<(Machine, Register)> {
    if HitsEx(m, n) then
      if m.de.load.instr.acc == Read then
        if need == NeedExecute then Ok((Stall(cfg, m), m.rf.regs[n])) else Err(LoadHazard)
      else Ok((m.(bypassesMemEx := m.bypassesMemEx + 1), m.de.load.instr.rd))
    else if HitsMem(m, n) then Ok((m.(bypassesWbEx := m.bypassesWbEx + 1), m.em.load.instr.rd))
    else Ok((m, NO_REG))
  }

  function ReadOperand(cfg: Config, m: Machine, n: RegNum, need: NeededIn): Outcome<(Machine, Register)> {
    if m.rf.locks[n] != 0 then Bypass(cfg, m, n, need) else Ok((m, m.rf.regs[n]))
  }

  function NeedOfRs2(w: Word): NeededIn {
    if Recognize(w).typ == S && Recognize(w).acc == Write then NeedMemory else NeedExecute
  }

  function ReadSources(cfg: Config, m: Machine, w: Word): Outcome<(Machine, Register, Register)> {
    var t := Recognize(w).typ;
    var a :- if ReadsRs1(t) then ReadOperand(cfg, m, Rs1(w), NeedExecute) else Ok((m, NO_REG));
    var b :- if ReadsRs2(t) then ReadOperand(cfg, a.0, Rs2(w), NeedOfRs2(w)) else Ok((a.0, NO_REG));
    Ok((b.0, a.1, b.1))
  }

  /** `junk` is the taken flag left in the branch object that decoding recycles. */
  function DecodeStage(cfg: Config, m: Machine, junk: bool): Outcome<Machine> {
    var l := m.fd.load;
    if !LiveFD(l) || m.de.stop > 0 then
      Ok(m.(de := m.de.(store := m.de.store.(isStall := !LiveFD(l)))))
    else
      var s :- ReadSources(cfg, m, l.word);
      var m1 := s.0;
      var instr := MakeInstr(l.word, l.pc, s.1, s.2, m1.rf.regs[Rd(l.word)], junk);
      Ok(m1.(rf := if WritesRd(instr.typ) then Lock(m1.rf, Rd(l.word)) else m1.rf,
             de := m1.de.(store := m1.de.store.(isStall := false, pc := l.pc, instr := instr))))
  }

  // ---- IF ----

  function FetchPc(l: WF): Word { if l.isJump then l.pcJump else l.pc }

  function Fetch(m: Machine): Outcome<Machine> {
    var l := m.wf.load;
    var stall := l.isStall || l.hazard;
    var m1 := m.(fd := m.fd.(store := m.fd.store.(isStall := stall)));
    if stall || m.fd.stop > 0 then Ok(m1)
    else
      var pc := FetchPc(l);
      if !InBounds(m.mem, Index(pc), 4) then Err(OutOfMemory)
      else Ok(m1.(fd := m1.fd.(store := m1.fd.store.(pc := pc, word := ReadWord(m.mem, Index(pc), 4))),
                  wf := m1.wf.(store := m1.wf.store.(pc := Following(pc)))))
  }

  // ---- The cycle ----

  function UpdateStages(m: Machine): Machine {
    m.(wf := Swap(m.wf, WF_CLEAR), fd := Swap(m.fd, FD_CLEAR),
       de := Swap(m.de, CLEAR), em := Swap(m.em, CLEAR), mw := Swap(m.mw, CLEAR))
  }

  function Update(m: Machine): Outcome<Machine> {
    var r :- Advance(m.sq, m.mem);
    Ok(UpdateStages(m).(sq := r.0, mem := r.1, clocks := m.clocks + 1))
  }

  function Cycle(cfg: Config, m: Machine, junk: bool): Outcome<Machine> {
    var m2 :- MemoryAccess(cfg, WriteBack(cfg, m));
    var m4 :- DecodeStage(cfg, ExecuteStage(cfg, m2), junk);
    var m5 :- Fetch(m4);
    Update(m5)
  }

  /** `t` cycles from `m`; the loop stops once ECALL has retired. */
  function Run(cfg: Config, m: Machine, junk: nat -> bool, t: nat): Outcome<Machine> {
    if t == 0 then Ok(m)
    else
      var p :- Run(cfg, m, junk, t - 1);
      if p.halted then Ok(p) else Cycle(cfg, p, junk(t - 1))
  }

  // ---- Reset ----

  /** Register n carries name n, and x0 holds 0. */
  predicate RegsNamed(regs: RegVector) {
    regs[0].value == 0 && forall n: RegNum :: regs[n].name == n
  }

  /** The machine before its first cycle, with memory loaded and fetch at `entry`. */
  function Reset(regs: RegVector, mem: Mem, entry: Word): Machine {
    Machine(RegState(regs, seq(32, _ => 0)),
            Buffer(WF_CLEAR, WF_CLEAR.(pc := entry), 0), Buffer(FD_CLEAR, FD_CLEAR, 0),
            Buffer(CLEAR, CLEAR, 0), Buffer(CLEAR, CLEAR, 0), Buffer(CLEAR, CLEAR, 0),
            mem, QueueState([], NO_STORE, 0), 0, 0, false, 0, 0, 0, 0, [])
  }
}
