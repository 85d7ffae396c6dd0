/** The register file, the stages and the hazard unit as objects (src/RegFile.cpp, headers/Stage.h,
    src/HazardUnit.cpp). The latches hold references; `Onto` shows what a machine looks like through them. */
module Hardware {
  import opened Isa
  import opened Memories
  import opened StoreQueues
  import opened Machines
  import opened Instructions

  function ZeroRegs(): RegVector { seq(32, n requires 0 <= n < 32 => Register(n, 0)) }

  class RegFile {
    const regs: array<Register>
    const locker: array<int>

    ghost predicate Valid() { regs.Length == 32 && locker.Length == 32 }

    constructor ()
      ensures Valid() && fresh(regs) && fresh(locker)
      ensures State() == RegState(ZeroRegs(), seq(32, _ => 0))
    {
      regs := new Register[32](i requires 0 <= i < 32 => Register(i, 0));
      locker := new int[32](_ => 0);
    }

    function State(): RegState
      requires Valid()
      reads regs, locker
    {
      RegState(regs[..], locker[..])
    }

    function IsLock(n: RegNum): (r: bool)
      requires Valid()
      reads regs, locker
      ensures r == (State().locks[n] != 0)
    {
      locker[n] != 0
    }

    /** `getReg`, which locks the register for a writer. */
    method GetReg(n: RegNum, write: bool) returns (r: Register)
      requires Valid()
      modifies locker
      ensures r == old(State()).regs[n]
      ensures State() == if write then Lock(old(State()), n) else old(State())
    {
      if write && n != 0 { locker[n] := locker[n] - 1; }
      r := regs[n];
      assert locker[..] == if write && n != 0 then old(locker[..])[n := old(locker[n]) - 1] else old(locker[..]);
    }

    /** `write`: value in, lock released, x0 ignored. */
    method Write(r: Register)
      requires Valid()
      modifies regs, locker
      ensures State() == WriteReg(old(State()), r)
    {
      if r.name == 0 { return; }
      regs[r.name] := r;
      locker[r.name] := locker[r.name] + 1;
      assert regs[..] == old(regs[..])[r.name := r];
      assert locker[..] == old(locker[..])[r.name := old(locker[r.name]) + 1];
    }
  }

  /** `Stage<T>`: two buffers and a stop count. */
  class Stage<T> {
    const clear: T
    var store: T
    var load: T
    var stop: nat

    constructor (clear: T)
      ensures this.clear == clear && View() == Buffer(clear, clear, 0)
    {
      this.clear, store, load, stop := clear, clear, clear, 0;
    }

    function View(): Buffer<T>
      reads this
    {
      Buffer(store, load, stop)
    }

    method Extend(count: nat)
      modifies `stop
      ensures View() == old(View()).(stop := old(stop) + count)
    {
      stop := stop + count;
    }

    method Update()
      modifies this
      ensures View() == Swap(old(View()), clear)
    {
      if stop > 0 {
        stop := stop - 1;
        return;
      }
      var temp := store;
      store := clear;
      load := temp;
    }
  }

  type Ref = Latch<Instruction?>

  const REF_CLEAR: Ref := Latch(true, false, 0, null)

  function At(p: Instruction?): Instr
    reads p
  {
    if p == null then NO_INSTR else p.Value()
  }

  function Seen(l: Ref): Latch<Instr>
    reads l.instr
  {
    Latch(l.isStall, l.hazard, l.pc, At(l.instr))
  }

  function SeenBoth(b: Buffer<Ref>): Buffer<Latch<Instr>>
    reads b.store.instr, b.load.instr
  {
    Buffer(Seen(b.store), Seen(b.load), b.stop)
  }

  lemma SeenCancelled(b: Buffer<Ref>)
    ensures SeenBoth(b.(store := b.store.(hazard := true))) == SeenBoth(b).(store := Seen(b.store).(hazard := true))
    ensures SeenBoth(b.(load := b.load.(hazard := true))) == SeenBoth(b).(load := Seen(b.load).(hazard := true))
  {
  }

  twostate predicate Kept(new p: Instruction?)
    reads p
  {
    p != null ==> old(allocated(p)) && unchanged(p)
  }

  /** A latch pair shows the same instructions while the objects it refers to are unchanged. */
  twostate lemma StillSeen(b: Buffer<Ref>)
    requires Kept(b.store.instr) && Kept(b.load.instr)
    ensures SeenBoth(b) == old(SeenBoth(b))
  {
  }

  twostate lemma SeenSwapped(st: Stage<Ref>)
    requires st.View() == Swap(old(st.View()), REF_CLEAR) && Kept(st.store.instr) && Kept(st.load.instr)
    ensures SeenBoth(st.View()) == Swap(old(SeenBoth(st.View())), CLEAR)
  {
    assert Seen(REF_CLEAR) == CLEAR;
    hide At;
  }

  /** A store latch filled from the load latch before it, or left empty. */
  ghost predicate PassedOn(store: Ref, load: Ref) {
    if store.isStall then store.instr == null else store.instr == load.instr && load.instr != null
  }

  predicate LiveRef(l: Ref) { !l.isStall && !l.hazard }

  /** Bypassing register `n` on `m`: an exception where the specification has one, else the value `r` and the machine `a`. */
  ghost predicate Bypasses(cfg: Config, m: Machine, n: RegNum, need: NeededIn, ok: bool, r: Register, a: Machine) {
    var b := Bypass(cfg, m, n, need);
    ok == b.Ok? && (ok ==> r == b.value.1 && a == b.value.0)
  }

  class HazardUnit {
    const rf: RegFile
    const wfSt: Stage<WF>
    const fdSt: Stage<FD>
    const deSt: Stage<Ref>
    const emSt: Stage<Ref>
    const mwSt: Stage<Ref>
    var bypassesMemEx: nat
    var bypassesWbEx: nat
    var branches: nat
    var stops: nat

    ghost predicate Valid() {
      && rf.Valid() && deSt != emSt && deSt != mwSt && emSt != mwSt
      && wfSt.clear == WF_CLEAR && fdSt.clear == FD_CLEAR
      && deSt.clear == REF_CLEAR && emSt.clear == REF_CLEAR && mwSt.clear == REF_CLEAR
    }

    constructor (rf: RegFile, wfSt: Stage<WF>, fdSt: Stage<FD>, deSt: Stage<Ref>, emSt: Stage<Ref>, mwSt: Stage<Ref>)
      ensures this.rf == rf && this.wfSt == wfSt && this.fdSt == fdSt
      ensures this.deSt == deSt && this.emSt == emSt && this.mwSt == mwSt
      ensures bypassesMemEx == bypassesWbEx == branches == stops == 0
    {
      this.rf, this.wfSt, this.fdSt, this.deSt, this.emSt, this.mwSt := rf, wfSt, fdSt, deSt, emSt, mwSt;
      bypassesMemEx, bypassesWbEx, branches, stops := 0, 0, 0, 0;
    }

    /** `m` with its registers, latches and hazard counters replaced by those held here. */
    ghost function Onto(m: Machine): Machine
      requires rf.Valid()
      reads this, rf.regs, rf.locker, wfSt, fdSt, deSt, emSt, mwSt
      reads deSt.store.instr, deSt.load.instr, emSt.store.instr, emSt.load.instr, mwSt.store.instr, mwSt.load.instr
    {
      m.(rf := rf.State(), wf := wfSt.View(), fd := fdSt.View(),
         de := SeenBoth(deSt.View()), em := SeenBoth(emSt.View()), mw := SeenBoth(mwSt.View()),
         bypassesMemEx := bypassesMemEx, bypassesWbEx := bypassesWbEx, branches := branches, stops := stops)
    }

    /** The six references the latches hold. */
    twostate predicate LatchedKept()
      reads deSt, emSt, mwSt, deSt.store.instr, deSt.load.instr, emSt.store.instr, emSt.load.instr
      reads mwSt.store.instr, mwSt.load.instr
    {
      && Kept(deSt.store.instr) && Kept(deSt.load.instr) && Kept(emSt.store.instr)
      && Kept(emSt.load.instr) && Kept(mwSt.store.instr) && Kept(mwSt.load.instr)
    }

    /** Of changes elsewhere in the heap, only those of the register file show. */
    twostate lemma StillOnto(m: Machine)
      requires rf.Valid() && unchanged(this, wfSt, fdSt, deSt, emSt, mwSt) && LatchedKept()
      ensures Onto(m) == old(Onto(m)).(rf := rf.State()) && old(Onto(m)).rf == old(rf.State())
      ensures unchanged(rf.regs, rf.locker) ==> Onto(m) == old(Onto(m))
    {
      hide At;
    }

    /** A stage shows the same as long as neither it nor what it refers to changes. */
    twostate lemma StagesStill(m: Machine)
      requires rf.Valid()
      ensures unchanged(rf.regs, rf.locker) ==> Onto(m).rf == old(Onto(m)).rf
      ensures unchanged(wfSt) ==> Onto(m).wf == old(Onto(m)).wf
      ensures unchanged(fdSt) ==> Onto(m).fd == old(Onto(m)).fd
      ensures unchanged(deSt) && Kept(deSt.store.instr) && Kept(deSt.load.instr) ==> Onto(m).de == old(Onto(m)).de
      ensures unchanged(emSt) && Kept(emSt.store.instr) && Kept(emSt.load.instr) ==> Onto(m).em == old(Onto(m)).em
      ensures unchanged(mwSt) && Kept(mwSt.store.instr) && Kept(mwSt.load.instr) ==> Onto(m).mw == old(Onto(m)).mw
      ensures unchanged(this) ==> Onto(m).stops == old(Onto(m)).stops && Onto(m).branches == old(Onto(m)).branches
      ensures unchanged(this) ==> Onto(m).bypassesMemEx == old(Onto(m)).bypassesMemEx && Onto(m).bypassesWbEx == old(Onto(m)).bypassesWbEx
    {
      hide At;
    }

    /** What is shown of this part does not depend on the rest. */
    lemma OntoOther(m: Machine, m': Machine)
      requires rf.Valid()
      ensures var o := Onto(m);
        Onto(m') == m'.(rf := o.rf, wf := o.wf, fd := o.fd, de := o.de, em := o.em, mw := o.mw,
                        bypassesMemEx := o.bypassesMemEx, bypassesWbEx := o.bypassesWbEx, branches := o.branches, stops := o.stops)
      ensures var o := Onto(m);
        && o.rf == rf.State() && o.wf == wfSt.View() && o.fd == fdSt.View()
        && o.de == SeenBoth(deSt.View()) && o.em == SeenBoth(emSt.View()) && o.mw == SeenBoth(mwSt.View())
    {
    }

    /** A latch that is not empty refers to an object. */
    ghost predicate LoadsSet()
      reads deSt`load, emSt`load, mwSt`load
    {
      && (!deSt.load.isStall ==> deSt.load.instr != null)
      && (!emSt.load.isStall ==> emSt.load.instr != null)
      && (!mwSt.load.isStall ==> mwSt.load.instr != null)
    }

    /** The load-use branch of `decode`. */
    method Interlock(ghost cfg: Config, ghost m: Machine)
      requires Valid() && !cfg.repaired
      modifies this, wfSt`stop, fdSt`stop, emSt`store
      ensures emSt.store == old(emSt.store).(hazard := emSt.store.hazard)
      ensures Onto(m) == Stall(cfg, old(Onto(m)))
    {
      hide Seen, RegFile.State;
      SeenCancelled(emSt.View());
      assert SeenBoth(emSt.View()).store == Seen(emSt.store);
      hide SeenBoth;
      stops := stops + 1;
      bypassesWbEx := bypassesWbEx + 1;
      fdSt.Extend(1);
      wfSt.Extend(1);
      emSt.store := emSt.store.(hazard := true);
      StillSeen(deSt.View());
      StillSeen(emSt.View());
      StillSeen(mwSt.View());
    }

    /** What `decode` looks at. */
    lemma InHazard(m: Machine, n: RegNum)
      requires Valid() && LoadsSet()
      ensures var o := Onto(m); var de, em := deSt.load, emSt.load;
        && (HitsEx(o, n) <==> LiveRef(de) && WritesRd(de.instr.typ) && de.instr.rd.name == n)
        && (HitsMem(o, n) <==> LiveRef(em) && WritesRd(em.instr.typ) && em.instr.rd.name == n)
        && (LiveRef(de) ==> o.de.load.instr == de.instr.Value()) && (LiveRef(em) ==> o.em.load.instr == em.instr.Value())
        && o.rf.regs == rf.State().regs && o.bypassesMemEx == bypassesMemEx && o.bypassesWbEx == bypassesWbEx
        && o.branches == branches && o.stops == stops
    {
    }

    /** Counting a bypass changes the counters alone. */
    twostate lemma CountersShow(m: Machine)
      requires Valid() && unchanged(rf.regs, rf.locker, wfSt, fdSt, deSt, emSt, mwSt) && LatchedKept()
      ensures Onto(m) == old(Onto(m)).(bypassesMemEx := bypassesMemEx, bypassesWbEx := bypassesWbEx, branches := branches, stops := stops)
    {
      hide At;
    }

    /** `decode`: the bypass and the interlock, for the locked register `rs`. */
    method Decode(rs: Register, need: NeededIn, ghost cfg: Config, ghost m: Machine) returns (ok: bool, r: Register)
      requires Valid() && LoadsSet() && !cfg.repaired && rs == rf.State().regs[rs.name]
      modifies this, wfSt`stop, fdSt`stop, emSt`store
      ensures emSt.store == old(emSt.store).(hazard := emSt.store.hazard)
      ensures Bypasses(cfg, old(Onto(m)), rs.name, need, ok, r, Onto(m))
    {
      hide Onto, RegFile.State, Stall, HitsEx, HitsMem;
      InHazard(m, rs.name);
      r := rs;
      var de, em := deSt.load, emSt.load;
      if LiveRef(de) && WritesRd(de.instr.typ) && de.instr.rd.name == rs.name {
        if de.instr.acc == Read {
          if need == NeedMemory { return false, r; }
          Interlock(cfg, m);
          return true, rs;
        }
        bypassesMemEx := bypassesMemEx + 1;
        CountersShow(m);
        return true, de.instr.rd;
      }
      if LiveRef(em) && WritesRd(em.instr.typ) && em.instr.rd.name == rs.name {
        bypassesWbEx := bypassesWbEx + 1;
        CountersShow(m);
        return true, em.instr.rd;
      }
      return true, NO_REG;
    }

    /** `branch`: redirect fetch and cancel what stands in the FD and DE store latches. */
    method Branch(instruction: Instruction, ghost m: Machine)
      requires Valid()
      modifies this, wfSt`store, fdSt`store, deSt`store
      ensures deSt.store.instr == old(deSt.store.instr)
      ensures Onto(m) == Machines.Branch(old(Onto(m)), instruction.branchAddr)
    {
      hide At;
      wfSt.store := wfSt.store.(isJump := true, pcJump := instruction.branchAddr);
      fdSt.store := fdSt.store.(hazard := true);
      deSt.store := deSt.store.(hazard := true);
      branches := branches + 1;
    }

    /** `exit`: hold the front end for ECALL. */
    method Exit(ghost m: Machine)
      requires Valid()
      modifies wfSt`stop, fdSt`stop, deSt`stop, deSt`load
      ensures deSt.store == old(deSt.store) && deSt.load == old(deSt.load).(hazard := true)
      ensures Onto(m) == Machines.Exit(old(Onto(m)))
    {
      hide At;
      wfSt.Extend(5);
      fdSt.Extend(5);
      deSt.Extend(5);
      deSt.load := deSt.load.(hazard := true);
    }

    /** `write`: put rd into the register file and release its lock. */
    method Write(instruction: Instruction, ghost m: Machine)
      requires Valid()
      modifies rf.regs, rf.locker
      ensures Onto(m) == old(Onto(m)).(rf := WriteBackReg(old(Onto(m)).rf, old(instruction.Value())))
    {
      if WritesRd(instruction.typ) { rf.Write(instruction.rd); }
    }
  }
}
