/** The decoder as an object (headers/Decoder.h, src/Decoder.cpp): it recognises a word into its own
    fields, reads and locks registers, and fills an instruction object taken from a ring. */
module Decoders {
  import opened Isa
  import opened Decoding
  import opened Memories
  import opened StoreQueues
  import opened Machines
  import opened Instructions
  import opened Hardware

  const RING_SIZE: nat := 5

  lemma RdIgnored(w: Word, pc: Word, a: Register, b: Register, rd: Register, rd': Register, leftover: bool)
    requires WritesRd(Recognize(w).typ) ==> rd == rd'
    ensures MakeInstr(w, pc, a, b, rd, leftover) == MakeInstr(w, pc, a, b, rd', leftover)
  {
    hide Recognize, Immediate;
  }

  function RdLocked(m: Machine, w: Word): Machine {
    m.(rf := if WritesRd(Recognize(w).typ) then Lock(m.rf, Rd(w)) else m.rf)
  }

  /** Decoding `word` at `pc` on `m`: it fails where an operand does, and else makes `i` and leaves `a`. */
  ghost predicate DecodesTo(cfg: Config, m: Machine, word: Word, pc: Word, leftover: bool, ok: bool, i: Instr, a: Machine) {
    var s := ReadSources(cfg, m, word);
    ok == s.Ok? && (ok ==>
      && i == MakeInstr(word, pc, s.value.1, s.value.2, s.value.0.rf.regs[Rd(word)], leftover)
      && a == RdLocked(s.value.0, word))
  }

  class Decoder {
    const hu: HazardUnit
    const iRing: CyclicArray
    const bRing: CyclicArray
    const rRing: CyclicArray
    const sRing: CyclicArray
    const uRing: CyclicArray
    const jRing: CyclicArray
    const sysRing: CyclicArray
    var name: InstrName
    var typ: InstrType
    var memAcc: AccessType
    var accSize: nat
    var isBranch: bool
    var instr: Word

    constructor (hu: HazardUnit)
      ensures this.hu == hu && RingsValid()
      ensures forall t: InstrType | t != Untyped :: fresh(Ring(t)) && forall p :: p in Ring(t).cont ==> fresh(p)
    {
      this.hu := hu;
      iRing := new CyclicArray(I, RING_SIZE);
      bRing := new CyclicArray(B, RING_SIZE);
      rRing := new CyclicArray(R, RING_SIZE);
      sRing := new CyclicArray(S, RING_SIZE);
      uRing := new CyclicArray(U, RING_SIZE);
      jRing := new CyclicArray(J, RING_SIZE);
      sysRing := new CyclicArray(System, RING_SIZE);
      name, typ, memAcc, accSize, isBranch, instr := Unnamed, Untyped, NoAccess, 0, false, 0;
    }

    /** The ring of an instruction type. */
    function Ring(t: InstrType): CyclicArray
      requires t != Untyped
    {
      match t
      case I => iRing
      case B => bRing
      case R => rRing
      case S => sRing
      case U => uRing
      case J => jRing
      case System => sysRing
    }

    ghost predicate RingsValid() {
      forall t: InstrType | t != Untyped :: Ring(t).Valid() && Ring(t).kind == t && Ring(t).size == RING_SIZE
    }

    ghost function Rings(): set<CyclicArray> { {iRing, bRing, rRing, sRing, uRing, jRing, sysRing} }

    /** Every object of every ring. */
    ghost function Slots(): set<Instruction> {
      set p: Instruction | p in iRing.cont + bRing.cont + rRing.cont + sRing.cont + uRing.cont + jRing.cont + sysRing.cont
    }

    ghost function RingFor(t: InstrType): CyclicArray? { if t == Untyped then null else Ring(t) }

    /** The object that the ring of `t` hands out next. */
    ghost function NextFor(t: InstrType): Instruction?
      requires RingsValid()
      reads RingFor(t)
    {
      if t == Untyped then null else Ring(t).cont[Ring(t).index % RING_SIZE]
    }

    ghost function RingOf(word: Word): CyclicArray? { RingFor(Decoding.Recognize(word).typ) }

    ghost function NextSlot(word: Word): Instruction?
      requires RingsValid()
      reads RingOf(word)
    {
      NextFor(Decoding.Recognize(word).typ)
    }

    lemma NextIsOwned(word: Word)
      requires RingsValid()
      ensures RingOf(word) != null ==> RingOf(word) in Rings()
      ensures NextSlot(word) != null ==> NextSlot(word) in Slots()
    {
      hide Decoding.Recognize;
    }

    /** `p` is no ring object, or one of the last `age` its ring handed out. */
    ghost predicate Held(p: Instruction?, age: nat)
      requires RingsValid()
      reads Rings()
    {
      p != null && p.kind != Untyped ==> Ring(p.kind).Recent(p, age)
    }

    /** The latched instructions are at most 1, 2 and 3 hand-outs old, plus `a`. */
    ghost predicate Aged(a: nat)
      requires RingsValid()
      reads Rings(), hu.deSt`load, hu.emSt`load, hu.mwSt`load
    {
      Held(hu.deSt.load.instr, 1 + a) && Held(hu.emSt.load.instr, 2 + a) && Held(hu.mwSt.load.instr, 3 + a)
    }

    /** What the store latches refer to comes from the load latches before them. */
    ghost predicate Passed()
      reads hu.deSt, hu.emSt, hu.mwSt
    {
      && hu.deSt.store.instr == null
      && (hu.emSt.store.instr == null || hu.emSt.store.instr == hu.deSt.load.instr)
      && (hu.mwSt.store.instr == null || hu.mwSt.store.instr == hu.emSt.load.instr)
    }

    ghost predicate Unlatched(p: Instruction)
      reads hu.deSt, hu.emSt, hu.mwSt
    {
      && p != hu.deSt.load.instr && p != hu.emSt.load.instr && p != hu.mwSt.load.instr
      && p != hu.deSt.store.instr && p != hu.emSt.store.instr && p != hu.mwSt.store.instr
    }

    lemma HeldIsNotNext(q: Instruction?, age: nat, t: InstrType)
      requires RingsValid() && Held(q, age) && age < RING_SIZE && t != Untyped
      ensures q != Ring(t).cont[Ring(t).index % RING_SIZE]
    {
      if q != null && q.kind == t { Ring(t).SlotIsNotRecent(q, age); }
    }

    /** No ring has handed out more than one slot. */
    twostate predicate OneTaken()
      reads Rings()
    {
      forall t: InstrType | t != Untyped :: old(Ring(t).index) <= Ring(t).index <= old(Ring(t).index) + 1
    }

    lemma HeldAges(q: Instruction?, age: nat, n: nat)
      requires RingsValid()
      requires q != null && q.kind != Untyped ==>
        Ring(q.kind).RecentAt(q, age, n) && n <= Ring(q.kind).index <= n + 1
      ensures Held(q, age + 1)
    {
      if q != null && q.kind != Untyped { Ring(q.kind).Ages(q, age, n, Ring(q.kind).index); }
    }

    twostate lemma AllAge()
      requires RingsValid() && old(Aged(0)) && OneTaken()
      requires hu.deSt.load == old(hu.deSt.load) && hu.emSt.load == old(hu.emSt.load) && hu.mwSt.load == old(hu.mwSt.load)
      ensures Aged(1)
    {
      HeldAges(hu.deSt.load.instr, 1, old(ReachedFor(hu.deSt.load.instr)));
      HeldAges(hu.emSt.load.instr, 2, old(ReachedFor(hu.emSt.load.instr)));
      HeldAges(hu.mwSt.load.instr, 3, old(ReachedFor(hu.mwSt.load.instr)));
    }

    /** The hand-out number the ring of `q` has reached. */
    ghost function ReachedFor(q: Instruction?): nat
      reads Rings()
    {
      if q == null || q.kind == Untyped then 0 else Ring(q.kind).index
    }

    lemma MoreHeld(q: Instruction?, age: nat)
      requires RingsValid() && Held(q, age)
      ensures Held(q, age + 1)
    {
      if q != null && q.kind != Untyped { Ring(q.kind).Ages(q, age, Ring(q.kind).index, Ring(q.kind).index); }
    }

    lemma MoreAged()
      requires RingsValid() && Aged(0)
      ensures Aged(1)
    {
      hide Held;
      MoreHeld(hu.deSt.load.instr, 1);
      MoreHeld(hu.emSt.load.instr, 2);
      MoreHeld(hu.mwSt.load.instr, 3);
    }

    /** The switch over `get_next`: the object handed out stands in no latch. A word of no known type
        gets an object of its own. */
    method Allocate(t: InstrType) returns (p: Instruction)
      requires RingsValid() && Aged(0) && Passed()
      modifies RingFor(t)
      ensures p.kind == t && Unlatched(p) && (fresh(p) || p == old(NextFor(t)))
      ensures Held(p, 1) && Aged(1)
    {
      if t == Untyped {
        p := new Instruction(Untyped);
      } else {
        HeldIsNotNext(hu.deSt.load.instr, 1, t);
        HeldIsNotNext(hu.emSt.load.instr, 2, t);
        HeldIsNotNext(hu.mwSt.load.instr, 3, t);
        Ring(t).NewestIsRecent(Ring(t).index);
        p := Ring(t).GetNext();
      }
      AllAge();
    }

    /** The registers of one case of the switch; what the subclass lacks holds its default. */
    method FillOperands(p: Instruction, rs1: Register, rs2: Register, rd: Register)
      modifies p
      ensures p.Value() == old(p.Value()).(taken := typ == B && old(p.taken),
        rs1 := if ReadsRs1(typ) then rs1 else NO_REG, rs2 := if ReadsRs2(typ) then rs2 else NO_REG,
        rd := if WritesRd(typ) then rd else NO_REG)
    {
      hide ReadsRs1, ReadsRs2, WritesRd;
      var a := if ReadsRs1(typ) then rs1 else NO_REG;
      var b := if ReadsRs2(typ) then rs2 else NO_REG;
      var d := if WritesRd(typ) then rd else NO_REG;
      var taken := typ == B && p.taken;
      p.rs1, p.rs2, p.rd, p.taken := a, b, d, taken;
    }

    /** The object taken, as `decode` leaves it. Only the taken flag of a branch object survives from its
        previous use. */
    method Fill(p: Instruction, word: Word, rs1: Register, rs2: Register, rd: Register)
      requires p.kind == typ && Ident(name, typ, memAcc, accSize, isBranch) == Decoding.Recognize(word)
      modifies p
      ensures p.Value() == MakeInstr(word, old(p.pc), rs1, rs2, rd, old(p.taken))
    {
      hide Decoding.Recognize, Immediate, ReadsRs1, ReadsRs2, WritesRd;
      FillOperands(p, rs1, rs2, rd);
      p.name, p.typ, p.isBranch, p.acc, p.accSize, p.branchAddr, p.addr := name, typ, isBranch, memAcc, accSize, 0, 0;
      p.CalcImm(word);
    }

    /** A source register: from the hazard unit when it is locked, else from the register file. */
    method ReadOperand(n: RegNum, need: NeededIn, ghost cfg: Config, ghost m: Machine) returns (ok: bool, r: Register)
      requires hu.Valid() && hu.LoadsSet() && !cfg.repaired && RegsNamed(hu.rf.State().regs)
      modifies hu, hu.wfSt`stop, hu.fdSt`stop, hu.emSt`store, hu.rf.locker
      ensures hu.emSt.store == old(hu.emSt.store).(hazard := hu.emSt.store.hazard)
      ensures var o := Machines.ReadOperand(cfg, old(hu.Onto(m)), n, need);
        ok == o.Ok? && (ok ==> r == o.value.1 && hu.Onto(m) == o.value.0)
    {
      hide Bypass, At;
      r := hu.rf.GetReg(n, false);
      ok := true;
      if hu.rf.IsLock(n) {
        ok, r := hu.Decode(r, need, cfg, m);
      }
    }

    /** rs1, then rs2. */
    method ReadPair(word: Word, ghost cfg: Config, ghost m: Machine) returns (ok: bool, rs1: Register, rs2: Register)
      requires hu.Valid() && hu.LoadsSet() && !cfg.repaired && RegsNamed(hu.rf.State().regs)
      requires typ == Decoding.Recognize(word).typ && memAcc == Decoding.Recognize(word).acc
      modifies hu, hu.wfSt`stop, hu.fdSt`stop, hu.emSt`store, hu.rf.locker
      ensures hu.emSt.store == old(hu.emSt.store).(hazard := hu.emSt.store.hazard)
      ensures var s := ReadSources(cfg, old(hu.Onto(m)), word);
        ok == s.Ok? && (ok ==> hu.Onto(m) == s.value.0 && rs1 == s.value.1 && rs2 == s.value.2)
    {
      hide At, Decoding.Recognize, Machines.ReadOperand, Rs1, Rs2;
      ok, rs1, rs2 := true, NO_REG, NO_REG;
      if ReadsRs1(typ) { ok, rs1 := ReadOperand(Rs1(word), NeedExecute, cfg, m); }
      if ok && ReadsRs2(typ) {
        ok, rs2 := ReadOperand(Rs2(word), if typ == S && memAcc == Write then NeedMemory else NeedExecute, cfg, m);
      }
    }

    /** The operands of the recognised instruction, and rd, which is locked. */
    method ReadOperands(word: Word, ghost cfg: Config, ghost m: Machine)
      returns (ok: bool, rs1: Register, rs2: Register, rd: Register)
      requires hu.Valid() && hu.LoadsSet() && !cfg.repaired && RegsNamed(hu.rf.State().regs)
      requires typ == Decoding.Recognize(word).typ && memAcc == Decoding.Recognize(word).acc
      modifies hu, hu.wfSt`stop, hu.fdSt`stop, hu.emSt`store, hu.rf.locker
      ensures hu.emSt.store == old(hu.emSt.store).(hazard := hu.emSt.store.hazard)
      ensures var s := ReadSources(cfg, old(hu.Onto(m)), word);
        ok == s.Ok? && (ok ==>
          && rs1 == s.value.1 && rs2 == s.value.2 && hu.Onto(m) == RdLocked(s.value.0, word)
          && (WritesRd(typ) ==> rd == s.value.0.rf.regs[Rd(word)]))
    {
      hide Decoding.Recognize, ReadSources, Rd, HazardUnit.Onto, RegFile.State;
      rd := NO_REG;
      ok, rs1, rs2 := ReadPair(word, cfg, m);
      label Read:
      if ok && WritesRd(typ) { rd := hu.rf.GetReg(Rd(word), true); }
      hu.StillOnto@Read(m);
    }

    /** Recognition and the object to fill. */
    method Start(word: Word) returns (p: Instruction)
      requires RingsValid() && Aged(0) && Passed()
      modifies this, RingOf(word)
      ensures Ident(name, typ, memAcc, accSize, isBranch) == Decoding.Recognize(word) && p.kind == typ
      ensures Unlatched(p) && (fresh(p) || p == old(NextSlot(word))) && Held(p, 1) && Aged(1)
    {
      hide Decoding.Recognize, Opcode, Funct3, Funct7, Slots, Rings;
      instr := word;
      name, typ, memAcc, accSize, isBranch := Unnamed, Untyped, NoAccess, 0, false;
      Recognize(Opcode(word), Funct3(word), Funct7(word));
      p := Allocate(typ);
    }

    twostate predicate RingsKept()
      reads Rings()
    {
      unchanged(iRing, bRing, rRing, sRing, uRing, jRing, sysRing)
    }

    twostate lemma SameNext(word: Word)
      requires RingsValid() && RingsKept()
      ensures NextSlot(word) == old(NextSlot(word))
    {
      hide Decoding.Recognize;
    }

    twostate lemma SameAge()
      requires RingsValid() && RingsKept() && old(Aged(0))
      requires hu.deSt.load.instr == old(hu.deSt.load.instr) && hu.emSt.load == old(hu.emSt.load)
      requires hu.mwSt.load == old(hu.mwSt.load)
      ensures Aged(0)
    {
    }

    twostate lemma StillAged(p: Instruction)
      requires RingsValid() && RingsKept() && old(Held(p, 1)) && old(Aged(1))
      requires hu.deSt.load == old(hu.deSt.load) && hu.emSt.load == old(hu.emSt.load) && hu.mwSt.load == old(hu.mwSt.load)
      ensures Held(p, 1) && Aged(1)
    {
    }

    /** The rest of `decode`, for the object taken. */
    method Complete(p: Instruction, word: Word, ghost cfg: Config, ghost m: Machine) returns (ok: bool)
      requires hu.Valid() && hu.LoadsSet() && !cfg.repaired && RegsNamed(hu.rf.State().regs) && Unlatched(p)
      requires Ident(name, typ, memAcc, accSize, isBranch) == Decoding.Recognize(word) && p.kind == typ
      modifies p, hu, hu.wfSt`stop, hu.fdSt`stop, hu.emSt`store, hu.rf.locker
      ensures hu.emSt.store == old(hu.emSt.store).(hazard := hu.emSt.store.hazard)
      ensures DecodesTo(cfg, old(hu.Onto(m)), word, p.pc, old(p.taken), ok, p.Value(), hu.Onto(m))
    {
      hide Decoding.Recognize, ReadSources, Rd, MakeInstr, RdLocked, HazardUnit.Onto, RegFile.State;
      var rs1, rs2, rd;
      ok, rs1, rs2, rd := ReadOperands(word, cfg, m);
      label Read:
      if ok {
        ghost var s := ReadSources(cfg, old(hu.Onto(m)), word).value;
        RdIgnored(word, p.pc, rs1, rs2, rd, s.0.rf.regs[Rd(word)], p.taken);
        Fill(p, word, rs1, rs2, rd);
        hu.StillOnto@Read(m);
      }
    }

    /** `decode`. What it does to the machine is `ReadSources` and the lock on rd; the object it returns
        stands in no latch, so no instruction in flight changes. */
    method Decode(word: Word, ghost cfg: Config, ghost m: Machine) returns (ok: bool, p: Instruction, ghost leftover: bool)
      requires hu.Valid() && hu.LoadsSet() && !cfg.repaired && RegsNamed(hu.rf.State().regs)
      requires RingsValid() && Aged(0) && Passed()
      modifies this, RingOf(word), NextSlot(word), hu, hu.wfSt`stop, hu.fdSt`stop, hu.emSt`store, hu.rf.locker
      ensures hu.emSt.store == old(hu.emSt.store).(hazard := hu.emSt.store.hazard)
      ensures Unlatched(p) && (fresh(p) || p == old(NextSlot(word))) && Held(p, 1) && Aged(1)
      ensures DecodesTo(cfg, old(hu.Onto(m)), word, p.pc, leftover, ok, p.Value(), hu.Onto(m))
    {
      hide DecodesTo, HazardUnit.Onto, RegFile.State, Held, Aged, RingsValid, Slots;
      p := Start(word);
      leftover := p.taken;
      hu.StillOnto(m);
      label Started:
      ok := Complete(p, word, cfg, m);
      StillAged@Started(p);
    }

    /** `recognize`: the opcode table. */
    method Recognize(opcode: Word, funct3: Word, funct7: Word)
      requires opcode == Opcode(instr) && funct3 == Funct3(instr) && funct7 == Funct7(instr)
      requires Ident(name, typ, memAcc, accSize, isBranch) == Plain(Unnamed, Untyped)
      modifies `name, `typ, `memAcc, `accSize, `isBranch
      ensures Ident(name, typ, memAcc, accSize, isBranch) == Decoding.Recognize(instr)
    {
      hide Opcode, Funct3, Funct7;
      if opcode == 0x37 {
        name, typ := LUI, U;
      } else if opcode == 0x17 {
        name, typ := AUIPC, U;
      } else if opcode == 0x6f {
        isBranch := true;
        name, typ := JAL, J;
      } else if opcode == 0x67 {
        isBranch := true;
        name, typ := JALR, I;
      } else if opcode == 0x63 {
        typ := B;
        isBranch := true;
        name := if funct3 == 0 then BEQ else if funct3 == 1 then BNE
                else if funct3 == 4 then BLT else if funct3 == 5 then BGE
                else if funct3 == 6 then BLTU else if funct3 == 7 then BGEU
                else name;
      } else if opcode == 0x03 {
        RecognizeLoad(funct3);
      } else if opcode == 0x23 {
        RecognizeStore(funct3);
      } else if opcode == 0x13 {
        RecognizeImmediateOp(funct3, funct7);
      } else if opcode == 0x33 {
        RecognizeRegisterOp(funct3, funct7);
      } else if opcode == 0x73 {
        typ := System;
        if instr == 0x73 { name := ECALL; }
      }
    }

    method RecognizeLoad(funct3: Word)
      requires Ident(name, typ, memAcc, accSize, isBranch) == Plain(Unnamed, Untyped)
      modifies `name, `typ, `memAcc, `accSize
      ensures Ident(name, typ, memAcc, accSize, isBranch) == LoadIdent(funct3)
    {
      typ := I;
      if funct3 == 0 {
        name, memAcc, accSize := LB, Read, 1;
      } else if funct3 == 1 {
        name, memAcc, accSize := LH, Read, 2;
      } else if funct3 == 2 {
        name, memAcc, accSize := LW, Read, 4;
      } else if funct3 == 4 {
        name, memAcc, accSize := LBU, Read, 1;
      } else if funct3 == 5 {
        name, memAcc, accSize := LHU, Read, 2;
      }
    }

    method RecognizeStore(funct3: Word)
      requires Ident(name, typ, memAcc, accSize, isBranch) == Plain(Unnamed, Untyped)
      modifies `name, `typ, `memAcc, `accSize
      ensures Ident(name, typ, memAcc, accSize, isBranch) == StoreIdent(funct3)
    {
      typ := S;
      if funct3 == 0 {
        name, memAcc, accSize := SB, Write, 1;
      } else if funct3 == 1 {
        name, memAcc, accSize := SH, Write, 2;
      } else if funct3 == 2 {
        name, memAcc, accSize := SW, Write, 4;
      }
    }

    method RecognizeImmediateOp(funct3: Word, funct7: Word)
      requires Ident(name, typ, memAcc, accSize, isBranch) == Plain(Unnamed, Untyped)
      modifies `name, `typ
      ensures Ident(name, typ, memAcc, accSize, isBranch) == ImmediateOpIdent(funct3, funct7)
    {
      if funct3 == 1 {
        typ, name := I, SLLI;
      } else if funct3 == 5 {
        if funct7 == 0 {
          typ, name := I, SRLI;
        } else if funct7 == 0x20 {
          typ, name := I, SRAI;
        }
      } else if funct3 == 0 {
        typ, name := I, ADDI;
      } else if funct3 == 2 {
        typ, name := I, SLTI;
      } else if funct3 == 3 {
        typ, name := I, SLTIU;
      } else if funct3 == 4 {
        typ, name := I, XORI;
      } else if funct3 == 6 {
        typ, name := I, ORI;
      } else if funct3 == 7 {
        typ, name := I, ANDI;
      }
    }

    method RecognizeRegisterOp(funct3: Word, funct7: Word)
      requires Ident(name, typ, memAcc, accSize, isBranch) == Plain(Unnamed, Untyped)
      modifies `name, `typ
      ensures Ident(name, typ, memAcc, accSize, isBranch) == Plain(RegisterOpName(funct3, funct7), R)
    {
      typ := R;
      if funct3 == 0 {
        if funct7 == 0 { name := ADD; } else if funct7 == 0x20 { name := SUB; }
      } else if funct3 == 5 {
        if funct7 == 0 { name := SRL; } else if funct7 == 0x20 { name := SRA; }
      } else if funct7 == 0 {
        name := if funct3 == 1 then SLL else if funct3 == 2 then SLT else if funct3 == 3 then SLTU
                else if funct3 == 4 then XOR else if funct3 == 6 then OR else if funct3 == 7 then AND else name;
      }
    }
  }
}
