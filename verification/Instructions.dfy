/** Instruction objects and the ring that recycles them (headers/Instruction.h, src/Instruction.cpp,
    src/Executors.cpp, headers/Decoder.h). The objects are shared: latches hold references to them. */
module Instructions {
  import opened Isa
  import opened Decoding
  import opened Executors
  import Encoding
  import Manual

  lemma NamesApart(n: InstrName)
    ensures IsBranchName(n) ==> !ComputesRd(n) && n != JAL && n != JALR
    ensures n == JAL || n == JALR ==> ComputesRd(n)
  {
  }

  /** `kind` is the C++ subclass; the members of all subclasses are fields of one class. */
  class Instruction {
    const kind: InstrType
    var name: InstrName
    var typ: InstrType
    var acc: AccessType
    var accSize: nat
    var isBranch: bool
    var pc: Word
    var imm: Word
    var rs1: Register
    var rs2: Register
    var rd: Register
    var branchAddr: Word
    var taken: bool
    var addr: Word

    constructor (kind: InstrType)
      ensures this.kind == kind && Value() == NO_INSTR
    {
      this.kind := kind;
      name, typ, acc, accSize, isBranch := Unnamed, Untyped, NoAccess, 0, false;
      pc, imm, rs1, rs2, rd := 0, 0, NO_REG, NO_REG, NO_REG;
      branchAddr, taken, addr := 0, false, 0;
    }

    function Value(): Instr
      reads this
    {
      Instr(name, typ, acc, accSize, isBranch, pc, imm, rs1, rs2, rd, branchAddr, taken, addr)
    }

    /** The five `calc_imm` overrides, assembled from locals as the source does. For a word an assembler made, the
        immediate is the one it was given. */
    method CalcImm(instr: Word)
      modifies this`imm
      ensures imm == Immediate(kind, instr)
      ensures forall a: Encoding.Asm | Encoding.Legal(a) && Encoding.Encode(a) == instr && Encoding.IdentOf(a.name).typ == kind ::
        Encoding.Carries(a, imm)
    {
      hide Encoding.Legal, Encoding.Encode, Encoding.IdentOf, Encoding.Carries;
      Encoding.AssembledImmediates(kind, instr);
      match kind
      case I =>
        var s1: Word := 0;
        if (instr >> 31) & 1 == 1 { s1 := 0x1fffff << 11; }
        var s2 := ((instr >> 25) & 0x3f) << 5;
        var s3 := ((instr >> 21) & 0xf) << 1;
        var s4 := (instr >> 20) & 1;
        imm := s1 + s2 + s3 + s4;
      case S =>
        var s1: Word := 0;
        if (instr >> 31) & 1 == 1 { s1 := 0x1fffff << 11; }
        var s2 := ((instr >> 25) & 0x3f) << 5;
        var s3 := ((instr >> 8) & 0xf) << 1;
        var s4 := (instr >> 7) & 1;
        imm := s1 + s2 + s3 + s4;
      case B =>
        var s1: Word := 0;
        if (instr >> 31) & 1 == 1 { s1 := 0xfffff << 12; }
        var s2 := ((instr >> 25) & 0x3f) << 5;
        var s3 := ((instr >> 8) & 0xf) << 1;
        var s4 := ((instr >> 7) & 1) << 11;
        imm := s1 + s2 + s3 + s4;
      case U =>
        imm := instr & 0xfffff000;
      case J =>
        var s1: Word := 0;
        if (instr >> 31) & 1 == 1 { s1 := 0xfff << 20; }
        var s2 := instr & (0xff << 12);
        var s3 := ((instr >> 20) & 1) << 11;
        var s4 := ((instr >> 25) & 0x3f) << 5;
        var s5 := ((instr >> 21) & 0xf) << 1;
        imm := s1 + s2 + s3 + s4 + s5;
      case _ =>
        imm := 0;
    }

    /** The executor the decoder attached to this name: a jump, a branch, an access or an operation on rd.
        A name without an executor does nothing. */
    method Execute()
      requires acc != NoAccess ==> !IsBranchName(name) && !ComputesRd(name)
      modifies this
      ensures Value() == Executors.Execute(old(Value())) && Manual.Executed(old(Value()), Value())
    {
      hide Alu, Compare, JumpTarget, Displaced, Manual.Executed;
      NamesApart(name);
      Manual.ExecutesRight(Value());
      hide ComputesRd, IsBranchName;
      var a, b := rs1.value, rs2.value;
      if name == JAL || name == JALR {
        rd := Register(rd.name, Alu(name, a, b, imm, pc));
        branchAddr := JumpTarget(name, imm, pc, a);
      } else if IsBranchName(name) {
        taken := Compare(name, a, b);
        branchAddr := JumpTarget(name, imm, pc, a);
      } else if acc != NoAccess {
        addr := Displaced(a, imm);
      } else if ComputesRd(name) {
        rd := Register(rd.name, Alu(name, a, b, imm, pc));
      }
    }
  }

  /** `CyclicArray`: `size` objects handed out in turn. */
  class CyclicArray {
    const kind: InstrType
    const size: nat
    const cont: seq<Instruction>
    var index: nat

    ghost predicate Valid() {
      && size > 0 && |cont| == size
      && (forall i, j | 0 <= i < j < size :: cont[i] != cont[j])
      && (forall i | 0 <= i < size :: cont[i].kind == kind)
    }

    constructor (kind: InstrType, size: nat)
      requires size > 0
      ensures Valid() && this.kind == kind && this.size == size && index == 0
      ensures forall p :: p in cont ==> fresh(p)
    {
      var objects: seq<Instruction> := [];
      for k := 0 to size
        invariant |objects| == k
        invariant forall i | 0 <= i < k :: fresh(objects[i]) && objects[i].kind == kind
        invariant forall i, j | 0 <= i < j < k :: objects[i] != objects[j]
      {
        var p := new Instruction(kind);
        objects := objects + [p];
      }
      this.kind, this.size, cont, index := kind, size, objects, 0;
    }

    /** `p` is one of the last `age` slots handed out before hand-out number `n`. */
    ghost predicate RecentAt(p: Instruction, age: nat, n: nat)
      requires Valid()
    {
      exists s: nat :: s < n <= s + age && p == cont[s % size]
    }

    ghost predicate Recent(p: Instruction, age: nat)
      requires Valid()
      reads this
    {
      RecentAt(p, age, index)
    }

    /** `get_next`: the slot is none of the last size - 1 handed out. */
    method GetNext() returns (slot: Instruction)
      requires Valid()
      modifies this
      ensures slot == cont[old(index) % size] && index == old(index) + 1
    {
      slot := cont[index % size];
      index := index + 1;
    }

    lemma SlotIsNotRecent(p: Instruction, age: nat)
      requires Valid() && Recent(p, age) && age < size
      ensures p != cont[index % size]
    {
      var s: nat :| s < index <= s + age && p == cont[s % size];
      DistinctResidues(s, index, size);
    }

    /** One hand-out ages a slot by at most one. */
    lemma Ages(p: Instruction, age: nat, n: nat, n': nat)
      requires Valid() && RecentAt(p, age, n) && n <= n' <= n + 1
      ensures RecentAt(p, age + 1, n')
    {
      var s: nat :| s < n <= s + age && p == cont[s % size];
      assert s < n' <= s + (age + 1);
    }

    lemma NewestIsRecent(n: nat)
      requires Valid()
      ensures RecentAt(cont[n % size], 1, n + 1)
    {
    }
  }

  lemma DistinctResidues(a: nat, b: nat, m: nat)
    requires m > 0 && a < b < a + m
    ensures a % m != b % m
  {
    var q := b / m - a / m;
    assert b - a == m * q + (b % m - a % m);
    if q >= 1 { assert m * q >= m; } else { assert m * q <= 0; }
  }
}
