/** What one instruction does, in integers and by the manual (sections 2.4 to 2.6 of the RISC-V Unprivileged ISA,
    20191213), and the proof that the decoder and the executors do it (src/Decoder.cpp, src/Executors.cpp). Where
    the code departs from the manual the statement follows the code and says so. */
module Manual {
  import opened Isa
  import opened Decoding
  import opened Executors
  import opened Encoding
  import opened Numbers

  // ---- Register arithmetic ----

  predicate SetsRd(n: InstrName) { HasRd(FormatOf(n)) }

  /** The instructions whose executor sets rd: all but the loads, which MEM completes. */
  predicate Arithmetic(n: InstrName) { SetsRd(n) && IdentOf(n).acc == NoAccess }

  function Truth(b: bool): nat { if b then 1 else 0 }

  /** `r` is what `n` leaves in rd for operands `x` and `y`. XORI and ANDI are exchanged, as in the source, and a
      register shift by 32 or more, undefined there, is left open. */
  ghost predicate Computes(n: InstrName, x: nat, y: nat, imm: nat, pc: nat, r: nat) {
    match n
    case LUI => r == imm
    case AUIPC => r == (pc + imm) % MODULUS
    case JAL | JALR => r == (pc + 4) % MODULUS
    case ADDI => r == (x + imm) % MODULUS
    case ADD => r == (x + y) % MODULUS
    case SUB => r == (x - y) % MODULUS
    case SLTI => r == Truth(Signed(x) < Signed(imm))
    case SLT => r == Truth(Signed(x) < Signed(y))
    case SLTIU => r == Truth(x < imm)
    case SLTU => r == Truth(x < y)
    case SLLI => r == (x * Pow2(imm % 32)) % MODULUS
    case SLL => y < 32 ==> r == (x * Pow2(y)) % MODULUS
    case SRLI => r == x / Pow2(imm % 32)
    case SRL => y < 32 ==> r == x / Pow2(y)
    case SRAI => r == (Signed(x) / Pow2(imm % 32)) % MODULUS
    case SRA => y < 32 ==> r == (Signed(x) / Pow2(y)) % MODULUS
    case ORI => forall k: nat :: HasBit(r, k) <==> HasBit(x, k) || HasBit(imm, k)
    case OR => forall k: nat :: HasBit(r, k) <==> HasBit(x, k) || HasBit(y, k)
    case XORI => forall k: nat :: HasBit(r, k) <==> HasBit(x, k) && HasBit(imm, k)
    case AND => forall k: nat :: HasBit(r, k) <==> HasBit(x, k) && HasBit(y, k)
    case ANDI => forall k: nat :: HasBit(r, k) <==> HasBit(x, k) != HasBit(imm, k)
    case XOR => forall k: nat :: HasBit(r, k) <==> HasBit(x, k) != HasBit(y, k)
    case _ => true
  }

  lemma SumsRight(n: InstrName, a: Word, b: Word, imm: Word, pc: Word)
    requires n in {ADDI, ADD, SUB}
    ensures Computes(n, Unsigned(a), Unsigned(b), Unsigned(imm), Unsigned(pc), Unsigned(Alu(n, a, b, imm, pc)))
  {
    hide Unsigned, HasBit, Pow2;
    Sum(a, imm);
    Sum(a, b);
    Difference(a, b);
  }

  lemma AddressesRight(n: InstrName, a: Word, b: Word, imm: Word, pc: Word)
    requires n in {LUI, AUIPC, JAL, JALR}
    ensures Computes(n, Unsigned(a), Unsigned(b), Unsigned(imm), Unsigned(pc), Unsigned(Alu(n, a, b, imm, pc)))
  {
    hide Unsigned, HasBit, Pow2, Following;
    Sum(imm, pc);
    NextWord(pc);
  }

  lemma NextWord(pc: Word)
    ensures Unsigned(Following(pc)) == (Unsigned(pc) + 4) % MODULUS
  {
    hide Unsigned;
    Sum(pc, 4);
    FourIs();
  }

  lemma FourIs()
    ensures Unsigned(4) == 4
  {
  }

  lemma FlagIs(b: bool)
    ensures Unsigned(Flag(b)) == Truth(b)
  {
    Zero();
  }

  lemma ComparisonsRight(n: InstrName, a: Word, b: Word, imm: Word, pc: Word)
    requires n in {SLTI, SLT, SLTIU, SLTU}
    ensures Computes(n, Unsigned(a), Unsigned(b), Unsigned(imm), Unsigned(pc), Unsigned(Alu(n, a, b, imm, pc)))
  {
    hide Unsigned, Flag, SignedLess, Signed, HasBit, Pow2;
    SignedOrder(a, imm);
    SignedOrder(a, b);
    Order(a, imm);
    Order(a, b);
    FlagIs(SignedLess(a, imm));
    FlagIs(SignedLess(a, b));
    FlagIs(a < imm);
    FlagIs(a < b);
  }

  lemma CountIs(n: Word)
    ensures n < 32 <==> Unsigned(n) < 32
  {
    hide Unsigned;
    ThirtyTwoIs();
    Order(n, 32);
  }

  lemma ThirtyTwoIs()
    ensures Unsigned(32) == 32
  {
  }

  /** The arithmetic shift divides the signed value, rounding down. */
  lemma ShiftedSigned(a: Word, n: Word)
    requires n < 32
    ensures Unsigned(ShiftRightSigned(a, n)) == (Signed(Unsigned(a)) / Pow2(Unsigned(n))) % MODULUS
  {
    hide Unsigned, ShiftRight, Pow2;
    var x, p := Unsigned(a), Pow2(Unsigned(n));
    Range(a);
    TopFlipped(a);
    if a < 0x8000_0000 {
      ShiftedRight(a, n);
      AtMostWhole(x, p);
    } else {
      Complement(a);
      ShiftedRight(!a, n);
      Complement(ShiftRight(!a, n));
      AtMostWhole(MODULUS - 1 - x, p);
      FloorOfComplement(MODULUS - 1 - x, p);
    }
  }

  lemma AtMostWhole(x: nat, p: nat)
    requires p > 0
    ensures 0 <= x / p <= x
  {
    assert x == p * (x / p) + x % p;
    Grows(x / p, 1, p);
  }

  lemma FloorOfComplement(y: nat, p: nat)
    requires p > 0
    ensures (-1 - y) / p == -1 - y / p
  {
    var q, r := y / p, y % p;
    assert y == p * q + r;
    assert p * (-1 - q) == 0 - p - p * q;
    FloorIs(-1 - y, p, -1 - q, p - 1 - r);
  }

  lemma FloorIs(x: int, p: nat, q: int, r: nat)
    requires p > 0 && x == p * q + r && r < p
    ensures x / p == q
  {
    var q', r' := x / p, x % p;
    assert x == p * q' + r';
    assert p * (q' + 1) == p * q' + p && p * (q + 1) == p * q + p;
    if q' < q { Grows(p, q' + 1, q); } else if q < q' { Grows(p, q + 1, q'); }
  }

  lemma ShiftsRight(n: InstrName, a: Word, b: Word, imm: Word, pc: Word)
    requires n in {SLLI, SLL, SRLI, SRL, SRAI, SRA}
    ensures Computes(n, Unsigned(a), Unsigned(b), Unsigned(imm), Unsigned(pc), Unsigned(Alu(n, a, b, imm, pc)))
  {
    hide Unsigned, ShiftLeft, ShiftRight, ShiftRightSigned, Signed, HasBit, Pow2;
    MaskFive(imm);
    ShiftsBy(a, imm & 31);
    ShiftsBy(a, b);
  }

  lemma ShiftsBy(a: Word, n: Word)
    ensures Unsigned(n) < 32 ==>
      var x, p := Unsigned(a), Pow2(Unsigned(n));
      && Unsigned(ShiftLeft(a, n)) == (x * p) % MODULUS && Unsigned(ShiftRight(a, n)) == x / p
      && Unsigned(ShiftRightSigned(a, n)) == (Signed(x) / p) % MODULUS
  {
    hide Unsigned, ShiftLeft, ShiftRight, ShiftRightSigned, Signed, Pow2;
    CountIs(n);
    if n < 32 {
      ShiftedLeft(a, n);
      ShiftedRight(a, n);
      ShiftedSigned(a, n);
    }
  }

  lemma BitsRight(n: InstrName, a: Word, b: Word, imm: Word, pc: Word)
    requires n in {ORI, OR, XORI, AND, ANDI, XOR}
    ensures Computes(n, Unsigned(a), Unsigned(b), Unsigned(imm), Unsigned(pc), Unsigned(Alu(n, a, b, imm, pc)))
  {
    hide Unsigned, HasBit, Alu, AndOf, OrOf, XorOf, Pow2, Signed;
    AluBits(a, b, imm, pc);
    forall k: nat
      ensures HasBit(Unsigned(AndOf(a, b)), k) <==> HasBit(Unsigned(a), k) && HasBit(Unsigned(b), k)
      ensures HasBit(Unsigned(AndOf(a, imm)), k) <==> HasBit(Unsigned(a), k) && HasBit(Unsigned(imm), k)
      ensures HasBit(Unsigned(OrOf(a, b)), k) <==> HasBit(Unsigned(a), k) || HasBit(Unsigned(b), k)
      ensures HasBit(Unsigned(OrOf(a, imm)), k) <==> HasBit(Unsigned(a), k) || HasBit(Unsigned(imm), k)
      ensures HasBit(Unsigned(XorOf(a, b)), k) <==> HasBit(Unsigned(a), k) != HasBit(Unsigned(b), k)
      ensures HasBit(Unsigned(XorOf(a, imm)), k) <==> HasBit(Unsigned(a), k) != HasBit(Unsigned(imm), k)
    {
      And(a, b, k);
      And(a, imm, k);
      Or(a, b, k);
      Or(a, imm, k);
      Xor(a, b, k);
      Xor(a, imm, k);
    }
  }

  lemma AluBits(a: Word, b: Word, imm: Word, pc: Word)
    ensures Alu(AND, a, b, imm, pc) == AndOf(a, b) && Alu(XORI, a, b, imm, pc) == AndOf(a, imm)
    ensures Alu(OR, a, b, imm, pc) == OrOf(a, b) && Alu(ORI, a, b, imm, pc) == OrOf(a, imm)
    ensures Alu(XOR, a, b, imm, pc) == XorOf(a, b) && Alu(ANDI, a, b, imm, pc) == XorOf(a, imm)
  {
    hide Alu, AndOf, OrOf, XorOf;
    AluAnd(a, b, imm, pc);
    AluOr(a, b, imm, pc);
    AluXor(a, b, imm, pc);
  }

  lemma AluAnd(a: Word, b: Word, imm: Word, pc: Word)
    ensures Alu(AND, a, b, imm, pc) == AndOf(a, b) && Alu(XORI, a, b, imm, pc) == AndOf(a, imm)
  {
  }

  lemma AluOr(a: Word, b: Word, imm: Word, pc: Word)
    ensures Alu(OR, a, b, imm, pc) == OrOf(a, b) && Alu(ORI, a, b, imm, pc) == OrOf(a, imm)
  {
  }

  lemma AluXor(a: Word, b: Word, imm: Word, pc: Word)
    ensures Alu(XOR, a, b, imm, pc) == XorOf(a, b) && Alu(ANDI, a, b, imm, pc) == XorOf(a, imm)
  {
  }

  lemma AluRight(n: InstrName, a: Word, b: Word, imm: Word, pc: Word)
    requires Arithmetic(n)
    ensures Computes(n, Unsigned(a), Unsigned(b), Unsigned(imm), Unsigned(pc), Unsigned(Alu(n, a, b, imm, pc)))
  {
    hide Computes, Alu, Unsigned;
    if n in {ADDI, ADD, SUB} {
      SumsRight(n, a, b, imm, pc);
    } else if n in {LUI, AUIPC, JAL, JALR} {
      AddressesRight(n, a, b, imm, pc);
    } else if n in {SLTI, SLT, SLTIU, SLTU} {
      ComparisonsRight(n, a, b, imm, pc);
    } else if n in {SLLI, SLL, SRLI, SRL, SRAI, SRA} {
      ShiftsRight(n, a, b, imm, pc);
    } else {
      BitsRight(n, a, b, imm, pc);
    }
  }

  // ---- Branches, targets and addresses ----

  predicate Branches(n: InstrName) { FormatOf(n) == FormatB }

  /** The branch is taken. */
  predicate Decides(n: InstrName, x: nat, y: nat) {
    match n
    case BEQ => x == y
    case BNE => x != y
    case BLT => Signed(x) < Signed(y)
    case BGE => Signed(x) >= Signed(y)
    case BLTU => x < y
    case BGEU => x >= y
    case _ => false
  }

  lemma CompareRight(n: InstrName, a: Word, b: Word)
    ensures Compare(n, a, b) <==> Decides(n, Unsigned(a), Unsigned(b))
  {
    hide Unsigned, Signed, SignedLess;
    SignedOrder(a, b);
    Order(a, b);
    Order(b, a);
    if Unsigned(a) == Unsigned(b) { Injective(a, b); }
  }

  /** `i` carries the row of the opcode table that its name has. */
  predicate OfTable(i: Instr) {
    i.name != Unnamed && IdentOf(i.name) == Ident(i.name, i.typ, i.acc, i.accSize, i.isBranch)
  }

  /** The instruction jumps: JAL, JALR, or a branch whose comparison holds. */
  predicate Jumps(i: Instr) {
    i.name == JAL || i.name == JALR || (Branches(i.name) && Decides(i.name, Unsigned(i.rs1.value), Unsigned(i.rs2.value)))
  }

  /** An executed instruction sends fetch elsewhere by its name and its outcome. */
  lemma RedirectsByName(i: Instr)
    requires OfTable(i)
    ensures Redirects(i) <==> i.name == JAL || i.name == JALR || (Branches(i.name) && i.taken)
  {
  }

  lemma JumpsRedirect(i: Instr)
    requires OfTable(i)
    ensures Redirects(Execute(i)) <==> Jumps(i)
  {
    hide Execute, Decides, Unsigned, Computes, Destination, IdentOf, Redirects, FormatOf;
    ExecutesRight(i);
    RedirectsByName(Execute(i));
  }

  /** Where a jump goes, JALR with the low bit of the sum kept, as in the source. */
  function Destination(n: InstrName, x: nat, imm: nat, pc: nat): nat {
    if n == JALR then (x + imm) % MODULUS else (pc + imm) % MODULUS
  }

  lemma DestinationRight(n: InstrName, imm: Word, pc: Word, a: Word)
    ensures Unsigned(JumpTarget(n, imm, pc, a)) == Destination(n, Unsigned(a), Unsigned(imm), Unsigned(pc))
  {
    hide Unsigned;
    Sum(imm, a);
    Sum(imm, pc);
  }

  lemma DisplacedRight(base: Word, offset: Word)
    ensures Unsigned(Displaced(base, offset)) == (Unsigned(base) + Unsigned(offset)) % MODULUS
  {
    hide Unsigned;
    Sum(offset, base);
  }

  /** The EX stage of one instruction, by its name: the value for rd, the branch's decision, the target and the
      address, over integers. `e` is `i` executed. */
  ghost predicate Executed(i: Instr, e: Instr) {
    var x, y, imm, pc := Unsigned(i.rs1.value), Unsigned(i.rs2.value), Unsigned(i.imm), Unsigned(i.pc);
    && (Arithmetic(i.name) ==> Computes(i.name, x, y, imm, pc, Unsigned(e.rd.value)))
    && (Branches(i.name) ==> (e.taken <==> Decides(i.name, x, y)))
    && (Branches(i.name) || i.name == JAL || i.name == JALR ==> Unsigned(e.branchAddr) == Destination(i.name, x, imm, pc))
    && (i.acc != NoAccess ==> Unsigned(e.addr) == (x + imm) % MODULUS)
  }

  lemma ExecutesRight(i: Instr)
    ensures Executed(i, Execute(i))
  {
    hide Computes, Alu, Unsigned, Compare, Decides, Destination, JumpTarget, Displaced;
    var a, b := i.rs1.value, i.rs2.value;
    if Arithmetic(i.name) { AluRight(i.name, a, b, i.imm, i.pc); }
    CompareRight(i.name, a, b);
    DestinationRight(i.name, i.imm, i.pc, a);
    DisplacedRight(a, i.imm);
  }
}
