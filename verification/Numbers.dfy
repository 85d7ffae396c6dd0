/** Words read as numbers: what 32-bit operations do to the unsigned and the signed value. The proofs go bit by
    bit, by halving; `Unsigned` is hidden in them so that conversions stay out of the solver's bit-vectors. */
module Numbers {
  import opened Isa
  import opened Executors
  import opened Memories

  const MODULUS: int := 0x1_0000_0000

  function Unsigned(w: Word): nat { w as nat }

  /** The two's complement reading of an unsigned value. */
  function Signed(x: nat): int { if x < 0x8000_0000 then x else x - MODULUS }

  function Pow2(k: nat): (p: nat)
    ensures p > 0
  {
    if k == 0 then 1 else 2 * Pow2(k - 1)
  }

  /** Bit `k` of the number `x`. */
  predicate HasBit(x: nat, k: nat) { (x / Pow2(k)) % 2 == 1 }

  // ---- Halving ----

  function Half(w: Word): Word { w >> 1 }
  function Low(w: Word): Word { w & 1 }

  lemma Even(v: Word)
    requires v < 0x8000_0000
    ensures Unsigned(v << 1) == 2 * Unsigned(v)
  {
  }

  lemma Odd(v: Word)
    requires v < 0x8000_0000
    ensures Unsigned((v << 1) | 1) == 2 * Unsigned(v) + 1
  {
  }

  lemma Rebuild(w: Word)
    ensures Half(w) < 0x8000_0000 && Low(w) <= 1 && w == if Low(w) == 1 then (Half(w) << 1) | 1 else Half(w) << 1
  {
  }

  lemma HalfSmall(w: Word)
    requires w < 0x8000_0000
    ensures Half(w) < 0x4000_0000
  {
  }

  lemma Halves(w: Word)
    ensures Unsigned(w) == 2 * Unsigned(Half(w)) + Unsigned(Low(w)) && Unsigned(Low(w)) == if Low(w) == 1 then 1 else 0
  {
    hide Unsigned, Half, Low;
    Zero();
    Rebuild(w);
    Even(Half(w));
    Odd(Half(w));
    assert Low(w) == 0 || Low(w) == 1;
  }

  lemma Range(w: Word)
    ensures Unsigned(w) < MODULUS
  {
  }

  lemma Zero()
    ensures Unsigned(0) == 0 && Unsigned(1) == 1
  {
  }

  lemma Injective(a: Word, b: Word)
    requires Unsigned(a) == Unsigned(b)
    ensures a == b
  {
    assert (a as nat) as Word == a && (b as nat) as Word == b;
  }

  // ---- Order ----

  lemma Order(a: Word, b: Word)
    ensures a < b <==> Unsigned(a) < Unsigned(b)
    ensures a <= b <==> Unsigned(a) <= Unsigned(b)
  {
    hide Unsigned;
    if a <= b { AtMost(a, b); }
    if b <= a { AtMost(b, a); }
    if Unsigned(a) == Unsigned(b) { Injective(a, b); }
  }

  lemma {:induction false} AtMost(a: Word, b: Word)
    requires a <= b
    ensures Unsigned(a) <= Unsigned(b)
    decreases Unsigned(a)
  {
    hide Unsigned, Half, Low;
    Halves(a);
    Halves(b);
    if Unsigned(a) > 0 {
      HalvesAtMost(a, b);
      AtMost(Half(a), Half(b));
      if Half(a) != Half(b) { Apart(Half(a), Half(b)); }
    }
  }

  lemma Apart(a: Word, b: Word)
    requires a != b
    ensures Unsigned(a) != Unsigned(b)
  {
    hide Unsigned;
    if Unsigned(a) == Unsigned(b) { Injective(a, b); }
  }

  lemma HalvesAtMost(a: Word, b: Word)
    requires a <= b
    ensures Half(a) <= Half(b) && (Half(a) == Half(b) && Low(a) == 1 ==> Low(b) == 1)
  {
  }

  // ---- Sums ----

  lemma NextHalf(w: Word)
    ensures Low(w) == 0 ==> Half(w + 1) == Half(w) && Low(w + 1) == 1
    ensures Low(w) == 1 && w != 0xffff_ffff ==> Half(w + 1) == Half(w) + 1 && Low(w + 1) == 0 && Half(w) != 0xffff_ffff
  {
  }

  lemma {:induction false} Next(w: Word)
    requires w != 0xffff_ffff
    ensures Unsigned(w + 1) == Unsigned(w) + 1
    decreases Unsigned(w)
  {
    hide Unsigned, Half, Low;
    Halves(w);
    Halves(w + 1);
    NextHalf(w);
    Rebuild(w);
    if Low(w) == 1 { Next(Half(w)); }
  }

  lemma Wraps(w: Word)
    ensures Unsigned(w + 1) == (Unsigned(w) + 1) % MODULUS
  {
    hide Unsigned;
    Range(w);
    if w == 0xffff_ffff { Last(); } else { Next(w); Range(w + 1); }
  }

  lemma Last()
    ensures Unsigned(0xffff_ffff) == MODULUS - 1 && Unsigned(0) == 0
  {
  }

  lemma Previous(w: Word)
    requires Unsigned(w) > 0
    ensures Unsigned(w - 1) == Unsigned(w) - 1
  {
    hide Unsigned;
    Zero();
    PreviousIsNotLast(w);
    Next(w - 1);
  }

  lemma PreviousIsNotLast(w: Word)
    ensures w - 1 == 0xffff_ffff ==> w == 0
  {
  }

  lemma {:induction false} Sum(a: Word, b: Word)
    ensures Unsigned(a + b) == (Unsigned(a) + Unsigned(b)) % MODULUS
    decreases Unsigned(b)
  {
    hide Unsigned;
    Range(a);
    if Unsigned(b) == 0 {
      Zero();
      Injective(b, 0);
      assert a + b == a;
    } else {
      Previous(b);
      forall c: Word {:trigger Unsigned(c)} | Unsigned(c) < Unsigned(b)
        ensures Unsigned(a + c) == (Unsigned(a) + Unsigned(c)) % MODULUS
      {
        Sum(a, c);
      }
      SumStep(a, b);
      SumsAgree(Unsigned(a), Unsigned(b));
    }
  }

  lemma SumStep(a: Word, b: Word)
    ensures Unsigned(a + b) == (Unsigned(a + (b - 1)) + 1) % MODULUS
  {
    hide Unsigned;
    Wraps(a + (b - 1));
  }

  lemma SumsAgree(x: nat, y: nat)
    requires y > 0
    ensures ((x + (y - 1)) % MODULUS + 1) % MODULUS == (x + y) % MODULUS
  {
  }

  lemma Difference(a: Word, b: Word)
    ensures Unsigned(a - b) == (Unsigned(a) - Unsigned(b)) % MODULUS
  {
    hide Unsigned;
    SumBack(a, b);
    Range(a);
    Range(b);
    Range(a - b);
  }

  lemma SumBack(a: Word, b: Word)
    ensures Unsigned(a) == (Unsigned(a - b) + Unsigned(b)) % MODULUS
  {
    hide Unsigned;
    forall d: Word {:trigger Unsigned(d)} ensures Unsigned(d + b) == (Unsigned(d) + Unsigned(b)) % MODULUS {
      Sum(d, b);
    }
  }

  // ---- Complement and sign ----

  lemma Complement(w: Word)
    ensures Unsigned(!w) == MODULUS - 1 - Unsigned(w)
  {
    hide Unsigned;
    ComplementIsDifference(w);
    Last();
    Difference(0xffff_ffff, w);
    Range(w);
  }

  lemma ComplementIsDifference(w: Word)
    ensures !w == 0xffff_ffff - w
  {
  }

  function Flipped(w: Word): Word { w ^ 0x8000_0000 }

  /** Exchanging the halves of the word range puts the words in signed order. */
  lemma TopFlipped(w: Word)
    ensures w < 0x8000_0000 <==> Unsigned(w) < 0x8000_0000
    ensures Unsigned(Flipped(w)) == Signed(Unsigned(w)) + 0x8000_0000
  {
    hide Unsigned;
    if w < 0x8000_0000 {
      FlipBack(w);
      LargeWord(w ^ 0x8000_0000);
      Range(w ^ 0x8000_0000);
    } else {
      LargeWord(w);
      Range(w);
    }
  }

  lemma SignedLessIs(a: Word, b: Word)
    ensures SignedLess(a, b) <==> Flipped(a) < Flipped(b)
  {
  }

  lemma SignedOrder(a: Word, b: Word)
    ensures SignedLess(a, b) <==> Signed(Unsigned(a)) < Signed(Unsigned(b))
  {
    hide Unsigned, Flipped, SignedLess, Signed;
    SignedLessIs(a, b);
    TopFlipped(a);
    TopFlipped(b);
    Order(Flipped(a), Flipped(b));
  }

  lemma LargeWord(w: Word)
    requires w >= 0x8000_0000
    ensures Unsigned(w) >= 0x8000_0000 && Unsigned(w ^ 0x8000_0000) == Unsigned(w) - 0x8000_0000
  {
  }

  lemma FlipBack(w: Word)
    requires w < 0x8000_0000
    ensures (w ^ 0x8000_0000) >= 0x8000_0000 && (w ^ 0x8000_0000) ^ 0x8000_0000 == w
  {
  }

  // ---- Shifts ----

  lemma HalfIs(w: Word)
    ensures Unsigned(w >> 1) == Unsigned(w) / 2 && Unsigned(w & 1) == Unsigned(w) % 2
  {
    hide Unsigned;
    Halves(w);
    assert Half(w) == w >> 1 && Low(w) == w & 1;
  }

  lemma DoubleIs(w: Word)
    ensures Unsigned(w << 1) == (2 * Unsigned(w)) % MODULUS
  {
    hide Unsigned;
    assert w << 1 == w + w;
    Sum(w, w);
  }

  lemma LeftStep(w: Word, n: Word)
    requires 0 < n < 32
    ensures ShiftLeft(w, n) == ShiftLeft(w, n - 1) << 1
  {
  }

  lemma RightStep(w: Word, n: Word)
    requires 0 < n < 32
    ensures ShiftRight(w, n) == ShiftRight(w, n - 1) >> 1
  {
  }

  lemma NoShift(w: Word)
    ensures ShiftLeft(w, 0) == w && ShiftRight(w, 0) == w
  {
  }

  lemma ShiftCount(n: Word)
    requires n < 32 && Unsigned(n) > 0
    ensures 0 < n && n - 1 < 32 && Unsigned(n - 1) == Unsigned(n) - 1
  {
    hide Unsigned;
    Zero();
    Order(0, n);
    Previous(n);
    CountDown(n);
  }

  lemma CountDown(n: Word)
    requires 0 < n < 32
    ensures n - 1 < 32
  {
  }

  lemma {:induction false} ShiftedLeft(w: Word, n: Word)
    requires n < 32
    ensures Unsigned(ShiftLeft(w, n)) == (Unsigned(w) * Pow2(Unsigned(n))) % MODULUS
    decreases Unsigned(n)
  {
    hide Unsigned, ShiftLeft, ShiftRight;
    if Unsigned(n) == 0 {
      Zero();
      Injective(n, 0);
      NoShift(w);
      Range(w);
    } else {
      ShiftCount(n);
      ShiftedLeft(w, n - 1);
      LeftStep(w, n);
      DoubleIs(ShiftLeft(w, n - 1));
      DoubledProduct(Unsigned(w), Pow2(Unsigned(n - 1)));
    }
  }

  lemma DoubledProduct(x: nat, p: nat)
    ensures (2 * ((x * p) % MODULUS)) % MODULUS == (x * (2 * p)) % MODULUS
  {
    assert x * (2 * p) == 2 * (x * p);
    DoubledRest(x * p);
  }

  lemma DoubledRest(q: nat)
    ensures (2 * (q % MODULUS)) % MODULUS == (2 * q) % MODULUS
  {
    var t, r := q / MODULUS, q % MODULUS;
    if 2 * r < MODULUS {
      RestIs(2 * q, 2 * t, 2 * r);
    } else {
      RestIs(2 * q, 2 * t + 1, 2 * r - MODULUS);
      RestIs(2 * r, 1, 2 * r - MODULUS);
    }
  }

  lemma RestIs(x: nat, q: nat, r: nat)
    requires x == MODULUS * q + r && r < MODULUS
    ensures x % MODULUS == r
  {
  }

  lemma {:induction false} ShiftedRight(w: Word, n: Word)
    requires n < 32
    ensures Unsigned(ShiftRight(w, n)) == Unsigned(w) / Pow2(Unsigned(n))
    decreases Unsigned(n)
  {
    hide Unsigned, ShiftLeft, ShiftRight;
    if Unsigned(n) == 0 {
      Zero();
      Injective(n, 0);
      NoShift(w);
    } else {
      ShiftCount(n);
      ShiftedRight(w, n - 1);
      RightStep(w, n);
      HalfIs(ShiftRight(w, n - 1));
      Quotients(Unsigned(w), Pow2(Unsigned(n - 1)));
    }
  }

  /** Halving before or after a division. */
  lemma Quotients(x: nat, p: nat)
    requires p > 0
    ensures (x / p) / 2 == x / (2 * p) == (x / 2) / p
  {
    var q, r := x / (2 * p), x % (2 * p);
    assert x == (2 * p) * q + r;
    Products(p, q);
    if r < p { QuotientIs(x, p, 2 * q, r); } else { QuotientIs(x, p, 2 * q + 1, r - p); }
    QuotientIs(x / 2, p, q, r / 2);
  }

  lemma Products(p: nat, q: nat)
    ensures (2 * p) * q == p * (2 * q) == 2 * (p * q) && p * (2 * q + 1) == p * (2 * q) + p
  {
  }

  lemma QuotientIs(x: nat, p: nat, q: nat, r: nat)
    requires p > 0 && x == p * q + r && r < p
    ensures x / p == q
  {
    var q', r' := x / p, x % p;
    assert x == p * q' + r';
    if q' < q { Grows(p, q' + 1, q); } else if q < q' { Grows(p, q + 1, q'); }
  }

  lemma Grows(p: nat, a: int, b: int)
    requires a <= b
    ensures p * a <= p * b
  {
  }

  // ---- Bits ----

  lemma BitAt(w: Word, k: nat)
    ensures HasBit(Unsigned(w), k) <==> if k == 0 then Low(w) == 1 else HasBit(Unsigned(Half(w)), k - 1)
  {
    hide Unsigned, Half, Low;
    Halves(w);
    LowIs(w);
    if k > 0 { Quotients(Unsigned(w), Pow2(k - 1)); }
  }

  // The bitwise operations behind names, again to keep them apart from the induction.
  function AndOf(a: Word, b: Word): Word { a & b }
  function OrOf(a: Word, b: Word): Word { a | b }
  function XorOf(a: Word, b: Word): Word { a ^ b }

  lemma AndHalves(a: Word, b: Word)
    ensures Half(AndOf(a, b)) == AndOf(Half(a), Half(b)) && (Low(AndOf(a, b)) == 1 <==> Low(a) == 1 && Low(b) == 1)
  {
  }

  lemma OrHalves(a: Word, b: Word)
    ensures Half(OrOf(a, b)) == OrOf(Half(a), Half(b)) && (Low(OrOf(a, b)) == 1 <==> Low(a) == 1 || Low(b) == 1)
  {
  }

  lemma XorHalves(a: Word, b: Word)
    ensures Half(XorOf(a, b)) == XorOf(Half(a), Half(b)) && (Low(XorOf(a, b)) == 1 <==> (Low(a) == 1) != (Low(b) == 1))
  {
  }

  lemma LowIs(w: Word)
    ensures Low(w) == 0 || Low(w) == 1
  {
  }

  /** The bitwise operations, bit by bit. */
  lemma {:induction false} And(a: Word, b: Word, k: nat)
    ensures HasBit(Unsigned(AndOf(a, b)), k) <==> HasBit(Unsigned(a), k) && HasBit(Unsigned(b), k)
    decreases k
  {
    hide Unsigned, Half, Low, HasBit, AndOf;
    AndHalves(a, b);
    BitAt(a, k);
    BitAt(b, k);
    BitAt(AndOf(a, b), k);
    if k > 0 { And(Half(a), Half(b), k - 1); }
  }

  lemma {:induction false} Or(a: Word, b: Word, k: nat)
    ensures HasBit(Unsigned(OrOf(a, b)), k) <==> HasBit(Unsigned(a), k) || HasBit(Unsigned(b), k)
    decreases k
  {
    hide Unsigned, Half, Low, HasBit, OrOf;
    OrHalves(a, b);
    BitAt(a, k);
    BitAt(b, k);
    BitAt(OrOf(a, b), k);
    if k > 0 { Or(Half(a), Half(b), k - 1); }
  }

  lemma {:induction false} Xor(a: Word, b: Word, k: nat)
    ensures HasBit(Unsigned(XorOf(a, b)), k) <==> HasBit(Unsigned(a), k) != HasBit(Unsigned(b), k)
    decreases k
  {
    hide Unsigned, Half, Low, HasBit, XorOf;
    XorHalves(a, b);
    BitAt(a, k);
    BitAt(b, k);
    BitAt(XorOf(a, b), k);
    if k > 0 { Xor(Half(a), Half(b), k - 1); }
  }

  // ---- Fields and bytes ----

  function High27(w: Word): bv27 { (w >> 5) as bv27 }
  function Low5(w: Word): bv5 { (w & 31) as bv5 }
  function From27(h: bv27): Word { h as Word }
  function From5(m: bv5): Word { m as Word }
  function Join5(h: bv27, m: bv5): Word { ((h as Word) << 5) | (m as Word) }

  lemma LowFive(h: bv27, m: bv5)
    ensures Unsigned(Join5(h, m)) == 32 * Unsigned(From27(h)) + Unsigned(From5(m)) && Unsigned(From5(m)) < 32
  {
  }

  lemma SplitFive(w: Word)
    ensures w == Join5(High27(w), Low5(w)) && w >> 5 == From27(High27(w)) && w & 31 == From5(Low5(w))
  {
  }

  lemma MaskFive(w: Word)
    ensures Unsigned(w & 31) == Unsigned(w) % 32 && Unsigned(w >> 5) == Unsigned(w) / 32
  {
    hide Unsigned, High27, Low5, From27, From5, Join5;
    SplitFive(w);
    LowFive(High27(w), Low5(w));
  }

  function High24(w: Word): bv24 { (w >> 8) as bv24 }
  function Low8(w: Word): Byte { (w & 0xff) as Byte }
  function From24(h: bv24): Word { h as Word }
  function Join8(h: bv24, m: Byte): Word { ((h as Word) << 8) | (m as Word) }
  function ByteValue(m: Byte): nat { m as nat }

  lemma LowByte(h: bv24, m: Byte)
    ensures Unsigned(Join8(h, m)) == 256 * Unsigned(From24(h)) + ByteValue(m) && ByteValue(m) < 256
  {
  }

  lemma SplitByte(w: Word)
    ensures w == Join8(High24(w), Low8(w)) && w >> 8 == From24(High24(w))
  {
  }

  lemma MaskByte(w: Word)
    ensures ByteValue(Low8(w)) == Unsigned(w) % 256 && Unsigned(w >> 8) == Unsigned(w) / 256
  {
    hide Unsigned, High24, Low8, From24, Join8, ByteValue;
    SplitByte(w);
    LowByte(High24(w), Low8(w));
  }

  /** Byte `k` of the number `x`, the lowest first. */
  function ByteNumber(x: nat, k: nat): nat { if k == 0 then x % 256 else ByteNumber(x / 256, k - 1) }

  lemma ByteOfIs(w: Word, k: nat)
    requires k < 4
    ensures ByteValue(ByteOf(w, k)) == ByteNumber(Unsigned(w), k)
    decreases k
  {
    hide Unsigned, ByteOf, ByteValue, Low8;
    ByteOfStep(w, k);
    MaskByte(w);
    if k > 0 { ByteOfIs(w >> 8, k - 1); }
  }

  lemma ByteOfStep(w: Word, k: nat)
    requires k < 4
    ensures ByteOf(w, k) == if k == 0 then Low8(w) else ByteOf(w >> 8, k - 1)
  {
  }

  lemma PackIs(b0: Byte, b1: Byte, b2: Byte, b3: Byte)
    ensures Unsigned(Pack(b0, b1, b2, b3))
         == ByteValue(b0) + 256 * ByteValue(b1) + 65536 * ByteValue(b2) + 16777216 * ByteValue(b3)
  {
    RawPack(b0, b1, b2, b3);
  }

  lemma RawPack(b0: Byte, b1: Byte, b2: Byte, b3: Byte)
    ensures ((b0 as Word) | ((b1 as Word) << 8) | ((b2 as Word) << 16) | ((b3 as Word) << 24)) as int
         == b0 as int + 256 * (b1 as int) + 65536 * (b2 as int) + 16777216 * (b3 as int)
  {
  }

  lemma MaskTwo(w: Word)
    ensures Unsigned(w & 3) == Unsigned(w) % 4 && Unsigned(w & 1) == Unsigned(w) % 2
    ensures w & 3 < 2 <==> (w >> 1) & 1 == 0
  {
    hide Unsigned, Half, Low;
    TwoBits(w);
    Halves(w);
    Halves(Half(w));
    Halves(w & 3);
    Halves(Half(w & 3));
    Zero();
    LowIs(w);
    LowIs(Half(w));
  }

  lemma TwoBits(w: Word)
    ensures Low(w & 3) == Low(w) == w & 1 && Half(w & 3) == Low(Half(w)) && Half(Low(Half(w))) == 0
    ensures Low(Low(Half(w))) == Low(Half(w))
    ensures w & 3 < 2 <==> (w >> 1) & 1 == 0
  {
  }
}
