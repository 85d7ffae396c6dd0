/** The store queue in front of memory and its byte forwarding (src/Pipeline.cpp). */
module StoreQueues {
  import opened Isa
  import opened Memories

  /** A queued store; size 0 is the empty entry that moves the delay line on. */
  datatype Store = Store(addr: nat, size: nat, data: Word, id: nat) {
    function End(): nat { addr + size }

    predicate Covers(p: nat) { addr <= p < addr + size }
  }

  const NO_STORE := Store(0, 0, 0, 0)

  predicate AccessSize(n: nat) { n == 1 || n == 2 || n == 4 }

  /** Every entry is a bubble or a store of 1, 2 or 4 bytes. */
  predicate WellSized(q: seq<Store>) { forall s :: s in q ==> s.size == 0 || AccessSize(s.size) }

  predicate AllInBounds(q: seq<Store>, mem: Mem) {
    forall s :: s in q ==> InBounds(mem, s.addr, s.size)
  }

  function Apply(s: Store, mem: Mem): Mem { WriteWord(mem, s.addr, s.size, s.data) }

  /** Memory once every queued store has been written, oldest first. */
  function Drain(q: seq<Store>, mem: Mem): (r: Mem)
    ensures |r| == |mem|
  {
    if q == [] then mem else Drain(q[1..], Apply(q[0], mem))
  }

  /** One byte as a load must see it: from the youngest queued store over it, else from memory. */
  function ViewByte(q: seq<Store>, mem: Mem, p: nat): Byte {
    if q == [] then ByteAt(mem, p)
    else
      var s := q[|q| - 1];
      if s.Covers(p) then ByteOf(s.data, p - s.addr) else ViewByte(q[..|q| - 1], mem, p)
  }

  lemma {:induction false} DrainSnoc(q: seq<Store>, s: Store, mem: Mem)
    ensures Drain(q + [s], mem) == Apply(s, Drain(q, mem))
  {
    if q == [] {
      assert [s][1..] == [];
    } else {
      assert (q + [s])[1..] == q[1..] + [s];
      DrainSnoc(q[1..], s, Apply(q[0], mem));
    }
  }

  /** Draining agrees with the youngest-store-wins view, byte by byte. */
  lemma {:induction false} DrainedByte(q: seq<Store>, mem: Mem, p: nat)
    requires WellSized(q) && AllInBounds(q, mem)
    ensures ByteAt(Drain(q, mem), p) == ViewByte(q, mem, p)
  {
    if q != [] {
      var init, s := q[..|q| - 1], q[|q| - 1];
      assert q == init + [s];
      DrainSnoc(init, s, mem);
      DrainedByte(init, mem, p);
      WriteWordByte(Drain(init, mem), s.addr, s.size, s.data, p);
    }
  }

  // ---- The search loop ----

  /** The load's data bytes collected so far and the flag per byte (`fullness`, 32 long in the source). */
  datatype Forwarded = Forwarded(data: seq<Byte>, full: seq<bool>) {
    ghost predicate Valid() { |data| == 4 && |full| == 32 }
  }

  function NothingForwarded(): (f: Forwarded)
    ensures f.Valid()
  {
    Forwarded([0, 0, 0, 0], seq(32, _ => false))
  }

  /** memcpy of `n` bytes from offset `from` of `src` to offset `at` of `dst`. */
  function Copy(dst: seq<Byte>, at: int, src: Word, from: int, n: int): (r: seq<Byte>)
    requires |dst| == 4
    ensures |r| == 4
  {
    seq(4, i requires 0 <= i < 4 => if at <= i < at + n && 0 <= from + i - at then ByteOf(src, from + i - at) else dst[i])
  }

  function Mark(full: seq<bool>, from: int, to: int): (r: seq<bool>)
    requires |full| == 32
    ensures |r| == 32
  {
    seq(32, i requires 0 <= i < 32 => full[i] || from <= i < to)
  }

  /** The load window lies strictly inside the store: the third case of the loop. */
  predicate Surrounds(s: Store, addr: nat, size: nat) { s.addr < addr && addr + size < s.addr + s.size }

  /** One iteration of the loop of `searchData`, its three cases in the source's order. */
  function ForwardOne(addr: nat, size: nat, s: Store, f: Forwarded): (r: Forwarded)
    requires f.Valid()
    ensures r.Valid()
  {
    if addr <= s.End() <= addr + size then
      if s.addr <= addr then
        Forwarded(Copy(f.data, 0, s.data, addr - s.addr, s.End() - addr), Mark(f.full, 0, s.End() - addr))
      else
        Forwarded(Copy(f.data, s.addr - addr, s.data, 0, s.size), Mark(f.full, s.addr - addr, s.End() - addr))
    else if addr <= s.addr <= addr + size then
      var n := if addr + size <= s.End() then addr + size - s.addr else s.size;
      Forwarded(Copy(f.data, s.addr - addr, s.data, 0, n), Mark(f.full, s.addr - addr, s.addr - addr + n))
    else if s.addr <= addr && addr + size <= s.End() then
      Forwarded(Copy(f.data, 0, s.data, addr - s.addr, size), Mark(f.full, 0, 32))
    else f
  }

  function ForwardAll(q: seq<Store>, addr: nat, size: nat): (r: Forwarded)
    ensures r.Valid()
  {
    if q == [] then NothingForwarded()
    else ForwardOne(addr, size, q[|q| - 1], ForwardAll(q[..|q| - 1], addr, size))
  }

  /** One iteration moves exactly the bytes the store and the window share. */
  lemma ForwardOneBytes(addr: nat, size: nat, s: Store, f: Forwarded)
    requires f.Valid() && AccessSize(size)
    ensures var g := ForwardOne(addr, size, s, f);
      forall i | 0 <= i < size ::
        && (g.full[i] <==> f.full[i] || s.Covers(addr + i))
        && g.data[i] == if s.Covers(addr + i) then ByteOf(s.data, addr + i - s.addr) else f.data[i]
    ensures var g := ForwardOne(addr, size, s, f);
      forall i | size <= i < 32 ::
        && (g.full[i] <==> f.full[i] || Surrounds(s, addr, size))
        && (i < 4 ==> g.data[i] == f.data[i])
  {
  }

  ghost predicate Reached(q: seq<Store>, p: nat) { exists s :: s in q && s.Covers(p) }

  ghost predicate Surrounded(q: seq<Store>, addr: nat, size: nat) { exists s :: s in q && Surrounds(s, addr, size) }

  /** Byte `i` of the window: flagged exactly when some queued store covers it, and then holding the
      youngest one's byte; otherwise still 0, with memory's byte the right one. */
  ghost predicate ByteForwarded(f: Forwarded, q: seq<Store>, addr: nat, mem: Mem, i: nat)
    requires f.Valid() && i < 4
  {
    && (f.full[i] <==> Reached(q, addr + i))
    && (if f.full[i] then f.data[i] == ViewByte(q, mem, addr + i)
        else f.data[i] == 0 && ViewByte(q, mem, addr + i) == ByteAt(mem, addr + i))
  }

  /** Beyond the window: flagged only by a surrounding store, data never touched. */
  ghost predicate BeyondWindow(f: Forwarded, q: seq<Store>, addr: nat, size: nat, i: nat)
    requires f.Valid() && i < 32
  {
    (f.full[i] <==> Surrounded(q, addr, size)) && (i < 4 ==> f.data[i] == 0)
  }

  lemma {:induction false} ForwardedBytes(q: seq<Store>, addr: nat, size: nat, mem: Mem)
    requires WellSized(q) && AccessSize(size)
    ensures forall i: nat | i < size :: ByteForwarded(ForwardAll(q, addr, size), q, addr, mem, i)
    ensures forall i: nat | size <= i < 32 :: BeyondWindow(ForwardAll(q, addr, size), q, addr, size, i)
  {
    if q != [] {
      var init, s := q[..|q| - 1], q[|q| - 1];
      assert q == init + [s];
      ForwardedBytes(init, addr, size, mem);
      var f, g := ForwardAll(init, addr, size), ForwardAll(q, addr, size);
      ForwardOneBytes(addr, size, s, f);
      forall i: nat | i < size ensures ByteForwarded(g, q, addr, mem, i) {
        assert ByteForwarded(f, init, addr, mem, i);
        assert s.Covers(addr + i) ==> s in q;
        assert Reached(q, addr + i) <==> Reached(init, addr + i) || s.Covers(addr + i);
      }
      forall i: nat | size <= i < 32 ensures BeyondWindow(g, q, addr, size, i) {
        assert BeyondWindow(f, init, addr, size, i);
        assert Surrounds(s, addr, size) ==> s in q;
        assert Surrounded(q, addr, size) <==> Surrounded(init, addr, size) || Surrounds(s, addr, size);
      }
    }
  }

  // ---- The value searchData returns ----

  function PackSeq(b: seq<Byte>): Word
    requires |b| == 4
  {
    Pack(b[0], b[1], b[2], b[3])
  }

  function LowByte(w: Word, n: nat, i: nat): Byte { if i < n then ByteOf(w, i) else 0 }

  /** The low `n` bytes of a word. */
  function Low(w: Word, n: nat): Word {
    Pack(LowByte(w, n, 0), LowByte(w, n, 1), LowByte(w, n, 2), LowByte(w, n, 3))
  }

  /** `1 << n` on 32 bits, by doubling. */
  function Bit(n: nat): Word { if n == 0 then 1 else Bit(n - 1) + Bit(n - 1) }

  lemma {:induction false} BitIsShift(n: nat)
    requires n < 32
    ensures Bit(n) == 1 << n
  {
    if n > 0 { BitIsShift(n - 1); }
  }

  /** The mask with bit `n` added for a flag that is not set. */
  function WithBit(mask: Word, n: nat, isSet: bool): Word { if isSet then mask else mask + Bit(n) }

  /** The mask the source builds: bit i, not byte i, for flag i. */
  function MaskUpTo(full: seq<bool>, n: nat): Word
    requires n <= 32 && |full| == 32
  {
    if n == 0 then 0 else WithBit(MaskUpTo(full, n - 1), n - 1, full[n - 1])
  }

  /** The loop stops with an exception when an entry is older than the one before it. */
  predicate InOrder(q: seq<Store>) { forall i :: 0 < i < |q| ==> q[i - 1].id <= q[i].id }

  function SearchResult(q: seq<Store>, mem: Mem, addr: nat, size: nat, garbage: Word): Outcome<Word> {
    if !InOrder(q) then Err(QueueOrder)
    else if !InBounds(mem, addr, size) then Err(OutOfMemory)
    else
      Ok(MaskedResult(ForwardAll(q, addr, size), FromMemory(mem, addr, size, garbage)))
  }

  function MergedByte(f: Forwarded, mem: Mem, addr: nat, size: nat, i: nat): Byte
    requires f.Valid() && i < 4
  {
    if i >= size then 0 else if f.full[i] then f.data[i] else ByteAt(mem, addr + i)
  }

  /** The evident intent: fall back to memory per byte, not per bit. */
  function MergePerByte(f: Forwarded, mem: Mem, addr: nat, size: nat): Word
    requires f.Valid()
  {
    Pack(MergedByte(f, mem, addr, size, 0), MergedByte(f, mem, addr, size, 1),
         MergedByte(f, mem, addr, size, 2), MergedByte(f, mem, addr, size, 3))
  }

  /** With the mask read per byte, a load returns what memory would hold after draining the queue. */
  lemma ForwardingAgreesWithDrain(q: seq<Store>, mem: Mem, addr: nat, size: nat)
    requires WellSized(q) && AllInBounds(q, mem) && AccessSize(size) && InBounds(mem, addr, size)
    ensures MergePerByte(ForwardAll(q, addr, size), mem, addr, size) == ReadWord(Drain(q, mem), addr, size)
  {
    hide Pack, ForwardAll, Drain, ViewByte;
    forall i: nat | i < 4
      ensures MergedByte(ForwardAll(q, addr, size), mem, addr, size, i) == ReadByte(Drain(q, mem), addr, size, i)
    {
      if i < size {
        ForwardedBytes(q, addr, size, mem);
        assert ByteForwarded(ForwardAll(q, addr, size), q, addr, mem, i);
        DrainedByte(q, mem, addr + i);
      }
    }
  }

  // ---- When the source's bit mask is right ----

  lemma {:induction false} MaskOfSet(full: seq<bool>, n: nat)
    requires n <= 32 && |full| == 32 && forall i | 0 <= i < n :: full[i]
    ensures MaskUpTo(full, n) == 0
  {
    if n > 0 { MaskOfSet(full, n - 1); }
  }

  lemma BitValues()
    ensures Bit(0) == 0x1 && Bit(1) == 0x2 && Bit(2) == 0x4 && Bit(3) == 0x8 && Bit(4) == 0x10 && Bit(5) == 0x20 && Bit(6) == 0x40 && Bit(7) == 0x80
    ensures Bit(8) == 0x100 && Bit(9) == 0x200 && Bit(10) == 0x400 && Bit(11) == 0x800 && Bit(12) == 0x1000 && Bit(13) == 0x2000 && Bit(14) == 0x4000 && Bit(15) == 0x8000
    ensures Bit(16) == 0x10000 && Bit(17) == 0x20000 && Bit(18) == 0x40000 && Bit(19) == 0x80000 && Bit(20) == 0x100000 && Bit(21) == 0x200000 && Bit(22) == 0x400000 && Bit(23) == 0x800000
    ensures Bit(24) == 0x1000000 && Bit(25) == 0x2000000 && Bit(26) == 0x4000000 && Bit(27) == 0x8000000 && Bit(28) == 0x10000000 && Bit(29) == 0x20000000 && Bit(30) == 0x40000000 && Bit(31) == 0x80000000
  {
  }

  lemma BitIsOneHot(n: nat)
    requires n < 32
    ensures Bit(n) & (Bit(n) - 1) == 0 && Bit(n) != 0
    ensures n < 31 ==> Bit(n) < 0x8000_0000
  {
    BitValues();
  }

  lemma BelowIsDisjoint(m: Word, b: Word)
    requires m < b && b & (b - 1) == 0
    ensures m & b == 0
    ensures b < 0x8000_0000 ==> (m | b) < b + b && m < b + b
  {
  }

  lemma DisjointSum(m: Word, b: Word)
    requires m & b == 0
    ensures m + b == m | b
  {
  }

  lemma AddDisjoint(m: Word, b: Word)
    requires m < b && b & (b - 1) == 0
    ensures m + b == m | b
    ensures b < 0x8000_0000 ==> (m | b) < b + b && m < b + b
  {
    BelowIsDisjoint(m, b);
    DisjointSum(m, b);
  }

  /** The sum never carries into the next bit. */
  lemma {:induction false} MaskBelowBit(full: seq<bool>, n: nat)
    requires n < 32 && |full| == 32
    ensures MaskUpTo(full, n) < Bit(n)
  {
    if n > 0 {
      MaskBelowBit(full, n - 1);
      BitIsOneHot(n - 1);
      AddDisjoint(MaskUpTo(full, n - 1), Bit(n - 1));
    }
  }

  /** The bits from 4 to n - 1. */
  function Tail(n: nat): Word { if n <= 4 then 0 else Tail(n - 1) | Bit(n - 1) }

  lemma TailValue()
    ensures Tail(32) == 0xffff_fff0
  {
    BitValues();
    assert Tail(12) == 0xff0;
    assert Tail(22) == 0x3f_fff0;
  }

  /** Flags clear from 4 on set every mask bit from 4 on. */
  lemma {:induction false} MaskOfTail(full: seq<bool>, n: nat)
    requires 4 <= n <= 32 && |full| == 32 && forall i | 4 <= i < n :: !full[i]
    ensures MaskUpTo(full, n) == MaskUpTo(full, 4) | Tail(n)
  {
    if n > 4 {
      MaskOfTail(full, n - 1);
      MaskBelowBit(full, n - 1);
      BitIsOneHot(n - 1);
      AddDisjoint(MaskUpTo(full, n - 1), Bit(n - 1));
    }
  }

  lemma MaskOfLowFlags(full: seq<bool>)
    requires |full| == 32
    ensures MaskUpTo(full, 4) == (if full[0] then 0 else 1) + (if full[1] then 0 else 2)
                                 + (if full[2] then 0 else 4) + (if full[3] then 0 else 8)
  {
    assert Bit(1) == 2 && Bit(2) == 4;
    assert MaskUpTo(full, 1) == if full[0] then 0 else 1;
    assert MaskUpTo(full, 2) == MaskUpTo(full, 1) + if full[1] then 0 else 2;
    assert MaskUpTo(full, 3) == MaskUpTo(full, 2) + if full[2] then 0 else 4;
  }

  /** Flags clear from the window's end on: every mask bit that is not a flag bit is set. */
  lemma TailMask(full: seq<bool>)
    requires |full| == 32 && forall i | 4 <= i < 32 :: !full[i]
    ensures MaskUpTo(full, 32) & 0xffff_fff0 == 0xffff_fff0
    ensures !full[0] && !full[1] && !full[2] && !full[3] ==> MaskUpTo(full, 32) == 0xffff_ffff
  {
    MaskOfTail(full, 32);
    TailValue();
    MaskOfLowFlags(full);
  }

  lemma LowOfPack(b0: Byte, b1: Byte, b2: Byte, b3: Byte, n: nat)
    requires AccessSize(n)
    ensures Low(Pack(b0, b1, b2, b3), n)
         == Pack(b0, if n > 1 then b1 else 0, if n > 2 then b2 else 0, if n > 3 then b3 else 0)
  {
    PackBytes(b0, b1, b2, b3);
  }

  lemma ByteOfLow(a: Word, n: nat, k: nat)
    requires k < n <= 4
    ensures ByteOf(Low(a, n), k) == ByteOf(a, k)
  {
    PackBytes(LowByte(a, n, 0), LowByte(a, n, 1), LowByte(a, n, 2), LowByte(a, n, 3));
  }

  /** Words that agree in the low `n` bytes agree in the top bit of each of them. */
  lemma LowKeepsSpike(a: Word, b: Word, n: nat, k: nat)
    requires AccessSize(n) && k < n
    ensures Low(a, n) == Low(b, n) ==> a & Spike(k) == b & Spike(k)
  {
    ByteOfLow(a, n, k);
    ByteOfLow(b, n, k);
    SpikeInByte(a, k);
    SpikeInByte(b, k);
  }

  lemma SpikeInByte(a: Word, k: nat)
    requires k < 4
    ensures a & Spike(k) == if ByteOf(a, k) & 0x80 == 0 then 0 else Spike(k)
  {
  }

  /** Adding the top bit of byte `k`, which the mask keeps, flips it. */
  lemma SpikeFlips(p: Word, m: Word, k: nat)
    requires k < 4 && m & 0xffff_fff0 == 0xffff_fff0
    ensures (p + (m & Spike(k))) & Spike(k) != p & Spike(k)
  {
    if k == 0 {
      assert (p + (m & 0x80)) & 0x80 != p & 0x80;
    } else if k == 1 {
      assert (p + (m & 0x8000)) & 0x8000 != p & 0x8000;
    } else if k == 2 {
      assert (p + (m & 0x80_0000)) & 0x80_0000 != p & 0x80_0000;
    } else {
      assert (p + (m & 0x8000_0000)) & 0x8000_0000 != p & 0x8000_0000;
    }
  }

  predicate NoOverlap(q: seq<Store>, addr: nat, size: nat) {
    forall s :: s in q && s.size > 0 ==> s.End() <= addr || addr + size <= s.addr
  }

  ghost predicate LoadsRight(q: seq<Store>, addr: nat, size: nat, mem: Mem, garbage: Word) {
    var r := SearchResult(q, mem, addr, size, garbage);
    r.Ok? && Low(r.value, size) == ReadWord(Drain(q, mem), addr, size)
  }

  lemma LowFromMemory(mem: Mem, addr: nat, size: nat, garbage: Word)
    requires AccessSize(size)
    ensures Low(FromMemory(mem, addr, size, garbage), size) == ReadWord(mem, addr, size)
  {
    LowOfPack(ByteAt(mem, addr),
              if size > 1 then ByteAt(mem, addr + 1) else ByteOf(garbage, 1),
              if size > 2 then ByteAt(mem, addr + 2) else ByteOf(garbage, 2),
              if size > 3 then ByteAt(mem, addr + 3) else ByteOf(garbage, 3), size);
  }

  lemma MaskedSum(m: Word, d: Word)
    ensures m == 0xffff_ffff ==> 0 + (m & d) == d
    ensures m == 0 ==> m & d == 0
    ensures d + 0 == d
  {
  }

  lemma PackZero()
    ensures Pack(0, 0, 0, 0) == 0
  {
  }

  function WithFallback(forwarded: Word, mask: Word, d: Word): Word { forwarded + (mask & d) }

  /** The value the source returns once its loop has left `f`. */
  function MaskedResult(f: Forwarded, d: Word): Word
    requires f.Valid()
  {
    WithFallback(PackSeq(f.data), MaskUpTo(f.full, 32), d)
  }

  lemma ResultUnforwarded(f: Forwarded, mem: Mem, addr: nat, size: nat, garbage: Word)
    requires f.Valid() && AccessSize(size) && f.data == [0, 0, 0, 0] && forall i | 0 <= i < 32 :: !f.full[i]
    ensures Low(MaskedResult(f, FromMemory(mem, addr, size, garbage)), size) == ReadWord(mem, addr, size)
  {
    TailMask(f.full);
    PackZero();
    MaskedSum(MaskUpTo(f.full, 32), FromMemory(mem, addr, size, garbage));
    LowFromMemory(mem, addr, size, garbage);
  }

  lemma ZeroMask(p: Word, m: Word, d: Word)
    requires m == 0
    ensures p + (m & d) == p
  {
  }

  lemma LowOfData(f: Forwarded, mem: Mem, addr: nat, size: nat)
    requires f.Valid() && AccessSize(size) && forall i | 0 <= i < size :: f.full[i]
    ensures Low(PackSeq(f.data), size) == MergePerByte(f, mem, addr, size)
  {
    PackBytes(f.data[0], f.data[1], f.data[2], f.data[3]);
    forall i: nat | i < 4 ensures LowByte(PackSeq(f.data), size, i) == MergedByte(f, mem, addr, size, i) {
      assert ByteOf(PackSeq(f.data), i) == f.data[i];
    }
  }

  lemma ResultForwarded(f: Forwarded, d: Word, mem: Mem, addr: nat, size: nat)
    requires f.Valid() && AccessSize(size) && forall i | 0 <= i < 32 :: f.full[i]
    ensures Low(MaskedResult(f, d), size) == MergePerByte(f, mem, addr, size)
  {
    MaskOfSet(f.full, 32);
    ZeroMask(PackSeq(f.data), MaskUpTo(f.full, 32), d);
    LowOfData(f, mem, addr, size);
  }

  lemma ResultSpiked(f: Forwarded, size: nat, k: nat)
    requires f.Valid() && AccessSize(size) && k < size && forall i | 4 <= i < 32 :: !f.full[i]
    ensures Low(MaskedResult(f, Spike(k)), size) != Low(PackSeq(f.data), size)
  {
    TailMask(f.full);
    SpikeFlips(PackSeq(f.data), MaskUpTo(f.full, 32), k);
    LowKeepsSpike(MaskedResult(f, Spike(k)), PackSeq(f.data), size, k);
  }

  lemma NothingReached(q: seq<Store>, addr: nat, size: nat)
    requires WellSized(q) && AccessSize(size) && NoOverlap(q, addr, size)
    ensures var f := ForwardAll(q, addr, size); f.data == [0, 0, 0, 0] && forall i | 0 <= i < 32 :: !f.full[i]
  {
    var f := ForwardAll(q, addr, size);
    ForwardedBytes(q, addr, size, []);
    forall i: nat | i < 32 ensures !f.full[i] && (i < 4 ==> f.data[i] == 0) {
      if i < size { assert ByteForwarded(f, q, addr, [], i); } else { assert BeyondWindow(f, q, addr, size, i); }
    }
  }

  lemma EverythingReached(q: seq<Store>, addr: nat, size: nat)
    requires WellSized(q) && AccessSize(size) && Surrounded(q, addr, size)
    ensures forall i | 0 <= i < 32 :: ForwardAll(q, addr, size).full[i]
  {
    var f := ForwardAll(q, addr, size);
    ForwardedBytes(q, addr, size, []);
    var s :| s in q && Surrounds(s, addr, size);
    forall i: nat | i < 32 ensures f.full[i] {
      if i < size { assert ByteForwarded(f, q, addr, [], i); assert s.Covers(addr + i); }
      else { assert BeyondWindow(f, q, addr, size, i); }
    }
  }

  /** With no store in the way, the search loop leaves memory's bytes, whatever the stack garbage. */
  lemma NoOverlapLoadsRight(q: seq<Store>, addr: nat, size: nat, mem: Mem, garbage: Word)
    requires WellSized(q) && AllInBounds(q, mem) && InOrder(q) && AccessSize(size) && InBounds(mem, addr, size)
    requires NoOverlap(q, addr, size)
    ensures LoadsRight(q, addr, size, mem, garbage)
  {
    NothingReached(q, addr, size);
    ForwardingAgreesWithDrain(q, mem, addr, size);
    ResultUnforwarded(ForwardAll(q, addr, size), mem, addr, size, garbage);
  }

  /** On an empty queue the search is a memory read, garbage above the window included. */
  lemma EmptyQueueReads(mem: Mem, addr: nat, size: nat, garbage: Word)
    requires InBounds(mem, addr, size)
    ensures SearchResult([], mem, addr, size, garbage) == Ok(FromMemory(mem, addr, size, garbage))
  {
    var f := NothingForwarded();
    TailMask(f.full);
    PackZero();
    MaskedSum(MaskUpTo(f.full, 32), FromMemory(mem, addr, size, garbage));
  }

  lemma SurroundedLoadsRight(q: seq<Store>, addr: nat, size: nat, mem: Mem, garbage: Word)
    requires WellSized(q) && AllInBounds(q, mem) && InOrder(q) && AccessSize(size) && InBounds(mem, addr, size)
    requires Surrounded(q, addr, size)
    ensures LoadsRight(q, addr, size, mem, garbage)
  {
    EverythingReached(q, addr, size);
    ForwardingAgreesWithDrain(q, mem, addr, size);
    ResultForwarded(ForwardAll(q, addr, size), FromMemory(mem, addr, size, garbage), mem, addr, size);
  }

  /** The memory on which the bit mask goes wrong: 0x80 at the forwarded byte `p`, 0 elsewhere. */
  function SpikeAt(n: nat, p: nat): (mem: Mem)
    ensures |mem| == n
  {
    seq(n, k => if k == p then 0x80 else 0)
  }

  lemma SpikeWord(n: nat, addr: nat, size: nat, k: nat)
    requires AccessSize(size) && k < size && addr + size <= n
    ensures FromMemory(SpikeAt(n, addr + k), addr, size, 0) == Spike(k)
  {
    PackSpike();
  }

  function Spike(k: nat): Word { if k == 0 then 0x80 else if k == 1 then 0x8000 else if k == 2 then 0x80_0000 else 0x8000_0000 }

  lemma PackSpike()
    ensures Pack(0x80, 0, 0, 0) == Spike(0) && Pack(0, 0x80, 0, 0) == Spike(1)
    ensures Pack(0, 0, 0x80, 0) == Spike(2) && Pack(0, 0, 0, 0x80) == Spike(3)
  {
  }

  /** Where the forwarded bytes alone are the answer, the masked sum is not. */
  lemma SpikeMerge(q: seq<Store>, addr: nat, size: nat, n: nat, k: nat)
    requires WellSized(q) && AccessSize(size) && k < size && addr + size <= n
    requires Reached(q, addr + k) && !Surrounded(q, addr, size)
    ensures var f := ForwardAll(q, addr, size);
      && (forall i | 4 <= i < 32 :: !f.full[i])
      && MergePerByte(f, SpikeAt(n, addr + k), addr, size) == Low(PackSeq(f.data), size)
  {
    var mem := SpikeAt(n, addr + k);
    var f := ForwardAll(q, addr, size);
    ForwardedBytes(q, addr, size, mem);
    forall i: nat | i < 32
      ensures i >= size ==> !f.full[i]
      ensures i < size && !f.full[i] ==> f.data[i] == ByteAt(mem, addr + i)
    {
      if i < size { assert ByteForwarded(f, q, addr, mem, i); } else { assert BeyondWindow(f, q, addr, size, i); }
    }
    LowOfPack(f.data[0], f.data[1], f.data[2], f.data[3], size);
  }

  lemma OverlapLoadsWrong(q: seq<Store>, addr: nat, size: nat, n: nat, k: nat)
    requires WellSized(q) && AllInBounds(q, SpikeAt(n, addr + k)) && AccessSize(size) && k < size && addr + size <= n
    requires Reached(q, addr + k) && !Surrounded(q, addr, size)
    ensures !LoadsRight(q, addr, size, SpikeAt(n, addr + k), 0)
  {
    SpikeMerge(q, addr, size, n, k);
    SpikeWord(n, addr, size, k);
    ForwardingAgreesWithDrain(q, SpikeAt(n, addr + k), addr, size);
    ResultSpiked(ForwardAll(q, addr, size), size, k);
  }

  /** As written, a load is right for every memory content exactly when no queued store meets its window,
      or one strictly surrounds it: a condition on the queue alone. */
  lemma SearchDataExact(q: seq<Store>, addr: nat, size: nat, n: nat)
    requires WellSized(q) && InOrder(q) && AccessSize(size) && addr + size <= n
    requires forall s :: s in q ==> s.addr + s.size <= n
    ensures (forall mem: Mem, garbage: Word | |mem| == n :: LoadsRight(q, addr, size, mem, garbage))
            <==> NoOverlap(q, addr, size) || Surrounded(q, addr, size)
  {
    if NoOverlap(q, addr, size) {
      forall mem: Mem, garbage: Word | |mem| == n ensures LoadsRight(q, addr, size, mem, garbage) {
        NoOverlapLoadsRight(q, addr, size, mem, garbage);
      }
    } else if Surrounded(q, addr, size) {
      forall mem: Mem, garbage: Word | |mem| == n ensures LoadsRight(q, addr, size, mem, garbage) {
        SurroundedLoadsRight(q, addr, size, mem, garbage);
      }
    } else {
      var s :| s in q && s.size > 0 && !(s.End() <= addr || addr + size <= s.addr);
      var k: nat := if s.addr <= addr then 0 else s.addr - addr;
      assert s.Covers(addr + k);
      OverlapLoadsWrong(q, addr, size, n, k);
    }
  }

  // ---- The delay line ----

  /** The queue, the store waiting to enter it this cycle, and the id counter. */
  datatype QueueState = QueueState(queue: seq<Store>, pending: Store, id: nat)

  /** `push` without merging: `tryConcatenate` does nothing on an empty queue. */
  function Pushed(q: QueueState, addr: nat, size: nat, data: Word): QueueState {
    q.(pending := Store(addr, size, data, q.id + 1), id := q.id + 1)
  }

  /** `update`: the pending entry goes in at the back, the front one goes to memory. */
  function Advance(q: QueueState, mem: Mem): Outcome<(QueueState, Mem)> {
    var line := q.queue + [q.pending];
    var head := line[0];
    if head.size > 0 && !InBounds(mem, head.addr, head.size) then Err(OutOfMemory)
    else Ok((QueueState(line[1..], NO_STORE, q.id), Apply(head, mem)))
  }

  lemma BubbleWritesNothing(mem: Mem)
    ensures Apply(NO_STORE, mem) == mem
  {
  }

  /** What a program observing memory through the queue sees. */
  function Settled(q: QueueState, mem: Mem): Mem { Drain(q.queue + [q.pending], mem) }

  /** Advancing the line changes nothing a program can see. */
  lemma AdvanceKeepsSettled(q: QueueState, mem: Mem)
    requires Advance(q, mem).Ok?
    ensures var (q', mem') := Advance(q, mem).value; Settled(q', mem') == Settled(q, mem)
  {
    var line := q.queue + [q.pending];
    var (q', mem') := Advance(q, mem).value;
    DrainSnoc(line[1..], NO_STORE, mem');
    assert Drain(line, mem) == Drain(line[1..], mem');
    assert Apply(NO_STORE, Drain(line[1..], mem')) == Drain(line[1..], mem');
  }

  /** A push into a free slot is, for that program, a direct memory write. */
  lemma PushWritesSettled(q: QueueState, mem: Mem, addr: nat, size: nat, data: Word)
    requires q.pending == NO_STORE
    ensures Settled(Pushed(q, addr, size, data), mem) == WriteWord(Settled(q, mem), addr, size, data)
  {
    DrainSnoc(q.queue, NO_STORE, mem);
    DrainSnoc(q.queue, Store(addr, size, data, q.id + 1), mem);
    var m := Drain(q.queue, mem);
    assert Apply(NO_STORE, m) == m;
  }

  /** One cycle's traffic: at most one push, then the update. */
  function Clocked(q: QueueState, mem: Mem, push: seq<Store>): Outcome<(QueueState, Mem)>
    requires |push| <= 1
  {
    Advance(if push == [] then q else Pushed(q, push[0].addr, push[0].size, push[0].data), mem)
  }

  function RunLine(q: QueueState, mem: Mem, pushes: seq<seq<Store>>): Outcome<(QueueState, Mem)>
    requires forall p :: p in pushes ==> |p| <= 1
    decreases |pushes|
  {
    if pushes == [] then Ok((q, mem))
    else
      var r :- Clocked(q, mem, pushes[0]);
      RunLine(r.0, r.1, pushes[1..])
  }

  function WriteAll(mem: Mem, pushes: seq<seq<Store>>): Mem
    decreases |pushes|
  {
    if pushes == [] then mem
    else WriteAll(if pushes[0] == [] then mem else Apply(pushes[0][0], mem), pushes[1..])
  }

  /** Over any traffic and from any initial line, draining gives the memory of the in-order writes. */
  lemma {:induction false} LineDelaysWrites(q: QueueState, mem: Mem, pushes: seq<seq<Store>>)
    requires forall p :: p in pushes ==> |p| <= 1
    requires q.pending == NO_STORE && RunLine(q, mem, pushes).Ok?
    ensures var (q', mem') := RunLine(q, mem, pushes).value;
      Settled(q', mem') == WriteAll(Settled(q, mem), pushes) && |q'.queue| == |q.queue|
    decreases |pushes|
  {
    if pushes != [] {
      var p := pushes[0];
      var q1 := if p == [] then q else Pushed(q, p[0].addr, p[0].size, p[0].data);
      if p != [] { PushWritesSettled(q, mem, p[0].addr, p[0].size, p[0].data); }
      AdvanceKeepsSettled(q1, mem);
      var (q2, mem2) := Advance(q1, mem).value;
      LineDelaysWrites(q2, mem2, pushes[1..]);
    }
  }

  // ---- The object ----

  /** One more flag run of the loops over `fullness`. */
  method MarkRange(full: seq<bool>, from: nat, to: nat) returns (r: seq<bool>)
    requires |full| == 32 && to <= 32
    ensures r == Mark(full, from, to)
  {
    r := full;
    var index := from;
    while index < to
      invariant |r| == 32 && (index == from || index <= to)
      invariant index >= from && forall i | 0 <= i < 32 :: r[i] == (full[i] || from <= i < index)
    {
      r := r[index := true];
      index := index + 1;
    }
    forall i | 0 <= i < 32 ensures r[i] == Mark(full, from, to)[i] {
      assert r[i] == (full[i] || from <= i < to);
    }
    assert r == Mark(full, from, to);
  }

  /** The mask loop: bit i for an unset flag i. */
  method BuildMask(full: seq<bool>) returns (mask: Word)
    requires |full| == 32
    ensures mask == MaskUpTo(full, 32)
  {
    hide WithBit;
    mask := 0;
    for i := 0 to 32
      invariant mask == MaskUpTo(full, i)
    {
      mask := WithBit(mask, i, full[i]);
    }
  }

  /** The store queue (headers/Pipeline.h). */
  class Pipeline {
    const memory: Memory
    var id: nat
    var store: Store
    var queue: seq<Store>

    constructor (memory: Memory)
      ensures this.memory == memory && State() == QueueState([], NO_STORE, 0)
    {
      this.memory := memory;
      id, store, queue := 0, NO_STORE, [];
    }

    function State(): QueueState
      reads this
    {
      QueueState(queue, store, id)
    }

    method Push(addr: nat, size: nat, data: Word)
      modifies this
      ensures State() == Pushed(old(State()), addr, size, data)
    {
      id := id + 1;
      store := Store(addr, size, data, id);
    }

    method Update() returns (ok: bool)
      requires forall s: Store | s in queue + [store] :: s.size <= 4
      modifies this, memory.bytes
      ensures var r := Advance(old(State()), old(memory.Content()));
        ok == r.Ok? && (ok ==> (State(), memory.Content()) == r.value)
    {
      queue := queue + [store];
      var head := queue[0];
      assert head in queue;
      ok := true;
      if head.size > 0 {
        ok := memory.Write(head.data, head.addr, head.size);
      } else {
        assert Apply(head, memory.Content()) == memory.Content();
      }
      queue := queue[1..];
      store := NO_STORE;
    }

    /** The loop over the queue, oldest first; an entry older than the one before it is an exception. */
    method Collect(addr: nat, size: nat) returns (ok: bool, f: Forwarded)
      requires AccessSize(size) && WellSized(queue)
      ensures ok == InOrder(queue) && (ok ==> f == ForwardAll(queue, addr, size))
    {
      hide ForwardOne;
      f := NothingForwarded();
      var last := if queue == [] then 0 else queue[0].id;
      for k := 0 to |queue|
        invariant f.Valid() && f == ForwardAll(queue[..k], addr, size)
        invariant forall i | 0 < i < k :: queue[i - 1].id <= queue[i].id
        invariant queue != [] ==> last == queue[if k == 0 then 0 else k - 1].id
      {
        var s := queue[k];
        if s.id < last { return false, f; }
        last := s.id;
        assert queue[..k + 1][..k] == queue[..k];
        assert s in queue;
        f := Forward(addr, size, s, f);
      }
      assert queue[..|queue|] == queue;
      ok := true;
    }

    /** `searchData`: forwarded bytes plus the masked read of memory into `garbage`. */
    method SearchData(addr: nat, size: nat, garbage: Word) returns (ok: bool, data: Word)
      requires AccessSize(size) && WellSized(queue)
      ensures var r := SearchResult(queue, memory.Content(), addr, size, garbage);
        ok == r.Ok? && (ok ==> data == r.value)
    {
      hide WithFallback, PackSeq, FromMemory;
      var f;
      ok, f := Collect(addr, size);
      if !ok { return false, 0; }
      var mask := BuildMask(f.full);
      var d;
      ok, d := memory.Read(garbage, addr, size);
      data := WithFallback(PackSeq(f.data), mask, d);
    }

    /** The three cases of one loop iteration. */
    static method Forward(addr: nat, size: nat, s: Store, f: Forwarded) returns (r: Forwarded)
      requires f.Valid() && AccessSize(size) && (s.size == 0 || AccessSize(s.size))
      ensures r.Valid() && r == ForwardOne(addr, size, s, f)
    {
      var data, full := f.data, f.full;
      if addr <= s.addr + s.size <= addr + size {
        if s.addr <= addr {
          data := Copy(data, 0, s.data, addr - s.addr, s.addr + s.size - addr);
          full := MarkRange(full, 0, s.addr + s.size - addr);
        } else {
          data := Copy(data, s.addr - addr, s.data, 0, s.size);
          full := MarkRange(full, s.addr - addr, s.addr - addr + s.size);
        }
      } else if addr <= s.addr <= addr + size {
        data := Copy(data, s.addr - addr, s.data, 0, addr + size - s.addr);
        full := MarkRange(full, s.addr - addr, s.addr - addr + (addr + size - s.addr));
      } else if s.addr <= addr && addr + size <= s.addr + s.size {
        data := Copy(data, 0, s.data, addr - s.addr, size);
        full := MarkRange(full, 0, 32);
      }
      r := Forwarded(data, full);
    }
  }
}
