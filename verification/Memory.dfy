/** Byte-addressed memory, little-endian words and the failures a cycle can raise (src/Memory.cpp). */
module Memories {
  import opened Isa

  /** The source's exceptions. */
  datatype Fault = OutOfMemory | LoadHazard | QueueOrder

  datatype Outcome<+T> = Ok(value: T) | Err(fault: Fault) {
    predicate IsFailure() { Err? }

    function PropagateFailure<U>(): Outcome<U>
      requires Err?
    {
      Err(fault)
    }

    function Extract(): T
      requires Ok?
    {
      value
    }
  }

  type Mem = seq<Byte>

  /** A 32-bit address as an index. A negative int32 address is at least 2^31: out of every memory modelled. */
  function Index(w: Word): nat { w as nat }

  predicate InBounds(mem: Mem, a: nat, n: nat) { a + n <= |mem| }

  function ByteAt(mem: Mem, a: nat): Byte { if a < |mem| then mem[a] else 0 }

  function Pack(b0: Byte, b1: Byte, b2: Byte, b3: Byte): Word {
    (b0 as Word) | ((b1 as Word) << 8) | ((b2 as Word) << 16) | ((b3 as Word) << 24)
  }

  function ByteOf(w: Word, k: nat): Byte {
    if k == 0 then (w & 0xff) as Byte
    else if k == 1 then ((w >> 8) & 0xff) as Byte
    else if k == 2 then ((w >> 16) & 0xff) as Byte
    else if k == 3 then ((w >> 24) & 0xff) as Byte
    else 0
  }

  function Bytes(w: Word): (b: seq<Byte>)
    ensures |b| == 4
  {
    [ByteOf(w, 0), ByteOf(w, 1), ByteOf(w, 2), ByteOf(w, 3)]
  }

  function ReadByte(mem: Mem, a: nat, n: nat, i: nat): Byte { if i < n then ByteAt(mem, a + i) else 0 }

  /** The first `n` bytes at `a` as a word, the bytes above them 0. */
  function ReadWord(mem: Mem, a: nat, n: nat): Word {
    Pack(ReadByte(mem, a, n, 0), ReadByte(mem, a, n, 1), ReadByte(mem, a, n, 2), ReadByte(mem, a, n, 3))
  }

  /** Memory after the low `n` bytes of `w` are copied to `a`; unchanged when the range does not fit. */
  function WriteWord(mem: Mem, a: nat, n: nat, w: Word): (r: Mem)
    ensures |r| == |mem|
  {
    if n > 4 || !InBounds(mem, a, n) then mem
    else mem[..a] + Bytes(w)[..n] + mem[a + n..]
  }

  /** One byte of memory after a write: written inside the range, untouched outside. */
  lemma WriteWordByte(mem: Mem, a: nat, n: nat, w: Word, p: nat)
    requires n <= 4 && InBounds(mem, a, n)
    ensures ByteAt(WriteWord(mem, a, n, w), p) == if a <= p < a + n then ByteOf(w, p - a) else ByteAt(mem, p)
  {
  }

  lemma PackBytes(b0: Byte, b1: Byte, b2: Byte, b3: Byte)
    ensures ByteOf(Pack(b0, b1, b2, b3), 0) == b0
    ensures ByteOf(Pack(b0, b1, b2, b3), 1) == b1
    ensures ByteOf(Pack(b0, b1, b2, b3), 2) == b2
    ensures ByteOf(Pack(b0, b1, b2, b3), 3) == b3
  {
  }

  lemma PackOf(w: Word)
    ensures Pack(ByteOf(w, 0), ByteOf(w, 1), ByteOf(w, 2), ByteOf(w, 3)) == w
  {
  }

  /** A word written is read back, and a read beside it sees nothing of the write. */
  lemma ReadBack(mem: Mem, a: nat, w: Word, b: nat, n: nat)
    requires InBounds(mem, a, 4) && n <= 4
    ensures ReadWord(WriteWord(mem, a, 4, w), a, 4) == w
    ensures b + n <= a || a + 4 <= b ==> ReadWord(WriteWord(mem, a, 4, w), b, n) == ReadWord(mem, b, n)
  {
    hide Pack, ByteOf;
    PackOf(w);
  }

  /** A word after `memory.read` into it: the bytes read, and above them what it held before. */
  function FromMemory(mem: Mem, addr: nat, size: nat, garbage: Word): Word {
    Pack(if size > 0 then ByteAt(mem, addr) else ByteOf(garbage, 0),
         if size > 1 then ByteAt(mem, addr + 1) else ByteOf(garbage, 1),
         if size > 2 then ByteAt(mem, addr + 2) else ByteOf(garbage, 2),
         if size > 3 then ByteAt(mem, addr + 3) else ByteOf(garbage, 3))
  }

  lemma FromMemoryIsRead(mem: Mem, addr: nat, size: nat)
    ensures FromMemory(mem, addr, size, 0) == ReadWord(mem, addr, size)
  {
    hide Pack;
    assert ByteOf(0, 0) == 0 && ByteOf(0, 1) == 0 && ByteOf(0, 2) == 0 && ByteOf(0, 3) == 0;
  }

  /** The simulated memory (headers/Memory.h). An access that does not fit is the source's exception. */
  class Memory {
    const bytes: array<Byte>

    constructor (size: nat)
      ensures fresh(bytes) && bytes.Length == size && forall i | 0 <= i < size :: bytes[i] == 0
    {
      bytes := new Byte[size](_ => 0);
    }

    function Content(): Mem
      reads bytes
    {
      bytes[..]
    }

    /** `read`: the low `n` bytes of the result come from memory, the others from `into`. */
    method Read(into: Word, addr: nat, n: nat) returns (ok: bool, data: Word)
      requires n <= 4
      ensures ok <==> InBounds(Content(), addr, n)
      ensures ok ==> data == FromMemory(Content(), addr, n, into)
    {
      if addr + n > bytes.Length { return false, into; }
      var b := Bytes(into);
      for k := 0 to n
        invariant |b| == 4
        invariant forall i | 0 <= i < 4 :: b[i] == if i < k then bytes[addr + i] else ByteOf(into, i)
      {
        b := b[k := bytes[addr + k]];
      }
      ok, data := true, Pack(b[0], b[1], b[2], b[3]);
    }

    /** `write`: `n` bytes of `w` replace the bytes at `addr`. */
    method Write(w: Word, addr: nat, n: nat) returns (ok: bool)
      requires n <= 4
      modifies bytes
      ensures ok <==> InBounds(old(Content()), addr, n)
      ensures Content() == WriteWord(old(Content()), addr, n, w)
    {
      if addr + n > bytes.Length { return false; }
      for k := 0 to n
        invariant bytes[..] == old(bytes[..addr]) + Bytes(w)[..k] + old(bytes[addr + k..])
      {
        bytes[addr + k] := Bytes(w)[k];
      }
      ok := true;
    }
  }
}
