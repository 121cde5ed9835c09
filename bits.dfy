/** 32- and 64-bit words as the driver sees them, and the window-size mask
    `~(size - 1)` that both window encoders of drivers/pci/pcie_lx.c write. */
module Bits {

  /** A 32-bit register value (`u32`). */
  type Word = bv32

  /** A 64-bit address or size (`u64`, `pci_size_t`). */
  type Dword = bv64

  /** A C `uint` value. */
  type U32 = x: int | 0 <= x < 0x1_0000_0000

  /** `lower_32_bits(x)` */
  function Lower32(x: Dword): Word
  {
    (x & 0xFFFF_FFFF) as Word
  }

  /** `upper_32_bits(x)` */
  function Upper32(x: Dword): Word
  {
    (x >> 32) as Word
  }

  /** The u64 sum `a + b`, wrapping at 64 bits. */
  function Add64(a: Dword, b: Dword): Dword
  {
    a + b
  }

  /** The 64-bit value whose upper and lower halves are `hi` and `lo`. */
  function Join(hi: Word, lo: Word): Dword
  {
    ((hi as Dword) << 32) | (lo as Dword)
  }

  /** The window-size mask `~(size - 1)`, with u64 wrap-around
      (a size of 0 gives the mask 0). */
  function SizeMask(size: Dword): Dword
  {
    !(size - 1)
  }

  /** Reads a size back from a mask: the inverse of SizeMask. */
  function SizeOfMask(mask: Dword): Dword
  {
    !mask + 1
  }

  /** A C `u32` converted to `int`: values at or above 2^31 become negative. */
  function ToInt32(w: Word): int
  {
    if w < 0x8000_0000 then w as int else w as int - 0x1_0000_0000
  }

  /** A C `uint` converted to `int`. */
  function UintToInt(x: U32): (r: int)
    ensures -0x8000_0000 <= r < 0x8000_0000
    ensures x < 0x8000_0000 <==> r == x
    ensures x >= 0x8000_0000 ==> r == x - 0x1_0000_0000
  {
    if x < 0x8000_0000 then x else x - 0x1_0000_0000
  }

  /** A power of two: one bit set. */
  predicate IsPow2(size: Dword)
  {
    size != 0 && size & (size - 1) == 0
  }

  /** A mask made of ones above some bit and zeros below it. */
  predicate IsHighRun(mask: Dword)
  {
    !mask & (!mask + 1) == 0
  }

  /** Splitting a 64-bit word into halves loses nothing. */
  lemma SplitJoin(x: Dword)
    ensures Join(Upper32(x), Lower32(x)) == x
  {
  }

  /** Setting bit 0 of the low half sets bit 0 of the whole. */
  lemma JoinLowBit(x: Dword)
    ensures Join(Upper32(x), Lower32(x) | 1) == x | 1
  {
  }

  /** The size programmed as two mask halves is recovered from them. */
  lemma MaskWordsRoundTrip(size: Dword)
    ensures SizeOfMask(Join(Upper32(SizeMask(size)), Lower32(SizeMask(size)))) == size
  {
    SplitJoin(SizeMask(size));
  }

  /** The mask of a window is a contiguous run of high ones exactly when the
      size is a power of two (or 0, which the u64 arithmetic turns into the
      mask 0, a window over the whole address space). */
  lemma HighRunIffPow2(size: Dword)
    ensures IsHighRun(SizeMask(size)) <==> IsPow2(size) || size == 0
  {
  }

  /** For size 2^k the mask has bits k..63 set and bits 0..k-1 clear. */
  lemma Pow2Mask(k: nat)
    requires k < 64
    ensures IsPow2((1 as Dword) << k)
    ensures SizeMask((1 as Dword) << k) == 0xFFFF_FFFF_FFFF_FFFF << k
  {
  }

  /** A 4 KiB window: low mask word 0xFFFFF000, high mask word 0xFFFFFFFF. */
  lemma Mask4K()
    ensures Lower32(SizeMask(0x1000)) == 0xFFFF_F000
    ensures Upper32(SizeMask(0x1000)) == 0xFFFF_FFFF
  {
  }

  /** Below a power of two, a value has no bit in common with the mask. */
  lemma BelowPow2(size: Dword, d: Dword)
    requires IsPow2(size)
    requires d < size
    ensures d & SizeMask(size) == 0
  {
  }

  /** Adding an offset inside the window to an aligned base sets only bits
      below the mask. */
  lemma AlignedAdd(base: Dword, size: Dword, d: Dword)
    requires base & (size - 1) == 0
    requires d & SizeMask(size) == 0
    ensures base + d == base | d
    ensures (base + d) & SizeMask(size) == base
  {
  }

  /** An address that matches the mask lies inside the window. */
  lemma MatchInWindow(base: Dword, size: Dword, a: Dword)
    requires IsPow2(size)
    requires base & (size - 1) == 0
    requires a & SizeMask(size) == base
    ensures base <= a && a - base < size
  {
    assert a - base == a & (size - 1);
  }

  /** An address inside the window matches the mask. */
  lemma InWindowMatches(base: Dword, size: Dword, a: Dword)
    requires IsPow2(size)
    requires base & (size - 1) == 0
    requires base <= a && a - base < size
    ensures a & SizeMask(size) == base
  {
    BelowPow2(size, a - base);
    AlignedAdd(base, size, a - base);
  }

  /** What the mask means to the hardware: for a power-of-two size and a base
      aligned to it, an address matches the window (its masked bits equal the
      base) exactly when it lies in [base, base + size). */
  lemma MaskSelectsWindow(base: Dword, size: Dword, a: Dword)
    requires IsPow2(size)
    requires base & (size - 1) == 0
    ensures (a & SizeMask(size) == base) <==> (base <= a && a - base < size)
  {
    if a & SizeMask(size) == base {
      MatchInWindow(base, size, a);
    }
    if base <= a && a - base < size {
      InWindowMatches(base, size, a);
    }
  }

  /** A shift amount: C defines shifts of a 32-bit value by less than 32
      bits only. */
  type ShiftAmount = n: bv6 | n < 32

  /** `v << n`, one bit at a time. */
  function Shl(v: Word, n: ShiftAmount): Word
    decreases n
  {
    if n == 0 then v else Shl(v, n - 1) << 1
  }

  /** `v >> n`, one bit at a time. */
  function Shr(v: Word, n: ShiftAmount): Word
    decreases n
  {
    if n == 0 then v else Shr(v, n - 1) >> 1
  }

  /** `(v & m) << n`: a value masked, then shifted into a field. */
  function Place(v: Word, m: Word, n: ShiftAmount): Word
  {
    Shl(v & m, n)
  }

  /** `(v >> n) << n`: the bits of `v` below bit `n` cleared. */
  function AlignDown(v: Word, n: ShiftAmount): Word
  {
    Shl(Shr(v, n), n)
  }

  lemma {:induction false} ShlIsShift(v: Word, n: ShiftAmount)
    ensures Shl(v, n) == v << n
    decreases n
  {
    if n != 0 {
      ShlIsShift(v, n - 1);
    }
  }

  lemma {:induction false} ShrIsShift(v: Word, n: ShiftAmount)
    ensures Shr(v, n) == v >> n
    decreases n
  {
    if n != 0 {
      ShrIsShift(v, n - 1);
    }
  }

  /** Every bit of `v` lies in `f`. */
  predicate Inside(v: Word, f: Word)
  {
    v & !f == 0
  }

  /** The bits of `w` in the field `f` are `v`. */
  predicate FieldHolds(w: Word, f: Word, v: Word)
  {
    w & f == v
  }

  /** `w` and `prev` agree on every bit outside `f`. */
  predicate SameOutside(w: Word, prev: Word, f: Word)
  {
    w & !f == prev & !f
  }

  /** `w` and `prev` agree on every bit outside the fields `f`, `g` and `h`. */
  predicate SameOutside3(w: Word, prev: Word, f: Word, g: Word, h: Word)
  {
    w & !(f | g | h) == prev & !(f | g | h)
  }

  /** Every bit of `b` is set in `w`. */
  predicate HasBits(w: Word, b: Word)
  {
    w & b == b
  }

  /** `a` and `b` have no bit in common. */
  predicate Disjoint(a: Word, b: Word)
  {
    a & b == 0
  }

  lemma InsideTrans(a: Word, b: Word, c: Word)
    ensures Inside(a, b) && Inside(b, c) ==> Inside(a, c)
  {
  }

  /** Shifting keeps one value's bits inside another's. */
  lemma {:induction false} ShlInside(a: Word, b: Word, n: ShiftAmount)
    requires Inside(a, b)
    ensures Inside(Shl(a, n), Shl(b, n))
    decreases n
  {
    if n != 0 {
      ShlInside(a, b, n - 1);
    }
  }

  /** A masked value shifted into a field stays inside that field. */
  lemma PlaceInside(v: Word, m: Word, n: ShiftAmount)
    ensures Inside(Place(v, m, n), Shl(m, n))
  {
    ShlInside(v & m, m, n);
  }

  /** Shifting right then left by `n` leaves no bit below bit `n`. */
  lemma AlignDownInside(v: Word, n: ShiftAmount)
    ensures Inside(AlignDown(v, n), Shl(0xFFFF_FFFF, n))
  {
    ShlInside(Shr(v, n), 0xFFFF_FFFF, n);
  }

  /** A value with no bit below bit `n` survives shifting right then left
      by `n`. */
  lemma AlignDownKeeps(v: Word, n: ShiftAmount)
    requires Inside(v, Shl(0xFFFF_FFFF, n))
    ensures AlignDown(v, n) == v
  {
    ShlIsShift(0xFFFF_FFFF, n);
    ShrIsShift(v, n);
    ShlIsShift(v >> n, n);
  }

  /** The read-modify-write shape of the outbound control word: clear the
      fields `t`, `s`, `en` of `prev`, then OR in `a`, `b` and `en`. */
  function Merge(prev: Word, t: Word, s: Word, en: Word, a: Word, b: Word): Word
  {
    (prev & !(t | s | en)) | a | b | en
  }

  /** With `a` inside `t` and `t` apart from the other fields, the field `t`
      of a Merge holds `a`. */
  lemma MergeFirstField(prev: Word, t: Word, s: Word, en: Word, a: Word, b: Word)
    ensures Disjoint(t, s) && Disjoint(t, en) && Inside(a, t) && Inside(b, s)
            ==> FieldHolds(Merge(prev, t, s, en, a, b), t, a)
  {
  }

  /** With `b` inside `s` and `s` apart from the other fields, the field `s`
      of a Merge holds `b`. */
  lemma MergeSecondField(prev: Word, t: Word, s: Word, en: Word, a: Word, b: Word)
    ensures Disjoint(t, s) && Disjoint(s, en) && Inside(a, t) && Inside(b, s)
            ==> FieldHolds(Merge(prev, t, s, en, a, b), s, b)
  {
  }

  /** A Merge sets every bit of `en`. */
  lemma MergeHasEn(prev: Word, t: Word, s: Word, en: Word, a: Word, b: Word)
    ensures HasBits(Merge(prev, t, s, en, a, b), en)
  {
  }

  /** A Merge whose values lie inside their fields keeps every bit outside
      the three fields. */
  lemma MergeKeepsOthers(prev: Word, t: Word, s: Word, en: Word, a: Word, b: Word)
    ensures Inside(a, t) && Inside(b, s)
            ==> SameOutside3(Merge(prev, t, s, en, a, b), prev, t, s, en)
  {
  }

  /** The read-modify-write shape of the inbound control word: clear the
      fields `t` and `e` of `prev` one after the other, then OR in `a`, `b`
      and `c`. */
  function ClearThenSet(prev: Word, t: Word, e: Word, a: Word, b: Word, c: Word): Word
  {
    (((prev & !t) & !e) | a | b) | c
  }

  /** Every bit ORed in by ClearThenSet is set afterwards. */
  lemma ClearThenSetHasA(prev: Word, t: Word, e: Word, a: Word, b: Word, c: Word)
    ensures HasBits(ClearThenSet(prev, t, e, a, b, c), a)
  {
  }

  lemma ClearThenSetHasB(prev: Word, t: Word, e: Word, a: Word, b: Word, c: Word)
    ensures HasBits(ClearThenSet(prev, t, e, a, b, c), b)
  {
  }

  lemma ClearThenSetHasC(prev: Word, t: Word, e: Word, a: Word, b: Word, c: Word)
    ensures HasBits(ClearThenSet(prev, t, e, a, b, c), c)
  {
  }

  /** A bit outside the cleared fields and the ORed values keeps its value. */
  lemma ClearThenSetKeepsOthers(prev: Word, t: Word, e: Word, a: Word, b: Word, c: Word)
    ensures SameOutside(ClearThenSet(prev, t, e, a, b, c), prev, t | e | a | b | c)
  {
  }

  /** When nothing else is ORed into a cleared field, the field holds exactly
      what ClearThenSet put there. */
  lemma ClearThenSetFirstField(prev: Word, t: Word, e: Word, a: Word, b: Word, c: Word)
    ensures Inside(a, t) && Disjoint(b, t) && Disjoint(c, t)
            ==> FieldHolds(ClearThenSet(prev, t, e, a, b, c), t, a)
  {
  }

  /** Replace a field: clear `f` in `prev`, then OR in `v`. */
  function Replace(prev: Word, f: Word, v: Word): Word
  {
    (prev & !f) | v
  }

  /** When `v` lies inside the field, the field holds `v` afterwards. */
  lemma ReplaceSetsField(prev: Word, f: Word, v: Word)
    ensures Inside(v, f) ==> FieldHolds(Replace(prev, f, v), f, v)
  {
  }

  /** When `v` lies inside the field, the bits outside it are unchanged. */
  lemma ReplaceKeepsOthers(prev: Word, f: Word, v: Word)
    ensures Inside(v, f) ==> SameOutside(Replace(prev, f, v), prev, f)
  {
  }

  /** `val |= bits` sets the bits and keeps every other bit. */
  lemma OrSets(prev: Word, bits: Word)
    ensures HasBits(prev | bits, bits)
  {
  }

  lemma OrKeepsOthers(prev: Word, bits: Word)
    ensures SameOutside(prev | bits, prev, bits)
  {
  }

  /** Setting more bits keeps the ones already set. */
  lemma OrKeepsBits(prev: Word, have: Word, bits: Word)
    ensures HasBits(prev, have) ==> HasBits(prev | bits, have)
  {
  }

}
