/** rt_malloc_align and rt_free_align (rt-thread/src/kservice.c, lines 1622-1683): where the aligned
    pointer lies in the block rt_malloc returned, and for which alignments it is aligned; and the
    mask of RT_ALIGN (rt-thread/include/rtdef.h:329). */
module MallocAlign {
  import opened Alignment
  import opened Bits
  import opened Memory

  const WORD_SIZE := 4

  /** `(n + 3) & ~3`. */
  function WordAlign(n: nat): nat {
    AndNot(n + 3, 3)
  }

  /** The size asked of rt_malloc. */
  function TotalSize(size: nat, align: nat): nat {
    WordAlign(size) + WordAlign(align)
  }

  /** The pointer returned for the block at `ptr`, with the alignment already a multiple of the
      word: an aligned block is left by a whole alignment, so that there is room for the word that
      keeps the block's own address. */
  function AlignPointer(ptr: nat, align: nat): nat
    requires align > 0
  {
    if And(ptr, align - 1) == 0 then ptr + align else AndNot(ptr + (align - 1), align - 1)
  }

  ghost predicate PowerOfTwo(n: nat) {
    exists k: nat :: n == Mask(k)
  }

  /** The low `k` bits are the remainder by `2^k`. */
  lemma {:induction false} LowBits(n: nat, k: nat)
    ensures And(n, Mask(k) - 1) == n % Mask(k) && AndNot(n, Mask(k) - 1) == n - n % Mask(k)
    decreases k
  {
    if k == 0 {
      NoBits(n);
    } else {
      LowBits(n / 2, k - 1);
      HalfMod(n, Mask(k - 1));
      HalfMask(n, k);
    }
  }

  lemma NoBits(n: nat)
    ensures And(n, 0) == 0 && AndNot(n, 0) == n && n % 1 == 0
  {}

  lemma HalfMask(n: nat, k: nat)
    requires k > 0
    ensures And(n, Mask(k) - 1) == n % 2 + 2 * And(n / 2, Mask(k - 1) - 1)
    ensures AndNot(n, Mask(k) - 1) == 2 * AndNot(n / 2, Mask(k - 1) - 1)
  {
    var m := Mask(k) - 1;
    assert m % 2 == 1 && m / 2 == Mask(k - 1) - 1;
  }

  lemma WordAlignIs(n: nat)
    ensures n <= WordAlign(n) < n + 4 && WordAlign(n) % 4 == 0
  {
    assert Mask(2) == 4 by { assert Mask(1) == 2; }
    LowBits(n + 3, 2);
  }

  lemma {:induction false} FourDivides(k: nat)
    requires k >= 2
    ensures Mask(k) % 4 == 0 && Mask(k) >= 4
  {
    if k == 2 { assert Mask(1) == 2; } else { FourDivides(k - 1); }
  }

  /** `n` rounded up to a multiple of `a`. */
  function Ceiling(n: nat, a: nat): int
    requires a > 0
  {
    n + (a - 1) - (n + (a - 1)) % a
  }

  lemma CeilingFacts(n: nat, a: nat)
    requires a > 0
    ensures n <= Ceiling(n, a) < n + a && Ceiling(n, a) % a == 0 && (n % a != 0 ==> n < Ceiling(n, a))
  {
    var up := n + (a - 1);
    DivModUnique(Ceiling(n, a), a, up / a, 0);
    if n % a != 0 {
      assert up == (n / a + 1) * a + (n % a - 1);
      DivModUnique(up, a, n / a + 1, n % a - 1);
    }
  }

  lemma PlusOne(n: nat, a: nat)
    requires a > 0 && n % a == 0
    ensures (n + a) % a == 0
  {
    var q := n / a;
    assert n + a == (q + 1) * a + 0;
    DivModUnique(n + a, a, q + 1, 0);
  }

  /** AlignPointer for a power of two, without bits. */
  lemma PointerIs(ptr: nat, k: nat)
    ensures AlignPointer(ptr, Mask(k)) == if ptr % Mask(k) == 0 then ptr + Mask(k) else Ceiling(ptr, Mask(k))
  {
    hide And, AndNot;
    LowBits(ptr, k);
    LowBits(ptr + (Mask(k) - 1), k);
  }

  /** For a power of two of at least a word: the pointer is aligned, the word in front of it lies in
      the block too, and so does every byte asked for. */
  lemma PlacedInside(ptr: nat, size: nat, k: nat)
    requires k >= 2 && ptr % WORD_SIZE == 0
    ensures var a := Mask(k); var p := AlignPointer(ptr, a);
      p % a == 0 && ptr + WORD_SIZE <= p && p + size <= ptr + TotalSize(size, a)
  {
    hide Mask, AlignPointer, WordAlign, Ceiling;
    var a := Mask(k);
    FourDivides(k);
    WordAlignIs(size);
    WordAlignIs(a);
    PointerIs(ptr, k);
    if ptr % a == 0 { PlusOne(ptr, a); } else { CeilingFacts(ptr, a); MultipleOfFour(Ceiling(ptr, a), k); }
  }

  lemma {:induction false} MultipleOfFour(p: nat, k: nat)
    requires k >= 2 && p % Mask(k) == 0
    ensures p % 4 == 0
  {
    FourDivides(k);
    var q, r := p / Mask(k), Mask(k) / 4;
    assert p == q * Mask(k) == q * (4 * r) == 4 * (q * r);
  }

  /** Bits of a number below `2^k` do not meet bit `k`. */
  lemma {:induction false} AboveAll(m: nat, k: nat)
    requires m < Mask(k)
    ensures And(Mask(k), m) == 0
  {
    if k > 0 && m > 0 { AboveAll(m / 2, k - 1); }
  }

  /** The least `k` with `n <= 2^k`. */
  function Log(n: nat): (k: nat)
    requires n > 0
    ensures n <= Mask(k) && (n == 1 || Mask(k) < 2 * n)
  {
    if n == 1 then 0 else 1 + Log((n + 1) / 2)
  }

  /** The pointer rt_malloc_align returns for the block at `ptr`: the alignment is first rounded up
      to a multiple of the word. */
  function Returned(ptr: nat, align: nat): nat
    requires align > 0
  {
    WordAlignIs(align);
    AlignPointer(ptr, WordAlign(align))
  }

  lemma {:induction false} AndNotIs(n: nat, m: nat)
    ensures AndNot(n, m) == n - And(n, m)
  {
    if n > 0 && m > 0 { AndNotIs(n / 2, m / 2); }
  }

  /** What is cleared is clear, and no more than `m` is cleared. */
  lemma {:induction false} ClearedIsClear(n: nat, m: nat)
    ensures And(AndNot(n, m), m) == 0 && And(n, m) <= m
  {
    if n > 0 && m > 0 {
      ClearedIsClear(n / 2, m / 2);
      assert AndNot(n, m) / 2 == AndNot(n / 2, m / 2);
    }
  }

  lemma ClearsWord(n: nat, m: nat)
    requires m % 4 == 3
    ensures AndNot(n, m) % 4 == 0
  {
    if n > 0 {
      assert AndNot(n, m) == 2 * AndNot(n / 2, m / 2) && (m / 2) % 2 == 1;
      if n / 2 > 0 { assert AndNot(n / 2, m / 2) == 2 * AndNot(n / 2 / 2, m / 2 / 2); }
    }
  }

  /** Whatever the alignment, a pointer that is not left where the mask finds it moves up. */
  lemma MovesUp(ptr: nat, m: nat)
    requires And(ptr, m) != 0
    ensures ptr < AndNot(ptr + m, m) <= ptr + m
  {
    AndNotIs(ptr + m, m);
    ClearedIsClear(ptr + m, m);
  }

  /** Whatever the alignment: the pointer returned is a word boundary, the word in front of it lies in
      the block, and so does every byte asked for. */
  lemma AlwaysInside(ptr: nat, size: nat, a: nat)
    requires a > 0 && ptr % WORD_SIZE == 0
    ensures var p := Returned(ptr, a);
      p % WORD_SIZE == 0 && ptr + WORD_SIZE <= p && p + size <= ptr + TotalSize(size, a)
  {
    hide WordAlign, And, AndNot;
    WordAlignIs(a);
    WordAlignIs(size);
    var m := WordAlign(a) - 1;
    if And(ptr, m) == 0 {
      Words(ptr, WordAlign(a));
    } else {
      MovesUp(ptr, m);
      Words(ptr, WordAlign(a));
      ClearsWord(ptr + m, m);
      Words(ptr, Returned(ptr, a));
    }
  }

  lemma Words(x: nat, y: nat)
    requires x % WORD_SIZE == 0 && y % WORD_SIZE == 0
    ensures (x + y) % WORD_SIZE == 0 && (x < y ==> x + WORD_SIZE <= y)
    ensures y > 0 ==> y >= WORD_SIZE && (y - 1) % 4 == 3
  {
    var p, q := x / 4, y / 4;
    assert x == p * 4 + 0 && y == q * 4 + 0;
    hide *;
    DivModUnique(x + y, 4, p + q, 0);
    if y > 0 { DivModUnique(y - 1, 4, q - 1, 3); }
  }

  /** The memory once the address of the block is stored in front of the pointer returned. */
  function Stored(m: Memory<nat>, ptr: nat, a: nat): Memory<nat>
    requires a > 0 && ptr % WORD_SIZE == 0
  {
    AlwaysInside(ptr, 0, a);
    PutHeader(m, WORD_SIZE, Returned(ptr, a) - WORD_SIZE, ptr)
  }

  /** The stores of a client, each an address and a byte. */
  function Written(m: Memory<nat>, writes: seq<(nat, Byte)>): Memory<nat>
    decreases |writes|
  {
    if writes == [] then m else Written(PutByte(m, WORD_SIZE, writes[0].0, writes[0].1), writes[1..])
  }

  /** The word rt_free_align reads in front of `p`. */
  function ReadBack(m: Memory<nat>, p: nat): Option<nat> {
    if p >= WORD_SIZE && p - WORD_SIZE in m.headers then Some(m.headers[p - WORD_SIZE]) else None
  }

  lemma {:induction false} WritesBehind(m: Memory<nat>, p: nat, writes: seq<(nat, Byte)>)
    requires forall w :: w in writes ==> p <= w.0
    ensures ReadBack(Written(m, writes), p) == ReadBack(m, p)
    decreases |writes|
  {
    if writes != [] {
      assert writes[0] in writes;
      WritesBehind(PutByte(m, WORD_SIZE, writes[0].0, writes[0].1), p, writes[1..]);
    }
  }

  /** Whatever a client stores in the bytes it asked for, rt_free_align finds the block that rt_malloc
      returned. */
  lemma FreeFindsBlock(m: Memory<nat>, ptr: nat, size: nat, a: nat, writes: seq<(nat, Byte)>)
    requires a > 0 && ptr % WORD_SIZE == 0
    requires forall w :: w in writes ==> Returned(ptr, a) <= w.0 < Returned(ptr, a) + size
    ensures ReadBack(Written(Stored(m, ptr, a), writes), Returned(ptr, a)) == Some(ptr)
  {
    AlwaysInside(ptr, size, a);
    WritesBehind(Stored(m, ptr, a), Returned(ptr, a), writes);
  }

  /** A block at a power of two no less than the alignment is taken for aligned. */
  lemma TakenForAligned(a: nat, k: nat)
    requires 0 < a <= Mask(k)
    ensures AlignPointer(Mask(k), a) == Mask(k) + a
  {
    AboveAll(a - 1, k);
  }

  /** Only powers of two divide powers of two. */
  lemma {:induction false} DividesPower(a: nat, q: nat, k: nat)
    requires a * q == Mask(k)
    ensures PowerOfTwo(a)
  {
    hide PowerOfTwo;
    if k == 0 {
      UnitFactor(a, q);
      Powers(a, 0);
    } else if a % 2 == 0 {
      HalveLeft(a, q, Mask(k - 1));
      DividesPower(a / 2, q, k - 1);
      Powers(a, 0);
    } else {
      HalveRight(a, q, Mask(k - 1));
      DividesPower(a, q / 2, k - 1);
    }
  }

  lemma Powers(a: nat, k: nat)
    ensures a == Mask(k) ==> PowerOfTwo(a)
    ensures a % 2 == 0 && PowerOfTwo(a / 2) ==> PowerOfTwo(a)
  {
    if a % 2 == 0 && PowerOfTwo(a / 2) {
      var j: nat :| a / 2 == Mask(j);
      assert a == Mask(j + 1);
    }
  }

  lemma UnitFactor(a: nat, q: nat)
    requires a * q == 1
    ensures a == 1
  {
    assert (a - 1) * q == 1 - q;
  }

  lemma HalveLeft(a: nat, q: nat, m: nat)
    requires a % 2 == 0 && a * q == 2 * m
    ensures (a / 2) * q == m
  {
    assert a * q == 2 * ((a / 2) * q);
  }

  lemma HalveRight(a: nat, q: nat, m: nat)
    requires a % 2 == 1 && a * q == 2 * m
    ensures q % 2 == 0 && a * (q / 2) == m
  {
    OddTimes(a, q);
    assert q * a == a * q;
    HalveLeft(q, a, m);
    assert (q / 2) * a == a * (q / 2);
  }

  lemma OddTimes(a: nat, q: nat)
    requires a % 2 == 1
    ensures (a * q) % 2 == q % 2
  {
    assert a * q == 2 * ((a / 2) * q) + q;
  }

  /** Two multiples apart by a power of two are multiples of a power of two only. */
  lemma ApartByPower(x: nat, a: nat, k: nat)
    requires a > 0 && x % a == 0 && (x + Mask(k)) % a == 0
    ensures PowerOfTwo(a)
  {
    var p, q := x / a, (x + Mask(k)) / a;
    assert x == a * p && x + Mask(k) == a * q;
    assert a * (q - p) == Mask(k);
    assert q < p ==> a * (q - p) <= 0;
    DividesPower(a, q - p, k);
  }

  /** If the alignment is no power of two, the block at one of any two successive powers of two from
      the rounded alignment on is not aligned as asked. */
  lemma Misaligned(a: nat, k: nat)
    requires a > 0 && !PowerOfTwo(a) && WordAlign(a) <= Mask(k)
    ensures Returned(Mask(k), a) % a != 0 || Returned(Mask(k + 1), a) % a != 0
  {
    hide PowerOfTwo, AlignPointer;
    WordAlignIs(a);
    TakenForAligned(WordAlign(a), k);
    TakenForAligned(WordAlign(a), k + 1);
    assert Mask(k + 1) == Mask(k) + Mask(k);
    if (Mask(k) + WordAlign(a)) % a == 0 && (Mask(k + 1) + WordAlign(a)) % a == 0 { ApartByPower(Mask(k) + WordAlign(a), a, k); }
  }

  /** Rounding a power of two up to the word gives a power of two. */
  lemma WordAlignPower(j: nat)
    ensures WordAlign(Mask(j)) == Mask(if j >= 2 then j else 2)
  {
    hide WordAlign;
    assert Mask(0) == 1 && Mask(1) == 2 && Mask(2) == 4;
    WordAlignIs(Mask(j));
    if j >= 2 { FourDivides(j); }
  }

  /** A power of two is honoured: it divides its rounding up to the word. */
  lemma Honoured(ptr: nat, j: nat)
    requires ptr % WORD_SIZE == 0
    ensures Returned(ptr, Mask(j)) % Mask(j) == 0
  {
    hide AlignPointer, WordAlign, TotalSize, Mask;
    WordAlignPower(j);
    PlacedInside(ptr, 0, if j >= 2 then j else 2);
    SmallPowers(Returned(ptr, Mask(j)), j);
  }

  lemma SmallPowers(p: nat, j: nat)
    ensures j < 2 && p % Mask(2) == 0 ==> p % Mask(j) == 0
  {
    assert Mask(0) == 1 && Mask(1) == 2 && Mask(2) == 4;
    FourIsEven(p);
  }

  lemma FourIsEven(p: nat)
    ensures p % 4 == 0 ==> p % 2 == 0
  {
    var q, r := p / 4, p % 4;
    assert p == 4 * q + r;
    hide *;
    if r == 0 { DivModUnique(p, 2, 2 * q, 0); }
  }

  /** rt_malloc_align honours an alignment for every block rt_malloc may return if and only if the
      alignment is a power of two. */
  lemma AlignedIffPowerOfTwo(a: nat)
    requires a > 0
    ensures (forall ptr: nat :: ptr % WORD_SIZE == 0 ==> Returned(ptr, a) % a == 0) <==> PowerOfTwo(a)
  {
    hide Returned, WordAlign;
    if PowerOfTwo(a) {
      var j: nat :| a == Mask(j);
      forall ptr: nat | ptr % WORD_SIZE == 0 ensures Returned(ptr, a) % a == 0 { Honoured(ptr, j); }
    } else {
      WordAlignIs(a);
      var k := Log(WordAlign(a));
      assert Mask(0) == 1 && Mask(1) == 2;
      FourDivides(k);
      FourDivides(k + 1);
      Misaligned(a, k);
    }
  }

  /** For instance, a block at address 32 asked for an alignment of 24 is returned at 56. */
  lemma TwentyFourIsMissed()
    ensures Returned(32, 24) == 56 && 56 % 24 != 0
  {
    assert Mask(0) == 1 && Mask(1) == 2 && Mask(2) == 4 && Mask(3) == 8 && Mask(4) == 16 && Mask(5) == 32;
    WordAlignIs(24);
    TakenForAligned(24, 5);
  }

  // ---------------------------------------------------------------- RT_ALIGN

  /** RT_ALIGN as it is written, `(n + a - 1) & ~(a - 1)`. */
  function RtAlign(n: nat, a: nat): nat
    requires a > 0
  {
    AndNot(n + (a - 1), a - 1)
  }

  /** The mask of RT_ALIGN rounds up to a multiple, for every size, if and only if the alignment is
      a power of two. */
  lemma RtAlignIffPowerOfTwo(a: nat)
    requires a > 0
    ensures (forall n: nat :: RtAlign(n, a) == Align(n, a)) <==> PowerOfTwo(a)
  {
    hide AndNot, And, Align, Multiple;
    if PowerOfTwo(a) {
      var k: nat :| a == Mask(k);
      forall n: nat ensures RtAlign(n, a) == Align(n, a) { MaskRounds(n, k); }
    } else {
      var k := Log(a);
      var n := Mask(k) - (a - 1);
      AboveAll(a - 1, k);
      AndNotIs(Mask(k), a - 1);
      assert RtAlign(n, a) == Mask(k);
      MultipleOfPower(a, k);
    }
  }

  lemma MultipleOfPower(a: nat, k: nat)
    requires a > 0
    ensures Multiple(Mask(k), a) ==> PowerOfTwo(a)
  {
    if Multiple(Mask(k), a) {
      var q := MultipleHasQuotient(Mask(k), a);
      assert a * q == Mask(k);
      DividesPower(a, q, k);
    }
  }

  lemma MaskRounds(n: nat, k: nat)
    ensures RtAlign(n, Mask(k)) == Align(n, Mask(k))
  {
    hide AndNot, And, Mask, Align;
    LowBits(n + (Mask(k) - 1), k);
    AlignIsCeiling(n, Mask(k));
  }

  lemma AlignIsCeiling(n: nat, a: nat)
    requires a > 0
    ensures Align(n, a) == n + (a - 1) - (n + (a - 1)) % a
  {
    hide Align;
    AlignIsMacro(n, a);
    var up := n + (a - 1);
    assert up == n + a - 1;
    assert up == up / a * a + up % a;
  }
}
