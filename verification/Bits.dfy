/** Bits of machine words as natural numbers, and the two implementations of __rt_ffs
    (rt-thread/src/kservice.c, lines 1687-1755). */
module Bits {
  import opened Alignment

  /** Bit `k` of `n` is set. */
  predicate Has(n: nat, k: nat)
    decreases k
  {
    if k == 0 then n % 2 == 1 else Has(n / 2, k - 1)
  }

  /** `1 << k`. */
  function Mask(k: nat): (m: nat)
    ensures m > 0
  {
    if k == 0 then 1 else 2 * Mask(k - 1)
  }

  function Or(a: nat, b: nat): nat {
    if a == 0 then b else if b == 0 then a else (if a % 2 == 1 || b % 2 == 1 then 1 else 0) + 2 * Or(a / 2, b / 2)
  }

  function And(a: nat, b: nat): nat {
    if a == 0 || b == 0 then 0 else (if a % 2 == 1 && b % 2 == 1 then 1 else 0) + 2 * And(a / 2, b / 2)
  }

  function Xor(a: nat, b: nat): nat {
    if a == 0 then b else if b == 0 then a else (if a % 2 != b % 2 then 1 else 0) + 2 * Xor(a / 2, b / 2)
  }

  /** `a & ~b`. */
  function AndNot(a: nat, b: nat): nat {
    if a == 0 then 0 else if b == 0 then a else (if a % 2 == 1 && b % 2 == 0 then 1 else 0) + 2 * AndNot(a / 2, b / 2)
  }

  lemma {:induction false} ZeroHasNone(k: nat)
    ensures !Has(0, k)
  {
    if k > 0 { ZeroHasNone(k - 1); }
  }

  lemma {:induction false} HasMask(j: nat, k: nat)
    ensures Has(Mask(j), k) <==> j == k
  {
    if j == 0 {
      if k > 0 { ZeroHasNone(k - 1); }
    } else if k > 0 {
      HasMask(j - 1, k - 1);
    }
  }

  lemma {:induction false} HasOr(a: nat, b: nat, k: nat)
    ensures Has(Or(a, b), k) <==> Has(a, k) || Has(b, k)
    decreases k
  {
    if a == 0 || b == 0 { ZeroHasNone(k); } else if k > 0 { HasOr(a / 2, b / 2, k - 1); }
  }

  lemma {:induction false} HasAndNot(a: nat, b: nat, k: nat)
    ensures Has(AndNot(a, b), k) <==> Has(a, k) && !Has(b, k)
    decreases k
  {
    if a == 0 || b == 0 { ZeroHasNone(k); } else if k > 0 { HasAndNot(a / 2, b / 2, k - 1); }
  }

  /** Index of the lowest set bit. */
  function Lowest(n: nat): nat
    requires n > 0
  {
    if n % 2 == 1 then 0 else 1 + Lowest(n / 2)
  }

  /** What __rt_ffs promises: the number of the lowest set bit, counted from 1, or 0 for none. */
  function Ffs(n: nat): nat {
    if n == 0 then 0 else Lowest(n) + 1
  }

  lemma {:induction false} LowestIsLeast(n: nat)
    requires n > 0
    ensures Has(n, Lowest(n)) && forall k: nat :: k < Lowest(n) ==> !Has(n, k)
  {
    if n % 2 == 0 {
      LowestIsLeast(n / 2);
      forall k: nat | k < Lowest(n) ensures !Has(n, k) { if k > 0 { assert !Has(n / 2, k - 1); } }
    }
  }

  lemma {:induction false} LowestBelow(n: nat, w: nat)
    requires 0 < n < Mask(w)
    ensures Lowest(n) < w
  {
    if n % 2 == 0 { LowestBelow(n / 2, w - 1); }
  }

  /** `value & (value - 1) ^ value` leaves only the lowest set bit. */
  lemma {:induction false} IsolatesLowest(n: nat)
    requires n > 0
    ensures Xor(And(n, n - 1), n) == Mask(Lowest(n))
  {
    if n % 2 == 1 {
      AndPred(n);
      XorPred(n);
    } else {
      hide And, Xor;
      IsolatesLowest(n / 2);
      AndEven(n / 2);
      XorDouble(And(n / 2, n / 2 - 1), n / 2);
    }
  }

  lemma AndEven(m: nat)
    requires m > 0
    ensures And(2 * m, 2 * m - 1) == 2 * And(m, m - 1)
  {
    assert (2 * m - 1) / 2 == m - 1 && (2 * m - 1) % 2 == 1;
  }

  lemma {:induction false} AndSelf(n: nat)
    ensures And(n, n) == n
  {
    if n > 0 { AndSelf(n / 2); }
  }

  lemma AndPred(n: nat)
    requires n % 2 == 1
    ensures And(n, n - 1) == n - 1
  {
    AndSelf(n / 2);
  }

  lemma {:induction false} XorSelf(n: nat)
    ensures Xor(n, n) == 0
  {
    if n > 0 { XorSelf(n / 2); }
  }

  lemma XorPred(n: nat)
    requires n % 2 == 1
    ensures Xor(n - 1, n) == 1
  {
    XorSelf(n / 2);
  }

  lemma XorDouble(a: nat, b: nat)
    ensures Xor(2 * a, 2 * b) == 2 * Xor(a, b)
  {}

  // ---------------------------------------------------------------- RT_USING_TINY_FFS

  const TINY: seq<seq<nat>> := [
    [0, 1, 2, 27, 3, 24, 28, 32],
    [4, 17, 25, 31, 29, 12, 32, 14],
    [5, 8, 18, 32, 26, 23, 32, 16],
    [30, 11, 13, 7, 32, 22, 15, 10],
    [6, 21, 9, 20, 19]]

  /** __lowest_bit_bitmap, laid out in rows of eight as in the source. */
  function TinyEntry(i: nat): nat
    requires i < 37
  {
    TINY[i / 8][i % 8]
  }

  /** `value & (value - 1) ^ value`: for 0 the subtraction wraps, and the conjunction is 0 again. */
  function Isolated(value: nat): nat {
    Xor(And(value, if value == 0 then 0xFFFF_FFFF else value - 1), value)
  }

  function TinyFfs(value: nat): nat {
    TinyEntry(Isolated(value) % 37)
  }

  /** `2^k` modulo 37. */
  function Residue(k: nat): (r: nat)
    ensures r < 37
  {
    if k == 0 then 1 else if 2 * Residue(k - 1) < 37 then 2 * Residue(k - 1) else 2 * Residue(k - 1) - 37
  }

  lemma {:induction false} ResidueIsMod(k: nat)
    ensures Mask(k) % 37 == Residue(k)
  {
    if k > 0 {
      ResidueIsMod(k - 1);
      DoubleMod(Mask(k - 1));
    }
  }

  lemma DoubleMod(y: nat)
    ensures 2 * y % 37 == if 2 * (y % 37) < 37 then 2 * (y % 37) else 2 * (y % 37) - 37
  {}

  /** The residues of the 32 powers of two modulo 37 are different, and the table inverts them. */
  lemma TinyTable(k: nat)
    requires k < 32
    ensures TinyEntry(Residue(k)) == k + 1
  {
    hide Residue, TinyEntry;
    Residues8();
    Residues16();
    Residues24();
    Residues32();
    TinyRows0();
    TinyRows8();
    TinyRows16();
    TinyRows24();
  }

  lemma Residues8()
    ensures Residue(0) == 1 && Residue(1) == 2 && Residue(2) == 4 && Residue(3) == 8
    ensures Residue(4) == 16 && Residue(5) == 32 && Residue(6) == 27 && Residue(7) == 17
  {
    assert Residue(0) == 1;
    assert Residue(1) == 2;
    assert Residue(2) == 4;
    assert Residue(3) == 8;
    assert Residue(4) == 16;
    assert Residue(5) == 32;
    assert Residue(6) == 27;
    assert Residue(7) == 17;
  }

  lemma Residues16()
    ensures Residue(8) == 34 && Residue(9) == 31 && Residue(10) == 25 && Residue(11) == 13
    ensures Residue(12) == 26 && Residue(13) == 15 && Residue(14) == 30 && Residue(15) == 23
  {
    Residues8();
    assert Residue(8) == 34;
    assert Residue(9) == 31;
    assert Residue(10) == 25;
    assert Residue(11) == 13;
    assert Residue(12) == 26;
    assert Residue(13) == 15;
    assert Residue(14) == 30;
    assert Residue(15) == 23;
  }

  lemma Residues24()
    ensures Residue(16) == 9 && Residue(17) == 18 && Residue(18) == 36 && Residue(19) == 35
    ensures Residue(20) == 33 && Residue(21) == 29 && Residue(22) == 21 && Residue(23) == 5
  {
    Residues16();
    assert Residue(16) == 9;
    assert Residue(17) == 18;
    assert Residue(18) == 36;
    assert Residue(19) == 35;
    assert Residue(20) == 33;
    assert Residue(21) == 29;
    assert Residue(22) == 21;
    assert Residue(23) == 5;
  }

  lemma Residues32()
    ensures Residue(24) == 10 && Residue(25) == 20 && Residue(26) == 3 && Residue(27) == 6
    ensures Residue(28) == 12 && Residue(29) == 24 && Residue(30) == 11 && Residue(31) == 22
  {
    Residues24();
    assert Residue(24) == 10;
    assert Residue(25) == 20;
    assert Residue(26) == 3;
    assert Residue(27) == 6;
    assert Residue(28) == 12;
    assert Residue(29) == 24;
    assert Residue(30) == 11;
    assert Residue(31) == 22;
  }

  lemma TinyRows0()
    ensures TinyEntry(1) == 1 && TinyEntry(2) == 2 && TinyEntry(4) == 3 && TinyEntry(8) == 4
    ensures TinyEntry(16) == 5 && TinyEntry(32) == 6 && TinyEntry(27) == 7 && TinyEntry(17) == 8
  {}

  lemma TinyRows8()
    ensures TinyEntry(34) == 9 && TinyEntry(31) == 10 && TinyEntry(25) == 11 && TinyEntry(13) == 12
    ensures TinyEntry(26) == 13 && TinyEntry(15) == 14 && TinyEntry(30) == 15 && TinyEntry(23) == 16
  {}

  lemma TinyRows16()
    ensures TinyEntry(9) == 17 && TinyEntry(18) == 18 && TinyEntry(36) == 19 && TinyEntry(35) == 20
    ensures TinyEntry(33) == 21 && TinyEntry(29) == 22 && TinyEntry(21) == 23 && TinyEntry(5) == 24
  {}

  lemma TinyRows24()
    ensures TinyEntry(10) == 25 && TinyEntry(20) == 26 && TinyEntry(3) == 27 && TinyEntry(6) == 28
    ensures TinyEntry(12) == 29 && TinyEntry(24) == 30 && TinyEntry(11) == 31 && TinyEntry(22) == 32
  {}

  lemma TwoToThe8()
    ensures Mask(8) == 256
  {
    assert Mask(4) == 16;
    assert Mask(6) == 64;
  }

  lemma TwoToThe16()
    ensures Mask(16) == 0x1_0000
  {
    TwoToThe8();
    assert Mask(10) == 1024;
    assert Mask(12) == 4096;
    assert Mask(14) == 16384;
  }

  lemma TwoToThe24()
    ensures Mask(24) == 0x100_0000
  {
    TwoToThe16();
    assert Mask(18) == 0x4_0000;
    assert Mask(20) == 0x10_0000;
    assert Mask(22) == 0x40_0000;
  }

  lemma TwoToThe32()
    ensures Mask(32) == 0x1_0000_0000
  {
    TwoToThe24();
    assert Mask(26) == 0x400_0000;
    assert Mask(28) == 0x1000_0000;
    assert Mask(30) == 0x4000_0000;
  }

  lemma TinyFfsCorrect(value: nat)
    requires value < 0x1_0000_0000
    ensures TinyFfs(value) == Ffs(value)
  {
    if value > 0 {
      TwoToThe32();
      LowestBelow(value, 32);
      IsolatesLowest(value);
      ResidueIsMod(Lowest(value));
      TinyTable(Lowest(value));
    }
  }

  // ---------------------------------------------------------------- the byte table

  /** One row of __lowest_bit_bitmap: sixteen entries of which only the first differs by row. */
  function Row(first: nat): (r: seq<nat>)
    ensures |r| == 16
  {
    [first, 0, 1, 0, 2, 0, 1, 0, 3, 0, 1, 0, 2, 0, 1, 0]
  }

  const ROWS: seq<seq<nat>> := [
    Row(0), Row(4), Row(5), Row(4), Row(6), Row(4), Row(5), Row(4),
    Row(7), Row(4), Row(5), Row(4), Row(6), Row(4), Row(5), Row(4)]

  function Bitmap(b: nat): nat
    requires b < 256
  {
    ROWS[b / 16][b % 16]
  }

  /** The table holds the index of the lowest set bit of a byte. */
  lemma BitmapIsLowest(b: nat)
    requires 0 < b < 256
    ensures Bitmap(b) == Lowest(b)
  {
    hide Lowest, Mask;
    var r, c := b / 16, b % 16;
    TwoToThe4();
    if c != 0 {
      LowestOfLowPart(b, 4);
      LowestOfNibble(c);
      assert ROWS[r][c] == Row(0)[c];
    } else {
      LowestOfHighPart(b, 4);
      LowestOfNibble(r);
      FirstOfRow(r);
    }
  }

  lemma TwoToThe4()
    ensures Mask(4) == 16
  {
    assert Mask(2) == 4;
  }

  lemma LowestOfNibble(c: nat)
    requires 0 < c < 16
    ensures Lowest(c) == Row(0)[c]
  {
    assert Lowest(2) == 1 && Lowest(4) == 2 && Lowest(6) == 1;
    if c % 2 == 0 { assert c == 2 || c == 4 || c == 6 || c == 8 || c == 10 || c == 12 || c == 14; }
    else { assert c == 1 || c == 3 || c == 5 || c == 7 || c == 9 || c == 11 || c == 13 || c == 15; }
  }

  lemma FirstOfRow(r: nat)
    requires 0 < r < 16
    ensures ROWS[r][0] == 4 + Row(0)[r]
  {}

  function TableFfs(value: nat): nat
    requires value < 0x1_0000_0000
  {
    if value == 0 then 0
    else if value % 0x100 != 0 then Bitmap(value % 0x100) + 1
    else if value / 0x100 % 0x100 != 0 then Bitmap(value / 0x100 % 0x100) + 9
    else if value / 0x1_0000 % 0x100 != 0 then Bitmap(value / 0x1_0000 % 0x100) + 17
    else Bitmap(value / 0x100_0000) + 25
  }

  /** Bits above the lowest set one do not matter. */
  lemma {:induction false} LowestOfLowPart(n: nat, w: nat)
    requires n % Mask(w) != 0
    ensures n > 0 && Lowest(n) == Lowest(n % Mask(w))
  {
    var m := Mask(w);
    if w > 0 {
      var h := Mask(w - 1);
      HalfMod(n, h);
      if n % 2 == 0 { LowestOfLowPart(n / 2, w - 1); }
    }
  }

  lemma HalfMod(n: nat, h: nat)
    requires h > 0
    ensures n % (2 * h) == 2 * (n / 2 % h) + n % 2
  {
    var q := n / 2 / h;
    assert n / 2 == q * h + n / 2 % h;
    assert n == 2 * (n / 2) + n % 2;
    assert n == q * (2 * h) + (2 * (n / 2 % h) + n % 2);
    DivModUnique(n, 2 * h, q, 2 * (n / 2 % h) + n % 2);
  }

  /** A zero low part shifts the lowest set bit up. */
  lemma {:induction false} LowestOfHighPart(n: nat, w: nat)
    requires n > 0 && n % Mask(w) == 0
    ensures n / Mask(w) > 0 && Lowest(n) == w + Lowest(n / Mask(w))
  {
    if w > 0 {
      var h := Mask(w - 1);
      HalfMod(n, h);
      LowestOfHighPart(n / 2, w - 1);
      HalfDiv(n, h);
    }
  }

  lemma HalfDiv(n: nat, h: nat)
    requires h > 0
    ensures n / (2 * h) == n / 2 / h
  {
    var q := n / 2 / h;
    assert n / 2 == q * h + n / 2 % h;
    assert n == q * (2 * h) + (2 * (n / 2 % h) + n % 2);
    DivModUnique(n, 2 * h, q, 2 * (n / 2 % h) + n % 2);
  }

  lemma Bytes(value: nat)
    requires value < 0x1_0000_0000
    ensures value / 0x100 < 0x100_0000 && value / 0x1_0000 < 0x1_0000 && value / 0x100_0000 < 0x100
    ensures value / 0x100 / 0x100 == value / 0x1_0000 && value / 0x1_0000 / 0x100 == value / 0x100_0000
  {}

  /** Both parts of a word at a byte boundary. */
  lemma ByteStep(n: nat)
    requires n > 0
    ensures n % 0x100 != 0 ==> Lowest(n) == Bitmap(n % 0x100)
    ensures n % 0x100 == 0 ==> n / 0x100 > 0 && Lowest(n) == 8 + Lowest(n / 0x100)
  {
    hide Lowest, Bitmap;
    TwoToThe8();
    if n % 0x100 != 0 {
      LowestOfLowPart(n, 8);
      BitmapIsLowest(n % 0x100);
    } else {
      LowestOfHighPart(n, 8);
    }
  }

  lemma TableFfsCorrect(value: nat)
    requires value < 0x1_0000_0000
    ensures TableFfs(value) == Ffs(value)
  {
    hide Lowest, Bitmap;
    Bytes(value);
    if value > 0 {
      ByteStep(value);
      if value % 0x100 == 0 {
        ByteStep(value / 0x100);
        if value / 0x100 % 0x100 == 0 {
          ByteStep(value / 0x1_0000);
          if value / 0x1_0000 % 0x100 == 0 { BitmapIsLowest(value / 0x100_0000); }
        }
      }
    }
  }
}
