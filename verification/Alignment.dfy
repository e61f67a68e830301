/** RT_ALIGN and multiples, defined by counting in steps of the alignment so that proofs about
    the allocators stay inside linear arithmetic; `AlignIsMacro` and `MultipleIsMod` tie the two
    definitions to division, and `MallocAlign.RtAlignIffPowerOfTwo` says for which alignments the
    mask of the macro at rt-thread/include/rtdef.h:329 does the same. */
module Alignment {

  /** `n` is a multiple of `a`. */
  predicate Multiple(n: nat, a: nat)
    requires a > 0
  {
    n == 0 || (n >= a && Multiple(n - a, a))
  }

  /** RT_ALIGN: the least multiple of `a` that is at least `n`. */
  function Align(n: nat, a: nat): (r: nat)
    requires a > 0
    ensures Multiple(r, a) && n <= r < n + a
  {
    if n == 0 then 0 else if n <= a then a else a + Align(n - a, a)
  }

  lemma {:induction false} MultipleSum(x: nat, y: nat, a: nat)
    requires a > 0 && Multiple(x, a) && Multiple(y, a)
    ensures Multiple(x + y, a)
    decreases y
  {
    if y > 0 { MultipleSum(x, y - a, a); }
  }

  lemma {:induction false} MultipleDifference(x: nat, y: nat, a: nat)
    requires a > 0 && Multiple(x, a) && Multiple(y, a) && y <= x
    ensures Multiple(x - y, a)
  {
    if y > 0 { MultipleDifference(x - a, y - a, a); }
  }

  /** Two different multiples are at least `a` apart. */
  lemma MultipleGap(x: nat, y: nat, a: nat)
    requires a > 0 && Multiple(x, a) && Multiple(y, a) && x < y
    ensures x + a <= y
  {
    MultipleDifference(y, x, a);
  }

  /** A multiple is its own alignment. */
  lemma AlignOfMultiple(n: nat, a: nat)
    requires a > 0 && Multiple(n, a)
    ensures Align(n, a) == n
  {
    if n < Align(n, a) { MultipleGap(n, Align(n, a), a); }
  }

  /** `r` is `n` rounded up to a multiple of `a`. */
  ghost predicate Rounded(n: nat, a: nat, r: nat)
    requires a > 0
  {
    Multiple(r, a) && n <= r < n + a
  }

  lemma RoundedIsAlign(n: nat, a: nat, r: nat)
    requires a > 0 && Rounded(n, a, r)
    ensures Align(n, a) == r
  {
    if r < Align(n, a) { MultipleGap(r, Align(n, a), a); } else if Align(n, a) < r { MultipleGap(Align(n, a), r, a); }
  }

  lemma AlignPositive(n: nat, a: nat)
    requires a > 0 && n > 0
    ensures Align(n, a) > 0 && Multiple(Align(n, a), a)
  {}

  lemma {:induction false} MultipleHasQuotient(n: nat, a: nat) returns (q: nat)
    requires a > 0 && Multiple(n, a)
    ensures n == q * a
  {
    if n == 0 {
      q := 0;
    } else {
      var p := MultipleHasQuotient(n - a, a);
      q := p + 1;
    }
  }

  lemma {:induction false} ProductIsMultiple(q: nat, a: nat)
    requires a > 0
    ensures q * a >= 0 && Multiple(q * a, a)
  {
    if q > 0 {
      ProductIsMultiple(q - 1, a);
      assert q * a == (q - 1) * a + a;
    }
  }

  /** Align is the rounding of RT_ALIGN, (n + a - 1) with the remainder cut off. */
  lemma AlignIsMacro(n: nat, a: nat)
    requires a > 0
    ensures Align(n, a) == (n + a - 1) / a * a
  {
    var q := MultipleHasQuotient(Align(n, a), a);
    DivModUnique(n + a - 1, a, q, n + a - 1 - q * a);
  }

  lemma MultipleIsMod(n: nat, a: nat)
    requires a > 0
    ensures Multiple(n, a) <==> n % a == 0
  {
    if Multiple(n, a) {
      var q := MultipleHasQuotient(n, a);
      DivModUnique(n, a, q, 0);
    } else {
      ProductIsMultiple(n / a, a);
      assert n == n / a * a + n % a;
    }
  }

  lemma DivModUnique(x: nat, a: nat, q: int, r: nat)
    requires a > 0 && x == q * a + r && r < a
    ensures x / a == q && x % a == r
  {
    var k := q - x / a;
    assert k * a == q * a - (x / a) * a;
    assert x == (x / a) * a + x % a;
    assert k >= 1 ==> k * a >= a;
    assert k <= -1 ==> k * a + a <= 0;
  }

  /** `k * c`, by repeated addition. */
  function Times(k: nat, c: nat): nat {
    if k == 0 then 0 else Times(k - 1, c) + c
  }

  /** `n / c`, by repeated subtraction. */
  function Quotient(n: nat, c: nat): nat
    requires c > 0
  {
    if n < c then 0 else Quotient(n - c, c) + 1
  }

  lemma {:induction false} TimesIsProduct(k: nat, c: nat)
    ensures Times(k, c) == k * c
  {
    if k > 0 { TimesIsProduct(k - 1, c); }
  }

  lemma {:induction false} QuotientBounds(n: nat, c: nat)
    requires c > 0
    ensures Times(Quotient(n, c), c) <= n < Times(Quotient(n, c) + 1, c)
  {
    if n >= c { QuotientBounds(n - c, c); }
  }

  lemma QuotientIsDiv(n: nat, c: nat)
    requires c > 0
    ensures Quotient(n, c) == n / c
  {
    QuotientBounds(n, c);
    TimesIsProduct(Quotient(n, c), c);
    TimesIsProduct(Quotient(n, c) + 1, c);
    DivModUnique(n, c, Quotient(n, c), n - Quotient(n, c) * c);
  }

  lemma {:induction false} TimesMonotone(j: nat, k: nat, c: nat)
    requires j <= k
    ensures Times(j, c) <= Times(k, c)
    ensures j < k ==> Times(j, c) + c <= Times(k, c)
  {
    if j < k { TimesMonotone(j, k - 1, c); }
  }

  lemma {:induction false} TimesIsMultiple(k: nat, c: nat)
    requires c > 0
    ensures Multiple(Times(k, c), c)
  {
    if k > 0 { TimesIsMultiple(k - 1, c); }
  }
}
