/** The size classes of the slab zones: zoneindex and the layout of a zone
    (rt-thread/src/slab.c, lines 408-466 and 603-639). */
module SizeClasses {
  import opened Alignment
  import opened Bits

  const PAGE := 4096
  const CLASSES := 72

  /** zoneindex: the class of a request and the chunk size it is rounded to.  A request of 16384
      bytes or more is reported, left as it is, and given class 0. */
  function ZoneIndex(n: nat): (nat, nat)
    requires n > 0
  {
    if n < 128 then ((n + 7) / 8 * 8 / 8 - 1, (n + 7) / 8 * 8)
    else if n < 256 then ((n + 15) / 16 * 16 / 16 + 7, (n + 15) / 16 * 16)
    else if n < 512 then ((n + 31) / 32 * 32 / 32 + 15, (n + 31) / 32 * 32)
    else if n < 1024 then ((n + 63) / 64 * 64 / 64 + 23, (n + 63) / 64 * 64)
    else if n < 2048 then ((n + 127) / 128 * 128 / 128 + 31, (n + 127) / 128 * 128)
    else if n < 4096 then ((n + 255) / 256 * 256 / 256 + 39, (n + 255) / 256 * 256)
    else if n < 8192 then ((n + 511) / 512 * 512 / 512 + 47, (n + 511) / 512 * 512)
    else if n < 16384 then ((n + 1023) / 1024 * 1024 / 1024 + 55, (n + 1023) / 1024 * 1024)
    else (0, n)
  }

  /** The chunk size of a class, read off the table at rt-thread/src/slab.c:89-99. */
  function ChunkOf(i: nat): nat
    requires i < CLASSES
  {
    if i < 16 then 8 * (i + 1)
    else if i < 24 then 16 * (i - 7)
    else if i < 32 then 32 * (i - 15)
    else if i < 40 then 64 * (i - 23)
    else if i < 48 then 128 * (i - 31)
    else if i < 56 then 256 * (i - 39)
    else if i < 64 then 512 * (i - 47)
    else 1024 * (i - 55)
  }

  ghost predicate BestFit(n: nat)
    requires n > 0
  {
    var (i, c) := ZoneIndex(n);
    i < CLASSES && c == ChunkOf(i) && n <= c && (i > 0 ==> ChunkOf(i - 1) < n)
  }

  lemma Line8(n: nat)
    requires 1 <= n < 128
    ensures BestFit(n) && ZoneIndex(n).1 - n < 8
  {
    var q := (n + 7) / 8;
    assert q * 8 / 8 == q;
    assert ZoneIndex(n) == (q - 1, q * 8);
  }

  lemma Line16(n: nat)
    requires 128 <= n < 256
    ensures BestFit(n) && ZoneIndex(n).1 - n < 16
  {
    var q := (n + 15) / 16;
    assert q * 16 / 16 == q;
    assert ZoneIndex(n) == (q + 7, q * 16);
  }

  lemma Line32(n: nat)
    requires 256 <= n < 512
    ensures BestFit(n) && ZoneIndex(n).1 - n < 32
  {
    var q := (n + 31) / 32;
    assert q * 32 / 32 == q;
    assert ZoneIndex(n) == (q + 15, q * 32);
  }

  lemma Line64(n: nat)
    requires 512 <= n < 1024
    ensures BestFit(n) && ZoneIndex(n).1 - n < 64
  {
    var q := (n + 63) / 64;
    assert q * 64 / 64 == q;
    assert ZoneIndex(n) == (q + 23, q * 64);
  }

  lemma Line128(n: nat)
    requires 1024 <= n < 2048
    ensures BestFit(n) && ZoneIndex(n).1 - n < 128
  {
    var q := (n + 127) / 128;
    assert q * 128 / 128 == q;
    assert ZoneIndex(n) == (q + 31, q * 128);
  }

  lemma Line256(n: nat)
    requires 2048 <= n < 4096
    ensures BestFit(n) && ZoneIndex(n).1 - n < 256
  {
    var q := (n + 255) / 256;
    assert q * 256 / 256 == q;
    assert ZoneIndex(n) == (q + 39, q * 256);
  }

  lemma Line512(n: nat)
    requires 4096 <= n < 8192
    ensures BestFit(n) && ZoneIndex(n).1 - n < 512
  {
    var q := (n + 511) / 512;
    assert q * 512 / 512 == q;
    assert ZoneIndex(n) == (q + 47, q * 512);
  }

  lemma Line1024(n: nat)
    requires 8192 <= n < 16384
    ensures BestFit(n) && ZoneIndex(n).1 - n < 1024
  {
    var q := (n + 1023) / 1024;
    assert q * 1024 / 1024 == q;
    assert ZoneIndex(n) == (q + 55, q * 1024);
  }

  /** zoneindex picks the smallest class whose chunks hold the request, and wastes little: under 8
      bytes for small requests, under an eighth of larger ones. */
  lemma ZoneIndexIsBestFit(n: nat)
    requires 0 < n < 16384
    ensures BestFit(n)
    ensures n < 128 ==> ZoneIndex(n).1 - n < 8
    ensures n >= 128 ==> 8 * (ZoneIndex(n).1 - n) < n
  {
    hide BestFit, ZoneIndex;
    if n < 128 { Line8(n); } else if n < 256 { Line16(n); } else if n < 512 { Line32(n); }
    else if n < 1024 { Line64(n); } else if n < 2048 { Line128(n); } else if n < 4096 { Line256(n); }
    else if n < 8192 { Line512(n); } else { Line1024(n); }
  }

  lemma {:induction false} ChunksIncrease(i: nat, j: nat)
    requires i < j < CLASSES
    ensures 8 <= ChunkOf(i) < ChunkOf(j) <= 16384
  {
    if i + 1 < j { ChunksIncrease(i, j - 1); }
  }

  /** Classes and chunk sizes correspond one to one: two requests share a class exactly when they
      share a chunk size, which is what lets rt_slab_realloc compare chunk sizes. */
  lemma ClassIffChunk(n: nat, m: nat)
    requires 0 < n < 16384 && 0 < m < 16384
    ensures ZoneIndex(n).0 == ZoneIndex(m).0 <==> ZoneIndex(n).1 == ZoneIndex(m).1
  {
    hide ZoneIndex;
    ZoneIndexIsBestFit(n);
    ZoneIndexIsBestFit(m);
    var i, j := ZoneIndex(n).0, ZoneIndex(m).0;
    if i < j { ChunksIncrease(i, j); } else if j < i { ChunksIncrease(j, i); }
  }

  /** Rounding a size zoneindex has already rounded changes nothing, so rt_slab_realloc may hand
      the rounded size on to rt_slab_alloc. */
  lemma ZoneIndexIdempotent(n: nat)
    requires 0 < n < 16384 && ZoneIndex(n).1 < 16384
    ensures ZoneIndex(ZoneIndex(n).1) == ZoneIndex(n)
  {
    hide ZoneIndex;
    ZoneIndexIsBestFit(n);
    var (i, c) := ZoneIndex(n);
    ZoneIndexIsBestFit(c);
    var (j, d) := ZoneIndex(c);
    if i < j { ChunksIncrease(i, j); if i < j - 1 { ChunksIncrease(i, j - 1); } }
    if j < i { ChunksIncrease(j, i); }
  }

  predicate PowerOfTwo(c: nat) {
    c in {8, 16, 32, 64, 128, 256, 512, 1024, 2048, 4096, 8192, 16384}
  }

  /** The test at rt-thread/src/slab.c:628, `(size | (size - 1)) + 1 == (size << 1)`. */
  predicate Trick(c: nat)
    requires c > 0
  {
    Or(c, c - 1) + 1 == 2 * c
  }

  /** It recognises the powers of two among all numbers. */
  lemma {:induction false} TrickIsPower(c: nat)
    requires c > 0
    ensures Trick(c) <==> exists k: nat :: c == Mask(k)
  {
    if c % 2 == 1 {
      OrOdd(c);
      if c == 1 { assert c == Mask(0); }
    } else {
      assert c == 2 * (c / 2);
      TrickIsPower(c / 2);
      OrEven(c / 2);
      if Trick(c / 2) {
        var k: nat :| c / 2 == Mask(k);
        assert c == Mask(k + 1);
      }
      if k: nat :| c == Mask(k) { assert k > 0 && c / 2 == Mask(k - 1); }
    }
  }

  lemma OrOdd(c: nat)
    requires c % 2 == 1
    ensures Or(c, c - 1) == c && forall k: nat :: c == Mask(k) ==> c == 1
  {
    if c > 1 { assert (c - 1) / 2 == c / 2; OrSelf(c / 2); }
    assert forall k: nat :: k > 0 ==> Mask(k) % 2 == 0;
  }

  lemma {:induction false} OrSelf(n: nat)
    ensures Or(n, n) == n
  {
    if n > 0 { OrSelf(n / 2); }
  }

  lemma OrEven(d: nat)
    requires d > 0
    ensures Or(2 * d, 2 * d - 1) == 2 * Or(d, d - 1) + 1
  {
    assert (2 * d - 1) / 2 == d - 1 && (2 * d - 1) % 2 == 1;
  }

  /** Among chunk sizes it recognises exactly the powers of two the layout of a zone goes by. */
  lemma PowerOfTwoTrick(c: nat)
    requires 8 <= c <= 16384
    ensures Trick(c) <==> PowerOfTwo(c)
  {
    hide Trick, PowerOfTwo;
    TrickIsPower(c);
    forall k: nat ensures c == Mask(k) ==> PowerOfTwo(c) { OnlyThese(c, k); }
    if PowerOfTwo(c) {
      var k := TheseAre(c);
      assert c == Mask(k);
    }
  }

  /** The powers of two from 8 to 16384, by their exponents. */
  lemma Exponents()
    ensures Mask(2) == 4 && Mask(3) == 8 && Mask(4) == 16 && Mask(5) == 32 && Mask(6) == 64 && Mask(7) == 128 && Mask(8) == 256
    ensures Mask(9) == 512 && Mask(10) == 1024 && Mask(11) == 2048 && Mask(12) == 4096 && Mask(13) == 8192 && Mask(14) == 16384
  {
    assert Mask(0) == 1 && Mask(1) == 2;
  }

  lemma OnlyThese(c: nat, k: nat)
    requires 8 <= c <= 16384
    ensures c == Mask(k) ==> PowerOfTwo(c)
  {
    hide Mask;
    Exponents();
    if k < 3 { MaskOrder(k, 2); } else if k > 14 { MaskOrder(15, k); }
  }

  lemma TheseAre(c: nat) returns (k: nat)
    requires PowerOfTwo(c)
    ensures c == Mask(k)
  {
    hide Mask;
    Exponents();
    k := if c == 8 then 3 else if c == 16 then 4 else if c == 32 then 5 else if c == 64 then 6 else if c == 128 then 7
         else if c == 256 then 8 else if c == 512 then 9 else if c == 1024 then 10 else if c == 2048 then 11
         else if c == 4096 then 12 else if c == 8192 then 13 else 14;
  }

  lemma {:induction false} MaskOrder(j: nat, k: nat)
    requires j <= k
    ensures Mask(j) <= Mask(k) && Mask(15) == 2 * Mask(14)
  {
    if j < k { MaskOrder(j, k - 1); }
  }

  /** Offset of the chunk array in its zone, behind a header of `hdr` bytes. */
  function BaseOffset(hdr: nat, c: nat): nat
    requires c > 0
  {
    if PowerOfTwo(c) then Align(hdr, c) else Align(hdr, 8)
  }

  /** z_nmax: the chunks that fit behind the header. */
  function ZoneChunks(zoneSize: nat, hdr: nat, c: nat): nat
    requires c > 0
  {
    if zoneSize < BaseOffset(hdr, c) then 0 else Quotient(zoneSize - BaseOffset(hdr, c), c)
  }

  /** The chunk array lies behind the header and inside the zone, and holds at least two chunks. */
  lemma ZoneHolds(zoneSize: nat, hdr: nat, c: nat)
    requires 8 <= c && 4 * c <= zoneSize && hdr <= PAGE && 8 * PAGE <= zoneSize
    ensures var n := ZoneChunks(zoneSize, hdr, c);
      hdr <= BaseOffset(hdr, c) && BaseOffset(hdr, c) + Times(n, c) <= zoneSize && n >= 2
  {
    var room := zoneSize - BaseOffset(hdr, c);
    QuotientBounds(room, c);
    assert Quotient(room - c, c) >= 1;
  }
}
