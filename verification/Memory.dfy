/** The byte-addressed memory an in-band allocator works on.

    Block headers and payload bytes live in the same address range, so a store to one
    destroys the other: writing a header of `width` bytes at `at` makes the bytes it covers
    meaningless as payload and kills every header it overlaps; writing a payload byte kills
    every header that covers it.  A proof that an allocator keeps a client's bytes is thereby
    a proof that none of its header stores lands in that client's block, and a proof that
    it may read a header is a proof that nobody has overwritten it. */
module Memory {

  type Byte = bv8

  datatype Option<+T> = None | Some(value: T)

  /** `headers` maps an address to the header stored there, `bytes` an address to the payload
      byte stored there; an address in neither holds an indeterminate value. */
  datatype Memory<H> = Memory(headers: map<nat, H>, bytes: map<nat, Byte>)

  function PutHeader<H>(m: Memory<H>, width: nat, at: nat, h: H): Memory<H> {
    Memory((map o | o in m.headers && (o + width <= at || at + width <= o) :: m.headers[o])[at := h],
           map a | a in m.bytes && !(at <= a < at + width) :: m.bytes[a])
  }

  function PutByte<H>(m: Memory<H>, width: nat, at: nat, b: Byte): Memory<H> {
    Memory(map o | o in m.headers && (at < o || o + width <= at) :: m.headers[o], m.bytes[at := b])
  }

  /** memcpy of `n` bytes between ranges that do not overlap: a byte that was indeterminate
      at the source is indeterminate at the destination. */
  function CopyBytes<H>(m: Memory<H>, width: nat, dst: nat, src: nat, n: nat): Memory<H>
    requires dst + n <= src || src + n <= dst
  {
    var kept := map a | a in m.bytes && !(dst <= a < dst + n) :: m.bytes[a];
    var moved := map a: nat | dst <= a < dst + n && Shift(a, dst, src) in m.bytes :: m.bytes[Shift(a, dst, src)];
    Memory(map o | o in m.headers && (dst + n <= o || o + width <= dst) :: m.headers[o], kept + moved)
  }

  function Shift(a: nat, dst: nat, src: nat): nat
    requires dst <= a
  {
    src + (a - dst)
  }

  /** The payload bytes in [lo, hi) are the same, defined or not. */
  ghost predicate SameBytes<H>(m: Memory<H>, r: Memory<H>, lo: nat, hi: nat) {
    forall a :: lo <= a < hi ==> (a in m.bytes <==> a in r.bytes) && (a in m.bytes ==> r.bytes[a] == m.bytes[a])
  }

  /** The `n` bytes of `r` at `dst` are the `n` bytes of `m` at `src`. */
  ghost predicate CopiedBytes<H>(m: Memory<H>, r: Memory<H>, dst: nat, src: nat, n: nat) {
    forall a :: dst <= a < dst + n ==>
      (Shift(a, dst, src) in m.bytes <==> a in r.bytes) && (a in r.bytes ==> r.bytes[a] == m.bytes[Shift(a, dst, src)])
  }
}
