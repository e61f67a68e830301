/** The copy loops between pbuf chains and the DMA buffers (libraries/HAL_Drivers/drv_eth.c, lines
    183-248 and 318-346).  `mem` is the buffers of the descriptor ring in ring order from the first
    descriptor on, `size` bytes each. */
module Ethernet {
  import opened Alignment
  import opened Memory

  type Payload = seq<Byte>

  /** The payloads of a pbuf chain, one after the other. */
  function Concat(chain: seq<Payload>): Payload {
    if chain == [] then [] else chain[0] + Concat(chain[1..])
  }

  /** The buffer the last of `n` bytes goes to. */
  function LastBuffer(n: nat, size: nat): nat
    requires size > 0
  {
    if n <= size then 0 else 1 + LastBuffer(n - size, size)
  }

  predicate Available(own: seq<bool>, last: nat) {
    forall d: nat :: d <= last && d < |own| ==> !own[d]
  }

  /** `after` is `before` with `data` stored from `at` on. */
  ghost predicate Placed(before: Payload, after: Payload, at: nat, data: Payload) {
    && |after| == |before| && at + |data| <= |before|
    && after[at..at + |data|] == data && after[..at] == before[..at] && after[at + |data|..] == before[at + |data|..]
  }

  /** memcpy of `n` bytes into the ring. */
  method CopyIn(mem: array<Byte>, at: nat, src: Payload, from: nat, n: nat)
    requires at + n <= mem.Length && from + n <= |src|
    modifies mem
    ensures Placed(old(mem[..]), mem[..], at, src[from..from + n])
  {
    forall i | 0 <= i < n { mem[at + i] := src[from + i]; }
  }

  /** Where the copying stands: bytes sent, descriptor, its buffer, offset in it. */
  datatype Cursor = Cursor(sent: nat, desc: nat, buffer: nat, offset: nat)

  /** What is sent is in the ring, and the rest of the ring is as it was. */
  ghost predicate Sent(mem: Payload, was: Payload, frame: Payload, n: nat) {
    n <= |frame| <= |mem| == |was| && mem[..n] == frame[..n] && mem[n..] == was[n..]
  }

  /** Of the frame, `payload` from `from` on and then `rest` are still to come. */
  ghost predicate Ahead(frame: Payload, n: nat, payload: Payload, from: nat, rest: Payload) {
    n <= |frame| && from <= |payload| && frame[n..] == payload[from..] + rest
  }

  lemma AheadAll(frame: Payload, n: nat, payload: Payload, rest: Payload)
    requires n <= |frame| && frame[n..] == payload + rest
    ensures Ahead(frame, n, payload, 0, rest)
  {
    assert payload[0..] == payload;
  }

  /** The inner loop of rt_stm32_eth_tx: one payload, over as many buffers as it takes. */
  method SendPayload(mem: array<Byte>, size: nat, count: nat, own: seq<bool>, payload: Payload, c0: Cursor,
                     ghost was: Payload, ghost frame: Payload, ghost rest: Payload) returns (ok: bool, c: Cursor)
    requires size > 0 && mem.Length == Times(count, size) && |own| == count
    requires At(c0, size) && (c0.offset > 0 || c0.desc == 0) && Available(own, c0.desc)
    requires Sent(mem[..], was, frame, c0.sent) && c0.sent <= |frame| <= mem.Length && frame[c0.sent..] == payload + rest
    modifies mem
    ensures ok ==> At(c, size) && (c.offset > 0 || c.desc == 0) && Available(own, c.desc)
    ensures ok ==> Sent(mem[..], was, frame, c.sent) && frame[c.sent..] == rest
    ensures !ok ==> !Available(own, LastBuffer(|frame|, size))
  {
    hide Times, LastBuffer, Available, Sent, At, Placed, Ahead;
    c := c0;
    var byteslefttocopy: nat, payloadoffset: nat := |payload|, 0;
    AheadAll(frame, c.sent, payload, rest);
    while byteslefttocopy + c.offset > size
      invariant payloadoffset + byteslefttocopy == |payload|
      invariant At(c, size) && (c.offset > 0 || c.desc == 0 || byteslefttocopy > 0) && Available(own, c.desc)
      invariant Sent(mem[..], was, frame, c.sent) && Ahead(frame, c.sent, payload, payloadoffset, rest)
      decreases byteslefttocopy + (if c.offset == size then 1 else 0)
    {
      AtFacts(c, size);
      var n := size - c.offset;
      SendChunk(mem, c, size, payload, payloadoffset, n, was, frame, rest);
      Advance(c, size, count, |frame|);
      c := Cursor(c.sent + n, c.desc + 1, c.buffer + size, 0);
      if own[c.desc] {
        Refused(own, c.desc, LastBuffer(|frame|, size));
        return false, c;
      }
      OneMore(own, c.desc);
      byteslefttocopy := byteslefttocopy - n;
      payloadoffset := payloadoffset + n;
    }
    AtFacts(c, size);
    Within(c, byteslefttocopy, size);
    SendChunk(mem, c, size, payload, payloadoffset, byteslefttocopy, was, frame, rest);
    c := Cursor(c.sent + byteslefttocopy, c.desc, c.buffer, c.offset + byteslefttocopy);
    ok := true;
  }

  /** One memcpy of rt_stm32_eth_tx. */
  method SendChunk(mem: array<Byte>, c: Cursor, size: nat, payload: Payload, from: nat, n: nat,
                   ghost was: Payload, ghost frame: Payload, ghost rest: Payload)
    requires c.sent == c.buffer + c.offset && from + n <= |payload|
    requires Sent(mem[..], was, frame, c.sent) && Ahead(frame, c.sent, payload, from, rest)
    modifies mem
    ensures Sent(mem[..], was, frame, c.sent + n) && Ahead(frame, c.sent + n, payload, from + n, rest)
    ensures from + n < |payload| ==> c.sent + n < |frame|
    ensures from + n == |payload| ==> c.sent + n <= |frame| && frame[c.sent + n..] == rest
  {
    hide Sent, Placed, Ahead;
    ghost var before := mem[..];
    Room(before, was, frame, c.sent, payload, from, rest, n);
    CopyIn(mem, c.buffer + c.offset, payload, from, n);
    Copied(before, mem[..], was, frame, c.sent, payload, from, rest, n);
  }

  /** rt_stm32_eth_tx up to handing the frame over: the frame lies in the buffers, contiguous and in
      order, unless a descriptor it needs still belongs to the DMA. */
  method Transmit(mem: array<Byte>, size: nat, count: nat, own: seq<bool>, chain: seq<Payload>) returns (ok: bool, framelength: nat)
    requires size > 0 && count > 0 && mem.Length == Times(count, size) && |own| == count
    requires |Concat(chain)| <= mem.Length
    modifies mem
    ensures ok <==> chain == [] || Available(own, LastBuffer(|Concat(chain)|, size))
    ensures ok ==> framelength == |Concat(chain)| && mem[..framelength] == Concat(chain)
    ensures ok ==> mem[framelength..] == old(mem[framelength..])
  {
    hide Concat, Times, LastBuffer, Available, At;
    ghost var frame, was := Concat(chain), mem[..];
    var c := Cursor(0, 0, 0, 0);
    var q := 0;
    Start(size);
    assert chain[0..] == chain;
    while q < |chain|
      invariant q <= |chain| && At(c, size) && (c.offset > 0 || c.desc == 0)
      invariant Sent(mem[..], was, frame, c.sent) && frame[c.sent..] == Concat(chain[q..])
      invariant if q > 0 then Available(own, c.desc) else c.desc == 0
    {
      ConcatNext(chain, q);
      InRing(c, size, count, |frame|);
      if own[c.desc] {
        Refused(own, c.desc, LastBuffer(|frame|, size));
        return false, c.sent;
      }
      FirstChecked(own, c.desc);
      ok, c := SendPayload(mem, size, count, own, chain[q], c, was, frame, Concat(chain[q + 1..]));
      if !ok { return false, c.sent; }
      q := q + 1;
    }
    NothingLeft(chain);
    LastOf(c, size);
    return true, c.sent;
  }

  ghost predicate At(c: Cursor, size: nat) {
    c.buffer == Times(c.desc, size) && c.offset <= size && c.sent == c.buffer + c.offset
  }

  lemma AtFacts(c: Cursor, size: nat)
    requires At(c, size)
    ensures c.sent == c.buffer + c.offset && c.offset <= size
  {}

  lemma Within(c: Cursor, n: nat, size: nat)
    requires At(c, size) && c.offset + n <= size
    ensures At(Cursor(c.sent + n, c.desc, c.buffer, c.offset + n), size)
  {}

  lemma Start(size: nat)
    ensures At(Cursor(0, 0, 0, 0), size)
  {}

  lemma ConcatNext(chain: seq<Payload>, q: nat)
    requires q < |chain|
    ensures Concat(chain[q..]) == chain[q] + Concat(chain[q + 1..]) && chain[q] == chain[q][0..]
  {
    assert chain[q..][1..] == chain[q + 1..];
  }

  lemma NothingLeft(chain: seq<Payload>)
    ensures Concat(chain[|chain|..]) == []
  {}

  /** The buffer the cursor is in is in the ring, and one the frame needs. */
  lemma InRing(c: Cursor, size: nat, count: nat, total: nat)
    requires size > 0 && At(c, size) && (c.offset > 0 || c.desc == 0) && c.sent <= total <= Times(count, size) && count > 0
    ensures c.desc < count && c.desc <= LastBuffer(total, size)
  {
    if count <= c.desc { TimesMonotone(count, c.desc, size); }
    if c.desc > 0 { Beyond(total, c.desc, size); }
  }

  lemma {:induction false} Beyond(n: nat, desc: nat, size: nat)
    requires size > 0 && n > Times(desc, size)
    ensures LastBuffer(n, size) >= desc
  {
    if desc > 0 { Beyond(n - size, desc - 1, size); }
  }

  lemma {:induction false} LastWithin(n: nat, desc: nat, size: nat)
    requires size > 0 && n <= Times(desc, size) + size
    ensures LastBuffer(n, size) <= desc
  {
    if desc > 0 && n > size { LastWithin(n - size, desc - 1, size); }
  }

  lemma LastOf(c: Cursor, size: nat)
    requires size > 0 && At(c, size) && (c.offset > 0 || c.desc == 0)
    ensures LastBuffer(c.sent, size) == c.desc
  {
    LastWithin(c.sent, c.desc, size);
    if c.desc > 0 { Beyond(c.sent, c.desc, size); }
  }

  lemma Refused(own: seq<bool>, d: nat, last: nat)
    requires d < |own| && own[d] && d <= last
    ensures !Available(own, last)
  {}

  lemma FirstChecked(own: seq<bool>, d: nat)
    requires d < |own| && !own[d]
    ensures d == 0 ==> Available(own, d)
  {}

  lemma OneMore(own: seq<bool>, d: nat)
    requires 0 < d < |own| && Available(own, d - 1) && !own[d]
    ensures Available(own, d)
  {}

  lemma Room(mem: Payload, was: Payload, frame: Payload, n: nat, payload: Payload, from: nat, rest: Payload, k: nat)
    requires Sent(mem, was, frame, n) && from + k <= |payload| && Ahead(frame, n, payload, from, rest)
    ensures n + k <= |frame| <= |mem|
    ensures from + k < |payload| ==> n + k < |frame|
  {}

  /** One memcpy moves the frontier between what is sent and what is untouched. */
  lemma Copied(before: Payload, after: Payload, was: Payload, frame: Payload, n: nat, payload: Payload, from: nat, rest: Payload, k: nat)
    requires Sent(before, was, frame, n) && from + k <= |payload| && Ahead(frame, n, payload, from, rest)
    requires Placed(before, after, n, payload[from..from + k])
    ensures Sent(after, was, frame, n + k) && Ahead(frame, n + k, payload, from + k, rest)
    ensures from + k == |payload| ==> n + k <= |frame| && frame[n + k..] == rest
  {
    assert frame[n + k..] == frame[n..][k..];
    assert frame[n..n + k] == frame[n..][..k] == payload[from..from + k];
    assert after[..n + k] == after[..n] + after[n..n + k];
    assert frame[..n + k] == frame[..n] + frame[n..n + k];
    assert was[n + k..] == was[n..][k..];
    assert before[n + k..] == before[n..][k..];
  }

  /** A full buffer with bytes left: the next one is in the ring, and needed. */
  lemma Advance(c: Cursor, size: nat, count: nat, total: nat)
    requires size > 0 && At(c, size) && total <= Times(count, size) && c.sent + (size - c.offset) < total
    ensures c.desc + 1 < count && At(Cursor(c.sent + (size - c.offset), c.desc + 1, c.buffer + size, 0), size)
    ensures c.desc + 1 <= LastBuffer(total, size)
  {
    assert Times(c.desc + 1, size) == Times(c.desc, size) + size;
    if count <= c.desc + 1 { TimesMonotone(count, c.desc + 1, size); }
    Beyond(total, c.desc + 1, size);
  }

  // ---------------------------------------------------------------- receive

  function Total(lens: seq<nat>): nat {
    if lens == [] then 0 else lens[0] + Total(lens[1..])
  }

  /** The first `n` bytes of `payload` are those of the ring from `from` on. */
  ghost predicate Filled(payload: Payload, mem: Payload, from: nat, n: nat) {
    n <= |payload| && from + n <= |mem| && payload[..n] == mem[from..from + n]
  }

  /** The inner loop of rt_stm32_eth_rx: fill one payload from as many buffers as it takes. */
  method FillPayload(mem: array<Byte>, size: nat, payload: array<Byte>, c0: Cursor) returns (c: Cursor)
    requires size > 0 && payload != mem && At(c0, size) && c0.sent + payload.Length <= mem.Length
    modifies payload
    ensures At(c, size) && c.sent == c0.sent + payload.Length && payload[..] == mem[c0.sent..c.sent]
  {
    hide Times, Filled, At;
    c := c0;
    var byteslefttocopy: nat, payloadoffset: nat := payload.Length, 0;
    NothingFilled(payload[..], mem[..], c0.sent);
    while byteslefttocopy + c.offset > size
      invariant payloadoffset + byteslefttocopy == payload.Length && At(c, size) && c.sent == c0.sent + payloadoffset
      invariant Filled(payload[..], mem[..], c0.sent, payloadoffset)
      decreases byteslefttocopy + (if c.offset == size then 1 else 0)
    {
      AtFacts(c, size);
      var n := size - c.offset;
      CopyOut(payload, payloadoffset, mem, c.buffer + c.offset, n, c0.sent);
      NextAt(c, size);
      c := Cursor(c.sent + n, c.desc + 1, c.buffer + size, 0);
      byteslefttocopy := byteslefttocopy - n;
      payloadoffset := payloadoffset + n;
    }
    AtFacts(c, size);
    Within(c, byteslefttocopy, size);
    CopyOut(payload, payloadoffset, mem, c.buffer + c.offset, byteslefttocopy, c0.sent);
    c := Cursor(c.sent + byteslefttocopy, c.desc, c.buffer, c.offset + byteslefttocopy);
    AllFilled(payload[..], mem[..], c0.sent);
  }

  lemma NothingFilled(payload: Payload, mem: Payload, from: nat)
    requires from <= |mem|
    ensures Filled(payload, mem, from, 0)
  {}

  lemma AllFilled(payload: Payload, mem: Payload, from: nat)
    requires Filled(payload, mem, from, |payload|)
    ensures from + |payload| <= |mem| && payload == mem[from..from + |payload|]
  {}

  lemma NextAt(c: Cursor, size: nat)
    requires At(c, size)
    ensures At(Cursor(c.sent + (size - c.offset), c.desc + 1, c.buffer + size, 0), size)
  {}

  /** memcpy of `n` bytes out of the ring, behind the `at` bytes already there. */
  method CopyOut(payload: array<Byte>, at: nat, mem: array<Byte>, from: nat, n: nat, ghost start: nat)
    requires payload != mem && at + n <= payload.Length && from + n <= mem.Length && from == start + at
    requires Filled(payload[..], mem[..], start, at)
    modifies payload
    ensures Filled(payload[..], mem[..], start, at + n)
  {
    forall i | 0 <= i < n { payload[at + i] := mem[from + i]; }
    assert payload[..][..at] == old(payload[..])[..at];
    assert payload[..][..at + n] == payload[..][..at] + mem[..][from..from + n];
  }

  /** rt_stm32_eth_rx into a chain of pbufs of the lengths given: together they hold the first bytes
      of the frame, in order. */
  method Receive(mem: array<Byte>, size: nat, lens: seq<nat>) returns (chain: seq<Payload>)
    requires size > 0 && Total(lens) <= mem.Length
    ensures |chain| == |lens| && (forall i :: 0 <= i < |lens| ==> |chain[i]| == lens[i])
    ensures Concat(chain) == mem[..Total(lens)]
  {
    hide Concat, Total, At;
    chain := [];
    var c := Cursor(0, 0, 0, 0);
    var q := 0;
    Start(size);
    assert lens[0..] == lens;
    NoPayloads();
    while q < |lens|
      invariant q == |chain| <= |lens| && (forall i :: 0 <= i < q ==> |chain[i]| == lens[i])
      invariant At(c, size) && c.sent + Total(lens[q..]) == Total(lens) && Concat(chain) == mem[..c.sent]
    {
      TotalNext(lens, q);
      var payload := new Byte[lens[q]];
      ghost var from := c.sent;
      c := FillPayload(mem, size, payload, c);
      ConcatSnoc(chain, payload[..]);
      assert mem[..c.sent] == mem[..from] + mem[from..c.sent];
      chain := chain + [payload[..]];
      q := q + 1;
    }
    TotalEnd(lens);
  }

  lemma NoPayloads()
    ensures Concat([]) == []
  {}

  lemma TotalNext(lens: seq<nat>, q: nat)
    requires q < |lens|
    ensures Total(lens[q..]) == lens[q] + Total(lens[q + 1..])
  {
    assert lens[q..][1..] == lens[q + 1..];
  }

  lemma TotalEnd(lens: seq<nat>)
    ensures Total(lens[|lens|..]) == 0
  {}

  lemma {:induction false} ConcatSnoc(chain: seq<Payload>, p: Payload)
    ensures Concat(chain + [p]) == Concat(chain) + p
  {
    if chain == [] {
      assert [] + [p] == [p] && [p][1..] == [];
    } else {
      ConcatSnoc(chain[1..], p);
      assert (chain + [p])[1..] == chain[1..] + [p];
    }
  }

  /** The bytes and the lengths determine the chain: what was sent from pbufs of some lengths and is
      received into pbufs of the same lengths is received unchanged. */
  lemma {:induction false} ChainDetermined(a: seq<Payload>, b: seq<Payload>)
    requires |a| == |b| && (forall i :: 0 <= i < |a| ==> |a[i]| == |b[i]|) && Concat(a) == Concat(b)
    ensures a == b
  {
    if a != [] {
      assert a[0] == Concat(a)[..|a[0]|] && b[0] == Concat(b)[..|b[0]|];
      assert Concat(a[1..]) == Concat(a)[|a[0]|..] && Concat(b[1..]) == Concat(b)[|b[0]|..];
      ChainDetermined(a[1..], b[1..]);
      assert a == [a[0]] + a[1..] && b == [b[0]] + b[1..];
    }
  }

  /** The lengths of the pbufs of a chain. */
  function Lengths(chain: seq<Payload>): (r: seq<nat>)
    ensures |r| == |chain|
  {
    if chain == [] then [] else [|chain[0]|] + Lengths(chain[1..])
  }

  lemma {:induction false} LengthsFacts(chain: seq<Payload>)
    ensures forall i :: 0 <= i < |chain| ==> Lengths(chain)[i] == |chain[i]|
    ensures Total(Lengths(chain)) == |Concat(chain)|
  {
    if chain != [] {
      LengthsFacts(chain[1..]);
      assert Lengths(chain)[1..] == Lengths(chain[1..]);
    }
  }

  /** Buffers that hold what Transmit leaves of the chain `sent`, gathered as Receive gathers them
      into pbufs of the same lengths, give the chain back. */
  lemma RoundTrip(mem: Payload, sent: seq<Payload>, back: seq<Payload>)
    requires |Concat(sent)| <= |mem| && mem[..|Concat(sent)|] == Concat(sent)
    requires |back| == |sent| && (forall i :: 0 <= i < |sent| ==> |back[i]| == Lengths(sent)[i])
    requires Total(Lengths(sent)) <= |mem| && Concat(back) == mem[..Total(Lengths(sent))]
    ensures back == sent
  {
    LengthsFacts(sent);
    ChainDetermined(back, sent);
  }

  /** The two drivers back to back over one ring: unless a descriptor is missing, every chain that
      fits comes back as it was. */
  method Loopback(mem: array<Byte>, size: nat, count: nat, own: seq<bool>, chain: seq<Payload>) returns (ok: bool, back: seq<Payload>)
    requires size > 0 && count > 0 && mem.Length == Times(count, size) && |own| == count
    requires |Concat(chain)| <= mem.Length
    modifies mem
    ensures ok <==> chain == [] || Available(own, LastBuffer(|Concat(chain)|, size))
    ensures ok ==> back == chain
  {
    back := [];
    var framelength: nat;
    ok, framelength := Transmit(mem, size, count, own, chain);
    LengthsFacts(chain);
    if ok {
      back := Receive(mem, size, Lengths(chain));
      RoundTrip(mem[..], chain, back);
    }
  }
}
