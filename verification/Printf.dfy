/** rt_vsnprintf and print_number writing through a moving pointer (rt-thread/src/kservice.c, lines
    682-841 and 886-1115). */
module Printf {
  import opened PrintfSpec

  function Least(a: nat, b: nat): nat {
    if a < b then a else b
  }

  /** The pointers str and end into a buffer, and what has been printed so far. */
  class Sink {
    const buf: array<char>
    const end: nat
    ghost const was: seq<char>
    var str: nat
    ghost var out: string

    /** What has been printed is in the buffer as far as it reaches, and nothing else is touched. */
    ghost predicate Valid()
      reads this, buf
    {
      && end <= buf.Length == |was| && str == |out|
      && (forall i :: 0 <= i < Least(str, end) ==> buf[i] == out[i])
      && (forall i :: Least(str, end) <= i < buf.Length ==> buf[i] == was[i])
    }

    constructor (buf: array<char>, end: nat)
      requires end <= buf.Length
      ensures Valid() && this.buf == buf && this.end == end && out == "" && was == buf[..]
    {
      this.buf, this.end, str := buf, end, 0;
      out, was := "", buf[..];
    }

    /** `if (str < end) *str = c; ++ str;` */
    method Put(c: char)
      requires Valid()
      modifies this, buf
      ensures Valid() && out == old(out) + [c]
    {
      if str < end { buf[str] := c; }
      str := str + 1;
      out := out + [c];
    }

    /** `while (n-- > 0)` around a Put. */
    method Pad(c: char, n: int)
      requires Valid()
      modifies this, buf
      ensures Valid() && out == old(out) + Repeat(c, n)
    {
      var k := n;
      while k > 0
        invariant Valid() && k <= n && (n >= 0 ==> k >= 0)
        invariant out + Repeat(c, k) == old(out) + Repeat(c, n)
        decreases k
      {
        OneMore(out, c, k);
        Put(c);
        k := k - 1;
      }
    }
  }

  lemma OneMore(out: string, c: char, k: int)
    requires k > 0
    ensures (out + [c]) + Repeat(c, k - 1) == out + Repeat(c, k)
  {}

  // ---------------------------------------------------------------- print_number

  function Ten(k: nat): nat {
    if k == 0 then 1 else 10 * Ten(k - 1)
  }

  lemma {:induction false} DigitsBound(n: nat, base: nat, large: bool, k: nat)
    requires n < Ten(k)
    ensures |Digits(n, base, large)| <= k
    decreases k
  {
    if n > 0 { DigitsBound(Quotient(n, base), base, large, k - 1); }
  }

  /** A 32-bit number has at most ten digits: `tmp` never overflows. */
  lemma DigitsFit(n: nat, base: nat, large: bool)
    requires n < WORD
    ensures |Digits(n, base, large)| <= 10
  {
    assert Ten(2) == 100;
    assert Ten(4) == 10000;
    assert Ten(6) == 1000000;
    assert Ten(8) == 100000000;
    DigitsBound(n, base, large, 10);
  }

  /** The loop that puts the digits into `tmp`, least significant first. */
  method FillDigits(n: nat, base: nat, large: bool) returns (tmp: array<char>, i: nat)
    requires n < WORD
    ensures fresh(tmp) && tmp.Length == 16 && i <= tmp.Length && tmp[..i] == NumberDigits(n, base, large)
  {
    hide Digits, Digit, Remainder, Quotient;
    tmp := new char[16];
    i := 0;
    if n == 0 {
      tmp[0] := '0';
      return tmp, 1;
    }
    DigitsFit(n, base, large);
    var num: nat := n;
    ghost var done := "";
    while num != 0
      invariant i == |done| <= 10 && tmp[..i] == done && done + Digits(num, base, large) == Digits(n, base, large)
      decreases num
    {
      NextDigit(done, num, base, large);
      ghost var d := Digit(Remainder(num, base), large);
      assert |done + Digits(num, base, large)| <= 10;
      tmp[i] := Digit(Remainder(num, base), large);
      done := done + [d];
      num := Quotient(num, base);
      i := i + 1;
    }
    NoDigits(base, large);
  }

  lemma NoDigits(base: nat, large: bool)
    ensures Digits(0, base, large) == ""
  {}

  lemma NextDigit(done: string, n: nat, base: nat, large: bool)
    requires n > 0
    ensures done + Digits(n, base, large) == (done + [Digit(Remainder(n, base), large)]) + Digits(Quotient(n, base), base, large)
    ensures |Digits(n, base, large)| > 0 && Quotient(n, base) < n
  {}

  /** `while (i-- > 0) put(tmp[i])`. */
  method PutReversed(sink: Sink, tmp: array<char>, n: nat)
    requires sink.Valid() && tmp != sink.buf && n <= tmp.Length
    modifies sink, sink.buf
    ensures sink.Valid() && sink.out == old(sink.out) + Reverse(tmp[..n])
  {
    var i: nat := n;
    while i > 0
      invariant i <= n && sink.Valid()
      invariant sink.out + Reverse(tmp[..i]) == old(sink.out) + Reverse(tmp[..n])
    {
      ReverseLast(sink.out, tmp[..i]);
      assert tmp[..i][..i - 1] == tmp[..i - 1];
      i := i - 1;
      sink.Put(tmp[i]);
    }
  }

  lemma ReverseLast(out: string, s: string)
    requires s != ""
    ensures out + Reverse(s) == (out + [s[|s| - 1]]) + Reverse(s[..|s| - 1])
  {
    hide *;
    LastFirst(s);
    Regroup(out, [s[|s| - 1]], Reverse(s[..|s| - 1]));
  }

  lemma Regroup(a: string, b: string, c: string)
    ensures a + (b + c) == (a + b) + c
  {}

  lemma {:induction false} LastFirst(s: string)
    requires s != ""
    ensures Reverse(s) == [s[|s| - 1]] + Reverse(s[..|s| - 1])
  {
    if |s| > 1 {
      LastFirst(s[1..]);
      assert s[1..][..|s| - 2] == s[..|s| - 1][1..];
    }
  }

  method PutAll(sink: Sink, s: string)
    requires sink.Valid()
    modifies sink, sink.buf
    ensures sink.Valid() && sink.out == old(sink.out) + s
  {
    var i := 0;
    while i < |s|
      invariant i <= |s| && sink.Valid() && sink.out == old(sink.out) + s[..i]
    {
      sink.Put(s[i]);
      i := i + 1;
    }
  }

  /** Sign, prefix and the padding in front of the digits; `size` is what is left of the field. */
  method PutLead(sink: Sink, field: int, sign: string, prefix: string, f: Flags) returns (size: int)
    requires sink.Valid()
    modifies sink, sink.buf
    ensures sink.Valid() && sink.out == old(sink.out) + LeadText(field, sign, prefix, f)
    ensures size == (if f.left then Padded(field, sign, f) else Spent(Padded(field, sign, f)))
  {
    hide Repeat, Sink.Valid, LeadText;
    ghost var out := sink.out;
    size := field;
    LeadPieces(out, field, sign, prefix, f);
    if !(f.zeropad || f.left) {
      if sign != "" && size > 0 { size := size - 1; }
      sink.Pad(' ', size);
      size := Spent(size);
    }
    if sign != "" {
      PutAll(sink, sign);
      size := size - 1;
    }
    PutAll(sink, prefix);
    if !f.left {
      sink.Pad(if f.zeropad then '0' else ' ', size);
      size := Spent(size);
    }
  }

  lemma LeadPieces(out: string, field: int, sign: string, prefix: string, f: Flags)
    ensures var a := if f.zeropad || f.left then out else out + Repeat(' ', LeadingSpaces(field, sign, f));
      var b := if sign != "" then a + sign else a;
      var c := b + prefix;
      out + LeadText(field, sign, prefix, f) == if f.left then c else c + Repeat(if f.zeropad then '0' else ' ', Padded(field, sign, f))
  {}

  /** Zeros up to the precision, the digits unless the precision is 0, and the rest of the field. */
  method PutTail(sink: Sink, tmp: array<char>, i: nat, zeros: int, digits: bool, size: int)
    requires sink.Valid() && tmp != sink.buf && i <= tmp.Length
    modifies sink, sink.buf
    ensures sink.Valid() && sink.out == old(sink.out) + TailText(tmp[..i], zeros, digits, size)
  {
    hide Repeat, Reverse, Sink.Valid, TailText;
    TailPieces(sink.out, tmp[..i], zeros, digits, size);
    sink.Pad('0', zeros);
    if digits { PutReversed(sink, tmp, i); }
    sink.Pad(' ', size);
  }

  lemma TailPieces(out: string, tmp: string, zeros: int, digits: bool, size: int)
    ensures var a := out + Repeat('0', zeros);
      var b := if digits then a + Reverse(tmp) else a;
      out + TailText(tmp, zeros, digits, size) == b + Repeat(' ', size)
  {}

  /** print_number. */
  method PrintNumber(sink: Sink, n: nat, base: nat, s: int, precision_: int, flags: Flags)
    requires sink.Valid() && n < WORD
    modifies sink, sink.buf
    ensures sink.Valid() && sink.out == old(sink.out) + NumberText(n, base, s, precision_, flags)
  {
    hide Repeat, NumberDigits, SignOf, Prefix, Magnitude, LeadText, TailText, Sink.Valid, Padded;
    var precision, size := precision_, s;
    var f := Justified(flags);
    var sign := SignOf(n, f);
    if f.special {
      if base == 16 { size := size - 2; } else if base == 8 { size := size - 1; }
    }
    MagnitudeFits(n, f);
    var tmp, i := FillDigits(Magnitude(n, f), base, f.large);
    if i > precision { precision := i; }
    size := size - precision;
    size := PutLead(sink, size, sign, Prefix(base, f), f);
    SameZeros(tmp[..i], precision_, precision, precision_ != 0, size);
    PutTail(sink, tmp, i, precision - i, precision_ != 0, size);
  }

  /** The zeros are the same whether counted before or after the precision is raised to the digits. */
  lemma SameZeros(tmp: string, precision: int, raised: int, digits: bool, size: int)
    requires raised == if |tmp| > precision then |tmp| else precision
    ensures TailText(tmp, raised - |tmp|, digits, size) == TailText(tmp, precision - |tmp|, digits, size)
  {}

  lemma MagnitudeFits(n: nat, f: Flags)
    requires n < WORD
    ensures Magnitude(n, f) < WORD
  {}

  // ---------------------------------------------------------------- the format string

  /** `while (1) { ++fmt; ... }` over the flag characters. */
  method TakeFlags(fmt: string, i: nat) returns (f: Flags, j: nat)
    requires i <= |fmt|
    ensures (f, j) == ScanFlags(fmt, i, NO_FLAGS) && i <= j <= |fmt|
  {
    f, j := NO_FLAGS, i;
    while j < |fmt| && IsFlag(fmt[j])
      invariant i <= j <= |fmt| && ScanFlags(fmt, j, f) == ScanFlags(fmt, i, NO_FLAGS)
    {
      f := FlagChar(fmt[j], f);
      j := j + 1;
    }
  }

  /** skip_atoi. */
  method SkipAtoi(fmt: string, i: nat) returns (n: int, j: nat)
    requires i <= |fmt|
    ensures (n, j) == Atoi(fmt, i, 0) && i <= j <= |fmt|
  {
    n, j := 0, i;
    while j < |fmt| && IsDigit(fmt[j])
      invariant i <= j <= |fmt| && Atoi(fmt, j, n) == Atoi(fmt, i, 0)
    {
      n := n * 10 + (fmt[j] as int - '0' as int);
      j := j + 1;
    }
  }

  /** Flags, field width and precision. */
  method TakeScan(fmt: string, i: nat, args: seq<Arg>) returns (s: Scan)
    requires i < |fmt|
    ensures s == ScanAll(fmt, i, args) && i < s.i <= |fmt|
  {
    ScanAdvances(fmt, i, args);
    var f, j := TakeFlags(fmt, i + 1);
    var width := -1;
    var rest := args;
    if IsDigit(CharAt(fmt, j)) {
      width, j := SkipAtoi(fmt, j);
    } else if CharAt(fmt, j) == '*' {
      j := j + 1;
      width := Signed(WordOf(rest));
      rest := Rest(rest);
      if width < 0 { width, f := -width, f.(left := true); }
    }
    var precision := -1;
    if CharAt(fmt, j) == '.' {
      j := j + 1;
      precision := 0;
      if IsDigit(CharAt(fmt, j)) {
        precision, j := SkipAtoi(fmt, j);
      } else if CharAt(fmt, j) == '*' {
        j := j + 1;
        precision := Signed(WordOf(rest));
        rest := Rest(rest);
      }
      if precision < 0 { precision := 0; }
    }
    s := Scan(f, width, precision, j, rest);
  }

  /** The conversion of a character. */
  method PutChar(sink: Sink, width: int, c: char, left: bool)
    requires sink.Valid()
    modifies sink, sink.buf
    ensures sink.Valid() && sink.out == old(sink.out) + Chars(width, c, left)
  {
    hide Repeat, Sink.Valid;
    if !left { sink.Pad(' ', width - 1); }
    sink.Put(c);
    if left { sink.Pad(' ', width - 1); }
  }

  /** The conversion of a string. */
  method PutString(sink: Sink, s: string, width: int, precision: int, left: bool)
    requires sink.Valid()
    modifies sink, sink.buf
    ensures sink.Valid() && sink.out == old(sink.out) + StringText(s, width, precision, left)
  {
    hide Repeat, Sink.Valid;
    var len: nat := 0;
    while len != width && len < |s| && s[len] != '\0'
      invariant len <= |s| && Shown(s, width, precision, len) == Shown(s, width, precision, 0)
      decreases |s| - len
    {
      len := len + 1;
    }
    if precision > 0 && len > precision { len := precision; }
    if !left { sink.Pad(' ', width - len); }
    PutAll(sink, s[..len]);
    if left { sink.Pad(' ', width - len); }
  }

  /** One directive, from its '%' on. */
  method Convert(sink: Sink, fmt: string, i: nat, args: seq<Arg>) returns (next: nat, rest: seq<Arg>)
    requires sink.Valid() && i < |fmt|
    modifies sink, sink.buf
    ensures sink.Valid() && sink.out == old(sink.out) + Directive(fmt, i, args).0
    ensures (next, rest) == (Directive(fmt, i, args).1, Directive(fmt, i, args).2)
  {
    hide Sink.Valid, ScanAll, NumberText, StringText, Chars, Fetch, WordOf, StringOf, Rest;
    var s := TakeScan(fmt, i, args);
    var q := '\0';
    var j := s.i;
    if IsQualifier(CharAt(fmt, j)) { q, j := CharAt(fmt, j), j + 1; }
    var c := CharAt(fmt, j);
    next, rest := j + 1, Rest(s.args);
    if c == 'c' {
      WordIsWord(s.args, q, false);
      PutChar(sink, s.width, (WordOf(s.args) % 256) as char, s.f.left);
    } else if c == 's' {
      PutString(sink, StringOf(s.args), s.width, s.precision, s.f.left);
    } else if c == 'p' {
      var width, f := s.width, s.f;
      if width == -1 { width, f := 8, f.(zeropad := true); }
      WordIsWord(s.args, q, false);
      PrintNumber(sink, WordOf(s.args), 16, width, s.precision, f);
    } else if c == '%' {
      sink.Put('%');
      rest := s.args;
    } else if IsInteger(c) {
      WordIsWord(s.args, q, c == 'd' || c == 'i');
      PrintNumber(sink, Fetch(s.args, q, c == 'd' || c == 'i'), IntegerBase(c), s.width, s.precision, IntegerFlags(c, s.f));
    } else {
      rest := s.args;
      sink.Put('%');
      if j < |fmt| { sink.Put(c); } else { next := j; }
    }
  }

  lemma WordIsWord(args: seq<Arg>, q: char, sign: bool)
    ensures WordOf(args) < WORD && Fetch(args, q, sign) < WORD
  {}

  /** `end`, with the correction for a size that would wrap around the end of memory. */
  function Limit(base: nat, size: nat): nat
    requires base < WORD
  {
    if base + size >= WORD then WORD - 1 - base else size
  }

  /** rt_vsnprintf into the buffer at address `base`: it stores the first size - 1 characters of the
      unbounded output, or all of them, and a NUL behind them, touches nothing else, and returns
      the length of the unbounded output, whatever the size (section 7.21.6.12 of ISO/IEC
      9899:2011). */
  method Vsnprintf(buf: array<char>, base: nat, size: nat, fmt: string, args: seq<Arg>) returns (len: nat)
    requires base < WORD && Limit(base, size) <= buf.Length
    modifies buf
    ensures len == |Format(fmt, args)|
    ensures var n := Limit(base, size);
      && (n > 0 ==> buf[..Least(len, n - 1)] == Format(fmt, args)[..Least(len, n - 1)] && buf[Least(len, n - 1)] == '\0')
      && (forall k :: (if n > 0 then Least(len, n - 1) + 1 else 0) <= k < buf.Length ==> buf[k] == old(buf[k]))
  {
    var n := Limit(base, size);
    var sink := new Sink(buf, n);
    var i, rest := 0, args;
    while i < |fmt|
      invariant sink.Valid() && fresh(sink) && sink.buf == buf && sink.end == n && sink.was == old(buf[..])
      invariant sink.out + FormatFrom(fmt, i, rest) == Format(fmt, args)
      decreases |fmt| - i
    {
      i, rest := PrintStep(sink, fmt, i, rest);
    }
    assert sink.out == Format(fmt, args);
    if n > 0 {
      if sink.str < n { buf[sink.str] := '\0'; } else { buf[n - 1] := '\0'; }
    }
    len := sink.str;
  }

  /** One round of the loop over the format string. */
  method PrintStep(sink: Sink, fmt: string, i: nat, args: seq<Arg>) returns (next: nat, rest: seq<Arg>)
    requires sink.Valid() && i < |fmt|
    modifies sink, sink.buf
    ensures sink.Valid() && next > i
    ensures sink.out + FormatFrom(fmt, next, rest) == old(sink.out) + FormatFrom(fmt, i, args)
  {
    hide Sink.Valid, Directive;
    FormatStep(sink.out, fmt, i, args);
    if fmt[i] != '%' {
      sink.Put(fmt[i]);
      next, rest := i + 1, args;
    } else {
      next, rest := Convert(sink, fmt, i, args);
    }
  }

  lemma FormatStep(out: string, fmt: string, i: nat, args: seq<Arg>)
    requires i < |fmt|
    ensures fmt[i] != '%' ==> out + FormatFrom(fmt, i, args) == (out + [fmt[i]]) + FormatFrom(fmt, i + 1, args)
    ensures fmt[i] == '%' ==>
      var (text, next, rest) := Directive(fmt, i, args);
      next > i && out + FormatFrom(fmt, i, args) == (out + text) + FormatFrom(fmt, next, rest)
  {
    hide ScanAll, NumberText, StringText, Chars;
  }
}
