/** The unbounded output of rt_vsnprintf, character for character as the code produces it on a
    32-bit target (rt-thread/src/kservice.c, lines 619-841 and 886-1103): what is printed does not
    depend on the buffer. */
module PrintfSpec {

  /** What va_arg yields: a 32-bit word, or a string, possibly null. */
  datatype Arg = Word(value: nat) | Text(text: string) | Null

  datatype Flags = Flags(left: bool, plus: bool, space: bool, special: bool, zeropad: bool, sign: bool, large: bool)

  const NO_FLAGS := Flags(false, false, false, false, false, false, false)

  const WORD := 0x1_0000_0000

  function CharAt(s: string, i: nat): char {
    if i < |s| then s[i] else '\0'
  }

  predicate IsDigit(c: char) {
    '0' <= c <= '9'
  }

  /** A missing argument reads as zero. */
  function WordOf(args: seq<Arg>): nat {
    if args != [] && args[0].Word? then args[0].value % WORD else 0
  }

  function Rest(args: seq<Arg>): seq<Arg> {
    if args == [] then [] else args[1..]
  }

  /** A word read as a signed int. */
  function Signed(n: nat): int {
    if n >= WORD / 2 then n - WORD else n
  }

  function Repeat(c: char, n: int): (s: string)
    ensures |s| == if n > 0 then n else 0
  {
    if n <= 0 then "" else [c] + Repeat(c, n - 1)
  }

  // ---------------------------------------------------------------- numbers

  function Digit(d: nat, large: bool): char
    requires d < 16
  {
    if large then "0123456789ABCDEF"[d] else "0123456789abcdef"[d]
  }

  /** The divider: by 10 when asked for base 10, otherwise by 16. */
  function Quotient(n: nat, base: nat): nat {
    if base == 10 then n / 10 else n / 16
  }

  function Remainder(n: nat, base: nat): (r: nat)
    ensures r < 16
  {
    if base == 10 then n % 10 else n % 16
  }

  /** The digits of a nonzero number, least significant first, as they are put into `tmp`. */
  function Digits(n: nat, base: nat, large: bool): string {
    if n == 0 then "" else [Digit(Remainder(n, base), large)] + Digits(Quotient(n, base), base, large)
  }

  function NumberDigits(n: nat, base: nat, large: bool): string {
    if n == 0 then "0" else Digits(n, base, large)
  }

  function Reverse(s: string): (r: string)
    ensures |r| == |s|
  {
    if s == "" then "" else Reverse(s[1..]) + [s[0]]
  }

  /** What `while (size-- > 0)` leaves in `size`. */
  function Spent(size: int): int {
    if size > 0 then -1 else size - 1
  }

  function SignOf(n: nat, f: Flags): string {
    if !f.sign then "" else if n >= WORD / 2 then "-" else if f.plus then "+" else if f.space then " " else ""
  }

  function Magnitude(n: nat, f: Flags): nat {
    if f.sign && WORD > n >= WORD / 2 then WORD - n else n
  }

  function Prefix(base: nat, f: Flags): string {
    if !f.special then "" else if base == 8 then "0" else if base == 16 then (if f.large then "0X" else "0x") else ""
  }

  /** The flags print_number goes by: LEFT cancels ZEROPAD. */
  function Justified(f: Flags): Flags {
    if f.left then f.(zeropad := false) else f
  }

  /** The field that is left once digits, precision and prefix are accounted for. */
  function FieldLeft(base: nat, width: int, digits: nat, precision: int, f: Flags): int {
    width - (if f.special then (if base == 16 then 2 else if base == 8 then 1 else 0) else 0) - (if digits > precision then digits else precision)
  }

  /** Spaces put first, when the field is neither zero padded nor left justified. */
  function LeadingSpaces(size: int, sign: string, f: Flags): int {
    if f.zeropad || f.left then 0 else if sign != "" && size > 0 then size - 1 else size
  }

  /** What is left of the field after those spaces and the sign. */
  function Padded(size: int, sign: string, f: Flags): int {
    (if f.zeropad || f.left then size else Spent(if sign != "" && size > 0 then size - 1 else size)) - (if sign != "" then 1 else 0)
  }

  function LeadText(size: int, sign: string, prefix: string, f: Flags): string {
    Repeat(' ', LeadingSpaces(size, sign, f)) + sign + prefix + Repeat(if f.zeropad then '0' else ' ', if f.left then 0 else Padded(size, sign, f))
  }

  function TailText(tmp: string, zeros: int, digits: bool, size: int): string {
    Repeat('0', zeros) + (if digits then Reverse(tmp) else "") + Repeat(' ', size)
  }

  /** print_number. */
  function NumberText(n: nat, base: nat, width: int, precision: int, flags: Flags): string {
    var f := Justified(flags);
    var sign := SignOf(n, f);
    var tmp := NumberDigits(Magnitude(n, f), base, f.large);
    var size := FieldLeft(base, width, |tmp|, precision, f);
    var padded := Padded(size, sign, f);
    LeadText(size, sign, Prefix(base, f), f)
    + TailText(tmp, precision - |tmp|, precision != 0, if f.left then padded else Spent(padded))
  }

  // ---------------------------------------------------------------- directives

  function FlagChar(c: char, f: Flags): Flags {
    if c == '-' then f.(left := true) else if c == '+' then f.(plus := true) else if c == ' ' then f.(space := true)
    else if c == '#' then f.(special := true) else if c == '0' then f.(zeropad := true) else f
  }

  predicate IsFlag(c: char) {
    c == '-' || c == '+' || c == ' ' || c == '#' || c == '0'
  }

  function ScanFlags(fmt: string, i: nat, f: Flags): (Flags, nat)
    decreases |fmt| - i
  {
    if i < |fmt| && IsFlag(fmt[i]) then ScanFlags(fmt, i + 1, FlagChar(fmt[i], f)) else (f, i)
  }

  /** skip_atoi. */
  function Atoi(fmt: string, i: nat, acc: int): (int, nat)
    decreases |fmt| - i
  {
    if i < |fmt| && IsDigit(fmt[i]) then Atoi(fmt, i + 1, acc * 10 + (fmt[i] as int - '0' as int)) else (acc, i)
  }

  /** Where a directive stands: flags, width, precision, next character, arguments left. */
  datatype Scan = Scan(f: Flags, width: int, precision: int, i: nat, args: seq<Arg>)

  function ScanWidth(fmt: string, s: Scan): Scan {
    if IsDigit(CharAt(fmt, s.i)) then
      var (w, i) := Atoi(fmt, s.i, 0);
      s.(width := w, i := i)
    else if CharAt(fmt, s.i) == '*' then
      var w := Signed(WordOf(s.args));
      if w < 0 then s.(width := -w, f := s.f.(left := true), i := s.i + 1, args := Rest(s.args))
      else s.(width := w, i := s.i + 1, args := Rest(s.args))
    else s.(width := -1)
  }

  function ScanPrecision(fmt: string, s: Scan): Scan {
    if CharAt(fmt, s.i) != '.' then s.(precision := -1)
    else if IsDigit(CharAt(fmt, s.i + 1)) then
      var (p, i) := Atoi(fmt, s.i + 1, 0);
      s.(precision := if p < 0 then 0 else p, i := i)
    else if CharAt(fmt, s.i + 1) == '*' then
      var p := Signed(WordOf(s.args));
      s.(precision := if p < 0 then 0 else p, i := s.i + 2, args := Rest(s.args))
    else s.(precision := 0, i := s.i + 1)
  }

  /** Flags, width and precision of the directive whose '%' is at `i`. */
  function ScanAll(fmt: string, i: nat, args: seq<Arg>): Scan {
    var (f, j) := ScanFlags(fmt, i + 1, NO_FLAGS);
    ScanPrecision(fmt, ScanWidth(fmt, Scan(f, -1, -1, j, args)))
  }

  predicate IsQualifier(c: char) {
    c == 'h' || c == 'l'
  }

  function Chars(width: int, c: char, left: bool): string {
    if left then [c] + Repeat(' ', width - 1) else Repeat(' ', width - 1) + [c]
  }

  function StringOf(args: seq<Arg>): string {
    if args != [] && args[0].Text? then args[0].text else "(NULL)"
  }

  /** The part of a string that is printed: cut at a NUL, at the width, and at the precision. */
  function Shown(s: string, width: int, precision: int, k: nat): (n: nat)
    requires k <= |s|
    ensures n <= |s|
    decreases |s| - k
  {
    if k == width || k == |s| || s[k] == '\0' then (if precision > 0 && k > precision then precision else k)
    else Shown(s, width, precision, k + 1)
  }

  function StringText(s: string, width: int, precision: int, left: bool): string {
    var n := Shown(s, width, precision, 0);
    if left then s[..n] + Repeat(' ', width - n) else Repeat(' ', width - n) + s[..n]
  }

  /** The integer conversions read a word through their qualifier. */
  function Fetch(args: seq<Arg>, q: char, sign: bool): nat {
    var w := WordOf(args);
    if q == 'h' then
      var h := w % 0x1_0000;
      if sign && h >= 0x8000 then WORD - 0x1_0000 + h else h
    else w
  }

  function IntegerBase(c: char): nat {
    if c == 'o' then 8 else if c == 'x' || c == 'X' then 16 else 10
  }

  predicate IsInteger(c: char) {
    c == 'o' || c == 'x' || c == 'X' || c == 'd' || c == 'i' || c == 'u'
  }

  function IntegerFlags(c: char, f: Flags): Flags {
    f.(large := c == 'X', sign := c == 'd' || c == 'i')
  }

  /** The text of the directive at `i`, the index behind it, and the arguments left. */
  function Directive(fmt: string, i: nat, args: seq<Arg>): (r: (string, nat, seq<Arg>))
    requires i < |fmt|
    ensures i < r.1
  {
    var s := ScanAll(fmt, i, args);
    ScanAdvances(fmt, i, args);
    var q := if IsQualifier(CharAt(fmt, s.i)) then CharAt(fmt, s.i) else '\0';
    var j := if IsQualifier(CharAt(fmt, s.i)) then s.i + 1 else s.i;
    var c := CharAt(fmt, j);
    if c == 'c' then (Chars(s.width, (WordOf(s.args) % 256) as char, s.f.left), j + 1, Rest(s.args))
    else if c == 's' then (StringText(StringOf(s.args), s.width, s.precision, s.f.left), j + 1, Rest(s.args))
    else if c == 'p' then
      (NumberText(WordOf(s.args), 16, if s.width == -1 then 8 else s.width, s.precision,
                  if s.width == -1 then s.f.(zeropad := true) else s.f), j + 1, Rest(s.args))
    else if c == '%' then ("%", j + 1, s.args)
    else if IsInteger(c) then
      (NumberText(Fetch(s.args, q, c == 'd' || c == 'i'), IntegerBase(c), s.width, s.precision, IntegerFlags(c, s.f)), j + 1, Rest(s.args))
    else if j < |fmt| then ("%" + [c], j + 1, s.args)
    else ("%", j, s.args)
  }

  lemma {:induction false} ScanFlagsAdvances(fmt: string, i: nat, f: Flags)
    ensures ScanFlags(fmt, i, f).1 >= i && (i <= |fmt| ==> ScanFlags(fmt, i, f).1 <= |fmt|)
    decreases |fmt| - i
  {
    if i < |fmt| && IsFlag(fmt[i]) { ScanFlagsAdvances(fmt, i + 1, FlagChar(fmt[i], f)); }
  }

  lemma {:induction false} AtoiAdvances(fmt: string, i: nat, acc: int)
    ensures Atoi(fmt, i, acc).1 >= i && (i <= |fmt| ==> Atoi(fmt, i, acc).1 <= |fmt|)
    ensures acc >= 0 ==> Atoi(fmt, i, acc).0 >= 0
    decreases |fmt| - i
  {
    if i < |fmt| && IsDigit(fmt[i]) { AtoiAdvances(fmt, i + 1, acc * 10 + (fmt[i] as int - '0' as int)); }
  }

  lemma ScanAdvances(fmt: string, i: nat, args: seq<Arg>)
    requires i < |fmt|
    ensures i < ScanAll(fmt, i, args).i <= |fmt|
  {
    ScanFlagsAdvances(fmt, i + 1, NO_FLAGS);
    var (f, j) := ScanFlags(fmt, i + 1, NO_FLAGS);
    AtoiAdvances(fmt, j, 0);
    var s := ScanWidth(fmt, Scan(f, -1, -1, j, args));
    AtoiAdvances(fmt, s.i + 1, 0);
  }

  /** Everything rt_vsnprintf prints from index `i` on. */
  function FormatFrom(fmt: string, i: nat, args: seq<Arg>): string
    decreases |fmt| - i
  {
    if i >= |fmt| then ""
    else if fmt[i] != '%' then [fmt[i]] + FormatFrom(fmt, i + 1, args)
    else
      var (text, next, rest) := Directive(fmt, i, args);
      text + FormatFrom(fmt, next, rest)
  }

  function Format(fmt: string, args: seq<Arg>): string {
    FormatFrom(fmt, 0, args)
  }

  // ---------------------------------------------------------------- reading back

  function DigitValue(c: char): nat {
    if '0' <= c <= '9' then c as nat - '0' as nat else if 'a' <= c <= 'f' then c as nat - 'a' as nat + 10
    else if 'A' <= c <= 'F' then c as nat - 'A' as nat + 10 else 0
  }

  /** The number whose digits are `s`, least significant first. */
  function Value(s: string, base: nat): nat {
    if s == "" then 0
    else if base == 10 then DigitValue(s[0]) + 10 * Value(s[1..], base)
    else DigitValue(s[0]) + 16 * Value(s[1..], base)
  }

  lemma DigitReadsBack(d: nat, large: bool)
    requires d < 16
    ensures DigitValue(Digit(d, large)) == d
  {}

  /** The digits printed read back as the number in base 10 for base 10 and in base 16 for every
      other base. */
  lemma {:induction false} DigitsReadBack(n: nat, base: nat, large: bool)
    ensures Value(Digits(n, base, large), base) == n
  {
    if n > 0 {
      hide Digit, DigitValue;
      DigitReadsBack(Remainder(n, base), large);
      DigitsReadBack(Quotient(n, base), base, large);
      assert Digits(n, base, large)[1..] == Digits(Quotient(n, base), base, large);
    }
  }

  // ---------------------------------------------------------------- octal

  /** The number a numeral denotes in base `b`, most significant digit first. */
  function Numeral(s: string, b: nat): nat {
    if s == "" then 0 else b * Numeral(s[..|s| - 1], b) + DigitValue(s[|s| - 1])
  }

  predicate OctalDigits(s: string) {
    forall k :: 0 <= k < |s| ==> '0' <= s[k] <= '7'
  }

  /** `s` is a numeral for `n` in base 8. */
  predicate OctalFor(s: string, n: nat) {
    OctalDigits(s) && Numeral(s, 8) == n
  }

  /** Divided by 16, a number comes out too small in base 8 as soon as it has two digits. */
  lemma {:induction false} OctalTooSmall(n: nat, large: bool)
    ensures Numeral(Reverse(Digits(n, 8, large)), 8) <= n
    ensures n >= 16 ==> Numeral(Reverse(Digits(n, 8, large)), 8) < n
  {
    if n > 0 {
      OctalTooSmall(n / 16, large);
      OctalStep(n, large);
    }
  }

  lemma OctalStep(n: nat, large: bool)
    requires n > 0
    ensures Numeral(Reverse(Digits(n, 8, large)), 8) == 8 * Numeral(Reverse(Digits(n / 16, 8, large)), 8) + n % 16
  {
    hide Digit, DigitValue;
    DigitReadsBack(n % 16, large);
    var d := Digits(n, 8, large);
    assert d[1..] == Digits(n / 16, 8, large) && d[0] == Digit(n % 16, large);
    assert Reverse(d)[..|d| - 1] == Reverse(d[1..]);
  }

  /** What print_number puts for base 8 is a numeral for the number in base 8 exactly when the
      number has one octal digit. */
  lemma OctalIffOneDigit(n: nat, large: bool)
    ensures OctalFor(Reverse(NumberDigits(n, 8, large)), n) <==> n < 8
  {
    hide NumberDigits, Digits, Reverse, OctalFor;
    if n < 16 {
      OneDigit(n, large);
      OneOctalDigit(n, large);
    } else {
      OctalTooSmall(n, large);
      MoreDigits(n, large);
    }
  }

  lemma MoreDigits(n: nat, large: bool)
    requires n > 0
    ensures NumberDigits(n, 8, large) == Digits(n, 8, large)
    ensures forall s: string :: OctalFor(s, n) ==> Numeral(s, 8) == n
  {}

  lemma OneOctalDigit(d: nat, large: bool)
    requires d < 16
    ensures OctalFor([Digit(d, large)], d) <==> d < 8
  {
    var s := [Digit(d, large)];
    DigitReadsBack(d, large);
    assert s[..0] == "" && Numeral("", 8) == 0;
    assert '0' <= Digit(d, large) <= '7' <==> d < 8;
  }

  lemma OneDigit(n: nat, large: bool)
    requires n < 16
    ensures Reverse(NumberDigits(n, 8, large)) == [Digit(n, large)]
  {
    if n > 0 {
      assert Digits(n / 16, 8, large) == "";
      assert Digits(n, 8, large) == [Digit(n, large)];
    }
    assert Reverse([Digit(n, large)]) == Reverse([]) + [Digit(n, large)];
  }

  /** `%o` of a word prints what print_number puts for base 8, and nothing else. */
  lemma OctalDirective(n: nat)
    requires n < WORD
    ensures Format("%o", [Word(n)]) == Reverse(NumberDigits(n, 8, false))
  {
    hide NumberDigits, Reverse, Digits, NumberText;
    var s := ScanAll("%o", 0, [Word(n)]);
    assert ScanFlags("%o", 1, NO_FLAGS) == (NO_FLAGS, 1);
    assert s == Scan(NO_FLAGS, -1, -1, 1, [Word(n)]);
    assert Directive("%o", 0, [Word(n)]) == (NumberText(n, 8, -1, -1, NO_FLAGS), 2, []);
    PlainNumber(n, 8);
    assert FormatFrom("%o", 2, []) == "";
  }

  /** Without flags, width and precision a number is its digits. */
  lemma PlainNumber(n: nat, base: nat)
    ensures NumberText(n, base, -1, -1, NO_FLAGS) == Reverse(NumberDigits(n, base, false))
  {
    hide NumberDigits, Reverse;
    assert forall k: int :: k <= 0 ==> Repeat(' ', k) == "" && Repeat('0', k) == "";
  }

  /** `%o` prints a numeral for its argument in base 8 if and only if the argument is below 8. */
  lemma OctalIffBelowEight(n: nat)
    requires n < WORD
    ensures OctalFor(Format("%o", [Word(n)]), n) <==> n < 8
  {
    hide *;
    OctalDirective(n);
    OctalIffOneDigit(n, false);
  }

  /** The least number printed wrongly: 8 comes out as "8". */
  lemma EightPrintsEight()
    ensures Format("%o", [Word(8)]) == "8" && !OctalFor("8", 8)
  {
    hide Format;
    OctalDirective(8);
    OneDigit(8, false);
  }

  // ---------------------------------------------------------------- plain text

  /** Text without a '%' is printed as it stands. */
  lemma {:induction false} PlainText(fmt: string, i: nat, args: seq<Arg>)
    requires i <= |fmt| && forall k :: i <= k < |fmt| ==> fmt[k] != '%'
    ensures FormatFrom(fmt, i, args) == fmt[i..]
    decreases |fmt| - i
  {
    if i < |fmt| { PlainText(fmt, i + 1, args); }
  }

  // ---------------------------------------------------------------- numerals

  lemma {:induction false} NumeralOfDigits(n: nat, base: nat, large: bool)
    requires base == 10 || base == 16
    ensures Numeral(Reverse(Digits(n, base, large)), base) == n
  {
    if n > 0 {
      NumeralOfDigits(Quotient(n, base), base, large);
      DigitReadsBack(Remainder(n, base), large);
      hide Digit, DigitValue;
      var d := Digits(n, base, large);
      assert d[1..] == Digits(Quotient(n, base), base, large) && d[0] == Digit(Remainder(n, base), large);
      assert Reverse(d) == Reverse(d[1..]) + [d[0]];
      assert Reverse(d)[..|d| - 1] == Reverse(d[1..]);
    }
  }

  lemma NumeralOfNumber(n: nat, base: nat, large: bool)
    requires base == 10 || base == 16
    ensures Numeral(Reverse(NumberDigits(n, base, large)), base) == n
  {
    NumeralOfDigits(n, base, large);
    if n == 0 {
      assert Reverse("0") == Reverse("") + ['0'] == "0";
      assert "0"[..0] == "";
    }
  }

  /** A signed number without width and precision is its digits behind a '-' if it is negative. */
  lemma PlainSigned(n: nat)
    requires n < WORD
    ensures NumberText(n, 10, -1, -1, NO_FLAGS.(sign := true)) ==
      if n >= WORD / 2 then "-" + Reverse(NumberDigits(WORD - n, 10, false)) else Reverse(NumberDigits(n, 10, false))
  {
    hide NumberDigits, Reverse;
    assert forall k: int :: k <= 0 ==> Repeat(' ', k) == "" && Repeat('0', k) == "";
  }

  lemma Conversion(c: char, n: nat)
    requires n < WORD && (c == 'd' || c == 'u' || c == 'x')
    ensures Format(['%', c], [Word(n)]) == NumberText(n, if c == 'x' then 16 else 10, -1, -1, NO_FLAGS.(sign := c == 'd'))
  {
    hide NumberText;
    var fmt := ['%', c];
    var s := ScanAll(fmt, 0, [Word(n)]);
    assert ScanFlags(fmt, 1, NO_FLAGS) == (NO_FLAGS, 1);
    assert s == Scan(NO_FLAGS, -1, -1, 1, [Word(n)]);
    assert Directive(fmt, 0, [Word(n)]) == (NumberText(n, if c == 'x' then 16 else 10, -1, -1, NO_FLAGS.(sign := c == 'd')), 2, []);
    assert FormatFrom(fmt, 2, []) == "";
  }

  /** `%u` and `%d` print a decimal numeral for the word read as an unsigned and as a signed number,
      `%x` a hexadecimal one. */
  lemma PrintsTheNumber(n: nat)
    requires n < WORD
    ensures Numeral(Format("%u", [Word(n)]), 10) == n && Numeral(Format("%x", [Word(n)]), 16) == n
    ensures var s := Format("%d", [Word(n)]);
      if n >= WORD / 2 then s != "" && s[0] == '-' && Numeral(s[1..], 10) == WORD - n else Numeral(s, 10) == n
  {
    hide Format, NumberText, NumberDigits, Reverse, Numeral;
    Conversion('d', n);
    Conversion('u', n);
    Conversion('x', n);
    PlainNumber(n, 10);
    PlainNumber(n, 16);
    PlainSigned(n);
    NumeralOfNumber(n, 10, false);
    NumeralOfNumber(n, 16, false);
    if n >= WORD / 2 {
      var d := Reverse(NumberDigits(WORD - n, 10, false));
      NumeralOfNumber(WORD - n, 10, false);
      assert ("-" + d)[1..] == d;
    }
  }

  // ---------------------------------------------------------------- fields

  function Max(a: int, b: int): int {
    if a < b then b else a
  }

  /** The characters a number has besides its digits and its padding. */
  function SignAndPrefix(n: nat, base: nat, f: Flags): nat {
    (if f.sign && (n >= WORD / 2 || f.plus || f.space) then 1 else 0)
    + (if f.special && base == 16 then 2 else if f.special && base == 8 then 1 else 0)
  }

  /** How long a number comes out: as wide as the field, or as what has to be printed.  With precision
      0 no digits are printed, yet they take up room in the field. */
  lemma NumberLength(n: nat, base: nat, width: int, precision: int, flags: Flags)
    ensures var digits := |NumberDigits(Magnitude(n, flags), base, flags.large)|;
      |NumberText(n, base, width, precision, flags)| ==
        if precision == 0 then Max(width - digits, SignAndPrefix(n, base, flags))
        else Max(width, SignAndPrefix(n, base, flags) + Max(digits, precision))
  {
    hide NumberDigits, LeadText, TailText, Magnitude, SignOf, Prefix, Spent, Padded, LeadingSpaces, SignAndPrefix;
    var f := Justified(flags);
    var tmp := NumberDigits(Magnitude(n, f), base, f.large);
    var size := FieldLeft(base, width, |tmp|, precision, f);
    var sign, prefix, padded := SignOf(n, f), Prefix(base, f), Padded(size, SignOf(n, f), f);
    SomeDigits(Magnitude(n, flags), base, flags.large);
    SameMagnitude(n, flags);
    FieldParts(n, base, flags);
    LeadLength(size, sign, prefix, f);
    TailLength(tmp, precision - |tmp|, precision != 0, if f.left then padded else Spent(padded));
    PaddingFills(size, sign, f);
  }

  lemma LeadLength(size: int, sign: string, prefix: string, f: Flags)
    ensures |LeadText(size, sign, prefix, f)| ==
      Max(LeadingSpaces(size, sign, f), 0) + |sign| + |prefix| + Max(if f.left then 0 else Padded(size, sign, f), 0)
  {}

  lemma TailLength(tmp: string, zeros: int, digits: bool, size: int)
    ensures |TailText(tmp, zeros, digits, size)| == Max(zeros, 0) + (if digits then |tmp| else 0) + Max(size, 0)
  {}

  /** The padding and the sign together fill what is left of the field, on one side. */
  lemma PaddingFills(size: int, sign: string, f: Flags)
    requires |sign| <= 1 && (f.left ==> !f.zeropad)
    ensures var padded := Padded(size, sign, f);
      Max(LeadingSpaces(size, sign, f), 0) + |sign| + Max(if f.left then 0 else padded, 0) + Max(if f.left then padded else Spent(padded), 0)
        == Max(size, |sign|)
  {}

  lemma SameMagnitude(n: nat, f: Flags)
    ensures Magnitude(n, Justified(f)) == Magnitude(n, f)
  {}

  lemma SomeDigits(n: nat, base: nat, large: bool)
    ensures |NumberDigits(n, base, large)| > 0
  {}

  lemma FieldParts(n: nat, base: nat, flags: Flags)
    ensures var f := Justified(flags);
      |SignOf(n, f)| + |Prefix(base, f)| == SignAndPrefix(n, base, flags) && |SignOf(n, f)| <= 1
    ensures var f := Justified(flags);
      forall w: int, d: nat, p: int :: FieldLeft(base, w, d, p, f) == w - |Prefix(base, f)| - Max(d, p)
  {}

  /** A number fills its field if and only if it is not printed with precision 0, or what comes in
      front of its digits fills the field already. */
  lemma FieldFilledIff(n: nat, base: nat, width: int, precision: int, flags: Flags)
    ensures |NumberText(n, base, width, precision, flags)| >= width <==> precision != 0 || width <= SignAndPrefix(n, base, flags)
  {
    hide NumberText, NumberDigits, Magnitude, SignAndPrefix;
    NumberLength(n, base, width, precision, flags);
    SomeDigits(Magnitude(n, flags), base, flags.large);
  }

  /** With precision 0 a number prints nothing, so the output denotes it if and only if it is zero. */
  lemma PrecisionZeroIffZero(n: nat)
    requires n < WORD
    ensures Format("%.0u", [Word(n)]) == ""
    ensures Numeral(Format("%.0u", [Word(n)]), 10) == n <==> n == 0
  {
    hide NumberText, Reverse;
    var fmt := "%.0u";
    assert ScanFlags(fmt, 1, NO_FLAGS) == (NO_FLAGS, 1);
    assert Atoi(fmt, 2, 0) == (0, 3);
    assert ScanAll(fmt, 0, [Word(n)]) == Scan(NO_FLAGS, -1, 0, 3, [Word(n)]);
    assert Directive(fmt, 0, [Word(n)]) == (NumberText(n, 10, -1, 0, NO_FLAGS), 4, []);
    NumberLength(n, 10, -1, 0, NO_FLAGS);
    assert FormatFrom(fmt, 4, []) == "";
  }

  lemma {:induction false} ShownIs(s: string, width: int, precision: int, k: nat)
    requires k <= |s| && (forall i :: 0 <= i < |s| ==> s[i] != '\0') && (width < 0 || k <= width)
    ensures var cut := if 0 <= width < |s| then width else |s|;
      Shown(s, width, precision, k) == if precision > 0 && cut > precision then precision else cut
    decreases |s| - k
  {
    if !(k == width || k == |s|) { ShownIs(s, width, precision, k + 1); }
  }

  /** `text` is all of `s`, padded with blanks on one side. */
  ghost predicate PaddedWith(text: string, s: string, left: bool) {
    exists k: nat :: text == if left then s + Repeat(' ', k) else Repeat(' ', k) + s
  }

  /** A field width cuts a string: without a precision a string is printed whole if and only if it has
      no width or is not longer than it. */
  lemma StringWholeIff(s: string, width: int, left: bool)
    requires forall i :: 0 <= i < |s| ==> s[i] != '\0'
    ensures PaddedWith(StringText(s, width, -1, left), s, left) <==> width < 0 || |s| <= width
  {
    hide Shown, Repeat;
    ShownIs(s, width, -1, 0);
    var text := StringText(s, width, -1, left);
    if width < 0 || |s| <= width {
      var k: nat := if width > |s| then width - |s| else 0;
      assert Repeat(' ', width - |s|) == Repeat(' ', k) by { NoBlanks(width - |s|, k); }
      assert s[..|s|] == s;
    } else {
      assert |text| == width;
    }
  }

  lemma NoBlanks(a: int, k: nat)
    requires k == if a > 0 then a else 0
    ensures Repeat(' ', a) == Repeat(' ', k)
  {}

  /** So `%2s` prints two characters of "abc". */
  lemma WidthCuts()
    ensures StringText("abc", 2, -1, false) == "ab" && !PaddedWith("ab", "abc", false)
  {
    ShownIs("abc", 2, -1, 0);
    StringWholeIff("abc", 2, false);
    assert Repeat(' ', 0) == "" && "abc"[..2] == "ab";
  }

  // ---------------------------------------------------------------- printing and scanning

  /** skip_atoi reads the decimal numeral that ends where the digits do. */
  lemma {:induction false} AtoiIsNumeral(fmt: string, i: nat, j: nat, k: nat)
    requires i <= j <= k <= |fmt| && (forall x :: i <= x < k ==> IsDigit(fmt[x])) && (k < |fmt| ==> !IsDigit(fmt[k]))
    ensures Atoi(fmt, j, Numeral(fmt[i..j], 10)) == (Numeral(fmt[i..k], 10), k)
    decreases k - j
  {
    if j < k {
      var s := fmt[i..j + 1];
      assert s[..|s| - 1] == fmt[i..j] && s[|s| - 1] == fmt[j];
      AtoiIsNumeral(fmt, i, j + 1, k);
    }
  }

  predicate Decimal(s: string) {
    forall k :: 0 <= k < |s| ==> IsDigit(s[k])
  }

  /** The digits of a number in base 10 are decimal digits, and the most significant one is not 0. */
  lemma {:induction false} DigitsAreDecimal(n: nat)
    ensures Decimal(Digits(n, 10, false)) && (n > 0 ==> var d := Digits(n, 10, false); d != "" && d[|d| - 1] != '0')
  {
    if n > 0 {
      var d, rest := Digits(n, 10, false), Digits(n / 10, 10, false);
      assert d == [Digit(n % 10, false)] + rest;
      DigitsAreDecimal(n / 10);
      assert forall k :: 0 < k < |d| ==> d[k] == rest[k - 1];
    }
  }

  lemma {:induction false} ReverseAt(s: string)
    ensures Decimal(s) ==> Decimal(Reverse(s))
    ensures s != "" ==> Reverse(s)[0] == s[|s| - 1]
  {
    if s != "" {
      ReverseAt(s[1..]);
      var r := Reverse(s);
      if Decimal(s) {
        assert s[0] == r[|r| - 1] && Decimal(s[1..]);
        assert forall k :: 0 <= k < |r| - 1 ==> r[k] == Reverse(s[1..])[k];
      }
    }
  }

  /** What `%u` prints are decimal digits without a leading 0, unless the number is 0. */
  lemma PrintedDecimal(n: nat)
    requires n < WORD
    ensures var s := Format("%u", [Word(n)]); Decimal(s) && s != "" && (n > 0 ==> s[0] != '0') && Numeral(s, 10) == n
    ensures Format("%u", [Word(n)]) == Reverse(NumberDigits(n, 10, false))
  {
    hide Format, Digits, NumberText, Decimal, Reverse;
    Conversion('u', n);
    PlainNumber(n, 10);
    NumeralOfNumber(n, 10, false);
    DigitsAreDecimal(n);
    ReverseAt(NumberDigits(n, 10, false));
    assert n == 0 ==> Decimal("0") by { ZeroIsDecimal(); }
    SomeDigits(n, 10, false);
  }

  lemma ZeroIsDecimal()
    ensures Decimal("0")
  {}

  /** skip_atoi reads back what `%u` prints. */
  lemma ScanUndoesPrint(n: nat)
    requires n < WORD
    ensures var s := Format("%u", [Word(n)]); Atoi(s, 0, 0) == (n, |s|)
  {
    hide Format;
    PrintedDecimal(n);
    var s := Format("%u", [Word(n)]);
    assert s[0..0] == "" && s[0..|s|] == s;
    AtoiIsNumeral(s, 0, 0, |s|);
  }

  /** The width a directive asks for, itself printed by `%u`, is the width of its field: the number
      stands at the right end of as many characters, or takes the room it needs. */
  lemma WidthIsHonoured(w: nat, n: nat)
    requires 0 < w < WORD && n < WORD
    ensures var number := Format("%u", [Word(n)]);
      Format("%" + Format("%u", [Word(w)]) + "u", [Word(n)]) == Repeat(' ', w - |number|) + number
  {
    hide Format, NumberText, NumberDigits, Digits, Reverse, Numeral, Repeat;
    PrintedDecimal(w);
    PrintedDecimal(n);
    var s := Format("%u", [Word(w)]);
    Field(s, w, n);
    PlainField(n, w);
  }

  /** The directive with the field width `s`. */
  lemma Field(s: string, w: nat, n: nat)
    requires Decimal(s) && s != "" && s[0] != '0' && Numeral(s, 10) == w && n < WORD
    ensures Format("%" + s + "u", [Word(n)]) == NumberText(n, 10, w, -1, NO_FLAGS)
  {
    hide NumberText;
    var fmt := "%" + s + "u";
    var k := |s| + 1;
    assert fmt[1..k] == s && fmt[1..1] == "" && fmt[k] == 'u' && fmt[1] == s[0];
    assert forall x :: 1 <= x < k ==> fmt[x] == s[x - 1];
    AtoiIsNumeral(fmt, 1, 1, k);
    assert ScanFlags(fmt, 1, NO_FLAGS) == (NO_FLAGS, 1);
    assert ScanAll(fmt, 0, [Word(n)]) == Scan(NO_FLAGS, w, -1, k, [Word(n)]);
    assert Directive(fmt, 0, [Word(n)]) == (NumberText(n, 10, w, -1, NO_FLAGS), k + 1, []);
    assert FormatFrom(fmt, k + 1, []) == "";
  }

  lemma PlainField(n: nat, w: nat)
    ensures var number := Reverse(NumberDigits(n, 10, false)); NumberText(n, 10, w, -1, NO_FLAGS) == Repeat(' ', w - |number|) + number
  {
    hide NumberDigits, Reverse;
    assert forall k: int :: k <= 0 ==> Repeat(' ', k) == "" && Repeat('0', k) == "";
  }

  // ---------------------------------------------------------------- flags and conversions

  /** Without a field a number is its sign, its prefix and its digits. */
  lemma Unpadded(n: nat, base: nat, f: Flags)
    ensures NumberText(n, base, -1, -1, f) == SignOf(n, f) + Prefix(base, f) + Reverse(NumberDigits(Magnitude(n, f), base, f.large))
  {
    hide NumberDigits, Reverse, Magnitude;
    SameMagnitude(n, f);
    assert forall k: int :: k <= 0 ==> Repeat(' ', k) == "" && Repeat('0', k) == "";
  }

  /** A conversion with one flag, or with the flag `'\0'` none, for a word. */
  lemma Flagged(flag: char, c: char, n: nat)
    requires n < WORD && IsFlag(flag) && (c == 'd' || c == 'u' || c == 'x' || c == 'X' || c == 'o')
    ensures var f := Flags(flag == '-', flag == '+', flag == ' ', flag == '#', flag == '0', c == 'd', c == 'X');
      Format(['%', flag, c], [Word(n)]) == NumberText(n, if c == 'o' then 8 else if c == 'x' || c == 'X' then 16 else 10, -1, -1, f)
  {
    hide NumberText;
    var fmt, f := ['%', flag, c], FlagChar(flag, NO_FLAGS);
    assert ScanFlags(fmt, 2, f) == (f, 2);
    assert ScanFlags(fmt, 1, NO_FLAGS) == (f, 2);
    assert ScanAll(fmt, 0, [Word(n)]) == Scan(f, -1, -1, 2, [Word(n)]);
    assert Directive(fmt, 0, [Word(n)]) == (NumberText(n, IntegerBase(c), -1, -1, IntegerFlags(c, f)), 3, []);
    assert FormatFrom(fmt, 3, []) == "";
  }

  lemma Unflagged(c: char, n: nat)
    requires n < WORD && (c == 'd' || c == 'u' || c == 'x' || c == 'X' || c == 'o')
    ensures var f := NO_FLAGS.(sign := c == 'd', large := c == 'X');
      Format(['%', c], [Word(n)]) == NumberText(n, if c == 'o' then 8 else if c == 'x' || c == 'X' then 16 else 10, -1, -1, f)
  {
    hide NumberText;
    var fmt := ['%', c];
    assert ScanFlags(fmt, 1, NO_FLAGS) == (NO_FLAGS, 1);
    assert ScanAll(fmt, 0, [Word(n)]) == Scan(NO_FLAGS, -1, -1, 1, [Word(n)]);
    assert Directive(fmt, 0, [Word(n)]) == (NumberText(n, IntegerBase(c), -1, -1, IntegerFlags(c, NO_FLAGS)), 2, []);
    assert FormatFrom(fmt, 2, []) == "";
  }

  /** `+` and a blank put a sign in front of a number that is not negative. */
  lemma SignFlags(n: nat)
    requires n < WORD
    ensures n < WORD / 2 ==> Format("%+d", [Word(n)]) == "+" + Format("%u", [Word(n)]) && Format("% d", [Word(n)]) == " " + Format("%u", [Word(n)])
    ensures n >= WORD / 2 ==> Format("%+d", [Word(n)]) == Format("%d", [Word(n)]) == Format("% d", [Word(n)])
  {
    hide Format, NumberText, NumberDigits, Reverse;
    Flagged('+', 'd', n);
    Flagged(' ', 'd', n);
    Unflagged('d', n);
    Unflagged('u', n);
    Unpadded(n, 10, NO_FLAGS.(sign := true, plus := true));
    Unpadded(n, 10, NO_FLAGS.(sign := true, space := true));
    Unpadded(n, 10, NO_FLAGS.(sign := true));
    Unpadded(n, 10, NO_FLAGS);
  }

  /** `#` puts the prefix of the base in front. */
  lemma PrefixFlag(n: nat)
    requires n < WORD
    ensures Format("%#x", [Word(n)]) == "0x" + Format("%x", [Word(n)]) && Format("%#X", [Word(n)]) == "0X" + Format("%X", [Word(n)])
    ensures Format("%#o", [Word(n)]) == "0" + Format("%o", [Word(n)]) && Format("%#u", [Word(n)]) == Format("%u", [Word(n)])
  {
    hide Format, NumberText, NumberDigits, Reverse;
    Flagged('#', 'x', n);
    Flagged('#', 'X', n);
    Flagged('#', 'o', n);
    Flagged('#', 'u', n);
    Unflagged('x', n);
    Unflagged('X', n);
    Unflagged('o', n);
    Unflagged('u', n);
    PrefixFlags(n, 16, false);
    PrefixFlags(n, 16, true);
    PrefixFlags(n, 8, false);
    PrefixFlags(n, 10, false);
  }

  lemma PrefixFlags(n: nat, base: nat, large: bool)
    requires base == 8 || base == 10 || base == 16
    ensures var prefix := if base == 8 then "0" else if base == 10 then "" else if large then "0X" else "0x";
      NumberText(n, base, -1, -1, NO_FLAGS.(special := true, large := large)) == prefix + NumberText(n, base, -1, -1, NO_FLAGS.(large := large))
  {
    hide NumberText, NumberDigits, Reverse;
    Unpadded(n, base, NO_FLAGS.(special := true, large := large));
    Unpadded(n, base, NO_FLAGS.(large := large));
  }

  function UpperChar(c: char): char {
    if 'a' <= c <= 'f' then c - 'a' + 'A' else c
  }

  function Upper(s: string): string {
    if s == "" then "" else [UpperChar(s[0])] + Upper(s[1..])
  }

  predicate LowerHex(s: string) {
    forall k :: 0 <= k < |s| ==> '0' <= s[k] <= '9' || 'a' <= s[k] <= 'f'
  }

  lemma UpperSnoc(s: string, c: char)
    ensures Upper(s + [c]) == Upper(s) + [UpperChar(c)]
  {
    if s == "" { assert "" + [c] == [c]; } else {
      UpperSnoc(s[1..], c);
      assert (s + [c])[1..] == s[1..] + [c];
    }
  }

  lemma {:induction false} UpperDigits(n: nat)
    ensures Reverse(Digits(n, 16, true)) == Upper(Reverse(Digits(n, 16, false))) && LowerHex(Reverse(Digits(n, 16, false)))
  {
    if n > 0 {
      UpperDigits(n / 16);
      var l, u := Digits(n, 16, false), Digits(n, 16, true);
      assert l[1..] == Digits(n / 16, 16, false) && u[1..] == Digits(n / 16, 16, true);
      UpperSnoc(Reverse(l[1..]), l[0]);
      DigitCase(n % 16);
    }
  }

  lemma DigitCase(d: nat)
    requires d < 16
    ensures Digit(d, true) == UpperChar(Digit(d, false)) && ('0' <= Digit(d, false) <= '9' || 'a' <= Digit(d, false) <= 'f')
  {}

  /** `%x` prints lower-case digits, `%X` the same in upper case. */
  lemma UpperCase(n: nat)
    requires n < WORD
    ensures LowerHex(Format("%x", [Word(n)])) && Format("%X", [Word(n)]) == Upper(Format("%x", [Word(n)]))
  {
    hide Format, NumberText, NumberDigits, Reverse, Upper, LowerHex;
    Unflagged('x', n);
    Unflagged('X', n);
    Unpadded(n, 16, NO_FLAGS);
    Unpadded(n, 16, NO_FLAGS.(large := true));
    UpperNumber(n);
    var x, y := Reverse(NumberDigits(n, 16, false)), Reverse(NumberDigits(n, 16, true));
    assert "" + "" + x == x && "" + "" + y == y;
  }

  lemma UpperNumber(n: nat)
    ensures Reverse(NumberDigits(n, 16, true)) == Upper(Reverse(NumberDigits(n, 16, false))) && LowerHex(Reverse(NumberDigits(n, 16, false)))
  {
    UpperDigits(n);
    assert Reverse("0") == Reverse("") + ['0'];
    assert Upper("0") == ['0'] + Upper("");
  }

  /** `-` moves the number to the left end of its field, `0` fills the field with zeros. */
  lemma FieldFlags(w: nat, n: nat)
    requires 0 < w < WORD && n < WORD
    ensures var number := Format("%u", [Word(n)]); var width := Format("%u", [Word(w)]);
      && Format("%-" + width + "u", [Word(n)]) == number + Repeat(' ', w - |number|)
      && Format("%0" + width + "u", [Word(n)]) == Repeat('0', w - |number|) + number
  {
    hide Format, NumberText, NumberDigits, Digits, Reverse, Numeral, Repeat;
    PrintedDecimal(w);
    PrintedDecimal(n);
    var s := Format("%u", [Word(w)]);
    FlaggedField('-', s, w, n);
    FlaggedField('0', s, w, n);
    assert "%-" == "%" + ['-'] && "%0" == "%" + ['0'];
    LeftField(n, w);
    ZeroField(n, w);
  }

  lemma FlaggedField(flag: char, s: string, w: nat, n: nat)
    requires Decimal(s) && s != "" && s[0] != '0' && Numeral(s, 10) == w && n < WORD && (flag == '-' || flag == '0')
    ensures Format("%" + [flag] + s + "u", [Word(n)]) == NumberText(n, 10, w, -1, NO_FLAGS.(left := flag == '-', zeropad := flag == '0'))
  {
    hide NumberText;
    var fmt := "%" + [flag] + s + "u";
    var k := |s| + 2;
    var f := NO_FLAGS.(left := flag == '-', zeropad := flag == '0');
    assert fmt[2..k] == s && fmt[2..2] == "" && fmt[k] == 'u' && fmt[2] == s[0] && fmt[1] == flag;
    assert forall x :: 2 <= x < k ==> fmt[x] == s[x - 2];
    AtoiIsNumeral(fmt, 2, 2, k);
    assert ScanFlags(fmt, 2, f) == (f, 2);
    assert ScanFlags(fmt, 1, NO_FLAGS) == (f, 2);
    assert ScanAll(fmt, 0, [Word(n)]) == Scan(f, w, -1, k, [Word(n)]);
    assert Directive(fmt, 0, [Word(n)]) == (NumberText(n, 10, w, -1, f), k + 1, []);
    assert FormatFrom(fmt, k + 1, []) == "";
  }

  lemma LeftField(n: nat, w: nat)
    ensures var number := Reverse(NumberDigits(n, 10, false));
      NumberText(n, 10, w, -1, NO_FLAGS.(left := true)) == number + Repeat(' ', w - |number|)
  {
    hide NumberDigits, Reverse;
    assert forall k: int :: k <= 0 ==> Repeat(' ', k) == "" && Repeat('0', k) == "";
  }

  lemma ZeroField(n: nat, w: nat)
    ensures var number := Reverse(NumberDigits(n, 10, false));
      NumberText(n, 10, w, -1, NO_FLAGS.(zeropad := true)) == Repeat('0', w - |number|) + number
  {
    hide NumberDigits, Reverse;
    assert forall k: int :: k <= 0 ==> Repeat(' ', k) == "" && Repeat('0', k) == "";
  }

  /** A width passed as an argument is the width; a negative one means its magnitude, to the left. */
  lemma WidthArgument(w: nat, n: nat)
    requires 0 < w < WORD / 2 && n < WORD
    ensures var number := Format("%u", [Word(n)]);
      && Format("%*u", [Word(w), Word(n)]) == Repeat(' ', w - |number|) + number
      && Format("%*u", [Word(WORD - w), Word(n)]) == number + Repeat(' ', w - |number|)
  {
    hide Format, NumberText, NumberDigits, Digits, Reverse, Repeat;
    PrintedDecimal(n);
    StarField(w, n);
    StarField(WORD - w, n);
    PlainField(n, w);
    LeftField(n, w);
  }

  lemma StarField(w: nat, n: nat)
    requires w < WORD && n < WORD
    ensures Format("%*u", [Word(w), Word(n)]) ==
      NumberText(n, 10, if w >= WORD / 2 then WORD - w else w, -1, NO_FLAGS.(left := w >= WORD / 2))
  {
    hide NumberText;
    var fmt, args := "%*u", [Word(w), Word(n)];
    var width, f := if w >= WORD / 2 then WORD - w else w, NO_FLAGS.(left := w >= WORD / 2);
    assert ScanFlags(fmt, 1, NO_FLAGS) == (NO_FLAGS, 1);
    assert args[1..] == [Word(n)] && [Word(n)][1..] == [];
    assert ScanAll(fmt, 0, args) == Scan(f, width, -1, 2, [Word(n)]);
    assert Directive(fmt, 0, args) == (NumberText(n, 10, width, -1, f), 3, []);
    assert FormatFrom(fmt, 3, []) == "";
  }

  /** `h` prints the lower half of a word, for `%hd` with its own sign; `l` changes nothing. */
  lemma Qualifiers(n: nat)
    requires n < WORD
    ensures Format("%hu", [Word(n)]) == Format("%u", [Word(n % 0x1_0000)]) && Format("%lu", [Word(n)]) == Format("%u", [Word(n)])
    ensures Format("%ld", [Word(n)]) == Format("%d", [Word(n)])
    ensures var h := n % 0x1_0000; Format("%hd", [Word(n)]) == Format("%d", [Word(if h >= 0x8000 then WORD - (0x1_0000 - h) else h)])
  {
    hide Format, NumberText;
    var h := n % 0x1_0000;
    Qualified('h', 'u', n);
    Qualified('l', 'u', n);
    Qualified('h', 'd', n);
    Qualified('l', 'd', n);
    Unflagged('u', h);
    Unflagged('u', n);
    Unflagged('d', n);
    Unflagged('d', if h >= 0x8000 then WORD - (0x1_0000 - h) else h);
  }

  lemma Qualified(q: char, c: char, n: nat)
    requires n < WORD && (q == 'h' || q == 'l') && (c == 'd' || c == 'u')
    ensures var h := n % 0x1_0000;
      Format(['%', q, c], [Word(n)]) ==
        NumberText(if q == 'l' then n else if c == 'd' && h >= 0x8000 then WORD - (0x1_0000 - h) else h, 10, -1, -1, NO_FLAGS.(sign := c == 'd'))
  {
    hide NumberText;
    var fmt := ['%', q, c];
    assert ScanFlags(fmt, 1, NO_FLAGS) == (NO_FLAGS, 1);
    assert ScanAll(fmt, 0, [Word(n)]) == Scan(NO_FLAGS, -1, -1, 1, [Word(n)]);
    var text := NumberText(Fetch([Word(n)], q, c == 'd'), 10, -1, -1, NO_FLAGS.(sign := c == 'd'));
    assert Directive(fmt, 0, [Word(n)]) == (text, 3, []);
    assert FormatFrom(fmt, 3, []) == "";
  }

  /** A pointer is eight hexadecimal digits, filled up with zeros. */
  lemma PointerDirective(n: nat)
    requires n < WORD
    ensures var x := Format("%x", [Word(n)]); Format("%p", [Word(n)]) == Repeat('0', 8 - |x|) + x
  {
    hide NumberText, NumberDigits, Reverse;
    Unflagged('x', n);
    Unpadded(n, 16, NO_FLAGS);
    assert ScanFlags("%p", 1, NO_FLAGS) == (NO_FLAGS, 1);
    assert ScanAll("%p", 0, [Word(n)]) == Scan(NO_FLAGS, -1, -1, 1, [Word(n)]);
    assert Directive("%p", 0, [Word(n)]) == (NumberText(n, 16, 8, -1, NO_FLAGS.(zeropad := true)), 2, []);
    assert FormatFrom("%p", 2, []) == "";
    ZeroHex(n);
  }

  lemma ZeroHex(n: nat)
    ensures var x := Reverse(NumberDigits(n, 16, false)); NumberText(n, 16, 8, -1, NO_FLAGS.(zeropad := true)) == Repeat('0', 8 - |x|) + x
  {
    hide NumberDigits, Reverse;
    assert forall k: int :: k <= 0 ==> Repeat(' ', k) == "" && Repeat('0', k) == "";
  }

  /** A string is printed as it stands, a null pointer as (NULL), a character as itself, and `%%` as a
      single '%'. */
  lemma OtherDirectives(s: string, c: char, args: seq<Arg>)
    requires c as int < 256 && forall i :: 0 <= i < |s| ==> s[i] != '\0'
    ensures Format("%s", [Text(s)]) == s && Format("%s", [Null]) == "(NULL)"
    ensures Format("%c", [Word(c as nat)]) == [c] && Format("%%", args) == "%"
  {
    hide StringText;
    StringDirective([Text(s)]);
    StringDirective([Null]);
    WholeString(s);
    WholeString("(NULL)");
    assert ScanFlags("%c", 1, NO_FLAGS) == (NO_FLAGS, 1);
    assert ScanAll("%c", 0, [Word(c as nat)]) == Scan(NO_FLAGS, -1, -1, 1, [Word(c as nat)]);
    CharOf(c);
    assert Directive("%c", 0, [Word(c as nat)]) == ([c], 2, []);
    assert FormatFrom("%c", 2, []) == "";
    assert ScanFlags("%%", 1, NO_FLAGS) == (NO_FLAGS, 1);
    assert ScanAll("%%", 0, args) == Scan(NO_FLAGS, -1, -1, 1, args);
    assert Directive("%%", 0, args) == ("%", 2, args);
    assert FormatFrom("%%", 2, args) == "";
  }

  lemma CharOf(c: char)
    requires c as int < 256
    ensures Chars(-1, (WordOf([Word(c as nat)]) % 256) as char, false) == [c]
  {
    assert WordOf([Word(c as nat)]) % 256 == c as nat;
    assert Repeat(' ', -2) == "";
  }

  lemma StringDirective(args: seq<Arg>)
    requires |args| == 1
    ensures Format("%s", args) == StringText(StringOf(args), -1, -1, false)
  {
    hide StringText;
    assert ScanFlags("%s", 1, NO_FLAGS) == (NO_FLAGS, 1);
    assert ScanAll("%s", 0, args) == Scan(NO_FLAGS, -1, -1, 1, args);
    assert Directive("%s", 0, args) == (StringText(StringOf(args), -1, -1, false), 2, []);
    assert FormatFrom("%s", 2, []) == "";
  }

  lemma WholeString(s: string)
    requires forall i :: 0 <= i < |s| ==> s[i] != '\0'
    ensures StringText(s, -1, -1, false) == s
  {
    ShownIs(s, -1, -1, 0);
    assert s[..|s|] == s;
    assert forall k: int :: k <= 0 ==> Repeat(' ', k) == "";
  }

  /** A character stands at one end of its field. */
  lemma CharField(c: char, width: int, left: bool)
    ensures PaddedWith(Chars(width, c, left), [c], left) && |Chars(width, c, left)| == Max(width, 1)
  {
    hide Repeat;
    var k: nat := if width > 1 then width - 1 else 0;
    NoBlanks(width - 1, k);
    assert Chars(width, c, left) == if left then [c] + Repeat(' ', k) else Repeat(' ', k) + [c];
  }

  /** A precision cuts a string, unless it is 0. */
  lemma PrecisionCuts(s: string, precision: nat)
    requires forall i :: 0 <= i < |s| ==> s[i] != '\0'
    ensures StringText(s, -1, precision, false) == if 0 < precision < |s| then s[..precision] else s
  {
    ShownIs(s, -1, precision, 0);
    assert s[..|s|] == s;
    assert forall k: int :: k <= 0 ==> Repeat(' ', k) == "";
  }

  /** A precision, printed by `%u` into the directive or passed as an argument, is the least number of
      digits, made up with zeros; a negative argument and a '.' alone count as 0, and print nothing. */
  lemma PrecisionIsHonoured(p: nat, n: nat)
    requires 0 < p < WORD / 2 && n < WORD
    ensures var number := Format("%u", [Word(n)]);
      && Format("%." + Format("%u", [Word(p)]) + "u", [Word(n)]) == Repeat('0', p - |number|) + number
      && Format("%.*u", [Word(p), Word(n)]) == Repeat('0', p - |number|) + number
    ensures Format("%.*u", [Word(WORD - p), Word(n)]) == "" && Format("%.u", [Word(n)]) == ""
  {
    hide Format, NumberText, NumberDigits, Digits, Reverse, Numeral, Repeat, Decimal;
    PrintedDecimal(p);
    PrintedDecimal(n);
    PrecisionField(Format("%u", [Word(p)]), p, n);
    StarPrecision(p, n);
    StarPrecision(WORD - p, n);
    DotAlone(n);
    ZerosInFront(n, p);
    NumberLength(n, 10, -1, 0, NO_FLAGS) by { hide Max; }
    assert SignAndPrefix(n, 10, NO_FLAGS) == 0;
    SomeDigits(Magnitude(n, NO_FLAGS), 10, false);
  }

  lemma PrecisionField(s: string, p: nat, n: nat)
    requires Decimal(s) && s != "" && Numeral(s, 10) == p && n < WORD
    ensures Format("%." + s + "u", [Word(n)]) == NumberText(n, 10, -1, p, NO_FLAGS)
  {
    hide NumberText;
    var fmt := "%." + s + "u";
    var k := |s| + 2;
    assert fmt[2..k] == s && fmt[2..2] == "" && fmt[k] == 'u' && fmt[2] == s[0] && fmt[1] == '.';
    assert forall x :: 2 <= x < k ==> fmt[x] == s[x - 2];
    AtoiIsNumeral(fmt, 2, 2, k);
    assert ScanFlags(fmt, 1, NO_FLAGS) == (NO_FLAGS, 1);
    assert ScanAll(fmt, 0, [Word(n)]) == Scan(NO_FLAGS, -1, p, k, [Word(n)]);
    assert Directive(fmt, 0, [Word(n)]) == (NumberText(n, 10, -1, p, NO_FLAGS), k + 1, []);
    assert FormatFrom(fmt, k + 1, []) == "";
  }

  lemma StarPrecision(p: nat, n: nat)
    requires p < WORD && n < WORD
    ensures Format("%.*u", [Word(p), Word(n)]) == NumberText(n, 10, -1, if p >= WORD / 2 then 0 else p, NO_FLAGS)
  {
    hide NumberText;
    var fmt, args := "%.*u", [Word(p), Word(n)];
    var precision := if p >= WORD / 2 then 0 else p;
    assert ScanFlags(fmt, 1, NO_FLAGS) == (NO_FLAGS, 1);
    assert args[1..] == [Word(n)] && [Word(n)][1..] == [];
    assert ScanAll(fmt, 0, args) == Scan(NO_FLAGS, -1, precision, 3, [Word(n)]);
    assert Directive(fmt, 0, args) == (NumberText(n, 10, -1, precision, NO_FLAGS), 4, []);
    assert FormatFrom(fmt, 4, []) == "";
  }

  lemma DotAlone(n: nat)
    requires n < WORD
    ensures Format("%.u", [Word(n)]) == NumberText(n, 10, -1, 0, NO_FLAGS)
  {
    hide NumberText;
    var fmt := "%.u";
    assert ScanFlags(fmt, 1, NO_FLAGS) == (NO_FLAGS, 1);
    assert ScanAll(fmt, 0, [Word(n)]) == Scan(NO_FLAGS, -1, 0, 2, [Word(n)]);
    assert Directive(fmt, 0, [Word(n)]) == (NumberText(n, 10, -1, 0, NO_FLAGS), 3, []);
    assert FormatFrom(fmt, 3, []) == "";
  }

  lemma ZerosInFront(n: nat, p: nat)
    requires p > 0
    ensures var number := Reverse(NumberDigits(n, 10, false)); NumberText(n, 10, -1, p, NO_FLAGS) == Repeat('0', p - |number|) + number
  {
    hide NumberDigits, Reverse;
    assert forall k: int :: k <= 0 ==> Repeat(' ', k) == "" && Repeat('0', k) == "";
  }

  /** What is no conversion is printed as it stands, and so is a '%' at the end. */
  lemma UnknownDirective(c: char, args: seq<Arg>)
    requires !IsFlag(c) && !IsDigit(c) && !IsQualifier(c) && !IsInteger(c)
    requires c != '*' && c != '.' && c != 'c' && c != 's' && c != 'p' && c != '%'
    ensures Format(['%', c], args) == ['%', c] && Format("%", args) == "%"
  {
    var fmt := ['%', c];
    assert ScanFlags(fmt, 1, NO_FLAGS) == (NO_FLAGS, 1);
    assert ScanAll(fmt, 0, args) == Scan(NO_FLAGS, -1, -1, 1, args);
    assert Directive(fmt, 0, args) == ("%" + [c], 2, args);
    assert FormatFrom(fmt, 2, args) == "";
    assert ScanFlags("%", 1, NO_FLAGS) == (NO_FLAGS, 1);
    assert ScanAll("%", 0, args) == Scan(NO_FLAGS, -1, -1, 1, args);
    assert Directive("%", 0, args) == ("%", 1, args);
    assert FormatFrom("%", 1, args) == "";
  }
}
