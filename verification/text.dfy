/** Text primitives the application borrows from Go's standard library:
    `unicode.IsSpace`, `strings.TrimSpace`, `strconv.Atoi` and the `%d` verb
    of `fmt.Sprintf`. Strings are sequences of Unicode code points, so Go's
    `utf8.RuneCountInString(s)` is `|s|`. */
module Text {
  import opened Wrappers

  /** Go's `unicode.IsSpace`: the Latin-1 space characters, and outside
      Latin-1 the characters with the Unicode White_Space property. */
  predicate IsSpace(c: char) {
    if c as int <= 0xFF then
      c == '\t' || c == '\n' || c as int == 0x0B || c as int == 0x0C || c == '\r' || c == ' '
      || c as int == 0x85 || c as int == 0xA0
    else
      c as int == 0x1680 || (0x2000 <= c as int <= 0x200A)
      || c as int == 0x2028 || c as int == 0x2029 || c as int == 0x202F
      || c as int == 0x205F || c as int == 0x3000
  }

  /** Within ASCII, white space is exactly tab, line feed, vertical tab,
      form feed, carriage return and space; the Latin-1 characters NEL and
      no-break space count too, while the zero-width space and the
      zero-width no-break space (byte order mark) do not. */
  lemma IsSpaceAscii(c: char)
    ensures c as int < 0x80 ==>
      (IsSpace(c) <==> c == '\t' || c == '\n' || c as int == 0x0B || c as int == 0x0C || c == '\r' || c == ' ')
    ensures IsSpace('\U{85}') && IsSpace('\U{A0}') && IsSpace('\U{3000}')
    ensures !IsSpace('\U{200B}') && !IsSpace('\U{FEFF}')
  {
  }

  /** Every code point of `s` is white space (vacuously true of ""). */
  predicate AllSpace(s: string) {
    forall i :: 0 <= i < |s| ==> IsSpace(s[i])
  }

  /** The index of the first code point at or after `k` that is not white
      space, or `|s|` when there is none. */
  function SkipSpace(s: string, k: nat): (n: nat)
    requires k <= |s|
    ensures k <= n <= |s|
    ensures forall i :: k <= i < n ==> IsSpace(s[i])
    ensures n == |s| || !IsSpace(s[n])
    decreases |s| - k
  {
    if k < |s| && IsSpace(s[k]) then SkipSpace(s, k + 1) else k
  }

  /** Scanning back from `k` but not below `lo`: the end of the last code
      point that is not white space, or `lo` when there is none. */
  function SkipSpaceBack(s: string, lo: nat, k: nat): (n: nat)
    requires lo <= k <= |s|
    ensures lo <= n <= k
    ensures forall i :: n <= i < k ==> IsSpace(s[i])
    ensures n == lo || !IsSpace(s[n - 1])
    decreases k
  {
    if lo < k && IsSpace(s[k - 1]) then SkipSpaceBack(s, lo, k - 1) else k
  }

  /** Go's `strings.TrimSpace`: leading and trailing white space removed. */
  function TrimSpace(s: string): (r: string)
    ensures r == [] <==> AllSpace(s)
  {
    var a := SkipSpace(s, 0);
    var b := SkipSpaceBack(s, a, |s|);
    assert a < |s| ==> a < b;
    s[a..b]
  }

  /** The test the validation rule for required fields applies:
      `strings.TrimSpace(v) == ""`. */
  predicate Blank(s: string) {
    TrimSpace(s) == ""
  }

  // ---------------------------------------------------------------------
  // Decimal numbers

  /** Bounds of Go's `int` on the 64-bit platforms the server runs on. */
  const MinInt: int := -0x8000_0000_0000_0000
  const MaxInt: int := 0x7FFF_FFFF_FFFF_FFFF

  predicate IsDigit(c: char) {
    '0' <= c <= '9'
  }

  predicate AllDigits(s: string) {
    forall i :: 0 <= i < |s| ==> IsDigit(s[i])
  }

  function DigitValue(c: char): (d: nat)
    requires IsDigit(c)
    ensures d < 10
  {
    c as int - '0' as int
  }

  function DigitChar(d: nat): (c: char)
    requires d < 10
    ensures IsDigit(c) && DigitValue(c) == d
  {
    ('0' as int + d) as char
  }

  /** The number a run of decimal digits denotes, leading zeros allowed; the
      empty run denotes 0. */
  function DigitsValue(s: string): nat
    requires AllDigits(s)
  {
    if |s| == 0 then 0 else DigitsValue(s[..|s| - 1]) * 10 + DigitValue(s[|s| - 1])
  }

  /** The shortest decimal spelling of a natural number. */
  function NatToDigits(n: nat): (r: string)
    ensures |r| > 0 && AllDigits(r)
    ensures r[0] == '0' ==> n == 0
    decreases n
  {
    if n < 10 then [DigitChar(n)] else NatToDigits(n / 10) + [DigitChar(n % 10)]
  }

  /** `fmt.Sprintf("%d", n)`: an optional minus sign followed by the shortest
      decimal spelling of the magnitude. */
  function IntToString(n: int): (r: string)
    ensures |r| > 0
    ensures r[0] == '-' <==> n < 0
    ensures n >= 0 ==> AllDigits(r)
    ensures n < 0 ==> |r| > 1 && AllDigits(r[1..])
    ensures r[0] == '0' ==> n == 0
    ensures n == 0 ==> r == "0"
    ensures n < 0 ==> r[1] != '0'
  {
    if n < 0 then "-" + NatToDigits(-n) else NatToDigits(n)
  }

  /** The syntax `strconv.Atoi` accepts in base 10: an optional sign followed
      by at least one decimal digit, with nothing before or after. */
  predicate IsDecimal(s: string) {
    |s| > 0 &&
    var digits := if s[0] == '+' || s[0] == '-' then s[1..] else s;
    |digits| > 0 && AllDigits(digits)
  }

  /** The value a well-formed decimal denotes, before any range check. */
  function DecimalValue(s: string): int
    requires IsDecimal(s)
  {
    if s[0] == '-' then -(DigitsValue(s[1..]) as int)
    else if s[0] == '+' then DigitsValue(s[1..])
    else DigitsValue(s)
  }

  /** Go's `strconv.Atoi` on a 64-bit platform: `None` stands for the returned
      error (bad syntax, or a value outside the range of `int`). */
  function Atoi(s: string): (r: Option<int>)
    ensures r.Some? <==> IsDecimal(s) && MinInt <= DecimalValue(s) <= MaxInt
    ensures r.Some? ==> r.value == DecimalValue(s)
  {
    if |s| == 0 then None
    else
      var neg := s[0] == '-';
      var digits := if s[0] == '+' || s[0] == '-' then s[1..] else s;
      if |digits| == 0 || !AllDigits(digits) then None
      else
        var n := if neg then -(DigitsValue(digits) as int) else DigitsValue(digits);
        if n < MinInt || MaxInt < n then None else Some(n)
  }

  lemma {:induction false} DigitsValueOfNatToDigits(n: nat)
    ensures DigitsValue(NatToDigits(n)) == n
    decreases n
  {
    if n >= 10 {
      var p := NatToDigits(n / 10);
      var s := p + [DigitChar(n % 10)];
      assert s[..|s| - 1] == p;
      DigitsValueOfNatToDigits(n / 10);
    }
  }

  /** Every `int` printed with `%d` is read back by `strconv.Atoi` unchanged. */
  lemma {:induction false} AtoiIntToString(n: int)
    requires MinInt <= n <= MaxInt
    ensures Atoi(IntToString(n)) == Some(n)
  {
    var s := IntToString(n);
    if n < 0 {
      assert s[1..] == NatToDigits(-n);
      DigitsValueOfNatToDigits(-n);
    } else {
      DigitsValueOfNatToDigits(n);
    }
  }

  /** `%d` spells different numbers differently: the spelling determines the number. */
  lemma IntToStringInjective(a: int, b: int)
    ensures IntToString(a) == IntToString(b) <==> a == b
  {
    if IntToString(a) == IntToString(b) {
      if a < 0 {
        assert IntToString(a)[1..] == NatToDigits(-a);
        assert IntToString(b)[1..] == NatToDigits(-b);
        NatToDigitsInjective(-a, -b);
      } else {
        NatToDigitsInjective(a, b);
      }
    }
  }

  lemma NatToDigitsInjective(m: nat, n: nat)
    ensures NatToDigits(m) == NatToDigits(n) ==> m == n
  {
    DigitsValueOfNatToDigits(m);
    DigitsValueOfNatToDigits(n);
  }
}
