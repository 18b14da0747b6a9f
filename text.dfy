/**
 * The JavaScript string operations the pipeline editor relies on: `startsWith`,
 * `indexOf`, `replace` with a string pattern and an empty replacement,
 * `parseInt(_, 10)`, and the decimal text of an integer in a template literal.
 */
module Text {
  import opened Options

  predicate StartsWith(s: string, prefix: string) {
    |prefix| <= |s| && s[..|prefix|] == prefix
  }

  predicate OccursAt(s: string, pat: string, i: nat) {
    i + |pat| <= |s| && s[i..i + |pat|] == pat
  }

  /** `s.indexOf(pat, from)`: the first position at or after `from` where `pat` occurs. */
  function IndexOfFrom(s: string, pat: string, from: nat): Option<nat>
    requires from <= |s|
    decreases |s| - from
  {
    if OccursAt(s, pat, from) then Some(from)
    else if from == |s| then None
    else IndexOfFrom(s, pat, from + 1)
  }

  /** `indexOf` finds an occurrence at or after `from`, and none before it; `None` when there is none at all. */
  lemma {:induction false} IndexOfFromIsFirst(s: string, pat: string, from: nat)
    requires from <= |s|
    ensures IndexOfFrom(s, pat, from).Some? ==>
      from <= IndexOfFrom(s, pat, from).value && OccursAt(s, pat, IndexOfFrom(s, pat, from).value)
    ensures forall j ::
      (from <= j && (IndexOfFrom(s, pat, from).Some? ==> j < IndexOfFrom(s, pat, from).value)) ==> !OccursAt(s, pat, j)
    decreases |s| - from
  {
    if !OccursAt(s, pat, from) && from < |s| {
      IndexOfFromIsFirst(s, pat, from + 1);
    }
  }

  /** `s.replace(pat, '')`: a string pattern replaces only its first occurrence. */
  function RemoveFirst(s: string, pat: string): string {
    IndexOfFromIsFirst(s, pat, 0);
    match IndexOfFrom(s, pat, 0)
    case None => s
    case Some(i) => s[..i] + s[i + |pat|..]
  }

  /** When `s` begins with `pat`, `replace` strips exactly that prefix. */
  lemma RemoveFirstOfPrefix(s: string, pat: string)
    requires StartsWith(s, pat)
    ensures RemoveFirst(s, pat) == s[|pat|..]
  {
    assert OccursAt(s, pat, 0);
  }

  /** When `pat` does not occur in `s`, `replace` returns `s` unchanged. */
  lemma RemoveFirstAbsent(s: string, pat: string)
    requires forall j: nat :: !OccursAt(s, pat, j)
    ensures RemoveFirst(s, pat) == s
  {
    IndexOfFromIsFirst(s, pat, 0);
  }

  /** The characters `parseInt` skips before the number: ECMAScript's white space and line terminators. */
  predicate IsJsWhitespace(c: char) {
    c == '\t' || c == '\n' || c == '\U{0B}' || c == '\U{0C}' || c == '\r' || c == ' '
    || c == '\U{A0}' || c == '\U{1680}' || ('\U{2000}' <= c <= '\U{200A}')
    || c == '\U{2028}' || c == '\U{2029}' || c == '\U{202F}' || c == '\U{205F}'
    || c == '\U{3000}' || c == '\U{FEFF}'
  }

  predicate IsDigit(c: char) {
    '0' <= c <= '9'
  }

  predicate AllDigits(s: string) {
    forall i :: 0 <= i < |s| ==> IsDigit(s[i])
  }

  function DigitValue(c: char): (d: nat)
    requires IsDigit(c)
    ensures d < 10
  {
    (c as int - '0' as int) as nat
  }

  function DigitChar(d: nat): (c: char)
    requires d < 10
    ensures IsDigit(c) && DigitValue(c) == d
  {
    ('0' as int + d) as char
  }

  /** `s.trimStart()` with the white space `parseInt` skips. */
  function TrimStart(s: string): string {
    if s != [] && IsJsWhitespace(s[0]) then TrimStart(s[1..]) else s
  }

  /** `trimStart` removes a prefix, and what is left does not begin with white space. */
  lemma {:induction false} TrimStartSuffix(s: string)
    ensures |TrimStart(s)| <= |s| && TrimStart(s) == s[|s| - |TrimStart(s)|..]
    ensures TrimStart(s) != [] ==> !IsJsWhitespace(TrimStart(s)[0])
  {
    if s != [] && IsJsWhitespace(s[0]) {
      TrimStartSuffix(s[1..]);
    }
  }

  /** The longest prefix of `s` made of decimal digits. */
  function LeadingDigits(s: string): string {
    if s == [] || !IsDigit(s[0]) then [] else [s[0]] + LeadingDigits(s[1..])
  }

  /** The digit run is a prefix of digits that stops at the first non-digit. */
  lemma {:induction false} LeadingDigitsMaximal(s: string)
    ensures |LeadingDigits(s)| <= |s| && LeadingDigits(s) == s[..|LeadingDigits(s)|]
    ensures AllDigits(LeadingDigits(s))
    ensures |LeadingDigits(s)| < |s| ==> !IsDigit(s[|LeadingDigits(s)|])
  {
    if s != [] && IsDigit(s[0]) {
      LeadingDigitsMaximal(s[1..]);
    }
  }

  /** The number a run of decimal digits denotes (most significant digit first). */
  function DigitsValue(d: string): nat
    requires AllDigits(d)
  {
    if d == [] then 0 else DigitsValue(d[..|d| - 1]) * 10 + DigitValue(d[|d| - 1])
  }

  /**
   * `parseInt(s, 10)`: skip leading white space, read an optional sign and then
   * the longest run of decimal digits; anything after the run is ignored.
   * `None` stands for `NaN` (no digit at all).
   */
  function ParseInt(s: string): Option<int> {
    var t := TrimStart(s);
    var negative := t != [] && t[0] == '-';
    var unsigned := if t != [] && (t[0] == '-' || t[0] == '+') then t[1..] else t;
    var digits := LeadingDigits(unsigned);
    LeadingDigitsMaximal(unsigned);
    if digits == [] then None
    else Some(if negative then -(DigitsValue(digits) as int) else DigitsValue(digits))
  }

  /** The decimal text of a natural number, as a template literal writes it. */
  function Decimal(n: nat): string {
    if n < 10 then [DigitChar(n)] else Decimal(n / 10) + [DigitChar(n % 10)]
  }

  /** The decimal text is a nonempty run of digits without a leading zero. */
  lemma {:induction false} DecimalDigits(n: nat)
    ensures Decimal(n) != [] && AllDigits(Decimal(n))
    ensures |Decimal(n)| > 1 ==> Decimal(n)[0] != '0'
  {
    if n >= 10 {
      DecimalDigits(n / 10);
      assert Decimal(n)[0] == Decimal(n / 10)[0];
    }
  }

  /** The decimal text of an integer, with a leading `-` when it is negative. */
  function IntText(i: int): string {
    if i < 0 then "-" + Decimal(-i) else Decimal(i)
  }

  lemma {:induction false} DecimalValue(n: nat)
    ensures AllDigits(Decimal(n)) && DigitsValue(Decimal(n)) == n
  {
    DecimalDigits(n);
    if n >= 10 {
      DecimalValue(n / 10);
      var d := Decimal(n);
      assert d[..|d| - 1] == Decimal(n / 10);
    }
  }

  lemma {:induction false} LeadingDigitsOfDigits(s: string)
    requires AllDigits(s)
    ensures LeadingDigits(s) == s
  {
    if s != [] {
      LeadingDigitsOfDigits(s[1..]);
    }
  }

  /** A nonempty run of digits reads as the number it denotes. */
  lemma ParseDigits(d: string)
    requires d != [] && AllDigits(d)
    ensures ParseInt(d) == Some(DigitsValue(d) as int)
  {
    assert IsDigit(d[0]);
    assert TrimStart(d) == d;
    LeadingDigitsOfDigits(d);
  }

  /** Reading back the decimal text of `n` with `parseInt` gives `n`. */
  lemma ParseDecimal(n: nat)
    ensures ParseInt(Decimal(n)) == Some(n)
  {
    DecimalDigits(n);
    ParseDigits(Decimal(n));
    DecimalValue(n);
  }

  /** A leading zero does not change the number a run of digits denotes. */
  lemma {:induction false} LeadingZeroValue(d: string)
    requires AllDigits(d)
    ensures AllDigits("0" + d) && DigitsValue("0" + d) == DigitsValue(d)
  {
    if d != [] {
      var z := "0" + d;
      assert z[..|z| - 1] == "0" + d[..|d| - 1];
      LeadingZeroValue(d[..|d| - 1]);
    }
  }

  /** `parseInt` ignores leading zeros: `"0"` followed by the decimal text of `n` reads as `n`. */
  lemma ParseZeroPadded(n: nat)
    ensures ParseInt("0" + Decimal(n)) == Some(n)
  {
    DecimalDigits(n);
    LeadingZeroValue(Decimal(n));
    ParseDigits("0" + Decimal(n));
    DecimalValue(n);
  }

  /** Different numbers have different decimal texts. */
  lemma DecimalInjective(a: nat, b: nat)
    requires Decimal(a) == Decimal(b)
    ensures a == b
  {
    ParseDecimal(a);
    ParseDecimal(b);
  }

  /** The text of the parts separated by `sep`, as `Array.prototype.join` writes it. */
  function Join(parts: seq<string>, sep: string): string {
    if parts == [] then "" else if |parts| == 1 then parts[0] else parts[0] + sep + Join(parts[1..], sep)
  }
}
