/**
 * The pieces of Python's string and integer semantics the extractor relies
 * on: the `\s`, `[0-9]` and `[a-zA-Z]` character classes, maximal runs of a
 * class (what a greedy quantifier consumes), `int(str)`, `str(int)`,
 * `sub in s`, `s.endswith(suffix)` and `s.lower()`.
 */
module PyText {
  import opened Results

  /** Python's `str.isspace()`, which is also what `\s` matches in a str pattern. */
  predicate IsSpace(c: char) {
    || c == ' '
    || ('\t' <= c <= '\r')
    || ('\U{1c}' <= c <= '\U{1f}')
    || c == '\U{85}' || c == '\U{a0}' || c == '\U{1680}'
    || ('\U{2000}' <= c <= '\U{200a}')
    || c == '\U{2028}' || c == '\U{2029}' || c == '\U{202f}' || c == '\U{205f}'
    || c == '\U{3000}'
  }

  /** The white space `int(str)` skips around a literal. CPython copies every
      ASCII character unchanged and turns non-ASCII white space into a
      blank, then skips only the C-locale space characters, so the ASCII
      separators U+001C..U+001F, which `str.isspace()` accepts, are not
      skipped. */
  predicate IsIntSpace(c: char) {
    IsSpace(c) && !('\U{1c}' <= c <= '\U{1f}')
  }

  predicate IsDigit(c: char) {
    '0' <= c <= '9'
  }

  predicate IsLetter(c: char) {
    ('a' <= c <= 'z') || ('A' <= c <= 'Z')
  }

  /** The three character classes the header and file-name patterns use. */
  datatype CharClass = Space | Digit | Letter

  predicate InClass(c: char, k: CharClass) {
    match k
    case Space => IsSpace(c)
    case Digit => IsDigit(c)
    case Letter => IsLetter(c)
  }

  /** Every character of `s[i..j]` belongs to class `k`. */
  predicate AllIn(s: string, i: nat, j: nat, k: CharClass)
    requires i <= j <= |s|
  {
    forall n | i <= n < j :: InClass(s[n], k)
  }

  predicate AllDigits(s: string) {
    forall n | 0 <= n < |s| :: IsDigit(s[n])
  }

  /** End of the longest run of class-`k` characters starting at `i`:
      the span a greedy `[k]*` consumes there. */
  function RunEnd(s: string, i: nat, k: CharClass): (j: nat)
    requires i <= |s|
    ensures i <= j <= |s|
    ensures AllIn(s, i, j, k)
    ensures j == |s| || !InClass(s[j], k)
    decreases |s| - i
  {
    if i < |s| && InClass(s[i], k) then RunEnd(s, i + 1, k) else i
  }

  /** A run that stops at a character outside the class is the maximal run. */
  lemma RunEndUnique(s: string, i: nat, j: nat, k: CharClass)
    requires i <= j <= |s|
    requires AllIn(s, i, j, k)
    requires j == |s| || !InClass(s[j], k)
    ensures RunEnd(s, i, k) == j
  {
  }

  /** Base-10 value of an ASCII digit string (the empty string counts as 0). */
  function DigitsValue(ds: string): (v: nat)
    requires AllDigits(ds)
    decreases |ds|
  {
    if |ds| == 0 then 0
    else 10 * DigitsValue(ds[..|ds| - 1]) + ((ds[|ds| - 1] as int) - ('0' as int))
  }

  function TrimLeft(s: string): (r: string)
    ensures |r| <= |s| && r == s[|s| - |r|..]
    ensures |r| == 0 || !IsIntSpace(r[0])
    ensures forall n | 0 <= n < |s| - |r| :: IsIntSpace(s[n])
  {
    if |s| > 0 && IsIntSpace(s[0]) then TrimLeft(s[1..]) else s
  }

  function TrimRight(s: string): (r: string)
    ensures |r| <= |s| && r == s[..|r|]
    ensures |r| == 0 || !IsIntSpace(r[|r| - 1])
    ensures forall n | |r| <= n < |s| :: IsIntSpace(s[n])
  {
    if |s| > 0 && IsIntSpace(s[|s| - 1]) then TrimRight(s[..|s| - 1]) else s
  }

  /** `s` without the white space `int(str)` skips at either end. */
  function Trim(s: string): string {
    TrimRight(TrimLeft(s))
  }

  /** The body of a base-10 literal after the sign: ASCII digits, where a
      single `_` may separate two digits. */
  predicate DecimalLiteral(u: string) {
    && |u| > 0
    && IsDigit(u[0])
    && IsDigit(u[|u| - 1])
    && (forall n | 0 <= n < |u| :: IsDigit(u[n]) || u[n] == '_')
    && (forall n | 0 <= n < |u| - 1 :: u[n] == '_' ==> u[n + 1] != '_')
  }

  /** `u` with its underscores dropped. */
  function DropUnderscores(u: string): (r: string)
    ensures (forall n | 0 <= n < |u| :: IsDigit(u[n]) || u[n] == '_') ==> AllDigits(r)
    ensures AllDigits(u) ==> r == u
  {
    if |u| == 0 then []
    else if u[0] == '_' then DropUnderscores(u[1..])
    else [u[0]] + DropUnderscores(u[1..])
  }

  /** `int(s)` for a str argument and base 10: `IsIntSpace` white space
      around the literal is ignored, one sign is allowed, underscores may
      group digits; anything else is a ValueError (`None` here). */
  function ParseInt(s: string): Option<int> {
    ParseTrimmed(Trim(s))
  }

  /** `int()` of a string with no surrounding white space left. */
  function ParseTrimmed(t: string): Option<int> {
    if |t| > 0 && (t[0] == '+' || t[0] == '-') then
      var body := t[1..];
      if DecimalLiteral(body) then
        var v: int := DigitsValue(DropUnderscores(body));
        Some(if t[0] == '-' then -v else v)
      else None
    else if DecimalLiteral(t) then Some(DigitsValue(DropUnderscores(t)))
    else None
  }

  function DigitChar(d: nat): (c: char)
    requires d < 10
  {
    (('0' as int) + d) as char
  }

  /** `str(n)` for a non-negative integer: its shortest decimal spelling. */
  function NatToString(n: nat): (s: string)
    ensures |s| > 0 && AllDigits(s)
    decreases n
  {
    if n < 10 then [DigitChar(n)] else NatToString(n / 10) + [DigitChar(n % 10)]
  }

  /** `str(n)` for any integer. */
  function IntToString(n: int): string {
    if n < 0 then "-" + NatToString(-n) else NatToString(n)
  }

  /** Reading back the decimal spelling of a number gives the number. */
  lemma {:induction false} DigitsValueOfNatToString(n: nat)
    ensures DigitsValue(NatToString(n)) == n
    decreases n
  {
    if n >= 10 {
      var s := NatToString(n / 10);
      var t := s + [DigitChar(n % 10)];
      assert t[..|t| - 1] == s;
      DigitsValueOfNatToString(n / 10);
    }
  }

  /** `int()` of a plain run of ASCII digits is that run's base-10 value. */
  lemma ParseIntOfDigits(ds: string)
    requires |ds| > 0 && AllDigits(ds)
    ensures ParseInt(ds) == Some(DigitsValue(ds))
  {
    TrimDigits(ds);
    assert DecimalLiteral(ds);
    assert ParseTrimmed(ds) == Some(DigitsValue(DropUnderscores(ds)));
  }

  lemma TrimDigits(ds: string)
    requires |ds| > 0 && AllDigits(ds)
    ensures Trim(ds) == ds
  {
    NoLeadingSpace(ds);
    DigitIsNotSpace(ds[|ds| - 1]);
  }

  /** `int()` skips ASCII and Unicode white space around the digits. */
  lemma ParseIntSkipsSpace(c: char, ds: string, d: char)
    requires IsIntSpace(c) && IsIntSpace(d)
    requires |ds| > 0 && AllDigits(ds)
    ensures ParseInt([c] + ds + [d]) == Some(DigitsValue(ds))
  {
    TrimAroundDigits(c, ds, d);
    ParseIntOfDigits(ds);
  }

  lemma TrimAroundDigits(c: char, ds: string, d: char)
    requires IsIntSpace(c) && IsIntSpace(d)
    requires |ds| > 0 && AllDigits(ds)
    ensures Trim([c] + ds + [d]) == ds
  {
    var s := [c] + ds + [d];
    var u := ds + [d];
    assert s[1..] == u;
    assert TrimLeft(s) == TrimLeft(u);
    NoLeadingSpace(u);
    assert u[..|u| - 1] == ds;
    assert TrimRight(u) == TrimRight(ds);
    TrimDigits(ds);
  }

  lemma NoLeadingSpace(u: string)
    requires |u| > 0 && IsDigit(u[0])
    ensures TrimLeft(u) == u
  {
    DigitIsNotSpace(u[0]);
  }

  /** A file separator U+001C..U+001F before the digits is not white space
      to `int()`, although `str.isspace()` says it is: the call fails. */
  lemma ParseIntRejectsSeparator(c: char, ds: string)
    requires '\U{1c}' <= c <= '\U{1f}'
    requires |ds| > 0 && AllDigits(ds)
    ensures IsSpace(c)
    ensures ParseInt([c] + ds) == None
  {
    var s := [c] + ds;
    DigitIsNotSpace(ds[|ds| - 1]);
    assert s[|s| - 1] == ds[|ds| - 1];
    assert TrimLeft(s) == s;
    assert TrimRight(s) == s;
    assert Trim(s) == s;
    assert !DecimalLiteral(s);
  }

  /** `int()` of a string that starts with a letter fails. */
  lemma ParseIntOfLetterFirst(s: string)
    requires |s| > 0 && IsLetter(s[0])
    ensures ParseInt(s) == None
  {
    assert TrimLeft(s) == s;
    var t := TrimRight(s);
    if |t| > 0 {
      assert t[0] == s[0];
    }
    assert !DecimalLiteral(t);
  }

  lemma DigitIsNotSpace(c: char)
    requires IsDigit(c) || c == '-'
    ensures !IsSpace(c)
  {
  }

  /** `int(str(n)) == n` for every integer `n`. */
  lemma ParseIntRoundTrip(n: int)
    ensures ParseInt(IntToString(n)) == Some(n)
  {
    if n < 0 {
      var body := NatToString(-n);
      var t := "-" + body;
      DigitIsNotSpace(t[0]);
      DigitIsNotSpace(t[|t| - 1]);
      assert TrimLeft(t) == t;
      assert TrimRight(t) == t;
      assert t[1..] == body;
      assert DecimalLiteral(body);
      DigitsValueOfNatToString(-n);
    } else {
      DigitsValueOfNatToString(n);
      ParseIntOfDigits(NatToString(n));
    }
  }

  /** Python's `sub in s` for strings: `sub` occurs as a contiguous slice. */
  predicate Contains(s: string, sub: string) {
    exists i | 0 <= i <= |s| - |sub| :: OccursAt(s, sub, i)
  }

  predicate OccursAt(s: string, sub: string, i: nat)
    requires i + |sub| <= |s|
  {
    s[i..i + |sub|] == sub
  }

  /** Python's `s.endswith(suffix)`. */
  predicate EndsWith(s: string, suffix: string) {
    |suffix| <= |s| && s[|s| - |suffix|..] == suffix
  }

  function LowerChar(c: char): char {
    if 'A' <= c <= 'Z' then ((c as int) - ('A' as int) + ('a' as int)) as char else c
  }

  /** `s.lower()` on ASCII letters. */
  function Lower(s: string): (r: string)
    ensures |r| == |s|
    ensures forall n | 0 <= n < |s| :: r[n] == LowerChar(s[n])
  {
    seq(|s|, n requires 0 <= n < |s| => LowerChar(s[n]))
  }
}
