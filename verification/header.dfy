/**
 * The header scanner, `GeneralFormParser.get_form_type_and_filing_year`.
 *
 * It reads a filing, keeps its first 2000 characters and runs two regular
 * expression searches over them:
 *   `CONFORMED SUBMISSION TYPE:\s+([0-9]+)\-([a-zA-Z]+)`  (the form type)
 *   `FILED AS OF DATE:\s+([0-9]+)`                        (the filing date)
 * The form type is the two groups joined by `-`; the year is `int()` of at
 * most the first four date digits.
 *
 * The regular-expression semantics is stated twice: once as the scanner
 * computes it (maximal character runs tried at each position in turn) and
 * once declaratively (`TypeMatch`, `DateMatch`: where the pattern matches and
 * which spans its pieces cover), and the two are proved to agree.
 */
module Header {
  import opened Results
  import opened PyText
  import opened Storage

  /** Only `file_contents[0:2000]` is searched. */
  const WindowSize: nat := 2000
  const TypeLabel: string := "CONFORMED SUBMISSION TYPE:"
  const DateLabel: string := "FILED AS OF DATE:"

  /** What a successful scan returns: the `<digits>-<letters>` label and the year. */
  datatype FilingHeader = FilingHeader(formType: string, year: int)

  function Min(x: int, y: int): int {
    if x <= y then x else y
  }

  /** `text[0:2000]`. */
  function Window(text: string): (w: string)
    ensures |w| == Min(|text|, WindowSize)
    ensures w == text[..|w|]
  {
    text[..Min(|text|, WindowSize)]
  }

  // ---------------------------------------------------------------------
  // Declarative pattern semantics
  // ---------------------------------------------------------------------

  /** `FILED AS OF DATE:\s+([0-9]+)` matches at `p`: the white space spans
      `[p + |DateLabel|, a)` and group 1 spans `[a, b)`, as long as the greedy
      `[0-9]+` makes it. */
  ghost predicate DateMatch(s: string, p: nat, a: nat, b: nat) {
    && p + |DateLabel| < a < b <= |s|
    && s[p..p + |DateLabel|] == DateLabel
    && AllIn(s, p + |DateLabel|, a, Space)
    && AllIn(s, a, b, Digit)
    && (b == |s| || !IsDigit(s[b]))
  }

  /** `CONFORMED SUBMISSION TYPE:\s+([0-9]+)\-([a-zA-Z]+)` matches at `p`:
      white space `[p + |TypeLabel|, a)`, group 1 `[a, b)`, the hyphen at `b`,
      group 2 `[b + 1, c)` as long as the greedy `[a-zA-Z]+` makes it. */
  ghost predicate TypeMatch(s: string, p: nat, a: nat, b: nat, c: nat) {
    && p + |TypeLabel| < a < b && b + 1 < c <= |s|
    && s[p..p + |TypeLabel|] == TypeLabel
    && AllIn(s, p + |TypeLabel|, a, Space)
    && AllIn(s, a, b, Digit)
    && s[b] == '-'
    && AllIn(s, b + 1, c, Letter)
    && (c == |s| || !IsLetter(s[c]))
  }

  /** No date match starts before `p`. */
  ghost predicate NoDateMatchBefore(s: string, p: nat) {
    forall q: nat, a: nat, b: nat | q < p :: !DateMatch(s, q, a, b)
  }

  /** No submission-type match starts before `p`. */
  ghost predicate NoTypeMatchBefore(s: string, p: nat) {
    forall q: nat, a: nat, b: nat, c: nat | q < p :: !TypeMatch(s, q, a, b, c)
  }

  // ---------------------------------------------------------------------
  // The scanner
  // ---------------------------------------------------------------------

  /** Spans of `lit\s+([0-9]+)` tried at position `p`: the greedy `\s+`
      and `[0-9]+` each take the maximal run, and no shorter choice can
      succeed because a space is never a digit. */
  function DigitsFieldAt(s: string, lit: string, p: nat): (r: Option<(nat, nat)>)
    requires p <= |s|
    ensures r.Some? ==> p + |lit| < r.value.0 < r.value.1 <= |s|
  {
    if p + |lit| <= |s| && s[p..p + |lit|] == lit then
      var a := RunEnd(s, p + |lit|, Space);
      var b := RunEnd(s, a, Digit);
      if a == p + |lit| || b == a then None else Some((a, b))
    else None
  }

  /** The two groups of the submission-type pattern tried at `p`. */
  function TypeAt(s: string, p: nat): Option<(string, string)>
    requires p <= |s|
  {
    match DigitsFieldAt(s, TypeLabel, p)
    case None => None
    case Some(span) =>
      var b := span.1;
      if b < |s| && s[b] == '-' then
        var c := RunEnd(s, b + 1, Letter);
        if c == b + 1 then None else Some((s[span.0..b], s[b + 1..c]))
      else None
  }

  /** Group 1 of the filed-date pattern tried at `p`. */
  function DateAt(s: string, p: nat): Option<string>
    requires p <= |s|
  {
    match DigitsFieldAt(s, DateLabel, p)
    case None => None
    case Some(span) => Some(s[span.0..span.1])
  }

  /** The groups at the first position of `from..last` where `at` matches:
      how `re.search` tries one position after another. */
  function FirstFrom<T>(at: nat -> Option<T>, last: nat, from: nat): Option<T>
    requires from <= last
    decreases last - from
  {
    match at(from)
    case Some(g) => Some(g)
    case None => if from == last then None else FirstFrom(at, last, from + 1)
  }

  /** The submission-type pattern tried at each position of `s`. */
  function TypeTries(s: string): nat -> Option<(string, string)> {
    (p: nat) => if p <= |s| then TypeAt(s, p) else None
  }

  /** The filed-date pattern tried at each position of `s`. */
  function DateTries(s: string): nat -> Option<string> {
    (p: nat) => if p <= |s| then DateAt(s, p) else None
  }

  /** `form_type_pattern.search(s)` from position `from`: the first position that matches. */
  function SearchType(s: string, from: nat): Option<(string, string)>
    requires from <= |s|
  {
    FirstFrom(TypeTries(s), |s|, from)
  }

  /** `date_filed_type_pattern.search(s)` from position `from`. */
  function SearchDate(s: string, from: nat): Option<string>
    requires from <= |s|
  {
    FirstFrom(DateTries(s), |s|, from)
  }

  /** `int(digits[:4])`, with a fall-back to 0 on a ValueError. */
  function FiledYear(digits: string): int {
    match ParseInt(digits[..Min(|digits|, 4)])
    case Some(n) => n
    case None => 0
  }

  /** The scan of an already-read filing text. The date is looked at first:
      without it `.group` is called on None (AttributeError) whatever the
      type line says; with a date but no type match the later use of the
      never-assigned form type fails (UnboundLocalError). */
  function ScanHeader(text: string): (r: Result<FilingHeader>)
    ensures r.Ok? ==> 0 <= r.value.year <= 9999
    ensures r.Ok? ==> '-' in r.value.formType && |r.value.formType| >= 3
    ensures r.Err? ==> r.error == NoFiledDate || r.error == NoSubmissionType
  {
    var w := Window(text);
    var formMatch := SearchType(w, 0);
    var dateMatch := SearchDate(w, 0);
    match dateMatch
    case None => Err(NoFiledDate)
    case Some(digits) =>
      var year := FiledYearOfMatch(w, digits);
      match formMatch
      case None => Err(NoSubmissionType)
      case Some(g) =>
        SearchTypeGroups(w, 0);
        Ok(FilingHeader(g.0 + "-" + g.1, year))
  }

  /** The year of a date group found by the search, with its bounds. */
  function FiledYearOfMatch(w: string, digits: string): (y: int)
    requires SearchDate(w, 0) == Some(digits)
    ensures 0 <= y <= 9999
    ensures y == FiledYear(digits)
  {
    SearchDateGroup(w, 0);
    FiledYearAlwaysParses(digits);
    var y := FiledYear(digits);
    FourDigitsBound(digits[..Min(|digits|, 4)]);
    y
  }

  /** `get_form_type_and_filing_year(file_path)`: read the file (any read
      error is re-raised) and scan its header. */
  function GetFormTypeAndFilingYear(fs: FileSystem, path: string): (r: Result<FilingHeader>)
    ensures fs.Read(path).Err? ==> r == Err(fs.Read(path).error)
    ensures fs.Read(path).Ok? ==> r == ScanHeader(fs.Read(path).value)
  {
    var text :- fs.Read(path);
    ScanHeader(text)
  }

  // ---------------------------------------------------------------------
  // Helper facts about the scanner
  // ---------------------------------------------------------------------

  lemma FourDigitsBound(ds: string)
    requires |ds| <= 4 && AllDigits(ds)
    ensures DigitsValue(ds) <= 9999
  {
    if |ds| > 0 {
      FourDigitsBound(ds[..|ds| - 1]);
      if |ds| == 4 {
        ThreeDigitsBound(ds[..|ds| - 1]);
      }
    }
  }

  lemma ThreeDigitsBound(ds: string)
    requires |ds| <= 3 && AllDigits(ds)
    ensures DigitsValue(ds) <= 999
  {
    if |ds| > 0 {
      ThreeDigitsBound(ds[..|ds| - 1]);
      if |ds| == 3 {
        TwoDigitsBound(ds[..|ds| - 1]);
      }
    }
  }

  lemma TwoDigitsBound(ds: string)
    requires |ds| <= 2 && AllDigits(ds)
    ensures DigitsValue(ds) <= 99
  {
    if |ds| == 2 {
      assert DigitsValue(ds[..1]) <= 9;
    }
  }

  lemma {:induction false} SearchDateGroup(s: string, from: nat)
    requires from <= |s|
    ensures SearchDate(s, from).Some? ==> |SearchDate(s, from).value| > 0 && AllDigits(SearchDate(s, from).value)
    decreases |s| - from
  {
    if DateAt(s, from).None? && from < |s| {
      SearchDateGroup(s, from + 1);
    }
  }

  lemma {:induction false} SearchTypeGroups(s: string, from: nat)
    requires from <= |s|
    ensures SearchType(s, from).Some? ==> |SearchType(s, from).value.0| > 0 && |SearchType(s, from).value.1| > 0
    decreases |s| - from
  {
    if TypeAt(s, from).None? && from < |s| {
      SearchTypeGroups(s, from + 1);
    }
  }

  /** The `except ValueError` fall-back of the year conversion never fires:
      a date group is a non-empty run of ASCII digits, so `int()` of its
      first four characters always succeeds. */
  lemma FiledYearAlwaysParses(digits: string)
    requires |digits| > 0 && AllDigits(digits)
    ensures ParseInt(digits[..Min(|digits|, 4)]) == Some(DigitsValue(digits[..Min(|digits|, 4)]))
    ensures FiledYear(digits) == DigitsValue(digits[..Min(|digits|, 4)])
  {
    ParseIntOfDigits(digits[..Min(|digits|, 4)]);
  }

  /** A filed date `2018MMDD`, such as `20180930`, gives the year 2018. */
  lemma FiledYearOfFullDate(mmdd: string)
    requires |mmdd| == 4 && AllDigits(mmdd)
    ensures FiledYear("2018" + mmdd) == 2018
  {
    var ds := "2018" + mmdd;
    assert AllDigits(ds) by {
      assert forall n | 0 <= n < 4 :: ds[n] == "2018"[n];
      assert forall n | 4 <= n < |ds| :: ds[n] == mmdd[n - 4];
    }
    FiledYearAlwaysParses(ds);
    assert ds[..Min(|ds|, 4)] == "2018";
    ValueOf2018();
  }

  lemma ValueOf2018()
    ensures DigitsValue("2018") == 2018
  {
    assert "2018"[..3] == "201";
    assert "201"[..2] == "20";
    assert "20"[..1] == "2";
  }

  // ---------------------------------------------------------------------
  // Scanner and declarative semantics agree
  // ---------------------------------------------------------------------

  lemma DigitsFieldAtSound(s: string, lit: string, p: nat)
    requires p <= |s|
    requires DigitsFieldAt(s, lit, p).Some?
    ensures var (a, b) := DigitsFieldAt(s, lit, p).value;
      && s[p..p + |lit|] == lit
      && AllIn(s, p + |lit|, a, Space)
      && AllIn(s, a, b, Digit)
      && (b == |s| || !IsDigit(s[b]))
  {
  }

  /** Every match the declarative pattern admits at `p` is the one the scanner finds there. */
  lemma DateAtComplete(s: string, p: nat, a: nat, b: nat)
    requires DateMatch(s, p, a, b)
    ensures DateAt(s, p) == Some(s[a..b])
  {
    assert !IsSpace(s[a]) by { DigitIsNotSpace(s[a]); }
    RunEndUnique(s, p + |DateLabel|, a, Space);
    RunEndUnique(s, a, b, Digit);
  }

  lemma DateAtSound(s: string, p: nat)
    requires p <= |s|
    requires DateAt(s, p).Some?
    ensures exists a: nat, b: nat :: DateMatch(s, p, a, b) && DateAt(s, p).value == s[a..b]
  {
    var (a, b) := DigitsFieldAt(s, DateLabel, p).value;
    DigitsFieldAtSound(s, DateLabel, p);
    assert DateMatch(s, p, a, b);
  }

  lemma TypeAtComplete(s: string, p: nat, a: nat, b: nat, c: nat)
    requires TypeMatch(s, p, a, b, c)
    ensures TypeAt(s, p) == Some((s[a..b], s[b + 1..c]))
  {
    assert !IsSpace(s[a]) by { DigitIsNotSpace(s[a]); }
    RunEndUnique(s, p + |TypeLabel|, a, Space);
    RunEndUnique(s, a, b, Digit);
    RunEndUnique(s, b + 1, c, Letter);
  }

  lemma TypeAtSound(s: string, p: nat)
    requires p <= |s|
    requires TypeAt(s, p).Some?
    ensures exists a: nat, b: nat, c: nat ::
      TypeMatch(s, p, a, b, c) && TypeAt(s, p).value == (s[a..b], s[b + 1..c])
  {
    var (a, b) := DigitsFieldAt(s, TypeLabel, p).value;
    DigitsFieldAtSound(s, TypeLabel, p);
    var c := RunEnd(s, b + 1, Letter);
    assert TypeMatch(s, p, a, b, c);
  }

  /** `FirstFrom` gives the groups at the leftmost position that matches,
      and nothing only when no position matches. */
  lemma {:induction false} FirstFromLeftmost<T>(at: nat -> Option<T>, last: nat, from: nat)
    requires from <= last
    ensures FirstFrom(at, last, from).None? ==> forall p | from <= p <= last :: at(p).None?
    ensures FirstFrom(at, last, from).Some? ==>
      exists p | from <= p <= last ::
        && at(p) == FirstFrom(at, last, from)
        && forall q | from <= q < p :: at(q).None?
    decreases last - from
  {
    if at(from).Some? {
      assert at(from) == FirstFrom(at, last, from);
    } else if from < last {
      assert FirstFrom(at, last, from) == FirstFrom(at, last, from + 1);
      FirstFromLeftmost(at, last, from + 1);
      if FirstFrom(at, last, from + 1).Some? {
        var p :| from + 1 <= p <= last && at(p) == FirstFrom(at, last, from + 1)
                 && forall q | from + 1 <= q < p :: at(q).None?;
        assert forall q | from <= q < p :: at(q).None?;
      }
    }
  }

  /** The search returns the groups at the first position where the pattern matches. */
  lemma {:induction false} SearchDateLeftmost(s: string, from: nat)
    requires from <= |s|
    ensures SearchDate(s, from).None? ==> forall p | from <= p <= |s| :: DateAt(s, p).None?
    ensures SearchDate(s, from).Some? ==>
      exists p | from <= p <= |s| ::
        && DateAt(s, p) == SearchDate(s, from)
        && forall q | from <= q < p :: DateAt(s, q).None?
  {
    FirstFromLeftmost(DateTries(s), |s|, from);
    if SearchDate(s, from).Some? {
      var p :| from <= p <= |s| && DateTries(s)(p) == SearchDate(s, from)
               && forall q | from <= q < p :: DateTries(s)(q).None?;
      assert DateAt(s, p) == SearchDate(s, from);
      assert forall q | from <= q < p :: DateAt(s, q).None? by {
        forall q | from <= q < p
          ensures DateAt(s, q).None?
        {
          assert DateTries(s)(q).None?;
        }
      }
    } else {
      forall p | from <= p <= |s|
        ensures DateAt(s, p).None?
      {
        assert DateTries(s)(p).None?;
      }
    }
  }


  lemma {:induction false} SearchTypeLeftmost(s: string, from: nat)
    requires from <= |s|
    ensures SearchType(s, from).None? ==> forall p | from <= p <= |s| :: TypeAt(s, p).None?
    ensures SearchType(s, from).Some? ==>
      exists p | from <= p <= |s| ::
        && TypeAt(s, p) == SearchType(s, from)
        && forall q | from <= q < p :: TypeAt(s, q).None?
  {
    FirstFromLeftmost(TypeTries(s), |s|, from);
    if SearchType(s, from).Some? {
      var p :| from <= p <= |s| && TypeTries(s)(p) == SearchType(s, from)
               && forall q | from <= q < p :: TypeTries(s)(q).None?;
      assert TypeAt(s, p) == SearchType(s, from);
      assert forall q | from <= q < p :: TypeAt(s, q).None? by {
        forall q | from <= q < p
          ensures TypeAt(s, q).None?
        {
          assert TypeTries(s)(q).None?;
        }
      }
    } else {
      forall p | from <= p <= |s|
        ensures TypeAt(s, p).None?
      {
        assert TypeTries(s)(p).None?;
      }
    }
  }


  /** The date search finds group 1 of the leftmost declarative match. */
  lemma SearchDateFindsFirstMatch(s: string, p: nat, a: nat, b: nat)
    requires DateMatch(s, p, a, b) && NoDateMatchBefore(s, p)
    ensures SearchDate(s, 0) == Some(s[a..b])
  {
    DateAtComplete(s, p, a, b);
    SearchDateLeftmost(s, 0);
    var p' :| 0 <= p' <= |s| && DateAt(s, p') == SearchDate(s, 0)
              && forall q | 0 <= q < p' :: DateAt(s, q).None?;
    if p' < p {
      DateAtSound(s, p');
    }
  }

  /** The type search finds the groups of the leftmost declarative match. */
  lemma SearchTypeFindsFirstMatch(s: string, p: nat, a: nat, b: nat, c: nat)
    requires TypeMatch(s, p, a, b, c) && NoTypeMatchBefore(s, p)
    ensures SearchType(s, 0) == Some((s[a..b], s[b + 1..c]))
  {
    TypeAtComplete(s, p, a, b, c);
    SearchTypeLeftmost(s, 0);
    var p' :| 0 <= p' <= |s| && TypeAt(s, p') == SearchType(s, 0)
              && forall q | 0 <= q < p' :: TypeAt(s, q).None?;
    if p' < p {
      TypeAtSound(s, p');
    }
  }

  /** The date search fails exactly when the pattern matches nowhere. */
  lemma SearchDateNone(s: string)
    ensures SearchDate(s, 0).None? <==> forall p: nat, a: nat, b: nat :: !DateMatch(s, p, a, b)
  {
    SearchDateLeftmost(s, 0);
    if SearchDate(s, 0).None? {
      forall p: nat, a: nat, b: nat | DateMatch(s, p, a, b) ensures false {
        DateAtComplete(s, p, a, b);
      }
    } else {
      var p :| 0 <= p <= |s| && DateAt(s, p) == SearchDate(s, 0);
      DateAtSound(s, p);
    }
  }

  /** The type search fails exactly when the pattern matches nowhere. */
  lemma SearchTypeNone(s: string)
    ensures SearchType(s, 0).None? <==> forall p: nat, a: nat, b: nat, c: nat :: !TypeMatch(s, p, a, b, c)
  {
    SearchTypeLeftmost(s, 0);
    if SearchType(s, 0).None? {
      forall p: nat, a: nat, b: nat, c: nat | TypeMatch(s, p, a, b, c) ensures false {
        TypeAtComplete(s, p, a, b, c);
      }
    } else {
      var p :| 0 <= p <= |s| && TypeAt(s, p) == SearchType(s, 0);
      TypeAtSound(s, p);
    }
  }

  // ---------------------------------------------------------------------
  // Properties of the header scan
  // ---------------------------------------------------------------------

  /** Without a filed-date match in the first 2000 characters the scan
      fails, whatever the submission-type line says. */
  lemma MissingDateFails(text: string)
    requires forall p: nat, a: nat, b: nat :: !DateMatch(Window(text), p, a, b)
    ensures ScanHeader(text) == Err(NoFiledDate)
  {
    SearchDateNone(Window(text));
  }

  /** With a filed date but no submission-type match the scan still fails;
      it never returns a header without a form type. */
  lemma MissingTypeFails(text: string, p: nat, a: nat, b: nat)
    requires DateMatch(Window(text), p, a, b)
    requires forall q: nat, a': nat, b': nat, c': nat :: !TypeMatch(Window(text), q, a', b', c')
    ensures ScanHeader(text) == Err(NoSubmissionType)
  {
    SearchDateNone(Window(text));
    SearchTypeNone(Window(text));
  }

  /** The scan succeeds exactly when both patterns match in the window. */
  lemma ScanHeaderSucceeds(text: string)
    ensures ScanHeader(text).Ok? <==>
      && (exists p: nat, a: nat, b: nat :: DateMatch(Window(text), p, a, b))
      && (exists p: nat, a: nat, b: nat, c: nat :: TypeMatch(Window(text), p, a, b, c))
  {
    SearchDateNone(Window(text));
    SearchTypeNone(Window(text));
  }

  /** On success the form type is the leftmost submission-type match's
      digits, `-` and letters, and the year is the value of at most the
      first four digits of the leftmost filed-date match. */
  lemma ScanHeaderResult(text: string, tp: nat, ta: nat, tb: nat, tc: nat, dp: nat, da: nat, db: nat)
    requires TypeMatch(Window(text), tp, ta, tb, tc) && NoTypeMatchBefore(Window(text), tp)
    requires DateMatch(Window(text), dp, da, db) && NoDateMatchBefore(Window(text), dp)
    ensures var w := Window(text);
      ScanHeader(text) == Ok(FilingHeader(w[ta..tb] + "-" + w[tb + 1..tc],
                                          DigitsValue(w[da..Min(db, da + 4)])))
  {
    var w := Window(text);
    SearchTypeFindsFirstMatch(w, tp, ta, tb, tc);
    SearchDateFindsFirstMatch(w, dp, da, db);
    ScanHeaderOfSearches(text, (w[ta..tb], w[tb + 1..tc]), w[da..db]);
    LeadingDigitsYear(w, da, db);
  }

  lemma ScanHeaderOfSearches(text: string, g: (string, string), digits: string)
    requires SearchType(Window(text), 0) == Some(g)
    requires SearchDate(Window(text), 0) == Some(digits)
    ensures ScanHeader(text) == Ok(FilingHeader(g.0 + "-" + g.1, FiledYear(digits)))
  {
  }

  lemma LeadingDigitsYear(w: string, da: nat, db: nat)
    requires da < db <= |w| && AllIn(w, da, db, Digit)
    ensures AllDigits(w[da..Min(db, da + 4)])
    ensures FiledYear(w[da..db]) == DigitsValue(w[da..Min(db, da + 4)])
  {
    var digits := w[da..db];
    assert w[da..Min(db, da + 4)] == digits[..Min(|digits|, 4)];
    FiledYearAlwaysParses(digits);
  }

  /** Characters after index 2000 never change the outcome. */
  lemma OnlyWindowMatters(text: string, more: string)
    requires |text| >= WindowSize
    ensures ScanHeader(text + more) == ScanHeader(text)
    ensures ScanHeader(Window(text)) == ScanHeader(text)
  {
    assert Window(text + more) == Window(text);
    assert Window(Window(text)) == Window(text);
  }
}
