/**
 * The extraction session (`ExtractParseForms.parse_form`) and the
 * years-to-pull clamp of `pull_ticker_symbol`.
 *
 * `parse_form` resolves the filing paths, creates one `GeneralFormParser`
 * and, for each path in order, reads the header, dispatches on the header's
 * form type, and appends a copy of what the extractor returned. The parser
 * is shared by all files, so the 10-K extractor's record carries over from
 * one file to the next. Records are values here, so each element of the
 * result is the snapshot the copy takes.
 */
module Session {
  import opened Results
  import opened PyText
  import opened Storage
  import opened Fields
  import opened Header
  import opened TenK
  import opened Dispatch
  import opened Resolver

  /** One iteration of the loop: header, then dispatch on its form type
      with its filing year. */
  function ProcessFile(p: Parsers, fs: FileSystem, markup: string -> seq<Tag>,
                       quarterly: QuarterlyExtractor, path: string, ticker: string)
    : (r: Result<(Parsers, FormData)>)
    requires Complete(p.annual)
    ensures r.Ok? ==> Complete(r.value.0.annual)
    ensures r.Ok? ==> GetFormTypeAndFilingYear(fs, path).Ok?
    ensures GetFormTypeAndFilingYear(fs, path).Err? ==> r == Err(GetFormTypeAndFilingYear(fs, path).error)
    ensures GetFormTypeAndFilingYear(fs, path).Ok? ==>
      var h := GetFormTypeAndFilingYear(fs, path).value;
      r == ExtractFormData(p, fs, markup, quarterly, path, h.formType, h.year, ticker)
  {
    var h :- GetFormTypeAndFilingYear(fs, path);
    ExtractFormData(p, fs, markup, quarterly, path, h.formType, h.year, ticker)
  }

  /** The loop over `paths`, starting from parser state `p`: the final
      state and one snapshot per file; the first failure aborts the loop. */
  function ParseFiles(p: Parsers, fs: FileSystem, markup: string -> seq<Tag>,
                      quarterly: QuarterlyExtractor, paths: seq<string>, ticker: string)
    : (r: Result<(Parsers, seq<FormData>)>)
    requires Complete(p.annual)
    ensures r.Ok? ==> Complete(r.value.0.annual) && |r.value.1| == |paths|
    decreases |paths|
  {
    if |paths| == 0 then Ok((p, []))
    else
      var done :- ParseFiles(p, fs, markup, quarterly, paths[..|paths| - 1], ticker);
      var step :- ProcessFile(done.0, fs, markup, quarterly, paths[|paths| - 1], ticker);
      Ok((step.0, done.1 + [step.1]))
  }

  /** `parse_form(ticker, form_type)` with the store rooted at `root`. */
  function ParseForm(fs: FileSystem, markup: string -> seq<Tag>, quarterly: QuarterlyExtractor,
                     root: string, ticker: string, formType: string): (r: Result<seq<FormData>>)
    ensures PrepareListOfFiles(fs, root, ticker, formType).Err? ==>
      r == Err(PrepareListOfFiles(fs, root, ticker, formType).error)
    ensures PrepareListOfFiles(fs, root, ticker, formType).Ok? ==>
      var paths := PrepareListOfFiles(fs, root, ticker, formType).value;
      var run := ParseFiles(NewParsers(), fs, markup, quarterly, paths, ticker);
      && (run.Err? ==> r == Err(run.error))
      && (run.Ok? ==> r == Ok(run.value.1) && |r.value| == |paths|)
  {
    var paths :- PrepareListOfFiles(fs, root, ticker, formType);
    var result :- ParseFiles(NewParsers(), fs, markup, quarterly, paths, ticker);
    Ok(result.1)
  }

  /** The loop over a prefix of the paths produces the same snapshots as the
      whole loop does for those files. */
  lemma {:induction false} ParseFilesPrefix(p: Parsers, fs: FileSystem, markup: string -> seq<Tag>,
                                            quarterly: QuarterlyExtractor, paths: seq<string>,
                                            ticker: string, m: nat)
    requires Complete(p.annual) && m <= |paths|
    requires ParseFiles(p, fs, markup, quarterly, paths, ticker).Ok?
    ensures ParseFiles(p, fs, markup, quarterly, paths[..m], ticker).Ok?
    ensures ParseFiles(p, fs, markup, quarterly, paths[..m], ticker).value.1
      == ParseFiles(p, fs, markup, quarterly, paths, ticker).value.1[..m]
    decreases |paths|
  {
    if m == |paths| {
      assert paths[..m] == paths;
    } else {
      var init := paths[..|paths| - 1];
      ParseFilesLast(p, fs, markup, quarterly, paths, ticker);
      var done := ParseFiles(p, fs, markup, quarterly, init, ticker).value.1;
      var step := ProcessFile(ParseFiles(p, fs, markup, quarterly, init, ticker).value.0,
                              fs, markup, quarterly, paths[|paths| - 1], ticker).value.1;
      ParseFilesPrefix(p, fs, markup, quarterly, init, ticker, m);
      assert init[..m] == paths[..m];
      assert (done + [step])[..m] == done[..m];
    }
  }

  /** A successful loop over a non-empty list is the loop over all but the
      last path followed by one step on the last path. */
  lemma ParseFilesLast(p: Parsers, fs: FileSystem, markup: string -> seq<Tag>,
                       quarterly: QuarterlyExtractor, paths: seq<string>, ticker: string)
    requires Complete(p.annual) && |paths| > 0
    requires ParseFiles(p, fs, markup, quarterly, paths, ticker).Ok?
    ensures var done := ParseFiles(p, fs, markup, quarterly, paths[..|paths| - 1], ticker);
      && done.Ok?
      && var step := ProcessFile(done.value.0, fs, markup, quarterly, paths[|paths| - 1], ticker);
      && step.Ok?
      && ParseFiles(p, fs, markup, quarterly, paths, ticker).value == (step.value.0, done.value.1 + [step.value.1])
  {
  }

  /** The state of the shared parser just before file `i` is processed. */
  function StateBefore(p: Parsers, fs: FileSystem, markup: string -> seq<Tag>,
                       quarterly: QuarterlyExtractor, paths: seq<string>, ticker: string, i: nat)
    : (s: Parsers)
    requires Complete(p.annual) && i <= |paths|
    requires ParseFiles(p, fs, markup, quarterly, paths, ticker).Ok?
    ensures Complete(s.annual)
  {
    ParseFilesPrefix(p, fs, markup, quarterly, paths, ticker, i);
    ParseFiles(p, fs, markup, quarterly, paths[..i], ticker).value.0
  }

  /** Snapshot `i` is what processing file `i` from the state before it
      gives, and the state after it is the state before file `i + 1`. */
  lemma FileStep(p: Parsers, fs: FileSystem, markup: string -> seq<Tag>,
                 quarterly: QuarterlyExtractor, paths: seq<string>, ticker: string, i: nat)
    requires Complete(p.annual) && i < |paths|
    requires ParseFiles(p, fs, markup, quarterly, paths, ticker).Ok?
    ensures var before := StateBefore(p, fs, markup, quarterly, paths, ticker, i);
      && ProcessFile(before, fs, markup, quarterly, paths[i], ticker).Ok?
      && ProcessFile(before, fs, markup, quarterly, paths[i], ticker).value.1
         == ParseFiles(p, fs, markup, quarterly, paths, ticker).value.1[i]
      && ProcessFile(before, fs, markup, quarterly, paths[i], ticker).value.0
         == StateBefore(p, fs, markup, quarterly, paths, ticker, i + 1)
  {
    ParseFilesPrefix(p, fs, markup, quarterly, paths, ticker, i + 1);
    ParseFilesPrefix(p, fs, markup, quarterly, paths, ticker, i);
    var upTo := paths[..i + 1];
    assert upTo[..|upTo| - 1] == paths[..i];
    assert upTo[|upTo| - 1] == paths[i];
    ParseFilesLast(p, fs, markup, quarterly, upTo, ticker);
    var done := ParseFiles(p, fs, markup, quarterly, paths[..i], ticker).value.1;
    var step := ProcessFile(StateBefore(p, fs, markup, quarterly, paths, ticker, i),
                            fs, markup, quarterly, paths[i], ticker).value.1;
    assert |done| == i;
    assert ParseFiles(p, fs, markup, quarterly, upTo, ticker).value.1 == done + [step];
    assert (done + [step])[i] == step;
  }

  /** Every snapshot comes from a file whose header was read and whose form
      type has an extractor: a 10-K file gives the 10-K record, stamped
      with the header's filing year and the ticker, and a 10-Q file gives
      the 10-Q dictionary. */
  lemma EverySnapshot(p: Parsers, fs: FileSystem, markup: string -> seq<Tag>,
                      quarterly: QuarterlyExtractor, paths: seq<string>, ticker: string, i: nat)
    requires Complete(p.annual) && i < |paths|
    requires ParseFiles(p, fs, markup, quarterly, paths, ticker).Ok?
    ensures GetFormTypeAndFilingYear(fs, paths[i]).Ok?
    ensures var h := GetFormTypeAndFilingYear(fs, paths[i]).value;
      var data := ParseFiles(p, fs, markup, quarterly, paths, ticker).value.1[i];
      && (h.formType == "10-K" || h.formType == "10-Q")
      && (data.AnnualData? <==> h.formType == "10-K")
      && (data.AnnualData? ==> Complete(data.rec))
      && (data.AnnualData? ==> data.rec[FilingYear] == Num(h.year) && data.rec[Ticker] == Text(ticker))
  {
    FileStep(p, fs, markup, quarterly, paths, ticker, i);
    var before := StateBefore(p, fs, markup, quarterly, paths, ticker, i);
    var h := GetFormTypeAndFilingYear(fs, paths[i]).value;
    var r := ExtractFormData(before, fs, markup, quarterly, paths[i], h.formType, h.year, ticker);
    assert r == ProcessFile(before, fs, markup, quarterly, paths[i], ticker);
    assert r.Ok?;
    if h.formType == "10-K" {
      var annual := GetFormData(before.annual, fs, markup, paths[i], h.year, ticker);
      assert r.value.1 == AnnualData(annual.value);
    }
  }

  /** The 10-K record is never reset between files: when files `i` and
      `i + 1` are both 10-K filings and no tag of file `i + 1` qualifies for
      a field other than `filing-year` and `ticker`, that field keeps in
      snapshot `i + 1` the value it had in snapshot `i`. */
  lemma CarriedOver(p: Parsers, fs: FileSystem, markup: string -> seq<Tag>,
                    quarterly: QuarterlyExtractor, paths: seq<string>, ticker: string,
                    i: nat, f: Field)
    requires Complete(p.annual) && i + 1 < |paths|
    requires ParseFiles(p, fs, markup, quarterly, paths, ticker).Ok?
    requires ParseFiles(p, fs, markup, quarterly, paths, ticker).value.1[i].AnnualData?
    requires ParseFiles(p, fs, markup, quarterly, paths, ticker).value.1[i + 1].AnnualData?
    requires f != FilingYear && f != Ticker
    requires fs.Read(paths[i + 1]).Ok? && GetFormTypeAndFilingYear(fs, paths[i + 1]).Ok?
    requires var tags := markup(fs.Read(paths[i + 1]).value);
      var year := GetFormTypeAndFilingYear(fs, paths[i + 1]).value.year;
      forall n | 0 <= n < |tags| :: !Qualifies(tags[n], TagName(f), IntToString(year))
    ensures var records := ParseFiles(p, fs, markup, quarterly, paths, ticker).value.1;
      && f in records[i].rec && f in records[i + 1].rec
      && records[i + 1].rec[f] == records[i].rec[f]
  {
    FileStep(p, fs, markup, quarterly, paths, ticker, i);
    FileStep(p, fs, markup, quarterly, paths, ticker, i + 1);
    var before := StateBefore(p, fs, markup, quarterly, paths, ticker, i + 1);
    var h := GetFormTypeAndFilingYear(fs, paths[i + 1]).value;
    var tags := markup(fs.Read(paths[i + 1]).value);
    ExtractValue(before.annual, tags, h.year, ticker, f);
  }

  /** Until the first 10-K file, the 10-K record is the fresh one: in the
      first 10-K snapshot of a session, a field other than `filing-year`
      and `ticker` with no qualifying tag holds its initial value (0 for a
      concept, '10-K' for `filing-type`). */
  lemma FirstAnnualDefaults(fs: FileSystem, markup: string -> seq<Tag>,
                            quarterly: QuarterlyExtractor, paths: seq<string>, ticker: string,
                            i: nat, f: Field)
    requires i < |paths|
    requires ParseFiles(NewParsers(), fs, markup, quarterly, paths, ticker).Ok?
    requires forall j | 0 <= j < i :: ParseFiles(NewParsers(), fs, markup, quarterly, paths, ticker).value.1[j].QuarterlyData?
    requires ParseFiles(NewParsers(), fs, markup, quarterly, paths, ticker).value.1[i].AnnualData?
    requires f != FilingYear && f != Ticker
    requires fs.Read(paths[i]).Ok? && GetFormTypeAndFilingYear(fs, paths[i]).Ok?
    requires var tags := markup(fs.Read(paths[i]).value);
      var year := GetFormTypeAndFilingYear(fs, paths[i]).value.year;
      forall n | 0 <= n < |tags| :: !Qualifies(tags[n], TagName(f), IntToString(year))
    ensures var records := ParseFiles(NewParsers(), fs, markup, quarterly, paths, ticker).value.1;
      f in records[i].rec && records[i].rec[f] == Initial(f)
  {
    UntouchedBefore(NewParsers(), fs, markup, quarterly, paths, ticker, i);
    FileStep(NewParsers(), fs, markup, quarterly, paths, ticker, i);
    var before := StateBefore(NewParsers(), fs, markup, quarterly, paths, ticker, i);
    assert before.annual == Fresh();
    var h := GetFormTypeAndFilingYear(fs, paths[i]).value;
    var tags := markup(fs.Read(paths[i]).value);
    var step := ProcessFile(before, fs, markup, quarterly, paths[i], ticker);
    assert step == ExtractFormData(before, fs, markup, quarterly, paths[i], h.formType, h.year, ticker);
    assert step.value.1.AnnualData?;
    assert step.value.1.rec == Extract(Fresh(), tags, h.year, ticker).value;
    ExtractValue(Fresh(), tags, h.year, ticker, f);
    FreshRecord();
    assert Fresh()[f] == Initial(f);
  }

  /** 10-Q files leave the shared 10-K record alone: while every file so far
      was a 10-Q filing, the parser state is the one the loop started with. */
  lemma {:induction false} UntouchedBefore(p: Parsers, fs: FileSystem, markup: string -> seq<Tag>,
                                           quarterly: QuarterlyExtractor, paths: seq<string>,
                                           ticker: string, i: nat)
    requires Complete(p.annual) && i <= |paths|
    requires ParseFiles(p, fs, markup, quarterly, paths, ticker).Ok?
    requires forall j | 0 <= j < i :: ParseFiles(p, fs, markup, quarterly, paths, ticker).value.1[j].QuarterlyData?
    ensures StateBefore(p, fs, markup, quarterly, paths, ticker, i) == p
  {
    if i > 0 {
      UntouchedBefore(p, fs, markup, quarterly, paths, ticker, i - 1);
      FileStep(p, fs, markup, quarterly, paths, ticker, i - 1);
      var h := GetFormTypeAndFilingYear(fs, paths[i - 1]).value;
      var r := ExtractFormData(p, fs, markup, quarterly, paths[i - 1], h.formType, h.year, ticker);
      assert r == ProcessFile(p, fs, markup, quarterly, paths[i - 1], ticker);
      assert r.value.1.QuarterlyData?;
    } else {
      assert paths[..0] == [];
      assert ParseFiles(p, fs, markup, quarterly, [], ticker) == Ok((p, []));
    }
  }

  /*
   * The years-to-pull clamp of `pull_ticker_symbol`.
   */

  /** Filings before this year are not trusted to be well structured. */
  const OldestYear: int := 2005

  /** The number of years used when the request reaches back too far. */
  const FallbackYears: int := 15

  /** The number of yearly filings requested, given the current year: the
      request itself or the 15-filing fall-back, and from 2020 on a window
      that never starts before 2005. */
  function YearsToPull(currentYear: int, requested: int): (years: int)
    ensures years == requested || years == FallbackYears
    ensures currentYear >= OldestYear + FallbackYears ==> currentYear - years >= OldestYear
  {
    if currentYear - requested < OldestYear then FallbackYears else requested
  }

  /** A request that reaches back no further than 2005 is kept, one that
      reaches back further becomes 15 filings; from 2020 on, the clamped
      window never starts before 2005; and clamping twice is clamping once. */
  lemma ClampedWindow(currentYear: int, requested: int)
    ensures currentYear - requested >= OldestYear ==> YearsToPull(currentYear, requested) == requested
    ensures currentYear - requested < OldestYear ==> YearsToPull(currentYear, requested) == FallbackYears
    ensures currentYear >= OldestYear + FallbackYears ==>
      currentYear - YearsToPull(currentYear, requested) >= OldestYear
    ensures YearsToPull(currentYear, YearsToPull(currentYear, requested)) == YearsToPull(currentYear, requested)
  {
  }
}
