# Extractor pipeline of common_investor_backend, in Dafny

This project models the extraction pipeline of the `common_investor_backend`
service (`ci_rest_api_server/support_libs/extractor`). The pipeline takes SEC
EDGAR filings that were downloaded as text files and turns them into one
record per filing. It has four parts:

- **Header scanner** (`GeneralFormParser.get_form_type_and_filing_year`,
  `header.dfy`). It searches the first 2000 characters of a filing for the
  `CONFORMED SUBMISSION TYPE:` and `FILED AS OF DATE:` lines. It returns the
  form type (`<digits>-<letters>`) and the filing year (the value of at most the
  first four date digits). The two regular expressions are modelled twice:
  once as a scanner that tries each position in turn with greedy runs, and
  once as a declarative match predicate. The two are proved to agree.
- **10-K concept extractor** (`Parse10KForm`, `fields.dfy`, `tenk.dfy`). It
  holds a dense record of 42 keys: 39 balance-sheet concepts plus
  `filing-type`, `filing-year` and `ticker`. For every key it walks the
  document's `us-gaap:<key>` tags. A tag whose `contextref` contains the year
  and does not contain `Member` overwrites the value with the tag's integer
  text, so the last such tag wins. The extractor then stamps the year and the
  ticker. The record is the extractor's own state and is never reset.
- **Dispatcher** (`GeneralFormParser.extract_form_data`, `dispatch.dfy`). It
  looks the form type up exactly (`'10-K'`, `'10-Q'`) and forwards the call to
  the extractor it finds.
- **File-set resolver and session** (`ExtractParseForms`, `resolver.dfy`,
  `session.dfy`).
  - `file_sort_year_wise` is a `re.sub` followed by `int`.
  - `prepare_list_of_files` checks the directories, keeps the names ending in
    `txt`, sorts them stably by the key, and prefixes each with its directory.
  - `parse_form` is a fold over the resolved files with a single shared
    parser.
  - The years-to-pull clamp of `pull_ticker_symbol` is also modelled.

Supporting modules:

- `results.dfy` holds `Option`, `Result` and `Error`. `Error` has one
  constructor per exception the modelled code can raise.
- `pytext.dfy` holds the Python semantics the code relies on: `\s`
  (`str.isspace`), `[0-9]`, `[a-zA-Z]`, maximal runs, `int(str)` (skipping
  the white space `int()` skips, sign, underscores), `str(int)`, `in`,
  `endswith` and `lower`. Around a literal, `int()` skips the ASCII space,
  tab, line feed, vertical tab, form feed and carriage return, and any
  non-ASCII white space. The separators U+001C..U+001F count for
  `str.isspace`, but `int()` does not skip them and raises.
- `storage.dfy` models the file system as a value: directory listings and file
  contents.

Effects become parameters:

- The file system is the `FileSystem` value.
- The HTML parser is a function `markup` from text to the tag sequence in
  document order.
- The 10-Q extractor is a function `quarterly` from (path, year, ticker) to a
  dictionary or an error.
- The current year is an argument of the clamp.

Behaviour of the code that the model keeps:

- The 10-K record belongs to the parser and is never reset between
  documents. `Session.CarriedOver` states the consequence.
- A qualifying tag with a non-integer text raises ValueError, and a tag
  without `contextref` raises KeyError. Neither leaves the key at 0.
- The header scan raises when the date line is absent. Its ValueError
  fall-back to 0 cannot fire, because the date group is all digits.
- A file is kept when its name ends in `txt`, with or without a dot.
- The ticker is checked, as given, against the root listing. The path is
  then built from the lower-cased ticker.

## Model

| member | source | states |
|---|---|---|
| `Header.ScanHeader` | ci_rest_api_server/support_libs/extractor/GFormParse.py:44-65 | A successful scan yields a form type of at least 3 characters containing `-`, and a year in 0..9999. A failed scan fails only with the missing-date or the missing-type error. |
| `Header.GetFormTypeAndFilingYear` | ci_rest_api_server/support_libs/extractor/GFormParse.py:28-42 | A read error is re-raised unchanged. Otherwise the result is the scan of the file's text. |
| `Header.ScanHeaderSucceeds` | ci_rest_api_server/support_libs/extractor/GFormParse.py:44-65 | The call succeeds exactly when both patterns match somewhere in the first 2000 characters. |
| `Header.ScanHeaderResult` | ci_rest_api_server/support_libs/extractor/GFormParse.py:44-60 | On success the form type is the leftmost submission-type match's digit run, `-`, and letter run. The year is the value of the first min(4, n) digits of the leftmost filed-date match. |
| `Header.SearchDateFindsFirstMatch` | ci_rest_api_server/support_libs/extractor/GFormParse.py:45-55 | The date search returns group 1 of the leftmost match of `FILED AS OF DATE:\s+([0-9]+)`, with the greedy digit run. |
| `Header.SearchTypeFindsFirstMatch` | ci_rest_api_server/support_libs/extractor/GFormParse.py:44-48 | The type search returns both groups of the leftmost match of the submission-type pattern. |
| `Header.SearchDateNone` | ci_rest_api_server/support_libs/extractor/GFormParse.py:45-55 | The date search finds nothing exactly when the pattern matches at no position. |
| `Header.SearchTypeNone` | ci_rest_api_server/support_libs/extractor/GFormParse.py:44-48 | The type search finds nothing exactly when the pattern matches at no position. |
| `Header.DateAtComplete` | ci_rest_api_server/support_libs/extractor/GFormParse.py:45 | Any declarative date match at a position is the one the scanner reports there. |
| `Header.TypeAtComplete` | ci_rest_api_server/support_libs/extractor/GFormParse.py:44 | Any declarative submission-type match at a position is the one the scanner reports there. |
| `Header.MissingDateFails` | ci_rest_api_server/support_libs/extractor/GFormParse.py:55-62 | Without a filed-date match the call fails with the AttributeError, whatever the type line says. A junk file is one case. |
| `Header.MissingTypeFails` | ci_rest_api_server/support_libs/extractor/GFormParse.py:48-65 | With a date but no submission-type match the call still fails, because the form-type name is never bound. No result without a form type is returned. |
| `Header.FiledYearAlwaysParses` | ci_rest_api_server/support_libs/extractor/GFormParse.py:57-62 | `int()` of the leading digits always succeeds, so the ValueError fall-back to 0 never fires. |
| `Header.FiledYearOfFullDate` | ci_rest_api_server/support_libs/extractor/test_GFormParse.py:82-83 | A filed date `2018MMDD`, such as `20180930`, gives the year 2018. |
| `Header.OnlyWindowMatters` | ci_rest_api_server/support_libs/extractor/GFormParse.py:47-55 | Characters after index 2000 never change the outcome. |
| `PyText.ParseIntOfDigits` | ci_rest_api_server/support_libs/extractor/GFormParse.py:60 | `int()` of a non-empty ASCII digit run is its base-10 value. |
| `PyText.ParseIntSkipsSpace` | ci_rest_api_server/support_libs/extractor/P10kParser.py:127 | `int()` ignores one space character of its own set on each side of a digit run. |
| `PyText.ParseIntRejectsSeparator` | ci_rest_api_server/support_libs/extractor/P10kParser.py:127 | A file separator U+001C..U+001F counts as white space for `str.isspace`, yet `int()` of it followed by digits fails. |
| `Fields.FieldsCount` | ci_rest_api_server/support_libs/extractor/P10kParser.py:41-84 | The record has exactly 42 distinct keys. |
| `Fields.FieldAtRank` | ci_rest_api_server/support_libs/extractor/P10kParser.py:41-84 | Each key has one position in the insertion order, and that position holds that key. |
| `Fields.OrderLists` | ci_rest_api_server/support_libs/extractor/P10kParser.py:41-84 | The insertion order, which the extraction loop follows, lists all 42 keys, each exactly once. |
| `TenK.FreshRecord` | ci_rest_api_server/support_libs/extractor/P10kParser.py:37-84 | A new extractor holds all 42 keys: every concept at 0, `filing-type` = '10-K', `filing-year` = 0 and `ticker` = 'NONE'. |
| `TenK.Visit` | ci_rest_api_server/support_libs/extractor/P10kParser.py:117-127 | Visiting a tag fails exactly when the tag has the key's name and either lacks `contextref` or qualifies with a non-integer text. A non-qualifying tag leaves the value. A qualifying tag sets it to `int(text)`. |
| `TenK.VisitRejectsSeparator` | ci_rest_api_server/support_libs/extractor/P10kParser.py:125-127 | A qualifying tag whose text is a file separator followed by digits raises ValueError. |
| `TenK.ScanFieldSucceeds` | ci_rest_api_server/support_libs/extractor/P10kParser.py:118-127 | The scan of one key succeeds exactly when no tag in the document raises for it. |
| `TenK.ScanFieldUnchanged` | ci_rest_api_server/support_libs/extractor/P10kParser.py:118-127 | With no qualifying tag the key keeps its previous value. |
| `TenK.ScanFieldLastWins` | ci_rest_api_server/support_libs/extractor/P10kParser.py:118-127 | With qualifying tags the key holds `int(text)` of the last one in document order. |
| `TenK.ScanFromSpec` | ci_rest_api_server/support_libs/extractor/P10kParser.py:115-127 | Over distinct keys, the outer loop succeeds exactly when every visited key's scan succeeds. Each visited key ends with its own scan's value, and every other key is kept. |
| `TenK.Extract` | ci_rest_api_server/support_libs/extractor/P10kParser.py:115-137 | The key set is unchanged, `filing-year` is the year argument, and `ticker` is the ticker argument. |
| `TenK.ExtractSucceeds` | ci_rest_api_server/support_libs/extractor/P10kParser.py:115-127 | The call succeeds exactly when every tag named after a key has a `contextref` and every qualifying tag's text is an integer literal. |
| `TenK.ExtractValue` | ci_rest_api_server/support_libs/extractor/P10kParser.py:115-131 | Every key except `filing-year` and `ticker` (so `filing-type` included) keeps its pre-call value when no tag qualifies, and otherwise holds the last qualifying tag's integer. |
| `TenK.GetFormData` | ci_rest_api_server/support_libs/extractor/P10kParser.py:86-140 | A read error is re-raised, and a missing path gives FileNotFoundError. Otherwise the result is the extraction over the parsed text. Keys and stamps are as in `Extract`. |
| `Dispatch.Inventory` | ci_rest_api_server/support_libs/extractor/GFormParse.py:19-22 | The lookup finds an extractor exactly for the labels '10-K' and '10-Q'. It is case-sensitive. |
| `Dispatch.NewParsers` | ci_rest_api_server/support_libs/extractor/GFormParse.py:15-25 | A new parser's 10-K record is the initial record, so it holds every key. |
| `Dispatch.ExtractFormData` | ci_rest_api_server/support_libs/extractor/GFormParse.py:67-102 | Any other label fails. For '10-K' and '10-Q' the call succeeds exactly when the chosen extractor does, returns exactly its value, and re-raises its error. Only a 10-K call changes the shared record, and it sets it to the returned record. |
| `Resolver.SortKey` | ci_rest_api_server/support_libs/extractor/IExtractDBPush.py:151-164 | A name has a key exactly when `int` accepts what the substitution leaves of it. Otherwise the ValueError names that substituted text, not the file name: `x0000320193-18-000145.txt` fails on `x18`. |
| `Resolver.MatchAtComplete` | ci_rest_api_server/support_libs/extractor/IExtractDBPush.py:161 | Where `(\d+\-)(\d+)(\-\d+)(\.txt)` matches, the scanner reports the match's end and its second group. |
| `Resolver.MatchAtSound` | ci_rest_api_server/support_libs/extractor/IExtractDBPush.py:161 | What the scanner reports is a real match of the pattern. |
| `Resolver.ConventionKey` | ci_rest_api_server/support_libs/extractor/IExtractDBPush.py:160-164 | A name `D1-D2-D3.txt` of digit runs is keyed by the integer value of D2. |
| `Resolver.ExampleKey` | ci_rest_api_server/support_libs/extractor/IExtractDBPush.py:160-164 | `0000320193-18-000145.txt` is keyed 18. |
| `Resolver.NameWithoutDash` | ci_rest_api_server/support_libs/extractor/IExtractDBPush.py:160-164 | A name that starts with a letter and has no `-` has no key. |
| `Resolver.NonConventionalName` | ci_rest_api_server/support_libs/extractor/test_IExtractDBPush.py:46-67 | `test1.txt` has no key. |
| `Resolver.SubstituteWithoutDash` | ci_rest_api_server/support_libs/extractor/IExtractDBPush.py:163 | The substitution leaves a name without `-` as it is. |
| `Resolver.InsertPermutes` | ci_rest_api_server/support_libs/extractor/IExtractDBPush.py:201 | Insertion adds exactly the one entry. |
| `Resolver.SortEntriesPermutes` | ci_rest_api_server/support_libs/extractor/IExtractDBPush.py:201 | The sort is a permutation of the entries and of their names. |
| `Resolver.SortEntriesIsStable` | ci_rest_api_server/support_libs/extractor/IExtractDBPush.py:201 | The sort's output is sorted by key, and the entries of each key keep their original order. |
| `Resolver.StableOrderUnique` | ci_rest_api_server/support_libs/extractor/IExtractDBPush.py:201 | Two stable orders of the same entries are equal, so the result is the same as Python's stable `list.sort`. |
| `Resolver.KeyedSpec` | ci_rest_api_server/support_libs/extractor/IExtractDBPush.py:200-206 | Keying succeeds exactly when every name has a key. It then pairs each name with its key, and otherwise raises the error of the first name without one. |
| `Resolver.OrderFileNames` | ci_rest_api_server/support_libs/extractor/IExtractDBPush.py:199-206 | The sort fails exactly when keying fails, with the same error. Otherwise it returns the names of the stable order of the keyed entries. |
| `Resolver.OrderedNames` | ci_rest_api_server/support_libs/extractor/IExtractDBPush.py:199-206 | A successful sort returns a permutation of the names, each with a key, with keys non-decreasing. |
| `Resolver.SmallerKeyFirst` | ci_rest_api_server/support_libs/extractor/IExtractDBPush.py:199-206 | A name with a smaller key comes earlier in the resolved order. |
| `Resolver.Year99Key` | ci_rest_api_server/support_libs/extractor/IExtractDBPush.py:160-164 | A `-99-` filing is keyed 99. |
| `Resolver.Year00Key` | ci_rest_api_server/support_libs/extractor/IExtractDBPush.py:160-164 | A `-00-` filing is keyed 0, so it sorts before a `-99-` filing. |
| `Resolver.ThreeFilingsInYearOrder` | ci_rest_api_server/support_libs/extractor/IExtractDBPush.py:199-206 | One filer's 2017, 2018 and 2016 filings, listed in that order, come out as 2016, 2017, 2018. |
| `Resolver.TextNames` | ci_rest_api_server/support_libs/extractor/IExtractDBPush.py:185-188 | Exactly the entries ending in `txt` are kept, with their multiplicities. |
| `Resolver.TextNamesAppend` | ci_rest_api_server/support_libs/extractor/IExtractDBPush.py:185-188 | The kept names stay in listing order: filtering two listings one after the other gives the first's kept names, then the second's. |
| `Resolver.TextNamesSingle` | ci_rest_api_server/support_libs/extractor/IExtractDBPush.py:187-188 | A single entry is kept exactly when its name ends in `txt`. |
| `Resolver.Prefixed` | ci_rest_api_server/support_libs/extractor/IExtractDBPush.py:207-209 | Each name becomes `<dir>/<name>`, in the same order. |
| `Resolver.PrepareListOfFiles` | ci_rest_api_server/support_libs/extractor/IExtractDBPush.py:166-210 | A failed root listing is re-raised. A ticker missing from the root listing (checked as given, not lower-cased) and a missing form path both raise the same bare FileNotFoundError, which does not say which directory is missing. A form path that exists but is a regular file raises scandir's NotADirectoryError. A `txt` name without a key raises the sort's ValueError for the first such name, as `test_wrong_file_naming_format` expects. On success the result is the sorted `txt` names under `<root>/<ticker.lower()>/<form.lower()>`. |
| `Resolver.ResolvedFiles` | ci_rest_api_server/support_libs/extractor/IExtractDBPush.py:178-210 | A resolved list is a permutation of the form directory's `txt` entries, each prefixed by that directory. |
| `Resolver.ResolvedInListingOrder` | ci_rest_api_server/support_libs/extractor/IExtractDBPush.py:185-202 | For the form directory's listing, the kept `txt` names keep listing order across every split point. A successful sort is the stable sort of their keyed entries, so names with equal keys stay in the order the directory listed them. |
| `Resolver.AllTextNames` | ci_rest_api_server/support_libs/extractor/IExtractDBPush.py:185-188 | A listing whose names all end in `txt` is kept whole, in listing order. |
| `Resolver.WrongNamingFormat` | ci_rest_api_server/support_libs/extractor/test_IExtractDBPush.py:46-67 | A form directory of names like `test1.txt` (a letter first, no `-`) makes resolution raise the ValueError of the first name listed. |
| `Resolver.NoTextFiles` | ci_rest_api_server/support_libs/extractor/test_IExtractDBPush.py:35-44 | An existing form directory without `txt` entries resolves to the empty list. |
| `Session.ProcessFile` | ci_rest_api_server/support_libs/extractor/IExtractDBPush.py:231-236 | A header error aborts the step. Otherwise the step is the dispatch with the header's form type and year. |
| `Session.ParseFiles` | ci_rest_api_server/support_libs/extractor/IExtractDBPush.py:227-241 | A successful loop yields one snapshot per file and keeps every key of the shared record. |
| `Session.ParseForm` | ci_rest_api_server/support_libs/extractor/IExtractDBPush.py:212-241 | A resolver error is re-raised. Otherwise the result is the loop over the resolved files with a new parser, with the loop's error or one snapshot per resolved file. |
| `Session.ParseFilesPrefix` | ci_rest_api_server/support_libs/extractor/IExtractDBPush.py:229-239 | The loop over the first m files succeeds and yields the first m snapshots of the whole loop. |
| `Session.FileStep` | ci_rest_api_server/support_libs/extractor/IExtractDBPush.py:229-239 | Snapshot i is what processing file i from the state before it yields, and it leaves the state before file i + 1. |
| `Session.EverySnapshot` | ci_rest_api_server/support_libs/extractor/IExtractDBPush.py:229-239 | Every file of a successful session had a readable header with form type '10-K' or '10-Q'. A 10-K snapshot holds every key, stamped with that header's year and the ticker. |
| `Session.CarriedOver` | ci_rest_api_server/support_libs/extractor/IExtractDBPush.py:228-236 | For consecutive 10-K files, a key other than `filing-year` and `ticker` with no qualifying tag in the later file keeps the earlier file's value. |
| `Session.UntouchedBefore` | ci_rest_api_server/support_libs/extractor/GFormParse.py:85-92 | 10-Q files leave the shared 10-K record as it was. |
| `Session.FirstAnnualDefaults` | ci_rest_api_server/support_libs/extractor/IExtractDBPush.py:227-236 | In the first 10-K snapshot of a session, a key with no qualifying tag holds its initial value. |
| `Session.YearsToPull` | ci_rest_api_server/support_libs/extractor/IExtractDBPush.py:113-115 | The clamp yields the request or 15. From 2020 on, the window it yields never starts before 2005. |
| `Session.ClampedWindow` | ci_rest_api_server/support_libs/extractor/IExtractDBPush.py:113-115 | A request reaching back no further than 2005 is kept, and one reaching back further becomes 15. From 2020 on, the clamped window never starts before 2005. Clamping is idempotent. |

## Left out

- File and directory I/O are a `FileSystem` value. Paths are compared as plain
  strings, with no normalisation and no symbolic links. Text decoding errors
  are folded into one unreadable-file case.
- HTML parsing (BeautifulSoup with lxml) is the `markup` parameter. Its tag
  names are assumed already lower-cased, and `tag.text` is taken as delivered.
- The 10-Q extractor (`P10QParser.py`) is not part of this model. It is the
  `quarterly` parameter, a stateless function of (path, year, ticker).
- The EDGAR download in `pull_ticker_symbol` is network I/O. Only the
  years-to-pull clamp is modelled, with the current year as an argument.
- The MongoDB functions (`from_db`, `open_db_connection`, `push_to_db`,
  `pull_from_db`) are database I/O.
- The `timeit` decorator measures wall-clock time. All `logger` calls are
  left out too.
- Partial state after an exception is left out. When a 10-K scan raises
  midway, the Python record keeps the keys already updated. The model returns
  only the error, which is all `parse_form` exposes, since the exception
  aborts it.
- Unicode digits and Unicode case mapping are left out: `\d` in the file-name
  pattern, `int()` and `str.lower()` are modelled on ASCII only. `\s` is
  modelled with Python's full `str.isspace` set.
- `PyText.ParseInt`: the limit of 4300 digits that Python 3.11 and later
  put on `int(str)` is left out, because the running Python version is not
  known; longer literals parse here.
- `TenK.FreshRecord`: the 39 concepts are stated as "every key other than the
  three metadata keys is 0", not as a cardinality of 39.
