/**
 * The 10-K concept extractor (`Parse10KForm`).
 *
 * An extractor owns one record that maps each of the 42 keys to a value.
 * It is created with defaults and never reset. Each call reads a filing and
 * visits the keys in insertion order. For each key it visits, in document
 * order, the tags named `us-gaap:<key>`, and a tag whose context reference
 * mentions the year and is not a dimensional `Member` overwrites the value
 * with the tag's integer text. It then stamps `filing-year` and `ticker`.
 *
 * The HTML parser is a parameter `markup` that turns the file's text into
 * its tags in document order, with names already lower-cased as the parser
 * delivers them.
 */
module TenK {
  import opened Results
  import opened PyText
  import opened Storage
  import opened Fields

  /** A record value: the integers read from tags, or a string for the
      `filing-type` and `ticker` defaults and the stamped ticker. */
  datatype Value = Num(n: int) | Text(s: string)

  /** The extractor's dictionary. */
  type Record = map<Field, Value>

  /** Every one of the 42 keys is present. */
  predicate Complete(rec: Record) {
    forall f: Field :: f in rec
  }

  /** One element of the parsed document. `contextRef` is `None` when the
      element has no `contextref` attribute. */
  datatype Tag = Tag(name: string, contextRef: Option<string>, text: string)

  /** The value `__init__` gives each key. */
  function Initial(f: Field): Value {
    if f == FilingType then Text("10-K")
    else if f == Ticker then Text("NONE")
    else Num(0)
  }

  /** The record of a newly constructed extractor. */
  function Fresh(): (rec: Record)
    ensures rec.Keys == AllFields
  {
    map f | f in AllFields :: Initial(f)
  }

  /** The element name the extractor searches for to fill field `f`. */
  function TagName(f: Field): string {
    "us-gaap:" + Key(f)
  }

  /** The context test: the reference mentions the year's digits and is not
      a dimensional member (the check for `Member` is case-sensitive). */
  predicate InPeriod(contextRef: string, yearText: string) {
    Contains(contextRef, yearText) && !Contains(contextRef, "Member")
  }

  /** Tag `t` overwrites the field whose element name is `name` when the
      year is spelled `yearText`. */
  predicate Qualifies(t: Tag, name: string, yearText: string) {
    t.name == name && t.contextRef.Some? && InPeriod(t.contextRef.value, yearText)
  }

  /** Visiting tag `t` while scanning for element `name` does not raise: a
      tag with that name has a context reference, and if it qualifies its
      text is an integer literal. */
  predicate Harmless(t: Tag, name: string, yearText: string) {
    t.name == name ==>
      t.contextRef.Some? && (InPeriod(t.contextRef.value, yearText) ==> ParseInt(t.text).Some?)
  }

  /** Tag `i` is the last tag of the document that qualifies for `name`. */
  predicate LastQualifying(tags: seq<Tag>, name: string, yearText: string, i: int) {
    && 0 <= i < |tags|
    && Qualifies(tags[i], name, yearText)
    && forall j | i < j < |tags| :: !Qualifies(tags[j], name, yearText)
  }

  /** One step of the inner loop for the field whose element name is
      `name`: its value `v` after visiting tag `t`. */
  function Visit(v: Value, name: string, t: Tag, yearText: string): (r: Result<Value>)
    ensures r.Ok? <==> Harmless(t, name, yearText)
    ensures r.Ok? && !Qualifies(t, name, yearText) ==> r.value == v
    ensures r.Ok? && Qualifies(t, name, yearText) ==> r.value == Num(ParseInt(t.text).value)
  {
    if t.name != name then Ok(v)
    else
      match t.contextRef
      case None => Err(MissingContextRef(t.name))
      case Some(ctx) =>
        if InPeriod(ctx, yearText) then
          match ParseInt(t.text)
          case Some(n) => Ok(Num(n))
          case None => Err(NotAnInteger(t.text))
        else Ok(v)
  }

  /** A qualifying tag whose text is a file separator followed by digits
      raises ValueError: `int()` does not skip U+001C..U+001F. */
  lemma VisitRejectsSeparator(v: Value, name: string, ctx: string, c: char, ds: string, yearText: string)
    requires InPeriod(ctx, yearText)
    requires '\U{1c}' <= c <= '\U{1f}'
    requires |ds| > 0 && AllDigits(ds)
    ensures Visit(v, name, Tag(name, Some(ctx), [c] + ds), yearText) == Err(NotAnInteger([c] + ds))
  {
    ParseIntRejectsSeparator(c, ds);
  }

  /** The inner loop for the field whose element name is `name`: its value
      after visiting every tag in order. */
  function ScanField(v: Value, name: string, tags: seq<Tag>, yearText: string): Result<Value>
    decreases |tags|
  {
    if |tags| == 0 then Ok(v)
    else
      var v' :- Visit(v, name, tags[0], yearText);
      ScanField(v', name, tags[1..], yearText)
  }

  /** The outer loop over the keys still to visit: scan each in turn,
      storing its value before the next key is scanned. */
  function ScanFrom(rec: Record, keys: seq<Field>, tags: seq<Tag>, yearText: string): (r: Result<Record>)
    requires Complete(rec)
    ensures r.Ok? ==> r.value.Keys == rec.Keys
    decreases |keys|
  {
    if |keys| == 0 then Ok(rec)
    else
      var f := keys[0];
      var v :- ScanField(rec[f], TagName(f), tags, yearText);
      ScanFrom(rec[f := v], keys[1..], tags, yearText)
  }

  /** `get_form_data` once the file is read and parsed: scan every field for
      the year's tags, then stamp the filing year and the ticker. */
  function Extract(rec: Record, tags: seq<Tag>, year: int, ticker: string): (r: Result<Record>)
    requires Complete(rec)
    ensures r.Ok? ==> r.value.Keys == rec.Keys
    ensures r.Ok? ==> r.value[FilingYear] == Num(year) && r.value[Ticker] == Text(ticker)
  {
    var scanned :- ScanFrom(rec, Order(), tags, IntToString(year));
    Ok(scanned[FilingYear := Num(year)][Ticker := Text(ticker)])
  }

  /** `get_form_data`: read the file (a read error is re-raised), parse it,
      and extract. */
  function GetFormData(rec: Record, fs: FileSystem, markup: string -> seq<Tag>,
                       path: string, year: int, ticker: string): (r: Result<Record>)
    requires Complete(rec)
    ensures fs.Read(path).Err? ==> r == Err(fs.Read(path).error)
    ensures path !in fs.files && path !in fs.dirs ==> r == Err(FileNotFound(path))
    ensures fs.Read(path).Ok? ==> r == Extract(rec, markup(fs.Read(path).value), year, ticker)
    ensures r.Ok? ==> r.value.Keys == rec.Keys
    ensures r.Ok? ==> r.value[FilingYear] == Num(year) && r.value[Ticker] == Text(ticker)
  {
    var text :- fs.Read(path);
    Extract(rec, markup(text), year, ticker)
  }

  /** A new extractor holds all 42 keys: the 39 concepts at 0, `filing-type`
      at '10-K', `filing-year` at 0 and `ticker` at 'NONE'. */
  lemma FreshRecord()
    ensures Complete(Fresh())
    ensures |Fresh()| == FieldCount
    ensures Fresh()[FilingType] == Text("10-K")
    ensures Fresh()[FilingYear] == Num(0)
    ensures Fresh()[Ticker] == Text("NONE")
    ensures forall f: Field :: !IsMetadata(f) ==> Fresh()[f] == Num(0)
  {
    FreshComplete();
    FreshSize();
    forall f: Field
      ensures Fresh()[f] == Initial(f)
    {
    }
  }

  lemma FreshComplete()
    ensures Complete(Fresh())
  {
    forall f: Field
      ensures f in Fresh()
    {
      InAllFields(f);
    }
  }

  lemma FreshSize()
    ensures |Fresh()| == FieldCount
  {
    var keys := Fresh().Keys;
    assert |Fresh()| == |keys|;
    FieldsCount();
  }

  /** The inner loop succeeds exactly when every tag is harmless for the field. */
  lemma {:induction false} ScanFieldSucceeds(v: Value, name: string, tags: seq<Tag>, yearText: string)
    ensures ScanField(v, name, tags, yearText).Ok? <==>
      forall i | 0 <= i < |tags| :: Harmless(tags[i], name, yearText)
    decreases |tags|
  {
    if |tags| > 0 {
      var rest := tags[1..];
      var first := Visit(v, name, tags[0], yearText);
      if first.Ok? {
        ScanFieldSucceeds(first.value, name, rest, yearText);
        if !ScanField(v, name, tags, yearText).Ok? {
          var k :| 0 <= k < |rest| && !Harmless(rest[k], name, yearText);
          assert tags[k + 1] == rest[k];
        } else {
          forall i | 0 < i < |tags|
            ensures Harmless(tags[i], name, yearText)
          {
            assert tags[i] == rest[i - 1];
          }
        }
      }
    }
  }

  /** When no tag qualifies, a successful inner loop leaves the value as it was. */
  lemma {:induction false} ScanFieldUnchanged(v: Value, name: string, tags: seq<Tag>, yearText: string)
    requires forall i | 0 <= i < |tags| :: !Qualifies(tags[i], name, yearText)
    ensures ScanField(v, name, tags, yearText).Ok? ==> ScanField(v, name, tags, yearText).value == v
    decreases |tags|
  {
    if |tags| > 0 {
      var rest := tags[1..];
      forall j | 0 <= j < |rest|
        ensures !Qualifies(rest[j], name, yearText)
      {
        assert rest[j] == tags[j + 1];
      }
      var first := Visit(v, name, tags[0], yearText);
      if first.Ok? {
        ScanFieldUnchanged(first.value, name, rest, yearText);
      }
    }
  }

  /** A successful inner loop yields the integer of the last qualifying tag. */
  lemma {:induction false} ScanFieldLastWins(v: Value, name: string, tags: seq<Tag>, yearText: string, i: int)
    requires LastQualifying(tags, name, yearText, i)
    ensures ScanField(v, name, tags, yearText).Ok? ==>
      ParseInt(tags[i].text).Some? &&
      ScanField(v, name, tags, yearText).value == Num(ParseInt(tags[i].text).value)
    decreases |tags|
  {
    if i == 0 {
      LastWinsAtHead(v, name, tags, yearText);
    } else {
      var rest := tags[1..];
      var first := Visit(v, name, tags[0], yearText);
      if first.Ok? {
        assert ScanField(v, name, tags, yearText) == ScanField(first.value, name, rest, yearText);
        assert rest[i - 1] == tags[i];
        assert LastQualifying(rest, name, yearText, i - 1) by {
          forall j | i - 1 < j < |rest|
            ensures !Qualifies(rest[j], name, yearText)
          {
            assert rest[j] == tags[j + 1];
          }
        }
        ScanFieldLastWins(first.value, name, rest, yearText, i - 1);
      }
    }
  }

  /** The case of `ScanFieldLastWins` where the first tag is the last one
      that qualifies. */
  lemma LastWinsAtHead(v: Value, name: string, tags: seq<Tag>, yearText: string)
    requires LastQualifying(tags, name, yearText, 0)
    ensures ScanField(v, name, tags, yearText).Ok? ==>
      ParseInt(tags[0].text).Some? &&
      ScanField(v, name, tags, yearText).value == Num(ParseInt(tags[0].text).value)
  {
    var rest := tags[1..];
    var first := Visit(v, name, tags[0], yearText);
    if first.Ok? {
      assert ScanField(v, name, tags, yearText) == ScanField(first.value, name, rest, yearText);
      assert first.value == Num(ParseInt(tags[0].text).value);
      forall j | 0 <= j < |rest|
        ensures !Qualifies(rest[j], name, yearText)
      {
        assert rest[j] == tags[j + 1];
      }
      ScanFieldUnchanged(first.value, name, rest, yearText);
    }
  }

  /** The outer loop over distinct keys: it succeeds exactly when the inner
      loop succeeds for every key it visits, each visited key ends with its
      own inner loop's value, and every other key is kept. */
  lemma ScanFromSpec(rec: Record, keys: seq<Field>, tags: seq<Tag>, yearText: string)
    requires Complete(rec) && Distinct(keys)
    ensures ScanFrom(rec, keys, tags, yearText).Ok? <==>
      forall f: Field :: f in keys ==> ScanField(rec[f], TagName(f), tags, yearText).Ok?
    ensures ScanFrom(rec, keys, tags, yearText).Ok? ==>
      forall f: Field :: f in keys ==>
        ScanField(rec[f], TagName(f), tags, yearText).Ok? &&
        ScanFrom(rec, keys, tags, yearText).value[f] == ScanField(rec[f], TagName(f), tags, yearText).value
    ensures ScanFrom(rec, keys, tags, yearText).Ok? ==>
      forall f: Field :: f !in keys ==> ScanFrom(rec, keys, tags, yearText).value[f] == rec[f]
  {
    ScanFromSucceeds(rec, keys, tags, yearText);
    if ScanFrom(rec, keys, tags, yearText).Ok? {
      forall f: Field | f in keys
        ensures ScanField(rec[f], TagName(f), tags, yearText).Ok?
        ensures ScanFrom(rec, keys, tags, yearText).value[f] == ScanField(rec[f], TagName(f), tags, yearText).value
      {
        ScanFromAt(rec, keys, tags, yearText, f);
      }
      forall f: Field | f !in keys
        ensures ScanFrom(rec, keys, tags, yearText).value[f] == rec[f]
      {
        ScanFromKeeps(rec, keys, tags, yearText, f);
      }
    }
  }

  /** The outer loop over distinct keys succeeds exactly when the inner loop
      succeeds for every key it visits. */
  lemma {:induction false} ScanFromSucceeds(rec: Record, keys: seq<Field>, tags: seq<Tag>, yearText: string)
    requires Complete(rec) && Distinct(keys)
    ensures ScanFrom(rec, keys, tags, yearText).Ok? <==>
      forall f: Field :: f in keys ==> ScanField(rec[f], TagName(f), tags, yearText).Ok?
    decreases |keys|
  {
    if |keys| > 0 {
      var g, rest := keys[0], keys[1..];
      DistinctTail(keys);
      var first := ScanField(rec[g], TagName(g), tags, yearText);
      if first.Ok? {
        var rec' := rec[g := first.value];
        ScanFromSucceeds(rec', rest, tags, yearText);
        assert ScanFrom(rec, keys, tags, yearText) == ScanFrom(rec', rest, tags, yearText);
        forall f: Field | f in rest
          ensures rec'[f] == rec[f]
        {
        }
        assert forall f: Field :: f in keys <==> f == g || f in rest;
      }
    }
  }

  /** The tail of a list of distinct keys is distinct and lacks the head. */
  lemma DistinctTail(keys: seq<Field>)
    requires Distinct(keys) && |keys| > 0
    ensures Distinct(keys[1..])
    ensures keys[0] !in keys[1..]
  {
  }

  /** A call succeeds exactly when no tag raises while any field is scanned:
      every tag named after a key has a `contextref`, and every qualifying
      tag's text is an integer literal. */
  lemma ExtractSucceeds(rec: Record, tags: seq<Tag>, year: int, ticker: string)
    requires Complete(rec)
    ensures Extract(rec, tags, year, ticker).Ok? <==>
      forall f: Field, i | 0 <= i < |tags| :: Harmless(tags[i], TagName(f), IntToString(year))
  {
    var yearText := IntToString(year);
    OrderLists();
    ScanFromSpec(rec, Order(), tags, yearText);
    if Extract(rec, tags, year, ticker).Ok? {
      forall f: Field, i | 0 <= i < |tags|
        ensures Harmless(tags[i], TagName(f), yearText)
      {
        ScanFieldSucceeds(rec[f], TagName(f), tags, yearText);
      }
    } else {
      var f: Field :| !ScanField(rec[f], TagName(f), tags, yearText).Ok?;
      ScanFieldSucceeds(rec[f], TagName(f), tags, yearText);
    }
  }

  /** After a successful call, a field other than `filing-year` and `ticker`
      keeps its previous value when no tag qualifies for it, and otherwise
      holds the integer of the last qualifying tag. This includes
      `filing-type`, which is never stamped. */
  lemma ExtractValue(rec: Record, tags: seq<Tag>, year: int, ticker: string, f: Field)
    requires Complete(rec)
    requires f != FilingYear && f != Ticker
    ensures Extract(rec, tags, year, ticker).Ok? ==>
      (forall i | 0 <= i < |tags| :: !Qualifies(tags[i], TagName(f), IntToString(year))) ==>
        Extract(rec, tags, year, ticker).value[f] == rec[f]
    ensures Extract(rec, tags, year, ticker).Ok? ==>
      forall i | LastQualifying(tags, TagName(f), IntToString(year), i) ::
        ParseInt(tags[i].text).Some? &&
        Extract(rec, tags, year, ticker).value[f] == Num(ParseInt(tags[i].text).value)
  {
    if Extract(rec, tags, year, ticker).Ok? {
      ExtractField(rec, tags, year, ticker, f);
      ScanFieldValue(rec[f], TagName(f), tags, IntToString(year));
    }
  }

  /** After a successful call, a field other than `filing-year` and `ticker`
      holds what its own inner loop computed. */
  lemma ExtractField(rec: Record, tags: seq<Tag>, year: int, ticker: string, f: Field)
    requires Complete(rec)
    requires f != FilingYear && f != Ticker
    requires Extract(rec, tags, year, ticker).Ok?
    ensures ScanField(rec[f], TagName(f), tags, IntToString(year)).Ok?
    ensures Extract(rec, tags, year, ticker).value[f] == ScanField(rec[f], TagName(f), tags, IntToString(year)).value
  {
    ExtractKeepsScan(rec, tags, year, ticker, f);
    OrderLists();
    ScanFromAt(rec, Order(), tags, IntToString(year), f);
  }

  /** The stamps touch only `filing-year` and `ticker`. */
  lemma ExtractKeepsScan(rec: Record, tags: seq<Tag>, year: int, ticker: string, f: Field)
    requires Complete(rec)
    requires f != FilingYear && f != Ticker
    requires Extract(rec, tags, year, ticker).Ok?
    ensures ScanFrom(rec, Order(), tags, IntToString(year)).Ok?
    ensures Extract(rec, tags, year, ticker).value[f] == ScanFrom(rec, Order(), tags, IntToString(year)).value[f]
  {
  }

  /** One key's share of `ScanFromSpec`: a visited key ends with its own
      inner loop's value. */
  lemma {:induction false} ScanFromAt(rec: Record, keys: seq<Field>, tags: seq<Tag>, yearText: string, f: Field)
    requires Complete(rec) && Distinct(keys) && f in keys
    requires ScanFrom(rec, keys, tags, yearText).Ok?
    ensures ScanField(rec[f], TagName(f), tags, yearText).Ok?
    ensures ScanFrom(rec, keys, tags, yearText).value[f] == ScanField(rec[f], TagName(f), tags, yearText).value
    decreases |keys|
  {
    var g, rest := keys[0], keys[1..];
    DistinctTail(keys);
    var v := ScanField(rec[g], TagName(g), tags, yearText).value;
    assert ScanFrom(rec, keys, tags, yearText) == ScanFrom(rec[g := v], rest, tags, yearText);
    if g == f {
      ScanFromKeeps(rec[g := v], rest, tags, yearText, f);
    } else {
      assert f in rest;
      ScanFromAt(rec[g := v], rest, tags, yearText, f);
      assert rec[g := v][f] == rec[f];
    }
  }

  /** One key's share of `ScanFromSpec`: a key the loop does not visit keeps
      its value. */
  lemma {:induction false} ScanFromKeeps(rec: Record, keys: seq<Field>, tags: seq<Tag>, yearText: string, f: Field)
    requires Complete(rec) && f !in keys
    requires ScanFrom(rec, keys, tags, yearText).Ok?
    ensures ScanFrom(rec, keys, tags, yearText).value[f] == rec[f]
    decreases |keys|
  {
    if |keys| > 0 {
      var g, rest := keys[0], keys[1..];
      var v := ScanField(rec[g], TagName(g), tags, yearText).value;
      assert f !in rest && f != g;
      ScanFromKeeps(rec[g := v], rest, tags, yearText, f);
    }
  }

  /** What a successful inner loop leaves: the old value when no tag
      qualifies, otherwise the integer of the last qualifying tag. */
  lemma ScanFieldValue(v: Value, name: string, tags: seq<Tag>, yearText: string)
    ensures ScanField(v, name, tags, yearText).Ok? ==>
      (forall i | 0 <= i < |tags| :: !Qualifies(tags[i], name, yearText)) ==>
        ScanField(v, name, tags, yearText).value == v
    ensures ScanField(v, name, tags, yearText).Ok? ==>
      forall i | LastQualifying(tags, name, yearText, i) ::
        ParseInt(tags[i].text).Some? &&
        ScanField(v, name, tags, yearText).value == Num(ParseInt(tags[i].text).value)
  {
    if forall i | 0 <= i < |tags| :: !Qualifies(tags[i], name, yearText) {
      ScanFieldUnchanged(v, name, tags, yearText);
    }
    forall i | LastQualifying(tags, name, yearText, i)
      ensures ScanField(v, name, tags, yearText).Ok? ==>
        ParseInt(tags[i].text).Some? &&
        ScanField(v, name, tags, yearText).value == Num(ParseInt(tags[i].text).value)
    {
      ScanFieldLastWins(v, name, tags, yearText, i);
    }
  }

}
