/**
 * The dispatcher (`GeneralFormParser.extract_form_data`).
 *
 * A parser holds an inventory of two extractors keyed by the exact form
 * labels '10-K' and '10-Q'. A call looks the label up and forwards the file
 * to the extractor it finds. Any other label fails, and so does any failure
 * inside the extractor; both are re-raised unchanged.
 *
 * The 10-K extractor is the stateful `TenK` model, and its record is the
 * dispatcher's state. The 10-Q extractor is not part of this model. It is a
 * parameter: a function from (path, year, ticker) to a dictionary or an
 * error.
 */
module Dispatch {
  import opened Results
  import opened Storage
  import opened TenK

  /** The extractors in the inventory. */
  datatype FormKind = Annual | Quarterly

  /** The label an extractor is registered under. */
  function Label(k: FormKind): string {
    match k
    case Annual => "10-K"
    case Quarterly => "10-Q"
  }

  /** `__form_types_inventory.get(formType)`: an exact, case-sensitive lookup. */
  function Inventory(formType: string): (r: Option<FormKind>)
    ensures forall k: FormKind :: r == Some(k) <==> formType == Label(k)
  {
    if formType == "10-K" then Some(Annual)
    else if formType == "10-Q" then Some(Quarterly)
    else None
  }

  /** A dictionary returned by the 10-Q extractor, keyed by its own strings. */
  type Dictionary = map<string, Value>

  /** The 10-Q extractor's `get_form_data(file_path, year, ticker)`. */
  type QuarterlyExtractor = (string, int, string) -> Result<Dictionary>

  /** What one dispatch hands back: the 10-K record or the 10-Q dictionary. */
  datatype FormData = AnnualData(rec: Record) | QuarterlyData(dict: Dictionary)

  /** The state a `GeneralFormParser` carries between calls: the record of
      its 10-K extractor. */
  datatype Parsers = Parsers(annual: Record)

  /** A newly constructed `GeneralFormParser`: its 10-K record is the
      initial record, which has every field. */
  function NewParsers(): (p: Parsers)
    ensures Complete(p.annual)
    ensures p.annual == Fresh()
  {
    FreshComplete();
    Parsers(Fresh())
  }

  /** `extract_form_data`: the new parser state and the extracted data.
      Dispatch is transparent: for a known label it succeeds exactly when
      the chosen extractor does, hands back exactly what that extractor
      returned, and re-raises the extractor's error unchanged. */
  function ExtractFormData(p: Parsers, fs: FileSystem, markup: string -> seq<Tag>,
                           quarterly: QuarterlyExtractor, path: string, formType: string,
                           year: int, ticker: string): (r: Result<(Parsers, FormData)>)
    requires Complete(p.annual)
    ensures Inventory(formType).None? ==> r == Err(NoExtractor(formType))
    ensures r.Ok? ==> Complete(r.value.0.annual)
    ensures r.Ok? ==> (r.value.1.AnnualData? <==> formType == "10-K")
    ensures r.Ok? && r.value.1.AnnualData? ==> r.value.0.annual == r.value.1.rec
    ensures r.Ok? && r.value.1.QuarterlyData? ==> r.value.0 == p
    ensures var annual := GetFormData(p.annual, fs, markup, path, year, ticker);
      formType == "10-K" ==>
        && (r.Ok? <==> annual.Ok?)
        && (r.Ok? ==> r.value.1 == AnnualData(annual.value))
        && (r.Err? ==> r.error == annual.error)
    ensures var q := quarterly(path, year, ticker);
      formType == "10-Q" ==>
        && (r.Ok? <==> q.Ok?)
        && (r.Ok? ==> r.value.1 == QuarterlyData(q.value))
        && (r.Err? ==> r.error == q.error)
  {
    match Inventory(formType)
    case None => Err(NoExtractor(formType))
    case Some(Annual) =>
      var rec :- GetFormData(p.annual, fs, markup, path, year, ticker);
      Ok((Parsers(rec), AnnualData(rec)))
    case Some(Quarterly) =>
      var dict :- quarterly(path, year, ticker);
      Ok((p, QuarterlyData(dict)))
  }
}
