/**
 * Turning an uploaded file into a table (app/services/ai_service.py):
 * choosing the parser by the file's extension, and turning a two-column
 * Parameter/Value listing into a one-row table. The parsers themselves are
 * parameters.
 */
module Ingest {
  import opened Wrappers
  import opened Text
  import opened Tables

  type Bytes = seq<bv8>

  /** The CSV, Excel and PDF readers; the latter two are also given the file name. */
  datatype Parsers = Parsers(
    csv: Bytes -> Result<Table, Failure>,
    excel: (Bytes, string) -> Result<Table, Failure>,
    pdf: (Bytes, string) -> Result<Table, Failure>)

  const CsvExtension := ".csv"
  const ExcelExtensions: set<string> := {".xlsx", ".xls"}
  const PdfExtension := ".pdf"
  const UnsupportedText := "Unsupported file format: "
  const SupportedFormatsText := ". Supported formats: CSV, XLSX, XLS, PDF"

  /** Path(filename).suffix.lower() */
  function Extension(filename: string): (r: string)
    ensures r == [] || (|r| >= 2 && r[0] == '.')
  {
    var s := PathSuffix(filename);
    LowerAt(s);
    Lower(s)
  }

  /** read_file_by_extension: the CSV reader for .csv, the Excel reader for
      .xlsx and .xls, the PDF reader for .pdf (case-insensitively), and a
      ValueError naming the extension for anything else. */
  function ReadFileByExtension(content: Bytes, filename: string, parsers: Parsers): (r: Result<Table, Failure>)
    ensures Extension(filename) == CsvExtension ==> r == parsers.csv(content)
    ensures Extension(filename) in ExcelExtensions ==> r == parsers.excel(content, filename)
    ensures Extension(filename) == PdfExtension ==> r == parsers.pdf(content, filename)
    ensures Extension(filename) != CsvExtension && Extension(filename) !in ExcelExtensions
            && Extension(filename) != PdfExtension ==>
      r == Err(ValueError(UnsupportedText + Extension(filename) + SupportedFormatsText))
  {
    var ext := Extension(filename);
    if ext == CsvExtension then parsers.csv(content)
    else if ext in ExcelExtensions then parsers.excel(content, filename)
    else if ext == PdfExtension then parsers.pdf(content, filename)
    else Err(ValueError(UnsupportedText + ext + SupportedFormatsText))
  }

  /** str(label).strip().lower() */
  function LabelKey(name: string): string {
    Lower(Strip(name))
  }

  function LabelKeys(names: seq<string>): (r: seq<string>)
    ensures |r| == |names| && forall i :: 0 <= i < |names| ==> r[i] == LabelKey(names[i])
  {
    seq(|names|, i requires 0 <= i < |names| => LabelKey(names[i]))
  }

  /** A listing in Parameter/Value form: both labels occur, up to case and
      surrounding white space. */
  predicate IsVertical(t: Table) {
    "parameter" in LabelKeys(t.names) && "value" in LabelKeys(t.names)
  }

  /** str() of a cell used as a column label; how a number is printed is a parameter. */
  function CellLabel(c: Cell, showNum: real -> string): string {
    match c
    case Text(s) => s
    case Num(x) => showNum(x)
    case Missing => "nan"
  }

  /** detect_and_transform_csv: a Parameter/Value listing becomes one row
      whose k-th column is labelled by the k-th parameter and holds the k-th
      value; the first column of each kind is used. Any other table is
      returned unchanged. */
  function DetectAndTransform(t: Table, showNum: real -> string): (r: Table)
    requires WellFormed(t)
    ensures WellFormed(r)
    ensures !IsVertical(t) ==> r == t
    ensures IsVertical(t) ==>
      var p := ColumnIndex(LabelKeys(t.names), "parameter").value;
      var v := ColumnIndex(LabelKeys(t.names), "value").value;
      && r.height == 1 && |r.names| == t.height
      && (forall k :: 0 <= k < t.height ==> r.names[k] == CellLabel(t.cols[p][k], showNum))
      && (forall k :: 0 <= k < t.height ==> r.cols[k] == [t.cols[v][k]])
  {
    var keys := LabelKeys(t.names);
    match (ColumnIndex(keys, "parameter"), ColumnIndex(keys, "value"))
    case (Some(p), Some(v)) =>
      Table(seq(t.height, k requires 0 <= k < t.height => CellLabel(t.cols[p][k], showNum)),
            seq(t.height, k requires 0 <= k < t.height => [t.cols[v][k]]), 1)
    case _ => t
  }

  /** The first column labelled `name` is at position k. */
  lemma ColumnIndexAt(names: seq<string>, name: string, k: nat)
    requires k < |names| && names[k] == name && name !in names[..k]
    ensures ColumnIndex(names, name) == Some(k)
  {
  }

  /** In the transformed listing, looking up a parameter's label gives the
      value of its first row. */
  lemma TransformedLookup(t: Table, showNum: real -> string, k: nat)
    requires WellFormed(t) && IsVertical(t) && k < t.height
    requires var p := ColumnIndex(LabelKeys(t.names), "parameter").value;
      forall i :: 0 <= i < k ==> CellLabel(t.cols[p][i], showNum) != CellLabel(t.cols[p][k], showNum)
    ensures var r := DetectAndTransform(t, showNum);
      var p := ColumnIndex(LabelKeys(t.names), "parameter").value;
      var v := ColumnIndex(LabelKeys(t.names), "value").value;
      Get(RowAt(r, 0), CellLabel(t.cols[p][k], showNum)) == Some(t.cols[v][k])
  {
    var r := DetectAndTransform(t, showNum);
    var p := ColumnIndex(LabelKeys(t.names), "parameter").value;
    var name := CellLabel(t.cols[p][k], showNum);
    assert name !in r.names[..k] by {
      forall i | 0 <= i < k ensures r.names[..k][i] != name {
        assert r.names[i] == CellLabel(t.cols[p][i], showNum);
      }
    }
    ColumnIndexAt(r.names, name, k);
  }
}
