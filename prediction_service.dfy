/**
 * The CBC prediction service (CBCPredictionService in
 * app/services/ai_service.py): loading the model once, predicting a batch
 * of rows, and the result shaping of an uploaded file and of manually
 * entered values. Saving to the database is not modelled: whether a session
 * was given and whether the CBC model record exists are parameters.
 */
module PredictionService {
  import opened Wrappers
  import opened Text
  import opened Tables
  import opened CbcAliases
  import opened CbcPrepare
  import opened CbcReport
  import opened CbcAnnotate
  import opened Ingest

  const UnavailableText := "AI prediction modules are not available"
  const NoFileText := "No file was selected. " + "Please select a file to upload."
  const InvalidTypeText := "Invalid file type. Please upload a file with one of these extensions: "
  const EmptyFileText := "The uploaded file is empty. Please upload a valid file with CBC data."
  const ReadErrorText := "Error reading file: "
  const NoDataText := "The file contains no data. Please ensure your file has CBC test results."
  const FileValidationText := "File validation error: "
  const FileProcessingText := "Error processing file: "
  const NoSessionText := "Database session is required to save test results."
  const NoModelRecordText := "CBC Anemia Detection model not found."
  const AnalyzedText := "CBC analysis completed successfully! Analyzed "
  const SamplesFromText := " sample(s) from "
  const FileSuffixText := " file."
  const ManualSuccessText := "CBC analysis completed successfully!"
  const ManualValidationText := "Validation error: "
  const ManualProcessingText := "Error during CBC analysis: "
  const ValidExtensions: seq<string> := [".csv", ".xlsx", ".xls", ".pdf"]
  const AnemiaProbabilityColumn := "Anemia_Probability"
  const HighConfidence: real := 0.8

  /** The eight values echoed back with every prediction, in this order. */
  const ValueNames: seq<string> := ["RBC", "HGB", "PCV", "MCV", "MCH", "MCHC", "TLC", "PLT"]

  // ---------------------------------------------------------------- values

  /** float(row.get(name, 0)): 0 for an absent column, None for NaN, text
      parsed as a float or refused with ValueError. */
  function FloatOf(row: Row, name: string): (r: Result<Option<real>, Failure>)
    requires |row.cells| == |row.names|
    ensures name !in row.names ==> r == Ok(Some(0.0))
    ensures r.Err? ==> r.error.ValueError?
  {
    match Get(row, name)
    case None => Ok(Some(0.0))
    case Some(Num(x)) => Ok(Some(x))
    case Some(Missing) => Ok(None)
    case Some(Text(s)) =>
      (match ParseDecimal(Strip(s))
       case Some(v) => Ok(Some(v))
       case None => Err(ValueError(NotFloatText + "'" + s + "'")))
  }

  /** A value echoed back for a present column is the one the report reads. */
  lemma FloatOfAgreesWithReport(row: Row, name: string)
    requires |row.cells| == |row.names| && name in row.names && FloatOf(row, name).Ok?
    ensures FloatOf(row, name).value == Val(row, name)
  {
  }

  /** The "values" of a result: the eight values in order, or the first refusal. */
  function ValuesOf(row: Row): (r: Result<seq<Option<real>>, Failure>)
    requires |row.cells| == |row.names|
    ensures r.Ok? ==> |r.value| == |ValueNames|
    ensures r.Ok? ==> forall j :: 0 <= j < |ValueNames| ==> FloatOf(row, ValueNames[j]) == Ok(r.value[j])
    ensures r.Err? ==> r.error.ValueError?
  {
    MapAll(name => FloatOf(row, name), ValueNames)
  }

  // ---------------------------------------------------------------- rows

  /** A prediction result of an uploaded file or of manual input. */
  datatype RowResult = RowResult(rowIndex: nat, prediction: Cell, code: int, anemiaProbability: real,
                                 values: seq<Option<real>>, report: string)

  /** A predict_batch result. */
  datatype BatchResult = BatchResult(rowIndex: nat, prediction: string, code: int, confidence: string,
                                     normal: real, anemia: real, values: seq<Option<real>>, report: Option<string>)

  /** An annotated table whose rows all carry a prediction and a diagnosis. */
  predicate WellAnnotated(a: Annotated) {
    && WellFormed(a.table) && |a.probabilities| == a.table.height && DiagnosisLabel in a.table.names
    && forall k :: 0 <= k < a.table.height ==> HasPrediction(RowAt(a.table, k))
  }

  /** The result for one annotated row. */
  function UploadRowResult(row: Row, k: nat, anemia: real, format1: real -> string): Result<RowResult, Failure>
    requires HasPrediction(row) && DiagnosisLabel in row.names
  {
    match ValuesOf(row)
    case Err(e) => Err(e)
    case Ok(v) => Ok(RowResult(k, Get(row, DiagnosisLabel).value, CbcReport.PredictedLabel(row), anemia, v, Report(row, format1)))
  }

  function UploadRows(a: Annotated, format1: real -> string): (r: seq<Result<RowResult, Failure>>)
    requires WellAnnotated(a)
    ensures |r| == a.table.height
  {
    seq(a.table.height, k requires 0 <= k < a.table.height =>
      UploadRowResult(RowAt(a.table, k), k, a.probabilities[k].1, format1))
  }

  /** int() of an integral prediction gives it back. */
  lemma TruncateInt(n: int)
    ensures Truncate(n as real) == n
  {
    if n < 0 {
      assert (-(n as real)).Floor == -n;
    }
  }

  /** An annotation carries a prediction and a diagnosis in every row, and has a row. */
  lemma AnnotatedIsWell(raw: Table, model: Classifier, scaler: Scaler, used: seq<string>)
    requires WellFormed(raw) && Annotate(raw, model, scaler, used).Ok?
    ensures WellAnnotated(Annotate(raw, model, scaler, used).value)
    ensures Annotate(raw, model, scaler, used).value.table.height >= 1
  {
    AnnotateCorrect(raw, model, scaler, used);
    var a := Annotate(raw, model, scaler, used).value;
    forall k | 0 <= k < a.table.height ensures HasPrediction(RowAt(a.table, k)) {
      GetRowAt(a.table, k, PredictedColumn);
    }
  }

  /** Row k of an annotation's results: index k, the classifier's label for
      the row's scaled features, 'Anemia' exactly for label 1, the anemia
      probability, and the fixed not-anemic report exactly for label 0. */
  lemma UploadRowFacts(p: Table, a: Annotated, model: Classifier, scaler: Scaler, used: seq<string>,
                       format1: real -> string, k: nat, res: RowResult)
    requires WellFormed(p) && AnnotatedFrom(p, a, model, scaler, used) && WellAnnotated(a)
    requires k < a.table.height && UploadRows(a, format1)[k] == Ok(res)
    ensures var z := scaler.transform(FeatureRow(p, used, k).value);
      && res.rowIndex == k && res.code == model.predict(z)
      && res.prediction == Text(DiagnosisText(res.code))
      && res.anemiaProbability == model.proba(z).1
      && (res.report == NotAnemicText <==> res.code == 0)
  {
    var row := RowAt(a.table, k);
    var z := scaler.transform(FeatureRow(p, used, k).value);
    GetRowAt(a.table, k, PredictedColumn);
    GetRowAt(a.table, k, DiagnosisLabel);
    TruncateInt(model.predict(z));
    ReportNotAnemicIff(row, format1);
  }

  /** The results of an annotated table, row by row; the first refusal of a
      value ends the loop. */
  method CollectUploadRows(a: Annotated, format1: real -> string) returns (r: Result<seq<RowResult>, Failure>)
    requires WellAnnotated(a)
    ensures r == AllOk(UploadRows(a, format1))
  {
    r := CollectResults(a.table.height, k requires 0 <= k < a.table.height =>
      UploadRowResult(RowAt(a.table, k), k, a.probabilities[k].1, format1), UploadRows(a, format1));
  }

  /** The row predict_batch reports on: the prepared row with the label and
      the anemia probability added. */
  function WithPrediction(row: Row, code: int, anemia: real): (r: Row)
    requires |row.cells| == |row.names|
    ensures HasPrediction(r) && CbcReport.PredictedLabel(r) == code
  {
    var r := SetCell(SetCell(row, PredictedColumn, Num(code as real)), AnemiaProbabilityColumn, Num(anemia));
    SetCellKeeps(SetCell(row, PredictedColumn, Num(code as real)), AnemiaProbabilityColumn, Num(anemia), PredictedColumn);
    TruncateInt(code);
    r
  }

  /** Setting one column of a row leaves the others as they were. */
  lemma SetCellKeeps(row: Row, name: string, c: Cell, other: string)
    requires |row.cells| == |row.names| && other != name
    ensures Get(SetCell(row, name, c), other) == Get(row, other)
  {
    if name !in row.names && other in row.names {
      ColumnIndexAppend(row.names, name, other);
    }
  }

  /** "High" when the larger class probability exceeds 0.8, else "Medium". */
  function ConfidenceText(probs: (real, real)): string {
    if (if probs.0 >= probs.1 then probs.0 else probs.1) > HighConfidence then "High" else "Medium"
  }

  function BatchRowResult(row: Row, k: nat, code: int, probs: (real, real), withReport: bool,
                          format1: real -> string): Result<BatchResult, Failure>
    requires |row.cells| == |row.names|
  {
    match ValuesOf(row)
    case Err(e) => Err(e)
    case Ok(v) =>
      Ok(BatchResult(k, DiagnosisText(code), code, ConfidenceText(probs), probs.0, probs.1, v,
                     if withReport then Some(Report(WithPrediction(row, code, probs.1), format1)) else None))
  }

  function BatchRows(p: Table, codes: seq<int>, probs: seq<(real, real)>, withReport: bool,
                     format1: real -> string): (r: seq<Result<BatchResult, Failure>>)
    requires WellFormed(p) && |codes| == |probs| == p.height
    ensures |r| == p.height
  {
    seq(p.height, k requires 0 <= k < p.height =>
      BatchRowResult(RowAt(p, k), k, codes[k], probs[k], withReport, format1))
  }

  /** predict_batch once the assets are loaded: prepare the rows, classify
      them, and describe each prepared row. */
  function Batch(t: Table, assets: Assets, withReport: bool, format1: real -> string): Result<seq<BatchResult>, Failure>
    requires WellFormed(t)
  {
    match Prepare(t, assets.usedFeatures)
    case Err(e) => Err(e)
    case Ok(p) =>
      PreparedNonEmpty(t, assets.usedFeatures);
      match FeatureMatrix(p, assets.usedFeatures, p.height)
      case Err(e) => Err(e)
      case Ok(x) =>
        AllOk(BatchRows(p, Labels(assets.model, assets.scaler, x), Probabilities(assets.model, assets.scaler, x),
                        withReport, format1))
  }

  /** The results of the prepared rows, row by row. */
  method CollectBatchRows(p: Table, codes: seq<int>, probs: seq<(real, real)>, withReport: bool,
                          format1: real -> string) returns (r: Result<seq<BatchResult>, Failure>)
    requires WellFormed(p) && |codes| == |probs| == p.height
    ensures r == AllOk(BatchRows(p, codes, probs, withReport, format1))
  {
    r := CollectResults(p.height, k requires 0 <= k < p.height =>
      BatchRowResult(RowAt(p, k), k, codes[k], probs[k], withReport, format1),
      BatchRows(p, codes, probs, withReport, format1));
  }

  /** A batch describes every prepared row, at least one, in order: its
      index, the classifier's label for its scaled features, 'Anemia'
      exactly for label 1, both class probabilities, "High" confidence
      exactly when one of them exceeds 0.8, and with a report exactly when
      asked, the fixed not-anemic text exactly for label 0. */
  lemma BatchCorrect(t: Table, assets: Assets, withReport: bool, format1: real -> string)
    requires WellFormed(t) && Batch(t, assets, withReport, format1).Ok?
    ensures Prepare(t, assets.usedFeatures).Ok?
    ensures var p := Prepare(t, assets.usedFeatures).value;
      var rs := Batch(t, assets, withReport, format1).value;
      && WellFormed(p) && |rs| == p.height >= 1
      && forall k :: 0 <= k < |rs| ==> BatchRowSays(p, assets, k, rs[k], withReport)
  {
    var used := assets.usedFeatures;
    PreparedNonEmpty(t, used);
    var p := Prepare(t, used).value;
    var x := FeatureMatrix(p, used, p.height).value;
    var rs := Batch(t, assets, withReport, format1).value;
    var rows := BatchRows(p, Labels(assets.model, assets.scaler, x), Probabilities(assets.model, assets.scaler, x),
                          withReport, format1);
    forall k | 0 <= k < |rs| ensures BatchRowSays(p, assets, k, rs[k], withReport) {
      assert rows[k] == Ok(rs[k]);
      BatchRowFacts(RowAt(p, k), k, Labels(assets.model, assets.scaler, x)[k],
                    Probabilities(assets.model, assets.scaler, x)[k], withReport, format1, rs[k]);
    }
  }

  /** What a batch result for prepared row k says. */
  predicate BatchRowSays(p: Table, assets: Assets, k: nat, res: BatchResult, withReport: bool)
    requires WellFormed(p) && k < p.height
  {
    FeatureRow(p, assets.usedFeatures, k).Ok? &&
    var z := assets.scaler.transform(FeatureRow(p, assets.usedFeatures, k).value);
    && res.rowIndex == k && res.code == assets.model.predict(z)
    && (res.prediction == "Anemia" <==> res.code == 1)
    && (res.normal, res.anemia) == assets.model.proba(z)
    && (res.confidence == "High" <==> res.normal > HighConfidence || res.anemia > HighConfidence)
    && (res.report.Some? <==> withReport)
    && (withReport ==> (res.report.value == NotAnemicText <==> res.code == 0))
  }

  /** The facts of one batch result, from the row it describes. */
  lemma BatchRowFacts(row: Row, k: nat, code: int, probs: (real, real), withReport: bool,
                      format1: real -> string, res: BatchResult)
    requires |row.cells| == |row.names| && BatchRowResult(row, k, code, probs, withReport, format1) == Ok(res)
    ensures res.rowIndex == k && res.code == code && (res.prediction == "Anemia" <==> code == 1)
    ensures (res.normal, res.anemia) == probs
    ensures res.confidence == "High" <==> probs.0 > HighConfidence || probs.1 > HighConfidence
    ensures res.report.Some? <==> withReport
    ensures withReport ==> (res.report.value == NotAnemicText <==> code == 0)
  {
    if withReport {
      ReportNotAnemicIff(WithPrediction(row, code, probs.1), format1);
    }
  }

  // ---------------------------------------------------------------- outcomes

  /** The response of process_csv_upload and process_manual_input. */
  datatype Outcome = Outcome(success: bool, message: string, results: seq<RowResult>)

  function Failed(message: string): Outcome {
    Outcome(false, message, [])
  }

  /** An uploaded file: its name and its bytes. */
  datatype Upload = Upload(filename: string, content: Bytes)

  /** The readers return well-formed tables. */
  ghost predicate ParsersWellFormed(parsers: Parsers) {
    && (forall b :: parsers.csv(b).Ok? ==> WellFormed(parsers.csv(b).value))
    && (forall b, n :: parsers.excel(b, n).Ok? ==> WellFormed(parsers.excel(b, n).value))
    && (forall b, n :: parsers.pdf(b, n).Ok? ==> WellFormed(parsers.pdf(b, n).value))
  }

  /** Every extension the upload accepts is dispatched to a reader. */
  lemma ValidExtensionsRead(content: Bytes, filename: string, parsers: Parsers)
    requires Extension(filename) in ValidExtensions
    ensures ReadFileByExtension(content, filename, parsers)
            in {parsers.csv(content), parsers.excel(content, filename), parsers.pdf(content, filename)}
  {
  }

  /** The checks of process_csv_upload before the model is involved, in
      order: a file with a name, an accepted extension, some content, a
      readable and non-empty table; it yields the extension and the table
      after the Parameter/Value transform. */
  function ReadUpload(file: Option<Upload>, parsers: Parsers, showNum: real -> string): (r: Result<(string, Table), string>)
    requires ParsersWellFormed(parsers)
    ensures r.Ok? ==> WellFormed(r.value.1) && r.value.0 in ValidExtensions
  {
    if file.None? || file.value.filename == [] then Err(NoFileText)
    else
      var ext := Extension(file.value.filename);
      if ext !in ValidExtensions then Err(InvalidTypeText + Join(ValidExtensions, ", "))
      else if |file.value.content| == 0 then Err(EmptyFileText)
      else match ReadFileByExtension(file.value.content, file.value.filename, parsers)
        case Err(e) => Err(ReadErrorText + e.msg)
        case Ok(t) => if IsEmpty(t) then Err(NoDataText) else Ok((ext, DetectAndTransform(t, showNum)))
  }

  /** The refusals of an upload, in their order of precedence, each with its
      message: no file (or no file name), then an extension outside
      ValidExtensions, then empty content, then the reader's error, then a
      table without rows. An upload that passes them all yields its
      extension and the transformed table. */
  lemma ReadUploadRefusals(file: Option<Upload>, parsers: Parsers, showNum: real -> string)
    requires ParsersWellFormed(parsers)
    ensures ReadUpload(file, parsers, showNum) == Err(NoFileText) <==> file.None? || file.value.filename == []
    ensures file.Some? && file.value.filename != [] && Extension(file.value.filename) !in ValidExtensions ==>
      ReadUpload(file, parsers, showNum) == Err(InvalidTypeText + Join(ValidExtensions, ", "))
    ensures file.Some? && file.value.filename != [] && Extension(file.value.filename) in ValidExtensions
            && |file.value.content| == 0 ==>
      ReadUpload(file, parsers, showNum) == Err(EmptyFileText)
    ensures file.Some? && file.value.filename != [] && Extension(file.value.filename) in ValidExtensions
            && |file.value.content| > 0 ==>
      match ReadFileByExtension(file.value.content, file.value.filename, parsers)
      case Err(e) => ReadUpload(file, parsers, showNum) == Err(ReadErrorText + e.msg)
      case Ok(t) =>
        && (IsEmpty(t) ==> ReadUpload(file, parsers, showNum) == Err(NoDataText))
        && (!IsEmpty(t) ==> ReadUpload(file, parsers, showNum)
                              == Ok((Extension(file.value.filename), DetectAndTransform(t, showNum))))
  {
    if file.Some? && file.value.filename != [] {
      assert NoFileText[0] == 'N' && |NoFileText| == 53;
      var f := file.value;
      if Extension(f.filename) !in ValidExtensions {
        assert |InvalidTypeText| > |NoFileText|;
      } else if |f.content| == 0 {
        assert |EmptyFileText| != |NoFileText|;
      } else {
        match ReadFileByExtension(f.content, f.filename, parsers)
        case Err(e) =>
          assert (ReadErrorText + e.msg)[0] == 'E';
        case Ok(t) =>
          assert |NoDataText| != |NoFileText|;
      }
    }
  }

  /** The message of an exception caught by process_csv_upload. */
  function UploadFailureText(e: Failure): string {
    (if e.ValueError? then FileValidationText else FileProcessingText) + e.msg
  }

  /** The message of an exception caught by process_manual_input. */
  function ManualFailureText(e: Failure): string {
    (if e.ValueError? then ManualValidationText else ManualProcessingText) + e.msg
  }

  function UploadSuccessText(n: nat, ext: string): string {
    AnalyzedText + NatToString(n) + SamplesFromText + Upper(ext) + FileSuffixText
  }

  /** Classifying a table with the loaded assets, or the failure to load them. */
  function Analysis(t: Table, assets: Result<Assets, Failure>, format1: real -> string): Result<seq<RowResult>, Failure>
    requires WellFormed(t)
  {
    match assets
    case Err(e) => Err(e)
    case Ok(m) =>
      match Annotate(t, m.model, m.scaler, m.usedFeatures)
      case Err(e) => Err(e)
      case Ok(a) =>
        AnnotatedIsWell(t, m.model, m.scaler, m.usedFeatures);
        AllOk(UploadRows(a, format1))
  }

  /** process_csv_upload, given what loading the model yields. */
  function CsvUpload(file: Option<Upload>, parsers: Parsers, showNum: real -> string, format1: real -> string,
                     assets: Result<Assets, Failure>, hasSession: bool, registered: bool): Outcome
    requires ParsersWellFormed(parsers)
  {
    match ReadUpload(file, parsers, showNum)
    case Err(message) => Failed(message)
    case Ok((ext, t)) => UploadAnalysed(ext, t, format1, assets, hasSession, registered)
  }

  /** process_csv_upload once the file is read: the analysis, then the database checks. */
  function UploadAnalysed(ext: string, t: Table, format1: real -> string, assets: Result<Assets, Failure>,
                          hasSession: bool, registered: bool): Outcome
    requires WellFormed(t)
  {
    match Analysis(t, assets, format1)
    case Err(e) => Failed(UploadFailureText(e))
    case Ok(results) =>
      if !hasSession then Failed(NoSessionText)
      else if !registered then Failed(NoModelRecordText)
      else Outcome(true, UploadSuccessText(|results|, ext), results)
  }

  /** A value entered in the manual form: a float, or None for the NaN that
      float("nan") yields. */
  function ManualCell(v: Option<real>): (c: Cell)
    ensures c == Missing <==> v.None?
    ensures v.Some? ==> c == Num(v.value)
  {
    match v
    case Some(x) => Num(x)
    case None => Missing
  }

  /** The one-row table of manually entered values, labelled by ValueNames. */
  function ManualTable(values: seq<Option<real>>): (t: Table)
    requires |values| == |ValueNames|
    ensures WellFormed(t) && t.height == 1 && t.names == ValueNames
    ensures forall j :: 0 <= j < |values| ==> t.cols[j] == [ManualCell(values[j])]
  {
    Table(ValueNames, seq(|values|, j requires 0 <= j < |values| => [ManualCell(values[j])]), 1)
  }

  /** process_manual_input, given what loading the model yields. */
  function ManualInput(values: seq<Option<real>>, format1: real -> string, assets: Result<Assets, Failure>,
                       hasSession: bool, registered: bool): Outcome
    requires |values| == |ValueNames|
  {
    match Analysis(ManualTable(values), assets, format1)
    case Err(e) => Failed(ManualFailureText(e))
    case Ok(results) =>
      AnalysisRows(ManualTable(values), assets, format1);
      if !hasSession then Failed(NoSessionText)
      else if !registered then Failed(NoModelRecordText)
      else Outcome(true, ManualSuccessText, results[..1])
  }

  /** An upload succeeds exactly when the file is read, the model classifies
      every row, and a session and the model record are present; a failure
      carries no results, a success reports one result per kept row, at least
      one, and names their count and the file's extension. A refused read
      answers with its own message; a failed analysis answers "File
      validation error: " for a ValueError and "Error processing file: "
      otherwise; then the missing session and the missing model record are
      refused, in that order. */
  lemma CsvUploadOutcome(file: Option<Upload>, parsers: Parsers, showNum: real -> string, format1: real -> string,
                         assets: Result<Assets, Failure>, hasSession: bool, registered: bool)
    requires ParsersWellFormed(parsers)
    ensures var o := CsvUpload(file, parsers, showNum, format1, assets, hasSession, registered);
      && (o.success <==> ReadUpload(file, parsers, showNum).Ok?
                         && Analysis(ReadUpload(file, parsers, showNum).value.1, assets, format1).Ok?
                         && hasSession && registered)
      && (!o.success ==> o.results == [])
      && (o.success ==> |o.results| >= 1 && o.message == UploadSuccessText(|o.results|, ReadUpload(file, parsers, showNum).value.0))
    ensures ReadUpload(file, parsers, showNum).Err? ==>
      CsvUpload(file, parsers, showNum, format1, assets, hasSession, registered) == Failed(ReadUpload(file, parsers, showNum).error)
    ensures ReadUpload(file, parsers, showNum).Ok? ==>
      var t := ReadUpload(file, parsers, showNum).value.1;
      var o := CsvUpload(file, parsers, showNum, format1, assets, hasSession, registered);
      && (Analysis(t, assets, format1).Err? ==>
            var e := Analysis(t, assets, format1).error;
            o == Failed(if e.ValueError? then FileValidationText + e.msg else FileProcessingText + e.msg))
      && (Analysis(t, assets, format1).Ok? && !hasSession ==> o == Failed(NoSessionText))
      && (Analysis(t, assets, format1).Ok? && hasSession && !registered ==> o == Failed(NoModelRecordText))
  {
    match ReadUpload(file, parsers, showNum)
    case Err(_) =>
    case Ok((ext, t)) =>
      UploadAnalysedOutcome(ext, t, format1, assets, hasSession, registered);
  }

  lemma UploadAnalysedOutcome(ext: string, t: Table, format1: real -> string, assets: Result<Assets, Failure>,
                              hasSession: bool, registered: bool)
    requires WellFormed(t)
    ensures var o := UploadAnalysed(ext, t, format1, assets, hasSession, registered);
      && (o.success <==> Analysis(t, assets, format1).Ok? && hasSession && registered)
      && (!o.success ==> o.results == [])
      && (o.success ==> |o.results| >= 1 && o.message == UploadSuccessText(|o.results|, ext))
    ensures var o := UploadAnalysed(ext, t, format1, assets, hasSession, registered);
      && (Analysis(t, assets, format1).Err? ==>
            var e := Analysis(t, assets, format1).error;
            o == Failed(if e.ValueError? then FileValidationText + e.msg else FileProcessingText + e.msg))
      && (Analysis(t, assets, format1).Ok? && !hasSession ==> o == Failed(NoSessionText))
      && (Analysis(t, assets, format1).Ok? && hasSession && !registered ==> o == Failed(NoModelRecordText))
  {
    if Analysis(t, assets, format1).Ok? {
      AnalysisRows(t, assets, format1);
    }
  }

  /** A successful analysis has a result for each annotated row, at least one. */
  lemma AnalysisRows(t: Table, assets: Result<Assets, Failure>, format1: real -> string)
    requires WellFormed(t) && Analysis(t, assets, format1).Ok?
    ensures assets.Ok? && Annotate(t, assets.value.model, assets.value.scaler, assets.value.usedFeatures).Ok?
    ensures |Analysis(t, assets, format1).value|
            == Annotate(t, assets.value.model, assets.value.scaler, assets.value.usedFeatures).value.table.height >= 1
  {
    var m := assets.value;
    AnnotatedIsWell(t, m.model, m.scaler, m.usedFeatures);
  }

  /** Each result of a successful analysis describes its row as the classifier labels it. */
  lemma AnalysisResults(t: Table, assets: Result<Assets, Failure>, format1: real -> string)
    requires WellFormed(t) && Analysis(t, assets, format1).Ok?
    ensures assets.Ok? && Prepare(t, assets.value.usedFeatures).Ok?
    ensures var m := assets.value;
      var p := Prepare(t, m.usedFeatures).value;
      var rs := Analysis(t, assets, format1).value;
      forall k :: 0 <= k < |rs| ==>
        && FeatureRow(p, m.usedFeatures, k).Ok?
        && var z := m.scaler.transform(FeatureRow(p, m.usedFeatures, k).value);
        && rs[k].rowIndex == k && rs[k].code == m.model.predict(z)
        && rs[k].prediction == Text(DiagnosisText(rs[k].code))
        && rs[k].anemiaProbability == m.model.proba(z).1
        && (rs[k].report == NotAnemicText <==> rs[k].code == 0)
  {
    var m := assets.value;
    AnnotateCorrect(t, m.model, m.scaler, m.usedFeatures);
    AnnotatedIsWell(t, m.model, m.scaler, m.usedFeatures);
    var a := Annotate(t, m.model, m.scaler, m.usedFeatures).value;
    var rs := Analysis(t, assets, format1).value;
    forall k | 0 <= k < |rs|
      ensures && FeatureRow(Prepare(t, m.usedFeatures).value, m.usedFeatures, k).Ok?
              && var z := m.scaler.transform(FeatureRow(Prepare(t, m.usedFeatures).value, m.usedFeatures, k).value);
              && rs[k].rowIndex == k && rs[k].code == m.model.predict(z)
              && rs[k].prediction == Text(DiagnosisText(rs[k].code))
              && rs[k].anemiaProbability == m.model.proba(z).1
              && (rs[k].report == NotAnemicText <==> rs[k].code == 0)
    {
      UploadRowFacts(Prepare(t, m.usedFeatures).value, a, m.model, m.scaler, m.usedFeatures, format1, k, rs[k]);
    }
  }

  /** Manual input succeeds exactly when the values are classified and a
      session and the model record are present, with exactly one result,
      for row 0. A failed analysis answers "Validation error: " for a
      ValueError and "Error during CBC analysis: " otherwise; then the missing
      session and the missing model record are refused, in that order. */
  lemma ManualInputOutcome(values: seq<Option<real>>, format1: real -> string, assets: Result<Assets, Failure>,
                           hasSession: bool, registered: bool)
    requires |values| == |ValueNames|
    ensures var o := ManualInput(values, format1, assets, hasSession, registered);
      && (o.success <==> Analysis(ManualTable(values), assets, format1).Ok? && hasSession && registered)
      && (!o.success ==> o.results == [])
      && (o.success ==> o.message == ManualSuccessText && |o.results| == 1 && o.results[0].rowIndex == 0)
    ensures var o := ManualInput(values, format1, assets, hasSession, registered);
      var t := ManualTable(values);
      && (Analysis(t, assets, format1).Err? ==>
            var e := Analysis(t, assets, format1).error;
            o == Failed(if e.ValueError? then ManualValidationText + e.msg else ManualProcessingText + e.msg))
      && (Analysis(t, assets, format1).Ok? && !hasSession ==> o == Failed(NoSessionText))
      && (Analysis(t, assets, format1).Ok? && hasSession && !registered ==> o == Failed(NoModelRecordText))
  {
    var t := ManualTable(values);
    if Analysis(t, assets, format1).Ok? {
      AnalysisRows(t, assets, format1);
      AnalysisResults(t, assets, format1);
    }
  }

  /** The eight labels of the manual form are pairwise distinct. */
  lemma ValueNamesDistinct()
    ensures forall i, j :: 0 <= i < j < |ValueNames| ==> ValueNames[i] != ValueNames[j]
  {
  }

  /** Each label of the manual form is a canonical name, so renaming keeps it. */
  lemma ManualLabelsKept(names: seq<string>)
    requires names == ValueNames
    ensures RenameLabels(names, RenameMap(names)) == names
  {
    var m := RenameMap(names);
    forall j | 0 <= j < |names|
      ensures (if names[j] in m then m[names[j]] else names[j]) == names[j]
    {
      ManualLabelKept(names, j);
    }
  }

  /** The j-th form label is the canonical name of its entry in Aliases. */
  lemma ManualLabelKept(names: seq<string>, j: nat)
    requires names == ValueNames && j < |names|
    ensures names[j] in RenameMap(names) ==> RenameMap(names)[names[j]] == names[j]
  {
    if j == 0 {
      assert names[j] == "RBC" == Aliases[2].0;
      UpperCanonicalName(2, "RBC", "rbc");
      RenameKeepsCanonical(names, 2, 0);
    } else if j == 1 {
      assert names[j] == "HGB" == Aliases[3].0;
      UpperCanonicalName(3, "HGB", "hgb");
      RenameKeepsCanonical(names, 3, 0);
    } else if j == 2 {
      assert names[j] == "PCV" == Aliases[1].0;
      UpperCanonicalName(1, "PCV", "pcv");
      RenameKeepsCanonical(names, 1, 0);
    } else if j == 3 {
      assert names[j] == "MCV" == Aliases[4].0;
      UpperCanonicalName(4, "MCV", "mcv");
      RenameKeepsCanonical(names, 4, 0);
    } else if j == 4 {
      assert names[j] == "MCH" == Aliases[5].0;
      UpperCanonicalName(5, "MCH", "mch");
      RenameKeepsCanonical(names, 5, 0);
    } else if j == 5 {
      assert names[j] == "MCHC" == Aliases[6].0;
      UpperCanonicalName(6, "MCHC", "mchc");
      RenameKeepsCanonical(names, 6, 0);
    } else if j == 6 {
      assert names[j] == "TLC" == Aliases[0].0;
      UpperCanonicalName(0, "TLC", "tlc");
      RenameKeepsCanonical(names, 0, 0);
    } else {
      assert names[j] == "PLT" == Aliases[7].0;
      UpperCanonicalName(7, "PLT", "plt");
      RenameKeepsCanonical(names, 7, 0);
    }
  }

  /** Preparation leaves the manual table as it is: its labels are canonical,
      it has no Sex column, and its cells are already numbers or missing. */
  lemma ManualTableNormalized(values: seq<Option<real>>)
    requires |values| == |ValueNames|
    ensures Normalized(ManualTable(values)) == ManualTable(values)
  {
    var t := ManualTable(values);
    ManualLabelsKept(t.names);
    NoSexField(t.names);
    NormalizedUnchanged(t);
  }

  /** None of the form's labels is 'Sex'. */
  lemma NoSexField(names: seq<string>)
    requires names == ValueNames
    ensures SexLabel !in names
  {
  }

  /** The manual table's cell under each of its labels is the entered value. */
  lemma ManualCellAt(values: seq<Option<real>>, j: nat)
    requires |values| == |ValueNames| && j < |ValueNames|
    ensures CellAt(ManualTable(values), ValueNames[j], 0) == ManualCell(values[j])
  {
    ValueNamesDistinct();
  }

  /** Once the model is loaded, manual input is refused with "Validation error: "
      and the missing-column message when a used feature is not one of the
      eight form fields, and with the no-valid-rows message when every used
      feature is a form field and one of them was entered as NaN. */
  lemma ManualInputRefusals(values: seq<Option<real>>, format1: real -> string, assets: Result<Assets, Failure>,
                            hasSession: bool, registered: bool)
    requires |values| == |ValueNames|
    ensures assets.Ok? && (exists f :: f in assets.value.usedFeatures && f !in ValueNames) ==>
      ManualInput(values, format1, assets, hasSession, registered)
        == Failed(ManualValidationText + MissingColumnsText + PyStrList(MissingFeatures(assets.value.usedFeatures, ValueNames)))
    ensures assets.Ok? && (forall f :: f in assets.value.usedFeatures ==> f in ValueNames)
            && (exists j :: 0 <= j < |ValueNames| && ValueNames[j] in assets.value.usedFeatures && values[j].None?) ==>
      ManualInput(values, format1, assets, hasSession, registered) == Failed(ManualValidationText + NoValidRowsText)
  {
    if assets.Ok? {
      ManualRefusedMissing(values, format1, assets.value, hasSession, registered);
      ManualRefusedNaN(values, format1, assets.value, hasSession, registered);
    }
  }

  /** A used feature that is not a form field is named in a validation error. */
  lemma ManualRefusedMissing(values: seq<Option<real>>, format1: real -> string, m: Assets,
                             hasSession: bool, registered: bool)
    requires |values| == |ValueNames|
    ensures (exists f :: f in m.usedFeatures && f !in ValueNames) ==>
      ManualInput(values, format1, Ok(m), hasSession, registered)
        == Failed(ManualValidationText + MissingColumnsText + PyStrList(MissingFeatures(m.usedFeatures, ValueNames)))
  {
    if exists f :: f in m.usedFeatures && f !in ValueNames {
      var msg := MissingColumnsText + PyStrList(MissingFeatures(m.usedFeatures, ValueNames));
      assert Prepare(ManualTable(values), m.usedFeatures) == Err(ValueError(msg)) by {
        ManualPrepareMissing(values, m.usedFeatures);
      }
      ManualPrepareRefused(values, format1, m, hasSession, registered, msg);
    }
  }

  /** A used form field entered as NaN leaves no valid row. */
  lemma ManualRefusedNaN(values: seq<Option<real>>, format1: real -> string, m: Assets,
                         hasSession: bool, registered: bool)
    requires |values| == |ValueNames|
    ensures (forall f :: f in m.usedFeatures ==> f in ValueNames)
            && (exists j :: 0 <= j < |ValueNames| && ValueNames[j] in m.usedFeatures && values[j].None?) ==>
      ManualInput(values, format1, Ok(m), hasSession, registered) == Failed(ManualValidationText + NoValidRowsText)
  {
    if (forall f :: f in m.usedFeatures ==> f in ValueNames)
       && (exists j :: 0 <= j < |ValueNames| && ValueNames[j] in m.usedFeatures && values[j].None?)
    {
      ManualPrepareNaN(values, m.usedFeatures);
      ManualPrepareRefused(values, format1, m, hasSession, registered, NoValidRowsText);
    }
  }

  /** A ValueError from preparation is reported as a validation error. */
  lemma ManualPrepareRefused(values: seq<Option<real>>, format1: real -> string, m: Assets,
                             hasSession: bool, registered: bool, msg: string)
    requires |values| == |ValueNames| && Prepare(ManualTable(values), m.usedFeatures) == Err(ValueError(msg))
    ensures ManualInput(values, format1, Ok(m), hasSession, registered) == Failed(ManualValidationText + msg)
  {
    AnnotateCorrect(ManualTable(values), m.model, m.scaler, m.usedFeatures);
  }

  /** Preparing the manual table names the used features that are not form fields. */
  lemma ManualPrepareMissing(values: seq<Option<real>>, used: seq<string>)
    requires |values| == |ValueNames| && exists f :: f in used && f !in ValueNames
    ensures Prepare(ManualTable(values), used)
      == Err(ValueError(MissingColumnsText + PyStrList(MissingFeatures(used, ValueNames))))
  {
    ManualTableNormalized(values);
    CheckAndDropCorrect(ManualTable(values), used);
  }

  /** Preparing the manual table refuses it when a used feature was entered as NaN. */
  lemma ManualPrepareNaN(values: seq<Option<real>>, used: seq<string>)
    requires |values| == |ValueNames| && forall f :: f in used ==> f in ValueNames
    requires exists j :: 0 <= j < |ValueNames| && ValueNames[j] in used && values[j].None?
    ensures Prepare(ManualTable(values), used) == Err(ValueError(NoValidRowsText))
  {
    var t := ManualTable(values);
    ManualTableNormalized(values);
    CheckAndDropCorrect(t, used);
    var j :| 0 <= j < |ValueNames| && ValueNames[j] in used && values[j].None?;
    ManualCellAt(values, j);
    assert !RowComplete(t, used, 0);
    assert KeptRowsBelow(t, used, 1) == [];
  }

  /** Once the model is loaded, manual input whose used features are all form
      fields, each entered as a number, is classified; it then succeeds exactly
      when a session and the model record are present. */
  lemma ManualInputAccepted(values: seq<Option<real>>, format1: real -> string, assets: Result<Assets, Failure>,
                            hasSession: bool, registered: bool)
    requires |values| == |ValueNames|
    ensures assets.Ok? && (forall f :: f in assets.value.usedFeatures ==> f in ValueNames)
            && (forall j :: 0 <= j < |ValueNames| && ValueNames[j] in assets.value.usedFeatures ==> values[j].Some?) ==>
      && Analysis(ManualTable(values), assets, format1).Ok?
      && (ManualInput(values, format1, assets, hasSession, registered).success <==> hasSession && registered)
  {
    if assets.Ok? && (forall f :: f in assets.value.usedFeatures ==> f in ValueNames)
       && (forall j :: 0 <= j < |ValueNames| && ValueNames[j] in assets.value.usedFeatures ==> values[j].Some?)
    {
      ManualAnalysed(values, format1, assets.value);
      ManualInputOutcome(values, format1, assets, hasSession, registered);
    }
  }

  /** The analysis of complete manual input with loaded assets succeeds. */
  lemma ManualAnalysed(values: seq<Option<real>>, format1: real -> string, m: Assets)
    requires |values| == |ValueNames| && (forall f :: f in m.usedFeatures ==> f in ValueNames)
    requires forall j :: 0 <= j < |ValueNames| && ValueNames[j] in m.usedFeatures ==> values[j].Some?
    ensures Analysis(ManualTable(values), Ok(m), format1).Ok?
  {
    var t := ManualTable(values);
    ManualPrepared(values, m.usedFeatures);
    ManualFeaturesRead(values, m.usedFeatures);
    ManualAnnotated(t, m.model, m.scaler, m.usedFeatures);
    var a := Annotate(t, m.model, m.scaler, m.usedFeatures).value;
    ManualColumnsKept(values, a, m.model, m.scaler, m.usedFeatures);
    ManualResultsRead(values, a, format1);
  }

  /** Preparation keeps the manual row when each used feature is a form field entered as a number. */
  lemma ManualPrepared(values: seq<Option<real>>, used: seq<string>)
    requires |values| == |ValueNames| && (forall f :: f in used ==> f in ValueNames)
    requires forall j :: 0 <= j < |ValueNames| && ValueNames[j] in used ==> values[j].Some?
    ensures Prepare(ManualTable(values), used) == Ok(ManualTable(values))
  {
    var t := ManualTable(values);
    ManualTableNormalized(values);
    ManualRowComplete(values, used);
    assert KeptRowsBelow(t, used, 1) == [0];
    NoMissingFeatures(used, t.names);
    SelectOnlyRow(t);
    assert CheckAndDrop(t, used) == Ok(SelectRows(t, [0]));
  }

  /** Selecting row 0 of a one-row table gives the table back. */
  lemma SelectOnlyRow(t: Table)
    requires WellFormed(t) && t.height == 1
    ensures SelectRows(t, [0]) == t
  {
    var r := SelectRows(t, [0]);
    forall j | 0 <= j < |t.cols| ensures r.cols[j] == t.cols[j] {
      assert r.cols[j][0] == t.cols[j][0];
    }
  }

  /** The scaler reads the manual row when each used feature is a form field entered as a number. */
  lemma ManualFeaturesRead(values: seq<Option<real>>, used: seq<string>)
    requires |values| == |ValueNames| && (forall f :: f in used ==> f in ValueNames)
    requires forall j :: 0 <= j < |ValueNames| && ValueNames[j] in used ==> values[j].Some?
    ensures FeatureRow(ManualTable(values), used, 0).Ok?
  {
    var t := ManualTable(values);
    forall f | f in used ensures CellAt(t, f, 0).Num? {
      var j :| 0 <= j < |ValueNames| && ValueNames[j] == f;
      ManualCellAt(values, j);
    }
    NumericFeaturesRead(t, used);
  }

  /** Annotation succeeds on a table that preparation keeps and whose one row the scaler reads. */
  lemma ManualAnnotated(t: Table, model: Classifier, scaler: Scaler, used: seq<string>)
    requires WellFormed(t) && t.height == 1 && Prepare(t, used) == Ok(t) && FeatureRow(t, used, 0).Ok?
    ensures Annotate(t, model, scaler, used).Ok?
    ensures AnnotatedFrom(t, Annotate(t, model, scaler, used).value, model, scaler, used)
    ensures WellAnnotated(Annotate(t, model, scaler, used).value)
  {
    forall k | 0 <= k < t.height ensures FeatureRow(t, used, k).Ok? {
      assert k == 0;
    }
    AnnotateSucceeds(t, model, scaler, used);
    AnnotatedIsWell(t, model, scaler, used);
  }

  /** An annotation that keeps the manual table's columns in front echoes its eight values without error. */
  lemma ManualResultsRead(values: seq<Option<real>>, a: Annotated, format1: real -> string)
    requires |values| == |ValueNames| && WellAnnotated(a) && a.table.height == 1 && ValueNames <= a.table.names
    requires forall j :: 0 <= j < |ValueNames| ==> a.table.cols[j] == ManualTable(values).cols[j]
    ensures AllOk(UploadRows(a, format1)).Ok?
  {
    ManualRowNoText(values, a.table);
    ValuesOfNoText(RowAt(a.table, 0));
    assert UploadRows(a, format1)[0].Ok?;
  }

  /** Annotating the manual table keeps its eight columns in front. */
  lemma ManualColumnsKept(values: seq<Option<real>>, a: Annotated, model: Classifier, scaler: Scaler, used: seq<string>)
    requires |values| == |ValueNames| && AnnotatedFrom(ManualTable(values), a, model, scaler, used)
    ensures WellFormed(a.table) && a.table.height == 1 && ValueNames <= a.table.names
    ensures forall j :: 0 <= j < |ValueNames| ==> a.table.cols[j] == ManualTable(values).cols[j]
  {
    var t := ManualTable(values);
    forall j | 0 <= j < |ValueNames| ensures a.table.cols[j] == t.cols[j] {
      assert t.names[j] != PredictedColumn && t.names[j] != DiagnosisLabel;
    }
  }

  /** A table that starts with the manual table's columns holds no text under the eight labels in row 0. */
  lemma ManualRowNoText(values: seq<Option<real>>, a: Table)
    requires |values| == |ValueNames| && WellFormed(a) && a.height == 1 && ValueNames <= a.names
    requires forall j :: 0 <= j < |ValueNames| ==> a.cols[j] == ManualTable(values).cols[j]
    ensures var row := RowAt(a, 0);
      forall k :: 0 <= k < |ValueNames| && Get(row, ValueNames[k]).Some? ==> !Get(row, ValueNames[k]).value.Text?
  {
    var row := RowAt(a, 0);
    ValueNamesDistinct();
    forall k | 0 <= k < |ValueNames| && Get(row, ValueNames[k]).Some?
      ensures !Get(row, ValueNames[k]).value.Text?
    {
      ColumnIndexOfPrefix(a.names, ValueNames, k);
      assert Get(row, ValueNames[k]) == Some(ManualCell(values[k]));
    }
  }

  /** The one manual row has a value in every used feature when each is a form
      field entered as a number. */
  lemma ManualRowComplete(values: seq<Option<real>>, used: seq<string>)
    requires |values| == |ValueNames| && (forall f :: f in used ==> f in ValueNames)
    requires forall j :: 0 <= j < |ValueNames| && ValueNames[j] in used ==> values[j].Some?
    ensures RowComplete(ManualTable(values), used, 0)
  {
    forall f | f in used ensures CellAt(ManualTable(values), f, 0) != Missing {
      var j :| 0 <= j < |ValueNames| && ValueNames[j] == f;
      ManualCellAt(values, j);
    }
  }

  /** A row whose used features are all numbers is read by the scaler. */
  lemma NumericFeaturesRead(p: Table, used: seq<string>)
    requires WellFormed(p) && 0 < p.height
    requires forall f :: f in used ==> CellAt(p, f, 0).Num?
    ensures FeatureRow(p, used, 0).Ok?
  {
  }

  /** A row holding no text under the eight labels echoes its values without error. */
  lemma ValuesOfNoText(row: Row)
    requires |row.cells| == |row.names|
    requires forall k :: 0 <= k < |ValueNames| && Get(row, ValueNames[k]).Some? ==> !Get(row, ValueNames[k]).value.Text?
    ensures ValuesOf(row).Ok?
  {
  }

  /** Labels that are pairwise distinct and start a row of labels are each found at their own place. */
  lemma ColumnIndexOfPrefix(names: seq<string>, labels: seq<string>, j: nat)
    requires labels <= names && j < |labels|
    requires forall i, k :: 0 <= i < k < |labels| ==> labels[i] != labels[k]
    ensures ColumnIndex(names, labels[j]) == Some(j)
  {
  }

  /** The checks of process_csv_upload before the model is involved. */
  method ReadUploadedFile(file: Option<Upload>, parsers: Parsers, showNum: real -> string)
    returns (r: Result<(string, Table), string>)
    requires ParsersWellFormed(parsers)
    ensures r == ReadUpload(file, parsers, showNum)
  {
    if file.None? || file.value.filename == [] {
      return Err(NoFileText);
    }
    var ext := Extension(file.value.filename);
    if ext !in ValidExtensions {
      return Err(InvalidTypeText + Join(ValidExtensions, ", "));
    }
    if |file.value.content| == 0 {
      return Err(EmptyFileText);
    }
    var table := ReadFileByExtension(file.value.content, file.value.filename, parsers);
    if table.Err? {
      return Err(ReadErrorText + table.error.msg);
    }
    if IsEmpty(table.value) {
      return Err(NoDataText);
    }
    return Ok((ext, DetectAndTransform(table.value, showNum)));
  }

  // ---------------------------------------------------------------- service

  class CbcPredictionService {
    var model: Option<Classifier>
    var scaler: Option<Scaler>
    var usedFeatures: Option<seq<string>>
    var loaded: bool
    /** Whether the prediction modules could be imported. */
    const available: bool

    /** The three assets are set together, and only when loading is possible. */
    predicate Valid()
      reads this
    {
      && (loaded ==> available)
      && (loaded <==> model.Some? && scaler.Some? && usedFeatures.Some?)
    }

    constructor(available: bool)
      ensures Valid() && !loaded && this.available == available
      ensures model.None? && scaler.None? && usedFeatures.None?
    {
      model := None;
      scaler := None;
      usedFeatures := None;
      loaded := false;
      this.available := available;
    }

    /** is_available */
    function IsAvailable(): (r: bool)
      reads this
      ensures r <==> available
    {
      available
    }

    function CurrentAssets(): Assets
      reads this
      requires Valid() && loaded
    {
      Assets(model.value, scaler.value, usedFeatures.value)
    }

    /** What load_model yields from the current state: the RuntimeError when
        the modules are unavailable, the assets already held, or the result
        of loading them from the store. */
    function AfterLoad(store: AssetStore): (r: Result<Assets, Failure>)
      reads this
      requires Valid()
      ensures !available ==> r == Err(RuntimeError(UnavailableText))
      ensures loaded ==> r == Ok(CurrentAssets())
      ensures available && !loaded ==> r == LoadModelAndAssets(store)
    {
      if !available then Err(RuntimeError(UnavailableText))
      else if loaded then Ok(CurrentAssets())
      else LoadModelAndAssets(store)
    }

    /** load_model: refuses when unavailable; loads the assets once and keeps them. */
    method LoadModel(store: AssetStore) returns (failure: Option<Failure>)
      requires Valid()
      modifies this
      ensures Valid()
      ensures failure.Some? <==> old(AfterLoad(store)).Err?
      ensures failure.Some? ==> failure.value == old(AfterLoad(store)).error && unchanged(this)
      ensures failure.None? ==> loaded && CurrentAssets() == old(AfterLoad(store)).value
      ensures old(loaded) ==> unchanged(this)
    {
      if !available {
        return Some(RuntimeError(UnavailableText));
      }
      if !loaded {
        var assets := LoadModelAndAssets(store);
        if assets.Err? {
          return Some(assets.error);
        }
        model, scaler, usedFeatures := Some(assets.value.model), Some(assets.value.scaler), Some(assets.value.usedFeatures);
        loaded := true;
      }
      return None;
    }

    /** The callers' "load the model unless it is loaded". */
    method EnsureLoaded(store: AssetStore) returns (r: Result<Assets, Failure>)
      requires Valid()
      modifies this
      ensures Valid()
      ensures r == old(AfterLoad(store))
      ensures r.Err? ==> unchanged(this)
      ensures r.Ok? ==> loaded && CurrentAssets() == r.value
      ensures old(loaded) ==> unchanged(this)
    {
      if !loaded {
        var failure := LoadModel(store);
        if failure.Some? {
          return Err(failure.value);
        }
      }
      return Ok(CurrentAssets());
    }

    /** predict_batch on the table built from the given rows. */
    method PredictBatch(t: Table, withReport: bool, format1: real -> string, store: AssetStore)
      returns (r: Result<seq<BatchResult>, Failure>)
      requires Valid() && WellFormed(t)
      modifies this
      ensures Valid()
      ensures old(AfterLoad(store)).Err? ==> r == Err(old(AfterLoad(store)).error) && unchanged(this)
      ensures old(AfterLoad(store)).Ok? ==>
        loaded && CurrentAssets() == old(AfterLoad(store)).value
        && r == Batch(t, old(AfterLoad(store)).value, withReport, format1)
    {
      var assets := EnsureLoaded(store);
      if assets.Err? {
        return Err(assets.error);
      }
      var used := assets.value.usedFeatures;
      var prepared := PrepareForInference(t, used);
      if prepared.Err? {
        return Err(prepared.error);
      }
      var p := prepared.value;
      PreparedNonEmpty(t, used);
      var x := FeatureMatrix(p, used, p.height);
      if x.Err? {
        return Err(x.error);
      }
      var codes := Labels(assets.value.model, assets.value.scaler, x.value);
      var probs := Probabilities(assets.value.model, assets.value.scaler, x.value);
      r := CollectBatchRows(p, codes, probs, withReport, format1);
    }

    /** process_csv_upload up to the database write. */
    method ProcessCsvUpload(file: Option<Upload>, parsers: Parsers, showNum: real -> string, format1: real -> string,
                            store: AssetStore, hasSession: bool, registered: bool) returns (outcome: Outcome)
      requires Valid() && ParsersWellFormed(parsers)
      modifies this
      ensures Valid()
      ensures outcome == CsvUpload(file, parsers, showNum, format1, old(AfterLoad(store)), hasSession, registered)
      ensures ReadUpload(file, parsers, showNum).Err? || old(AfterLoad(store)).Err? ==> unchanged(this)
      ensures ReadUpload(file, parsers, showNum).Ok? && old(AfterLoad(store)).Ok? ==>
        loaded && CurrentAssets() == old(AfterLoad(store)).value
    {
      var read := ReadUploadedFile(file, parsers, showNum);
      if read.Err? {
        return Failed(read.error);
      }
      var (ext, t) := read.value;
      var results := Analyse(t, format1, store);
      if results.Err? {
        return Failed(UploadFailureText(results.error));
      }
      if !hasSession {
        return Failed(NoSessionText);
      }
      if !registered {
        return Failed(NoModelRecordText);
      }
      return Outcome(true, UploadSuccessText(|results.value|, ext), results.value);
    }

    /** process_manual_input up to the database write; None stands for a NaN argument. */
    method ProcessManualInput(rbc: Option<real>, hgb: Option<real>, pcv: Option<real>, mcv: Option<real>,
                              mch: Option<real>, mchc: Option<real>, tlc: Option<real>, plt: Option<real>,
                              format1: real -> string, store: AssetStore, hasSession: bool, registered: bool)
      returns (outcome: Outcome)
      requires Valid()
      modifies this
      ensures Valid()
      ensures outcome == ManualInput([rbc, hgb, pcv, mcv, mch, mchc, tlc, plt], format1, old(AfterLoad(store)),
                                     hasSession, registered)
      ensures old(AfterLoad(store)).Err? ==> unchanged(this)
      ensures old(AfterLoad(store)).Ok? ==> loaded && CurrentAssets() == old(AfterLoad(store)).value
    {
      var t := ManualTable([rbc, hgb, pcv, mcv, mch, mchc, tlc, plt]);
      var results := Analyse(t, format1, store);
      if results.Err? {
        return Failed(ManualFailureText(results.error));
      }
      AnalysisRows(t, old(AfterLoad(store)), format1);
      if !hasSession {
        return Failed(NoSessionText);
      }
      if !registered {
        return Failed(NoModelRecordText);
      }
      return Outcome(true, ManualSuccessText, results.value[..1]);
    }

    /** Load the model unless loaded, annotate the table, and shape one result per row. */
    method Analyse(t: Table, format1: real -> string, store: AssetStore) returns (r: Result<seq<RowResult>, Failure>)
      requires Valid() && WellFormed(t)
      modifies this
      ensures Valid()
      ensures r == Analysis(t, old(AfterLoad(store)), format1)
      ensures old(AfterLoad(store)).Err? ==> unchanged(this)
      ensures old(AfterLoad(store)).Ok? ==> loaded && CurrentAssets() == old(AfterLoad(store)).value
    {
      var assets := EnsureLoaded(store);
      if assets.Err? {
        return Err(assets.error);
      }
      var annotated := PredictAndAnnotate(t, assets.value.model, assets.value.scaler, assets.value.usedFeatures);
      if annotated.Err? {
        return Err(annotated.error);
      }
      AnnotatedIsWell(t, assets.value.model, assets.value.scaler, assets.value.usedFeatures);
      r := CollectUploadRows(annotated.value, format1);
    }
  }
}
