/**
 * Loading the model assets and annotating a table with the classifier's
 * predictions (app/ai/cbc/predict.py). The classifier and the scaler are
 * opaque functions: only what they are given and how their outputs are
 * placed in the table are modelled.
 */
module CbcAnnotate {
  import opened Wrappers
  import opened Text
  import opened Tables
  import opened CbcPrepare

  /** The fitted scaler, applied to one row of feature values. */
  datatype Scaler = Scaler(transform: seq<real> -> seq<real>)

  /** The binary classifier on one scaled row: its label and the
      (normal, anemia) class probabilities. */
  datatype Classifier = Classifier(predict: seq<real> -> int, proba: seq<real> -> (real, real))

  /** What load_model_and_assets returns. */
  datatype Assets = Assets(model: Classifier, scaler: Scaler, usedFeatures: seq<string>)

  /** The directory holding the asset files: which paths exist, and what
      reading the three files yields. */
  datatype AssetStore = AssetStore(dir: string, present: string -> bool, contents: Assets)

  function ModelPath(dir: string): string { dir + "/tabnet_anemia_model.zip" }
  function ScalerPath(dir: string): string { dir + "/scaler.pkl" }
  function FeaturesPath(dir: string): string { dir + "/used_features.json" }

  /** load_model_and_assets: the model, scaler and features files are checked
      for existence in that order, the first absent one raising
      FileNotFoundError; with all three present the assets are loaded. */
  function LoadModelAndAssets(store: AssetStore): (r: Result<Assets, Failure>)
    ensures r.Ok? <==> store.present(ModelPath(store.dir)) && store.present(ScalerPath(store.dir))
                       && store.present(FeaturesPath(store.dir))
    ensures r.Ok? ==> r.value == store.contents
    ensures !store.present(ModelPath(store.dir)) ==>
      r == Err(FileNotFound("Model file not found: " + ModelPath(store.dir)))
    ensures store.present(ModelPath(store.dir)) && !store.present(ScalerPath(store.dir)) ==>
      r == Err(FileNotFound("Scaler file not found: " + ScalerPath(store.dir)))
    ensures store.present(ModelPath(store.dir)) && store.present(ScalerPath(store.dir))
            && !store.present(FeaturesPath(store.dir)) ==>
      r == Err(FileNotFound("Features file not found: " + FeaturesPath(store.dir)))
  {
    if !store.present(ModelPath(store.dir)) then Err(FileNotFound("Model file not found: " + ModelPath(store.dir)))
    else if !store.present(ScalerPath(store.dir)) then Err(FileNotFound("Scaler file not found: " + ScalerPath(store.dir)))
    else if !store.present(FeaturesPath(store.dir)) then Err(FileNotFound("Features file not found: " + FeaturesPath(store.dir)))
    else Ok(store.contents)
  }

  const NotFloatText := "could not convert string to float: "

  /** A feature cell as the scaler reads it: a number as is, text parsed as a
      float or rejected with ValueError. A missing cell never reaches the
      scaler (see PreparedRowsComplete). */
  function FeatureValue(c: Cell): (r: Result<real, Failure>)
    ensures c.Num? ==> r == Ok(c.x)
    ensures r.Err? ==> r.error.ValueError?
  {
    match c
    case Num(x) => Ok(x)
    case Text(s) =>
      (match ParseDecimal(Strip(s))
       case Some(v) => Ok(v)
       case None => Err(ValueError(NotFloatText + "'" + s + "'")))
    case Missing => Err(ValueError("Input contains NaN"))
  }

  /** df[used_features].values for row i: the cells in `used` order. */
  function FeatureRow(t: Table, used: seq<string>, i: nat): (r: Result<seq<real>, Failure>)
    requires WellFormed(t) && i < t.height
    ensures r.Ok? ==> |r.value| == |used|
    ensures r.Ok? ==> forall j :: 0 <= j < |used| ==> FeatureValue(CellAt(t, used[j], i)) == Ok(r.value[j])
    ensures r.Err? ==> exists j :: 0 <= j < |used| && FeatureValue(CellAt(t, used[j], i)) == Err(r.error)
  {
    MapAll(name => FeatureValue(CellAt(t, name, i)), used)
  }

  /** The feature vectors of the first n rows, in row order. */
  function FeatureRows(t: Table, used: seq<string>, n: nat): (rs: seq<Result<seq<real>, Failure>>)
    requires WellFormed(t) && n <= t.height
    ensures |rs| == n && forall k :: 0 <= k < n ==> rs[k] == FeatureRow(t, used, k)
  {
    seq(n, k requires 0 <= k < n => FeatureRow(t, used, k))
  }

  /** The feature matrix of the first n rows; the first failing row, in row
      order, decides the error. */
  function FeatureMatrix(t: Table, used: seq<string>, n: nat): (r: Result<seq<seq<real>>, Failure>)
    requires WellFormed(t) && n <= t.height
    ensures r.Ok? ==> |r.value| == n && forall k :: 0 <= k < n ==> FeatureRow(t, used, k) == Ok(r.value[k])
    ensures r.Err? ==> exists k :: 0 <= k < n && FeatureRow(t, used, k) == Err(r.error)
                                && forall j :: 0 <= j < k ==> FeatureRow(t, used, j).Ok?
    ensures (forall k :: 0 <= k < n ==> FeatureRow(t, used, k).Ok?) ==> r.Ok?
  {
    AllOk(FeatureRows(t, used, n))
  }

  /** The label column the classifier yields for the scaled rows. */
  function Labels(model: Classifier, scaler: Scaler, x: seq<seq<real>>): (r: seq<int>)
    ensures |r| == |x|
  {
    seq(|x|, k requires 0 <= k < |x| => model.predict(scaler.transform(x[k])))
  }

  function Probabilities(model: Classifier, scaler: Scaler, x: seq<seq<real>>): (r: seq<(real, real)>)
    ensures |r| == |x|
  {
    seq(|x|, k requires 0 <= k < |x| => model.proba(scaler.transform(x[k])))
  }

  /** 'Anemia' for label 1, 'Normal' for any other label. */
  function DiagnosisText(code: int): string {
    if code == 1 then "Anemia" else "Normal"
  }

  function LabelColumn(labels: seq<int>): (r: seq<Cell>)
    ensures |r| == |labels|
  {
    seq(|labels|, k requires 0 <= k < |labels| => Num(labels[k] as real))
  }

  function DiagnosisColumn(labels: seq<int>): (r: seq<Cell>)
    ensures |r| == |labels|
  {
    seq(|labels|, k requires 0 <= k < |labels| => Text(DiagnosisText(labels[k])))
  }

  /** The annotated table and the class probabilities of each row. */
  datatype Annotated = Annotated(table: Table, probabilities: seq<(real, real)>)

  const PredictedColumn := "Predicted_Anemia"

  /** predict_and_annotate_dataframe, as a value. */
  function Annotate(raw: Table, model: Classifier, scaler: Scaler, used: seq<string>): Result<Annotated, Failure>
    requires WellFormed(raw)
  {
    match Prepare(raw, used)
    case Err(e) => Err(e)
    case Ok(p) =>
      match FeatureMatrix(p, used, p.height)
      case Err(e) => Err(e)
      case Ok(x) =>
        var labels := Labels(model, scaler, x);
        var t := SetColumn(p, PredictedColumn, LabelColumn(labels));
        Ok(Annotated(SetColumn(t, DiagnosisLabel, DiagnosisColumn(labels)), Probabilities(model, scaler, x)))
  }

  /** predict_and_annotate_dataframe: prepare, take the used features, scale,
      classify, and add the two prediction columns to a copy of the prepared table. */
  method PredictAndAnnotate(raw: Table, model: Classifier, scaler: Scaler, used: seq<string>)
    returns (r: Result<Annotated, Failure>)
    requires WellFormed(raw)
    ensures r == Annotate(raw, model, scaler, used)
  {
    var prepared := PrepareForInference(raw, used);
    if prepared.Err? {
      return Err(prepared.error);
    }
    var p := prepared.value;
    var x := FeatureMatrix(p, used, p.height);
    if x.Err? {
      return Err(x.error);
    }
    var labels := Labels(model, scaler, x.value);
    var probabilities := Probabilities(model, scaler, x.value);
    var output := p;
    output := SetColumn(output, PredictedColumn, LabelColumn(labels));
    output := SetColumn(output, DiagnosisLabel, DiagnosisColumn(labels));
    return Ok(Annotated(output, probabilities));
  }

  /** Every prepared row has a value in every used feature. */
  lemma PreparedRowsComplete(raw: Table, used: seq<string>)
    requires WellFormed(raw) && Prepare(raw, used).Ok?
    ensures var p := Prepare(raw, used).value;
      forall k :: 0 <= k < p.height ==> RowComplete(p, used, k)
  {
    var t := Normalized(raw);
    CheckAndDropCorrect(t, used);
    var p := Prepare(raw, used).value;
    var rows := KeptRowsBelow(t, used, t.height);
    forall k | 0 <= k < p.height ensures RowComplete(p, used, k) {
      assert RowComplete(t, used, rows[k]);
      forall f | f in used ensures CellAt(p, f, k) != Missing {
        assert CellAt(t, f, rows[k]) != Missing;
      }
    }
  }

  /** A prepared table is well formed and holds at least one row. */
  lemma PreparedNonEmpty(raw: Table, used: seq<string>)
    requires WellFormed(raw) && Prepare(raw, used).Ok?
    ensures WellFormed(Prepare(raw, used).value) && Prepare(raw, used).value.height >= 1
  {
    CheckAndDropCorrect(Normalized(raw), used);
  }

  /** Preparation only fails with a ValueError. */
  lemma PrepareErrorIsValueError(raw: Table, used: seq<string>)
    requires WellFormed(raw) && Prepare(raw, used).Err?
    ensures Prepare(raw, used).error.ValueError?
  {
  }

  /** The row view of a table agrees with CellAt. */
  lemma GetRowAt(t: Table, k: nat, name: string)
    requires WellFormed(t) && k < t.height
    ensures Get(RowAt(t, k), name) == if name in t.names then Some(CellAt(t, name, k)) else None
  {
  }

  /** `a` is the prepared table `p` with row k given the label and the
      probabilities the classifier yields for its scaled features, with
      Diagnosis 'Anemia' exactly for label 1, and every other column kept. */
  predicate AnnotatedFrom(p: Table, a: Annotated, model: Classifier, scaler: Scaler, used: seq<string>)
    requires WellFormed(p)
  {
    && WellFormed(a.table) && a.table.height == p.height && |a.probabilities| == p.height
    && p.names <= a.table.names && PredictedColumn in a.table.names && DiagnosisLabel in a.table.names
    && (forall j :: 0 <= j < |p.names| && p.names[j] != PredictedColumn && p.names[j] != DiagnosisLabel ==>
                     a.table.cols[j] == p.cols[j])
    && (forall k :: 0 <= k < p.height ==>
          && FeatureRow(p, used, k).Ok?
          && var z := scaler.transform(FeatureRow(p, used, k).value);
          && CellAt(a.table, PredictedColumn, k) == Num(model.predict(z) as real)
          && CellAt(a.table, DiagnosisLabel, k) == Text(if model.predict(z) == 1 then "Anemia" else "Normal")
          && a.probabilities[k] == model.proba(z))
  }

  /** Annotation fails exactly as preparation does, or with the ValueError of
      the first prepared row holding a feature cell the scaler cannot read; it
      succeeds when preparation does and every prepared row can be read, and
      then keeps the prepared rows in order, at least one, each annotated by
      the classifier. */
  lemma AnnotateCorrect(raw: Table, model: Classifier, scaler: Scaler, used: seq<string>)
    requires WellFormed(raw)
    ensures Prepare(raw, used).Err? ==> Annotate(raw, model, scaler, used) == Err(Prepare(raw, used).error)
    ensures Annotate(raw, model, scaler, used).Err? ==> Annotate(raw, model, scaler, used).error.ValueError?
    ensures Prepare(raw, used).Ok? ==> WellFormed(Prepare(raw, used).value)
    ensures Prepare(raw, used).Ok? ==>
      var p := Prepare(raw, used).value;
      (forall k :: 0 <= k < p.height ==> FeatureRow(p, used, k).Ok?) ==> Annotate(raw, model, scaler, used).Ok?
    ensures Prepare(raw, used).Ok? ==>
      var p := Prepare(raw, used).value;
      forall k :: 0 <= k < p.height && FeatureRow(p, used, k).Err? && (forall j :: 0 <= j < k ==> FeatureRow(p, used, j).Ok?) ==>
        Annotate(raw, model, scaler, used) == Err(FeatureRow(p, used, k).error)
    ensures Annotate(raw, model, scaler, used).Ok? ==>
      && Prepare(raw, used).Ok? && WellFormed(Prepare(raw, used).value)
      && Prepare(raw, used).value.height >= 1
      && AnnotatedFrom(Prepare(raw, used).value, Annotate(raw, model, scaler, used).value, model, scaler, used)
  {
    match Prepare(raw, used)
    case Err(e) =>
      PrepareErrorIsValueError(raw, used);
    case Ok(p) =>
      PreparedNonEmpty(raw, used);
      FeatureMatrixFirstError(p, used);
      match FeatureMatrix(p, used, p.height)
      case Err(e) =>
        FeatureMatrixError(p, used, p.height);
      case Ok(x) =>
        AnnotatedColumns(p, model, scaler, used, x);
  }

  /** Annotation succeeds when preparation does and every prepared row can be
      read, and then annotates the prepared table. */
  lemma AnnotateSucceeds(raw: Table, model: Classifier, scaler: Scaler, used: seq<string>)
    requires WellFormed(raw) && Prepare(raw, used).Ok?
    requires forall k :: 0 <= k < Prepare(raw, used).value.height ==> FeatureRow(Prepare(raw, used).value, used, k).Ok?
    ensures Annotate(raw, model, scaler, used).Ok?
    ensures AnnotatedFrom(Prepare(raw, used).value, Annotate(raw, model, scaler, used).value, model, scaler, used)
  {
    AnnotateCorrect(raw, model, scaler, used);
  }

  /** The feature matrix of all rows fails with the error of the first failing row. */
  lemma FeatureMatrixFirstError(p: Table, used: seq<string>)
    requires WellFormed(p)
    ensures forall k :: 0 <= k < p.height && FeatureRow(p, used, k).Err? && (forall j :: 0 <= j < k ==> FeatureRow(p, used, j).Ok?) ==>
      FeatureMatrix(p, used, p.height) == Err(FeatureRow(p, used, k).error)
  {
    forall k | 0 <= k < p.height && FeatureRow(p, used, k).Err? && (forall j :: 0 <= j < k ==> FeatureRow(p, used, j).Ok?)
      ensures FeatureMatrix(p, used, p.height) == Err(FeatureRow(p, used, k).error)
    {
      AllOkFirstError(FeatureRows(p, used, p.height), k);
    }
  }

  /** A failing feature matrix fails with a ValueError. */
  lemma FeatureMatrixError(t: Table, used: seq<string>, n: nat)
    requires WellFormed(t) && n <= t.height && FeatureMatrix(t, used, n).Err?
    ensures FeatureMatrix(t, used, n).error.ValueError?
  {
    var k :| 0 <= k < n && FeatureRow(t, used, k) == Err(FeatureMatrix(t, used, n).error);
    var j :| 0 <= j < |used| && FeatureValue(CellAt(t, used[j], k)) == Err(FeatureRow(t, used, k).error);
  }

  /** Setting the two columns from the labels of the feature matrix annotates `p`. */
  lemma AnnotatedColumns(p: Table, model: Classifier, scaler: Scaler, used: seq<string>, x: seq<seq<real>>)
    requires WellFormed(p) && FeatureMatrix(p, used, p.height) == Ok(x)
    ensures var labels := Labels(model, scaler, x);
      var a := SetColumn(SetColumn(p, PredictedColumn, LabelColumn(labels)), DiagnosisLabel, DiagnosisColumn(labels));
      AnnotatedFrom(p, Annotated(a, Probabilities(model, scaler, x)), model, scaler, used)
  {
    var labels := Labels(model, scaler, x);
    SetTwoColumns(p, LabelColumn(labels), DiagnosisColumn(labels));
  }

  /** Setting 'Predicted_Anemia' and then 'Diagnosis' keeps every other column
      and puts the given cells under the two labels. */
  lemma SetTwoColumns(p: Table, predicted: seq<Cell>, diagnosis: seq<Cell>)
    requires WellFormed(p) && |predicted| == |diagnosis| == p.height
    ensures var a := SetColumn(SetColumn(p, PredictedColumn, predicted), DiagnosisLabel, diagnosis);
      && WellFormed(a) && a.height == p.height && p.names <= a.names
      && PredictedColumn in a.names && DiagnosisLabel in a.names
      && (forall j :: 0 <= j < |p.names| && p.names[j] != PredictedColumn && p.names[j] != DiagnosisLabel ==>
                       a.cols[j] == p.cols[j])
      && (forall k :: 0 <= k < p.height ==> CellAt(a, PredictedColumn, k) == predicted[k])
      && (forall k :: 0 <= k < p.height ==> CellAt(a, DiagnosisLabel, k) == diagnosis[k])
  {
    var t := SetColumn(p, PredictedColumn, predicted);
    var a := SetColumn(t, DiagnosisLabel, diagnosis);
    assert PredictedColumn != DiagnosisLabel;
    assert ColumnIndex(a.names, PredictedColumn) == ColumnIndex(t.names, PredictedColumn) by {
      if DiagnosisLabel !in t.names {
        ColumnIndexAppend(t.names, DiagnosisLabel, PredictedColumn);
      }
    }
  }

  /** Appending a different label keeps the position of the first `name`. */
  lemma {:induction false} ColumnIndexAppend(names: seq<string>, extra: string, name: string)
    requires extra != name && name in names
    ensures ColumnIndex(names + [extra], name) == ColumnIndex(names, name)
  {
    if names[0] != name {
      assert (names + [extra])[1..] == names[1..] + [extra];
      ColumnIndexAppend(names[1..], extra, name);
    }
  }
}
