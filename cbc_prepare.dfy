/**
 * Preparing a CBC table for inference (prepare_dataframe_for_inference and
 * normalize_sex_column in app/ai/cbc/predict.py): canonical column labels,
 * sex codes, numeric coercion that leaves unparsable columns as text, the
 * missing-column check, and the drop of rows lacking a required value.
 */
module CbcPrepare {
  import opened Wrappers
  import opened Text
  import opened Tables
  import opened CbcAliases

  const MissingColumnsText := "Missing required columns: "
  // Split in two so that the verifier can see the first characters of the message.
  const NoValidRowsText := "No valid rows for inference" + " (all rows have NaN in required features)"
  const SexLabel := "Sex"
  const DiagnosisLabel := "Diagnosis"

  // ---------------------------------------------------------------------
  // Renaming

  /** df.rename(columns=m): a label in the map becomes its image. */
  function RenameLabels(names: seq<string>, m: map<string, string>): (r: seq<string>)
    ensures |r| == |names|
  {
    seq(|names|, j requires 0 <= j < |names| => if names[j] in m then m[names[j]] else names[j])
  }

  // ---------------------------------------------------------------------
  // normalize_sex_column

  const FemaleCodes: set<string> := {"F", "FEMALE", "0"}
  const MaleCodes: set<string> := {"M", "MALE", "1"}

  /** One cell of a text (object) column: trimmed and upper-cased, F/FEMALE/0
      become 0, M/MALE/1 become 1, anything else is missing. */
  function SexCode(c: Cell): Cell {
    match c
    case Text(s) =>
      var u := Upper(Strip(s));
      if u in FemaleCodes then Num(0.0) else if u in MaleCodes then Num(1.0) else Missing
    case _ => Missing
  }

  /** The distinct non-missing values of a numeric column. */
  function DistinctValues(col: seq<Cell>): set<real> {
    set c | c in col && c.Num? :: c.x
  }

  /** normalize_sex_column: text columns are mapped cell by cell; a numeric
      column with values exactly {1, 2} is shifted down by one; every other
      numeric column (including one with values exactly {0, 1}) is kept. */
  function NormalizeSex(col: seq<Cell>): (r: seq<Cell>)
    ensures |r| == |col|
  {
    if IsTextColumn(col) then seq(|col|, i requires 0 <= i < |col| => SexCode(col[i]))
    else if DistinctValues(col) == {1.0, 2.0} then
      seq(|col|, i requires 0 <= i < |col| => if col[i].Num? then Num(col[i].x - 1.0) else col[i])
    else col
  }

  /** A column whose cells are all 0, 1 or missing. */
  predicate BinaryCodes(col: seq<Cell>) {
    forall i :: 0 <= i < |col| ==> col[i] == Missing || col[i] == Num(0.0) || col[i] == Num(1.0)
  }

  /** Text columns and {1, 2}-coded columns come out as 0/1 codes. */
  lemma NormalizeSexBinary(col: seq<Cell>)
    requires IsTextColumn(col) || (!IsTextColumn(col) && DistinctValues(col) == {1.0, 2.0})
    ensures BinaryCodes(NormalizeSex(col))
  {
    if !IsTextColumn(col) {
      forall i | 0 <= i < |col| && col[i].Num?
        ensures col[i].x == 1.0 || col[i].x == 2.0
      {
        assert col[i].x in DistinctValues(col);
      }
    }
  }

  /** A text cell maps to 0 exactly for F/FEMALE/0 and to 1 exactly for
      M/MALE/1 after trimming and upper-casing. */
  lemma SexCodeCases(s: string)
    ensures SexCode(Text(s)) == Num(0.0) <==> Upper(Strip(s)) in FemaleCodes
    ensures SexCode(Text(s)) == Num(1.0) <==> Upper(Strip(s)) in MaleCodes
    ensures SexCode(Text(s)) == Missing <==> Upper(Strip(s)) !in FemaleCodes + MaleCodes
  {
    var u := Upper(Strip(s));
    if u in MaleCodes {
      assert u !in FemaleCodes by {
        assert u == "M" || u == "MALE" || u == "1";
      }
    }
  }

  lemma BinaryCodesNotText(col: seq<Cell>)
    requires BinaryCodes(col)
    ensures !IsTextColumn(col)
    ensures DistinctValues(col) <= {0.0, 1.0}
  {
    forall x | x in DistinctValues(col) ensures x == 0.0 || x == 1.0 {
      var c :| c in col && c.Num? && c.x == x;
      var i :| 0 <= i < |col| && col[i] == c;
    }
  }

  /** Normalizing a normalized column changes nothing. */
  lemma NormalizeSexIdempotent(col: seq<Cell>)
    ensures NormalizeSex(NormalizeSex(col)) == NormalizeSex(col)
  {
    var r := NormalizeSex(col);
    if IsTextColumn(col) || DistinctValues(col) == {1.0, 2.0} {
      NormalizeSexBinary(col);
      BinaryCodesNotText(r);
      assert 2.0 !in DistinctValues(r);
    } else {
      assert r == col;
    }
  }

  /** A numeric column coded exactly {0, 1} is returned as it is. */
  lemma NormalizeSexKeepsBinary(col: seq<Cell>)
    requires !IsTextColumn(col) && DistinctValues(col) == {0.0, 1.0}
    ensures NormalizeSex(col) == col
  {
    assert 0.0 in DistinctValues(col) && 0.0 !in {1.0, 2.0};
  }

  // ---------------------------------------------------------------------
  // pd.to_numeric(errors='ignore')

  /** One cell under to_numeric: text parses as a decimal number, the empty
      text is missing, numbers and missing cells stay; None when it fails. */
  function ParseCell(c: Cell): Option<Cell> {
    match c
    case Text(s) =>
      if s == "" then Some(Missing)
      else (match ParseDecimal(s)
            case Some(x) => Some(Num(x))
            case None => None)
    case _ => Some(c)
  }

  predicate AllParse(col: seq<Cell>) {
    forall i :: 0 <= i < |col| ==> ParseCell(col[i]).Some?
  }

  /** to_numeric with errors='ignore': all cells converted, or the column returned as it was. */
  function ToNumericIgnore(col: seq<Cell>): (r: seq<Cell>)
    ensures |r| == |col|
  {
    if AllParse(col) then seq(|col|, i requires 0 <= i < |col| => ParseCell(col[i]).value) else col
  }

  /** A column is converted as a whole or not at all: either no text is left
      in it, or it is unchanged and holds a cell that does not parse. Numbers
      and missing cells are never altered. */
  lemma ToNumericAllOrNothing(col: seq<Cell>)
    ensures var r := ToNumericIgnore(col);
      || (forall i :: 0 <= i < |r| ==> !r[i].Text?)
      || (r == col && exists i :: 0 <= i < |col| && ParseCell(col[i]).None?)
    ensures forall i :: 0 <= i < |col| && !col[i].Text? ==> ToNumericIgnore(col)[i] == col[i]
  {
  }

  /** The columns after the coercion loop: every column except 'Diagnosis'. */
  function ConvertColumns(names: seq<string>, cols: seq<seq<Cell>>): (r: seq<seq<Cell>>)
    requires |names| == |cols|
    ensures |r| == |cols|
  {
    seq(|cols|, j requires 0 <= j < |cols| => if names[j] == DiagnosisLabel then cols[j] else ToNumericIgnore(cols[j]))
  }

  /** Coercion leaves columns holding no text as they are. */
  lemma ConvertColumnsNoText(names: seq<string>, cols: seq<seq<Cell>>)
    requires |names| == |cols|
    requires forall j, i :: 0 <= j < |cols| && 0 <= i < |cols[j]| ==> !cols[j][i].Text?
    ensures ConvertColumns(names, cols) == cols
  {
    forall j | 0 <= j < |cols| ensures ToNumericIgnore(cols[j]) == cols[j] {
      assert AllParse(cols[j]);
    }
  }

  // ---------------------------------------------------------------------
  // Stages of prepare_dataframe_for_inference

  /** The columns after normalising the first column labelled 'Sex', if any. */
  function SexStage(names: seq<string>, cols: seq<seq<Cell>>): (r: seq<seq<Cell>>)
    requires |names| == |cols|
    ensures |r| == |cols|
    ensures forall j :: 0 <= j < |cols| ==> |r[j]| == |cols[j]|
  {
    match ColumnIndex(names, SexLabel)
    case Some(j) => cols[j := NormalizeSex(cols[j])]
    case None => cols
  }

  /** The table after renaming, sex normalisation and numeric coercion. */
  function Normalized(raw: Table): (t: Table)
    requires WellFormed(raw)
    ensures WellFormed(t) && t.height == raw.height
  {
    var names := RenameLabels(raw.names, RenameMap(raw.names));
    Table(names, ConvertColumns(names, SexStage(names, raw.cols)), raw.height)
  }

  /** A table whose labels renaming keeps, with no Sex column and no text
      cell, is already normalised. */
  lemma NormalizedUnchanged(t: Table)
    requires WellFormed(t) && RenameLabels(t.names, RenameMap(t.names)) == t.names && SexLabel !in t.names
    requires forall j, i :: 0 <= j < |t.cols| && 0 <= i < |t.cols[j]| ==> !t.cols[j][i].Text?
    ensures Normalized(t) == t
  {
    ConvertColumnsNoText(t.names, t.cols);
  }

  /** [c for c in used if c not in names], in the order of `used`. */
  function MissingFeatures(used: seq<string>, names: seq<string>): (r: seq<string>)
    ensures |r| <= |used|
  {
    if used == [] then []
    else (if used[0] in names then [] else [used[0]]) + MissingFeatures(used[1..], names)
  }

  lemma {:induction false} MissingFeaturesCorrect(used: seq<string>, names: seq<string>)
    ensures forall f :: f in MissingFeatures(used, names) <==> f in used && f !in names
  {
    if used != [] {
      MissingFeaturesCorrect(used[1..], names);
      assert used == [used[0]] + used[1..];
    }
  }

  /** The cell of row i under the first column labelled `name`; missing when there is none. */
  function CellAt(t: Table, name: string, i: nat): Cell
    requires WellFormed(t) && i < t.height
  {
    match ColumnIndex(t.names, name)
    case Some(j) => t.cols[j][i]
    case None => Missing
  }

  /** No feature is missing when every used feature is a column. */
  lemma NoMissingFeatures(used: seq<string>, names: seq<string>)
    requires forall f :: f in used ==> f in names
    ensures MissingFeatures(used, names) == []
  {
    MissingFeaturesCorrect(used, names);
  }

  /** Row i has a value in every used feature (text counts as a value). */
  predicate RowComplete(t: Table, used: seq<string>, i: nat)
    requires WellFormed(t) && i < t.height
  {
    forall f :: f in used ==> CellAt(t, f, i) != Missing
  }

  /** The positions of the complete rows below n, in order. */
  function KeptRowsBelow(t: Table, used: seq<string>, n: nat): (r: seq<nat>)
    requires WellFormed(t) && n <= t.height
    ensures |r| <= n
    ensures forall k :: 0 <= k < |r| ==> r[k] < n
  {
    if n == 0 then []
    else KeptRowsBelow(t, used, n - 1) + if RowComplete(t, used, n - 1) then [n - 1] else []
  }

  predicate Increasing(r: seq<nat>) {
    forall a, b :: 0 <= a < b < |r| ==> r[a] < r[b]
  }

  /** Exactly the complete rows below n are listed. */
  predicate ListsCompleteRows(t: Table, used: seq<string>, r: seq<nat>, n: nat)
    requires WellFormed(t) && n <= t.height
  {
    && (forall k :: 0 <= k < |r| ==> r[k] < n && RowComplete(t, used, r[k]))
    && (forall i :: 0 <= i < n && RowComplete(t, used, i) ==> i in r)
  }

  /** The kept rows are increasing, complete, and include every complete row below n. */
  lemma KeptRowsCorrect(t: Table, used: seq<string>, n: nat)
    requires WellFormed(t) && n <= t.height
    ensures Increasing(KeptRowsBelow(t, used, n))
    ensures ListsCompleteRows(t, used, KeptRowsBelow(t, used, n), n)
  {
    KeptRowsIncreasing(t, used, n);
    KeptRowsExact(t, used, n);
  }

  lemma {:induction false} KeptRowsIncreasing(t: Table, used: seq<string>, n: nat)
    requires WellFormed(t) && n <= t.height
    ensures Increasing(KeptRowsBelow(t, used, n))
  {
    if n > 0 {
      KeptRowsIncreasing(t, used, n - 1);
    }
  }

  lemma KeptRowsExact(t: Table, used: seq<string>, n: nat)
    requires WellFormed(t) && n <= t.height
    ensures ListsCompleteRows(t, used, KeptRowsBelow(t, used, n), n)
  {
    KeptRowsSound(t, used, n);
    KeptRowsComplete(t, used, n);
  }

  lemma {:induction false} KeptRowsSound(t: Table, used: seq<string>, n: nat)
    requires WellFormed(t) && n <= t.height
    ensures forall k :: 0 <= k < |KeptRowsBelow(t, used, n)| ==>
      KeptRowsBelow(t, used, n)[k] < n && RowComplete(t, used, KeptRowsBelow(t, used, n)[k])
  {
    if n > 0 {
      KeptRowsSound(t, used, n - 1);
      var prev := KeptRowsBelow(t, used, n - 1);
      var r := KeptRowsBelow(t, used, n);
      if RowComplete(t, used, n - 1) {
        assert r == prev + [n - 1];
        assert forall k :: 0 <= k < |prev| ==> r[k] == prev[k];
      } else {
        assert r == prev;
      }
    }
  }

  lemma {:induction false} KeptRowsComplete(t: Table, used: seq<string>, n: nat)
    requires WellFormed(t) && n <= t.height
    ensures forall i :: 0 <= i < n && RowComplete(t, used, i) ==> i in KeptRowsBelow(t, used, n)
  {
    if n > 0 {
      KeptRowsComplete(t, used, n - 1);
      var prev := KeptRowsBelow(t, used, n - 1);
      if RowComplete(t, used, n - 1) {
        assert KeptRowsBelow(t, used, n) == prev + [n - 1];
      } else {
        assert KeptRowsBelow(t, used, n) == prev;
      }
    }
  }

  /** df.iloc[rows].reset_index(drop=True): the given rows, renumbered from 0. */
  function SelectRows(t: Table, rows: seq<nat>): (r: Table)
    requires WellFormed(t) && forall k :: 0 <= k < |rows| ==> rows[k] < t.height
    ensures WellFormed(r) && r.names == t.names && r.height == |rows|
    ensures forall j, k :: 0 <= j < |t.cols| && 0 <= k < |rows| ==> r.cols[j][k] == t.cols[j][rows[k]]
  {
    Table(t.names, seq(|t.cols|, j requires 0 <= j < |t.cols| =>
                         seq(|rows|, k requires 0 <= k < |rows| => t.cols[j][rows[k]])), |rows|)
  }

  /** The checks after normalisation: missing features first, then the row filter. */
  function CheckAndDrop(t: Table, used: seq<string>): Result<Table, Failure>
    requires WellFormed(t)
  {
    var missing := MissingFeatures(used, t.names);
    if missing != [] then Err(ValueError(MissingColumnsText + PyStrList(missing)))
    else
      var rows := KeptRowsBelow(t, used, t.height);
      if rows == [] then Err(ValueError(NoValidRowsText)) else Ok(SelectRows(t, rows))
  }

  /** prepare_dataframe_for_inference, as a value: the ValueError it raises, or the prepared table. */
  function Prepare(raw: Table, used: seq<string>): Result<Table, Failure>
    requires WellFormed(raw)
  {
    CheckAndDrop(Normalized(raw), used)
  }

  lemma MissingTextDiffers(missing: seq<string>)
    ensures MissingColumnsText + PyStrList(missing) != NoValidRowsText
  {
    var msg := MissingColumnsText + PyStrList(missing);
    assert msg[0] == MissingColumnsText[0] == 'M';
    assert NoValidRowsText[0] == 'N';
  }

  /** The missing-column check comes first and names exactly the absent features;
      then a table with no complete row is refused; otherwise the result holds
      exactly the complete rows, in order, each with a value in every used feature. */
  lemma CheckAndDropCorrect(t: Table, used: seq<string>)
    requires WellFormed(t)
    ensures (exists f :: f in used && f !in t.names) <==>
      CheckAndDrop(t, used) == Err(ValueError(MissingColumnsText + PyStrList(MissingFeatures(used, t.names))))
    ensures (forall f :: f in used ==> f in t.names) && KeptRowsBelow(t, used, t.height) == [] <==>
      CheckAndDrop(t, used) == Err(ValueError(NoValidRowsText))
    ensures CheckAndDrop(t, used).Ok? <==>
      (forall f :: f in used ==> f in t.names) && KeptRowsBelow(t, used, t.height) != []
    ensures CheckAndDrop(t, used).Ok? ==>
      var p := CheckAndDrop(t, used).value;
      var rows := KeptRowsBelow(t, used, t.height);
      && WellFormed(p) && p.names == t.names && p.height == |rows| >= 1
      && (forall f :: f in used ==> f in p.names)
      && Increasing(rows) && ListsCompleteRows(t, used, rows, t.height)
      && (forall j, k :: 0 <= j < |t.cols| && 0 <= k < |rows| ==> p.cols[j][k] == t.cols[j][rows[k]])
  {
    MissingFeaturesCorrect(used, t.names);
    KeptRowsCorrect(t, used, t.height);
    var missing := MissingFeatures(used, t.names);
    if missing != [] {
      assert missing[0] in missing;
      MissingTextDiffers(missing);
    }
  }

  /** prepare_dataframe_for_inference: rename, normalise Sex, coerce every
      column but 'Diagnosis' in a loop, check the features, drop incomplete
      rows. The caller's table is a value and is never altered. */
  method PrepareForInference(raw: Table, used: seq<string>) returns (r: Result<Table, Failure>)
    requires WellFormed(raw)
    ensures r == Prepare(raw, used)
  {
    var t := NormalizeTable(raw);
    var missing := MissingFeatures(used, t.names);
    if missing != [] {
      return Err(ValueError(MissingColumnsText + PyStrList(missing)));
    }
    var rows := KeptRowsBelow(t, used, t.height);
    if rows == [] {
      return Err(ValueError(NoValidRowsText));
    }
    return Ok(SelectRows(t, rows));
  }

  /** The renaming, the Sex normalisation and the coercion loop on a copy of the table. */
  method NormalizeTable(raw: Table) returns (t: Table)
    requires WellFormed(raw)
    ensures t == Normalized(raw)
  {
    var m := BuildAliasRenameMap(raw.names);
    var names := RenameLabels(raw.names, m);
    var cols := raw.cols;
    var sex := ColumnIndex(names, SexLabel);
    if sex.Some? {
      cols := cols[sex.value := NormalizeSex(cols[sex.value])];
    }
    assert cols == SexStage(names, raw.cols);
    cols := CoerceColumns(names, cols);
    t := Table(names, cols, raw.height);
  }

  /** The loop `for c in df.columns: if c != 'Diagnosis': df[c] = to_numeric(df[c], errors='ignore')`. */
  method CoerceColumns(names: seq<string>, cols0: seq<seq<Cell>>) returns (cols: seq<seq<Cell>>)
    requires |names| == |cols0|
    ensures cols == ConvertColumns(names, cols0)
  {
    cols := cols0;
    var j := 0;
    while j < |cols|
      invariant 0 <= j <= |cols| == |cols0|
      invariant forall k :: 0 <= k < j ==> cols[k] == ConvertColumns(names, cols0)[k]
      invariant forall k :: j <= k < |cols| ==> cols[k] == cols0[k]
    {
      if names[j] != DiagnosisLabel {
        cols := cols[j := ToNumericIgnore(cols[j])];
      }
      j := j + 1;
    }
  }
}
