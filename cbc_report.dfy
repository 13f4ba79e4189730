/**
 * The advisory report for one annotated row (app/ai/cbc/predict.py): reading
 * a cell as a float, classifying the anemia by MCV with supporting
 * observations, and assembling the report text line by line.
 * Formatting a float with one decimal is a parameter.
 */
module CbcReport {
  import opened Wrappers
  import opened Text
  import opened Tables

  /** _val: the cell under `col` as a number; None stands for NaN (no such
      column, a missing cell, or text that does not read as a number). */
  function Val(row: Row, col: string): (r: Option<real>)
    requires |row.cells| == |row.names|
    ensures col !in row.names ==> r.None?
    ensures Get(row, col) == Some(Missing) ==> r.None?
    ensures Get(row, col).Some? && Get(row, col).value.Num? ==> r == Some(Get(row, col).value.x)
  {
    match Get(row, col)
    case Some(Num(x)) => Some(x)
    case Some(Text(s)) => ParseDecimal(Strip(s))
    case _ => None
  }

  /** The anemia classification by mean cell volume. */
  datatype Phenotype = Undetermined | Microcytic | Macrocytic | Normocytic

  const UndeterminedText := "غير محدد"
  const MicrocyticText := "Microcytic Anemia (often iron deficiency)"
  const MacrocyticText := "Macrocytic Anemia (may indicate B12/folate deficiency or other causes)"
  const NormocyticText := "Normocytic Anemia (may be related to chronic disease/acute bleeding/kidney issues)"

  function PhenotypeText(p: Phenotype): string {
    match p
    case Undetermined => UndeterminedText
    case Microcytic => MicrocyticText
    case Macrocytic => MacrocyticText
    case Normocytic => NormocyticText
  }

  /** MCV below 80 fL is microcytic, above 100 fL macrocytic, anything in
      between normocytic; without an MCV the class is undetermined. */
  function Classify(mcv: Option<real>): (p: Phenotype)
    ensures p == Undetermined <==> mcv.None?
    ensures p == Microcytic <==> mcv.Some? && mcv.value < 80.0
    ensures p == Macrocytic <==> mcv.Some? && mcv.value > 100.0
    ensures p == Normocytic <==> mcv.Some? && 80.0 <= mcv.value <= 100.0
  {
    if mcv.None? then Undetermined
    else if mcv.value < 80.0 then Microcytic
    else if mcv.value > 100.0 then Macrocytic
    else Normocytic
  }

  /** A supporting observation. */
  datatype Hint = Hypochromia | ElevatedRdw

  const HypochromiaText := "Hypochromia (supports iron deficiency)"
  const ElevatedRdwText := "Elevated RDW → significant variation in cell size"

  function HintText(h: Hint): string {
    match h
    case Hypochromia => HypochromiaText
    case ElevatedRdw => ElevatedRdwText
  }

  /** Hypochromia when MCHC is below 32, elevated RDW when RDW is above 14.5,
      in that order. */
  function Hints(mchc: Option<real>, rdw: Option<real>): (r: seq<Hint>)
    ensures Hypochromia in r <==> mchc.Some? && mchc.value < 32.0
    ensures ElevatedRdw in r <==> rdw.Some? && rdw.value > 14.5
    ensures |r| <= 2 && (|r| == 2 ==> r == [Hypochromia, ElevatedRdw])
  {
    (if mchc.Some? && mchc.value < 32.0 then [Hypochromia] else [])
    + (if rdw.Some? && rdw.value > 14.5 then [ElevatedRdw] else [])
  }

  /** _anemia_phenotype */
  function AnemiaPhenotype(row: Row): (Phenotype, seq<Hint>)
    requires |row.cells| == |row.names|
  {
    (Classify(Val(row, "MCV")), Hints(Val(row, "MCHC"), Val(row, "RDW")))
  }

  function HintTexts(hints: seq<Hint>): (r: seq<string>)
    ensures |r| == |hints|
  {
    seq(|hints|, i requires 0 <= i < |hints| => HintText(hints[i]))
  }

  /** A bullet of the anemic report: a suggested test, a lifestyle tip or a red flag. */
  datatype Item =
    | RepeatCbc | IronStudies | InflammationMarkers
    | OccultBloodTest | UterineBleedingTest
    | FolateTest | ThyroidTest | LiverTest
    | KidneyTest | ChronicDiseaseScreen
    | IronRichFoods | VitaminC | AvoidTeaAndCoffee
    | Dizziness | HemoglobinDrop | VisibleBleeding

  function ItemText(item: Item): string {
    match item
    case RepeatCbc => "Repeat CBC for confirmation"
    case IronStudies => "Ferritin + Serum Iron + TIBC/Transferrin Saturation"
    case InflammationMarkers => "CRP/ESR if inflammatory/chronic disease is suspected"
    case OccultBloodTest => "Fecal occult blood test (FOBT) based on age and symptoms"
    case UterineBleedingTest => "Evaluate for uterine bleeding/malabsorption if needed"
    case FolateTest => "Vitamin B12 and folate levels"
    case ThyroidTest => "Thyroid function tests (TSH)"
    case LiverTest => "Liver function tests (LFTs)"
    case KidneyTest => "Kidney function tests (Creatinine/eGFR)"
    case ChronicDiseaseScreen => "Screen for chronic diseases or acute bleeding"
    case IronRichFoods => "Increase iron-rich foods: liver, red meat, lentils, beans, spinach"
    case VitaminC => "Take vitamin C with meals to improve iron absorption"
    case AvoidTeaAndCoffee => "Avoid tea and coffee immediately after iron-rich meals (preferably wait 1-2 hours)"
    case Dizziness => "Frequent dizziness/fainting, severe shortness of breath, chest pain"
    case HemoglobinDrop => "Severe drop in hemoglobin"
    case VisibleBleeding => "Visible bleeding: bloody vomit, black stools, severe uterine bleeding"
  }

  const BaseTests: seq<Item> := [RepeatCbc, IronStudies, InflammationMarkers]
  const Lifestyle: seq<Item> := [IronRichFoods, VitaminC, AvoidTeaAndCoffee]
  const RedFlags: seq<Item> := [Dizziness, HemoglobinDrop, VisibleBleeding]

  /** The tests suggested on top of the base tests: two for a microcytic, three
      for a macrocytic and two for a normocytic picture; none without an MCV. */
  function ExtraTests(p: Phenotype): (r: seq<Item>)
    ensures r == [] <==> p == Undetermined
    ensures |r| == match p
      case Undetermined => 0
      case Microcytic => 2
      case Macrocytic => 3
      case Normocytic => 2
    ensures forall t :: t in r ==> t !in BaseTests + Lifestyle + RedFlags
  {
    match p
    case Undetermined => []
    case Microcytic => [OccultBloodTest, UterineBleedingTest]
    case Macrocytic => [FolateTest, ThyroidTest, LiverTest]
    case Normocytic => [KidneyTest, ChronicDiseaseScreen]
  }

  /** A line of the anemic report. */
  datatype Line =
    | Headline
    | Hemoglobin(hb: real)
    | MeanCellVolume(mcv: real)
    | Classification(phenotype: Phenotype)
    | Observations(hints: seq<Hint>)
    | TestsHeader
    | LifestyleHeader
    | RedFlagsHeader
    | Bullet(item: Item)
    | Notice

  /** The text of a line; `format1` renders a float with one decimal. */
  function LineText(line: Line, format1: real -> string): string {
    match line
    case Headline => "Result: Anemia Detected 🩸"
    case Hemoglobin(x) => "Hb: " + format1(x) + " g/dL"
    case MeanCellVolume(x) => "MCV: " + format1(x) + " fL"
    case Classification(p) => "Expected Classification: " + PhenotypeText(p)
    case Observations(hints) => "Supporting Observations: " + Join(HintTexts(hints), "; ")
    case TestsHeader => "\n🔬 Suggested Tests (according to physician's evaluation):"
    case LifestyleHeader => "\n🍽️ Lifestyle Recommendations:"
    case RedFlagsHeader => "\n🚩 Red Flags Requiring Urgent Medical Attention:"
    case Bullet(item) => "- " + ItemText(item)
    case Notice =>
      "\n⚠️ Important Notice: This is an automated advisory report and does not constitute a final diagnosis. All treatment decisions are the responsibility of the treating physician."
  }

  const NotAnemicText := "Result: Not Anemic ✅\n"
    + "Note: A healthy lifestyle, adequate hydration, and periodic CBC tests as advised by your doctor are recommended."

  /** Each item as a bullet line. */
  function Bullets(items: seq<Item>): (r: seq<Line>)
    ensures |r| == |items|
    ensures forall i :: 0 <= i < |items| ==> r[i] == Bullet(items[i])
  {
    seq(|items|, i requires 0 <= i < |items| => Bullet(items[i]))
  }

  /** The measured values, the classification and the observations. */
  function FindingLines(hgb: Option<real>, mcv: Option<real>, hints: seq<Hint>): seq<Line> {
    (if hgb.Some? then [Hemoglobin(hgb.value)] else [])
    + (if mcv.Some? then [MeanCellVolume(mcv.value)] else [])
    + [Classification(Classify(mcv))]
    + (if hints != [] then [Observations(hints)] else [])
  }

  /** The suggested tests, lifestyle tips and red flags under their headers, and the notice. */
  function Advice(p: Phenotype): seq<Line> {
    [TestsHeader] + Bullets(BaseTests + ExtraTests(p))
    + [LifestyleHeader] + Bullets(Lifestyle)
    + [RedFlagsHeader] + Bullets(RedFlags)
    + [Notice]
  }

  /** The lines of an anemic report given the Hb and MCV values and the observations. */
  function Plan(hgb: Option<real>, mcv: Option<real>, hints: seq<Hint>): seq<Line> {
    [Headline] + FindingLines(hgb, mcv, hints) + Advice(Classify(mcv))
  }

  /** The lines of the report for an anemic row, in order. */
  function ReportLines(row: Row): seq<Line>
    requires |row.cells| == |row.names|
  {
    Plan(Val(row, "HGB"), Val(row, "MCV"), Hints(Val(row, "MCHC"), Val(row, "RDW")))
  }

  /** The texts of the lines. */
  function Render(lines: seq<Line>, format1: real -> string): (r: seq<string>)
    ensures |r| == |lines|
  {
    if lines == [] then [] else [LineText(lines[0], format1)] + Render(lines[1..], format1)
  }

  /** int(x) on a float: truncation toward zero. */
  function Truncate(x: real): (r: int)
    ensures x >= 0.0 ==> r as real <= x < r as real + 1.0
    ensures x < 0.0 ==> r as real - 1.0 < x <= r as real
  {
    if x >= 0.0 then x.Floor else -((-x).Floor)
  }

  /** The row carries the model's label as a number. */
  predicate HasPrediction(row: Row) {
    |row.cells| == |row.names| && Get(row, "Predicted_Anemia").Some? && Get(row, "Predicted_Anemia").value.Num?
  }

  function PredictedLabel(row: Row): int
    requires HasPrediction(row)
  {
    Truncate(Get(row, "Predicted_Anemia").value.x)
  }

  /** The report: the fixed not-anemic text for label 0, the joined lines otherwise. */
  function Report(row: Row, format1: real -> string): string
    requires HasPrediction(row)
  {
    if PredictedLabel(row) == 0 then NotAnemicText else Join(Render(ReportLines(row), format1), "\n")
  }

  /** Appends each item as a bullet line. */
  method AppendBullets(lines: seq<Line>, items: seq<Item>) returns (r: seq<Line>)
    ensures r == lines + Bullets(items)
  {
    r := lines;
    var i := 0;
    while i < |items|
      invariant 0 <= i <= |items|
      invariant r == lines + Bullets(items[..i])
    {
      assert Bullets(items[..i + 1]) == Bullets(items[..i]) + [Bullet(items[i])];
      r := r + [Bullet(items[i])];
      i := i + 1;
    }
    assert items[..i] == items;
  }

  /** The headline and the findings build_report collects, in order. */
  method CollectFindings(hgb: Option<real>, mcv: Option<real>, hints: seq<Hint>) returns (lines: seq<Line>)
    ensures lines == [Headline] + FindingLines(hgb, mcv, hints)
  {
    lines := [Headline];
    if hgb.Some? {
      lines := lines + [Hemoglobin(hgb.value)];
    }
    if mcv.Some? {
      lines := lines + [MeanCellVolume(mcv.value)];
    }
    lines := lines + [Classification(Classify(mcv))];
    if hints != [] {
      lines := lines + [Observations(hints)];
    }
  }

  /** Appends the three bullet sections under their headers, and the notice. */
  method AppendAdvice(lines: seq<Line>, p: Phenotype) returns (r: seq<Line>)
    ensures r == lines + Advice(p)
  {
    r := lines + [TestsHeader];
    r := AppendBullets(r, BaseTests + ExtraTests(p));
    r := r + [LifestyleHeader];
    r := AppendBullets(r, Lifestyle);
    r := r + [RedFlagsHeader];
    r := AppendBullets(r, RedFlags);
    r := r + [Notice];
  }

  /** build_report: the fixed text for label 0; otherwise the collected lines'
      texts joined with newlines. */
  method BuildReport(row: Row, format1: real -> string) returns (report: string)
    requires HasPrediction(row)
    ensures report == Report(row, format1)
  {
    if PredictedLabel(row) == 0 {
      return NotAnemicText;
    }
    var (phenotype, hints) := AnemiaPhenotype(row);
    var hgb := Val(row, "HGB");
    var mcv := Val(row, "MCV");
    var lines := CollectFindings(hgb, mcv, hints);
    lines := AppendAdvice(lines, phenotype);
    report := Join(Render(lines, format1), "\n");
  }

  /** The joined text begins with the first part. */
  lemma {:induction false} JoinStartsWith(parts: seq<string>, sep: string)
    requires parts != []
    ensures parts[0] <= Join(parts, sep)
  {
  }

  /** An anemic report is never the not-anemic text: the ninth characters differ. */
  lemma PlanTextDiffers(hgb: Option<real>, mcv: Option<real>, hints: seq<Hint>, format1: real -> string)
    ensures Join(Render(Plan(hgb, mcv, hints), format1), "\n") != NotAnemicText
  {
    var texts := Render(Plan(hgb, mcv, hints), format1);
    assert texts[0] == LineText(Headline, format1);
    JoinStartsWith(texts, "\n");
    assert Join(texts, "\n")[8] == 'A';
    assert NotAnemicText[8] == 'N';
  }

  /** The fixed not-anemic text is returned exactly when the label is 0. */
  lemma ReportNotAnemicIff(row: Row, format1: real -> string)
    requires HasPrediction(row)
    ensures Report(row, format1) == NotAnemicText <==> PredictedLabel(row) == 0
  {
    PlanTextDiffers(Val(row, "HGB"), Val(row, "MCV"), Hints(Val(row, "MCHC"), Val(row, "RDW")), format1);
  }

  /** An item is bulleted exactly when it is listed. */
  lemma BulletsMembers(items: seq<Item>)
    ensures forall t :: Bullet(t) in Bullets(items) <==> t in items
  {
    var b := Bullets(items);
    forall t | Bullet(t) in b ensures t in items {
      var i :| 0 <= i < |b| && b[i] == Bullet(t);
      assert items[i] == t;
    }
    forall t | t in items ensures Bullet(t) in b {
      var i :| 0 <= i < |items| && items[i] == t;
      assert b[i] == Bullet(t);
    }
  }

  /** The advice bullets exactly the base tests, the tests for the MCV band,
      the lifestyle tips and the red flags; besides them it holds only the
      three headers and, last, the notice. */
  lemma AdviceContents(p: Phenotype)
    ensures var advice := Advice(p);
      && (forall t :: Bullet(t) in advice <==> t in BaseTests + ExtraTests(p) + Lifestyle + RedFlags)
      && (forall l :: l in advice ==> l.Bullet? || l in [TestsHeader, LifestyleHeader, RedFlagsHeader, Notice])
      && advice[|advice| - 1] == Notice
      && |advice| == 13 + |ExtraTests(p)|
  {
    BulletsMembers(BaseTests + ExtraTests(p));
    BulletsMembers(Lifestyle);
    BulletsMembers(RedFlags);
    var advice := Advice(p);
    assert advice == [TestsHeader] + Bullets(BaseTests + ExtraTests(p))
      + ([LifestyleHeader] + Bullets(Lifestyle))
      + ([RedFlagsHeader] + Bullets(RedFlags)) + [Notice];
  }

  /** The findings show a measured value exactly when it is there, and hold
      nothing but measured values, the classification and observations. */
  lemma FindingLinesValues(hgb: Option<real>, mcv: Option<real>, hints: seq<Hint>)
    ensures var f := FindingLines(hgb, mcv, hints);
      && (forall x :: Hemoglobin(x) in f <==> hgb == Some(x))
      && (forall x :: MeanCellVolume(x) in f <==> mcv == Some(x))
      && (forall l :: l in f ==> l.Hemoglobin? || l.MeanCellVolume? || l.Classification? || l.Observations?)
  {
  }

  /** The findings show the classification of the MCV, and the observations
      exactly when there are some. */
  lemma FindingLinesSummary(hgb: Option<real>, mcv: Option<real>, hints: seq<Hint>)
    ensures var f := FindingLines(hgb, mcv, hints);
      && (forall p :: Classification(p) in f <==> p == Classify(mcv))
      && (forall h :: Observations(h) in f <==> h == hints && hints != [])
      && |f| == 1 + (if hgb.Some? then 1 else 0) + (if mcv.Some? then 1 else 0) + (if hints != [] then 1 else 0)
  {
  }

  /** An anemic report starts with the headline, ends with the notice, and has
      fifteen lines plus one per measured value, one for observations and one
      per band-specific test. */
  lemma PlanShape(hgb: Option<real>, mcv: Option<real>, hints: seq<Hint>)
    ensures var lines := Plan(hgb, mcv, hints);
      && lines[0] == Headline && lines[|lines| - 1] == Notice
      && |lines| == 15 + (if hgb.Some? then 1 else 0) + (if mcv.Some? then 1 else 0)
                       + (if hints != [] then 1 else 0) + |ExtraTests(Classify(mcv))|
  {
    FindingLinesSummary(hgb, mcv, hints);
    AdviceContents(Classify(mcv));
  }

  /** An anemic report shows Hb and MCV exactly when measured. */
  lemma PlanValues(hgb: Option<real>, mcv: Option<real>, hints: seq<Hint>)
    ensures var lines := Plan(hgb, mcv, hints);
      && (forall x :: Hemoglobin(x) in lines <==> hgb == Some(x))
      && (forall x :: MeanCellVolume(x) in lines <==> mcv == Some(x))
  {
    FindingLinesValues(hgb, mcv, hints);
    AdviceContents(Classify(mcv));
  }

  /** An anemic report shows the MCV class, and the observations exactly when
      there are any. */
  lemma PlanSummary(hgb: Option<real>, mcv: Option<real>, hints: seq<Hint>)
    ensures var lines := Plan(hgb, mcv, hints);
      && (forall p :: Classification(p) in lines <==> p == Classify(mcv))
      && (forall h :: Observations(h) in lines <==> h == hints && hints != [])
  {
    FindingLinesSummary(hgb, mcv, hints);
    AdviceContents(Classify(mcv));
  }

  /** An anemic report bullets exactly the base tests, the band's tests, the
      lifestyle tips and the red flags. */
  lemma PlanBullets(hgb: Option<real>, mcv: Option<real>, hints: seq<Hint>)
    ensures forall t :: Bullet(t) in Plan(hgb, mcv, hints) <==>
      t in BaseTests + ExtraTests(Classify(mcv)) + Lifestyle + RedFlags
  {
    FindingLinesValues(hgb, mcv, hints);
    AdviceContents(Classify(mcv));
  }
}
