/**
 * Alias resolution for CBC column names (app/ai/cbc/predict.py: ALIASES,
 * norm, build_rename_map). Each canonical lab parameter has an ordered list
 * of accepted spellings; an input column is renamed to a canonical name when
 * its normalised label equals a normalised spelling.
 */
module CbcAliases {
  import opened Text
  import opened CbcNorm
  import opened ColumnRename

  /** The alias table, in the order the source declares it. */
  const Aliases: seq<(string, seq<string>)> := [
    ("TLC", ["tlc", "wbc", "white blood cells", "whitebloodcells", "w.b.c"]),
    ("PCV", ["pcv", "hct", "hematocrit"]),
    ("RBC", ["rbc", "red blood cells", "redbloodcells"]),
    ("HGB", ["hgb", "hb", "hemoglobin", "haemoglobin"]),
    ("MCV", ["mcv"]),
    ("MCH", ["mch"]),
    ("MCHC", ["mchc"]),
    ("PLT", ["plt", "platelets", "platelet", "platelet count"]),
    ("RDW", ["rdw", "rdw-cv", "rdw_cv", "rdwcv", "rdw_sd", "rdwsd"]),
    ("Age", ["age", "years", "age (y)"]),
    ("Sex", ["sex", "gender", "m/f", "male/female"]),
    ("ID", ["id", "sample id", "sampleid", "record id", "patient id", "no"])
  ]

  // ---------------------------------------------------------------------
  // The normalised alias table and its disjointness.

  /** What Norm makes of each spelling in Aliases. */
  const NormalizedAliases: seq<seq<string>> := [
    ["tlc", "wbc", "whitebloodcells", "whitebloodcells", "wbc"],
    ["pcv", "hct", "hematocrit"],
    ["rbc", "redbloodcells", "redbloodcells"],
    ["hgb", "hb", "hemoglobin", "haemoglobin"],
    ["mcv"],
    ["mch"],
    ["mchc"],
    ["plt", "platelets", "platelet", "plateletcount"],
    ["rdw", "rdwcv", "rdwcv", "rdwcv", "rdwsd", "rdwsd"],
    ["age", "years", "age(y)"],
    ["sex", "gender", "m/f", "male/female"],
    ["id", "sampleid", "sampleid", "recordid", "patientid", "no"]
  ]

  // Norm applied to the spellings of each entry of Aliases.

  lemma NormalizedEntryTLC()
    ensures |NormalizedAliases[0]| == |Aliases[0].1|
    ensures forall w :: 0 <= w < |Aliases[0].1| ==> Norm(Aliases[0].1[w]) == NormalizedAliases[0][w]
  {
    forall w | 0 <= w < |Aliases[0].1| ensures Norm(Aliases[0].1[w]) == NormalizedAliases[0][w] {
      var v, n := Aliases[0].1[w], NormalizedAliases[0][w];
      if w == 0 { NormOfPlain(v, n); }
      else if w == 1 { NormOfPlain(v, n); }
      else if w == 2 { NormOfTwoSeparators(v, n, "white", ' ', "blood", ' ', "cells"); }
      else if w == 3 { NormOfPlain(v, n); }
      else { NormOfTwoSeparators(v, n, "w", '.', "b", '.', "c"); }
    }
  }

  lemma NormalizedEntryPCV()
    ensures |NormalizedAliases[1]| == |Aliases[1].1|
    ensures forall w :: 0 <= w < |Aliases[1].1| ==> Norm(Aliases[1].1[w]) == NormalizedAliases[1][w]
  {
    forall w | 0 <= w < |Aliases[1].1| ensures Norm(Aliases[1].1[w]) == NormalizedAliases[1][w] {
      var v, n := Aliases[1].1[w], NormalizedAliases[1][w];
      if w == 0 { NormOfPlain(v, n); }
      else if w == 1 { NormOfPlain(v, n); }
      else { NormOfPlain(v, n); }
    }
  }

  lemma NormalizedEntryRBC()
    ensures |NormalizedAliases[2]| == |Aliases[2].1|
    ensures forall w :: 0 <= w < |Aliases[2].1| ==> Norm(Aliases[2].1[w]) == NormalizedAliases[2][w]
  {
    forall w | 0 <= w < |Aliases[2].1| ensures Norm(Aliases[2].1[w]) == NormalizedAliases[2][w] {
      var v, n := Aliases[2].1[w], NormalizedAliases[2][w];
      if w == 0 { NormOfPlain(v, n); }
      else if w == 1 { NormOfTwoSeparators(v, n, "red", ' ', "blood", ' ', "cells"); }
      else { NormOfPlain(v, n); }
    }
  }

  lemma NormalizedEntryHGB()
    ensures |NormalizedAliases[3]| == |Aliases[3].1|
    ensures forall w :: 0 <= w < |Aliases[3].1| ==> Norm(Aliases[3].1[w]) == NormalizedAliases[3][w]
  {
    forall w | 0 <= w < |Aliases[3].1| ensures Norm(Aliases[3].1[w]) == NormalizedAliases[3][w] {
      var v, n := Aliases[3].1[w], NormalizedAliases[3][w];
      if w == 0 { NormOfPlain(v, n); }
      else if w == 1 { NormOfPlain(v, n); }
      else if w == 2 { NormOfPlain(v, n); }
      else { NormOfPlain(v, n); }
    }
  }

  lemma NormalizedEntryMCV()
    ensures |NormalizedAliases[4]| == |Aliases[4].1|
    ensures forall w :: 0 <= w < |Aliases[4].1| ==> Norm(Aliases[4].1[w]) == NormalizedAliases[4][w]
  {
    forall w | 0 <= w < |Aliases[4].1| ensures Norm(Aliases[4].1[w]) == NormalizedAliases[4][w] {
      var v, n := Aliases[4].1[w], NormalizedAliases[4][w];
      NormOfPlain(v, n);
    }
  }

  lemma NormalizedEntryMCH()
    ensures |NormalizedAliases[5]| == |Aliases[5].1|
    ensures forall w :: 0 <= w < |Aliases[5].1| ==> Norm(Aliases[5].1[w]) == NormalizedAliases[5][w]
  {
    forall w | 0 <= w < |Aliases[5].1| ensures Norm(Aliases[5].1[w]) == NormalizedAliases[5][w] {
      var v, n := Aliases[5].1[w], NormalizedAliases[5][w];
      NormOfPlain(v, n);
    }
  }

  lemma NormalizedEntryMCHC()
    ensures |NormalizedAliases[6]| == |Aliases[6].1|
    ensures forall w :: 0 <= w < |Aliases[6].1| ==> Norm(Aliases[6].1[w]) == NormalizedAliases[6][w]
  {
    forall w | 0 <= w < |Aliases[6].1| ensures Norm(Aliases[6].1[w]) == NormalizedAliases[6][w] {
      var v, n := Aliases[6].1[w], NormalizedAliases[6][w];
      NormOfPlain(v, n);
    }
  }

  lemma NormalizedEntryPLT()
    ensures |NormalizedAliases[7]| == |Aliases[7].1|
    ensures forall w :: 0 <= w < |Aliases[7].1| ==> Norm(Aliases[7].1[w]) == NormalizedAliases[7][w]
  {
    forall w | 0 <= w < |Aliases[7].1| ensures Norm(Aliases[7].1[w]) == NormalizedAliases[7][w] {
      var v, n := Aliases[7].1[w], NormalizedAliases[7][w];
      if w == 0 { NormOfPlain(v, n); }
      else if w == 1 { NormOfPlain(v, n); }
      else if w == 2 { NormOfPlain(v, n); }
      else { NormOfOneSeparator(v, n, "platelet", ' ', "count"); }
    }
  }

  lemma NormalizedEntryRDW()
    ensures |NormalizedAliases[8]| == |Aliases[8].1|
    ensures forall w :: 0 <= w < |Aliases[8].1| ==> Norm(Aliases[8].1[w]) == NormalizedAliases[8][w]
  {
    forall w | 0 <= w < |Aliases[8].1| ensures Norm(Aliases[8].1[w]) == NormalizedAliases[8][w] {
      var v, n := Aliases[8].1[w], NormalizedAliases[8][w];
      if w == 0 { NormOfPlain(v, n); }
      else if w == 1 { NormOfOneSeparator(v, n, "rdw", '-', "cv"); }
      else if w == 2 { NormOfOneSeparator(v, n, "rdw", '_', "cv"); }
      else if w == 3 { NormOfPlain(v, n); }
      else if w == 4 { NormOfOneSeparator(v, n, "rdw", '_', "sd"); }
      else { NormOfPlain(v, n); }
    }
  }

  lemma NormalizedEntryAge()
    ensures |NormalizedAliases[9]| == |Aliases[9].1|
    ensures forall w :: 0 <= w < |Aliases[9].1| ==> Norm(Aliases[9].1[w]) == NormalizedAliases[9][w]
  {
    forall w | 0 <= w < |Aliases[9].1| ensures Norm(Aliases[9].1[w]) == NormalizedAliases[9][w] {
      var v, n := Aliases[9].1[w], NormalizedAliases[9][w];
      if w == 0 { NormOfPlain(v, n); }
      else if w == 1 { NormOfPlain(v, n); }
      else { NormOfOneSeparator(v, n, "age", ' ', "(y)"); }
    }
  }

  lemma NormalizedEntrySex()
    ensures |NormalizedAliases[10]| == |Aliases[10].1|
    ensures forall w :: 0 <= w < |Aliases[10].1| ==> Norm(Aliases[10].1[w]) == NormalizedAliases[10][w]
  {
    forall w | 0 <= w < |Aliases[10].1| ensures Norm(Aliases[10].1[w]) == NormalizedAliases[10][w] {
      var v, n := Aliases[10].1[w], NormalizedAliases[10][w];
      if w == 0 { NormOfPlain(v, n); }
      else if w == 1 { NormOfPlain(v, n); }
      else if w == 2 { NormOfPlain(v, n); }
      else { NormOfPlain(v, n); }
    }
  }

  lemma NormalizedEntryID()
    ensures |NormalizedAliases[11]| == |Aliases[11].1|
    ensures forall w :: 0 <= w < |Aliases[11].1| ==> Norm(Aliases[11].1[w]) == NormalizedAliases[11][w]
  {
    forall w | 0 <= w < |Aliases[11].1| ensures Norm(Aliases[11].1[w]) == NormalizedAliases[11][w] {
      var v, n := Aliases[11].1[w], NormalizedAliases[11][w];
      if w == 0 { NormOfPlain(v, n); }
      else if w == 1 { NormOfOneSeparator(v, n, "sample", ' ', "id"); }
      else if w == 2 { NormOfPlain(v, n); }
      else if w == 3 { NormOfOneSeparator(v, n, "record", ' ', "id"); }
      else if w == 4 { NormOfOneSeparator(v, n, "patient", ' ', "id"); }
      else { NormOfPlain(v, n); }
    }
  }

  /** NormalizedAliases is exactly Norm applied to every spelling of Aliases. */
  lemma NormalizedAliasesCorrect()
    ensures |NormalizedAliases| == |Aliases|
    ensures forall i, w :: 0 <= i < |Aliases| && 0 <= w < |Aliases[i].1| ==>
              |NormalizedAliases[i]| == |Aliases[i].1| && Norm(Aliases[i].1[w]) == NormalizedAliases[i][w]
  {
    forall i | 0 <= i < |Aliases| ensures |NormalizedAliases[i]| == |Aliases[i].1|
      && forall w :: 0 <= w < |Aliases[i].1| ==> Norm(Aliases[i].1[w]) == NormalizedAliases[i][w]
    {
      if i == 0 { NormalizedEntryTLC();
      } else if i == 1 { NormalizedEntryPCV();
      } else if i == 2 { NormalizedEntryRBC();
      } else if i == 3 { NormalizedEntryHGB();
      } else if i == 4 { NormalizedEntryMCV();
      } else if i == 5 { NormalizedEntryMCH();
      } else if i == 6 { NormalizedEntryMCHC();
      } else if i == 7 { NormalizedEntryPLT();
      } else if i == 8 { NormalizedEntryRDW();
      } else if i == 9 { NormalizedEntryAge();
      } else if i == 10 { NormalizedEntrySex();
      } else { NormalizedEntryID(); }
    }
  }

  /** The canonical names of Aliases are pairwise distinct. */
  lemma CanonicalNamesDistinct()
    ensures forall i, j :: 0 <= i < j < |Aliases| ==> Aliases[i].0 != Aliases[j].0
  {
  }

  lemma NormalizedAliasesDisjoint()
    ensures forall i, j, a, b ::
              (0 <= i < j < |NormalizedAliases| && 0 <= a < |NormalizedAliases[i]| && 0 <= b < |NormalizedAliases[j]|)
              ==> NormalizedAliases[i][a] != NormalizedAliases[j][b]
  {
  }

  /** After Norm, the spellings of two different canonical names never coincide. */
  lemma AliasesDisjoint()
    ensures forall i, j, a, b ::
              (0 <= i < |Aliases| && 0 <= j < |Aliases| && i != j && 0 <= a < |Aliases[i].1| && 0 <= b < |Aliases[j].1|)
              ==> Norm(Aliases[i].1[a]) != Norm(Aliases[j].1[b])
  {
    NormalizedAliasesCorrect();
    NormalizedAliasesDisjoint();
    forall i, j, a, b | 0 <= i < |Aliases| && 0 <= j < |Aliases| && i != j
      && 0 <= a < |Aliases[i].1| && 0 <= b < |Aliases[j].1|
      ensures Norm(Aliases[i].1[a]) != Norm(Aliases[j].1[b])
    {
      if i < j {
        assert NormalizedAliases[i][a] != NormalizedAliases[j][b];
      } else {
        assert NormalizedAliases[j][b] != NormalizedAliases[i][a];
      }
    }
  }

  // ---------------------------------------------------------------------
  // build_rename_map over this table.

  lemma AliasesWellFormed()
    ensures CanonicalDistinct(Aliases) && NormDisjoint(Aliases, Norm)
  {
    CanonicalNamesDistinct();
    AliasesDisjoint();
  }

  /** build_rename_map as the source calls it: over Aliases, with Norm. */
  function RenameMap(cols: seq<string>): map<string, string> {
    RenameUpTo(Aliases, Norm, cols, |Aliases|)
  }

  /** The properties above for the map build_rename_map returns. */
  lemma RenameMapProperties(cols: seq<string>)
    ensures var m := RenameMap(cols);
      && KeysAreAliases(Aliases, Norm, cols, m)
      && Injective(m)
  {
    AliasesWellFormed();
    RenameKeysAreAliases(Aliases, Norm, cols, |Aliases|);
    RenameInjective(Aliases, Norm, cols, |Aliases|);
  }

  /** An upper-case canonical name normalises like its first spelling, its lower-case form. */
  lemma UpperCanonicalName(e: nat, name: string, lower: string)
    requires e < |Aliases| && |Aliases[e].1| > 0 && name == Aliases[e].0 && lower == Aliases[e].1[0]
    requires |name| == |lower| > 0 && Plain(lower)
    requires forall i :: 0 <= i < |name| ==> 'A' <= name[i] <= 'Z' && lower[i] == LowerChar(name[i])
    ensures Norm(Aliases[e].0) == Norm(Aliases[e].1[0])
  {
    NormOfUpper(name, lower);
    NormOfPlain(lower, lower);
  }

  lemma SpellingsDiffer(i: nat, a: nat, j: nat, b: nat)
    requires i < |Aliases| && j < |Aliases| && i != j && a < |Aliases[i].1| && b < |Aliases[j].1|
    ensures Norm(Aliases[i].1[a]) != Norm(Aliases[j].1[b])
  {
    AliasesDisjoint();
  }

  /** A column already labelled with a canonical name that normalises like one
      of its spellings is renamed to that same name, if at all. */
  lemma RenameKeepsCanonical(cols: seq<string>, e: nat, a: nat)
    requires e < |Aliases| && a < |Aliases[e].1| && Norm(Aliases[e].0) == Norm(Aliases[e].1[a])
    ensures Aliases[e].0 in RenameMap(cols) ==> RenameMap(cols)[Aliases[e].0] == Aliases[e].0
  {
    var m := RenameMap(cols);
    var name := Aliases[e].0;
    if name in m {
      RenameMapProperties(cols);
      assert IsAliasIn(Aliases, Norm, name, m[name]);
      var e', b :| 0 <= e' < |Aliases| && 0 <= b < |Aliases[e'].1| && Aliases[e'].0 == m[name]
                   && Norm(name) == Norm(Aliases[e'].1[b]);
      if e' != e {
        SpellingsDiffer(e, a, e', b);
      }
    }
  }

  /** In the map build_rename_map returns, each canonical name goes to the first
      column matching its earliest matching spelling, or is absent when none of
      its spellings matches a column. */
  lemma RenameMapChoosesFirstMatch(cols: seq<string>, e: nat)
    requires e < |Aliases|
    ensures var m := RenameMap(cols);
      match FirstMatchFrom(Norm, cols, Aliases[e].1, 0)
      case Some(p) =>
        && cols[p.1] in m && m[cols[p.1]] == Aliases[e].0
        && (forall j :: 0 <= j < p.1 ==> Norm(cols[j]) != Norm(Aliases[e].1[p.0]))
        && (forall b, j :: 0 <= b < p.0 && 0 <= j < |cols| ==> Norm(cols[j]) != Norm(Aliases[e].1[b]))
      case None => Aliases[e].0 !in m.Values
  {
    AliasesWellFormed();
    RenameChoosesFirstMatch(Aliases, Norm, cols, e);
  }

  /** build_rename_map(df_columns). */
  method BuildAliasRenameMap(columns: seq<string>) returns (m: map<string, string>)
    ensures m == RenameMap(columns)
    ensures KeysAreAliases(Aliases, Norm, columns, m)
    ensures Injective(m)
  {
    AliasesWellFormed();
    m := BuildRenameMap(Aliases, Norm, columns);
    RenameMapProperties(columns);
  }
}
