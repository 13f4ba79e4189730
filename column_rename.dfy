/**
 * build_rename_map of app/ai/cbc/predict.py, over any alias table and any
 * normaliser: the table is a list of (canonical name, spellings) entries, and
 * an input column is renamed to the canonical name of the first entry, and
 * the first spelling of that entry, its normalised label matches.
 */
module ColumnRename {
  import opened Wrappers

  type AliasTable = seq<(string, seq<string>)>

  /** The canonical names of a table are pairwise distinct. */
  predicate CanonicalDistinct(t: AliasTable) {
    forall i, j :: 0 <= i < j < |t| ==> t[i].0 != t[j].0
  }

  /** Under norm, the spellings of two different entries of a table never coincide. */
  predicate NormDisjoint(t: AliasTable, norm: string -> string) {
    forall i, j, a, b ::
      (0 <= i < |t| && 0 <= j < |t| && i != j && 0 <= a < |t[i].1| && 0 <= b < |t[j].1|)
      ==> norm(t[i].1[a]) != norm(t[j].1[b])
  }

  /** col is, under norm, one of the spellings t lists for the canonical name std. */
  predicate IsAliasIn(t: AliasTable, norm: string -> string, col: string, std: string) {
    exists e, a :: 0 <= e < |t| && 0 <= a < |t[e].1| && t[e].0 == std && norm(col) == norm(t[e].1[a])
  }

  /** The first column at or after k whose normalised label is key. */
  function FirstColumnFrom(norm: string -> string, cols: seq<string>, key: string, k: nat): (r: Option<nat>)
    requires k <= |cols|
    ensures r.Some? ==> k <= r.value < |cols|
    decreases |cols| - k
  {
    if k == |cols| then None
    else if norm(cols[k]) == key then Some(k)
    else FirstColumnFrom(norm, cols, key, k + 1)
  }

  /** FirstColumnFrom finds the earliest matching column, and finds none exactly
      when no column from k on matches. */
  lemma {:induction false} FirstColumnFromCorrect(norm: string -> string, cols: seq<string>, key: string, k: nat)
    requires k <= |cols|
    ensures var r := FirstColumnFrom(norm, cols, key, k);
      && (r.Some? ==> norm(cols[r.value]) == key && forall j :: k <= j < r.value ==> norm(cols[j]) != key)
      && (r.None? <==> forall j :: k <= j < |cols| ==> norm(cols[j]) != key)
    decreases |cols| - k
  {
    if k < |cols| && norm(cols[k]) != key {
      FirstColumnFromCorrect(norm, cols, key, k + 1);
    }
  }

  /** The first column, in input order, whose normalised label is key. */
  function FirstColumn(norm: string -> string, cols: seq<string>, key: string): (r: Option<nat>)
    ensures r.Some? ==> r.value < |cols|
  {
    FirstColumnFrom(norm, cols, key, 0)
  }

  /** The earliest variant at or after w that matches some column, paired with
      the first column it matches. */
  function FirstMatchFrom(norm: string -> string, cols: seq<string>, variants: seq<string>, w: nat): (r: Option<(nat, nat)>)
    requires w <= |variants|
    ensures r.Some? ==> w <= r.value.0 < |variants| && r.value.1 < |cols|
    decreases |variants| - w
  {
    if w == |variants| then None
    else match FirstColumn(norm, cols, norm(variants[w]))
      case Some(j) => Some((w, j))
      case None => FirstMatchFrom(norm, cols, variants, w + 1)
  }

  /** FirstMatchFrom picks the earliest variant that matches some column, together
      with the first column that variant matches; it picks none exactly when no
      variant from w on matches any column. */
  lemma {:induction false} FirstMatchFromCorrect(norm: string -> string, cols: seq<string>, variants: seq<string>, w: nat)
    requires w <= |variants|
    ensures var r := FirstMatchFrom(norm, cols, variants, w);
      && (r.Some? ==> FirstColumn(norm, cols, norm(variants[r.value.0])) == Some(r.value.1)
                      && forall b :: w <= b < r.value.0 ==> FirstColumn(norm, cols, norm(variants[b])).None?)
      && (r.None? <==> forall b :: w <= b < |variants| ==> FirstColumn(norm, cols, norm(variants[b])).None?)
    decreases |variants| - w
  {
    if w < |variants| && FirstColumn(norm, cols, norm(variants[w])).None? {
      FirstMatchFromCorrect(norm, cols, variants, w + 1);
    }
  }

  /** The rename map after the first n entries of t have been processed. */
  function RenameUpTo(t: AliasTable, norm: string -> string, cols: seq<string>, n: nat): map<string, string>
    requires n <= |t|
  {
    if n == 0 then map[]
    else RenameNext(t, norm, cols, n - 1, RenameUpTo(t, norm, cols, n - 1))
  }

  /** One step of RenameUpTo, with the map of the earlier steps given. */
  function RenameNext(t: AliasTable, norm: string -> string, cols: seq<string>, n: nat, m: map<string, string>): map<string, string>
    requires n < |t|
  {
    match FirstMatchFrom(norm, cols, t[n].1, 0)
    case Some(p) => m[cols[p.1] := t[n].0]
    case None => m
  }

  lemma RenameStep(t: AliasTable, norm: string -> string, cols: seq<string>, n: nat)
    requires n < |t|
    ensures RenameUpTo(t, norm, cols, n + 1) == RenameNext(t, norm, cols, n, RenameUpTo(t, norm, cols, n))
  {
  }

  /** The canonical names of the first n entries of t. */
  function CanonicalPrefix(t: AliasTable, n: nat): (r: set<string>)
    requires n <= |t|
    ensures forall e :: 0 <= e < n ==> t[e].0 in r
    ensures forall x :: x in r ==> exists e :: 0 <= e < n && t[e].0 == x
  {
    set e | 0 <= e < n :: t[e].0
  }

  /** Every value of m lies among the first n canonical names of t. */
  predicate ValuesWithin(t: AliasTable, m: map<string, string>, n: nat)
    requires n <= |t|
  {
    forall k :: k in m ==> m[k] in CanonicalPrefix(t, n)
  }

  lemma ValuesWithinStep(t: AliasTable, m: map<string, string>, n: nat, k: string)
    requires n < |t| && ValuesWithin(t, m, n)
    ensures ValuesWithin(t, m, n + 1)
    ensures ValuesWithin(t, m[k := t[n].0], n + 1)
  {
  }

  lemma FreshCanonical(t: AliasTable, m: map<string, string>, n: nat)
    requires n < |t| && CanonicalDistinct(t) && ValuesWithin(t, m, n)
    ensures t[n].0 !in m.Values
  {
  }

  lemma {:induction false} RenameValuesWithin(t: AliasTable, norm: string -> string, cols: seq<string>, n: nat)
    requires n <= |t|
    ensures ValuesWithin(t, RenameUpTo(t, norm, cols, n), n)
  {
    if n > 0 {
      RenameValuesWithin(t, norm, cols, n - 1);
      ValuesWithinStep(t, RenameUpTo(t, norm, cols, n - 1), n - 1, "");
      match FirstMatchFrom(norm, cols, t[n - 1].1, 0)
      case Some(p) =>
        ValuesWithinStep(t, RenameUpTo(t, norm, cols, n - 1), n - 1, cols[p.1]);
      case None =>
    }
  }

  /** Before entry n is processed, its canonical name is not yet a value. */
  lemma RenameFresh(t: AliasTable, norm: string -> string, cols: seq<string>, n: nat)
    requires n < |t| && CanonicalDistinct(t)
    ensures t[n].0 !in RenameUpTo(t, norm, cols, n).Values
  {
    RenameValuesWithin(t, norm, cols, n);
    FreshCanonical(t, RenameUpTo(t, norm, cols, n), n);
  }

  // ---------------------------------------------------------------------
  // build_rename_map: the loop.

  /** The scan over the input columns for one variant key: the first column whose
      normalised label equals the key. */
  method FindColumn(norm: string -> string, columns: seq<string>, key: string) returns (r: Option<nat>)
    ensures r == FirstColumn(norm, columns, key)
  {
    var c := 0;
    while c < |columns|
      invariant c <= |columns|
      invariant FirstColumn(norm, columns, key) == FirstColumnFrom(norm, columns, key, c)
    {
      if norm(columns[c]) == key {
        return Some(c);
      }
      c := c + 1;
    }
    return None;
  }

  /** Entry n of the table: try its variants in order, and map the first column
      matching a variant to the entry's canonical name; stop as soon as that name
      is a value of the map. */
  method AssignCanonical(t: AliasTable, norm: string -> string, columns: seq<string>, n: nat,
                         m0: map<string, string>) returns (m: map<string, string>)
    requires n < |t| && t[n].0 !in m0.Values
    ensures m == RenameNext(t, norm, columns, n, m0)
  {
    var std, variants := t[n].0, t[n].1;
    m := m0;
    var w := 0;
    while w < |variants|
      invariant w <= |variants|
      invariant FirstMatchFrom(norm, columns, variants, 0) == FirstMatchFrom(norm, columns, variants, w)
      invariant m == m0
    {
      var col := FindColumn(norm, columns, norm(variants[w]));
      if col.Some? {
        m := m[columns[col.value] := std];
        assert columns[col.value] in m && m[columns[col.value]] == std;
      }
      if std in m.Values {
        break;
      }
      w := w + 1;
    }
  }

  /** Builds the map from input column labels to canonical names, visiting the
      entries of t, then their variants, then the columns, in order; a canonical
      name stops its search as soon as it has been assigned. */
  method BuildRenameMap(t: AliasTable, norm: string -> string, columns: seq<string>) returns (m: map<string, string>)
    requires CanonicalDistinct(t)
    ensures m == RenameUpTo(t, norm, columns, |t|)
  {
    m := map[];
    var n := 0;
    while n < |t|
      invariant n <= |t|
      invariant m == RenameUpTo(t, norm, columns, n)
    {
      RenameFresh(t, norm, columns, n);
      RenameStep(t, norm, columns, n);
      m := AssignCanonical(t, norm, columns, n, m);
      n := n + 1;
    }
  }

  // ---------------------------------------------------------------------
  // build_rename_map: what the map promises.

  /** Every key of m is one of cols, and its normalised label is a spelling,
      in t, of the canonical name it maps to. */
  predicate KeysAreAliases(t: AliasTable, norm: string -> string, cols: seq<string>, m: map<string, string>) {
    forall k :: k in m ==> k in cols && IsAliasIn(t, norm, k, m[k])
  }

  /** Every key of the map is an input column whose normalised label is a spelling
      of the canonical name it maps to; so a column matching no spelling is absent. */
  lemma {:induction false} RenameKeysAreAliases(t: AliasTable, norm: string -> string, cols: seq<string>, n: nat)
    requires n <= |t|
    ensures KeysAreAliases(t, norm, cols, RenameUpTo(t, norm, cols, n))
  {
    if n > 0 {
      RenameKeysAreAliases(t, norm, cols, n - 1);
      var prev := RenameUpTo(t, norm, cols, n - 1);
      var variants := t[n - 1].1;
      match FirstMatchFrom(norm, cols, variants, 0)
      case Some(p) =>
        FirstMatchFromCorrect(norm, cols, variants, 0);
        FirstColumnFromCorrect(norm, cols, norm(variants[p.0]), 0);
        var m := prev[cols[p.1] := t[n - 1].0];
        assert IsAliasIn(t, norm, cols[p.1], t[n - 1].0) by {
          assert norm(cols[p.1]) == norm(t[n - 1].1[p.0]);
        }
        assert KeysAreAliases(t, norm, cols, m);
      case None =>
    }
  }

  /** No two keys of m share a value. */
  predicate Injective(m: map<string, string>) {
    forall k1, k2 :: k1 in m && k2 in m && k1 != k2 ==> m[k1] != m[k2]
  }

  /** Storing a value that no key holds yet keeps a map injective. */
  lemma MapUpdateInjective(m: map<string, string>, k: string, v: string)
    requires v !in m.Values && Injective(m)
    ensures Injective(m[k := v])
  {
    var m' := m[k := v];
    forall k1, k2 | k1 in m' && k2 in m' && k1 != k2 ensures m'[k1] != m'[k2] {
      if k1 != k && k2 != k {
      } else if k1 == k {
        assert m'[k2] == m[k2] && m[k2] in m.Values;
      } else {
        assert m'[k1] == m[k1] && m[k1] in m.Values;
      }
    }
  }

  /** No two columns are renamed to the same canonical name. */
  lemma {:induction false} RenameInjective(t: AliasTable, norm: string -> string, cols: seq<string>, n: nat)
    requires n <= |t| && CanonicalDistinct(t)
    ensures Injective(RenameUpTo(t, norm, cols, n))
  {
    if n > 0 {
      RenameInjective(t, norm, cols, n - 1);
      RenameFresh(t, norm, cols, n - 1);
      var prev := RenameUpTo(t, norm, cols, n - 1);
      match FirstMatchFrom(norm, cols, t[n - 1].1, 0)
      case None =>
      case Some(p) => MapUpdateInjective(prev, cols[p.1], t[n - 1].0);
    }
  }

  /** Once entry e has been processed, its outcome survives every later entry:
      the column it chose keeps its canonical name, and if it chose none its
      canonical name never appears. */
  lemma {:induction false} RenameKeepsEntry(t: AliasTable, norm: string -> string, cols: seq<string>, e: nat, n: nat)
    requires e < n <= |t| && CanonicalDistinct(t) && NormDisjoint(t, norm)
    ensures var m := RenameUpTo(t, norm, cols, n);
      match FirstMatchFrom(norm, cols, t[e].1, 0)
      case Some(p) => cols[p.1] in m && m[cols[p.1]] == t[e].0
      case None => t[e].0 !in m.Values
  {
    if n == e + 1 {
      RenameValuesWithin(t, norm, cols, e);
      FreshCanonical(t, RenameUpTo(t, norm, cols, e), e);
    } else {
      RenameKeepsEntry(t, norm, cols, e, n - 1);
      var prev := RenameUpTo(t, norm, cols, n - 1);
      match FirstMatchFrom(norm, cols, t[n - 1].1, 0)
      case None =>
      case Some(q) =>
        assert t[n - 1].0 != t[e].0;
        match FirstMatchFrom(norm, cols, t[e].1, 0)
        case None =>
        case Some(p) =>
          FirstMatchFromCorrect(norm, cols, t[e].1, 0);
          FirstColumnFromCorrect(norm, cols, norm(t[e].1[p.0]), 0);
          FirstMatchFromCorrect(norm, cols, t[n - 1].1, 0);
          FirstColumnFromCorrect(norm, cols, norm(t[n - 1].1[q.0]), 0);
          if cols[q.1] == cols[p.1] {
            assert false;
          }
    }
  }

  /** The column each canonical name receives is the first column, in input
      order, that matches the earliest-listed variant matching any column; a
      canonical name none of whose variants matches is not used. */
  lemma RenameChoosesFirstMatch(t: AliasTable, norm: string -> string, cols: seq<string>, e: nat)
    requires e < |t| && CanonicalDistinct(t) && NormDisjoint(t, norm)
    ensures var m := RenameUpTo(t, norm, cols, |t|);
      match FirstMatchFrom(norm, cols, t[e].1, 0)
      case Some(p) =>
        && cols[p.1] in m && m[cols[p.1]] == t[e].0
        && norm(cols[p.1]) == norm(t[e].1[p.0])
        && (forall j :: 0 <= j < p.1 ==> norm(cols[j]) != norm(t[e].1[p.0]))
        && (forall b, j :: 0 <= b < p.0 && 0 <= j < |cols| ==> norm(cols[j]) != norm(t[e].1[b]))
      case None =>
        && t[e].0 !in m.Values
        && forall b, j :: 0 <= b < |t[e].1| && 0 <= j < |cols| ==> norm(cols[j]) != norm(t[e].1[b])
  {
    RenameKeepsEntry(t, norm, cols, e, |t|);
    var variants := t[e].1;
    FirstMatchFromCorrect(norm, cols, variants, 0);
    forall b | 0 <= b < |variants| {
      FirstColumnFromCorrect(norm, cols, norm(variants[b]), 0);
    }
  }
}
