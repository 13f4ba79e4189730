/**
 * The column-label normaliser of the CBC pipeline (norm in
 * app/ai/cbc/predict.py), and the facts about it that the alias table needs:
 * what it keeps, and what it makes of lower-case spellings with separators.
 */
module CbcNorm {
  import opened Text

  /** The characters norm deletes after stripping and lower-casing. */
  const Deleted: set<char> := {' ', '.', '-', '_'}

  /** norm: strip, lower-case, then delete every ' ', '.', '-' and '_'. */
  function Norm(s: string): (r: string)
    ensures |r| <= |s|
  {
    DeleteChars(Lower(Strip(s)), Deleted)
  }

  /** Unicode white space around a label is stripped like ASCII white space. */
  lemma NormOfPaddedLabel()
    ensures Norm("\U{3000}HGB\U{2003}") == "hgb"
  {
    var padded := "\U{3000}HGB\U{2003}";
    assert IsSpace(padded[0]) && padded[1..] == "HGB\U{2003}";
    assert TrimStart("HGB\U{2003}") == "HGB\U{2003}";
    var rest := "HGB\U{2003}";
    assert IsSpace(rest[3]) && rest[..3] == "HGB";
    assert TrimEnd("HGB") == "HGB";
    assert Strip(padded) == "HGB";
    assert Lower("HGB") == "hgb";
  }

  /** The result of Norm holds none of the deleted characters and no upper-case letter. */
  lemma NormChars(s: string)
    ensures forall c :: c in Norm(s) ==> c !in Deleted && !('A' <= c <= 'Z')
  {
    var l := Lower(Strip(s));
    LowerAt(Strip(s));
    DeleteCharsMembers(l, Deleted);
    forall c | c in Norm(s) ensures c !in Deleted && !('A' <= c <= 'Z') {
      var i :| 0 <= i < |l| && l[i] == c;
    }
  }

  lemma {:induction false} DeleteCharsConcat(a: string, b: string, bad: set<char>)
    ensures DeleteChars(a + b, bad) == DeleteChars(a, bad) + DeleteChars(b, bad)
  {
    if a == [] {
      assert a + b == b;
    } else {
      assert (a + b)[0] == a[0];
      assert (a + b)[1..] == a[1..] + b;
      DeleteCharsConcat(a[1..], b, bad);
    }
  }

  lemma {:induction false} DeleteCharsNone(s: string, bad: set<char>)
    requires forall c :: c in s ==> c !in bad
    ensures DeleteChars(s, bad) == s
  {
    if s != [] {
      assert s == [s[0]] + s[1..];
      DeleteCharsNone(s[1..], bad);
    }
  }

  /** A spelling already in lower case, with no surrounding whitespace, normalises
      to itself with the deleted characters taken out. */
  lemma NormOfLowerSpelling(s: string)
    requires s != [] && !IsSpace(s[0]) && !IsSpace(s[|s| - 1])
    requires forall i :: 0 <= i < |s| ==> !('A' <= s[i] <= 'Z')
    ensures Norm(s) == DeleteChars(s, Deleted)
  {
    assert TrimStart(s) == s;
    assert TrimEnd(s) == s;
    assert Strip(s) == s;
    LowerAt(s);
    assert Lower(s) == s;
  }

  /** DeleteChars drops a deleted separator between two pieces. */
  lemma DeleteAcross(a: string, sep: char, b: string)
    requires sep in Deleted
    ensures DeleteChars(a + [sep] + b, Deleted) == DeleteChars(a, Deleted) + DeleteChars(b, Deleted)
  {
    DeleteCharsConcat(a + [sep], b, Deleted);
    DeleteCharsConcat(a, [sep], Deleted);
  }

  /** A plain spelling: lower-case letters and the few punctuation marks the
      alias table uses, none of them whitespace, upper case or deleted. */
  predicate Plain(s: string) {
    forall i :: 0 <= i < |s| ==> 'a' <= s[i] <= 'z' || s[i] == '/' || s[i] == '(' || s[i] == ')'
  }

  lemma PlainChars(s: string)
    requires Plain(s)
    ensures forall c :: c in s ==> c !in Deleted && !IsSpace(c) && !('A' <= c <= 'Z')
  {
    forall c | c in s ensures c !in Deleted && !IsSpace(c) && !('A' <= c <= 'Z') {
      var i :| 0 <= i < |s| && s[i] == c;
    }
  }

  /** A plain spelling normalises to itself. */
  lemma NormOfPlain(v: string, n: string)
    requires v == n && v != [] && Plain(v)
    ensures Norm(v) == n
  {
    PlainChars(v);
    NormOfLowerSpelling(v);
    DeleteCharsNone(v, Deleted);
  }

  /** An upper-case label normalises to its lower-case form. */
  lemma NormOfUpper(v: string, n: string)
    requires |v| == |n| > 0 && Plain(n)
    requires forall i :: 0 <= i < |v| ==> 'A' <= v[i] <= 'Z' && n[i] == LowerChar(v[i])
    ensures Norm(v) == n
  {
    assert TrimStart(v) == v;
    assert TrimEnd(v) == v;
    LowerAt(v);
    assert Lower(v) == n;
    PlainChars(n);
    DeleteCharsNone(n, Deleted);
  }

  /** Two plain words joined by one deleted separator normalise to the words run together. */
  lemma NormOfOneSeparator(v: string, n: string, a: string, sep: char, b: string)
    requires v == a + [sep] + b && n == a + b
    requires a != [] && b != [] && Plain(a) && Plain(b) && sep in Deleted
    ensures Norm(v) == n
  {
    forall i | 0 <= i < |v| ensures !('A' <= v[i] <= 'Z') {
      if i < |a| { assert v[i] == a[i]; }
      else if i == |a| { assert v[i] == sep; }
      else { assert v[i] == b[i - |a| - 1]; }
    }
    assert v[|v| - 1] == b[|b| - 1];
    NormOfLowerSpelling(v);
    DeleteAcross(a, sep, b);
    PlainChars(a);
    PlainChars(b);
    DeleteCharsNone(a, Deleted);
    DeleteCharsNone(b, Deleted);
  }

  /** A plain spelling loses nothing to DeleteChars. */
  lemma DeletePlain(s: string)
    requires Plain(s)
    ensures DeleteChars(s, Deleted) == s
  {
    PlainChars(s);
    DeleteCharsNone(s, Deleted);
  }

  lemma DeleteTwoSeparators(a: string, sep1: char, b: string, sep2: char, c: string)
    requires Plain(a) && Plain(b) && Plain(c) && sep1 in Deleted && sep2 in Deleted
    ensures DeleteChars(a + [sep1] + (b + [sep2] + c), Deleted) == a + b + c
  {
    var tail := b + [sep2] + c;
    DeleteAcross(b, sep2, c);
    DeletePlain(b);
    DeletePlain(c);
    assert DeleteChars(tail, Deleted) == b + c;
    DeleteAcross(a, sep1, tail);
    DeletePlain(a);
    assert a + (b + c) == a + b + c;
  }

  /** Three plain words joined by two deleted separators normalise to the words run together. */
  lemma NormOfTwoSeparators(v: string, n: string, a: string, sep1: char, b: string, sep2: char, c: string)
    requires v == a + [sep1] + b + [sep2] + c && n == a + b + c
    requires a != [] && b != [] && c != [] && Plain(a) && Plain(b) && Plain(c)
    requires sep1 in Deleted && sep2 in Deleted
    ensures Norm(v) == n
  {
    assert v == a + [sep1] + (b + [sep2] + c);
    forall i | 0 <= i < |v| ensures !('A' <= v[i] <= 'Z') {
      if i < |a| { assert v[i] == a[i]; }
      else if i == |a| { assert v[i] == sep1; }
      else if i < |a| + 1 + |b| { assert v[i] == b[i - |a| - 1]; }
      else if i == |a| + 1 + |b| { assert v[i] == sep2; }
      else { assert v[i] == c[i - |a| - |b| - 2]; }
    }
    assert v[|v| - 1] == c[|c| - 1];
    NormOfLowerSpelling(v);
    DeleteTwoSeparators(a, sep1, b, sep2, c);
  }
}
