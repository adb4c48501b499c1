/** The engine folds the case of ASCII letters only, the host language of all
    letters: for which texts, and on which values, the two see the same matches. */
module CaseFolding {
  import opened Wildcards

  function Mapped(l: char -> char, s: string): (r: string)
    ensures |r| == |s| && forall i :: 0 <= i < |s| ==> r[i] == l(s[i])
  {
    seq(|s|, i requires 0 <= i < |s| => l(s[i]))
  }

  /** The two letters are equal to the engine exactly when they are in memory. */
  predicate Alike(l: char -> char, a: char, b: char) { AsciiLowerChar(a) == AsciiLowerChar(b) <==> l(a) == l(b) }

  /** Every letter of the text is like every letter of the value. */
  predicate AlikeIn(l: char -> char, t: string, v: string) {
    forall i, j :: 0 <= i < |t| && 0 <= j < |v| ==> Alike(l, t[i], v[j])
  }

  /** The two letters whose lower case is not one letter, or depends on others:
      I with a dot above, and capital sigma. */
  predicate PlainChar(c: char) { c != '\U{130}' && c != '\U{3A3}' }

  predicate Plain(s: string) { forall i :: 0 <= i < |s| ==> PlainChar(s[i]) }

  /** Every letter of the text is like every letter a plain value can hold. */
  ghost predicate FoldsEverywhere(l: char -> char, t: string) {
    forall i, c: char :: 0 <= i < |t| && PlainChar(c) ==> Alike(l, t[i], c)
  }

  lemma SameSlices(l: char -> char, t: string, v: string, i: nat)
    requires AlikeIn(l, t, v) && i + |t| <= |v|
    ensures AsciiLower(v)[i..i + |t|] == AsciiLower(t) <==> Mapped(l, v)[i..i + |t|] == Mapped(l, t)
  {
    var a, m := AsciiLower(v)[i..i + |t|], Mapped(l, v)[i..i + |t|];
    forall k | 0 <= k < |t|
      ensures a[k] == AsciiLower(t)[k] <==> m[k] == Mapped(l, t)[k]
    {
      assert Alike(l, t[k], v[i + k]);
      assert a[k] == AsciiLowerChar(v[i + k]) && m[k] == l(v[i + k]);
    }
    if a == AsciiLower(t) { assert forall k :: 0 <= k < |t| ==> m[k] == Mapped(l, t)[k]; }
    if m == Mapped(l, t) { assert forall k :: 0 <= k < |t| ==> a[k] == AsciiLower(t)[k]; }
  }

  lemma StartsAlike(l: char -> char, t: string, v: string, i: nat)
    requires AlikeIn(l, t, v) && i <= |v|
    ensures StartsWith(AsciiLower(v)[i..], AsciiLower(t)) <==> StartsWith(Mapped(l, v)[i..], Mapped(l, t))
  {
    if i + |t| <= |v| {
      SameSlices(l, t, v, i);
      assert AsciiLower(v)[i..][..|t|] == AsciiLower(v)[i..i + |t|] && Mapped(l, v)[i..][..|t|] == Mapped(l, v)[i..i + |t|];
    }
  }

  lemma ContainsAlike(l: char -> char, t: string, v: string)
    requires AlikeIn(l, t, v)
    ensures Contains(AsciiLower(v), AsciiLower(t)) <==> Contains(Mapped(l, v), Mapped(l, t))
  {
    if i :| 0 <= i <= |v| && StartsWith(AsciiLower(v)[i..], AsciiLower(t)) { StartsAlike(l, t, v, i); }
    if i :| 0 <= i <= |v| && StartsWith(Mapped(l, v)[i..], Mapped(l, t)) { StartsAlike(l, t, v, i); }
  }

  /** Where the letters are alike, all three ways of matching agree. */
  lemma MatchesAlike(l: char -> char, t: string, v: string)
    requires AlikeIn(l, t, v)
    ensures StartsWith(AsciiLower(v), AsciiLower(t)) <==> StartsWith(Mapped(l, v), Mapped(l, t))
    ensures EndsWith(AsciiLower(v), AsciiLower(t)) <==> EndsWith(Mapped(l, v), Mapped(l, t))
    ensures Contains(AsciiLower(v), AsciiLower(t)) <==> Contains(Mapped(l, v), Mapped(l, t))
  {
    if |t| <= |v| {
      SameSlices(l, t, v, 0);
      SameSlices(l, t, v, |v| - |t|);
    }
    ContainsAlike(l, t, v);
  }

  /** Two values of the same length match in any way exactly when they are equal. */
  lemma SameLength(s: string, t: string)
    requires |s| == |t|
    ensures StartsWith(s, t) <==> s == t
    ensures EndsWith(s, t) <==> s == t
    ensures Contains(s, t) <==> s == t
  {
    assert s[..|t|] == s && s[0..] == s;
    if i :| 0 <= i <= |s| && StartsWith(s[i..], t) { assert i == 0; }
    assert s == t ==> StartsWith(s[0..], t);
  }

  /** The text with one letter replaced tells the two foldings apart exactly when
      the letters are not alike. */
  lemma OneLetter(l: char -> char, t: string, i: nat, c: char)
    requires i < |t|
    ensures AsciiLower(t[i := c]) == AsciiLower(t) <==> AsciiLowerChar(c) == AsciiLowerChar(t[i])
    ensures Mapped(l, t[i := c]) == Mapped(l, t) <==> l(c) == l(t[i])
  {
    var v := t[i := c];
    assert AsciiLower(v)[i] == AsciiLowerChar(c) && Mapped(l, v)[i] == l(c);
    assert forall k :: 0 <= k < |t| && k != i ==> AsciiLower(v)[k] == AsciiLower(t)[k] && Mapped(l, v)[k] == Mapped(l, t)[k];
  }
}
