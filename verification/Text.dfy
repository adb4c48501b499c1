/** Strings as the queue's host language and its SQL engine see them. */
module Text {
  import opened Wrappers

  const MAX_PATH: int := 1024

  /** Unicode normalization and case folding are left abstract: any functions. */
  datatype PathRules = PathRules(nfc: string -> string, fold: string -> string)

  predicate IsWhite(c: char) {
    || '\t' <= c <= '\r' || c == ' ' || c == '\U{85}' || c == '\U{A0}' || c == '\U{1680}'
    || '\U{2000}' <= c <= '\U{200A}' || c == '\U{2028}' || c == '\U{2029}' || c == '\U{202F}'
    || c == '\U{205F}' || c == '\U{3000}'
  }

  predicate IsBlank(s: string) { forall i :: 0 <= i < |s| ==> IsWhite(s[i]) }

  function TrimLeft(s: string): string {
    if s != "" && IsWhite(s[0]) then TrimLeft(s[1..]) else s
  }

  function TrimRight(s: string): string {
    if s != "" && IsWhite(s[|s| - 1]) then TrimRight(s[..|s| - 1]) else s
  }

  function Slashes(s: string): (r: string)
    ensures |r| == |s|
  {
    seq(|s|, i requires 0 <= i < |s| => if s[i] == '\\' then '/' else s[i])
  }

  function Utf16Length(s: string): nat {
    if s == "" then 0 else (if s[0] < '\U{10000}' then 1 else 2) + Utf16Length(s[1..])
  }

  function Utf8Length(s: string): nat {
    if s == "" then 0
    else (if s[0] < '\U{80}' then 1 else if s[0] < '\U{800}' then 2 else if s[0] < '\U{10000}' then 3 else 4)
         + Utf8Length(s[1..])
  }

  /** Lengths are counted letter by letter: in UTF-16 a letter beyond the basic
      plane counts twice, in UTF-8 one counts as many bytes as it needs bits. */
  lemma {:induction false} LengthsAdd(a: string, b: string)
    ensures Utf16Length(a + b) == Utf16Length(a) + Utf16Length(b) && Utf8Length(a + b) == Utf8Length(a) + Utf8Length(b)
  {
    if a == "" {
      assert a + b == b;
    } else {
      LengthsAdd(a[1..], b);
      assert (a + b)[1..] == a[1..] + b;
    }
  }

  lemma LetterLengths(c: char)
    ensures Utf16Length([c]) == if c as int > 0xFFFF then 2 else 1
    ensures Utf8Length([c]) == if c as int > 0xFFFF then 4 else if c as int > 0x7FF then 3 else if c as int > 0x7F then 2 else 1
  {
    assert [c][1..] == "";
  }

  /** The parts of a path between its slashes. */
  function Segments(s: string): (parts: seq<string>)
    ensures parts != []
  {
    if s == "" then [""]
    else
      var rest := Segments(s[1..]);
      if s[0] == '/' then [""] + rest else [[s[0]] + rest[0]] + rest[1..]
  }

  predicate LegalPath(p: string) {
    && 0 < Utf16Length(p) <= MAX_PATH
    && p[0] != '/'
    && ':' !in p && '\0' !in p
    && forall part :: part in Segments(p) ==> part != "" && part != "." && part != ".."
  }

  /** None is the ArgumentException of an illegal path. */
  function NormalizePath(rules: PathRules, raw: string): (r: Option<string>)
    ensures r.Some? ==> LegalPath(r.value)
  {
    var p := rules.nfc(Slashes(TrimRight(TrimLeft(raw))));
    if LegalPath(p) then Some(p) else None
  }

  ghost predicate TrimsAt(raw: string, inner: string, i: int) {
    0 <= i <= i + |inner| <= |raw| && IsBlank(raw[..i]) && raw[i..i + |inner|] == inner && IsBlank(raw[i + |inner|..])
  }

  /** The text between the white space at both ends. */
  ghost predicate Trims(raw: string, inner: string) {
    && (inner != "" ==> !IsWhite(inner[0]) && !IsWhite(inner[|inner| - 1]))
    && exists i :: TrimsAt(raw, inner, i)
  }

  lemma {:induction false} TrimLeftIs(s: string)
    ensures var t := TrimLeft(s);
            |t| <= |s| && s[|s| - |t|..] == t && IsBlank(s[..|s| - |t|]) && (t != "" ==> !IsWhite(t[0]))
  {
    if s != "" && IsWhite(s[0]) {
      TrimLeftIs(s[1..]);
      var n := |s| - |TrimLeft(s[1..])|;
      assert s[1..][n - 1..] == s[n..] && s[..n] == [s[0]] + s[1..][..n - 1];
    }
  }

  lemma {:induction false} TrimRightIs(s: string)
    ensures var t := TrimRight(s);
            |t| <= |s| && s[..|t|] == t && IsBlank(s[|t|..]) && (t != "" ==> !IsWhite(t[|t| - 1]))
  {
    if s != "" && IsWhite(s[|s| - 1]) {
      var front := s[..|s| - 1];
      TrimRightIs(front);
      var n := |TrimRight(front)|;
      assert front[..n] == s[..n] && s[n..] == front[n..] + [s[|s| - 1]];
    }
  }

  lemma TrimIs(raw: string)
    ensures Trims(raw, TrimRight(TrimLeft(raw)))
  {
    var left := TrimLeft(raw);
    var inner := TrimRight(left);
    TrimLeftIs(raw);
    TrimRightIs(left);
    var i := |raw| - |left|;
    assert raw[i..i + |inner|] == left[..|inner|] && raw[i + |inner|..] == left[|inner|..];
    assert TrimsAt(raw, inner, i);
    if inner != "" { assert inner[0] == left[0]; }
  }

  lemma BlankOutside(raw: string, inner: string, i: int)
    requires TrimsAt(raw, inner, i)
    ensures forall k :: 0 <= k < |raw| && !IsWhite(raw[k]) ==> i <= k < i + |inner|
    ensures inner != "" ==> inner[0] == raw[i] && inner[|inner| - 1] == raw[i + |inner| - 1]
  {
    forall k | 0 <= k < |raw| && !(i <= k < i + |inner|) ensures IsWhite(raw[k]) {
      if k < i { assert raw[..i][k] == raw[k]; } else { assert raw[i + |inner|..][k - i - |inner|] == raw[k]; }
    }
  }

  lemma TrimsOnce(raw: string, a: string, b: string)
    requires Trims(raw, a) && Trims(raw, b)
    ensures a == b
  {
    var i :| TrimsAt(raw, a, i);
    var j :| TrimsAt(raw, b, j);
    BlankOutside(raw, a, i);
    BlankOutside(raw, b, j);
  }

  /** Exactly: the path is what stands between the white space, in normal form
      and with every backslash turned, and it is refused exactly when that is
      empty, too long, absolute, holds a colon or a NUL, or has a part that is
      empty or leads nowhere or up. */
  lemma NormalizeExactly(rules: PathRules, raw: string, inner: string, turned: string)
    requires Trims(raw, inner)
    requires |turned| == |inner| && forall k :: 0 <= k < |inner| ==> turned[k] == if inner[k] == '\\' then '/' else inner[k]
    ensures var p := rules.nfc(turned);
            NormalizePath(rules, raw) ==
              if p == "" || Utf16Length(p) > 1024 || p[0] == '/' || ':' in p || '\0' in p
                 || (exists i :: 0 <= i < |Segments(p)| && LeadsAway(Segments(p)[i]))
              then None else Some(p)
  {
    TrimIs(raw);
    TrimsOnce(raw, inner, TrimRight(TrimLeft(raw)));
    assert turned == Slashes(inner);
    LegalExactly(rules.nfc(turned));
  }

  /** Empty, this directory, or the one above. */
  predicate LeadsAway(part: string) { part == "" || part == "." || part == ".." }

  lemma LegalExactly(p: string)
    ensures !LegalPath(p) <==>
              || p == "" || Utf16Length(p) > 1024 || p[0] == '/' || ':' in p || '\0' in p
              || (exists i :: 0 <= i < |Segments(p)| && LeadsAway(Segments(p)[i]))
  {
    assert forall i :: 0 <= i < |Segments(p)| ==> Segments(p)[i] in Segments(p);
  }

  /** So a path that is normalized is its own normal form. */
  lemma NormalizeAgain(rules: PathRules, p: string)
    requires LegalPath(p) && !IsWhite(p[0]) && !IsWhite(p[|p| - 1]) && '\\' !in p && rules.nfc(p) == p
    ensures NormalizePath(rules, p) == Some(p)
  {
    assert p[0..0 + |p|] == p && p[..0] == "" && p[|p|..] == "";
    assert TrimsAt(p, p, 0);
    LegalExactly(p);
    NormalizeExactly(rules, p, p, p);
  }

  /** The parts, joined by slashes, are the path, and none holds a slash. */
  function Joined(parts: seq<string>): string {
    if parts == [] then "" else if |parts| == 1 then parts[0] else parts[0] + "/" + Joined(parts[1..])
  }

  lemma {:induction false} SegmentsJoin(s: string)
    ensures Joined(Segments(s)) == s && forall part :: part in Segments(s) ==> '/' !in part
  {
    if s != "" {
      SegmentsJoin(s[1..]);
      JoinedNext(s[0], Segments(s[1..]));
      assert s == [s[0]] + s[1..];
    }
  }

  lemma JoinedNext(c: char, rest: seq<string>)
    requires rest != []
    ensures Joined([""] + rest) == "/" + Joined(rest)
    ensures Joined([[c] + rest[0]] + rest[1..]) == [c] + Joined(rest)
  {
    assert ([""] + rest)[1..] == rest;
    JoinedHead([c], rest[0], rest[1..]);
    assert [rest[0]] + rest[1..] == rest;
  }

  lemma JoinedHead(a: string, b: string, rest: seq<string>)
    ensures Joined([a + b] + rest) == a + Joined([b] + rest)
  {
    assert ([a + b] + rest)[1..] == rest && ([b] + rest)[1..] == rest;
    assert (a + b) + "/" + Joined(rest) == a + (b + "/" + Joined(rest));
  }

  /** BINARY collation: byte order of UTF-8, which is code point order. */
  predicate TextBefore(a: string, b: string) {
    b != "" && (a == "" || a[0] < b[0] || (a[0] == b[0] && TextBefore(a[1..], b[1..])))
  }

  lemma {:induction false} TextOrderTotal(a: string, b: string)
    ensures a == b || TextBefore(a, b) || TextBefore(b, a)
  {
    if a != "" && b != "" && a[0] == b[0] {
      TextOrderTotal(a[1..], b[1..]);
      if a[1..] == b[1..] { assert a == [a[0]] + a[1..] && b == [b[0]] + b[1..]; }
    }
  }

  lemma {:induction false} TextOrderStrict(a: string, b: string, c: string)
    ensures !TextBefore(a, a)
    ensures TextBefore(a, b) && TextBefore(b, c) ==> TextBefore(a, c)
  {
    if a != "" {
      TextOrderStrict(a[1..], if b == "" then "" else b[1..], if c == "" then "" else c[1..]);
    }
  }
}
