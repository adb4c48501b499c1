/** Search-engine wildcard patterns and the escaping that keeps user text literal. */
module Wildcards {
  datatype Token = Lit(c: char) | AnyOne | AnyRun

  function Replace(s: string, from: char, to: string): string {
    if s == "" then "" else (if s[0] == from then to else [s[0]]) + Replace(s[1..], from, to)
  }

  function Escape(text: string): string {
    Replace(Replace(Replace(text, '\\', "\\\\"), '*', "\\*"), '?', "\\?")
  }

  /** How the engine reads a pattern: a backslash makes the next character
      literal, a trailing one stands for itself. */
  function Parse(p: string): seq<Token>
    decreases |p|
  {
    if p == "" then []
    else if p[0] == '\\' && |p| > 1 then [Lit(p[1])] + Parse(p[2..])
    else [if p[0] == '*' then AnyRun else if p[0] == '?' then AnyOne else Lit(p[0])] + Parse(p[1..])
  }

  /** case_insensitive in the engine folds ASCII letters only. */
  function AsciiLowerChar(c: char): char {
    if 'A' <= c <= 'Z' then c - 'A' + 'a' else c
  }

  function AsciiLower(s: string): (r: string)
    ensures |r| == |s|
    ensures forall i :: 0 <= i < |s| ==> r[i] == AsciiLowerChar(s[i])
  {
    seq(|s|, i requires 0 <= i < |s| => AsciiLowerChar(s[i]))
  }

  predicate Match(tokens: seq<Token>, s: string)
    decreases |tokens| + |s|
  {
    if tokens == [] then s == ""
    else
      match tokens[0]
      case Lit(c) => s != "" && AsciiLowerChar(s[0]) == AsciiLowerChar(c) && Match(tokens[1..], s[1..])
      case AnyOne => s != "" && Match(tokens[1..], s[1..])
      case AnyRun => Match(tokens[1..], s) || (s != "" && Match(tokens, s[1..]))
  }

  predicate StartsWith(s: string, t: string) { |t| <= |s| && s[..|t|] == t }

  predicate EndsWith(s: string, t: string) { |t| <= |s| && s[|s| - |t|..] == t }

  predicate Contains(s: string, t: string) { exists i :: 0 <= i <= |s| && StartsWith(s[i..], t) }

  function Literals(text: string): (r: seq<Token>)
    ensures |r| == |text| && forall i :: 0 <= i < |r| ==> r[i] == Lit(text[i])
  {
    seq(|text|, i requires 0 <= i < |text| => Lit(text[i]))
  }

  // ------------------------------------------------------------- escaping

  function EscapeChar(c: char): string {
    if c == '\\' || c == '*' || c == '?' then ['\\', c] else [c]
  }

  lemma {:induction false} ReplaceAppend(a: string, b: string, from: char, to: string)
    ensures Replace(a + b, from, to) == Replace(a, from, to) + Replace(b, from, to)
  {
    if a == "" {
      assert a + b == b;
    } else {
      ReplaceAppend(a[1..], b, from, to);
      assert (a + b)[1..] == a[1..] + b;
      assert (a + b)[0] == a[0];
    }
  }

  lemma ReplaceTwo(a: char, b: char, from: char, to: string)
    ensures Replace([a], from, to) == if a == from then to else [a]
    ensures Replace([a, b], from, to) == (if a == from then to else [a]) + (if b == from then to else [b])
  {
    assert [a][1..] == "" && [a, b][1..] == [b] && [b][1..] == "";
    assert Replace("", from, to) == "";
  }

  lemma EscapeOne(c: char)
    ensures Escape([c]) == EscapeChar(c)
  {
    ReplaceTwo(c, c, '\\', "\\\\");
    ReplaceTwo(c, c, '*', "\\*");
    ReplaceTwo('\\', '\\', '*', "\\*");
    ReplaceTwo(c, c, '?', "\\?");
    ReplaceTwo('\\', '\\', '?', "\\?");
    ReplaceTwo('\\', '*', '?', "\\?");
  }

  /** The three passes over the text act as one character-wise escape. */
  lemma EscapeSplits(c: char, text: string)
    ensures Escape([c] + text) == EscapeChar(c) + Escape(text)
  {
    ReplaceAppend([c], text, '\\', "\\\\");
    ReplaceAppend(Replace([c], '\\', "\\\\"), Replace(text, '\\', "\\\\"), '*', "\\*");
    ReplaceAppend(Replace(Replace([c], '\\', "\\\\"), '*', "\\*"), Replace(Replace(text, '\\', "\\\\"), '*', "\\*"), '?', "\\?");
    EscapeOne(c);
  }

  lemma ParseEscapedChar(c: char, tail: string)
    ensures Parse(EscapeChar(c) + tail) == [Lit(c)] + Parse(tail)
  {
    var p := EscapeChar(c) + tail;
    if |EscapeChar(c)| == 2 {
      assert p[2..] == tail;
    } else {
      assert p[1..] == tail;
    }
  }

  function Charwise(text: string): string {
    if text == "" then "" else EscapeChar(text[0]) + Charwise(text[1..])
  }

  lemma {:induction false} EscapeIsCharwise(text: string)
    ensures Escape(text) == Charwise(text)
  {
    if text != "" {
      assert text == [text[0]] + text[1..];
      EscapeSplits(text[0], text[1..]);
      EscapeIsCharwise(text[1..]);
    }
  }

  lemma {:induction false} ParseCharwise(text: string, rest: string)
    ensures Parse(Charwise(text) + rest) == Literals(text) + Parse(rest)
  {
    if text == "" {
      assert Charwise(text) + rest == rest;
    } else {
      var c, more := text[0], text[1..];
      var tail := Charwise(more) + rest;
      assert Charwise(text) + rest == EscapeChar(c) + tail;
      ParseEscapedChar(c, tail);
      ParseCharwise(more, rest);
      assert Literals(text) == [Lit(c)] + Literals(more);
    }
  }

  /** Escaped text parses back to exactly its own characters. */
  lemma ParseEscaped(text: string, rest: string)
    ensures Parse(Escape(text) + rest) == Literals(text) + Parse(rest)
  {
    EscapeIsCharwise(text);
    ParseCharwise(text, rest);
  }

  // ------------------------------------------------------------- matching

  lemma {:induction false} MatchLiterals(text: string, rest: seq<Token>, s: string)
    ensures Match(Literals(text) + rest, s) <==>
            |text| <= |s| && AsciiLower(s)[..|text|] == AsciiLower(text) && Match(rest, s[|text|..])
  {
    var tokens := Literals(text) + rest;
    if text == "" {
      assert tokens == rest && s[0..] == s;
    } else {
      assert tokens[0] == Lit(text[0]) && tokens[1..] == Literals(text[1..]) + rest;
      if s != "" {
        MatchLiterals(text[1..], rest, s[1..]);
        if |text| <= |s| {
          assert s[1..][|text| - 1..] == s[|text|..];
          HeadTail(s, text);
        }
      }
    }
  }

  lemma HeadTail(s: string, text: string)
    requires s != "" && text != "" && |text| <= |s|
    ensures AsciiLower(s)[..|text|] == AsciiLower(text) <==>
            AsciiLowerChar(s[0]) == AsciiLowerChar(text[0]) && AsciiLower(s[1..])[..|text| - 1] == AsciiLower(text[1..])
  {
    var a, b := AsciiLower(s)[..|text|], AsciiLower(text);
    assert a == [a[0]] + a[1..] && b == [b[0]] + b[1..];
    assert a[1..] == AsciiLower(s[1..])[..|text| - 1] && b[1..] == AsciiLower(text[1..]);
  }

  lemma {:induction false} MatchRun(rest: seq<Token>, s: string)
    ensures Match([AnyRun] + rest, s) <==> exists i :: 0 <= i <= |s| && Match(rest, s[i..])
    decreases |s|
  {
    var tokens := [AnyRun] + rest;
    assert tokens[1..] == rest && s[0..] == s;
    if s != "" {
      MatchRun(rest, s[1..]);
      forall i | 0 <= i <= |s| - 1 ensures s[1..][i..] == s[i + 1..] {}
      if i :| 0 <= i <= |s[1..]| && Match(rest, s[1..][i..]) { assert Match(rest, s[i + 1..]); }
      if i :| 0 < i <= |s| && Match(rest, s[i..]) { assert Match(rest, s[1..][i - 1..]); }
    }
  }

  lemma MatchAnything(s: string)
    ensures Match([AnyRun], s)
  {
    MatchRun([], s);
    assert [AnyRun] + [] == [AnyRun];
    assert Match([], s[|s|..]);
  }

  lemma LowerSlice(s: string, i: nat)
    requires i <= |s|
    ensures AsciiLower(s[i..]) == AsciiLower(s)[i..]
  {
  }

  /** *text* matches exactly the strings that contain the text. */
  lemma ContainsPattern(text: string, s: string)
    ensures Match(Parse("*" + Escape(text) + "*"), s) <==> Contains(AsciiLower(s), AsciiLower(text))
  {
    var p := "*" + Escape(text) + "*";
    assert p[1..] == Escape(text) + "*";
    ParseEscaped(text, "*");
    assert Parse("*") == [AnyRun] + Parse("*"[1..]);
    var rest := Literals(text) + [AnyRun];
    assert Parse(p) == [AnyRun] + rest;
    MatchRun(rest, s);
    forall i | 0 <= i <= |s|
      ensures Match(rest, s[i..]) <==> StartsWith(AsciiLower(s)[i..], AsciiLower(text))
    {
      MatchLiterals(text, [AnyRun], s[i..]);
      LowerSlice(s, i);
      if |text| <= |s[i..]| { MatchAnything(s[i..][|text|..]); }
    }
    if i :| 0 <= i <= |AsciiLower(s)| && StartsWith(AsciiLower(s)[i..], AsciiLower(text)) { assert Match(rest, s[i..]); }
  }

  /** *text matches exactly the strings that end with the text. */
  lemma SuffixPattern(text: string, s: string)
    ensures Match(Parse("*" + Escape(text)), s) <==> EndsWith(AsciiLower(s), AsciiLower(text))
  {
    var p := "*" + Escape(text);
    assert p[1..] == Escape(text) + "";
    ParseEscaped(text, "");
    var rest := Literals(text) + [];
    assert Parse(p) == [AnyRun] + rest;
    MatchRun(rest, s);
    forall i | 0 <= i <= |s|
      ensures Match(rest, s[i..]) <==> i == |s| - |text| && AsciiLower(s)[i..] == AsciiLower(text)
    {
      MatchLiterals(text, [], s[i..]);
      LowerSlice(s, i);
      if |text| <= |s[i..]| { assert s[i..][|text|..] == "" <==> i == |s| - |text|; }
      if i == |s| - |text| { assert AsciiLower(s)[i..][..|text|] == AsciiLower(s)[i..]; }
    }
    if EndsWith(AsciiLower(s), AsciiLower(text)) { assert Match(rest, s[|s| - |text|..]); }
  }
}
