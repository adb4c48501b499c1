/** The in-memory evaluator of metadata filters over flattened metadata, and
    when the pushed-down query agrees with it. */
module MetadataFilter {
  import opened Wrappers
  import opened Text
  import opened Wildcards
  import opened MetadataEsFilter

  /** One value of a metadata key and the documents that carry it. */
  datatype Bucket = Bucket(value: string, ids: seq<string>)

  type Metas = map<string, seq<Bucket>>

  /** How the host language compares, or fails to compare, values that are not
      two strings or two integers, and what is in an object. */
  type Compare = (Op, Value, Value) -> bool

  /** Strings are lower-cased before matching, in lists one by one. */
  function Lowered(py: Python, value: Value): Value {
    match value
    case Text(text) => Text(py.lower(text))
    case Many(members) =>
      Many(seq(|members|, i requires 0 <= i < |members| =>
        if members[i].Text? then Text(py.lower(members[i].text)) else members[i]))
    case _ => value
  }

  /** The string is in a list of strings, or in a string. */
  predicate Member(py: Python, input: string, value: Value)
    requires value.Text? || value.Many?
  {
    match value
    case Text(text) => Wildcards.Contains(py.lower(text), py.lower(input))
    case Many(members) => exists i :: 0 <= i < |members| && members[i].Text? && py.lower(members[i].text) == py.lower(input)
  }

  predicate Ordered(op: Op, before: bool, same: bool) {
    match op
    case Equal => same
    case NotEqual => !same
    case Greater => !before && !same
    case Less => before
    case AtLeast => !before
    case AtMost => before || same
    case _ => false
  }

  predicate Compared(compare: Compare, op: Op, a: Value, b: Value) {
    if a.Text? && b.Text? then Ordered(op, TextBefore(a.text, b.text), a.text == b.text)
    else if a.Number? && b.Number? then Ordered(op, a.n < b.n, a.n == b.n)
    else compare(op, a, b)
  }

  /** Both sides are read as literals, or neither is; strings are lower-cased. */
  function Coerced(py: Python, input: string, value: Value): (Value, Value) {
    if value.Text? && py.literal(input).Some? && py.literal(value.text).Some?
    then (LowerText(py, py.literal(input).value), LowerText(py, py.literal(value.text).value))
    else (LowerText(py, Text(input)), LowerText(py, value))
  }

  function LowerText(py: Python, value: Value): Value { if value.Text? then Text(py.lower(value.text)) else value }

  /** A date is compared with dates only, letter by letter. */
  predicate ComparisonHolds(py: Python, compare: Compare, op: Op, input: string, value: Value) {
    var a, b := py.strip(input), py.strip(Str(py, value));
    if IsDate(py, b) then IsDate(py, a) && Compared(compare, op, Text(a), Text(b))
    else
      var (x, y) := Coerced(py, input, value);
      Compared(compare, op, x, y)
  }

  predicate Matched(py: Python, compare: Compare, op: Op, input: string, value: Value) {
    match op
    case HasText => value.Text? && Wildcards.Contains(py.lower(input), py.lower(value.text))
    case HasNoText => value.Text? && !Wildcards.Contains(py.lower(input), py.lower(value.text))
    case StartWith => StartsWith(py.lower(py.lower(input)), py.lower(Str(py, Lowered(py, value))))
    case EndWith => EndsWith(py.lower(py.lower(input)), py.lower(Str(py, Lowered(py, value))))
    case Empty => py.lower(input) == ""
    case NotEmpty => py.lower(input) != ""
    case In =>
      if value.Text? || value.Many? then Member(py, input, value) else value.Object? && compare(op, Text(py.lower(input)), value)
    case NotIn =>
      if value.Text? || value.Many? then !Member(py, input, value) else value.Object? && compare(op, Text(py.lower(input)), value)
    case OtherOp(_) => false
    case _ => ComparisonHolds(py, compare, op, input, value)
  }

  // -------------------------------------------------------------- dates

  predicate Digits(s: string) { forall i :: 0 <= i < |s| ==> '0' <= s[i] <= '9' }

  function Digit(c: char): nat
    requires '0' <= c <= '9'
  {
    c as int - '0' as int
  }

  /** The number that digits stand for. */
  function Read(s: string): nat
    requires Digits(s)
  {
    if s == "" then 0 else 10 * Read(s[..|s| - 1]) + Digit(s[|s| - 1])
  }

  lemma {:induction false} BeforeSplits(a: string, b: string, x: string, y: string)
    requires |a| == |b|
    ensures TextBefore(a + x, b + y) <==> TextBefore(a, b) || (a == b && TextBefore(x, y))
  {
    if a == "" {
      assert a + x == x && b + y == y;
    } else {
      BeforeSplits(a[1..], b[1..], x, y);
      assert (a + x)[1..] == a[1..] + x && (b + y)[1..] == b[1..] + y;
      assert a == [a[0]] + a[1..] && b == [b[0]] + b[1..];
    }
  }

  /** Digits of one length are in the order of their numbers. */
  lemma {:induction false} DigitsOrdered(a: string, b: string)
    requires Digits(a) && Digits(b) && |a| == |b|
    ensures TextBefore(a, b) <==> Read(a) < Read(b)
    ensures a == b <==> Read(a) == Read(b)
  {
    if a != "" {
      var n := |a| - 1;
      DigitsOrdered(a[..n], b[..n]);
      assert a == a[..n] + [a[n]] && b == b[..n] + [b[n]];
      BeforeSplits(a[..n], b[..n], [a[n]], [b[n]]);
      assert TextBefore([a[n]], [b[n]]) <==> a[n] < b[n];
    }
  }

  predicate PlainDate(s: string) {
    |s| == 10 && s[4] == s[7] == '-' && Digits(s[..4]) && Digits(s[5..7]) && Digits(s[8..])
  }

  /** The calendar order of two dates. */
  predicate Earlier(a: string, b: string)
    requires PlainDate(a) && PlainDate(b)
  {
    || Read(a[..4]) < Read(b[..4])
    || (Read(a[..4]) == Read(b[..4]) && Read(a[5..7]) < Read(b[5..7]))
    || (Read(a[..4]) == Read(b[..4]) && Read(a[5..7]) == Read(b[5..7]) && Read(a[8..]) < Read(b[8..]))
  }

  /** So comparing dates as strings is comparing them as dates. */
  lemma DatesCompare(py: Python, compare: Compare, input: string, value: Value)
    requires PlainDate(py.strip(input)) && PlainDate(py.strip(Str(py, value)))
    requires forall c :: '0' <= c <= '9' ==> py.digit(c)
    ensures var a, b := py.strip(input), py.strip(Str(py, value));
            && (Matched(py, compare, Greater, input, value) <==> Earlier(b, a))
            && (Matched(py, compare, Less, input, value) <==> Earlier(a, b))
            && (Matched(py, compare, AtLeast, input, value) <==> !Earlier(a, b))
            && (Matched(py, compare, AtMost, input, value) <==> !Earlier(b, a))
            && (Matched(py, compare, Equal, input, value) <==> a == b)
            && (Matched(py, compare, NotEqual, input, value) <==> a != b)
  {
    var a, b := py.strip(input), py.strip(Str(py, value));
    DateBefore(a, b);
    DateBefore(b, a);
    BeforeOrNot(a, b);
    PlainIsDate(py, a);
    PlainIsDate(py, b);
  }

  /** Of two texts exactly one comes before the other, or they are the same. */
  lemma BeforeOrNot(a: string, b: string)
    ensures TextBefore(b, a) <==> !TextBefore(a, b) && a != b
  {
    TextOrderTotal(a, b);
    TextOrderStrict(a, b, a);
  }

  /** Where the filter names a date, what is not a date never matches. */
  lemma DatesOnly(py: Python, compare: Compare, op: Op, input: string, value: Value)
    requires op == Equal || op == NotEqual || op == Greater || op == Less || op == AtLeast || op == AtMost
    requires IsDate(py, py.strip(Str(py, value))) && !IsDate(py, py.strip(input))
    ensures !Matched(py, compare, op, input, value)
  {
  }

  /** Two integer literals are compared as numbers. */
  lemma IntegersCompare(py: Python, compare: Compare, input: string, text: string, m: int, n: int)
    requires py.literal(input) == Some(Number(m)) && py.literal(text) == Some(Number(n)) && !IsDate(py, py.strip(text))
    ensures var value := Text(text);
            && (Matched(py, compare, Greater, input, value) <==> m > n)
            && (Matched(py, compare, Less, input, value) <==> m < n)
            && (Matched(py, compare, AtLeast, input, value) <==> m >= n)
            && (Matched(py, compare, AtMost, input, value) <==> m <= n)
            && (Matched(py, compare, Equal, input, value) <==> m == n)
            && (Matched(py, compare, NotEqual, input, value) <==> m != n)
  {
  }

  /** Where one side at least is no literal, the texts are compared themselves,
      in lower case. */
  lemma TextsCompare(py: Python, compare: Compare, input: string, text: string)
    requires (py.literal(input).None? || py.literal(text).None?) && !IsDate(py, py.strip(text))
    ensures var a, b, value := py.lower(input), py.lower(text), Text(text);
            && (Matched(py, compare, Greater, input, value) <==> TextBefore(b, a))
            && (Matched(py, compare, Less, input, value) <==> TextBefore(a, b))
            && (Matched(py, compare, AtLeast, input, value) <==> !TextBefore(a, b))
            && (Matched(py, compare, AtMost, input, value) <==> !TextBefore(b, a))
            && (Matched(py, compare, Equal, input, value) <==> a == b)
            && (Matched(py, compare, NotEqual, input, value) <==> a != b)
  {
    BeforeOrNot(py.lower(input), py.lower(text));
  }

  /** Two text literals are compared as what they read, in lower case. */
  lemma QuotedCompare(py: Python, compare: Compare, input: string, text: string, x: string, y: string)
    requires py.literal(input) == Some(Text(x)) && py.literal(text) == Some(Text(y)) && !IsDate(py, py.strip(text))
    ensures var a, b, value := py.lower(x), py.lower(y), Text(text);
            && (Matched(py, compare, Greater, input, value) <==> TextBefore(b, a))
            && (Matched(py, compare, Less, input, value) <==> TextBefore(a, b))
            && (Matched(py, compare, AtLeast, input, value) <==> !TextBefore(a, b))
            && (Matched(py, compare, AtMost, input, value) <==> !TextBefore(b, a))
            && (Matched(py, compare, Equal, input, value) <==> a == b)
            && (Matched(py, compare, NotEqual, input, value) <==> a != b)
  {
    BeforeOrNot(py.lower(x), py.lower(y));
  }

  // ---------------------------------------------- membership and emptiness

  /** The text holds the part somewhere. */
  ghost predicate PartOf(part: string, whole: string) { exists before, after :: whole == before + part + after }

  /** In a list `in` finds an equal text, whatever its case; in a text it finds a
      part of it; `not in` is the opposite, and neither holds of anything else. */
  lemma MembershipMeans(py: Python, compare: Compare, input: string, value: Value)
    requires !value.Object?
    ensures value.Many? ==>
              (Matched(py, compare, In, input, value) <==>
                 exists member :: member in value.members && member.Text? && py.lower(member.text) == py.lower(input))
    ensures value.Text? ==>
              (Matched(py, compare, In, input, value) <==> PartOf(py.lower(input), py.lower(value.text)))
    ensures value.Many? || value.Text? ==> (Matched(py, compare, NotIn, input, value) <==> !Matched(py, compare, In, input, value))
    ensures !value.Many? && !value.Text? ==> !Matched(py, compare, In, input, value) && !Matched(py, compare, NotIn, input, value)
  {
    if value.Text? { PartMeans(py.lower(value.text), py.lower(input)); }
    if value.Many? && Member(py, input, value) {
      var i :| 0 <= i < |value.members| && value.members[i].Text? && py.lower(value.members[i].text) == py.lower(input);
      assert value.members[i] in value.members;
    }
  }

  lemma PartMeans(whole: string, part: string)
    ensures Wildcards.Contains(whole, part) <==> PartOf(part, whole)
  {
    if i :| 0 <= i <= |whole| && StartsWith(whole[i..], part) {
      assert whole == whole[..i] + part + whole[i..][|part|..];
    }
    if before, after :| whole == before + part + after {
      assert whole[|before|..] == part + after;
    }
  }

  /** `contains` finds a part and `not contains` its absence, for texts only;
      `start with` and `end with` look at the ends. */
  lemma TextOperators(py: Python, compare: Compare, input: string, value: Value)
    ensures value.Text? ==>
              && (Matched(py, compare, HasText, input, value) <==> PartOf(py.lower(value.text), py.lower(input)))
              && (Matched(py, compare, HasNoText, input, value) <==> !Matched(py, compare, HasText, input, value))
    ensures !value.Text? ==> !Matched(py, compare, HasText, input, value) && !Matched(py, compare, HasNoText, input, value)
    ensures value.Text? ==>
              var whole, part := py.lower(py.lower(input)), py.lower(py.lower(value.text));
              && (Matched(py, compare, StartWith, input, value) <==> exists rest :: whole == part + rest)
              && (Matched(py, compare, EndWith, input, value) <==> exists rest :: whole == rest + part)
  {
    if value.Text? {
      PartMeans(py.lower(input), py.lower(value.text));
      EndsMean(py.lower(py.lower(input)), py.lower(py.lower(value.text)));
    }
  }

  lemma EndsMean(whole: string, part: string)
    ensures StartsWith(whole, part) <==> exists rest :: whole == part + rest
    ensures EndsWith(whole, part) <==> exists rest :: whole == rest + part
  {
    if StartsWith(whole, part) { assert whole == part + whole[|part|..]; }
    if EndsWith(whole, part) { assert whole == whole[..|whole| - |part|] + part; }
  }

  /** `empty` finds exactly the empty value, `not empty` every other; an unknown
      operator finds nothing. */
  lemma EmptinessMeans(py: Python, compare: Compare, input: string, value: Value)
    requires py.lower(input) == "" <==> input == ""
    ensures Matched(py, compare, Empty, input, value) <==> input == ""
    ensures Matched(py, compare, NotEmpty, input, value) <==> input != ""
    ensures forall name :: !Matched(py, compare, OtherOp(name), input, value)
  {
  }

  lemma PlainIsDate(py: Python, s: string)
    requires PlainDate(s) && forall c :: '0' <= c <= '9' ==> py.digit(c)
    ensures IsDate(py, s)
  {
    forall i | 0 <= i < 10 && i != 4 && i != 7 ensures py.digit(s[i]) {
      assert s[i] == if i < 4 then s[..4][i] else if i < 7 then s[5..7][i - 5] else s[8..][i - 8];
    }
  }

  lemma DateBefore(a: string, b: string)
    requires PlainDate(a) && PlainDate(b)
    ensures TextBefore(a, b) <==> Earlier(a, b)
  {
    DigitsOrdered(a[..4], b[..4]);
    DigitsOrdered(a[5..7], b[5..7]);
    DigitsOrdered(a[8..], b[8..]);
    DateParts(a, b);
  }

  lemma DateParts(a: string, b: string)
    requires PlainDate(a) && PlainDate(b)
    ensures TextBefore(a, b) <==>
              TextBefore(a[..4], b[..4]) || (a[..4] == b[..4] &&
                (TextBefore(a[5..7], b[5..7]) || (a[5..7] == b[5..7] && TextBefore(a[8..], b[8..]))))
  {
    BeforeSplits(a[..4], b[..4], a[4..], b[4..]);
    BeforeSplits("-", "-", a[5..], b[5..]);
    BeforeSplits(a[5..7], b[5..7], a[7..], b[7..]);
    BeforeSplits("-", "-", a[8..], b[8..]);
    assert a == a[..4] + a[4..] && a[4..] == "-" + a[5..] && a[5..] == a[5..7] + a[7..] && a[7..] == "-" + a[8..];
    assert b == b[..4] + b[4..] && b[4..] == "-" + b[5..] && b[5..] == b[5..7] + b[7..] && b[7..] == "-" + b[8..];
  }

  // ----------------------------------------------------------- evaluation

  ghost predicate BucketHit(py: Python, compare: Compare, buckets: seq<Bucket>, f: Filter, id: string) {
    exists b :: b in buckets && id in b.ids && Matched(py, compare, f.op, b.value, f.value)
  }

  /** The document passes this filter. */
  ghost predicate Hit(py: Python, compare: Compare, metas: Metas, f: Filter, id: string) {
    f.key in metas && BucketHit(py, compare, metas[f.key], f, id)
  }

  method FilterOut(py: Python, compare: Compare, buckets: seq<Bucket>, f: Filter) returns (ids: seq<string>)
    ensures forall id :: id in ids <==> BucketHit(py, compare, buckets, f, id)
  {
    ids := [];
    for n := 0 to |buckets|
      invariant forall id :: id in ids <==> BucketHit(py, compare, buckets[..n], f, id)
    {
      var before := ids;
      if Matched(py, compare, f.op, buckets[n].value, f.value) {
        ids := ids + buckets[n].ids;
      }
      assert buckets[..n + 1] == buckets[..n] + [buckets[n]];
      forall id
        ensures id in ids <==> BucketHit(py, compare, buckets[..n + 1], f, id)
      {
        BucketNext(py, compare, buckets, f, id, n);
      }
    }
    assert buckets[..|buckets|] == buckets;
  }

  lemma BucketNext(py: Python, compare: Compare, buckets: seq<Bucket>, f: Filter, id: string, n: nat)
    requires n < |buckets|
    ensures BucketHit(py, compare, buckets[..n + 1], f, id) <==>
            BucketHit(py, compare, buckets[..n], f, id) || (id in buckets[n].ids && Matched(py, compare, f.op, buckets[n].value, f.value))
  {
    assert buckets[..n + 1] == buckets[..n] + [buckets[n]];
    assert buckets[n] in buckets[..n + 1];
  }

  /** The answer set: every filter, or with any other logic some filter. */
  ghost predicate Answers(py: Python, compare: Compare, metas: Metas, filters: seq<Filter>, logic: string, id: string) {
    filters != [] &&
    if logic == "and" then forall i :: 0 <= i < |filters| ==> Hit(py, compare, metas, filters[i], id)
    else exists i :: 0 <= i < |filters| && Hit(py, compare, metas, filters[i], id)
  }

  lemma AnswersNext(py: Python, compare: Compare, metas: Metas, filters: seq<Filter>, logic: string, id: string, n: nat)
    requires n < |filters|
    ensures Answers(py, compare, metas, filters[..n + 1], logic, id) <==>
            var now := Hit(py, compare, metas, filters[n], id);
            if n == 0 then now
            else if logic == "and" then Answers(py, compare, metas, filters[..n], logic, id) && now
            else Answers(py, compare, metas, filters[..n], logic, id) || now
  {
    var longer, shorter := filters[..n + 1], filters[..n];
    assert longer[n] == filters[n] && forall i :: 0 <= i < n ==> longer[i] == shorter[i];
    if logic == "and" {
      if n > 0 && Answers(py, compare, metas, longer, logic, id) {
        forall i | 0 <= i < n ensures Hit(py, compare, metas, shorter[i], id) { assert Hit(py, compare, metas, longer[i], id); }
        assert Hit(py, compare, metas, longer[n], id);
      }
    } else {
      if i :| 0 <= i < |shorter| && Hit(py, compare, metas, shorter[i], id) { assert Hit(py, compare, metas, longer[i], id); }
      if Hit(py, compare, metas, filters[n], id) { assert Hit(py, compare, metas, longer[n], id); }
    }
  }

  lemma {:induction false} NoneForever(py: Python, compare: Compare, metas: Metas, filters: seq<Filter>, logic: string, id: string, n: nat)
    requires logic == "and" && 0 < n <= |filters| && !Answers(py, compare, metas, filters[..n], logic, id)
    ensures !Answers(py, compare, metas, filters, logic, id)
  {
    var i :| 0 <= i < n && !Hit(py, compare, metas, filters[..n][i], id);
    assert filters[i] == filters[..n][i];
  }

  method MetaFilter(py: Python, compare: Compare, metas: Metas, filters: seq<Filter>, logic: string) returns (ids: set<string>)
    ensures forall id :: id in ids <==> Answers(py, compare, metas, filters, logic, id)
  {
    ids := {};
    for n := 0 to |filters|
      invariant forall id :: id in ids <==> Answers(py, compare, metas, filters[..n], logic, id)
    {
      var f := filters[n];
      var found := [];
      if f.key in metas {
        found := FilterOut(py, compare, metas[f.key], f);
      }
      var hits := set id | id in found;
      ghost var before := ids;
      if n == 0 {
        ids := hits;
      } else if logic == "and" {
        ids := ids * hits;
      } else {
        ids := ids + hits;
      }
      forall id ensures id in ids <==> Answers(py, compare, metas, filters[..n + 1], logic, id) {
        AnswersNext(py, compare, metas, filters, logic, id, n);
      }
      if n > 0 && logic == "and" && ids == {} {
        forall id ensures !Answers(py, compare, metas, filters, logic, id) {
          assert id !in ids;
          NoneForever(py, compare, metas, filters, logic, id, n + 1);
        }
        return;
      }
    }
    assert filters[..|filters|] == filters;
  }
}
