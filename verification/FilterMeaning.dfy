/** What each operator asks of the index: the meaning of every translated filter
    in terms of single leaves, and when a filter cannot be translated at all. */
module FilterMeaning {
  import opened Wrappers
  import opened Wildcards
  import opened MetadataEsFilter

  // ------------------------------------------------------------ one value

  predicate Scalar(value: Value) { value.Text? || value.Number? || value.Decimal? || value.Flag? }

  /** The leaf that finds one value: a text, lower-cased unless it is a date, in
      the keyword sub-field whatever its case, anything else in the field. */
  predicate FindsValue(py: Python, key: string, value: Value, leaf: Leaf) {
    var s := py.strip(Str(py, value));
    if IsDate(py, s) then leaf == Term(Keyword(key), Text(s), true)
    else
      match py.literal(s)
      case Some(Number(n)) => leaf == Term(Field(key), Number(n), false)
      case Some(Decimal(r)) => leaf == Term(Field(key), Decimal(r), false)
      case Some(Flag(b)) => leaf == Term(Field(key), Flag(b), false)
      case Some(Text(text)) => leaf == Term(Keyword(key), Text(py.lower(text)), true)
      case _ => leaf == Term(Keyword(key), Text(py.lower(s)), true)
  }

  /** The bound of a range: a date or a text as it stands, or a number. */
  predicate BoundOf(py: Python, value: Value, bound: Value) {
    var s := py.strip(Str(py, value));
    if IsDate(py, s) then bound == Text(s)
    else
      match py.literal(s)
      case Some(Number(n)) => bound == Number(n)
      case Some(Decimal(r)) => bound == Decimal(r)
      case Some(Flag(b)) => bound == Flag(b)
      case _ => bound == Text(s)
  }

  lemma OneMust(holds: Leaf -> bool, clause: Clause)
    ensures Means(holds, Translated([clause], [])) <==> Eval(holds, clause)
  {
    var must := [clause];
    assert All(holds, must) <==> Eval(holds, must[0]);
  }

  lemma PresentBut(holds: Leaf -> bool, key: string, clause: Clause)
    ensures Means(holds, Translated([IsPresent(key)], [clause])) <==> holds(Exists(Field(key))) && !Eval(holds, clause)
  {
    var must, mustNot := [IsPresent(key)], [clause];
    assert All(holds, must) <==> Eval(holds, must[0]);
    assert Any(holds, mustNot) <==> Eval(holds, mustNot[0]);
  }

  /** `=` finds the value, `≠` any document with the key but not the value. */
  lemma EqualMeans(py: Python, holds: Leaf -> bool, key: string, value: Value, leaf: Leaf)
    requires key != "" && Scalar(value) && FindsValue(py, key, value, leaf)
    ensures var equal, other := Translate(py, Filter(key, Equal, value)), Translate(py, Filter(key, NotEqual, value));
            && equal.Some? && (Means(holds, equal.value) <==> holds(leaf))
            && other.Some? && (Means(holds, other.value) <==> holds(Exists(Field(key))) && !holds(leaf))
  {
    OneMust(holds, Leaf(leaf));
    PresentBut(holds, key, Leaf(leaf));
  }

  /** A range asks for the key, and for its own operator. */
  lemma RangeMeans(py: Python, holds: Leaf -> bool, key: string, op: Op, value: Value, bound: Value)
    requires key != "" && !value.Null? && BoundOf(py, value, bound)
    requires op == Greater || op == Less || op == AtLeast || op == AtMost
    ensures var range := Translate(py, Filter(key, op, value));
            range.Some? && (Means(holds, range.value) <==> holds(Exists(Field(key))) && holds(Range(Field(key), op, bound)))
  {
    var must := [IsPresent(key), Leaf(Range(Field(key), op, bound))];
    assert All(holds, must) <==> Eval(holds, must[0]) && Eval(holds, must[1]);
  }

  // ----------------------------------------------------------- many values

  /** The leaf for one member of a list that holds a text. */
  function MemberLeaf(key: string, member: Value): Leaf {
    if member.Text? then Term(Keyword(key), member, true) else Term(Field(key), member, false)
  }

  /** Some member is found; a list without texts is asked for at once. */
  predicate FindsMember(holds: Leaf -> bool, key: string, members: seq<Value>) {
    if exists i :: 0 <= i < |members| && members[i].Text?
    then exists i :: 0 <= i < |members| && holds(MemberLeaf(key, members[i]))
    else holds(Terms(Field(key), members))
  }

  lemma TermsMean(holds: Leaf -> bool, key: string, members: seq<Value>)
    ensures Eval(holds, TermsOf(key, members)) <==> FindsMember(holds, key, members)
  {
    if exists i :: 0 <= i < |members| && members[i].Text? {
      var clause := TermsOf(key, members);
      EvalBool(holds, clause);
      CountBounds(holds, clause.should);
      forall i | 0 <= i < |members| ensures Eval(holds, clause.should[i]) <==> holds(MemberLeaf(key, members[i])) {}
    }
  }

  /** `in` finds some member, `not in` any document with the key but no member. */
  lemma InMeans(py: Python, holds: Leaf -> bool, key: string, value: Value)
    requires key != "" && CsvOrList(py, value).Some?
    ensures var some, other := Translate(py, Filter(key, In, value)), Translate(py, Filter(key, NotIn, value));
            var members := CsvOrList(py, value).value;
            && some.Some? && (Means(holds, some.value) <==> FindsMember(holds, key, members))
            && other.Some? && (Means(holds, other.value) <==> holds(Exists(Field(key))) && !FindsMember(holds, key, members))
  {
    var members := CsvOrList(py, value).value;
    TermsMean(holds, key, members);
    OneMust(holds, TermsOf(key, members));
    PresentBut(holds, key, TermsOf(key, members));
  }

  /** The texts of a list are compared without white space and case. */
  ghost predicate Normal(py: Python, given: seq<Value>, members: seq<Value>) {
    && |members| == |given|
    && forall i :: 0 <= i < |given| ==>
         members[i] == match given[i] case Text(text) => Text(py.strip(py.lower(text))) case other => other
  }

  lemma {:induction false} NormaliseIs(py: Python, given: seq<Value>)
    ensures Normal(py, given, Normalise(py, given))
  {
    if given != [] { NormaliseIs(py, given[1..]); }
  }

  /** What stands between the commas, when it is more than white space. */
  ghost predicate Listed(py: Python, parts: seq<string>, member: Value) {
    exists part :: part in parts && py.strip(part) != "" && member == Text(py.strip(part))
  }

  lemma {:induction false} StrippedAre(py: Python, parts: seq<string>)
    ensures forall member :: member in StrippedParts(py, parts) <==> Listed(py, parts, member)
  {
    if parts != [] {
      StrippedAre(py, parts[1..]);
      assert parts == [parts[0]] + parts[1..];
      assert forall member :: Listed(py, parts, member) <==>
        Listed(py, parts[1..], member) || (py.strip(parts[0]) != "" && member == Text(py.strip(parts[0])));
    }
  }

  function JoinedByCommas(parts: seq<string>): string {
    if parts == [] then "" else if |parts| == 1 then parts[0] else parts[0] + "," + JoinedByCommas(parts[1..])
  }

  lemma CommaHead(a: string, b: string, rest: seq<string>)
    ensures JoinedByCommas([a + b] + rest) == a + JoinedByCommas([b] + rest)
  {
    assert ([a + b] + rest)[1..] == rest && ([b] + rest)[1..] == rest;
    assert (a + b) + "," + JoinedByCommas(rest) == a + (b + "," + JoinedByCommas(rest));
  }

  /** The parts are those of the text, cut at every comma. */
  lemma {:induction false} SplitsAtCommas(s: string)
    ensures JoinedByCommas(SplitCommas(s)) == s && forall part :: part in SplitCommas(s) ==> ',' !in part
  {
    if s != "" {
      var rest := SplitCommas(s[1..]);
      SplitsAtCommas(s[1..]);
      CommaHead([s[0]], rest[0], rest[1..]);
      assert s == [s[0]] + s[1..] && [rest[0]] + rest[1..] == rest && ([""] + rest)[1..] == rest;
    }
  }

  /** The members that a request names: those of a list, or of a text that reads
      as a list; the parts between commas of any other text; or the value. */
  lemma MembersMean(py: Python, value: Value, given: seq<Value>)
    requires match value
             case Many(members) => given == members
             case Text(text) =>
               (match py.literal(text)
                case Some(Many(members)) => given == members
                case _ => forall member :: member in given <==> Listed(py, SplitCommas(text), member))
             case _ => !value.Null? && given == [value]
    ensures CsvOrList(py, value).None? <==> given == []
    ensures CsvOrList(py, value).Some? ==>
              forall member :: member in CsvOrList(py, value).value <==>
                exists i :: 0 <= i < |given| && member == match given[i] case Text(text) => Text(py.strip(py.lower(text))) case other => other
  {
    var named := Named(py, value);
    NormaliseIs(py, named);
    if value.Text? { StrippedAre(py, SplitCommas(value.text)); }
    assert forall member :: member in named <==> member in given;
    SameNormal(py, named, given, Normalise(py, named));
  }

  function Named(py: Python, value: Value): seq<Value> {
    match value
    case Many(members) => members
    case Text(text) =>
      (match py.literal(text)
       case Some(Many(members)) => members
       case _ => StrippedParts(py, SplitCommas(text)))
    case _ => [value]
  }

  lemma SameNormal(py: Python, named: seq<Value>, given: seq<Value>, members: seq<Value>)
    requires Normal(py, named, members) && forall member :: member in named <==> member in given
    ensures named == [] <==> given == []
    ensures forall member :: member in members <==>
              exists i :: 0 <= i < |given| && member == match given[i] case Text(text) => Text(py.strip(py.lower(text))) case other => other
  {
    assert named != [] ==> named[0] in given;
    assert given != [] ==> given[0] in named;
    forall member | member in members
      ensures exists i :: 0 <= i < |given| && member == match given[i] case Text(text) => Text(py.strip(py.lower(text))) case other => other
    {
      var i :| 0 <= i < |members| && members[i] == member;
      assert named[i] in given;
      var j :| 0 <= j < |given| && given[j] == named[i];
    }
    forall i | 0 <= i < |given|
      ensures (match given[i] case Text(text) => Text(py.strip(py.lower(text))) case other => other) in members
    {
      assert given[i] in named;
      var j :| 0 <= j < |named| && named[j] == given[i];
      assert members[j] in members;
    }
  }

  // -------------------------------------------------------- empty and texts

  predicate Blank(holds: Leaf -> bool, key: string) { holds(Term(Keyword(key), Text(""), false)) }

  /** `empty` finds documents without the key or with a blank value, and `not
      empty` exactly the others. */
  lemma EmptyMeans(py: Python, holds: Leaf -> bool, key: string, value: Value)
    requires key != ""
    ensures var empty, other := Translate(py, Filter(key, Empty, value)), Translate(py, Filter(key, NotEmpty, value));
            && empty.Some? && (Means(holds, empty.value) <==> !holds(Exists(Field(key))) || Blank(holds, key))
            && other.Some? && (Means(holds, other.value) <==> !Means(holds, empty.value))
  {
    var absent := Bool([], [], [], [IsPresent(key)], 0);
    var either := Bool([], [], [absent, IsBlank(key)], [], 1);
    EvalBool(holds, absent);
    EvalBool(holds, either);
    CountBounds(holds, either.should);
    assert Any(holds, absent.mustNot) <==> Eval(holds, absent.mustNot[0]);
    assert Any(holds, either.should) <==> Eval(holds, either.should[0]) || Eval(holds, either.should[1]);
    OneMust(holds, either);
    PresentBut(holds, key, IsBlank(key));
  }

  /** The four text operators ask for the escaped text in the keyword sub-field. */
  lemma TextMeans(py: Python, holds: Leaf -> bool, key: string, value: Value)
    requires key != "" && Scalar(value) && Str(py, value) != ""
    ensures var text := Str(py, value);
            var has, lacks := Translate(py, Filter(key, HasText, value)), Translate(py, Filter(key, HasNoText, value));
            var starts, ends := Translate(py, Filter(key, StartWith, value)), Translate(py, Filter(key, EndWith, value));
            && has.Some? && (Means(holds, has.value) <==> holds(Wildcard(Keyword(key), "*" + Escape(text) + "*")))
            && lacks.Some? && (Means(holds, lacks.value) <==> holds(Exists(Field(key))) && !Means(holds, has.value))
            && starts.Some? && (Means(holds, starts.value) <==> holds(Prefix(Keyword(key), text)))
            && ends.Some? && (Means(holds, ends.value) <==> holds(Wildcard(Keyword(key), "*" + Escape(text))))
  {
    var text := Str(py, value);
    OneMust(holds, Leaf(Wildcard(Keyword(key), "*" + Escape(text) + "*")));
    OneMust(holds, Leaf(Wildcard(Keyword(key), "*" + Escape(text))));
    OneMust(holds, Leaf(Prefix(Keyword(key), text)));
    PresentBut(holds, key, Leaf(Wildcard(Keyword(key), "*" + Escape(text) + "*")));
  }

  /** A filter is left to memory exactly when its key is empty, its operator is
      unknown, or its value has no reading for the operator. */
  lemma UntranslatedExactly(py: Python, f: Filter)
    ensures Translate(py, f).None? <==>
              || f.key == "" || f.op.OtherOp?
              || ((f.op == Equal || f.op == NotEqual) && !Scalar(f.value))
              || ((f.op == Greater || f.op == Less || f.op == AtLeast || f.op == AtMost) && f.value.Null?)
              || ((f.op == In || f.op == NotIn) && (f.value.Null? || CsvOrList(py, f.value).None?))
              || ((f.op == HasText || f.op == HasNoText || f.op == StartWith || f.op == EndWith) && (!Scalar(f.value) || Str(py, f.value) == ""))
  {
  }
}
