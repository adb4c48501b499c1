/** Translating metadata filters into one search-engine query, and what the
    composed query means. */
module MetadataEsFilter {
  import opened Wrappers
  import opened Wildcards

  datatype Value = Null | Text(text: string) | Number(n: int) | Decimal(r: real) | Flag(b: bool) | Many(members: seq<Value>) | Object

  datatype Op = Equal | NotEqual | Greater | Less | AtLeast | AtMost | In | NotIn
    | HasText | HasNoText | StartWith | EndWith | Empty | NotEmpty | OtherOp(name: string)

  datatype Filter = Filter(key: string, op: Op, value: Value)

  /** Parts of the host language that the translation only calls. */
  datatype Python = Python(
    lower: string -> string,
    lowerChar: char -> char,
    strip: string -> string,
    digit: char -> bool,
    show: Value -> string,
    literal: string -> Option<Value>)

  /** A user key's field, or its exact-match keyword sub-field. */
  datatype Path = Field(key: string) | Keyword(key: string)

  datatype Leaf =
    | Exists(path: Path)
    | Term(path: Path, value: Value, ignoreCase: bool)
    | Terms(path: Path, values: seq<Value>)
    | Prefix(path: Path, text: string)
    | Wildcard(path: Path, pattern: string)
    | Range(path: Path, op: Op, value: Value)
    | KbIn(kbIds: seq<string>)

  datatype Clause =
    | Leaf(leaf: Leaf)
    | Bool(filter: seq<Clause>, must: seq<Clause>, should: seq<Clause>, mustNot: seq<Clause>, minimumShouldMatch: nat)

  // ------------------------------------------------------------ evaluation

  function Count(holds: Leaf -> bool, clauses: seq<Clause>): nat
    decreases clauses, 0
  {
    if clauses == [] then 0
    else (if Eval(holds, clauses[0]) then 1 else 0) + Count(holds, clauses[1..])
  }

  /** The engine's bool query: all of filter and must, none of mustNot, and at
      least the stated number of should. */
  predicate Eval(holds: Leaf -> bool, clause: Clause)
    decreases clause, 1
  {
    match clause
    case Leaf(leaf) => holds(leaf)
    case Bool(filter, must, should, mustNot, minimum) =>
      && Count(holds, filter) == |filter| && Count(holds, must) == |must|
      && Count(holds, mustNot) == 0 && Count(holds, should) >= minimum
  }

  predicate All(holds: Leaf -> bool, clauses: seq<Clause>) {
    forall i :: 0 <= i < |clauses| ==> Eval(holds, clauses[i])
  }

  predicate Any(holds: Leaf -> bool, clauses: seq<Clause>) {
    exists i :: 0 <= i < |clauses| && Eval(holds, clauses[i])
  }

  lemma {:induction false} CountBounds(holds: Leaf -> bool, clauses: seq<Clause>)
    ensures Count(holds, clauses) <= |clauses|
    ensures Count(holds, clauses) == |clauses| <==> All(holds, clauses)
    ensures Count(holds, clauses) == 0 <==> !Any(holds, clauses)
  {
    if clauses != [] {
      CountBounds(holds, clauses[1..]);
      assert clauses == [clauses[0]] + clauses[1..];
      assert All(holds, clauses) <==> Eval(holds, clauses[0]) && All(holds, clauses[1..]) by {
        assert forall i :: 0 <= i < |clauses[1..]| ==> clauses[1..][i] == clauses[i + 1];
        assert forall i :: 0 < i < |clauses| ==> clauses[i] == clauses[1..][i - 1];
      }
      assert Any(holds, clauses) <==> Eval(holds, clauses[0]) || Any(holds, clauses[1..]) by {
        assert forall i :: 0 <= i < |clauses[1..]| ==> clauses[1..][i] == clauses[i + 1];
        assert forall i :: 0 < i < |clauses| ==> clauses[i] == clauses[1..][i - 1];
      }
    }
  }

  lemma EvalBool(holds: Leaf -> bool, clause: Clause)
    requires clause.Bool?
    ensures Eval(holds, clause) <==>
              && All(holds, clause.filter) && All(holds, clause.must) && !Any(holds, clause.mustNot)
              && Count(holds, clause.should) >= clause.minimumShouldMatch
  {
    CountBounds(holds, clause.filter);
    CountBounds(holds, clause.must);
    CountBounds(holds, clause.mustNot);
  }

  // ----------------------------------------------------------- composition

  datatype Translated = Translated(must: seq<Clause>, mustNot: seq<Clause>)

  predicate Says(t: Translated) { t.must != [] || t.mustNot != [] }

  /** What one translated filter means on its own. */
  predicate Means(holds: Leaf -> bool, t: Translated) {
    All(holds, t.must) && !Any(holds, t.mustNot)
  }

  function ToClauses(t: Translated): seq<Clause> {
    if t.must == [] && t.mustNot == [] then []
    else if t.mustNot == [] && |t.must| == 1 then t.must
    else [Bool([], t.must, [], t.mustNot, 0)]
  }

  function Flatten(groups: seq<seq<Clause>>): seq<Clause> {
    if groups == [] then [] else groups[0] + Flatten(groups[1..])
  }

  function Groups(translated: seq<Translated>): (r: seq<seq<Clause>>)
    ensures |r| == |translated| && forall i :: 0 <= i < |r| ==> r[i] == ToClauses(translated[i])
  {
    seq(|translated|, i requires 0 <= i < |translated| => ToClauses(translated[i]))
  }

  function ToQuery(kbIds: seq<string>, logic: string, translated: seq<Translated>): Clause {
    var kb := Leaf(KbIn(kbIds));
    if translated == [] then Bool([kb], [], [], [], 0)
    else
      var flat := Flatten(Groups(translated));
      var inner := if logic == "or" then Bool([], [], flat, [], 1) else Bool([], flat, [], [], 0);
      Bool([kb, inner], [], [], [], 0)
  }

  /** A filter that says anything is one atomic clause with its own meaning. */
  lemma Atomic(holds: Leaf -> bool, t: Translated)
    requires Says(t)
    ensures |ToClauses(t)| == 1 && (Eval(holds, ToClauses(t)[0]) <==> Means(holds, t))
  {
    if t.mustNot == [] && |t.must| == 1 {
      assert All(holds, t.must) <==> Eval(holds, t.must[0]);
    } else {
      EvalBool(holds, ToClauses(t)[0]);
    }
  }

  lemma {:induction false} FlatMeans(holds: Leaf -> bool, translated: seq<Translated>)
    requires forall i :: 0 <= i < |translated| ==> Says(translated[i])
    ensures var flat := Flatten(Groups(translated));
            && |flat| == |translated|
            && forall i :: 0 <= i < |flat| ==> (Eval(holds, flat[i]) <==> Means(holds, translated[i]))
  {
    if translated != [] {
      Atomic(holds, translated[0]);
      FlatMeans(holds, translated[1..]);
      assert Groups(translated)[1..] == Groups(translated[1..]);
    }
  }

  /** The whole query: knowledge base membership and the AND, or the OR, over
      filters of "all of must and none of must_not". */
  lemma QueryMeans(holds: Leaf -> bool, kbIds: seq<string>, logic: string, translated: seq<Translated>)
    requires translated != [] && forall i :: 0 <= i < |translated| ==> Says(translated[i])
    ensures Eval(holds, ToQuery(kbIds, logic, translated)) <==>
              && holds(KbIn(kbIds))
              && if logic == "or" then exists i :: 0 <= i < |translated| && Means(holds, translated[i])
                 else forall i :: 0 <= i < |translated| ==> Means(holds, translated[i])
  {
    FlatMeans(holds, translated);
    var flat := Flatten(Groups(translated));
    var query := ToQuery(kbIds, logic, translated);
    var inner := query.filter[1];
    EvalBool(holds, query);
    EvalBool(holds, inner);
    CountBounds(holds, flat);
    CountBounds(holds, []);
    assert All(holds, query.filter) <==> Eval(holds, query.filter[0]) && Eval(holds, query.filter[1]);
    if logic == "or" {
      if i :| 0 <= i < |translated| && Means(holds, translated[i]) { assert Eval(holds, flat[i]); }
    } else {
      if All(holds, flat) {
        forall i | 0 <= i < |translated| ensures Means(holds, translated[i]) { assert Eval(holds, flat[i]); }
      }
    }
  }

  // ----------------------------------------------------------- translation

  function Str(py: Python, value: Value): string {
    if value.Text? then value.text else py.show(value)
  }

  predicate IsDate(py: Python, s: string) {
    && |s| == 10 && s[4] == '-' && s[7] == '-'
    && forall i :: 0 <= i < 10 && i != 4 && i != 7 ==> py.digit(s[i])
  }

  function CoerceScalar(py: Python, value: Value): Option<Value> {
    if value.Null? || value.Many? || value.Object? then None
    else
      var s := py.strip(Str(py, value));
      if IsDate(py, s) then Some(Text(s))
      else
        match py.literal(s)
        case Some(Text(text)) => Some(Text(py.lower(text)))
        case Some(Number(n)) => Some(Number(n))
        case Some(Decimal(r)) => Some(Decimal(r))
        case Some(Flag(b)) => Some(Flag(b))
        case _ => Some(Text(py.lower(s)))
  }

  function CoerceRange(py: Python, value: Value): Option<Value> {
    if value.Null? then None
    else
      var s := py.strip(Str(py, value));
      if IsDate(py, s) then Some(Text(s))
      else
        match py.literal(s)
        case Some(Number(n)) => Some(Number(n))
        case Some(Decimal(r)) => Some(Decimal(r))
        case Some(Flag(b)) => Some(Flag(b))
        case _ => Some(Text(s))
  }

  function CoerceString(py: Python, value: Value): (r: Option<string>)
    ensures r.Some? ==> r.value != "" && r.value == Str(py, value)
  {
    if value.Null? || value.Many? || value.Object? || Str(py, value) == "" then None else Some(Str(py, value))
  }

  function SplitCommas(s: string): (parts: seq<string>)
    ensures parts != []
  {
    if s == "" then [""]
    else
      var rest := SplitCommas(s[1..]);
      if s[0] == ',' then [""] + rest else [[s[0]] + rest[0]] + rest[1..]
  }

  function StrippedParts(py: Python, parts: seq<string>): seq<Value> {
    if parts == [] then []
    else (if py.strip(parts[0]) == "" then [] else [Text(py.strip(parts[0]))]) + StrippedParts(py, parts[1..])
  }

  function Normalise(py: Python, members: seq<Value>): seq<Value> {
    if members == [] then []
    else [if members[0].Text? then Text(py.strip(py.lower(members[0].text))) else members[0]] + Normalise(py, members[1..])
  }

  function CsvOrList(py: Python, value: Value): Option<seq<Value>> {
    if value.Null? then None
    else
      var members :=
        match value
        case Many(members) => members
        case Text(text) =>
          (match py.literal(text)
           case Some(Many(members)) => members
           case _ => StrippedParts(py, SplitCommas(text)))
        case _ => [value];
      if members == [] then None else Some(Normalise(py, members))
  }

  function TermOrMatch(key: string, value: Value): Clause {
    Leaf(if value.Text? then Term(Keyword(key), value, true) else Term(Field(key), value, false))
  }

  function TermsOf(key: string, members: seq<Value>): Clause {
    if forall i :: 0 <= i < |members| ==> !members[i].Text? then Leaf(Terms(Field(key), members))
    else Bool([], [], seq(|members|, i requires 0 <= i < |members| => TermOrMatch(key, members[i])), [], 1)
  }

  function Pattern(key: string, pattern: string): Clause { Leaf(Wildcard(Keyword(key), pattern)) }

  function IsPresent(key: string): Clause { Leaf(Exists(Field(key))) }

  function IsBlank(key: string): Clause { Leaf(Term(Keyword(key), Text(""), false)) }

  /** None is UnsupportedMetaFilter. */
  function Translate(py: Python, f: Filter): Option<Translated> {
    var k := f.key;
    if k == "" then None
    else
      match f.op
      case OtherOp(_) => None
      case Empty => Some(Translated([Bool([], [], [Bool([], [], [], [IsPresent(k)], 0), IsBlank(k)], [], 1)], []))
      case NotEmpty => Some(Translated([IsPresent(k)], [IsBlank(k)]))
      case Equal =>
        (match CoerceScalar(py, f.value)
         case None => None
         case Some(v) => Some(Translated([TermOrMatch(k, v)], [])))
      case NotEqual =>
        (match CoerceScalar(py, f.value)
         case None => None
         case Some(v) => Some(Translated([IsPresent(k)], [TermOrMatch(k, v)])))
      case In =>
        (match CsvOrList(py, f.value)
         case None => None
         case Some(members) => Some(Translated([TermsOf(k, members)], [])))
      case NotIn =>
        (match CsvOrList(py, f.value)
         case None => None
         case Some(members) => Some(Translated([IsPresent(k)], [TermsOf(k, members)])))
      case HasText =>
        (match CoerceString(py, f.value)
         case None => None
         case Some(t) => Some(Translated([Pattern(k, "*" + Escape(t) + "*")], [])))
      case HasNoText =>
        (match CoerceString(py, f.value)
         case None => None
         case Some(t) => Some(Translated([IsPresent(k)], [Pattern(k, "*" + Escape(t) + "*")])))
      case StartWith =>
        (match CoerceString(py, f.value)
         case None => None
         case Some(t) => Some(Translated([Leaf(Prefix(Keyword(k), t))], [])))
      case EndWith =>
        (match CoerceString(py, f.value)
         case None => None
         case Some(t) => Some(Translated([Pattern(k, "*" + Escape(t))], [])))
      case _ =>
        (match CoerceRange(py, f.value)
         case None => None
         case Some(v) => Some(Translated([IsPresent(k), Leaf(Range(Field(k), f.op, v))], [])))
  }

  lemma TranslateSays(py: Python, f: Filter)
    ensures Translate(py, f).Some? ==> Says(Translate(py, f).value)
  {
  }

  /** The plan of a request: every filter translated, or the whole unsupported. */
  predicate Supported(py: Python, filters: seq<Filter>, logic: string) {
    (logic == "and" || logic == "or") && forall i :: 0 <= i < |filters| ==> Translate(py, filters[i]).Some?
  }

  function Planned(py: Python, filters: seq<Filter>): (r: seq<Translated>)
    requires forall i :: 0 <= i < |filters| ==> Translate(py, filters[i]).Some?
    ensures |r| == |filters| && forall i :: 0 <= i < |r| ==> r[i] == Translate(py, filters[i]).value
  {
    seq(|filters|, i requires 0 <= i < |filters| => Translate(py, filters[i]).value)
  }

  method PlanPushdown(py: Python, filters: seq<Filter>, logic: string) returns (plan: Option<seq<Translated>>)
    ensures plan.Some? <==> Supported(py, filters, logic)
    ensures plan.Some? ==> plan.value == Planned(py, filters)
  {
    if logic != "and" && logic != "or" { return None; }
    var translated: seq<Translated> := [];
    for n := 0 to |filters|
      invariant |translated| == n
      invariant forall i :: 0 <= i < n ==> Translate(py, filters[i]) == Some(translated[i])
    {
      var t := Translate(py, filters[n]);
      if t.None? { return None; }
      translated := translated + [t.value];
    }
    return Some(translated);
  }

  /** For every supported, non-empty request: evaluating the rendered query is
      membership in the knowledge bases and the AND or OR of what each filter
      means by itself. */
  lemma RequestMeans(py: Python, holds: Leaf -> bool, kbIds: seq<string>, filters: seq<Filter>, logic: string)
    requires filters != [] && Supported(py, filters, logic)
    ensures Eval(holds, ToQuery(kbIds, logic, Planned(py, filters))) <==>
              && holds(KbIn(kbIds))
              && if logic == "or" then exists i :: 0 <= i < |filters| && Means(holds, Translate(py, filters[i]).value)
                 else forall i :: 0 <= i < |filters| ==> Means(holds, Translate(py, filters[i]).value)
  {
    var plan := Planned(py, filters);
    forall i | 0 <= i < |plan| ensures Says(plan[i]) { TranslateSays(py, filters[i]); }
    QueryMeans(holds, kbIds, logic, plan);
    if i :| 0 <= i < |filters| && Means(holds, Translate(py, filters[i]).value) { assert Means(holds, plan[i]); }
    if j :| 0 <= j < |plan| && Means(holds, plan[j]) { assert Means(holds, Translate(py, filters[j]).value); }
    if forall i :: 0 <= i < |plan| ==> Means(holds, plan[i]) {
      forall i | 0 <= i < |filters| ensures Means(holds, Translate(py, filters[i]).value) { assert Means(holds, plan[i]); }
    }
  }

  /** Without filters the query is the whole knowledge base. */
  lemma EmptyRequestIsKb(holds: Leaf -> bool, kbIds: seq<string>, logic: string)
    ensures Eval(holds, ToQuery(kbIds, logic, [])) <==> holds(KbIn(kbIds))
  {
    var query := ToQuery(kbIds, logic, []);
    EvalBool(holds, query);
    assert All(holds, query.filter) <==> Eval(holds, query.filter[0]);
  }
}
