/** Push-down against in-memory evaluation for the string operators. */
module PushdownAgreement {
  import opened Wrappers
  import opened Wildcards
  import opened CaseFolding
  import opened MetadataEsFilter
  import opened MetadataFilter

  /** A document's metadata, every key with its list of string values. */
  datatype Doc = Doc(id: string, kb: string, fields: map<string, seq<string>>)

  /** The index: keyword sub-fields drop values longer than the limit; leaves
      the theorems do not touch are evaluated by an arbitrary function. */
  datatype Index = Index(keywordLimit: nat, other: (Doc, Leaf) -> bool)

  function Values(doc: Doc, key: string): seq<string> {
    if key in doc.fields then doc.fields[key] else []
  }

  predicate Holds(index: Index, doc: Doc, leaf: Leaf) {
    match leaf
    case KbIn(kbIds) => doc.kb in kbIds
    case Exists(Field(key)) => Values(doc, key) != []
    case Prefix(Keyword(key), text) =>
      exists v :: v in Values(doc, key) && |v| <= index.keywordLimit && StartsWith(AsciiLower(v), AsciiLower(text))
    case Wildcard(Keyword(key), pattern) =>
      exists v :: v in Values(doc, key) && |v| <= index.keywordLimit && Match(Parse(pattern), v)
    case _ => index.other(doc, leaf)
  }

  function Engine(index: Index, doc: Doc): Leaf -> bool {
    leaf => Holds(index, doc, leaf)
  }

  ghost predicate InMetas(metas: Metas, key: string, value: string, id: string) {
    key in metas && exists b :: b in metas[key] && b.value == value && id in b.ids
  }

  ghost predicate InDocs(docs: set<Doc>, kbIds: seq<string>, key: string, value: string, id: string) {
    exists doc :: doc in docs && doc.kb in kbIds && doc.id == id && value in Values(doc, key)
  }

  /** Metadata flattened from the documents of the knowledge bases: each value
      of a list in its own bucket. */
  ghost predicate Flattened(metas: Metas, docs: set<Doc>, kbIds: seq<string>) {
    forall key, value, id :: InMetas(metas, key, value, id) <==> InDocs(docs, kbIds, key, value, id)
  }

  ghost predicate UniqueIds(docs: set<Doc>) {
    forall a, b :: a in docs && b in docs && a.id == b.id ==> a == b
  }

  predicate Textual(op: Op) { op == HasText || op == HasNoText || op == StartWith || op == EndWith }

  /** Lower-casing works letter by letter, in one pass, on all strings without
      the two letters for which it does not. */
  ghost predicate LowersByLetter(py: Python) {
    && (forall s :: Plain(s) ==> py.lower(s) == Mapped(py.lowerChar, s))
    && (forall c :: PlainChar(c) ==> PlainChar(py.lowerChar(c)) && py.lowerChar(py.lowerChar(c)) == py.lowerChar(c))
  }

  /** The fragment of requests: string operators on a non-empty plain string. */
  predicate StringFilter(f: Filter) {
    f.key != "" && Textual(f.op) && f.value.Text? && f.value.text != "" && Plain(f.value.text)
  }

  /** The values of the field are plain, and no letter in them is equal to one of
      the text for the engine and not in memory, or the other way round. */
  predicate Readable(py: Python, f: Filter, doc: Doc)
    requires f.value.Text?
  {
    forall v :: v in Values(doc, f.key) ==> Plain(v) && AlikeIn(py.lowerChar, f.value.text, v)
  }

  predicate Seen(index: Index, v: string) { |v| <= index.keywordLimit }

  /** Does one value match, as the in-memory evaluator sees it? */
  predicate ValueMatches(py: Python, compare: Compare, f: Filter, v: string) {
    Matched(py, compare, f.op, v, f.value)
  }

  ghost predicate SomeValueMatches(py: Python, compare: Compare, f: Filter, doc: Doc) {
    exists v :: v in Values(doc, f.key) && ValueMatches(py, compare, f, v)
  }

  /** In memory a document passes when one of its values does. */
  lemma HitIsSomeValue(py: Python, compare: Compare, metas: Metas, docs: set<Doc>, kbIds: seq<string>, f: Filter, doc: Doc)
    requires Flattened(metas, docs, kbIds) && UniqueIds(docs) && doc in docs && doc.kb in kbIds
    ensures Hit(py, compare, metas, f, doc.id) <==> SomeValueMatches(py, compare, f, doc)
  {
    if Hit(py, compare, metas, f, doc.id) {
      var b :| b in metas[f.key] && doc.id in b.ids && Matched(py, compare, f.op, b.value, f.value);
      assert InMetas(metas, f.key, b.value, doc.id);
      assert InDocs(docs, kbIds, f.key, b.value, doc.id);
      assert ValueMatches(py, compare, f, b.value);
    }
    if SomeValueMatches(py, compare, f, doc) {
      var v :| v in Values(doc, f.key) && ValueMatches(py, compare, f, v);
      assert InDocs(docs, kbIds, f.key, v, doc.id);
      assert InMetas(metas, f.key, v, doc.id);
    }
  }

  lemma OnlyKnownIdsHit(py: Python, compare: Compare, metas: Metas, docs: set<Doc>, kbIds: seq<string>, f: Filter, id: string)
    requires Flattened(metas, docs, kbIds) && Hit(py, compare, metas, f, id)
    ensures exists doc :: doc in docs && doc.kb in kbIds && doc.id == id
  {
    var b :| b in metas[f.key] && id in b.ids && Matched(py, compare, f.op, b.value, f.value);
    assert InMetas(metas, f.key, b.value, id);
    assert InDocs(docs, kbIds, f.key, b.value, id);
  }

  /** What the engine's leaf finds in one value it sees. */
  predicate EngineFinds(f: Filter, v: string)
    requires f.value.Text?
  {
    match f.op
    case StartWith => StartsWith(AsciiLower(v), AsciiLower(f.value.text))
    case EndWith => Match(Parse("*" + Escape(f.value.text)), v)
    case _ => Match(Parse("*" + Escape(f.value.text) + "*"), v)
  }

  /** And what the in-memory evaluator finds in it. */
  predicate MemoryFinds(py: Python, compare: Compare, f: Filter, v: string) {
    if f.op == HasNoText then !ValueMatches(py, compare, f, v) else ValueMatches(py, compare, f, v)
  }

  lemma LowerFacts(py: Python, s: string)
    requires LowersByLetter(py) && Plain(s)
    ensures py.lower(s) == Mapped(py.lowerChar, s) && py.lower(py.lower(s)) == Mapped(py.lowerChar, s)
  {
    var once := Mapped(py.lowerChar, s);
    assert Plain(once) && Mapped(py.lowerChar, once) == once;
  }

  /** Both, as the same match under the two foldings. */
  lemma FindsAreMatches(py: Python, compare: Compare, f: Filter, v: string)
    requires LowersByLetter(py) && StringFilter(f) && Plain(v)
    ensures var t, l := f.value.text, py.lowerChar;
            match f.op
            case StartWith =>
              && EngineFinds(f, v) == StartsWith(AsciiLower(v), AsciiLower(t))
              && MemoryFinds(py, compare, f, v) == StartsWith(Mapped(l, v), Mapped(l, t))
            case EndWith =>
              && EngineFinds(f, v) == EndsWith(AsciiLower(v), AsciiLower(t))
              && MemoryFinds(py, compare, f, v) == EndsWith(Mapped(l, v), Mapped(l, t))
            case _ =>
              && EngineFinds(f, v) == Wildcards.Contains(AsciiLower(v), AsciiLower(t))
              && MemoryFinds(py, compare, f, v) == Wildcards.Contains(Mapped(l, v), Mapped(l, t))
  {
    LowerFacts(py, v);
    LowerFacts(py, f.value.text);
    ContainsPattern(f.value.text, v);
    SuffixPattern(f.value.text, v);
  }

  /** The engine's leaf and the host's string method agree on one value. */
  lemma ValueAgrees(py: Python, compare: Compare, f: Filter, v: string)
    requires LowersByLetter(py) && StringFilter(f) && Plain(v) && AlikeIn(py.lowerChar, f.value.text, v)
    ensures EngineFinds(f, v) <==> MemoryFinds(py, compare, f, v)
  {
    FindsAreMatches(py, compare, f, v);
    MatchesAlike(py.lowerChar, f.value.text, v);
  }

  lemma LettersDiffer(py: Python, compare: Compare, f: Filter, i: nat, c: char)
    requires LowersByLetter(py) && StringFilter(f) && i < |f.value.text| && PlainChar(c)
    requires EngineFinds(f, f.value.text[i := c]) <==> MemoryFinds(py, compare, f, f.value.text[i := c])
    ensures Alike(py.lowerChar, f.value.text[i], c)
  {
    var t := f.value.text;
    var v := t[i := c];
    FindsAreMatches(py, compare, f, v);
    OneLetter(py.lowerChar, t, i, c);
    SameLength(AsciiLower(v), AsciiLower(t));
    SameLength(Mapped(py.lowerChar, v), Mapped(py.lowerChar, t));
  }

  /** Exactly: the two agree on every plain value if and only if every letter of
      the text folds the same for both. */
  lemma FoldingExactly(py: Python, compare: Compare, f: Filter)
    requires LowersByLetter(py) && StringFilter(f)
    ensures (forall v :: Plain(v) ==> (EngineFinds(f, v) <==> MemoryFinds(py, compare, f, v))) <==>
            FoldsEverywhere(py.lowerChar, f.value.text)
  {
    var t := f.value.text;
    if FoldsEverywhere(py.lowerChar, t) {
      forall v | Plain(v) ensures EngineFinds(f, v) <==> MemoryFinds(py, compare, f, v) {
        ValueAgrees(py, compare, f, v);
      }
    }
    if forall v :: Plain(v) ==> (EngineFinds(f, v) <==> MemoryFinds(py, compare, f, v)) {
      forall i, c: char | 0 <= i < |t| && PlainChar(c) ensures Alike(py.lowerChar, t[i], c) {
        assert Plain(t[i := c]);
        LettersDiffer(py, compare, f, i, c);
      }
    }
  }

  lemma SingleLeaf(holds: Leaf -> bool, leaf: Leaf)
    ensures Means(holds, Translated([Leaf(leaf)], [])) <==> holds(leaf)
  {
    var must := [Leaf(leaf)];
    assert All(holds, must) <==> Eval(holds, must[0]);
  }

  lemma PresentWithout(holds: Leaf -> bool, key: string, leaf: Leaf)
    ensures Means(holds, Translated([IsPresent(key)], [Leaf(leaf)])) <==> holds(Exists(Field(key))) && !holds(leaf)
  {
    var must, mustNot := [IsPresent(key)], [Leaf(leaf)];
    assert All(holds, must) <==> Eval(holds, must[0]);
    assert Any(holds, mustNot) <==> Eval(holds, mustNot[0]);
  }

  /** The engine's leaf on the whole field: some value it sees. */
  lemma LeafFinds(py: Python, index: Index, f: Filter, doc: Doc)
    requires StringFilter(f)
    ensures Translate(py, f).Some?
    ensures Means(Engine(index, doc), Translate(py, f).value) <==>
            var found := exists v :: v in Values(doc, f.key) && Seen(index, v) && EngineFinds(f, v);
            if f.op == HasNoText then Values(doc, f.key) != [] && !found else found
  {
    if f.op == HasNoText {
      PresentWithout(Engine(index, doc), f.key, Wildcard(Keyword(f.key), "*" + Escape(f.value.text) + "*"));
    } else {
      SingleLeaf(Engine(index, doc), Translate(py, f).value.must[0].leaf);
    }
  }

  /** A value that matches is one the engine sees, or nothing matches. */
  ghost predicate MatchIsSeen(py: Python, compare: Compare, index: Index, f: Filter, doc: Doc) {
    SomeValueMatches(py, compare, f, doc) ==>
      exists v :: v in Values(doc, f.key) && Seen(index, v) && ValueMatches(py, compare, f, v)
  }

  /** The three positive operators agree on documents with any number of values,
      exactly where the keyword limit hides no match. */
  lemma PositiveAgreesIff(py: Python, compare: Compare, index: Index, f: Filter, doc: Doc)
    requires LowersByLetter(py) && StringFilter(f) && f.op != HasNoText && Readable(py, f, doc)
    ensures Translate(py, f).Some?
    ensures (Means(Engine(index, doc), Translate(py, f).value) <==> SomeValueMatches(py, compare, f, doc)) <==>
            MatchIsSeen(py, compare, index, f, doc)
  {
    LeafFinds(py, index, f, doc);
    forall v | v in Values(doc, f.key) ensures EngineFinds(f, v) <==> ValueMatches(py, compare, f, v) {
      ValueAgrees(py, compare, f, v);
    }
  }

  /** Empty, or every value contains the text and one of them is seen, or some
      value lacks it and no seen one contains it. */
  predicate Uniform(py: Python, compare: Compare, index: Index, f: Filter, doc: Doc) {
    var values := Values(doc, f.key);
    || values == []
    || ((forall v :: v in values ==> !ValueMatches(py, compare, f, v)) && exists v :: v in values && Seen(index, v))
    || ((exists v :: v in values && ValueMatches(py, compare, f, v)) &&
        forall v :: v in values && Seen(index, v) ==> ValueMatches(py, compare, f, v))
  }

  /** `not contains` agrees exactly on the uniform documents; with two values of
      which one contains the text, memory matches on the other value's bucket
      and the engine does not. */
  lemma NotContainsAgreesIff(py: Python, compare: Compare, index: Index, f: Filter, doc: Doc)
    requires LowersByLetter(py) && StringFilter(f) && f.op == HasNoText && Readable(py, f, doc)
    ensures Translate(py, f).Some?
    ensures (Means(Engine(index, doc), Translate(py, f).value) <==> SomeValueMatches(py, compare, f, doc)) <==>
            Uniform(py, compare, index, f, doc)
  {
    LeafFinds(py, index, f, doc);
    forall v | v in Values(doc, f.key) ensures EngineFinds(f, v) <==> !ValueMatches(py, compare, f, v) {
      ValueAgrees(py, compare, f, v);
    }
    assert Values(doc, f.key) != [] ==> Values(doc, f.key)[0] in Values(doc, f.key);
  }

  ghost predicate Agrees(py: Python, compare: Compare, index: Index, f: Filter, doc: Doc)
    requires f.value.Text?
  {
    && Readable(py, f, doc)
    && if f.op == HasNoText then Uniform(py, compare, index, f, doc) else MatchIsSeen(py, compare, index, f, doc)
  }

  /** Every filter of the request is a string filter the document is fit for. */
  ghost predicate Fit(py: Python, compare: Compare, index: Index, filters: seq<Filter>, doc: Doc) {
    forall i :: 0 <= i < |filters| ==> StringFilter(filters[i]) && Agrees(py, compare, index, filters[i], doc)
  }

  lemma FilterAgrees(py: Python, compare: Compare, index: Index, metas: Metas, docs: set<Doc>, kbIds: seq<string>, f: Filter, doc: Doc)
    requires LowersByLetter(py) && Flattened(metas, docs, kbIds) && UniqueIds(docs) && doc in docs && doc.kb in kbIds
    requires Fit(py, compare, index, [f], doc)
    ensures Translate(py, f).Some?
    ensures Means(Engine(index, doc), Translate(py, f).value) <==> Hit(py, compare, metas, f, doc.id)
  {
    assert [f][0] == f;
    HitIsSomeValue(py, compare, metas, docs, kbIds, f, doc);
    if f.op == HasNoText {
      NotContainsAgreesIff(py, compare, index, f, doc);
    } else {
      PositiveAgreesIff(py, compare, index, f, doc);
    }
  }

  /** What the search returns for a request. */
  ghost predicate Pushed(py: Python, index: Index, docs: set<Doc>, kbIds: seq<string>, filters: seq<Filter>, logic: string, id: string)
    requires Supported(py, filters, logic)
  {
    exists doc :: doc in docs && doc.id == id && Eval(Engine(index, doc), ToQuery(kbIds, logic, Planned(py, filters)))
  }

  /** For any non-empty request of string filters, under either logic, over any
      documents fit for it: push-down and memory return the same documents. */
  lemma PushdownAgrees(py: Python, compare: Compare, index: Index, metas: Metas, docs: set<Doc>, kbIds: seq<string>, filters: seq<Filter>, logic: string, id: string)
    requires LowersByLetter(py) && Flattened(metas, docs, kbIds) && UniqueIds(docs)
    requires filters != [] && (logic == "and" || logic == "or")
    requires forall i :: 0 <= i < |filters| ==> StringFilter(filters[i])
    requires forall doc :: doc in docs && doc.kb in kbIds ==> Fit(py, compare, index, filters, doc)
    ensures Supported(py, filters, logic)
    ensures Pushed(py, index, docs, kbIds, filters, logic, id) <==> Answers(py, compare, metas, filters, logic, id)
  {
    assert Supported(py, filters, logic) by { StringFiltersSupported(py, filters, logic); }
    forall doc | doc in docs && doc.id == id
      ensures Eval(Engine(index, doc), ToQuery(kbIds, logic, Planned(py, filters))) <==>
              doc.kb in kbIds && Answers(py, compare, metas, filters, logic, id)
    {
      DocAgrees(py, compare, index, metas, docs, kbIds, filters, logic, doc);
    }
    if Answers(py, compare, metas, filters, logic, id) {
      SomeFilterHits(py, compare, metas, docs, kbIds, filters, logic, id);
    }
  }

  lemma StringFiltersSupported(py: Python, filters: seq<Filter>, logic: string)
    requires logic == "and" || logic == "or"
    requires forall i :: 0 <= i < |filters| ==> StringFilter(filters[i])
    ensures Supported(py, filters, logic)
  {
  }

  lemma SomeFilterHits(py: Python, compare: Compare, metas: Metas, docs: set<Doc>, kbIds: seq<string>, filters: seq<Filter>, logic: string, id: string)
    requires Flattened(metas, docs, kbIds) && Answers(py, compare, metas, filters, logic, id)
    ensures exists doc :: doc in docs && doc.kb in kbIds && doc.id == id
  {
    var i :| 0 <= i < |filters| && Hit(py, compare, metas, filters[i], id);
    OnlyKnownIdsHit(py, compare, metas, docs, kbIds, filters[i], id);
  }

  lemma DocAgrees(py: Python, compare: Compare, index: Index, metas: Metas, docs: set<Doc>, kbIds: seq<string>, filters: seq<Filter>, logic: string, doc: Doc)
    requires LowersByLetter(py) && Flattened(metas, docs, kbIds) && UniqueIds(docs) && doc in docs
    requires filters != [] && (logic == "and" || logic == "or") && Supported(py, filters, logic)
    requires doc.kb in kbIds ==> Fit(py, compare, index, filters, doc)
    ensures Eval(Engine(index, doc), ToQuery(kbIds, logic, Planned(py, filters))) <==>
            doc.kb in kbIds && Answers(py, compare, metas, filters, logic, doc.id)
  {
    RequestMeans(py, Engine(index, doc), kbIds, filters, logic);
    if doc.kb in kbIds {
      EachAgrees(py, compare, index, metas, docs, kbIds, filters, doc);
      LogicAgrees(py, compare, index, metas, filters, logic, doc);
    }
  }

  lemma EachAgrees(py: Python, compare: Compare, index: Index, metas: Metas, docs: set<Doc>, kbIds: seq<string>, filters: seq<Filter>, doc: Doc)
    requires LowersByLetter(py) && Flattened(metas, docs, kbIds) && UniqueIds(docs) && doc in docs && doc.kb in kbIds
    requires Fit(py, compare, index, filters, doc)
    ensures forall i :: 0 <= i < |filters| ==>
              && Translate(py, filters[i]).Some?
              && (Means(Engine(index, doc), Translate(py, filters[i]).value) <==> Hit(py, compare, metas, filters[i], doc.id))
  {
    forall i | 0 <= i < |filters|
      ensures && Translate(py, filters[i]).Some?
              && (Means(Engine(index, doc), Translate(py, filters[i]).value) <==> Hit(py, compare, metas, filters[i], doc.id))
    {
      FilterAgrees(py, compare, index, metas, docs, kbIds, filters[i], doc);
    }
  }

  lemma LogicAgrees(py: Python, compare: Compare, index: Index, metas: Metas, filters: seq<Filter>, logic: string, doc: Doc)
    requires filters != [] && (logic == "and" || logic == "or")
    requires forall i :: 0 <= i < |filters| ==>
              && Translate(py, filters[i]).Some?
              && (Means(Engine(index, doc), Translate(py, filters[i]).value) <==> Hit(py, compare, metas, filters[i], doc.id))
    ensures (if logic == "or" then exists i :: 0 <= i < |filters| && Means(Engine(index, doc), Translate(py, filters[i]).value)
             else forall i :: 0 <= i < |filters| ==> Means(Engine(index, doc), Translate(py, filters[i]).value))
            <==> Answers(py, compare, metas, filters, logic, doc.id)
  {
  }

  // ------------------------------------------------------- known divergences

  lemma TaggedValues(py: Python, compare: Compare, f: Filter, a: string, b: string)
    requires LowersByLetter(py) && f.key != "" && f.op == HasNoText && f.value == Text(a)
    requires Plain(a) && Plain(b) && 0 < |a| == |b| && py.lowerChar(a[0]) != py.lowerChar(b[0])
    ensures EngineFinds(f, a) && ValueMatches(py, compare, f, b)
  {
    FindsAreMatches(py, compare, f, a);
    FindsAreMatches(py, compare, f, b);
    SameLength(AsciiLower(a), AsciiLower(a));
    var l := py.lowerChar;
    assert Mapped(l, a)[0] != Mapped(l, b)[0];
    SameLength(Mapped(l, b), Mapped(l, a));
  }

  /** A document tagged [draft, final]: `not contains draft` passes in memory,
      through the bucket of "final", and is rejected by the query. */
  lemma TwoValuesDiverge(py: Python, compare: Compare, index: Index, doc: Doc)
    requires LowersByLetter(py) && py.lowerChar('d') != py.lowerChar('f')
    requires index.keywordLimit >= 5 && Values(doc, "tag") == ["draft", "final"]
    ensures var f := Filter("tag", HasNoText, Text("draft"));
            && Translate(py, f).Some?
            && SomeValueMatches(py, compare, f, doc)
            && !Means(Engine(index, doc), Translate(py, f).value)
  {
    var a, b := "draft", "final";
    var f := Filter("tag", HasNoText, Text(a));
    assert Values(doc, "tag")[0] == a && Values(doc, "tag")[1] == b;
    TaggedValues(py, compare, f, a, b);
    LeafFinds(py, index, f, doc);
    assert a in Values(doc, "tag") && Seen(index, a) && EngineFinds(f, a);
    assert b in Values(doc, "tag") && ValueMatches(py, compare, f, b);
  }

  /** The engine folds ASCII only: a value that differs from the text in the case
      of another letter matches in memory and not in the index. The text may be
      ASCII itself: the Kelvin sign lowers to k. */
  lemma OtherLettersDiverge(py: Python, compare: Compare, index: Index, doc: Doc, upper: char, lower: char)
    requires LowersByLetter(py) && Values(doc, "name") == [[upper]]
    requires (upper == '\U{C9}' && lower == '\U{E9}') || (upper == '\U{212A}' && lower == 'k')
    requires py.lowerChar(upper) == lower
    ensures var f := Filter("name", HasText, Text([lower]));
            && Translate(py, f).Some?
            && SomeValueMatches(py, compare, f, doc)
            && !Means(Engine(index, doc), Translate(py, f).value)
  {
    var f := Filter("name", HasText, Text([lower]));
    assert Values(doc, "name")[0] == [upper];
    OneOtherLetter(py, compare, f, upper, lower);
    LeafFinds(py, index, f, doc);
  }

  lemma OneOtherLetter(py: Python, compare: Compare, f: Filter, upper: char, lower: char)
    requires LowersByLetter(py) && f.key != "" && f.op == HasText && f.value == Text([lower])
    requires PlainChar(upper) && PlainChar(lower) && py.lowerChar(upper) == lower
    requires AsciiLowerChar(upper) != AsciiLowerChar(lower)
    ensures ValueMatches(py, compare, f, [upper]) && !EngineFinds(f, [upper])
  {
    FindsAreMatches(py, compare, f, [upper]);
    var l := py.lowerChar;
    assert Mapped(l, [upper])[0] == Mapped(l, [lower])[0];
    assert Mapped(l, [upper]) == Mapped(l, [lower]);
    SameLength(Mapped(l, [upper]), Mapped(l, [lower]));
    assert AsciiLower([upper])[0] != AsciiLower([lower])[0];
    SameLength(AsciiLower([upper]), AsciiLower([lower]));
  }

  // ------------------------------------------------------------- routing

  /** What the metadata index does with a request. */
  datatype Backend = Unresolved | MissingIndex | Unavailable | Searching(matches: set<string>)

  const RESULT_LIMIT := 10000

  predicate PushdownSafe(filters: seq<Filter>) {
    forall i :: 0 <= i < |filters| ==>
      !filters[i].op.OtherOp? && filters[i].op != NotEqual && filters[i].op != NotIn && filters[i].key != ""
  }

  method TryPushdown(py: Python, backend: Backend, kbIds: seq<string>, filters: seq<Filter>, logic: string)
    returns (found: Option<set<string>>)
    ensures found.Some? <==>
              || backend.MissingIndex?
              || (backend.Searching? && |backend.matches| <= 10000 && Supported(py, filters, logic)
                  && forall i :: 0 <= i < |filters| ==> filters[i].op != NotEqual && filters[i].op != NotIn)
    ensures found.Some? ==> found.value == if backend.MissingIndex? then {} else backend.matches
  {
    if backend.Unresolved? { return None; }
    if backend.MissingIndex? { return Some({}); }
    if backend.Unavailable? || !PushdownSafe(filters) { return None; }
    var plan := PlanPushdown(py, filters, logic);
    if plan.None? || |backend.matches| > RESULT_LIMIT { return None; }
    return Some(backend.matches);
  }

  /** The documents behind the two evaluators, and what the index answers. */
  ghost predicate Scene(py: Python, index: Index, backend: Backend, metas: Metas, docs: set<Doc>, kbIds: seq<string>, filters: seq<Filter>, logic: string) {
    && Flattened(metas, docs, kbIds) && UniqueIds(docs)
    && (backend.MissingIndex? ==> docs == {})
    && (backend.Searching? && Supported(py, filters, logic) ==>
          forall id :: id in backend.matches <==> Pushed(py, index, docs, kbIds, filters, logic, id))
  }

  /** Whatever the index does, too many results included, the routed answer is
      the in-memory answer for string filters over documents fit for them. */
  method FilterDocIds(py: Python, compare: Compare, backend: Backend, metas: Metas, kbIds: seq<string>, filters: seq<Filter>, logic: string,
                      ghost index: Index, ghost docs: set<Doc>)
    returns (ids: set<string>)
    requires LowersByLetter(py) && Scene(py, index, backend, metas, docs, kbIds, filters, logic)
    requires forall i :: 0 <= i < |filters| ==> StringFilter(filters[i])
    requires forall doc :: doc in docs && doc.kb in kbIds ==> Fit(py, compare, index, filters, doc)
    ensures forall id :: id in ids <==> Answers(py, compare, metas, filters, logic, id)
  {
    var found: Option<set<string>> := None;
    if filters != [] && kbIds != [] {
      found := TryPushdown(py, backend, kbIds, filters, logic);
    }
    if found.Some? {
      forall id ensures id in found.value <==> Answers(py, compare, metas, filters, logic, id) {
        if backend.MissingIndex? {
          NobodyAnswers(py, compare, metas, kbIds, filters, logic, id);
        } else {
          PushdownAgrees(py, compare, index, metas, docs, kbIds, filters, logic, id);
        }
      }
      return found.value;
    }
    ids := MetaFilter(py, compare, metas, filters, logic);
  }

  lemma NobodyAnswers(py: Python, compare: Compare, metas: Metas, kbIds: seq<string>, filters: seq<Filter>, logic: string, id: string)
    requires Flattened(metas, {}, kbIds)
    ensures !Answers(py, compare, metas, filters, logic, id)
  {
    if Answers(py, compare, metas, filters, logic, id) {
      SomeFilterHits(py, compare, metas, {}, kbIds, filters, logic, id);
    }
  }
}
