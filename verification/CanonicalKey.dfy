/** The canonical key of JSON-like values: two keys are equal exactly when the
    values are. */
module CanonicalKey {
  /** A string, or another scalar up to the host language's equality. */
  datatype Atom = Str(text: string) | Other(id: int)

  datatype Py =
    | Scalar(atom: Atom)
    | PyList(items: seq<Py>)
    | PyTuple(items: seq<Py>)
    | PyDict(entries: seq<(Key, Py)>)

  /** Dictionary keys are hashable: scalars, or tuples of hashable values. */
  datatype Key = KeyScalar(atom: Atom) | KeyTuple(parts: seq<Key>)

  /** Keys of one dictionary are pairwise different. */
  predicate WellFormed(v: Py) {
    match v
    case Scalar(_) => true
    case PyList(items) => forall i :: 0 <= i < |items| ==> WellFormed(items[i])
    case PyTuple(items) => forall i :: 0 <= i < |items| ==> WellFormed(items[i])
    case PyDict(entries) =>
      && (forall i :: 0 <= i < |entries| ==> WellFormed(entries[i].1))
      && (forall i, j :: 0 <= i < j < |entries| ==> entries[i].0 != entries[j].0)
  }

  /** Equality of the host language: dictionaries ignore order, a list is never
      a tuple, and containers never equal scalars. */
  predicate PyEqual(a: Py, b: Py) {
    match (a, b)
    case (Scalar(x), Scalar(y)) => x == y
    case (PyList(x), PyList(y)) => |x| == |y| && forall i :: 0 <= i < |x| ==> PyEqual(x[i], y[i])
    case (PyTuple(x), PyTuple(y)) => |x| == |y| && forall i :: 0 <= i < |x| ==> PyEqual(x[i], y[i])
    case (PyDict(x), PyDict(y)) =>
      |x| == |y| && forall i :: 0 <= i < |x| ==> exists j :: 0 <= j < |y| && x[i].0 == y[j].0 && PyEqual(x[i].1, y[j].1)
    case _ => false
  }

  /** Hashable values only: scalars, tuples and frozen sets. Containers become
      a tuple of a tag and their contents; dictionary keys stay as they are. */
  datatype Canon = Plain(atom: Atom) | Tup(items: seq<Canon>) | Frozen(elements: set<Canon>)

  const DICT_TAG := Plain(Str("__dict__"))
  const LIST_TAG := Plain(Str("__list__"))
  const TUPLE_TAG := Plain(Str("__tuple__"))

  function Raw(key: Key): Canon {
    match key
    case KeyScalar(atom) => Plain(atom)
    case KeyTuple(parts) => Tup(seq(|parts|, i requires 0 <= i < |parts| => Raw(parts[i])))
  }

  function Canonicalize(v: Py): Canon {
    match v
    case Scalar(atom) => Plain(atom)
    case PyList(items) => Tup([LIST_TAG, Tup(seq(|items|, i requires 0 <= i < |items| => Canonicalize(items[i])))])
    case PyTuple(items) => Tup([TUPLE_TAG, Tup(seq(|items|, i requires 0 <= i < |items| => Canonicalize(items[i])))])
    case PyDict(entries) => Tup([DICT_TAG, Frozen(set i | 0 <= i < |entries| :: Tup([Raw(entries[i].0), Canonicalize(entries[i].1)]))])
  }

  lemma TagsDiffer()
    ensures DICT_TAG != LIST_TAG && LIST_TAG != TUPLE_TAG && DICT_TAG != TUPLE_TAG
  {
    assert "__dict__"[2] == 'd' && "__list__"[2] == 'l' && "__tuple__"[2] == 't';
  }

  lemma {:induction false} RawExactly(a: Key, b: Key)
    ensures Raw(a) == Raw(b) <==> a == b
    decreases a
  {
    if a.KeyTuple? && b.KeyTuple? && |a.parts| == |b.parts| {
      forall i | 0 <= i < |a.parts|
        ensures Raw(a).items[i] == Raw(b).items[i] <==> a.parts[i] == b.parts[i]
      {
        RawExactly(a.parts[i], b.parts[i]);
      }
    }
  }

  predicate Hashable(v: Py) {
    match v
    case Scalar(_) => true
    case PyTuple(items) => forall i :: 0 <= i < |items| ==> Hashable(items[i])
    case _ => false
  }

  /** A hashable value is its own key; anything else is wrapped, and a wrapper
      never equals a plain value. */
  datatype HashKey = Itself(value: Py) | Wrapped(canon: Canon)

  predicate KeyEqual(a: HashKey, b: HashKey) {
    match (a, b)
    case (Itself(x), Itself(y)) => PyEqual(x, y)
    case (Wrapped(x), Wrapped(y)) => x == y
    case _ => false
  }

  function HashableKey(v: Py): HashKey {
    if Hashable(v) then Itself(v) else Wrapped(Canonicalize(v))
  }

  lemma {:induction false} CanonicalExactly(a: Py, b: Py)
    requires WellFormed(a) && WellFormed(b)
    ensures Canonicalize(a) == Canonicalize(b) <==> PyEqual(a, b)
    decreases a
  {
    match (a, b)
    case (PyList(x), PyList(y)) => ItemsExactly(a, b, x, y);
    case (PyTuple(x), PyTuple(y)) => ItemsExactly(a, b, x, y);
    case (PyDict(x), PyDict(y)) => EntriesExactly(a, x, y);
    case _ => DifferentShapes(a, b);
  }

  predicate SameShape(a: Py, b: Py) {
    (a.Scalar? && b.Scalar?) || (a.PyList? && b.PyList?) || (a.PyTuple? && b.PyTuple?) || (a.PyDict? && b.PyDict?)
  }

  lemma DifferentShapes(a: Py, b: Py)
    requires !SameShape(a, b) || a.Scalar?
    ensures Canonicalize(a) == Canonicalize(b) <==> PyEqual(a, b)
  {
    TagsDiffer();
    if !a.Scalar? && !b.Scalar? {
      assert Canonicalize(a).items[0] != Canonicalize(b).items[0];
    }
  }

  lemma {:induction false} ItemsExactly(a: Py, b: Py, x: seq<Py>, y: seq<Py>)
    requires (a == PyList(x) && b == PyList(y)) || (a == PyTuple(x) && b == PyTuple(y))
    requires WellFormed(a) && WellFormed(b)
    ensures Canonicalize(a) == Canonicalize(b) <==> PyEqual(a, b)
    decreases a, 0
  {
    var cx, cy := Canonicalize(a).items[1].items, Canonicalize(b).items[1].items;
    assert forall i :: 0 <= i < |x| ==> cx[i] == Canonicalize(x[i]);
    assert forall i :: 0 <= i < |y| ==> cy[i] == Canonicalize(y[i]);
    if |x| == |y| {
      forall i | 0 <= i < |x|
        ensures cx[i] == cy[i] <==> PyEqual(x[i], y[i])
      {
        CanonicalExactly(x[i], y[i]);
      }
      assert cx == cy <==> forall i :: 0 <= i < |x| ==> cx[i] == cy[i];
      assert Canonicalize(a) == Tup([Canonicalize(a).items[0], Tup(cx)]);
    }
  }

  function EntryOf(e: (Key, Py)): Canon { Tup([Raw(e.0), Canonicalize(e.1)]) }

  function Entries(entries: seq<(Key, Py)>): set<Canon> {
    set i | 0 <= i < |entries| :: EntryOf(entries[i])
  }

  lemma EntryExactly(a: (Key, Py), b: (Key, Py))
    ensures EntryOf(a) == EntryOf(b) <==> a.0 == b.0 && Canonicalize(a.1) == Canonicalize(b.1)
  {
    RawExactly(a.0, b.0);
    assert EntryOf(a).items[0] == Raw(a.0) && EntryOf(b).items[0] == Raw(b.0);
    assert EntryOf(a).items[1] == Canonicalize(a.1) && EntryOf(b).items[1] == Canonicalize(b.1);
  }

  predicate DistinctKeys(entries: seq<(Key, Py)>) {
    forall i, j :: 0 <= i < j < |entries| ==> entries[i].0 != entries[j].0
  }

  lemma EntriesNext(entries: seq<(Key, Py)>, last: (Key, Py))
    ensures Entries(entries + [last]) == Entries(entries) + {EntryOf(last)}
  {
    var longer := entries + [last];
    assert longer[|entries|] == last;
    forall e | e in Entries(longer) ensures e in Entries(entries) + {EntryOf(last)} {
      var i :| 0 <= i < |longer| && e == EntryOf(longer[i]);
      if i < |entries| { assert entries[i] == longer[i]; }
    }
    forall e | e in Entries(entries) ensures e in Entries(longer) {
      var i :| 0 <= i < |entries| && e == EntryOf(entries[i]);
      assert longer[i] == entries[i];
    }
  }

  /** Distinct keys make as many canonical entries as there are entries. */
  lemma {:induction false} EntriesCount(entries: seq<(Key, Py)>)
    requires DistinctKeys(entries)
    ensures |Entries(entries)| == |entries|
  {
    if entries != [] {
      var n := |entries| - 1;
      var init, last := entries[..n], entries[n];
      EntriesCount(init);
      assert entries == init + [last];
      EntriesNext(init, last);
      forall i | 0 <= i < n ensures EntryOf(init[i]) != EntryOf(last) { EntryExactly(init[i], last); }
      assert EntryOf(last) !in Entries(init);
    }
  }

  lemma {:induction false} SameSizeSubset<T>(a: set<T>, b: set<T>)
    requires a <= b && |a| == |b|
    ensures a == b
  {
    if x :| x in b && x !in a {
      SubsetSize(a, b - {x});
    }
  }

  lemma {:induction false} SubsetSize<T>(a: set<T>, b: set<T>)
    requires a <= b
    ensures |a| <= |b|
  {
    if a != {} {
      var x :| x in a;
      SubsetSize(a - {x}, b - {x});
    }
  }

  /** The induction hypothesis on the values of two dictionaries. */
  predicate ValuesAgree(x: seq<(Key, Py)>, y: seq<(Key, Py)>) {
    forall i, j :: 0 <= i < |x| && 0 <= j < |y| ==> (Canonicalize(x[i].1) == Canonicalize(y[j].1) <==> PyEqual(x[i].1, y[j].1))
  }

  predicate Found(e: (Key, Py), y: seq<(Key, Py)>) {
    exists j :: 0 <= j < |y| && e.0 == y[j].0 && PyEqual(e.1, y[j].1)
  }

  lemma FoundExactly(x: seq<(Key, Py)>, y: seq<(Key, Py)>, i: int)
    requires ValuesAgree(x, y) && 0 <= i < |x|
    ensures Found(x[i], y) <==> EntryOf(x[i]) in Entries(y)
  {
    forall j | 0 <= j < |y|
      ensures EntryOf(x[i]) == EntryOf(y[j]) <==> x[i].0 == y[j].0 && PyEqual(x[i].1, y[j].1)
    {
      EntryExactly(x[i], y[j]);
    }
  }

  lemma SubsetExactly(x: seq<(Key, Py)>, y: seq<(Key, Py)>)
    requires ValuesAgree(x, y)
    ensures Entries(x) <= Entries(y) <==> forall i :: 0 <= i < |x| ==> Found(x[i], y)
  {
    forall i | 0 <= i < |x|
      ensures Found(x[i], y) <==> EntryOf(x[i]) in Entries(y)
      ensures EntryOf(x[i]) in Entries(x)
    {
      FoundExactly(x, y, i);
    }
  }

  lemma {:induction false} EntriesExactly(a: Py, x: seq<(Key, Py)>, y: seq<(Key, Py)>)
    requires a == PyDict(x) && WellFormed(a) && WellFormed(PyDict(y))
    ensures Canonicalize(a) == Canonicalize(PyDict(y)) <==> PyEqual(a, PyDict(y))
    decreases a, 0
  {
    forall i, j | 0 <= i < |x| && 0 <= j < |y|
      ensures Canonicalize(x[i].1) == Canonicalize(y[j].1) <==> PyEqual(x[i].1, y[j].1)
    {
      CanonicalExactly(x[i].1, y[j].1);
    }
    SubsetExactly(x, y);
    EntriesCount(x);
    EntriesCount(y);
    if |x| == |y| && Entries(x) <= Entries(y) { SameSizeSubset(Entries(x), Entries(y)); }
    DictDefinitions(x, y);
  }

  lemma DictDefinitions(x: seq<(Key, Py)>, y: seq<(Key, Py)>)
    ensures Canonicalize(PyDict(x)) == Canonicalize(PyDict(y)) <==> Entries(x) == Entries(y)
    ensures PyEqual(PyDict(x), PyDict(y)) <==> |x| == |y| && forall i :: 0 <= i < |x| ==> Found(x[i], y)
  {
    var cx, cy := Canonicalize(PyDict(x)), Canonicalize(PyDict(y));
    assert cx.items[1] == Frozen(Entries(x)) && cy.items[1] == Frozen(Entries(y));
    assert cx == Tup([DICT_TAG, Frozen(Entries(x))]) && cy == Tup([DICT_TAG, Frozen(Entries(y))]);
  }

  /** Values that are equal are hashable together. */
  lemma {:induction false} HashableTogether(a: Py, b: Py)
    requires PyEqual(a, b)
    ensures Hashable(a) == Hashable(b)
    decreases a
  {
    if a.PyTuple? {
      forall i | 0 <= i < |a.items|
        ensures Hashable(a.items[i]) == Hashable(b.items[i])
      {
        HashableTogether(a.items[i], b.items[i]);
      }
    }
  }

  /** A list or a dictionary at any depth. */
  predicate HoldsMutable(v: Py) {
    match v
    case Scalar(_) => false
    case PyTuple(items) => exists i :: 0 <= i < |items| && HoldsMutable(items[i])
    case _ => true
  }

  /** A value is its own key exactly when nothing in it can be changed. */
  lemma {:induction false} OwnKeyExactly(v: Py)
    ensures HashableKey(v) == Itself(v) <==> !HoldsMutable(v)
    ensures HashableKey(v).Wrapped? <==> HoldsMutable(v)
    decreases v
  {
    if v.PyTuple? {
      forall i | 0 <= i < |v.items| ensures Hashable(v.items[i]) <==> !HoldsMutable(v.items[i]) { OwnKeyExactly(v.items[i]); }
    }
  }

  /** The key separates exactly what the host language's equality separates. */
  lemma KeyExactly(a: Py, b: Py)
    requires WellFormed(a) && WellFormed(b)
    ensures KeyEqual(HashableKey(a), HashableKey(b)) <==> PyEqual(a, b)
  {
    CanonicalExactly(a, b);
    if PyEqual(a, b) { HashableTogether(a, b); }
  }

  /** In particular the order of a dictionary's entries never matters, at any
      depth: equality is symmetric, so equal keys can be looked up either way. */
  lemma EqualityIsSymmetric(a: Py, b: Py)
    requires WellFormed(a) && WellFormed(b) && PyEqual(a, b)
    ensures PyEqual(b, a)
  {
    CanonicalExactly(a, b);
    CanonicalExactly(b, a);
  }
}
