/** The stack-based merge of nested dictionaries, on a heap of dictionary
    objects, against the recursive merge of the values they represent. */
module DeepMerge {
  /** The identity of a dictionary object. */
  datatype Loc = Loc(address: int)

  /** What a dictionary stores under a key: a plain value or another dictionary. */
  datatype Cell = Atom(id: int) | Ref(loc: Loc)

  type Node = map<string, Cell>

  datatype Json = Scalar(id: int) | Obj(fields: map<string, Json>)

  /** The cell represents the value. */
  ghost predicate Shows(nodes: map<Loc, Node>, cell: Cell, j: Json)
    decreases j
  {
    match j
    case Scalar(id) => cell == Atom(id)
    case Obj(fields) =>
      && cell.Ref? && cell.loc in nodes && nodes[cell.loc].Keys == fields.Keys
      && forall k :: k in fields ==> Shows(nodes, nodes[cell.loc][k], fields[k])
  }

  /** The recursive specification: custom wins, dictionaries merge. */
  function Merge(d: Json, c: Json): Json {
    if d.Obj? && c.Obj? then
      Obj(map k | k in d.fields.Keys + c.fields.Keys ::
            if k !in c.fields then d.fields[k]
            else if k !in d.fields then c.fields[k]
            else Merge(d.fields[k], c.fields[k]))
    else c
  }

  /** Merging the same overrides again changes nothing. */
  lemma {:induction false} MergeIdempotent(d: Json, c: Json)
    ensures Merge(Merge(d, c), c) == Merge(d, c)
    decreases c
  {
    if d.Obj? && c.Obj? {
      var m := Merge(d, c);
      forall k | k in m.fields
        ensures Merge(m, c).fields[k] == m.fields[k]
      {
        if k in c.fields {
          MergeSelf(c.fields[k]);
          if k in d.fields { MergeIdempotent(d.fields[k], c.fields[k]); }
        }
      }
      assert Merge(m, c).fields == m.fields;
    } else {
      MergeSelf(c);
    }
  }

  lemma {:induction false} MergeSelf(c: Json)
    ensures Merge(c, c) == c
    decreases c
  {
    if c.Obj? {
      forall k | k in c.fields ensures Merge(c, c).fields[k] == c.fields[k] { MergeSelf(c.fields[k]); }
      assert Merge(c, c).fields == c.fields;
    }
  }

  // -------------------------------------------------- what the merge holds

  /** The value at the end of a path of keys. */
  predicate At(j: Json, path: seq<string>, found: Json)
    decreases |path|
  {
    if path == [] then j == found else j.Obj? && path[0] in j.fields && At(j.fields[path[0]], path[1..], found)
  }

  ghost predicate Reaches(j: Json, path: seq<string>) { exists found :: At(j, path, found) }

  /** A plain value stands on the way, before the end of the path. */
  ghost predicate Cut(j: Json, path: seq<string>) { exists n, id :: 0 <= n < |path| && At(j, path[..n], Scalar(id)) }

  /** A path goes on below the first key, or not at all. */
  lemma Below(j: Json, path: seq<string>)
    requires j.Obj? && path != []
    ensures Reaches(j, path) <==> path[0] in j.fields && Reaches(j.fields[path[0]], path[1..])
    ensures Cut(j, path) <==> path[0] in j.fields && Cut(j.fields[path[0]], path[1..])
  {
    if n, id :| 0 <= n < |path| && At(j, path[..n], Scalar(id)) {
      assert path[..n][0] == path[0] && path[..n][1..] == path[1..][..n - 1];
      assert At(j.fields[path[0]], path[1..][..n - 1], Scalar(id));
    }
    if found :| At(j, path, found) { assert At(j.fields[path[0]], path[1..], found); }
    if path[0] in j.fields {
      if n, id :| 0 <= n < |path[1..]| && At(j.fields[path[0]], path[1..][..n], Scalar(id)) {
        assert path[..n + 1][0] == path[0] && path[..n + 1][1..] == path[1..][..n];
        assert At(j, path[..n + 1], Scalar(id));
      }
      if found :| At(j.fields[path[0]], path[1..], found) { assert At(j, path, found); }
    }
  }

  lemma CutAtOnce(id: int, path: seq<string>)
    requires path != []
    ensures Cut(Scalar(id), path) && !Reaches(Scalar(id), path)
  {
    assert path[..0] == [] && At(Scalar(id), path[..0], Scalar(id));
  }

  /** A plain value is in the merge exactly when the overrides have it there, or
      the defaults have it and the overrides say nothing there or on the way. */
  lemma {:induction false} MergeHolds(d: Json, c: Json, path: seq<string>, id: int)
    ensures At(Merge(d, c), path, Scalar(id)) <==>
              At(c, path, Scalar(id)) || (d.Obj? && c.Obj? && At(d, path, Scalar(id)) && !Reaches(c, path) && !Cut(c, path))
    decreases |path|
  {
    if !(d.Obj? && c.Obj?) {
    } else if path == [] {
      assert !At(Merge(d, c), path, Scalar(id));
    } else {
      Below(c, path);
      var k, rest := path[0], path[1..];
      if k in c.fields && k in d.fields {
        MergeHolds(d.fields[k], c.fields[k], rest, id);
        if c.fields[k].Scalar? {
          if rest == [] { assert At(c.fields[k], rest, c.fields[k]); } else { CutAtOnce(c.fields[k].id, rest); }
        } else if d.fields[k].Scalar? && rest == [] {
          assert At(c.fields[k], rest, c.fields[k]);
        }
      }
    }
  }

  // ------------------------------------------------------------ the heap

  /** The private copy: closed, and every dictionary in it hangs under at most
      one key of one dictionary; nothing hangs above the root. */
  ghost predicate Tree(nodes: map<Loc, Node>, copy: set<Loc>, root: Loc) {
    && root in copy && copy <= nodes.Keys
    && (forall p, k :: p in copy && k in nodes[p] && nodes[p][k].Ref? ==> nodes[p][k].loc in copy && nodes[p][k].loc != root)
    && (forall p, k, q, l :: p in copy && q in copy && k in nodes[p] && l in nodes[q] ==>
          nodes[p][k].Ref? && nodes[p][k] == nodes[q][l] ==> p == q && k == l)
  }

  /** Both sides hold a dictionary under the key: the merge descends. */
  predicate Descends(base: Node, over: Node, k: string) {
    k in base && k in over && base[k].Ref? && over[k].Ref?
  }

  /** One dictionary after its turn. */
  function Overlaid(base: Node, over: Node): Node {
    map k | k in base.Keys + over.Keys :: if k !in over || Descends(base, over, k) then base[k] else over[k]
  }

  /** The turns handed out so far: the root's, and one for each dictionary under
      a key where a dictionary already given a turn descends. */
  ghost predicate Handed(start: map<Loc, Node>, copy: set<Loc>, root: Loc, custom: Loc, turns: map<Loc, Loc>, done: set<Loc>) {
    && turns.Keys <= copy && root in turns && turns[root] == custom
    && (forall l :: l in turns ==> turns[l] in start && turns[l] !in copy)
    && (forall l :: l in turns && l != root ==> exists p, k :: p in done && HangsUnder(start, turns, l, p, k))
  }

  ghost predicate HangsUnder(start: map<Loc, Node>, turns: map<Loc, Loc>, l: Loc, p: Loc, k: string) {
    && p in turns && p in start && turns[p] in start && Descends(start[p], start[turns[p]], k)
    && start[p][k] == Ref(l) && l in turns && start[turns[p]][k] == Ref(turns[l])
  }

  /** A dictionary that had its turn has handed one to every descent. */
  ghost predicate Served(start: map<Loc, Node>, turns: map<Loc, Loc>, done: set<Loc>) {
    forall p, k :: p in done && p in turns && p in start && turns[p] in start && Descends(start[p], start[turns[p]], k) ==>
      start[p][k].loc in turns && turns[start[p][k].loc] == start[turns[p]][k].loc
  }

  /** Dictionaries outside the copy, and those still waiting, are as they were;
      those that had their turn are overlaid. */
  ghost predicate Progress(start: map<Loc, Node>, nodes: map<Loc, Node>, copy: set<Loc>, turns: map<Loc, Loc>, done: set<Loc>) {
    && nodes.Keys == start.Keys && done <= turns.Keys && turns.Keys <= copy && copy <= start.Keys
    && (forall l :: l in turns ==> turns[l] in start)
    && (forall l :: l in nodes ==> nodes[l] == if l in done then Overlaid(start[l], start[turns[l]]) else start[l])
  }

  /** A value whose dictionaries all lie outside the copy is kept. */
  lemma {:induction false} OutsideKept(start: map<Loc, Node>, nodes: map<Loc, Node>, copy: set<Loc>, turns: map<Loc, Loc>, done: set<Loc>, cell: Cell, j: Json)
    requires Progress(start, nodes, copy, turns, done) && Closed(start, copy)
    requires Shows(start, cell, j) && (cell.Ref? ==> cell.loc !in copy)
    ensures Shows(nodes, cell, j)
    decreases j
  {
    if j.Obj? {
      forall k | k in j.fields ensures Shows(nodes, nodes[cell.loc][k], j.fields[k]) {
        OutsideKept(start, nodes, copy, turns, done, start[cell.loc][k], j.fields[k]);
      }
    }
  }

  /** References lead to dictionaries, and none from outside leads into the copy. */
  ghost predicate Closed(nodes: map<Loc, Node>, copy: set<Loc>) {
    && (forall l, k :: l in nodes && k in nodes[l] && nodes[l][k].Ref? ==> nodes[l][k].loc in nodes)
    && (forall l, k :: l in nodes && l !in copy && k in nodes[l] && nodes[l][k].Ref? ==> nodes[l][k].loc !in copy)
  }

  /** Below a dictionary of the copy that never gets a turn, nothing does. */
  lemma {:induction false} WaitingKept(start: map<Loc, Node>, nodes: map<Loc, Node>, copy: set<Loc>, root: Loc, custom: Loc,
                                       turns: map<Loc, Loc>, done: set<Loc>, cell: Cell, j: Json)
    requires Tree(start, copy, root) && Handed(start, copy, root, custom, turns, done) && Progress(start, nodes, copy, turns, done)
    requires Shows(start, cell, j) && (cell.Ref? ==> cell.loc in copy && cell.loc !in turns)
    ensures Shows(nodes, cell, j)
    decreases j
  {
    if j.Obj? {
      forall k | k in j.fields ensures Shows(nodes, nodes[cell.loc][k], j.fields[k]) {
        var child := start[cell.loc][k];
        if child.Ref? && child.loc in turns {
          OnlyParent(start, copy, root, custom, turns, done, cell.loc, k);
        }
        WaitingKept(start, nodes, copy, root, custom, turns, done, child, j.fields[k]);
      }
    }
  }

  /** A dictionary with a turn hangs under one with a turn that descends there. */
  lemma OnlyParent(start: map<Loc, Node>, copy: set<Loc>, root: Loc, custom: Loc, turns: map<Loc, Loc>, done: set<Loc>, p: Loc, k: string)
    requires Tree(start, copy, root) && Handed(start, copy, root, custom, turns, done)
    requires p in copy && k in start[p] && start[p][k].Ref? && start[p][k].loc in turns
    ensures p in turns && p in done && Descends(start[p], start[turns[p]], k)
  {
    var l := start[p][k].loc;
    assert l != root;
    var q, m :| q in done && HangsUnder(start, turns, l, q, m);
    assert start[q][m] == start[p][k];
  }

  /** When every turn has been taken, a dictionary with a turn shows the merge. */
  lemma {:induction false} TurnShowsMerge(start: map<Loc, Node>, nodes: map<Loc, Node>, copy: set<Loc>, root: Loc, custom: Loc,
                                          turns: map<Loc, Loc>, l: Loc, d: Json, c: Json)
    requires Tree(start, copy, root) && Closed(start, copy) && Handed(start, copy, root, custom, turns, turns.Keys)
    requires Progress(start, nodes, copy, turns, turns.Keys) && Served(start, turns, turns.Keys)
    requires l in turns && Shows(start, Ref(l), d) && Shows(start, Ref(turns[l]), c)
    ensures Shows(nodes, Ref(l), Merge(d, c))
    decreases d
  {
    var base, over := start[l], start[turns[l]];
    var merged := Merge(d, c);
    forall k | k in merged.fields
      ensures Shows(nodes, nodes[l][k], merged.fields[k])
    {
      if Descends(base, over, k) {
        TurnShowsMerge(start, nodes, copy, root, custom, turns, base[k].loc, d.fields[k], c.fields[k]);
      } else if k in over {
        OutsideKept(start, nodes, copy, turns, turns.Keys, over[k], c.fields[k]);
        NoDescent(start, base, over, d, c, k);
      } else {
        if base[k].Ref? && base[k].loc in turns { OnlyParent(start, copy, root, custom, turns, turns.Keys, l, k); }
        WaitingKept(start, nodes, copy, root, custom, turns, turns.Keys, base[k], d.fields[k]);
      }
    }
  }

  lemma NoDescent(start: map<Loc, Node>, base: Node, over: Node, d: Json, c: Json, k: string)
    requires d.Obj? && c.Obj? && base.Keys == d.fields.Keys && over.Keys == c.fields.Keys && k in over && !Descends(base, over, k)
    requires k in base ==> Shows(start, base[k], d.fields[k])
    requires Shows(start, over[k], c.fields[k])
    ensures Merge(d, c).fields[k] == c.fields[k]
  {
  }

  lemma {:induction false} ShowsUnique(nodes: map<Loc, Node>, cell: Cell, a: Json, b: Json)
    requires Shows(nodes, cell, a) && Shows(nodes, cell, b)
    ensures a == b
    decreases a
  {
    if a.Obj? {
      forall k | k in a.fields ensures a.fields[k] == b.fields[k] {
        ShowsUnique(nodes, nodes[cell.loc][k], a.fields[k], b.fields[k]);
      }
      assert a.fields == b.fields;
    }
  }

  // ------------------------------------------------------------ the loop

  ghost predicate IsDescent(base: Node, over: Node, pair: (Loc, Loc)) {
    exists k :: Descends(base, over, k) && pair == (base[k].loc, over[k].loc)
  }

  /** Hand a turn to every descent of one dictionary. */
  ghost function Grow(turns: map<Loc, Loc>, base: Node, over: Node): map<Loc, Loc> {
    map l | l in turns.Keys + (set k | k in base && Descends(base, over, k) :: base[k].loc) ::
      if l in turns then turns[l] else (var k :| k in base && Descends(base, over, k) && base[k].loc == l; over[k].loc)
  }

  /** Children of a dictionary that has not had its turn have none either. */
  lemma ChildrenWait(start: map<Loc, Node>, copy: set<Loc>, root: Loc, custom: Loc, turns: map<Loc, Loc>, done: set<Loc>, l: Loc, k: string)
    requires Tree(start, copy, root) && Handed(start, copy, root, custom, turns, done)
    requires l in copy && l !in done && k in start[l] && start[l][k].Ref?
    ensures start[l][k].loc !in turns
  {
    if start[l][k].loc in turns { OnlyParent(start, copy, root, custom, turns, done, l, k); }
  }

  /** Grown turns: the old ones, and a fresh one for each descent. */
  ghost predicate Grown(turns: map<Loc, Loc>, grown: map<Loc, Loc>, base: Node, over: Node) {
    && turns.Keys <= grown.Keys && (forall m :: m in turns ==> grown[m] == turns[m])
    && (forall k :: Descends(base, over, k) ==>
          base[k].loc !in turns && base[k].loc in grown && grown[base[k].loc] == over[k].loc)
    && (forall m :: m in grown && m !in turns ==> exists k :: Descends(base, over, k) && base[k] == Ref(m))
  }

  lemma GrowFacts(start: map<Loc, Node>, copy: set<Loc>, root: Loc, custom: Loc, turns: map<Loc, Loc>, done: set<Loc>, l: Loc)
    requires Tree(start, copy, root) && Handed(start, copy, root, custom, turns, done)
    requires l in turns && l !in done && l in start && turns[l] in start
    ensures Grown(turns, Grow(turns, start[l], start[turns[l]]), start[l], start[turns[l]])
  {
    var base, over := start[l], start[turns[l]];
    forall k | Descends(base, over, k)
      ensures base[k].loc !in turns
      ensures forall m :: Descends(base, over, m) && base[m].loc == base[k].loc ==> m == k
    {
      ChildrenWait(start, copy, root, custom, turns, done, l, k);
    }
    var grown := Grow(turns, base, over);
    forall m | m in grown && m !in turns
      ensures exists k :: Descends(base, over, k) && base[k] == Ref(m)
    {
      var k :| k in base && Descends(base, over, k) && base[k].loc == m;
    }
  }

  lemma TurnHands(start: map<Loc, Node>, copy: set<Loc>, root: Loc, custom: Loc, turns: map<Loc, Loc>, done: set<Loc>, l: Loc)
    requires Tree(start, copy, root) && Closed(start, copy) && Handed(start, copy, root, custom, turns, done)
    requires l in turns && l !in done && l in start
    ensures Handed(start, copy, root, custom, Grow(turns, start[l], start[turns[l]]), done + {l})
  {
    var base, over := start[l], start[turns[l]];
    var grown := Grow(turns, base, over);
    GrowFacts(start, copy, root, custom, turns, done, l);
    forall m | m in grown
      ensures m in copy && grown[m] in start && grown[m] !in copy
      ensures m != root ==> exists p, k :: p in done + {l} && HangsUnder(start, grown, m, p, k)
    {
      if m in turns {
        if m != root {
          var p, k :| p in done && HangsUnder(start, turns, m, p, k);
          assert HangsUnder(start, grown, m, p, k);
        }
      } else {
        var k :| Descends(base, over, k) && base[k] == Ref(m);
        assert HangsUnder(start, grown, m, l, k);
      }
    }
  }

  lemma TurnServes(start: map<Loc, Node>, turns: map<Loc, Loc>, grown: map<Loc, Loc>, done: set<Loc>, l: Loc)
    requires Served(start, turns, done) && done <= turns.Keys && (forall m :: m in turns ==> turns[m] in start)
    requires l in turns && l in start && Grown(turns, grown, start[l], start[turns[l]])
    ensures Served(start, grown, done + {l})
  {
  }

  /** The stack holds exactly the turns handed out and not yet taken, each once. */
  ghost predicate Waits(stack: seq<(Loc, Loc)>, turns: map<Loc, Loc>, done: set<Loc>) {
    && (forall i :: 0 <= i < |stack| ==> stack[i].0 in turns && stack[i].0 !in done && turns[stack[i].0] == stack[i].1)
    && (forall i, j :: 0 <= i < j < |stack| ==> stack[i].0 != stack[j].0)
    && (forall l :: l in turns && l !in done ==> (l, turns[l]) in stack)
  }

  lemma TurnWaits(turns: map<Loc, Loc>, grown: map<Loc, Loc>, done: set<Loc>, base: Node, over: Node,
                  rest: seq<(Loc, Loc)>, l: Loc, pushed: seq<(Loc, Loc)>)
    requires Grown(turns, grown, base, over) && done <= turns.Keys
    requires l in turns && Waits(rest + [(l, turns[l])], turns, done)
    requires forall pair :: pair in pushed <==> IsDescent(base, over, pair)
    requires forall i, j :: 0 <= i < j < |pushed| ==> pushed[i].0 != pushed[j].0
    ensures Waits(rest + pushed, grown, done + {l})
  {
    var before, after := rest + [(l, turns[l])], rest + pushed;
    assert before[|rest|] == (l, turns[l]);
    assert forall i :: 0 <= i < |rest| ==> before[i] == rest[i];
    forall i | 0 <= i < |pushed|
      ensures pushed[i].0 in grown && pushed[i].0 !in turns && grown[pushed[i].0] == pushed[i].1
    {
      assert pushed[i] in pushed;
      assert IsDescent(base, over, pushed[i]);
    }
    forall m | m in grown && m !in done + {l}
      ensures (m, grown[m]) in after
    {
      if m in turns {
        assert (m, turns[m]) in before;
      } else {
        var k :| Descends(base, over, k) && base[k] == Ref(m);
        assert IsDescent(base, over, (base[k].loc, over[k].loc));
      }
    }
  }

  lemma TurnProgresses(start: map<Loc, Node>, nodes: map<Loc, Node>, copy: set<Loc>, turns: map<Loc, Loc>, grown: map<Loc, Loc>, done: set<Loc>, base: Loc)
    requires Progress(start, nodes, copy, turns, done) && base in turns && base in start && turns[base] in start
    requires Grown(turns, grown, start[base], start[turns[base]])
    requires grown.Keys <= copy && forall l :: l in grown ==> grown[l] in start
    ensures Progress(start, nodes[base := Overlaid(start[base], start[turns[base]])], copy, grown, done + {base})
  {
  }

  /** One turn of the stack loop, seen from the bookkeeping. */
  lemma TurnKeeps(start: map<Loc, Node>, nodes: map<Loc, Node>, copy: set<Loc>, root: Loc, custom: Loc, turns: map<Loc, Loc>, done: set<Loc>,
                  rest: seq<(Loc, Loc)>, base: Loc, over: Loc, pushed: seq<(Loc, Loc)>)
    requires Tree(start, copy, root) && Closed(start, copy)
    requires Handed(start, copy, root, custom, turns, done) && Served(start, turns, done) && Progress(start, nodes, copy, turns, done)
    requires Waits(rest + [(base, over)], turns, done)
    requires base in turns && base !in done && over == turns[base] && base in start && over in start
    requires forall pair :: pair in pushed <==> IsDescent(start[base], start[over], pair)
    requires forall i, j :: 0 <= i < j < |pushed| ==> pushed[i].0 != pushed[j].0
    ensures var grown := Grow(turns, start[base], start[over]);
            && Handed(start, copy, root, custom, grown, done + {base}) && Served(start, grown, done + {base})
            && Waits(rest + pushed, grown, done + {base})
            && Progress(start, nodes[base := Overlaid(start[base], start[over])], copy, grown, done + {base})
  {
    var grown := Grow(turns, start[base], start[over]);
    GrowFacts(start, copy, root, custom, turns, done, base);
    TurnWaits(turns, grown, done, start[base], start[over], rest, base, pushed);
    TurnHands(start, copy, root, custom, turns, done, base);
    TurnServes(start, turns, grown, done, base);
    TurnProgresses(start, nodes, copy, turns, grown, done, base);
  }

  /** The pair on top of the stack still waits for its turn. */
  lemma TopWaits(start: map<Loc, Node>, nodes: map<Loc, Node>, copy: set<Loc>, turns: map<Loc, Loc>, done: set<Loc>,
                 rest: seq<(Loc, Loc)>, base: Loc, over: Loc)
    requires Progress(start, nodes, copy, turns, done) && Waits(rest + [(base, over)], turns, done)
    requires forall l :: l in turns ==> turns[l] !in copy
    ensures base in turns && base !in done && over == turns[base]
    ensures base in start && over in start && nodes[base] == start[base] && nodes[over] == start[over]
  {
    assert (rest + [(base, over)])[|rest|] == (base, over);
  }

  ghost predicate ChildrenDiffer(node: Node) {
    forall k, l :: k in node && l in node && node[k].Ref? && node[k] == node[l] ==> k == l
  }

  /** The same, with the overrides of the turn in the order they came. */
  lemma OrderedTurnKeeps(start: map<Loc, Node>, nodes: map<Loc, Node>, copy: set<Loc>, root: Loc, custom: Loc, turns: map<Loc, Loc>, done: set<Loc>,
                         rest: seq<(Loc, Loc)>, base: Loc, over: Loc, pushed: seq<(Loc, Loc)>, order: seq<string>)
    requires Tree(start, copy, root) && Closed(start, copy)
    requires Handed(start, copy, root, custom, turns, done) && Served(start, turns, done) && Progress(start, nodes, copy, turns, done)
    requires Waits(rest + [(base, over)], turns, done)
    requires base in turns && base !in done && over == turns[base] && base in start && over in start
    requires Pushes(start[base], start[over], {}, pushed, order)
    ensures var grown := Grow(turns, start[base], start[over]);
            && Handed(start, copy, root, custom, grown, done + {base}) && Served(start, grown, done + {base})
            && Waits(rest + pushed, grown, done + {base})
            && Progress(start, nodes[base := Overlaid(start[base], start[over])], copy, grown, done + {base})
  {
    PushesAll(start[base], start[over], pushed, order);
    TurnKeeps(start, nodes, copy, root, custom, turns, done, rest, base, over, pushed);
  }

  /** Overlaid, except that these overrides have not been looked at. */
  ghost predicate OverlaidBut(b: Node, o: Node, keys: set<string>, node: Node) {
    && (forall k :: k in node <==> k in b || (k in o && k !in keys))
    && (forall k :: k in node ==> node[k] == if k in keys || k !in o || Descends(b, o, k) then b[k] else o[k])
  }

  /** One pair for each descent under an override already looked at, in the
      order of these keys. */
  ghost predicate Pushes(b: Node, o: Node, left: set<string>, pushed: seq<(Loc, Loc)>, keys: seq<string>) {
    && |keys| == |pushed|
    && (forall i, j :: 0 <= i < j < |keys| ==> keys[i] != keys[j])
    && (forall i :: 0 <= i < |keys| ==>
          keys[i] !in left && Descends(b, o, keys[i]) && pushed[i] == (b[keys[i]].loc, o[keys[i]].loc))
    && (forall k :: Descends(b, o, k) && k !in left ==> k in keys)
  }

  lemma PushesAll(b: Node, o: Node, pushed: seq<(Loc, Loc)>, keys: seq<string>)
    requires Pushes(b, o, {}, pushed, keys)
    ensures forall pair :: pair in pushed <==> IsDescent(b, o, pair)
    ensures ChildrenDiffer(b) ==> forall i, j :: 0 <= i < j < |pushed| ==> pushed[i].0 != pushed[j].0
  {
    forall pair | IsDescent(b, o, pair) ensures pair in pushed {
      var k :| Descends(b, o, k) && pair == (b[k].loc, o[k].loc);
      var i :| 0 <= i < |keys| && keys[i] == k;
      assert pushed[i] == pair;
    }
    if ChildrenDiffer(b) {
      forall i, j | 0 <= i < j < |pushed| ensures pushed[i].0 != pushed[j].0 {
        assert b[keys[i]] != b[keys[j]];
      }
    }
  }

  // ----------------------------------------------------------------- runs

  /** The heap and the stack at the head of the loop. */
  datatype Point = Point(nodes: map<Loc, Node>, stack: seq<(Loc, Loc)>)

  ghost predicate Leads(a: Point, b: Point, pushed: seq<(Loc, Loc)>, keys: seq<string>)
    requires a.stack != []
  {
    var (base, over) := a.stack[|a.stack| - 1];
    && base in a.nodes && over in a.nodes
    && Pushes(a.nodes[base], a.nodes[over], {}, pushed, keys)
    && b == Point(a.nodes[base := Overlaid(a.nodes[base], a.nodes[over])], a.stack[..|a.stack| - 1] + pushed)
  }

  /** One turn of the loop, with the overrides in some order. */
  ghost predicate Follows(a: Point, b: Point) { a.stack != [] && exists pushed, keys :: Leads(a, b, pushed, keys) }

  /** The loop from its start on. */
  ghost predicate IsRun(trace: seq<Point>, start: map<Loc, Node>, root: Loc, custom: Loc) {
    && trace != [] && trace[0] == Point(start, [(root, custom)])
    && forall i :: 0 <= i < |trace| - 1 ==> Follows(trace[i], trace[i + 1])
  }

  ghost predicate Finished(trace: seq<Point>, start: map<Loc, Node>, root: Loc, custom: Loc) {
    IsRun(trace, start, root, custom) && trace[|trace| - 1].stack == []
  }

  lemma RunNext(trace: seq<Point>, start: map<Loc, Node>, root: Loc, custom: Loc, nodes: map<Loc, Node>,
                rest: seq<(Loc, Loc)>, base: Loc, over: Loc, pushed: seq<(Loc, Loc)>, order: seq<string>)
    requires IsRun(trace, start, root, custom) && trace[|trace| - 1] == Point(nodes, rest + [(base, over)])
    requires base in nodes && over in nodes && Pushes(nodes[base], nodes[over], {}, pushed, order)
    ensures IsRun(trace + [Point(nodes[base := Overlaid(nodes[base], nodes[over])], rest + pushed)], start, root, custom)
  {
    var a, next := trace[|trace| - 1], Point(nodes[base := Overlaid(nodes[base], nodes[over])], rest + pushed);
    assert a.stack[..|a.stack| - 1] == rest;
    assert Leads(a, next, pushed, order);
    var longer := trace + [next];
    forall i | 0 <= i < |longer| - 1 ensures Follows(longer[i], longer[i + 1]) {
      if i < |trace| - 1 { assert longer[i] == trace[i] && longer[i + 1] == trace[i + 1]; }
    }
  }

  class Merger {
    var nodes: map<Loc, Node>

    constructor (nodes: map<Loc, Node>)
      ensures this.nodes == nodes
    {
      this.nodes := nodes;
    }

    /** One dictionary's turn: the overrides in any order; descents are pushed,
        everything else is written into the base dictionary in place. */
    method Turn(base: Loc, over: Loc) returns (pushed: seq<(Loc, Loc)>, ghost order: seq<string>)
      requires base in nodes && over in nodes
      modifies this
      ensures nodes == old(nodes)[base := Overlaid(old(nodes)[base], old(nodes)[over])]
      ensures Pushes(old(nodes)[base], old(nodes)[over], {}, pushed, order)
    {
      pushed, order := [], [];
      var keys := nodes[over].Keys;
      ghost var b, o := nodes[base], nodes[over];
      while keys != {}
        invariant keys <= o.Keys
        invariant base in nodes && nodes == old(nodes)[base := nodes[base]]
        invariant OverlaidBut(b, o, keys, nodes[base])
        invariant Pushes(b, o, keys, pushed, order)
        decreases keys
      {
        var key :| key in keys;
        var val := nodes[over][key];
        if key in nodes[base] && val.Ref? && nodes[base][key].Ref? {
          pushed := pushed + [(nodes[base][key].loc, val.loc)];
          order := order + [key];
        } else {
          nodes := nodes[base := nodes[base][key := val]];
        }
        keys := keys - {key};
      }
      assert nodes[base] == Overlaid(b, o);
    }

    /** The stack loop over a private copy: the root ends as the recursive merge,
        and no dictionary outside the copy, of either input, is changed. */
    method MergeInto(root: Loc, custom: Loc, ghost copy: set<Loc>, ghost d: Json, ghost c: Json) returns (ghost trace: seq<Point>)
      requires Tree(nodes, copy, root) && Closed(nodes, copy) && custom in nodes && custom !in copy
      requires Shows(nodes, Ref(root), d) && Shows(nodes, Ref(custom), c)
      modifies this
      ensures Shows(nodes, Ref(root), Merge(d, c))
      ensures nodes.Keys == old(nodes).Keys && forall l :: l in nodes && l !in copy ==> nodes[l] == old(nodes)[l]
      ensures Finished(trace, old(nodes), root, custom) && trace[|trace| - 1].nodes == nodes
    {
      ghost var start, turns, done: set<Loc> := nodes, map[root := custom], {};
      var stack := [(root, custom)];
      trace := [Point(nodes, stack)];
      while stack != []
        invariant Handed(start, copy, root, custom, turns, done) && Served(start, turns, done)
        invariant Progress(start, nodes, copy, turns, done)
        invariant Waits(stack, turns, done)
        invariant IsRun(trace, start, root, custom) && trace[|trace| - 1] == Point(nodes, stack)
        decreases copy - done
      {
        var (base, over) := stack[|stack| - 1];
        var rest := stack[..|stack| - 1];
        assert stack == rest + [(base, over)];
        ghost var before := nodes;
        TopWaits(start, before, copy, turns, done, rest, base, over);
        var pushed, order := Turn(base, over);
        OrderedTurnKeeps(start, before, copy, root, custom, turns, done, rest, base, over, pushed, order);
        RunNext(trace, start, root, custom, before, rest, base, over, pushed, order);
        turns, done := Grow(turns, start[base], start[over]), done + {base};
        stack := rest + pushed;
        trace := trace + [Point(nodes, stack)];
      }
      assert done == turns.Keys;
      TurnShowsMerge(start, nodes, copy, root, custom, turns, root, d, c);
    }
  }
}
