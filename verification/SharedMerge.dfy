/** What the stack-based merge does when keys of the defaults share dictionaries,
    as they do when a settings file reuses a section by reference. */
module SharedMerge {
  import opened DeepMerge

  /** No dictionary holds the root. */
  ghost predicate NoneHolds(nodes: map<Loc, Node>, root: Loc) {
    forall l, k :: l in nodes && k in nodes[l] ==> nodes[l][k] != Ref(root)
  }

  ghost predicate OffStack(stack: seq<(Loc, Loc)>, root: Loc) {
    forall i :: 0 <= i < |stack| ==> stack[i].0 != root
  }

  // ------------------------------------------------- what sharing demands

  lemma TurnKeepsRoot(a: Point, b: Point, root: Loc)
    requires NoneHolds(a.nodes, root) && Follows(a, b) && root in a.nodes
    requires OffStack(a.stack[..|a.stack| - 1], root)
    ensures NoneHolds(b.nodes, root) && OffStack(b.stack, root) && root in b.nodes
    ensures a.stack[|a.stack| - 1].0 != root ==> b.nodes[root] == a.nodes[root]
  {
    var pushed: seq<(Loc, Loc)>, keys: seq<string> :| Leads(a, b, pushed, keys);
    forall i | 0 <= i < |pushed| ensures pushed[i].0 != root {
      var base := a.nodes[a.stack[|a.stack| - 1].0];
      assert base[keys[i]] == Ref(pushed[i].0);
    }
  }

  /** The root has its turn first and never again. */
  lemma {:induction false} RootOnce(trace: seq<Point>, start: map<Loc, Node>, root: Loc, custom: Loc, i: nat)
    requires IsRun(trace, start, root, custom) && NoneHolds(start, root) && root in start && custom in start
    requires 1 <= i < |trace|
    ensures NoneHolds(trace[i].nodes, root) && OffStack(trace[i].stack, root)
    ensures root in trace[i].nodes && trace[i].nodes[root] == Overlaid(start[root], start[custom])
  {
    assert Follows(trace[i - 1], trace[i - 1 + 1]);
    if i > 1 { RootOnce(trace, start, root, custom, i - 1); }
    TurnKeepsRoot(trace[i - 1], trace[i], root);
  }

  /** The key keeps its dictionary: it is not overridden, or merged into. */
  predicate Survives(over: Node, k: string) { k !in over || over[k].Ref? }

  /** Two keys of the root with one dictionary, both kept: the merge must want
      the same value under both. */
  ghost predicate Agree(base: Node, over: Node, merged: Json)
    requires merged.Obj? && base.Keys <= merged.fields.Keys
  {
    forall j, k :: j in base && k in base && base[j].Ref? && base[j] == base[k] && Survives(over, j) && Survives(over, k) ==>
      merged.fields[j] == merged.fields[k]
  }

  /** However the rest of the heap looks, sharing that the merge does not agree
      with cannot come out right. */
  lemma SharingDemands(trace: seq<Point>, start: map<Loc, Node>, root: Loc, custom: Loc, d: Json, c: Json)
    requires Finished(trace, start, root, custom) && NoneHolds(start, root)
    requires Shows(start, Ref(root), d) && Shows(start, Ref(custom), c)
    requires Shows(trace[|trace| - 1].nodes, Ref(root), Merge(d, c))
    ensures d.Obj? && c.Obj? && Agree(start[root], start[custom], Merge(d, c))
  {
    var last := trace[|trace| - 1].nodes;
    var base, over, merged := start[root], start[custom], Merge(d, c);
    RootOnce(trace, start, root, custom, |trace| - 1);
    forall j, k | j in base && k in base && base[j].Ref? && base[j] == base[k] && Survives(over, j) && Survives(over, k)
      ensures merged.fields[j] == merged.fields[k]
    {
      assert last[root][j] == last[root][k] == base[j];
      ShowsUnique(last, base[j], merged.fields[j], merged.fields[k]);
    }
  }

  // ------------------------------------------------- sections by reference

  predicate Flat(node: Node) { forall k :: k in node ==> node[k].Atom? }

  /** The root and its sections. */
  function Copy(start: map<Loc, Node>, root: Loc): set<Loc>
    requires root in start
  {
    {root} + (set k | k in start[root] && start[root][k].Ref? :: start[root][k].loc)
  }

  /** Defaults of two levels: the root's dictionaries are flat, and any of its
      keys may share them. */
  ghost predicate Sections(start: map<Loc, Node>, root: Loc) {
    && root in start
    && (forall k :: k in start[root] && start[root][k].Ref? ==>
          start[root][k].loc in start && start[root][k].loc != root && Flat(start[start[root][k].loc]))
    && Closed(start, Copy(start, root))
  }

  /** The section under this key, after its turn for this key. */
  ghost predicate DoneFor(start: map<Loc, Node>, root: Loc, custom: Loc, nodes: map<Loc, Node>, section: Loc, k: string)
    requires root in start && custom in start
  {
    && Descends(start[root], start[custom], k) && start[root][k] == Ref(section)
    && section in start && start[custom][k].loc in start && section in nodes
    && nodes[section] == Overlaid(start[section], start[start[custom][k].loc])
  }

  ghost predicate Done(start: map<Loc, Node>, root: Loc, custom: Loc, nodes: map<Loc, Node>, section: Loc)
    requires root in start && custom in start
  {
    exists k :: DoneFor(start, root, custom, nodes, section, k)
  }

  /** The second dictionary has nothing to add to the first. */
  ghost predicate AddsNothing(start: map<Loc, Node>, pair: (Loc, Loc), x: Json, y: Json) {
    Shows(start, Ref(pair.0), x) && Shows(start, Ref(pair.1), y) && Merge(x, y) == x
  }

  /** Such a pair outside the copy. */
  ghost predicate Quiet(start: map<Loc, Node>, root: Loc, pair: (Loc, Loc))
    requires root in start
  {
    && pair.0 in start && pair.1 in start && pair.0 !in Copy(start, root) && pair.1 !in Copy(start, root)
    && exists x, y :: AddsNothing(start, pair, x, y)
  }

  /** The heap between two turns after the first. */
  ghost predicate Between(start: map<Loc, Node>, root: Loc, custom: Loc, nodes: map<Loc, Node>)
    requires root in start && custom in start
  {
    && nodes.Keys == start.Keys && nodes[root] == Overlaid(start[root], start[custom])
    && (forall l :: l in nodes && l !in Copy(start, root) ==> nodes[l] == start[l])
    && (forall l :: l in nodes && l in Copy(start, root) && l != root ==> nodes[l] == start[l] || Done(start, root, custom, nodes, l))
  }

  ghost predicate Pending(start: map<Loc, Node>, root: Loc, custom: Loc, p: Point)
    requires root in start && custom in start
  {
    && (forall i :: 0 <= i < |p.stack| ==> IsDescent(start[root], start[custom], p.stack[i]) || Quiet(start, root, p.stack[i]))
    && (forall k :: Descends(start[root], start[custom], k) ==>
          (start[root][k].loc, start[custom][k].loc) in p.stack || Done(start, root, custom, p.nodes, start[root][k].loc))
  }

  /** Merging a dictionary with nothing to add writes nothing. */
  lemma QuietChangesNothing(nodes: map<Loc, Node>, base: Node, over: Node, x: Json, y: Json)
    requires x.Obj? && y.Obj? && Merge(x, y) == x && base.Keys == x.fields.Keys && over.Keys == y.fields.Keys
    requires forall k :: k in base ==> Shows(nodes, base[k], x.fields[k])
    requires forall k :: k in over ==> Shows(nodes, over[k], y.fields[k])
    ensures Overlaid(base, over) == base
    ensures forall k :: Descends(base, over, k) ==> Merge(x.fields[k], y.fields[k]) == x.fields[k]
  {
    forall k | k in over ensures k in base && (!Descends(base, over, k) ==> over[k] == base[k]) {
      assert k in Merge(x, y).fields && Merge(x, y).fields[k] == x.fields[k];
    }
  }

  /** A section that had its turn shows the merge for that key. */
  lemma SectionCells(start: map<Loc, Node>, section: Node, over: Node, ds: Json, co: Json)
    requires Flat(section) && ds.Obj? && co.Obj? && section.Keys == ds.fields.Keys && over.Keys == co.fields.Keys
    requires forall k :: k in section ==> Shows(start, section[k], ds.fields[k])
    requires forall k :: k in over ==> Shows(start, over[k], co.fields[k])
    ensures Overlaid(section, over).Keys == Merge(ds, co).fields.Keys
    ensures forall k :: k in Overlaid(section, over) ==> Shows(start, Overlaid(section, over)[k], Merge(ds, co).fields[k])
    ensures forall k :: k in over ==> Merge(ds, co).fields[k] == co.fields[k]
    ensures forall k :: k in Overlaid(section, over) ==> Overlaid(section, over)[k] == if k in over then over[k] else section[k]
  {
    forall k | k in over ensures !Descends(section, over, k) {}
    forall k | k in over ensures Merge(ds, co).fields[k] == co.fields[k] {
      if k in section { assert section[k].Atom? && ds.fields[k].Scalar?; }
    }
  }

  /** The defaults, the overrides, and what they show. */
  ghost predicate Setting(start: map<Loc, Node>, root: Loc, custom: Loc, d: Json, c: Json) {
    && Sections(start, root) && custom in start && custom !in Copy(start, root)
    && Shows(start, Ref(root), d) && Shows(start, Ref(custom), c) && d.Obj? && c.Obj?
  }

  /** Where a descent of the root leads: to a flat section, and out of the copy. */
  lemma DescentFacts(start: map<Loc, Node>, root: Loc, custom: Loc, d: Json, c: Json, k: string)
    requires Setting(start, root, custom, d, c) && Descends(start[root], start[custom], k)
    ensures var section, over := start[root][k].loc, start[custom][k].loc;
            && section in start && section in Copy(start, root) && section != root && Flat(start[section])
            && over in start && over !in Copy(start, root)
            && k in d.fields && k in c.fields && d.fields[k].Obj? && c.fields[k].Obj?
            && Shows(start, Ref(section), d.fields[k]) && Shows(start, Ref(over), c.fields[k])
            && Merge(d, c).fields[k] == Merge(d.fields[k], c.fields[k])
  {
    assert Shows(start, start[root][k], d.fields[k]) && Shows(start, start[custom][k], c.fields[k]);
  }

  lemma OutsideLeads(start: map<Loc, Node>, root: Loc, l: Loc, k: string)
    requires Sections(start, root) && l in start && l !in Copy(start, root) && k in start[l] && start[l][k].Ref?
    ensures start[l][k].loc in start && start[l][k].loc !in Copy(start, root)
  {
  }

  /** A second turn of a section, when the merge agrees: nothing changes, and
      what it pushes are pairs that show one value. */
  lemma AgainChangesNothing(start: map<Loc, Node>, root: Loc, custom: Loc, d: Json, c: Json, j: string, k: string)
    requires Setting(start, root, custom, d, c) && Agree(start[root], start[custom], Merge(d, c))
    requires Descends(start[root], start[custom], j) && Descends(start[root], start[custom], k) && start[root][j] == start[root][k]
    requires start[root][k].loc in start && start[custom][j].loc in start && start[custom][k].loc in start
    ensures var done := Overlaid(start[start[root][k].loc], start[start[custom][j].loc]);
            var over := start[start[custom][k].loc];
            && Overlaid(done, over) == done
            && forall m :: Descends(done, over, m) ==> Quiet(start, root, (done[m].loc, over[m].loc))
  {
    DescentFacts(start, root, custom, d, c, j);
    DescentFacts(start, root, custom, d, c, k);
    var section, before, over := start[start[root][k].loc], start[start[custom][j].loc], start[start[custom][k].loc];
    var ds := d.fields[k];
    ShowsUnique(start, start[root][k], d.fields[j], ds);
    SectionCells(start, section, before, ds, c.fields[j]);
    SectionCells(start, section, over, ds, c.fields[k]);
    var done, value := Overlaid(section, before), Merge(ds, c.fields[k]);
    assert value == Merge(ds, c.fields[j]);
    MergeIdempotent(ds, c.fields[k]);
    QuietChangesNothing(start, done, over, value, c.fields[k]);
    forall m | Descends(done, over, m)
      ensures Quiet(start, root, (done[m].loc, over[m].loc))
    {
      assert m in before && done[m] == before[m];
      OutsideLeads(start, root, start[custom][j].loc, m);
      OutsideLeads(start, root, start[custom][k].loc, m);
      assert done[m] == Ref(done[m].loc) && over[m] == Ref(over[m].loc);
      assert AddsNothing(start, (done[m].loc, over[m].loc), value.fields[m], c.fields[k].fields[m]);
    }
  }

  /** The first turn of a section. */
  lemma FreshTurn(start: map<Loc, Node>, root: Loc, custom: Loc, nodes: map<Loc, Node>, section: Loc, over: Loc, k: string)
    requires Sections(start, root) && custom in start && Between(start, root, custom, nodes) && Descends(start[root], start[custom], k)
    requires section == start[root][k].loc && section in nodes && over == start[custom][k].loc && over in nodes
    requires nodes[over] == start[over] && nodes[section] == start[section] && !Done(start, root, custom, nodes, section)
    ensures var after := nodes[section := Overlaid(nodes[section], nodes[over])];
            && Between(start, root, custom, after) && Done(start, root, custom, after, section)
            && forall l :: Done(start, root, custom, nodes, l) ==> Done(start, root, custom, after, l)
  {
    var after := nodes[section := Overlaid(nodes[section], nodes[over])];
    assert DoneFor(start, root, custom, after, section, k);
    forall l | Done(start, root, custom, nodes, l) ensures Done(start, root, custom, after, l) {
      var j :| DoneFor(start, root, custom, nodes, l, j);
      assert DoneFor(start, root, custom, after, l, j);
    }
  }

  /** The turn of a section. */
  lemma SectionTurn(start: map<Loc, Node>, root: Loc, custom: Loc, d: Json, c: Json, nodes: map<Loc, Node>, k: string)
    requires Setting(start, root, custom, d, c) && Agree(start[root], start[custom], Merge(d, c))
    requires Between(start, root, custom, nodes) && Descends(start[root], start[custom], k)
    requires start[root][k].loc in nodes && start[custom][k].loc in nodes
    ensures var section, over := start[root][k].loc, start[custom][k].loc;
            var after := nodes[section := Overlaid(nodes[section], nodes[over])];
            && Between(start, root, custom, after) && Done(start, root, custom, after, section)
            && (forall l :: Done(start, root, custom, nodes, l) ==> Done(start, root, custom, after, l))
            && forall m :: Descends(nodes[section], nodes[over], m) ==> Quiet(start, root, (nodes[section][m].loc, nodes[over][m].loc))
  {
    DescentFacts(start, root, custom, d, c, k);
    var section, over := start[root][k].loc, start[custom][k].loc;
    assert nodes[over] == start[over];
    if Done(start, root, custom, nodes, section) {
      var j :| DoneFor(start, root, custom, nodes, section, j);
      AgainChangesNothing(start, root, custom, d, c, j, k);
      assert nodes[section := Overlaid(nodes[section], nodes[over])] == nodes;
    } else {
      FreshTurn(start, root, custom, nodes, section, over, k);
    }
  }

  /** What a quiet pair pushes is quiet. */
  lemma QuietLeads(start: map<Loc, Node>, root: Loc, pair: (Loc, Loc))
    requires Sections(start, root) && Quiet(start, root, pair)
    ensures Overlaid(start[pair.0], start[pair.1]) == start[pair.0]
    ensures forall m :: Descends(start[pair.0], start[pair.1], m) ==> Quiet(start, root, (start[pair.0][m].loc, start[pair.1][m].loc))
  {
    var base, over := start[pair.0], start[pair.1];
    var x, y :| AddsNothing(start, pair, x, y);
    QuietChangesNothing(start, base, over, x, y);
    forall m | Descends(base, over, m)
      ensures Quiet(start, root, (base[m].loc, over[m].loc))
    {
      OutsideLeads(start, root, pair.0, m);
      OutsideLeads(start, root, pair.1, m);
      assert base[m] == Ref(base[m].loc) && over[m] == Ref(over[m].loc);
      assert AddsNothing(start, (base[m].loc, over[m].loc), x.fields[m], y.fields[m]);
    }
  }

  /** The turn of a quiet pair. */
  lemma QuietTurn(start: map<Loc, Node>, root: Loc, custom: Loc, nodes: map<Loc, Node>, pair: (Loc, Loc))
    requires Sections(start, root) && custom in start && Between(start, root, custom, nodes) && Quiet(start, root, pair)
    ensures pair.0 in nodes && pair.1 in nodes && nodes[pair.0 := Overlaid(nodes[pair.0], nodes[pair.1])] == nodes
    ensures forall m :: Descends(nodes[pair.0], nodes[pair.1], m) ==> Quiet(start, root, (nodes[pair.0][m].loc, nodes[pair.1][m].loc))
  {
    QuietLeads(start, root, pair);
  }

  // ----------------------------------------------------------------- runs

  lemma StackNext(start: map<Loc, Node>, root: Loc, custom: Loc, a: Point, b: Point, pushed: seq<(Loc, Loc)>)
    requires root in start && custom in start && Pending(start, root, custom, a) && a.stack != []
    requires b.stack == a.stack[..|a.stack| - 1] + pushed
    requires forall i :: 0 <= i < |pushed| ==> Quiet(start, root, pushed[i])
    requires forall l :: Done(start, root, custom, a.nodes, l) ==> Done(start, root, custom, b.nodes, l)
    requires IsDescent(start[root], start[custom], a.stack[|a.stack| - 1]) ==> Done(start, root, custom, b.nodes, a.stack[|a.stack| - 1].0)
    ensures Pending(start, root, custom, b)
  {
    var top := a.stack[|a.stack| - 1];
    forall k | Descends(start[root], start[custom], k)
      ensures (start[root][k].loc, start[custom][k].loc) in b.stack || Done(start, root, custom, b.nodes, start[root][k].loc)
    {
      var pair := (start[root][k].loc, start[custom][k].loc);
      assert IsDescent(start[root], start[custom], pair);
      if pair in a.stack && pair != top {
        var i :| 0 <= i < |a.stack| && a.stack[i] == pair;
        assert b.stack[i] == pair;
      }
    }
  }

  lemma SectionPoint(start: map<Loc, Node>, root: Loc, custom: Loc, d: Json, c: Json, a: Point, b: Point,
                     pushed: seq<(Loc, Loc)>, keys: seq<string>, k: string)
    requires Setting(start, root, custom, d, c) && Agree(start[root], start[custom], Merge(d, c))
    requires Between(start, root, custom, a.nodes) && Pending(start, root, custom, a) && a.stack != [] && Leads(a, b, pushed, keys)
    requires Descends(start[root], start[custom], k) && a.stack[|a.stack| - 1] == (start[root][k].loc, start[custom][k].loc)
    ensures Between(start, root, custom, b.nodes) && Pending(start, root, custom, b)
  {
    SectionTurn(start, root, custom, d, c, a.nodes, k);
    StackNext(start, root, custom, a, b, pushed);
  }

  lemma QuietPoint(start: map<Loc, Node>, root: Loc, custom: Loc, a: Point, b: Point, pushed: seq<(Loc, Loc)>, keys: seq<string>)
    requires Sections(start, root) && custom in start
    requires Between(start, root, custom, a.nodes) && Pending(start, root, custom, a) && a.stack != [] && Leads(a, b, pushed, keys)
    requires !IsDescent(start[root], start[custom], a.stack[|a.stack| - 1])
    ensures Between(start, root, custom, b.nodes) && Pending(start, root, custom, b)
  {
    QuietTurn(start, root, custom, a.nodes, a.stack[|a.stack| - 1]);
    StackNext(start, root, custom, a, b, pushed);
  }

  lemma TurnBetween(start: map<Loc, Node>, root: Loc, custom: Loc, d: Json, c: Json, a: Point, b: Point)
    requires Setting(start, root, custom, d, c) && Agree(start[root], start[custom], Merge(d, c))
    requires Between(start, root, custom, a.nodes) && Pending(start, root, custom, a) && Follows(a, b)
    ensures Between(start, root, custom, b.nodes) && Pending(start, root, custom, b)
  {
    var pushed: seq<(Loc, Loc)>, keys: seq<string> :| Leads(a, b, pushed, keys);
    var top := a.stack[|a.stack| - 1];
    if IsDescent(start[root], start[custom], top) {
      var k :| Descends(start[root], start[custom], k) && top == (start[root][k].loc, start[custom][k].loc);
      SectionPoint(start, root, custom, d, c, a, b, pushed, keys, k);
    } else {
      QuietPoint(start, root, custom, a, b, pushed, keys);
    }
  }

  lemma FirstTurn(start: map<Loc, Node>, root: Loc, custom: Loc, d: Json, c: Json, b: Point)
    requires Setting(start, root, custom, d, c) && Follows(Point(start, [(root, custom)]), b)
    ensures Between(start, root, custom, b.nodes) && Pending(start, root, custom, b)
  {
    var a := Point(start, [(root, custom)]);
    var pushed: seq<(Loc, Loc)>, keys: seq<string> :| Leads(a, b, pushed, keys);
    PushesAll(start[root], start[custom], pushed, keys);
    assert a.stack[..0] + pushed == pushed;
    forall k | Descends(start[root], start[custom], k) ensures (start[root][k].loc, start[custom][k].loc) in b.stack {
      assert IsDescent(start[root], start[custom], (start[root][k].loc, start[custom][k].loc));
    }
    forall i | 0 <= i < |b.stack| ensures IsDescent(start[root], start[custom], b.stack[i]) { assert b.stack[i] in pushed; }
  }

  lemma {:induction false} RunBetween(trace: seq<Point>, start: map<Loc, Node>, root: Loc, custom: Loc, d: Json, c: Json, i: nat)
    requires Setting(start, root, custom, d, c) && Agree(start[root], start[custom], Merge(d, c))
    requires IsRun(trace, start, root, custom) && 1 <= i < |trace|
    ensures Between(start, root, custom, trace[i].nodes) && Pending(start, root, custom, trace[i])
  {
    assert Follows(trace[i - 1], trace[i - 1 + 1]);
    if i == 1 {
      FirstTurn(start, root, custom, d, c, trace[1]);
    } else {
      RunBetween(trace, start, root, custom, d, c, i - 1);
      TurnBetween(start, root, custom, d, c, trace[i - 1], trace[i]);
    }
  }

  lemma {:induction false} OutsideShows(start: map<Loc, Node>, root: Loc, custom: Loc, nodes: map<Loc, Node>, cell: Cell, j: Json)
    requires Sections(start, root) && custom in start && Between(start, root, custom, nodes)
    requires Shows(start, cell, j) && (cell.Ref? ==> cell.loc !in Copy(start, root))
    ensures Shows(nodes, cell, j)
    decreases j
  {
    if j.Obj? {
      forall k | k in j.fields ensures Shows(nodes, nodes[cell.loc][k], j.fields[k]) {
        if start[cell.loc][k].Ref? { OutsideLeads(start, root, cell.loc, k); }
        OutsideShows(start, root, custom, nodes, start[cell.loc][k], j.fields[k]);
      }
    }
  }

  /** A section shows its merge after its turn. */
  lemma SectionShows(start: map<Loc, Node>, root: Loc, custom: Loc, d: Json, c: Json, nodes: map<Loc, Node>, k: string)
    requires Setting(start, root, custom, d, c) && Between(start, root, custom, nodes)
    requires Descends(start[root], start[custom], k) && DoneFor(start, root, custom, nodes, start[root][k].loc, k)
    ensures Shows(nodes, start[root][k], Merge(d, c).fields[k])
  {
    DescentFacts(start, root, custom, d, c, k);
    var section, over := start[start[root][k].loc], start[start[custom][k].loc];
    var value := Merge(d.fields[k], c.fields[k]);
    SectionCells(start, section, over, d.fields[k], c.fields[k]);
    forall m | m in value.fields
      ensures Shows(nodes, nodes[start[root][k].loc][m], value.fields[m])
    {
      var cell := Overlaid(section, over)[m];
      if cell.Ref? { OutsideLeads(start, root, start[custom][k].loc, m); }
      OutsideShows(start, root, custom, nodes, cell, value.fields[m]);
    }
  }

  /** A key the merge leaves with its section. */
  lemma KeptShows(start: map<Loc, Node>, root: Loc, custom: Loc, d: Json, c: Json, nodes: map<Loc, Node>, k: string)
    requires Setting(start, root, custom, d, c) && Agree(start[root], start[custom], Merge(d, c)) && Between(start, root, custom, nodes)
    requires k in start[root] && start[root][k].Ref? && Survives(start[custom], k)
    requires k in start[custom] ==> Done(start, root, custom, nodes, start[root][k].loc)
    ensures Shows(nodes, start[root][k], Merge(d, c).fields[k])
  {
    var section := start[root][k].loc;
    if Done(start, root, custom, nodes, section) {
      var j :| DoneFor(start, root, custom, nodes, section, j);
      SectionShows(start, root, custom, d, c, nodes, j);
    } else {
      assert section in Copy(start, root) && nodes[section] == start[section];
      assert Shows(start, start[root][k], d.fields[k]);
      assert Merge(d, c).fields[k] == d.fields[k];
      forall m | m in start[section] ensures Shows(nodes, nodes[section][m], d.fields[k].fields[m]) {
        assert Shows(start, start[section][m], d.fields[k].fields[m]);
      }
    }
  }

  /** Where the merge agrees with the sharing, every finished run comes out right
      and leaves everything outside the copy as it was. */
  lemma AgreementSuffices(trace: seq<Point>, start: map<Loc, Node>, root: Loc, custom: Loc, d: Json, c: Json)
    requires Setting(start, root, custom, d, c) && Agree(start[root], start[custom], Merge(d, c))
    requires Finished(trace, start, root, custom)
    ensures Shows(trace[|trace| - 1].nodes, Ref(root), Merge(d, c))
    ensures forall l :: l in start && l !in Copy(start, root) ==>
              l in trace[|trace| - 1].nodes && trace[|trace| - 1].nodes[l] == start[l]
  {
    var last := trace[|trace| - 1];
    RunBetween(trace, start, root, custom, d, c, |trace| - 1);
    var base, over, merged := start[root], start[custom], Merge(d, c);
    forall k | k in merged.fields
      ensures Shows(last.nodes, last.nodes[root][k], merged.fields[k])
    {
      if k in base && base[k].Ref? && Survives(over, k) {
        KeptShows(start, root, custom, d, c, last.nodes, k);
      } else if k in over {
        assert Shows(start, over[k], c.fields[k]);
        NoDescent(start, base, over, d, c, k);
        if over[k].Ref? { OutsideLeads(start, root, custom, k); }
        OutsideShows(start, root, custom, last.nodes, over[k], c.fields[k]);
      } else {
        assert Shows(start, base[k], d.fields[k]);
      }
    }
  }

  /** For defaults of two levels, however their keys share sections, and any
      overrides: a finished run shows the recursive merge if and only if the
      merge wants one value for all keys that keep one section. */
  lemma SharingExactly(trace: seq<Point>, start: map<Loc, Node>, root: Loc, custom: Loc, d: Json, c: Json)
    requires Setting(start, root, custom, d, c) && Finished(trace, start, root, custom)
    ensures Shows(trace[|trace| - 1].nodes, Ref(root), Merge(d, c)) <==> Agree(start[root], start[custom], Merge(d, c))
  {
    if Agree(start[root], start[custom], Merge(d, c)) { AgreementSuffices(trace, start, root, custom, d, c); }
    if Shows(trace[|trace| - 1].nodes, Ref(root), Merge(d, c)) {
      forall l, k | l in start && k in start[l] ensures start[l][k] != Ref(root) {
        if l != root && l in Copy(start, root) { assert Flat(start[l]); }
      }
      SharingDemands(trace, start, root, custom, d, c);
    }
  }
}
