/** What the merge does to its inputs when keys of the defaults share dictionaries:
    a section that takes over a dictionary of the overrides passes it on to the
    next override, which is then merged into it. */
module SharedInputs {
  import opened DeepMerge
  import opened SharedMerge

  /** The value holds a dictionary under this key and then this one. */
  predicate Nests(c: Json, k: string, m: string) {
    c.Obj? && k in c.fields && c.fields[k].Obj? && m in c.fields[k].fields && c.fields[k].fields[m].Obj?
  }

  function Nested(c: Json, k: string, m: string): Json
    requires Nests(c, k, m)
  {
    c.fields[k].fields[m]
  }

  ghost predicate Compatible(c: Json, j: string, k: string, m: string) {
    Nests(c, j, m) && Nests(c, k, m) ==> Merge(Nested(c, j, m), Nested(c, k, m)) == Nested(c, j, m)
  }

  /** Where two overrides of one section hold dictionaries under one key, the
      second has nothing to add to the first. */
  ghost predicate NoClash(base: Node, over: Node, c: Json) {
    forall j, k, m :: Descends(base, over, j) && Descends(base, over, k) && base[j] == base[k] ==> Compatible(c, j, k, m)
  }

  /** Everything outside the copy is as it was. */
  ghost predicate Untouched(start: map<Loc, Node>, root: Loc, nodes: map<Loc, Node>)
    requires root in start
  {
    forall l :: l in start && l !in Copy(start, root) ==> l in nodes && nodes[l] == start[l]
  }

  /** The section took this cell over from its override under the key k. */
  ghost predicate TakenFrom(start: map<Loc, Node>, root: Loc, custom: Loc, section: Loc, m: string, cell: Cell, k: string)
    requires root in start && custom in start
  {
    && Descends(start[root], start[custom], k) && start[root][k] == Ref(section)
    && start[custom][k].loc in start && m in start[start[custom][k].loc] && cell == start[start[custom][k].loc][m]
  }

  ghost predicate Taken(start: map<Loc, Node>, root: Loc, custom: Loc, section: Loc, node: Node)
    requires root in start && custom in start
  {
    forall m :: m in node && node[m].Ref? ==> exists k :: TakenFrom(start, root, custom, section, m, node[m], k)
  }

  /** Between two turns after the first: all dictionaries in sections are taken
      over, and nothing outside the copy is written, now or by a pair that waits. */
  ghost predicate Calm(start: map<Loc, Node>, root: Loc, custom: Loc, p: Point)
    requires root in start && custom in start
  {
    && p.nodes.Keys == start.Keys && Untouched(start, root, p.nodes)
    && (forall l :: l in p.nodes && l in Copy(start, root) && l != root ==> Taken(start, root, custom, l, p.nodes[l]))
    && (forall i :: 0 <= i < |p.stack| ==> IsDescent(start[root], start[custom], p.stack[i]) || Quiet(start, root, p.stack[i]))
  }

  /** What a section's turn pushes is quiet. */
  lemma SectionPushes(start: map<Loc, Node>, root: Loc, custom: Loc, d: Json, c: Json, node: Node, k: string, m: string)
    requires Setting(start, root, custom, d, c) && NoClash(start[root], start[custom], c) && Descends(start[root], start[custom], k)
    requires Taken(start, root, custom, start[root][k].loc, node) && start[custom][k].loc in start && Descends(node, start[start[custom][k].loc], m)
    ensures Quiet(start, root, (node[m].loc, start[start[custom][k].loc][m].loc))
  {
    var section, over := start[root][k].loc, start[custom][k].loc;
    var j :| TakenFrom(start, root, custom, section, m, node[m], j);
    DescentFacts(start, root, custom, d, c, j);
    DescentFacts(start, root, custom, d, c, k);
    OutsideLeads(start, root, start[custom][j].loc, m);
    OutsideLeads(start, root, over, m);
    assert Shows(start, node[m], Nested(c, j, m)) && Shows(start, start[over][m], Nested(c, k, m));
    assert Compatible(c, j, k, m);
    assert node[m] == Ref(node[m].loc) && start[over][m] == Ref(start[over][m].loc);
    assert AddsNothing(start, (node[m].loc, start[over][m].loc), Nested(c, j, m), Nested(c, k, m));
  }

  lemma SectionTakes(start: map<Loc, Node>, root: Loc, custom: Loc, d: Json, c: Json, node: Node, k: string)
    requires Setting(start, root, custom, d, c) && Descends(start[root], start[custom], k)
    requires Taken(start, root, custom, start[root][k].loc, node) && start[custom][k].loc in start
    ensures Taken(start, root, custom, start[root][k].loc, Overlaid(node, start[start[custom][k].loc]))
  {
    var over := start[start[custom][k].loc];
    var after := Overlaid(node, over);
    forall m | m in after && after[m].Ref? ensures exists j :: TakenFrom(start, root, custom, start[root][k].loc, m, after[m], j) {
      if m in node && after[m] == node[m] {
        var j :| TakenFrom(start, root, custom, start[root][k].loc, m, node[m], j);
      } else {
        assert TakenFrom(start, root, custom, start[root][k].loc, m, after[m], k);
      }
    }
  }

  lemma SectionCalm(start: map<Loc, Node>, root: Loc, custom: Loc, d: Json, c: Json, a: Point, b: Point,
                    pushed: seq<(Loc, Loc)>, keys: seq<string>, k: string)
    requires Setting(start, root, custom, d, c) && NoClash(start[root], start[custom], c) && Calm(start, root, custom, a)
    requires a.stack != [] && Leads(a, b, pushed, keys) && Descends(start[root], start[custom], k)
    requires a.stack[|a.stack| - 1] == (start[root][k].loc, start[custom][k].loc)
    ensures Calm(start, root, custom, b)
  {
    var section, over := start[root][k].loc, start[custom][k].loc;
    DescentFacts(start, root, custom, d, c, k);
    SectionTakes(start, root, custom, d, c, a.nodes[section], k);
    forall i | 0 <= i < |pushed| ensures Quiet(start, root, pushed[i]) {
      SectionPushes(start, root, custom, d, c, a.nodes[section], k, keys[i]);
    }
  }

  lemma QuietCalm(start: map<Loc, Node>, root: Loc, custom: Loc, a: Point, b: Point, pushed: seq<(Loc, Loc)>, keys: seq<string>)
    requires Sections(start, root) && custom in start && Calm(start, root, custom, a)
    requires a.stack != [] && Leads(a, b, pushed, keys) && Quiet(start, root, a.stack[|a.stack| - 1])
    ensures Calm(start, root, custom, b)
  {
    QuietLeads(start, root, a.stack[|a.stack| - 1]);
    assert b.nodes == a.nodes;
  }

  lemma FirstCalm(start: map<Loc, Node>, root: Loc, custom: Loc, d: Json, c: Json, b: Point, pushed: seq<(Loc, Loc)>, keys: seq<string>)
    requires Setting(start, root, custom, d, c) && Leads(Point(start, [(root, custom)]), b, pushed, keys)
    ensures Calm(start, root, custom, b)
  {
    PushesAll(start[root], start[custom], pushed, keys);
    assert b.stack == pushed;
    forall i | 0 <= i < |b.stack| ensures IsDescent(start[root], start[custom], b.stack[i]) { assert b.stack[i] in pushed; }
  }

  /** At the head of the loop. */
  ghost predicate Ready(start: map<Loc, Node>, root: Loc, custom: Loc, p: Point)
    requires root in start && custom in start
  {
    p == Point(start, [(root, custom)]) || Calm(start, root, custom, p)
  }

  lemma TurnReady(start: map<Loc, Node>, root: Loc, custom: Loc, d: Json, c: Json, a: Point, b: Point, pushed: seq<(Loc, Loc)>, keys: seq<string>)
    requires Setting(start, root, custom, d, c) && NoClash(start[root], start[custom], c)
    requires Ready(start, root, custom, a) && a.stack != [] && Leads(a, b, pushed, keys)
    ensures Calm(start, root, custom, b)
  {
    var top := a.stack[|a.stack| - 1];
    if !Calm(start, root, custom, a) {
      FirstCalm(start, root, custom, d, c, b, pushed, keys);
    } else if IsDescent(start[root], start[custom], top) {
      var k :| Descends(start[root], start[custom], k) && top == (start[root][k].loc, start[custom][k].loc);
      SectionCalm(start, root, custom, d, c, a, b, pushed, keys, k);
    } else {
      QuietCalm(start, root, custom, a, b, pushed, keys);
    }
  }

  lemma {:induction false} RunReady(trace: seq<Point>, start: map<Loc, Node>, root: Loc, custom: Loc, d: Json, c: Json, i: nat)
    requires Setting(start, root, custom, d, c) && NoClash(start[root], start[custom], c)
    requires IsRun(trace, start, root, custom) && i < |trace|
    ensures Ready(start, root, custom, trace[i]) && Untouched(start, root, trace[i].nodes)
  {
    if i > 0 {
      RunReady(trace, start, root, custom, d, c, i - 1);
      assert Follows(trace[i - 1], trace[i - 1 + 1]);
      var pushed: seq<(Loc, Loc)>, keys: seq<string> :| Leads(trace[i - 1], trace[i], pushed, keys);
      TurnReady(start, root, custom, d, c, trace[i - 1], trace[i], pushed, keys);
    }
  }

  // ------------------------------------------------------- a clash is reached

  predicate AreDescents(base: Node, over: Node, keys: seq<string>) {
    && (forall i, j :: 0 <= i < j < |keys| ==> keys[i] != keys[j])
    && (forall i :: 0 <= i < |keys| ==> Descends(base, over, keys[i]))
  }

  lemma {:induction false} Listed(names: set<string>) returns (keys: seq<string>)
    ensures forall i, j :: 0 <= i < j < |keys| ==> keys[i] != keys[j]
    ensures forall k :: k in names <==> k in keys
    decreases |names|
  {
    if names == {} {
      keys := [];
    } else {
      var k :| k in names;
      var rest := Listed(names - {k});
      keys := [k] + rest;
    }
  }

  function Pair(base: Node, over: Node, k: string): (Loc, Loc)
    requires Descends(base, over, k)
  {
    (base[k].loc, over[k].loc)
  }

  /** An order of the overrides that looks at these descents last. */
  lemma SomeOrder(base: Node, over: Node, last: seq<string>) returns (pushed: seq<(Loc, Loc)>, keys: seq<string>)
    requires AreDescents(base, over, last)
    ensures Pushes(base, over, {}, pushed, keys)
    ensures |last| <= |keys| && keys[|keys| - |last|..] == last
  {
    var others := Listed(set k | k in base && Descends(base, over, k) && k !in last);
    keys := others + last;
    forall i | 0 <= i < |keys| ensures Descends(base, over, keys[i]) { assert if i < |others| then keys[i] in others else keys[i] in last; }
    forall i, j | 0 <= i < j < |keys| ensures keys[i] != keys[j] {
      if i < |others| <= j { assert keys[i] in others && keys[j] in last; }
    }
    pushed := seq(|keys|, i requires 0 <= i < |keys| && Descends(base, over, keys[i]) => Pair(base, over, keys[i]));
  }

  /** One more turn of a run, with these descents looked at last. */
  lemma TurnEnding(trace: seq<Point>, start: map<Loc, Node>, root: Loc, custom: Loc, nodes: map<Loc, Node>,
                   rest: seq<(Loc, Loc)>, pair: (Loc, Loc), last: seq<string>)
    returns (longer: seq<Point>, below: seq<(Loc, Loc)>, above: seq<(Loc, Loc)>)
    requires IsRun(trace, start, root, custom) && trace[|trace| - 1] == Point(nodes, rest + [pair])
    requires pair.0 in nodes && pair.1 in nodes && AreDescents(nodes[pair.0], nodes[pair.1], last)
    ensures IsRun(longer, start, root, custom)
    ensures longer[|longer| - 1] == Point(nodes[pair.0 := Overlaid(nodes[pair.0], nodes[pair.1])], below + above)
    ensures |above| == |last| && forall i :: 0 <= i < |last| ==>
              Descends(nodes[pair.0], nodes[pair.1], last[i]) && above[i] == Pair(nodes[pair.0], nodes[pair.1], last[i])
    ensures (forall k :: !Descends(nodes[pair.0], nodes[pair.1], k)) ==> below == rest
  {
    var pushed, keys := SomeOrder(nodes[pair.0], nodes[pair.1], last);
    RunNext(trace, start, root, custom, nodes, rest, pair.0, pair.1, pushed, keys);
    var n := |keys| - |last|;
    below, above := rest + pushed[..n], pushed[n..];
    assert below + above == rest + pushed;
    longer := trace + [Point(nodes[pair.0 := Overlaid(nodes[pair.0], nodes[pair.1])], rest + pushed)];
    forall i | 0 <= i < |last|
      ensures Descends(nodes[pair.0], nodes[pair.1], last[i]) && above[i] == Pair(nodes[pair.0], nodes[pair.1], last[i])
    {
      assert last[i] == keys[n + i];
    }
    if pushed == [] { assert below == rest; } else { assert Descends(nodes[pair.0], nodes[pair.1], keys[0]); }
  }

  lemma NothingBelow(start: map<Loc, Node>, base: Node, over: Node, x: Json, y: Json)
    requires x.Obj? && y.Obj? && base.Keys == x.fields.Keys && over.Keys == y.fields.Keys
    requires forall k :: k in base ==> Shows(start, base[k], x.fields[k])
    requires forall k :: k in over ==> Shows(start, over[k], y.fields[k])
    requires Overlaid(base, over) == base && forall k :: Descends(base, over, k) ==> Merge(x.fields[k], y.fields[k]) == x.fields[k]
    ensures Merge(x, y) == x
  {
    forall k | k in Merge(x, y).fields ensures k in x.fields && Merge(x, y).fields[k] == x.fields[k] {
      assert k in Overlaid(base, over);
      if k in over && !Descends(base, over, k) {
        assert Overlaid(base, over)[k] == over[k];
        ShowsUnique(start, base[k], x.fields[k], y.fields[k]);
      }
    }
    assert Merge(x, y).fields == x.fields;
  }

  lemma AddsBelow(start: map<Loc, Node>, base: Node, over: Node, x: Json, y: Json) returns (n: string)
    requires x.Obj? && y.Obj? && base.Keys == x.fields.Keys && over.Keys == y.fields.Keys
    requires forall k :: k in base ==> Shows(start, base[k], x.fields[k])
    requires forall k :: k in over ==> Shows(start, over[k], y.fields[k])
    requires Overlaid(base, over) == base && Merge(x, y) != x
    ensures Descends(base, over, n) && Merge(x.fields[n], y.fields[n]) != x.fields[n]
    ensures Shows(start, base[n], x.fields[n]) && Shows(start, over[n], y.fields[n])
  {
    if forall k :: Descends(base, over, k) ==> Merge(x.fields[k], y.fields[k]) == x.fields[k] { NothingBelow(start, base, over, x, y); }
    n :| Descends(base, over, n) && Merge(x.fields[n], y.fields[n]) != x.fields[n];
  }

  lemma WrittenHere(trace: seq<Point>, start: map<Loc, Node>, root: Loc, custom: Loc, nodes: map<Loc, Node>,
                    rest: seq<(Loc, Loc)>, pair: (Loc, Loc))
    returns (longer: seq<Point>)
    requires root in start && IsRun(trace, start, root, custom) && trace[|trace| - 1] == Point(nodes, rest + [pair])
    requires pair.0 in start && pair.0 !in Copy(start, root) && pair.0 in nodes && pair.1 in nodes && nodes[pair.0] == start[pair.0]
    requires Overlaid(nodes[pair.0], nodes[pair.1]) != start[pair.0]
    ensures IsRun(longer, start, root, custom) && !Untouched(start, root, longer[|longer| - 1].nodes)
  {
    var below, above;
    longer, below, above := TurnEnding(trace, start, root, custom, nodes, rest, pair, []);
  }

  lemma PairLeads(start: map<Loc, Node>, root: Loc, pair: (Loc, Loc), n: string)
    requires Sections(start, root) && pair.0 in start && pair.1 in start && Descends(start[pair.0], start[pair.1], n)
    requires pair.0 !in Copy(start, root) && pair.1 !in Copy(start, root)
    ensures var below := Pair(start[pair.0], start[pair.1], n);
            && below.0 in start && below.1 in start && below.0 !in Copy(start, root) && below.1 !in Copy(start, root)
            && start[pair.0][n] == Ref(below.0) && start[pair.1][n] == Ref(below.1)
  {
    OutsideLeads(start, root, pair.0, n);
    OutsideLeads(start, root, pair.1, n);
  }

  /** A pair outside the copy whose second dictionary adds something leads, if
      the additions are looked at last, to a write outside the copy. */
  lemma {:induction false} AdditionWritten(trace: seq<Point>, start: map<Loc, Node>, root: Loc, custom: Loc,
                                           rest: seq<(Loc, Loc)>, pair: (Loc, Loc), x: Json, y: Json)
    returns (longer: seq<Point>)
    requires Sections(start, root) && IsRun(trace, start, root, custom)
    requires trace[|trace| - 1].stack == rest + [pair] && Untouched(start, root, trace[|trace| - 1].nodes)
    requires pair.0 in start && pair.1 in start && pair.0 !in Copy(start, root) && pair.1 !in Copy(start, root)
    requires Shows(start, Ref(pair.0), x) && Shows(start, Ref(pair.1), y) && Merge(x, y) != x
    ensures IsRun(longer, start, root, custom) && !Untouched(start, root, longer[|longer| - 1].nodes)
    decreases x
  {
    var nodes, base, over := trace[|trace| - 1].nodes, start[pair.0], start[pair.1];
    assert nodes[pair.0] == base && nodes[pair.1] == over;
    if Overlaid(base, over) != base {
      longer := WrittenHere(trace, start, root, custom, nodes, rest, pair);
    } else {
      var n := AddsBelow(start, base, over, x, y);
      PairLeads(start, root, pair, n);
      var below, above;
      longer, below, above := TurnEnding(trace, start, root, custom, nodes, rest, pair, [n]);
      assert nodes[pair.0 := base] == nodes && above == [above[0]];
      longer := AdditionWritten(longer, start, root, custom, below, above[0], x.fields[n], y.fields[n]);
    }
  }

  /** The run that serves the two overrides of a section one after the other. */
  lemma TwoTurns(start: map<Loc, Node>, root: Loc, custom: Loc, j: string, k: string)
    returns (trace: seq<Point>, rest: seq<(Loc, Loc)>)
    requires root in start && custom in start && j != k
    requires Descends(start[root], start[custom], j) && Descends(start[root], start[custom], k) && start[root][j] == start[root][k]
    requires start[root][k].loc in start && start[custom][j].loc in start && start[root][k].loc in Copy(start, root)
    requires start[root][k].loc != root && start[custom][j].loc !in Copy(start, root) && Flat(start[start[root][k].loc])
    ensures IsRun(trace, start, root, custom)
    ensures var section, p := start[root][k].loc, trace[|trace| - 1];
            && p.stack == rest + [(section, start[custom][k].loc)] && Untouched(start, root, p.nodes) && section in p.nodes
            && p.nodes[section] == Overlaid(start[section], start[start[custom][j].loc])
  {
    var section, first, second := start[root][k].loc, start[custom][j].loc, start[custom][k].loc;
    trace := [Point(start, [] + [(root, custom)])];
    var below, above;
    trace, below, above := TurnEnding(trace, start, root, custom, start, [], (root, custom), [k, j]);
    assert [k, j][0] == k && [k, j][1] == j;
    var nodes := trace[|trace| - 1].nodes;
    assert below + above == (below + [(section, second)]) + [(section, first)];
    var none;
    trace, rest, none := TurnEnding(trace, start, root, custom, nodes, below + [(section, second)], (section, first), []);
    rest := below;
  }

  lemma SecondTurn(start: map<Loc, Node>, root: Loc, custom: Loc, d: Json, c: Json, j: string, k: string, m: string)
    requires Setting(start, root, custom, d, c) && Nests(c, j, m) && Nests(c, k, m)
    requires Descends(start[root], start[custom], j) && Descends(start[root], start[custom], k) && start[root][j] == start[root][k]
    ensures var section, first, second := start[root][k].loc, start[custom][j].loc, start[custom][k].loc;
            && section in start && section in Copy(start, root) && section != root && Flat(start[section])
            && first in start && first !in Copy(start, root) && second in start && second !in Copy(start, root)
            && Descends(Overlaid(start[section], start[first]), start[second], m)
            && Overlaid(start[section], start[first])[m] == start[first][m]
            && start[first][m].loc in start && start[first][m].loc !in Copy(start, root) && Shows(start, start[first][m], Nested(c, j, m))
            && start[second][m].loc in start && start[second][m].loc !in Copy(start, root) && Shows(start, start[second][m], Nested(c, k, m))
  {
    DescentFacts(start, root, custom, d, c, j);
    DescentFacts(start, root, custom, d, c, k);
    var first, second := start[custom][j].loc, start[custom][k].loc;
    assert Shows(start, start[first][m], Nested(c, j, m)) && Shows(start, start[second][m], Nested(c, k, m));
    OutsideLeads(start, root, first, m);
    OutsideLeads(start, root, second, m);
  }

  /** A clash is reached by some run: it writes into a dictionary outside the copy. */
  lemma ClashReached(start: map<Loc, Node>, root: Loc, custom: Loc, d: Json, c: Json, j: string, k: string, m: string)
    returns (trace: seq<Point>)
    requires Setting(start, root, custom, d, c) && !Compatible(c, j, k, m)
    requires Descends(start[root], start[custom], j) && Descends(start[root], start[custom], k) && start[root][j] == start[root][k]
    ensures IsRun(trace, start, root, custom) && !Untouched(start, root, trace[|trace| - 1].nodes)
  {
    if j == k { MergeSelf(Nested(c, j, m)); }
    SecondTurn(start, root, custom, d, c, j, k, m);
    var rest, above;
    trace, rest := TwoTurns(start, root, custom, j, k);
    var section, first, second := start[root][k].loc, start[custom][j].loc, start[custom][k].loc;
    var nodes := trace[|trace| - 1].nodes;
    trace, rest, above := TurnEnding(trace, start, root, custom, nodes, rest, (section, second), [m]);
    assert above == [above[0]] && start[first][m] == Ref(above[0].0) && start[second][m] == Ref(above[0].1);
    trace := AdditionWritten(trace, start, root, custom, rest, above[0], Nested(c, j, m), Nested(c, k, m));
  }

  ghost predicate NeverWritten(start: map<Loc, Node>, root: Loc, custom: Loc)
    requires root in start
  {
    forall trace: seq<Point>, i :: IsRun(trace, start, root, custom) && 0 <= i < |trace| ==> Untouched(start, root, trace[i].nodes)
  }

  /** For defaults of two levels, however their keys share sections, and any
      overrides: no run, with the overrides looked at in any order, ever writes
      outside the copy if and only if, where two overrides of one section hold
      dictionaries under one key, the second has nothing to add to the first. */
  lemma InputsSafeExactly(start: map<Loc, Node>, root: Loc, custom: Loc, d: Json, c: Json)
    requires Setting(start, root, custom, d, c)
    ensures NeverWritten(start, root, custom) <==> NoClash(start[root], start[custom], c)
  {
    if NoClash(start[root], start[custom], c) {
      forall trace: seq<Point>, i | IsRun(trace, start, root, custom) && 0 <= i < |trace| ensures Untouched(start, root, trace[i].nodes) {
        RunReady(trace, start, root, custom, d, c, i);
      }
    } else {
      var j, k, m :| Descends(start[root], start[custom], j) && Descends(start[root], start[custom], k) && start[root][j] == start[root][k] &&
                     !Compatible(c, j, k, m);
      var trace := ClashReached(start, root, custom, d, c, j, k, m);
      assert !Untouched(start, root, trace[|trace| - 1].nodes);
    }
  }

  // ------------------------------------------------- runs come to an end

  /** The dictionaries of a value, each path counted. */
  ghost function Size(j: Json): nat
    decreases j, 1, 0
  {
    if j.Obj? then 1 + SizeUnder(j, j.fields.Keys) else 0
  }

  ghost function SizeUnder(j: Json, keys: set<string>): nat
    requires j.Obj? && keys <= j.fields.Keys
    decreases j, 0, |keys|
  {
    if keys == {} then 0 else var k :| k in keys; Size(j.fields[k]) + SizeUnder(j, keys - {k})
  }

  lemma {:induction false} SizeSplit(j: Json, keys: set<string>, k: string)
    requires j.Obj? && keys <= j.fields.Keys && k in keys
    ensures SizeUnder(j, keys) == Size(j.fields[k]) + SizeUnder(j, keys - {k})
    decreases |keys|
  {
    var x :| x in keys && SizeUnder(j, keys) == Size(j.fields[x]) + SizeUnder(j, keys - {x});
    if x != k {
      SizeSplit(j, keys - {x}, k);
      SizeSplit(j, keys - {k}, x);
      assert keys - {x} - {k} == keys - {k} - {x};
    }
  }

  ghost function Weight(start: map<Loc, Node>, l: Loc): nat {
    if exists j :: Shows(start, Ref(l), j) then var j :| Shows(start, Ref(l), j); Size(j) else 0
  }

  lemma WeightIs(start: map<Loc, Node>, l: Loc, j: Json)
    requires Shows(start, Ref(l), j)
    ensures Weight(start, l) == Size(j)
  {
    var other :| Shows(start, Ref(l), other) && Weight(start, l) == Size(other);
    ShowsUnique(start, Ref(l), j, other);
  }

  /** What the overrides on the stack still hold. */
  ghost function Total(start: map<Loc, Node>, stack: seq<(Loc, Loc)>): nat {
    if stack == [] then 0 else Total(start, stack[..|stack| - 1]) + Weight(start, stack[|stack| - 1].1)
  }

  lemma {:induction false} TotalAppend(start: map<Loc, Node>, a: seq<(Loc, Loc)>, b: seq<(Loc, Loc)>)
    ensures Total(start, a + b) == Total(start, a) + Total(start, b)
    decreases |b|
  {
    if b == [] {
      assert a + b == a;
    } else {
      TotalAppend(start, a, b[..|b| - 1]);
      assert (a + b)[..|a + b| - 1] == a + b[..|b| - 1];
    }
  }

  lemma {:induction false} PushedWeighs(start: map<Loc, Node>, over: Node, j: Json, left: set<string>, pushed: seq<(Loc, Loc)>, keys: seq<string>)
    requires j.Obj? && over.Keys == j.fields.Keys && left <= over.Keys && |keys| == |pushed|
    requires forall k :: k in over ==> Shows(start, over[k], j.fields[k])
    requires forall a, b :: 0 <= a < b < |keys| ==> keys[a] != keys[b]
    requires forall a :: 0 <= a < |keys| ==> keys[a] in left && over[keys[a]] == Ref(pushed[a].1)
    ensures Total(start, pushed) <= SizeUnder(j, left)
    decreases |keys|
  {
    if keys != [] {
      var n := |keys| - 1;
      var k := keys[n];
      PushedWeighs(start, over, j, left - {k}, pushed[..n], keys[..n]);
      WeightIs(start, pushed[n].1, j.fields[k]);
      SizeSplit(j, left, k);
    }
  }

  /** Each pair on the stack overrides with a dictionary as it was at the start. */
  lemma TopFacts(start: map<Loc, Node>, root: Loc, custom: Loc, d: Json, c: Json, p: Point) returns (j: Json)
    requires Setting(start, root, custom, d, c) && Ready(start, root, custom, p) && p.stack != []
    ensures var top := p.stack[|p.stack| - 1];
            top.0 in p.nodes && top.1 in p.nodes && p.nodes[top.1] == start[top.1] && Shows(start, Ref(top.1), j)
  {
    var top := p.stack[|p.stack| - 1];
    if top == (root, custom) {
      j := c;
    } else if IsDescent(start[root], start[custom], top) {
      var k :| Descends(start[root], start[custom], k) && top == (start[root][k].loc, start[custom][k].loc);
      DescentFacts(start, root, custom, d, c, k);
      j := c.fields[k];
    } else {
      var x, y :| AddsNothing(start, top, x, y);
      j := y;
    }
  }

  lemma TurnShrinks(start: map<Loc, Node>, rest: seq<(Loc, Loc)>, top: (Loc, Loc), base: Node, j: Json, pushed: seq<(Loc, Loc)>, keys: seq<string>)
    requires top.1 in start && Shows(start, Ref(top.1), j) && Pushes(base, start[top.1], {}, pushed, keys)
    ensures Total(start, rest + pushed) < Total(start, rest + [top])
  {
    PushedWeighs(start, start[top.1], j, j.fields.Keys, pushed, keys);
    WeightIs(start, top.1, j);
    TotalAppend(start, rest, pushed);
    assert (rest + [top])[..|rest|] == rest;
  }

  /** Any run under way can be brought to its end. */
  lemma {:induction false} Completes(trace: seq<Point>, start: map<Loc, Node>, root: Loc, custom: Loc, d: Json, c: Json) returns (full: seq<Point>)
    requires Setting(start, root, custom, d, c) && NoClash(start[root], start[custom], c)
    requires IsRun(trace, start, root, custom)
    ensures Finished(full, start, root, custom)
    decreases Total(start, trace[|trace| - 1].stack)
  {
    var p := trace[|trace| - 1];
    if p.stack == [] { return trace; }
    RunReady(trace, start, root, custom, d, c, |trace| - 1);
    var rest, top := p.stack[..|p.stack| - 1], p.stack[|p.stack| - 1];
    assert p.stack == rest + [top];
    var j := TopFacts(start, root, custom, d, c, p);
    var pushed, keys := SomeOrder(p.nodes[top.0], p.nodes[top.1], []);
    TurnShrinks(start, rest, top, p.nodes[top.0], j, pushed, keys);
    RunNext(trace, start, root, custom, p.nodes, rest, top.0, top.1, pushed, keys);
    full := Completes(trace + [Point(p.nodes[top.0 := Overlaid(p.nodes[top.0], p.nodes[top.1])], rest + pushed)], start, root, custom, d, c);
  }

  /** Without a clash the loop comes to its end. */
  lemma NoClashEnds(start: map<Loc, Node>, root: Loc, custom: Loc, d: Json, c: Json) returns (trace: seq<Point>)
    requires Setting(start, root, custom, d, c) && NoClash(start[root], start[custom], c)
    ensures Finished(trace, start, root, custom)
  {
    trace := Completes([Point(start, [(root, custom)])], start, root, custom, d, c);
  }

  /** Where the merge agrees with the sharing there is no clash. */
  lemma AgreementIsCalm(start: map<Loc, Node>, root: Loc, custom: Loc, d: Json, c: Json)
    requires Setting(start, root, custom, d, c) && Agree(start[root], start[custom], Merge(d, c))
    ensures NoClash(start[root], start[custom], c)
  {
    forall j, k, m | Descends(start[root], start[custom], j) && Descends(start[root], start[custom], k) && start[root][j] == start[root][k]
      ensures Compatible(c, j, k, m)
    {
      if Nests(c, j, m) && Nests(c, k, m) {
        NestedIsTaken(start, root, custom, d, c, j, m);
        NestedIsTaken(start, root, custom, d, c, k, m);
        MergeSelf(Nested(c, j, m));
      }
    }
  }

  lemma NestedIsTaken(start: map<Loc, Node>, root: Loc, custom: Loc, d: Json, c: Json, k: string, m: string)
    requires Setting(start, root, custom, d, c) && Descends(start[root], start[custom], k) && Nests(c, k, m)
    ensures k in Merge(d, c).fields && Merge(d, c).fields[k].Obj? && m in Merge(d, c).fields[k].fields
    ensures Merge(d, c).fields[k].fields[m] == Nested(c, k, m)
  {
    DescentFacts(start, root, custom, d, c, k);
    SectionCells(start, start[start[root][k].loc], start[start[custom][k].loc], d.fields[k], c.fields[k]);
  }

  /** So there the loop comes to its end, with the recursive merge. */
  lemma AgreementEnds(start: map<Loc, Node>, root: Loc, custom: Loc, d: Json, c: Json) returns (trace: seq<Point>)
    requires Setting(start, root, custom, d, c) && Agree(start[root], start[custom], Merge(d, c))
    ensures Finished(trace, start, root, custom) && Shows(trace[|trace| - 1].nodes, Ref(root), Merge(d, c))
  {
    AgreementIsCalm(start, root, custom, d, c);
    trace := NoClashEnds(start, root, custom, d, c);
    AgreementSuffices(trace, start, root, custom, d, c);
  }

  /** The stack loop over a copy of two levels whose keys may share sections. As
      long as the overrides do not clash it ends, no dictionary outside the copy
      has changed, and the root shows the recursive merge if and only if the
      merge wants one value for all keys that keep one section. */
  method MergeSections(m: Merger, root: Loc, custom: Loc, ghost d: Json, ghost c: Json) returns (ghost trace: seq<Point>)
    requires Setting(m.nodes, root, custom, d, c) && NoClash(m.nodes[root], m.nodes[custom], c)
    modifies m
    ensures Finished(trace, old(m.nodes), root, custom) && trace[|trace| - 1].nodes == m.nodes
    ensures Untouched(old(m.nodes), root, m.nodes)
    ensures Shows(m.nodes, Ref(root), Merge(d, c)) <==> Agree(old(m.nodes)[root], old(m.nodes)[custom], Merge(d, c))
  {
    ghost var start := m.nodes;
    var stack := [(root, custom)];
    trace := [Point(m.nodes, stack)];
    while stack != []
      invariant IsRun(trace, start, root, custom) && trace[|trace| - 1] == Point(m.nodes, stack)
      decreases Total(start, stack)
    {
      var (base, over) := stack[|stack| - 1];
      var rest := stack[..|stack| - 1];
      assert stack == rest + [(base, over)];
      ghost var before := m.nodes;
      RunReady(trace, start, root, custom, d, c, |trace| - 1);
      ghost var j := TopFacts(start, root, custom, d, c, Point(before, stack));
      var pushed, order := m.Turn(base, over);
      TurnShrinks(start, rest, (base, over), before[base], j, pushed, order);
      RunNext(trace, start, root, custom, before, rest, base, over, pushed, order);
      stack := rest + pushed;
      trace := trace + [Point(m.nodes, stack)];
    }
    RunReady(trace, start, root, custom, d, c, |trace| - 1);
    SharingExactly(trace, start, root, custom, d, c);
  }

  // ------------------------------------------------------------- witnesses

  /** The smallest failure: one empty section under two keys, and an override of
      one of them. The loop ends, and however it does, not with the merge. */
  lemma SharedSectionFails(start: map<Loc, Node>, root: Loc, custom: Loc) returns (trace: seq<Point>)
    requires Setting(start, root, custom, Obj(map["a" := Obj(map[]), "b" := Obj(map[])]), Obj(map["a" := Obj(map["p" := Scalar(1)])]))
    requires start[root]["a"] == start[root]["b"]
    ensures Finished(trace, start, root, custom)
    ensures forall run: seq<Point> :: Finished(run, start, root, custom) ==>
              !Shows(run[|run| - 1].nodes, Ref(root), Merge(Obj(map["a" := Obj(map[]), "b" := Obj(map[])]), Obj(map["a" := Obj(map["p" := Scalar(1)])])))
  {
    var d, c := Obj(map["a" := Obj(map[]), "b" := Obj(map[])]), Obj(map["a" := Obj(map["p" := Scalar(1)])]);
    SectionDisagrees(start, root, custom, d, c);
    trace := NoClashEnds(start, root, custom, d, c);
    forall run: seq<Point> | Finished(run, start, root, custom) ensures !Shows(run[|run| - 1].nodes, Ref(root), Merge(d, c)) {
      SharingExactly(run, start, root, custom, d, c);
    }
  }

  lemma SectionDisagrees(start: map<Loc, Node>, root: Loc, custom: Loc, d: Json, c: Json)
    requires Setting(start, root, custom, d, c) && start[root].Keys == {"a", "b"} && start[root]["a"] == start[root]["b"]
    requires d == Obj(map["a" := Obj(map[]), "b" := Obj(map[])]) && c == Obj(map["a" := Obj(map["p" := Scalar(1)])])
    ensures !Agree(start[root], start[custom], Merge(d, c)) && NoClash(start[root], start[custom], c)
  {
    var merged := Merge(d, c);
    assert merged.fields["b"] == Obj(map[]) && merged.fields["a"] == Merge(Obj(map[]), Obj(map["p" := Scalar(1)]));
    assert "p" in merged.fields["a"].fields;
    assert Shows(start, start[root]["a"], Obj(map[])) && Shows(start, start[custom]["a"], Obj(map["p" := Scalar(1)]));
  }

  const SECTIONS: Node := map["a" := Ref(Loc(1)), "b" := Ref(Loc(1))]
  const OVERRIDES: Node := map["a" := Ref(Loc(3)), "b" := Ref(Loc(5))]

  /** One empty section under two keys, both overridden: a: {p: {q: 1}} and
      b: {p: {r: 2}}. */
  predicate ClashHeap(start: map<Loc, Node>) {
    && start.Keys == {Loc(0), Loc(1), Loc(2), Loc(3), Loc(4), Loc(5), Loc(6)}
    && start[Loc(0)] == SECTIONS && start[Loc(1)] == map[] && start[Loc(2)] == OVERRIDES
    && start[Loc(3)] == map["p" := Ref(Loc(4))] && start[Loc(4)] == map["q" := Atom(1)]
    && start[Loc(5)] == map["p" := Ref(Loc(6))] && start[Loc(6)] == map["r" := Atom(2)]
  }

  lemma ClashShows(start: map<Loc, Node>, first: Json, second: Json)
    requires ClashHeap(start)
    requires first == Obj(map["p" := Obj(map["q" := Scalar(1)])]) && second == Obj(map["p" := Obj(map["r" := Scalar(2)])])
    ensures Shows(start, Ref(Loc(0)), Obj(map["a" := Obj(map[]), "b" := Obj(map[])]))
    ensures Shows(start, Ref(Loc(2)), Obj(map["a" := first, "b" := second])) && Shows(start, Ref(Loc(4)), first.fields["p"])
  {
    assert Shows(start, Ref(Loc(1)), Obj(map[]));
    assert Shows(start, Ref(Loc(4)), first.fields["p"]) && Shows(start, Ref(Loc(6)), second.fields["p"]);
    assert Shows(start, Ref(Loc(3)), first) && Shows(start, Ref(Loc(5)), second);
  }

  lemma ClashSections(start: map<Loc, Node>)
    requires ClashHeap(start)
    ensures Sections(start, Loc(0)) && Copy(start, Loc(0)) == {Loc(0), Loc(1)}
  {
    assert start[Loc(0)]["a"].loc in Copy(start, Loc(0));
    forall l | l in Copy(start, Loc(0)) ensures l in {Loc(0), Loc(1)} {}
  }

  lemma PlainTurn(base: Node, over: Node)
    requires forall k :: !Descends(base, over, k)
    ensures Overlaid(base, over) == base + over && Pushes(base, over, {}, [], [])
  {
  }

  lemma RootTurn()
    ensures Overlaid(SECTIONS, OVERRIDES) == SECTIONS
    ensures Pushes(SECTIONS, OVERRIDES, {}, [(Loc(1), Loc(5)), (Loc(1), Loc(3))], ["b", "a"])
  {
  }

  lemma ClashingTurn(taken: Node, over: Node)
    requires taken == map["p" := Ref(Loc(4))] && over == map["p" := Ref(Loc(6))]
    ensures Overlaid(taken, over) == taken && Pushes(taken, over, {}, [(Loc(4), Loc(6))], ["p"])
  {
  }

  lemma TurnTo(trace: seq<Point>, start: map<Loc, Node>, root: Loc, custom: Loc, nodes: map<Loc, Node>, rest: seq<(Loc, Loc)>, pair: (Loc, Loc),
               pushed: seq<(Loc, Loc)>, keys: seq<string>, node: Node)
    returns (longer: seq<Point>)
    requires IsRun(trace, start, root, custom) && trace[|trace| - 1] == Point(nodes, rest + [pair])
    requires pair.0 in nodes && pair.1 in nodes && Pushes(nodes[pair.0], nodes[pair.1], {}, pushed, keys)
    requires node == Overlaid(nodes[pair.0], nodes[pair.1])
    ensures IsRun(longer, start, root, custom) && longer[|longer| - 1] == Point(nodes[pair.0 := node], rest + pushed)
  {
    RunNext(trace, start, root, custom, nodes, rest, pair.0, pair.1, pushed, keys);
    longer := trace + [Point(nodes[pair.0 := node], rest + pushed)];
  }

  /** The loop on it: the root's turn and the first override's, */
  lemma ClashBegins(start: map<Loc, Node>) returns (trace: seq<Point>)
    requires ClashHeap(start)
    ensures IsRun(trace, start, Loc(0), Loc(2))
    ensures trace[|trace| - 1] == Point(start[Loc(1) := start[Loc(3)]], [] + [(Loc(1), Loc(5))])
  {
    RootTurn();
    PlainTurn(start[Loc(1)], start[Loc(3)]);
    var first, second := (Loc(1), Loc(3)), (Loc(1), Loc(5));
    trace := [Point(start, [] + [(Loc(0), Loc(2))])];
    trace := TurnTo(trace, start, Loc(0), Loc(2), start, [], (Loc(0), Loc(2)), [second, first], ["b", "a"], start[Loc(0)]);
    assert start[Loc(0) := start[Loc(0)]] == start && [] + [second, first] == [second] + [first];
    trace := TurnTo(trace, start, Loc(0), Loc(2), start, [second], first, [], [], start[Loc(3)]);
    assert [second] + [] == [] + [second];
  }

  /** and the second one's, which writes into a dictionary of the first. */
  lemma ClashEnds(trace: seq<Point>, start: map<Loc, Node>, taken: map<Loc, Node>) returns (full: seq<Point>)
    requires ClashHeap(start) && taken == start[Loc(1) := start[Loc(3)]]
    requires IsRun(trace, start, Loc(0), Loc(2)) && trace[|trace| - 1] == Point(taken, [] + [(Loc(1), Loc(5))])
    ensures Finished(full, start, Loc(0), Loc(2)) && full[|full| - 1].nodes == taken[Loc(4) := taken[Loc(4)] + taken[Loc(6)]]
  {
    ClashingTurn(taken[Loc(1)], taken[Loc(5)]);
    PlainTurn(taken[Loc(4)], taken[Loc(6)]);
    full := TurnTo(trace, start, Loc(0), Loc(2), taken, [], (Loc(1), Loc(5)), [(Loc(4), Loc(6))], ["p"], taken[Loc(1)]);
    assert taken[Loc(1) := taken[Loc(1)]] == taken;
    full := TurnTo(full, start, Loc(0), Loc(2), taken, [], (Loc(4), Loc(6)), [], [], taken[Loc(4)] + taken[Loc(6)]);
  }

  /** So a merge can come to its end with a dictionary of the overrides changed. */
  lemma OverridesChanged(start: map<Loc, Node>, d: Json, c: Json) returns (trace: seq<Point>)
    requires ClashHeap(start) && d == Obj(map["a" := Obj(map[]), "b" := Obj(map[])])
    requires c == Obj(map["a" := Obj(map["p" := Obj(map["q" := Scalar(1)])]), "b" := Obj(map["p" := Obj(map["r" := Scalar(2)])])])
    ensures Setting(start, Loc(0), Loc(2), d, c) && Finished(trace, start, Loc(0), Loc(2))
    ensures Shows(start, Ref(Loc(4)), c.fields["a"].fields["p"]) && !Untouched(start, Loc(0), trace[|trace| - 1].nodes)
  {
    ClashShows(start, c.fields["a"], c.fields["b"]);
    ClashSections(start);
    trace := ClashBegins(start);
    trace := ClashEnds(trace, start, start[Loc(1) := start[Loc(3)]]);
    assert "r" in trace[|trace| - 1].nodes[Loc(4)] && "r" !in start[Loc(4)];
  }
}
