/** Checkout pools under any interleaving of their handlers: the streams of the
    parallel engine with its poison flag, and the worker ports with the
    processor groups behind them. */
module Pools {
  import opened Wrappers

  type Handler = nat

  /** Where a handler is in `encode`. The item it holds is a stream, or a port. */
  datatype Phase<T> =
    | Outside
    | Admitted                 // the first look at the flag was clean; waiting for an item
    | Holding(item: T)         // before the second look at the flag
    | Working(item: T)         // GPU work, or the request to the worker
    | Finishing(item: T)       // in `finally`, before synchronize
    | Poisoning(item: T)       // synchronize raised; the flag is not yet set
    | Returning(item: T)       // before the item goes back

  datatype State<T(==)> = State(queue: seq<T>, failed: bool, phases: map<Handler, Phase<T>>, poisoned: set<T>)

  datatype Step = Enter | Refuse | Take | TimeOut | Begin | Reject | End | SyncOk | SyncFail | SetFlag | Put

  function PhaseOf<T>(s: State<T>, h: Handler): Phase<T> {
    if h in s.phases then s.phases[h] else Outside
  }

  function ItemOf<T>(phase: Phase<T>): Option<T> {
    match phase
    case Outside => None
    case Admitted => None
    case Holding(item) => Some(item)
    case Working(item) => Some(item)
    case Finishing(item) => Some(item)
    case Poisoning(item) => Some(item)
    case Returning(item) => Some(item)
  }

  predicate Holds<T(==)>(s: State<T>, h: Handler, item: T) { ItemOf(PhaseOf(s, h)) == Some(item) }

  function Moved<T>(s: State<T>, h: Handler, phase: Phase<T>): State<T> { s.(phases := s.phases[h := phase]) }

  /** One step of one handler; None when it cannot take that step now. */
  function Next<T>(s: State<T>, h: Handler, step: Step): Option<State<T>> {
    match (step, PhaseOf(s, h))
    case (Enter, Outside) => if s.failed then None else Some(Moved(s, h, Admitted))
    case (Refuse, Outside) => if s.failed then Some(s) else None
    case (Take, Admitted) => if s.queue == [] then None else Some(Moved(s.(queue := s.queue[1..]), h, Holding(s.queue[0])))
    case (TimeOut, Admitted) => if s.queue == [] then Some(Moved(s, h, Outside)) else None
    case (Begin, Holding(item)) => if s.failed then None else Some(Moved(s, h, Working(item)))
    case (Reject, Holding(item)) => if s.failed then Some(Moved(s, h, Finishing(item))) else None
    case (End, Working(item)) => Some(Moved(s, h, Finishing(item)))
    case (SyncOk, Finishing(item)) => Some(Moved(s, h, Returning(item)))
    case (SyncFail, Finishing(item)) => Some(Moved(s.(poisoned := s.poisoned + {item}), h, Poisoning(item)))
    case (SetFlag, Poisoning(item)) => Some(Moved(s.(failed := true), h, Returning(item)))
    case (Put, Returning(item)) => Some(Moved(s.(queue := s.queue + [item]), h, Outside))
    case _ => None
  }

  ghost predicate QueuedOnce<T(!new)>(queue: seq<T>, all: set<T>) {
    && (forall i, j :: 0 <= i < j < |queue| ==> queue[i] != queue[j])
    && (forall i :: 0 <= i < |queue| ==> queue[i] in all)
  }

  ghost predicate HeldOnce<T(!new)>(s: State<T>, all: set<T>) {
    && (forall h, item :: Holds(s, h, item) ==> item in all && item !in s.queue)
    && (forall h, g, item :: Holds(s, h, item) && Holds(s, g, item) ==> h == g)
  }

  ghost predicate NoneLost<T(!new)>(s: State<T>, all: set<T>) {
    forall item :: item in all && item !in s.queue ==> exists h :: Holds(s, h, item)
  }

  /** Every item of the pool is in the queue or with one handler, once. */
  ghost predicate Conserved<T(!new)>(s: State<T>, all: set<T>) {
    QueuedOnce(s.queue, all) && HeldOnce(s, all) && NoneLost(s, all)
  }

  /** A poisoned item is either known through the flag, or still with the handler
      that is about to set it; no one works with it. */
  ghost predicate Fenced<T>(s: State<T>) {
    forall item :: item in s.poisoned ==>
      && (s.failed || exists h :: PhaseOf(s, h) == Poisoning(item))
      && forall h :: PhaseOf(s, h) != Working(item)
  }

  function Start<T>(items: seq<T>): State<T> { State(items, false, map[], {}) }

  /** What a step does to the whereabouts of items, whatever else it changes. */
  lemma StepMoves<T(!new)>(s: State<T>, h: Handler, step: Step)
    requires Next(s, h, step).Some?
    ensures forall g :: g != h ==> PhaseOf(Next(s, h, step).value, g) == PhaseOf(s, g)
    ensures step != Take && step != Put ==>
      Next(s, h, step).value.queue == s.queue && ItemOf(PhaseOf(Next(s, h, step).value, h)) == ItemOf(PhaseOf(s, h))
  {
  }

  lemma TakeConserves<T(!new)>(s: State<T>, all: set<T>, h: Handler, t: State<T>)
    requires Conserved(s, all) && s.queue != [] && PhaseOf(s, h) == Admitted
    requires t.queue == s.queue[1..] && PhaseOf(t, h) == Holding(s.queue[0])
    requires forall g :: g != h ==> PhaseOf(t, g) == PhaseOf(s, g)
    ensures Conserved(t, all)
  {
    var item := s.queue[0];
    assert item in s.queue && s.queue == [item] + t.queue;
    assert item !in t.queue;
    assert forall other :: other in s.queue <==> other == item || other in t.queue;
    forall other | other in all && other !in t.queue ensures exists g :: Holds(t, g, other) {
      if other == item {
        assert Holds(t, h, item);
      } else {
        var g :| Holds(s, g, other);
        assert Holds(t, g, other);
      }
    }
    forall g, other | Holds(t, g, other) ensures other in all && other !in t.queue && (g != h ==> other != item) {
      if g != h { assert Holds(s, g, other); }
    }
    forall g, f, other | Holds(t, g, other) && Holds(t, f, other) ensures g == f {
      if g != h && f != h { assert Holds(s, g, other) && Holds(s, f, other); }
    }
  }

  lemma PutConserves<T(!new)>(s: State<T>, all: set<T>, h: Handler, t: State<T>, item: T)
    requires Conserved(s, all) && PhaseOf(s, h) == Returning(item)
    requires t.queue == s.queue + [item] && PhaseOf(t, h) == Outside
    requires forall g :: g != h ==> PhaseOf(t, g) == PhaseOf(s, g)
    ensures Conserved(t, all)
  {
    assert Holds(s, h, item);
    assert forall other :: other in t.queue <==> other in s.queue || other == item;
    forall other | other in all && other !in t.queue ensures exists g :: Holds(t, g, other) {
      var g :| Holds(s, g, other);
      assert Holds(t, g, other);
    }
    forall g, other | Holds(t, g, other) ensures other in all && other !in t.queue { assert Holds(s, g, other); }
    forall g, f, other | Holds(t, g, other) && Holds(t, f, other) ensures g == f {
      assert Holds(s, g, other) && Holds(s, f, other);
    }
  }

  lemma StillConserved<T(!new)>(s: State<T>, all: set<T>, t: State<T>)
    requires Conserved(s, all) && t.queue == s.queue
    requires forall g :: ItemOf(PhaseOf(t, g)) == ItemOf(PhaseOf(s, g))
    ensures Conserved(t, all)
  {
    assert forall g, item :: Holds(t, g, item) <==> Holds(s, g, item);
  }

  /** No step loses an item, adds one, or gives one to two handlers. */
  lemma StepConserves<T(!new)>(s: State<T>, all: set<T>, h: Handler, step: Step)
    requires Conserved(s, all) && Next(s, h, step).Some?
    ensures Conserved(Next(s, h, step).value, all)
  {
    var t := Next(s, h, step).value;
    StepMoves(s, h, step);
    if step == Take {
      TakeConserves(s, all, h, t);
    } else if step == Put {
      PutConserves(s, all, h, t, PhaseOf(s, h).item);
    } else {
      StillConserved(s, all, t);
    }
  }

  /** The flag is set before a poisoned item goes back, so no one works with it. */
  lemma StepFences<T(!new)>(s: State<T>, all: set<T>, h: Handler, step: Step)
    requires Conserved(s, all) && Fenced(s) && Next(s, h, step).Some?
    ensures Fenced(Next(s, h, step).value)
    ensures s.failed ==> Next(s, h, step).value.failed
    ensures s.poisoned <= Next(s, h, step).value.poisoned
  {
    var t := Next(s, h, step).value;
    StepMoves(s, h, step);
    forall item | item in t.poisoned
      ensures t.failed || exists g :: PhaseOf(t, g) == Poisoning(item)
    {
      if item !in s.poisoned {
        assert PhaseOf(t, h) == Poisoning(item);
      } else if !s.failed {
        var g :| PhaseOf(s, g) == Poisoning(item);
        if g != h { assert PhaseOf(t, g) == Poisoning(item); }
      }
    }
    forall item, g | item in t.poisoned ensures PhaseOf(t, g) != Working(item) {
      if PhaseOf(t, g) == Working(item) { NotAtWork(s, all, h, step, item, g); }
    }
  }

  lemma NotAtWork<T(!new)>(s: State<T>, all: set<T>, h: Handler, step: Step, item: T, g: Handler)
    requires HeldOnce(s, all) && Fenced(s) && Next(s, h, step).Some?
    requires item in Next(s, h, step).value.poisoned
    ensures PhaseOf(Next(s, h, step).value, g) != Working(item)
  {
    StepMoves(s, h, step);
    if item !in s.poisoned {
      assert Holds(s, h, item);
      if g != h { assert Holds(s, g, item) ==> g == h; }
    } else if g == h && step == Begin && !s.failed && PhaseOf(s, h) == Holding(item) {
      var f :| PhaseOf(s, f) == Poisoning(item);
      assert Holds(s, f, item) && Holds(s, h, item);
      assert false;
    }
  }

  /** A run: any handlers, any order, each step possible when it is taken. */
  ghost predicate Runs<T(!new)>(s: State<T>, steps: seq<(Handler, Step)>, t: State<T>)
    decreases |steps|
  {
    if steps == [] then s == t
    else
      var next := Next(s, steps[0].0, steps[0].1);
      next.Some? && Runs(next.value, steps[1..], t)
  }

  lemma {:induction false} RunKeeps<T(!new)>(s: State<T>, all: set<T>, steps: seq<(Handler, Step)>, t: State<T>)
    requires Conserved(s, all) && Fenced(s) && Runs(s, steps, t)
    ensures Conserved(t, all) && Fenced(t) && s.poisoned <= t.poisoned
    decreases |steps|
  {
    if steps != [] {
      var (h, step) := steps[0];
      StepConserves(s, all, h, step);
      StepFences(s, all, h, step);
      RunKeeps(Next(s, h, step).value, all, steps[1..], t);
    }
  }

  lemma StartHolds<T(!new)>(items: seq<T>)
    requires forall i, j :: 0 <= i < j < |items| ==> items[i] != items[j]
    ensures Conserved(Start(items), (set item | item in items)) && Fenced(Start(items))
  {
  }

  /** Over any run from the start, items in the queue and items held by handlers
      are exactly the original set, each once; and once synchronize has failed
      on an item, no handler ever works with it, then or later. */
  lemma PoolSafe<T(!new)>(items: seq<T>, before: seq<(Handler, Step)>, mid: State<T>, after: seq<(Handler, Step)>, end: State<T>)
    requires forall i, j :: 0 <= i < j < |items| ==> items[i] != items[j]
    requires Runs(Start(items), before, mid) && Runs(mid, after, end)
    ensures Conserved(end, (set item | item in items))
    ensures forall item, h :: item in mid.poisoned ==> PhaseOf(mid, h) != Working(item) && PhaseOf(end, h) != Working(item)
  {
    var all := set item | item in items;
    StartHolds(items);
    RunKeeps(Start(items), all, before, mid);
    RunKeeps(mid, all, after, end);
  }

  // ------------------------------------------- when the flag is set, and why

  /** The flag is set for a poisoned item only, and whoever is about to set it
      holds one. */
  ghost predicate Justified<T(!new)>(s: State<T>) {
    && (s.failed ==> s.poisoned != {})
    && (forall h, item :: PhaseOf(s, h) == Poisoning(item) ==> item in s.poisoned)
  }

  lemma StepJustifies<T(!new)>(s: State<T>, h: Handler, step: Step)
    requires Justified(s) && Next(s, h, step).Some?
    ensures Justified(Next(s, h, step).value)
    ensures step != SyncFail && s.poisoned == {} ==> Next(s, h, step).value.poisoned == {}
  {
    var t := Next(s, h, step).value;
    StepMoves(s, h, step);
    forall g, item | PhaseOf(t, g) == Poisoning(item) ensures item in t.poisoned {
      if g != h { assert PhaseOf(s, g) == Poisoning(item); }
    }
  }

  predicate NoSyncFails(steps: seq<(Handler, Step)>) { forall i :: 0 <= i < |steps| ==> steps[i].1 != SyncFail }

  lemma {:induction false} RunJustified<T(!new)>(s: State<T>, steps: seq<(Handler, Step)>, t: State<T>)
    requires Justified(s) && Runs(s, steps, t)
    ensures Justified(t)
    ensures NoSyncFails(steps) && s.poisoned == {} ==> t.poisoned == {}
    decreases |steps|
  {
    if steps != [] {
      var (h, step) := steps[0];
      StepJustifies(s, h, step);
      assert NoSyncFails(steps) ==> step != SyncFail && NoSyncFails(steps[1..]);
      RunJustified(Next(s, h, step).value, steps[1..], t);
    }
  }

  /** Over any run from the start the flag is set only once synchronize failed on
      an item; in a run where it never fails the flag stays clear. */
  lemma FlagHasCause<T(!new)>(items: seq<T>, steps: seq<(Handler, Step)>, s: State<T>)
    requires Runs(Start(items), steps, s)
    ensures s.failed ==> s.poisoned != {}
    ensures forall h, item :: PhaseOf(s, h) == Poisoning(item) ==> item in s.poisoned
    ensures NoSyncFails(steps) ==> !s.failed && s.poisoned == {}
  {
    RunJustified(Start(items), steps, s);
  }

  /** While the flag is clear nobody is refused, and once it is set nobody is
      admitted and nobody begins; an admitted handler takes the first item, and
      times out only without one. */
  lemma FlagDecides<T(!new)>(s: State<T>, h: Handler)
    ensures PhaseOf(s, h).Outside? ==> (Next(s, h, Enter).Some? <==> !s.failed) && (Next(s, h, Refuse).Some? <==> s.failed)
    ensures PhaseOf(s, h).Holding? ==> (Next(s, h, Begin).Some? <==> !s.failed) && (Next(s, h, Reject).Some? <==> s.failed)
    ensures PhaseOf(s, h).Admitted? ==> (Next(s, h, Take).Some? <==> s.queue != []) && (Next(s, h, TimeOut).Some? <==> s.queue == [])
    ensures PhaseOf(s, h).Admitted? && s.queue == [] ==>
              var t := Next(s, h, TimeOut).value; t.queue == s.queue && t.failed == s.failed && PhaseOf(t, h) == Outside
    ensures PhaseOf(s, h).Admitted? && s.queue != [] ==>
              var t := Next(s, h, Take).value; t.queue == s.queue[1..] && t.failed == s.failed && PhaseOf(t, h) == Holding(s.queue[0])
    ensures forall step, item :: Next(s, h, step).Some? && PhaseOf(Next(s, h, step).value, h) == Working(item) ==> !s.failed
    ensures forall step :: PhaseOf(s, h).Outside? && Next(s, h, step).Some? && !PhaseOf(Next(s, h, step).value, h).Outside? ==> !s.failed
    ensures forall step :: Next(s, h, step).Some? && Next(s, h, step).value.poisoned != s.poisoned ==> step == SyncFail
  {
  }

  // -------------------------------------------------- requests come to an end

  function By(h: Handler, steps: seq<Step>): (r: seq<(Handler, Step)>)
    ensures |r| == |steps| && forall i :: 0 <= i < |r| ==> r[i] == (h, steps[i])
  {
    seq(|steps|, i requires 0 <= i < |steps| => (h, steps[i]))
  }

  lemma ByNext(h: Handler, steps: seq<Step>)
    requires steps != []
    ensures By(h, steps)[1..] == By(h, steps[1..]) && By(h, steps)[0] == (h, steps[0])
  {
  }

  /** The handler's steps, one after another. */
  ghost predicate Does<T(!new)>(s: State<T>, h: Handler, steps: seq<Step>, t: State<T>) { Runs(s, By(h, steps), t) }

  lemma DoesNext<T(!new)>(s: State<T>, h: Handler, step: Step, rest: seq<Step>, t: State<T>)
    requires Next(s, h, step).Some? && Does(Next(s, h, step).value, h, rest, t)
    ensures Does(s, h, [step] + rest, t)
  {
    ByNext(h, [step] + rest);
    assert ([step] + rest)[1..] == rest;
  }

  /** The handler is out again, and its item, if it had one, back in the queue. */
  ghost predicate Out<T(!new)>(s: State<T>, h: Handler, item: T, t: State<T>) {
    && PhaseOf(t, h) == Outside && t.queue == s.queue + [item]
    && forall g :: g != h ==> PhaseOf(t, g) == PhaseOf(s, g)
  }

  /** Whoever holds an item can always give it back by himself, whatever the
      others do: refused or not, after its work, and also when synchronize
      fails; only in that case is the flag set. */
  lemma HolderFinishes<T(!new)>(s: State<T>, h: Handler, item: T, fails: bool) returns (steps: seq<Step>, t: State<T>)
    requires Holds(s, h, item)
    ensures Does(s, h, steps, t) && Out(s, h, item, t)
    ensures PhaseOf(s, h).Holding? ==> (Begin in steps <==> !s.failed)
    ensures !fails ==> SyncFail !in steps
    ensures PhaseOf(s, h).Poisoning? ==> t.failed && t.poisoned == s.poisoned
    ensures PhaseOf(s, h).Returning? ==> t.failed == s.failed && t.poisoned == s.poisoned
    ensures !PhaseOf(s, h).Poisoning? && !PhaseOf(s, h).Returning? ==>
              if fails then t.failed && t.poisoned == s.poisoned + {item} else t.failed == s.failed && t.poisoned == s.poisoned
  {
    match PhaseOf(s, h)
    case Returning(_) =>
      steps, t := [Put], Next(s, h, Put).value;
      DoesNext(s, h, Put, [], t);
      assert [Put] + [] == [Put];
    case Poisoning(_) =>
      var next := Next(s, h, SetFlag).value;
      steps, t := HolderReturns(next, h, item);
      DoesNext(s, h, SetFlag, steps, t);
      steps := [SetFlag] + steps;
    case Finishing(_) =>
      steps, t := SyncEnds(s, h, item, fails);
    case Working(_) =>
      steps, t := SyncEnds(Next(s, h, End).value, h, item, fails);
      DoesNext(s, h, End, steps, t);
      steps := [End] + steps;
    case Holding(_) =>
      if s.failed {
        steps, t := SyncEnds(Next(s, h, Reject).value, h, item, fails);
        DoesNext(s, h, Reject, steps, t);
        steps := [Reject] + steps;
      } else {
        var working := Next(s, h, Begin).value;
        steps, t := SyncEnds(Next(working, h, End).value, h, item, fails);
        DoesNext(working, h, End, steps, t);
        DoesNext(s, h, Begin, [End] + steps, t);
        steps := [Begin] + ([End] + steps);
      }
  }

  lemma HolderReturns<T(!new)>(s: State<T>, h: Handler, item: T) returns (steps: seq<Step>, t: State<T>)
    requires PhaseOf(s, h) == Returning(item)
    ensures steps == [Put] && Does(s, h, steps, t) && Out(s, h, item, t) && t.failed == s.failed && t.poisoned == s.poisoned
  {
    steps, t := [Put], Next(s, h, Put).value;
    DoesNext(s, h, Put, [], t);
    assert [Put] + [] == [Put];
  }

  lemma SyncEnds<T(!new)>(s: State<T>, h: Handler, item: T, fails: bool) returns (steps: seq<Step>, t: State<T>)
    requires PhaseOf(s, h) == Finishing(item)
    ensures Does(s, h, steps, t) && Out(s, h, item, t)
    ensures Begin !in steps && (!fails ==> SyncFail !in steps)
    ensures if fails then t.failed && t.poisoned == s.poisoned + {item} else t.failed == s.failed && t.poisoned == s.poisoned
  {
    if fails {
      var poisoning := Next(s, h, SyncFail).value;
      steps, t := HolderReturns(Next(poisoning, h, SetFlag).value, h, item);
      DoesNext(poisoning, h, SetFlag, steps, t);
      DoesNext(s, h, SyncFail, [SetFlag] + steps, t);
      steps := [SyncFail] + ([SetFlag] + steps);
    } else {
      steps, t := HolderReturns(Next(s, h, SyncOk).value, h, item);
      DoesNext(s, h, SyncOk, steps, t);
      steps := [SyncOk] + steps;
    }
  }

  /** So as long as the flag is clear a request with a free item is served, the
      item goes to the end of the queue, nothing else changes, and any handler
      that is outside can enter next. */
  lemma RequestServed<T(!new)>(s: State<T>, h: Handler) returns (steps: seq<Step>, t: State<T>)
    requires PhaseOf(s, h) == Outside && !s.failed && s.queue != []
    ensures Does(s, h, steps, t) && Begin in steps && SyncFail !in steps
    ensures t.queue == s.queue[1..] + [s.queue[0]] && !t.failed && t.poisoned == s.poisoned
    ensures forall g :: PhaseOf(t, g) == PhaseOf(s, g)
    ensures forall g :: PhaseOf(t, g) == Outside ==> Next(t, g, Enter).Some?
  {
    var admitted := Next(s, h, Enter).value;
    steps, t := HolderFinishes(Next(admitted, h, Take).value, h, s.queue[0], false);
    DoesNext(admitted, h, Take, steps, t);
    DoesNext(s, h, Enter, [Take] + steps, t);
    steps := [Enter] + ([Take] + steps);
  }

  /** The pool whose queue and flag the handlers share. */
  class ParallelEngine<T(==,!new)> {
    var streams: seq<T>
    var failed: bool
    var phases: map<Handler, Phase<T>>
    ghost var poisoned: set<T>

    ghost function Now(): State<T> reads this { State(streams, failed, phases, poisoned) }

    constructor (items: seq<T>)
      ensures Now() == Start(items)
    {
      streams, failed, phases, poisoned := items, false, map[], {};
    }

    /** Handler h takes one step in place; nothing changes when it cannot. */
    method Act(h: Handler, step: Step) returns (done: bool)
      modifies this
      ensures done == Next(old(Now()), h, step).Some?
      ensures Now() == if done then Next(old(Now()), h, step).value else old(Now())
    {
      var phase := if h in phases then phases[h] else Outside;
      var next := phase;
      done := true;
      match (step, phase) {
        case (Enter, Outside) => if failed { return false; } next := Admitted;
        case (Refuse, Outside) => return failed;
        case (Take, Admitted) =>
          if streams == [] { return false; }
          next := Holding(streams[0]);
          streams := streams[1..];
        case (TimeOut, Admitted) => if streams != [] { return false; } next := Outside;
        case (Begin, Holding(item)) => if failed { return false; } next := Working(item);
        case (Reject, Holding(item)) => if !failed { return false; } next := Finishing(item);
        case (End, Working(item)) => next := Finishing(item);
        case (SyncOk, Finishing(item)) => next := Returning(item);
        case (SyncFail, Finishing(item)) => next, poisoned := Poisoning(item), poisoned + {item};
        case (SetFlag, Poisoning(item)) => next, failed := Returning(item), true;
        case (Put, Returning(item)) => next, streams := Outside, streams + [item];
        case _ => return false;
      }
      phases := phases[h := next];
    }
  }

  // ------------------------------------------------------ processor groups

  type Groups = seq<seq<int>>

  predicate LegalGroup(group: seq<int>, available: set<int>) {
    && |group| == 4
    && (forall i :: 0 <= i < 4 ==> group[i] >= 0 && group[i] in available)
    && (forall i, j :: 0 <= i < j < 4 ==> group[i] != group[j])
  }

  ghost predicate LegalGroups(groups: Groups, available: set<int>) {
    && 1 <= |groups| <= 24
    && (forall g :: 0 <= g < |groups| ==> LegalGroup(groups[g], available))
    && Disjoint(groups)
  }

  function Cpus(group: seq<int>): set<int> { set cpu | cpu in group }

  function Used(groups: Groups): set<int> {
    if groups == [] then {} else Used(groups[..|groups| - 1]) + Cpus(groups[|groups| - 1])
  }

  ghost predicate Disjoint(groups: Groups) {
    forall k, m :: 0 <= k < m < |groups| ==> Cpus(groups[k]) * Cpus(groups[m]) == {}
  }

  /** A group meets the processors used so far exactly when it meets one of the groups. */
  lemma {:induction false} UsedApart(groups: Groups, own: set<int>)
    ensures Used(groups) * own == {} <==> forall k :: 0 <= k < |groups| ==> Cpus(groups[k]) * own == {}
  {
    if groups != [] {
      var rest, last := groups[..|groups| - 1], Cpus(groups[|groups| - 1]);
      UsedApart(rest, own);
      assert Used(groups) * own == Used(rest) * own + last * own;
      assert forall k :: 0 <= k < |rest| ==> rest[k] == groups[k];
      assert Used(groups) * own == {} <==> Used(rest) * own == {} && last * own == {};
    }
  }

  lemma NextDisjoint(groups: Groups, group: seq<int>)
    requires Disjoint(groups)
    ensures Disjoint(groups + [group]) <==> Used(groups) * Cpus(group) == {}
    ensures Used(groups + [group]) == Used(groups) + Cpus(group)
  {
    var more := groups + [group];
    UsedApart(groups, Cpus(group));
    assert more[|groups|] == group && forall k :: 0 <= k < |groups| ==> more[k] == groups[k];
    assert more[..|groups|] == groups;
    assert Used(groups) * Cpus(group) != {} ==> exists k :: 0 <= k < |groups| && Cpus(more[k]) * Cpus(more[|groups|]) != {};
  }

  lemma DisjointPrefix(groups: Groups, n: nat)
    requires Disjoint(groups) && n <= |groups|
    ensures Disjoint(groups[..n])
  {
  }

  lemma FourDistinct(group: seq<int>)
    requires |group| == 4
    ensures |Cpus(group)| == 4 <==> forall i, j :: 0 <= i < j < 4 ==> group[i] != group[j]
  {
    var three: set<int> := {group[0], group[1], group[2]};
    assert Cpus(group) == three + {group[3]};
    assert |three| <= 3;
    assert |three| == 3 <==> group[0] != group[1] && group[0] != group[2] && group[1] != group[2];
  }

  /** Accepts exactly the legal lists of groups. */
  method ValidateGroups(groups: Groups, available: set<int>) returns (ok: bool)
    ensures ok <==> LegalGroups(groups, available)
  {
    if !(1 <= |groups| <= 24) { return false; }
    var seen: set<int> := {};
    for g := 0 to |groups|
      invariant seen == Used(groups[..g])
      invariant forall k :: 0 <= k < g ==> LegalGroup(groups[k], available)
      invariant Disjoint(groups[..g])
    {
      var group := groups[g];
      var own := Cpus(group);
      assert groups[..g + 1] == groups[..g] + [group];
      NextDisjoint(groups[..g], group);
      if Disjoint(groups) { DisjointPrefix(groups, g + 1); }
      if |group| != 4 { return false; }
      FourDistinct(group);
      if exists cpu :: cpu in group && cpu < 0 { return false; }
      if |own| != 4 || seen * own != {} { return false; }
      if !(own <= available) { return false; }
      seen := seen + own;
      assert forall i :: 0 <= i < 4 ==> group[i] in own;
    }
    assert groups[..|groups|] == groups;
    return true;
  }

  const FIRST_PORT := 8081

  /** Port FIRST_PORT + i belongs to the worker pinned to groups[i]. At any moment
      of any run, two handlers waiting for workers use disjoint processors. */
  lemma WorkersDisjoint(groups: Groups, available: set<int>, ports: seq<int>, steps: seq<(Handler, Step)>, s: State<int>, h: Handler, g: Handler, p: int, q: int)
    requires LegalGroups(groups, available)
    requires |ports| == |groups| && forall i :: 0 <= i < |ports| ==> ports[i] == FIRST_PORT + i
    requires Runs(Start(ports), steps, s)
    requires h != g && Holds(s, h, p) && Holds(s, g, q)
    ensures 0 <= p - FIRST_PORT < |groups| && 0 <= q - FIRST_PORT < |groups|
    ensures Cpus(groups[p - FIRST_PORT]) * Cpus(groups[q - FIRST_PORT]) == {}
  {
    StartHolds(ports);
    RunKeeps(Start(ports), (set item | item in ports), steps, s);
    assert p in ports && q in ports && p != q;
  }
}
