/** A file renamed again and again before the server has acknowledged anything
    stays one pending move from where it started to where it is now. */
module RenameChain {
  import opened Wrappers
  import opened Text
  import opened QueueModel
  import opened QueueRuns
  import opened EventSafety

  predicate DistinctKeys(keys: seq<string>) {
    forall i, j :: 0 <= i < j < |keys| ==> keys[i] != keys[j]
  }

  /** A recorded move from keys[m] to keys[m + 1]. */
  ghost predicate Advances(rules: PathRules, db: Db, step: Step, source: string, keys: seq<string>, m: nat) {
    && step.Enqueued? && step.source == source && step.kind == Move && step.oldPath != ""
    && EnqueueDb(rules, db, source, step.path, Move, step.oldPath, step.now).Ok?
    && m + 1 < |keys|
    && SlotOf(rules, source, step.path).key == keys[m + 1]
    && rules.fold(NormalizePath(rules, step.oldPath).value) == keys[m]
  }

  predicate OnKeys(source: string, keys: seq<string>, slot: Slot) {
    slot.source == source && slot.key in keys
  }

  /** Any other step of the run. At the file's current key only autosaves, the
      sender's own repeats with the origin the row remembers, and scans are
      allowed; other chain keys stay untouched, and an acknowledgement may do
      anything to the move except complete it. Steps elsewhere are free. */
  ghost predicate Idles(rules: PathRules, db: Db, step: Step, source: string, keys: seq<string>, m: nat)
    requires m < |keys|
  {
    var here := Slot(source, keys[m]);
    match step
    case Enqueued(s, path, kind, oldPath, now) =>
      EnqueueDb(rules, db, s, path, kind, oldPath, now).Ok? ==>
        var slot := SlotOf(rules, s, path);
        if slot == here then kind == Upsert && (oldPath == "" || (here in db.pending && OldPath(rules, oldPath) == db.pending[here].oldPath))
        else !OnKeys(source, keys, slot) && Departed(rules, db.pending, slot, kind, OldPath(rules, oldPath)) != Some(here)
    case Scanned(s, path, now) =>
      ScanDb(rules, db, s, path, now).Ok? ==>
        var slot := SlotOf(rules, s, path);
        slot == here || !OnKeys(source, keys, slot)
    case Acknowledged(_, _, _, _) => here in db.pending ==> !Consumed(rules, db, step, here, db.pending[here].generation)
    case _ => true
  }

  /** The run only advances along the chain or idles. */
  ghost predicate ChainRun(rules: PathRules, db: Db, steps: seq<Step>, source: string, keys: seq<string>, m: nat)
    requires m < |keys|
    decreases |steps|
  {
    steps == [] ||
    var next := Next(rules, db, steps[0]);
    if Advances(rules, db, steps[0], source, keys, m)
    then ChainRun(rules, next, steps[1..], source, keys, m + 1)
    else Idles(rules, db, steps[0], source, keys, m) && ChainRun(rules, next, steps[1..], source, keys, m)
  }

  /** Where on the chain the run ends. */
  ghost function Reached(rules: PathRules, db: Db, steps: seq<Step>, source: string, keys: seq<string>, m: nat): (r: nat)
    requires m < |keys|
    ensures m <= r < |keys|
    decreases |steps|
  {
    if steps == [] then m
    else Reached(rules, Next(rules, db, steps[0]), steps[1..], source, keys,
                 if Advances(rules, db, steps[0], source, keys, m) then m + 1 else m)
  }

  /** Exactly one pending row on the chain: a move to keys[m] from the origin. */
  ghost predicate OnlyAt(db: Db, source: string, keys: seq<string>, m: nat, origin: string)
    requires m < |keys|
  {
    && (forall i :: 0 <= i < |keys| ==> (Slot(source, keys[i]) in db.pending <==> i == m))
    && db.pending[Slot(source, keys[m])].kind == Move
    && db.pending[Slot(source, keys[m])].oldPath == Some(origin)
  }

  lemma AdvanceKeepsOne(rules: PathRules, db: Db, step: Step, source: string, keys: seq<string>, m: nat, origin: string)
    requires DistinctKeys(keys) && m < |keys|
    requires OnlyAt(db, source, keys, m, origin) && Advances(rules, db, step, source, keys, m)
    ensures OnlyAt(Next(rules, db, step), source, keys, m + 1, origin)
  {
    assert Slot(source, keys[m]) in db.pending;
  }

  lemma IdleEnqueue(rules: PathRules, db: Db, step: Step, source: string, keys: seq<string>, m: nat, origin: string)
    requires DistinctKeys(keys) && m < |keys| && (step.Enqueued? || step.Scanned?)
    requires OnlyAt(db, source, keys, m, origin) && Idles(rules, db, step, source, keys, m)
    ensures OnlyAt(Next(rules, db, step), source, keys, m, origin)
  {
    assert Slot(source, keys[m]) in db.pending;
  }

  lemma NoNewRows(rules: PathRules, db: Db, step: Step)
    requires !step.Enqueued? && !step.Scanned?
    ensures Next(rules, db, step).pending.Keys <= db.pending.Keys
  {
  }

  lemma IdleKeepsOne(rules: PathRules, db: Db, step: Step, source: string, keys: seq<string>, m: nat, origin: string)
    requires DistinctKeys(keys) && m < |keys|
    requires OnlyAt(db, source, keys, m, origin) && Idles(rules, db, step, source, keys, m)
    ensures OnlyAt(Next(rules, db, step), source, keys, m, origin)
  {
    if step.Enqueued? || step.Scanned? {
      IdleEnqueue(rules, db, step, source, keys, m, origin);
    } else {
      var here := Slot(source, keys[m]);
      NoNewRows(rules, db, step);
      assert here in db.pending;
      if step.Acknowledged? { AckTakes(rules, db, step, here); } else { OtherTakesNothing(rules, db, step, here); }
    }
  }

  lemma {:induction false} ChainStaysOne(rules: PathRules, db: Db, steps: seq<Step>, source: string, keys: seq<string>, m: nat, origin: string)
    requires DistinctKeys(keys) && m < |keys|
    requires OnlyAt(db, source, keys, m, origin) && ChainRun(rules, db, steps, source, keys, m)
    ensures OnlyAt(Run(rules, db, steps), source, keys, Reached(rules, db, steps, source, keys, m), origin)
    decreases |steps|
  {
    if steps != [] {
      var next := Next(rules, db, steps[0]);
      if Advances(rules, db, steps[0], source, keys, m) {
        AdvanceKeepsOne(rules, db, steps[0], source, keys, m, origin);
        ChainStaysOne(rules, next, steps[1..], source, keys, m + 1, origin);
      } else {
        IdleKeepsOne(rules, db, steps[0], source, keys, m, origin);
        ChainStaysOne(rules, next, steps[1..], source, keys, m, origin);
      }
    }
  }

  /** What the first move starts from: the origin an earlier pending row at the
      first key already remembers, or the old path the move names. */
  function ChainOrigin(rules: PathRules, db: Db, source: string, keys: seq<string>, first: Step): string
    requires |keys| > 0 && first.Enqueued? && NormalizePath(rules, first.oldPath).Some?
  {
    var start := Slot(source, keys[0]);
    if start in db.pending && db.pending[start].oldPath.Some? then db.pending[start].oldPath.value
    else NormalizePath(rules, first.oldPath).value
  }

  /** For every chain, of any length, with any autosaves and unrelated steps in
      between: one pending move remains, from the origin to the last key. */
  lemma RenamesCollapse(rules: PathRules, db: Db, source: string, keys: seq<string>, first: Step, rest: seq<Step>)
    requires DistinctKeys(keys) && |keys| > 1
    requires forall i :: 1 <= i < |keys| ==> Slot(source, keys[i]) !in db.pending
    requires Advances(rules, db, first, source, keys, 0)
    requires ChainRun(rules, Next(rules, db, first), rest, source, keys, 1)
    ensures var last := Reached(rules, Next(rules, db, first), rest, source, keys, 1);
            OnlyAt(Run(rules, db, [first] + rest), source, keys, last, ChainOrigin(rules, db, source, keys, first))
  {
    var origin := ChainOrigin(rules, db, source, keys, first);
    FirstMove(rules, db, source, keys, first);
    ChainStaysOne(rules, Next(rules, db, first), rest, source, keys, 1, origin);
    assert ([first] + rest)[1..] == rest;
  }

  lemma FirstMove(rules: PathRules, db: Db, source: string, keys: seq<string>, first: Step)
    requires DistinctKeys(keys) && |keys| > 1
    requires forall i :: 1 <= i < |keys| ==> Slot(source, keys[i]) !in db.pending
    requires Advances(rules, db, first, source, keys, 0)
    ensures OnlyAt(Next(rules, db, first), source, keys, 1, ChainOrigin(rules, db, source, keys, first))
  {
    assert Slot(source, keys[1]) !in db.pending;
  }
}
