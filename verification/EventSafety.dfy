/** No captured event is lost: over any run, a pending row disappears exactly
    when a newer event, a move away or a completing acknowledgement takes it. */
module EventSafety {
  import opened Wrappers
  import opened Text
  import opened QueueModel
  import opened QueueInvariant
  import opened QueueRuns

  ghost predicate SameEvent(a: Row, b: Row) {
    && a.generation == b.generation && a.path == b.path && a.kind == b.kind && a.oldPath == b.oldPath
    && a.changedAt == b.changedAt && a.initial == b.initial
  }

  ghost predicate Carries(db: Db, slot: Slot, row: Row) {
    slot in db.pending && SameEvent(db.pending[slot], row)
  }

  /** Item i of the source's batch is event (key, generation), completed. */
  ghost predicate Completes(db: Db, slot: Slot, generation: int, outcomes: seq<int>) {
    exists i :: 0 <= i < |outcomes| && outcomes[i] == 2
      && Seat(slot.source, i) in db.items && db.items[Seat(slot.source, i)] == Item(slot.key, generation)
  }

  /** The step takes the event: it records a later event at its key, moves away
      from its key, or acknowledges its frozen item as complete. */
  ghost predicate Consumed(rules: PathRules, db: Db, step: Step, slot: Slot, generation: int) {
    match step
    case Enqueued(source, path, kind, oldPath, now) =>
      && EnqueueDb(rules, db, source, path, kind, oldPath, now).Ok?
      && (|| slot == SlotOf(rules, source, path)
          || Departed(rules, db.pending, SlotOf(rules, source, path), kind, OldPath(rules, oldPath)) == Some(slot))
    case Acknowledged(source, requestId, outcomes, now) =>
      && AckDb(db, source, requestId, outcomes, now).Ok?
      && slot.source == source
      && Completes(db, slot, generation, outcomes)
    case _ => false
  }

  ghost predicate EverConsumed(rules: PathRules, db: Db, steps: seq<Step>, slot: Slot, generation: int)
    decreases |steps|
  {
    steps != [] &&
    (Consumed(rules, db, steps[0], slot, generation) ||
     EverConsumed(rules, Next(rules, db, steps[0]), steps[1..], slot, generation))
  }

  lemma EnqueueTakes(rules: PathRules, db: Db, step: Step, slot: Slot)
    requires step.Enqueued?
    requires GenerationsOk(db.counter, db.pending, db.items, db.scope) && slot in db.pending
    ensures Consumed(rules, db, step, slot, db.pending[slot].generation) <==> !Carries(Next(rules, db, step), slot, db.pending[slot])
  {
  }

  /** A scan event never replaces a pending row. */
  lemma ScanTakesNothing(rules: PathRules, db: Db, step: Step, slot: Slot)
    requires step.Scanned? && slot in db.pending
    ensures Carries(Next(rules, db, step), slot, db.pending[slot])
  {
  }

  lemma AckTakes(rules: PathRules, db: Db, step: Step, slot: Slot)
    requires step.Acknowledged? && slot in db.pending
    ensures Consumed(rules, db, step, slot, db.pending[slot].generation) <==> !Carries(Next(rules, db, step), slot, db.pending[slot])
  {
    if slot.source == step.source {
      assert Completes(db, slot, db.pending[slot].generation, step.outcomes) <==> Decides(db, step.source, step.outcomes, slot, 2);
    }
  }

  /** One step, exactly. */
  lemma StepTakes(rules: PathRules, db: Db, step: Step, slot: Slot)
    requires Valid(rules, db) && slot in db.pending
    ensures Consumed(rules, db, step, slot, db.pending[slot].generation) <==> !Carries(Next(rules, db, step), slot, db.pending[slot])
  {
    match step
    case Enqueued(_, _, _, _, _) => EnqueueTakes(rules, db, step, slot);
    case Scanned(_, _, _) => ScanTakesNothing(rules, db, step, slot);
    case Acknowledged(_, _, _, _) => AckTakes(rules, db, step, slot);
    case _ => OtherTakesNothing(rules, db, step, slot);
  }

  lemma OtherTakesNothing(rules: PathRules, db: Db, step: Step, slot: Slot)
    requires !step.Enqueued? && !step.Scanned? && !step.Acknowledged? && slot in db.pending
    ensures Carries(Next(rules, db, step), slot, db.pending[slot])
  {
  }

  ghost predicate Gone(db: Db, slot: Slot, generation: int) {
    generation <= db.counter && (slot in db.pending ==> db.pending[slot].generation != generation)
  }

  lemma StepStaysGone(rules: PathRules, db: Db, step: Step, slot: Slot, generation: int)
    requires Gone(db, slot, generation)
    ensures Gone(Next(rules, db, step), slot, generation)
  {
    if !Records(rules, db, step) { NextKeeps(rules, db, step); }
  }

  lemma {:induction false} StaysGone(rules: PathRules, db: Db, steps: seq<Step>, slot: Slot, generation: int)
    requires Gone(db, slot, generation)
    ensures Gone(Run(rules, db, steps), slot, generation)
    decreases |steps|
  {
    if steps != [] {
      StepStaysGone(rules, db, steps[0], slot, generation);
      StaysGone(rules, Next(rules, db, steps[0]), steps[1..], slot, generation);
    }
  }

  /** Whole runs, exactly: the row is still there, the same event, if and only
      if no step of the run took it. */
  lemma {:induction false} RowSurvives(rules: PathRules, db: Db, steps: seq<Step>, slot: Slot, row: Row)
    requires Valid(rules, db) && Carries(db, slot, row)
    ensures Carries(Run(rules, db, steps), slot, row) <==> !EverConsumed(rules, db, steps, slot, row.generation)
    decreases |steps|
  {
    if steps != [] {
      var next := Next(rules, db, steps[0]);
      StepTakes(rules, db, steps[0], slot);
      NextValid(rules, db, steps[0]);
      if Carries(next, slot, row) {
        RowSurvives(rules, next, steps[1..], slot, row);
      } else {
        TakenIsGone(rules, db, steps[0], slot);
        StaysGone(rules, next, steps[1..], slot, row.generation);
      }
    }
  }

  lemma TakenIsGone(rules: PathRules, db: Db, step: Step, slot: Slot)
    requires Valid(rules, db) && slot in db.pending
    requires Consumed(rules, db, step, slot, db.pending[slot].generation)
    ensures Gone(Next(rules, db, step), slot, db.pending[slot].generation)
  {
    if step.Acknowledged? { AckTakes(rules, db, step, slot); }
  }

  /** An accepted event gets a generation nothing else carries, and from then on
      its row survives any run unless a step of the run takes it. */
  lemma NoEventLost(rules: PathRules, db: Db, event: Step, rest: seq<Step>)
    requires Valid(rules, db) && event.Enqueued?
    requires EnqueueDb(rules, db, event.source, event.path, event.kind, event.oldPath, event.now).Ok?
    ensures var generation := EnqueueDb(rules, db, event.source, event.path, event.kind, event.oldPath, event.now).value.1;
            var slot := SlotOf(rules, event.source, event.path);
            var next := Next(rules, db, event);
            && generation == db.counter + 1
            && slot in next.pending && next.pending[slot].generation == generation
            && next.pending[slot].path == NormalizePath(rules, event.path).value
            && next.pending[slot].changedAt == event.now
            && (Carries(Run(rules, next, rest), slot, next.pending[slot]) <==> !EverConsumed(rules, next, rest, slot, generation))
  {
    var next := Next(rules, db, event);
    NextValid(rules, db, event);
    var slot := SlotOf(rules, event.source, event.path);
    RowSurvives(rules, next, rest, slot, next.pending[slot]);
  }

  // --------------------------------------------------------- legal paths

  ghost predicate RowPathsLegal(row: Row) {
    LegalPath(row.path) && (row.oldPath.Some? ==> LegalPath(row.oldPath.value))
  }

  ghost predicate PathsLegal(db: Db) {
    && (forall slot :: slot in db.pending ==> RowPathsLegal(db.pending[slot]))
    && (forall slot :: slot in db.scope ==> db.scope[slot].path == "" || LegalPath(db.scope[slot].path))
  }

  lemma CapturePathsLegal(rules: PathRules, db: Db, slot: Slot, path: string, kind: Kind, oldPath: Option<string>, now: int)
    requires forall s :: s in db.pending ==> RowPathsLegal(db.pending[s])
    requires LegalPath(path) && (oldPath.Some? ==> LegalPath(oldPath.value))
    ensures var after := After(db, Capture(rules, db, slot, path, kind, oldPath, now)).pending;
            forall s :: s in after ==> RowPathsLegal(after[s])
  {
    assert RowPathsLegal(NewRow(rules, db, slot, path, kind, oldPath, now));
  }

  /** Steps that record nothing keep the paths of every row they keep. */
  lemma KeptPathsLegal(rules: PathRules, db: Db, step: Step)
    requires !Records(rules, db, step) && PathsLegal(db)
    ensures PathsLegal(Next(rules, db, step))
  {
    NextKeeps(rules, db, step);
    var after := Next(rules, db, step);
    forall slot | slot in after.pending
      ensures RowPathsLegal(after.pending[slot])
    {
      OtherOrScan(rules, db, step, slot);
      assert RowPathsLegal(db.pending[slot]);
    }
  }

  lemma OtherOrScan(rules: PathRules, db: Db, step: Step, slot: Slot)
    requires !Records(rules, db, step) && slot in db.pending && slot in Next(rules, db, step).pending
    ensures Next(rules, db, step).pending[slot].path == db.pending[slot].path
    ensures Next(rules, db, step).pending[slot].oldPath == db.pending[slot].oldPath
  {
    match step
    case Scanned(_, _, _) => ScanTakesNothing(rules, db, step, slot);
    case Acknowledged(_, _, _, _) =>
    case _ => OtherTakesNothing(rules, db, step, slot);
  }

  lemma NextPathsLegal(rules: PathRules, db: Db, step: Step)
    requires PathsLegal(db)
    ensures PathsLegal(Next(rules, db, step))
  {
    if !Records(rules, db, step) {
      KeptPathsLegal(rules, db, step);
    } else if !step.ScopeEnqueued? {
      var kind := if step.Scanned? then Create else step.kind;
      var oldPath := if step.Scanned? then "" else step.oldPath;
      if LegalRequest(rules, step.source, step.path, kind, oldPath) {
        CapturePathsLegal(rules, db, SlotOf(rules, step.source, step.path), NormalizePath(rules, step.path).value, kind,
                          OldPath(rules, oldPath), step.now);
      }
    }
  }

  /** No run ever stores a path that is absolute, drive-qualified or climbs. */
  lemma {:induction false} RunPathsLegal(rules: PathRules, db: Db, steps: seq<Step>)
    requires PathsLegal(db)
    ensures PathsLegal(Run(rules, db, steps))
    decreases |steps|
  {
    if steps != [] {
      NextPathsLegal(rules, db, steps[0]);
      RunPathsLegal(rules, Next(rules, db, steps[0]), steps[1..]);
    }
  }
}
