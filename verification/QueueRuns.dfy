/** Runs of the queue: any interleaving of the operations of any callers, each
    one an atomic step because every method holds the lock throughout. */
module QueueRuns {
  import opened Wrappers
  import opened Text
  import opened QueueModel
  import opened QueueInvariant

  datatype Step =
    | Enqueued(source: string, path: string, kind: Kind, oldPath: string, now: Long)
    | Scanned(source: string, path: string, now: Long)
    | Delayed(entry: Entry, now: Long, milliseconds: Long, stableCount: int)
    | Remembered(entry: Entry, fingerprint: string)
    | Reset(source: string, now: Long)
    | Frozen(source: string, epoch: Long, sequence: Long, requestId: string, payload: string, entries: seq<Entry>)
    | Acknowledged(source: string, requestId: string, outcomes: seq<int>, now: Long)
    | Retried(source: string, requestId: string, now: Long, permanent: bool)
    | ScopeEnqueued(source: string, path: string, oldPath: string, scopeKind: string)
    | ScopeCompleted(source: string, path: string, generation: int)

  function After<T>(db: Db, effect: Effect<T>): Db {
    if effect.Ok? then effect.value.0 else db
  }

  /** The tables after a step, thrown or not. */
  ghost function Next(rules: PathRules, db: Db, step: Step): Db {
    match step
    case Enqueued(source, path, kind, oldPath, now) => After(db, EnqueueDb(rules, db, source, path, kind, oldPath, now))
    case Scanned(source, path, now) => After(db, ScanDb(rules, db, source, path, now))
    case Delayed(entry, now, milliseconds, stableCount) => After(db, DelayDb(db, entry, now, milliseconds, stableCount))
    case Remembered(entry, fingerprint) => After(db, RememberDb(db, entry, fingerprint))
    case Reset(source, now) => ResetDb(db, source, now)
    case Frozen(source, epoch, sequence, requestId, payload, entries) =>
      After(db, FreezeDb(db, source, epoch, sequence, requestId, payload, entries))
    case Acknowledged(source, requestId, outcomes, now) => After(db, AckDb(db, source, requestId, outcomes, now))
    case Retried(source, requestId, now, permanent) => After(db, RetryDb(db, source, requestId, now, permanent))
    case ScopeEnqueued(source, path, oldPath, kind) => After(db, EnqueueScopeDb(rules, db, source, path, oldPath, kind))
    case ScopeCompleted(source, path, generation) => CompleteScopeDb(rules, db, source, path, generation)
  }

  lemma NextValid(rules: PathRules, db: Db, step: Step)
    requires Valid(rules, db)
    ensures Valid(rules, Next(rules, db, step))
  {
    match step
    case Enqueued(source, path, kind, oldPath, now) => EnqueueValid(rules, db, source, path, kind, oldPath, now);
    case Scanned(source, path, now) => ScanValid(rules, db, source, path, now);
    case Delayed(entry, now, milliseconds, stableCount) => DelayValid(rules, db, entry, now, milliseconds, stableCount);
    case Remembered(entry, fingerprint) => RememberValid(rules, db, entry, fingerprint);
    case Reset(source, now) => ResetValid(rules, db, source, now);
    case Frozen(source, epoch, sequence, requestId, payload, entries) =>
      FreezeValid(rules, db, source, epoch, sequence, requestId, payload, entries);
    case Acknowledged(source, requestId, outcomes, now) => AckValid(rules, db, source, requestId, outcomes, now);
    case Retried(source, requestId, now, permanent) => RetryValid(rules, db, source, requestId, now, permanent);
    case ScopeEnqueued(source, path, oldPath, kind) => EnqueueScopeValid(rules, db, source, path, oldPath, kind);
    case ScopeCompleted(source, path, generation) => CompleteScopeValid(rules, db, source, path, generation);
  }

  ghost function Run(rules: PathRules, db: Db, steps: seq<Step>): (after: Db)
    decreases |steps|
  {
    if steps == [] then db else Run(rules, Next(rules, db, steps[0]), steps[1..])
  }

  /** Everything reachable from valid tables, in particular from an empty
      database, is valid. */
  lemma {:induction false} RunValid(rules: PathRules, db: Db, steps: seq<Step>)
    requires Valid(rules, db)
    ensures Valid(rules, Run(rules, db, steps))
    decreases |steps|
  {
    if steps != [] {
      NextValid(rules, db, steps[0]);
      RunValid(rules, Next(rules, db, steps[0]), steps[1..]);
    }
  }

  // ------------------------------------------------- distinct generations

  ghost predicate KeepsEvents(before: Db, after: Db) {
    && SameEvents(before.pending, after.pending)
    && forall s :: s in after.scope ==> s in before.scope && after.scope[s] == before.scope[s]
  }

  lemma KeptDistinct(before: Db, after: Db)
    requires DistinctOk(before.pending, before.scope) && KeepsEvents(before, after)
    ensures DistinctOk(after.pending, after.scope)
  {
  }

  lemma FreshDistinct(pending: map<Slot, Row>, scope: map<Slot, Scope>, counter: int, slot: Slot, row: Row)
    requires DistinctOk(pending, scope) && row.generation == counter + 1
    requires forall s :: s in pending ==> pending[s].generation <= counter
    requires forall s :: s in scope ==> scope[s].generation <= counter
    ensures DistinctOk(pending[slot := row], scope)
  {
  }

  lemma CaptureDistinct(rules: PathRules, db: Db, slot: Slot, path: string, kind: Kind, oldPath: Option<string>, now: int)
    requires GenerationsOk(db.counter, db.pending, db.items, db.scope) && DistinctOk(db.pending, db.scope)
    ensures var after := After(db, Capture(rules, db, slot, path, kind, oldPath, now));
            DistinctOk(after.pending, after.scope)
  {
    var left := Depart(db.pending, slot, Departed(rules, db.pending, slot, kind, oldPath));
    assert SameEvents(db.pending, left);
    KeptDistinct(db, db.(pending := left));
    FreshDistinct(left, db.scope, db.counter, slot, NewRow(rules, db, slot, path, kind, oldPath, now));
  }

  lemma ScopeDistinct(db: Db, slot: Slot, scope: Scope)
    requires GenerationsOk(db.counter, db.pending, db.items, db.scope) && DistinctOk(db.pending, db.scope)
    requires scope.generation == db.counter + 1
    ensures DistinctOk(db.pending, db.scope[slot := scope])
  {
  }

  /** The steps that record something new. */
  ghost predicate Records(rules: PathRules, db: Db, step: Step) {
    match step
    case Enqueued(_, _, _, _, _) => true
    case ScopeEnqueued(_, _, _, _) => true
    case Scanned(source, path, _) => LegalRequest(rules, source, path, Create, "") && SlotOf(rules, source, path) !in db.pending
    case _ => false
  }

  lemma ScanKeeps(rules: PathRules, db: Db, source: string, path: string, now: int)
    requires LegalRequest(rules, source, path, Create, "") ==> SlotOf(rules, source, path) in db.pending
    ensures KeepsEvents(db, After(db, ScanDb(rules, db, source, path, now)))
  {
  }

  lemma AckKeeps(db: Db, source: string, requestId: string, outcomes: seq<int>, now: int)
    ensures KeepsEvents(db, After(db, AckDb(db, source, requestId, outcomes, now)))
  {
  }

  lemma NextKeeps(rules: PathRules, db: Db, step: Step)
    requires !Records(rules, db, step)
    ensures KeepsEvents(db, Next(rules, db, step))
  {
    match step
    case Scanned(source, path, now) => ScanKeeps(rules, db, source, path, now);
    case Acknowledged(source, requestId, outcomes, now) => AckKeeps(db, source, requestId, outcomes, now);
    case _ =>
  }

  lemma NextDistinct(rules: PathRules, db: Db, step: Step)
    requires GenerationsOk(db.counter, db.pending, db.items, db.scope) && DistinctOk(db.pending, db.scope)
    ensures var after := Next(rules, db, step); DistinctOk(after.pending, after.scope)
  {
    if !Records(rules, db, step) {
      NextKeeps(rules, db, step);
      KeptDistinct(db, Next(rules, db, step));
    } else if step.ScopeEnqueued? {
      var after := Next(rules, db, step);
      if after != db {
        var slot := Slot(step.source, rules.fold(ScopePath(rules, step.path, step.scopeKind).value));
        ScopeDistinct(db, slot, after.scope[slot]);
      }
    } else {
      var kind := if step.Scanned? then Create else step.kind;
      var oldPath := if step.Scanned? then "" else step.oldPath;
      if LegalRequest(rules, step.source, step.path, kind, oldPath) {
        CaptureDistinct(rules, db, SlotOf(rules, step.source, step.path), NormalizePath(rules, step.path).value, kind,
                        OldPath(rules, oldPath), step.now);
      }
    }
  }

  /** Live generations of pending and scope rows never coincide. */
  lemma {:induction false} RunDistinct(rules: PathRules, db: Db, steps: seq<Step>)
    requires Valid(rules, db) && DistinctOk(db.pending, db.scope)
    ensures var after := Run(rules, db, steps); DistinctOk(after.pending, after.scope)
    decreases |steps|
  {
    if steps != [] {
      NextValid(rules, db, steps[0]);
      NextDistinct(rules, db, steps[0]);
      RunDistinct(rules, Next(rules, db, steps[0]), steps[1..]);
    }
  }
}
