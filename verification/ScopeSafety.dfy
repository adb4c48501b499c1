/** No rescan request is lost: a scope row leaves the table only when a later
    request replaces it or its own generation is reported complete. */
module ScopeSafety {
  import opened Text
  import opened QueueModel
  import opened QueueRuns

  /** The step replaces this request, or completes exactly this generation. */
  ghost predicate Takes(rules: PathRules, db: Db, step: Step, slot: Slot, generation: int) {
    match step
    case ScopeEnqueued(source, path, oldPath, kind) =>
      && EnqueueScopeDb(rules, db, source, path, oldPath, kind).Ok?
      && slot == Slot(source, rules.fold(ScopePath(rules, path, kind).value))
    case ScopeCompleted(source, path, completed) =>
      slot == Slot(source, rules.fold(path)) && completed == generation
    case _ => false
  }

  ghost predicate EverTaken(rules: PathRules, db: Db, steps: seq<Step>, slot: Slot, generation: int)
    decreases |steps|
  {
    steps != [] &&
    (Takes(rules, db, steps[0], slot, generation) || EverTaken(rules, Next(rules, db, steps[0]), steps[1..], slot, generation))
  }

  ghost predicate Stands(db: Db, slot: Slot, scope: Scope) { slot in db.scope && db.scope[slot] == scope }

  ghost predicate Past(db: Db, slot: Slot, generation: int) {
    generation <= db.counter && (slot in db.scope ==> db.scope[slot].generation != generation)
  }

  lemma StepTakesScope(rules: PathRules, db: Db, step: Step, slot: Slot, scope: Scope)
    requires Stands(db, slot, scope) && scope.generation <= db.counter
    ensures Takes(rules, db, step, slot, scope.generation) <==> !Stands(Next(rules, db, step), slot, scope)
    ensures Takes(rules, db, step, slot, scope.generation) ==> Past(Next(rules, db, step), slot, scope.generation)
    ensures db.counter <= Next(rules, db, step).counter
  {
  }

  lemma StaysPast(rules: PathRules, db: Db, step: Step, slot: Slot, generation: int)
    requires Past(db, slot, generation)
    ensures Past(Next(rules, db, step), slot, generation)
  {
  }

  lemma {:induction false} RunStaysPast(rules: PathRules, db: Db, steps: seq<Step>, slot: Slot, generation: int)
    requires Past(db, slot, generation)
    ensures Past(Run(rules, db, steps), slot, generation)
    decreases |steps|
  {
    if steps != [] {
      StaysPast(rules, db, steps[0], slot, generation);
      RunStaysPast(rules, Next(rules, db, steps[0]), steps[1..], slot, generation);
    }
  }

  /** Whole runs, exactly: reporting an older scan complete never drops a newer
      request, and nothing else drops one at all. */
  lemma {:induction false} ScopeSurvives(rules: PathRules, db: Db, steps: seq<Step>, slot: Slot, scope: Scope)
    requires Stands(db, slot, scope) && scope.generation <= db.counter
    ensures Stands(Run(rules, db, steps), slot, scope) <==> !EverTaken(rules, db, steps, slot, scope.generation)
    decreases |steps|
  {
    if steps != [] {
      var next := Next(rules, db, steps[0]);
      StepTakesScope(rules, db, steps[0], slot, scope);
      if Takes(rules, db, steps[0], slot, scope.generation) {
        RunStaysPast(rules, next, steps[1..], slot, scope.generation);
      } else {
        ScopeSurvives(rules, next, steps[1..], slot, scope);
      }
    }
  }
}
