/** Retries of a frozen batch: every accepted one is counted, and dates the next
    attempt by the count so far. */
module RetrySchedule {
  import opened Text
  import opened QueueModel
  import opened QueueRuns
  import opened BatchSafety

  ghost predicate Accepted(db: Db, step: Step, source: string) {
    step.Retried? && step.source == source && RetryDb(db, source, step.requestId, step.now, step.permanent).Ok?
  }

  ghost function Retries(rules: PathRules, db: Db, steps: seq<Step>, source: string): nat
    decreases |steps|
  {
    if steps == [] then 0
    else (if Accepted(db, steps[0], source) then 1 else 0) + Retries(rules, Next(rules, db, steps[0]), steps[1..], source)
  }

  /** Twice as long after each attempt, from five seconds to five minutes. */
  lemma BackoffShape(attempts: nat)
    ensures Backoff(0) == 5000
    ensures Backoff(attempts + 1) == if attempts < 5 then 2 * Backoff(attempts) else 300000
    ensures 5000 <= Backoff(attempts) <= Backoff(attempts + 1) <= 300000
  {
    var few: nat := if attempts < 6 then attempts else 6;
    assert Pow2(0) == 1 && Pow2(1) == 2 && Pow2(2) == 4 && Pow2(3) == 8;
    assert Pow2(4) == 16 && Pow2(5) == 32 && Pow2(6) == 64;
    assert few in {0, 1, 2, 3, 4, 5, 6};
  }

  /** The batch's box after one more accepted retry. */
  function Retried(box: Box, now: int, permanent: bool): Box {
    box.(attempts := box.attempts + 1, nextAttemptAt := now + Backoff(box.attempts), held := permanent)
  }

  ghost predicate BoxKept(before: Db, after: Db, source: string) {
    source in before.outbox && source in after.outbox && after.outbox[source] == before.outbox[source]
  }

  lemma AckKeepsBox(db: Db, step: Step, source: string)
    requires source in db.outbox && step.Acknowledged? && step.source != source
    ensures BoxKept(db, After(db, AckDb(db, step.source, step.requestId, step.outcomes, step.now)), source)
  {
  }

  lemma FreezeKeepsBox(db: Db, step: Step, source: string)
    requires source in db.outbox && step.Frozen?
    ensures BoxKept(db, After(db, FreezeDb(db, step.source, step.epoch, step.sequence, step.requestId, step.payload, step.entries)), source)
  {
  }

  lemma StepCounts(rules: PathRules, db: Db, step: Step, source: string)
    requires source in db.outbox && !Clears(step, source)
    ensures source in Next(rules, db, step).outbox
    ensures Accepted(db, step, source) ==> Next(rules, db, step).outbox[source] == Retried(db.outbox[source], step.now, step.permanent)
    ensures !Accepted(db, step, source) ==> Next(rules, db, step).outbox[source] == db.outbox[source]
  {
    match step
    case Acknowledged(_, _, _, _) => AckKeepsBox(db, step, source);
    case Frozen(_, _, _, _, _, _) => FreezeKeepsBox(db, step, source);
    case _ =>
  }

  /** Until the batch is cleared, its counter is exactly the accepted retries. */
  lemma {:induction false} RetriesCounted(rules: PathRules, db: Db, steps: seq<Step>, source: string)
    requires source in db.outbox && forall i :: 0 <= i < |steps| ==> !Clears(steps[i], source)
    ensures var after := Run(rules, db, steps);
            && source in after.outbox
            && after.outbox[source].attempts == db.outbox[source].attempts + Retries(rules, db, steps, source)
            && (Retries(rules, db, steps, source) == 0 ==> after.outbox[source] == db.outbox[source])
    decreases |steps|
  {
    if steps != [] {
      StepCounts(rules, db, steps[0], source);
      RetriesCounted(rules, Next(rules, db, steps[0]), steps[1..], source);
    }
  }
}
