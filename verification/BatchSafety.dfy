/** Batches: what is selected freezes, what is frozen stays as it is, and an
    acknowledgement settles exactly the frozen events that are still current. */
module BatchSafety {
  import opened Wrappers
  import opened Text
  import opened QueueModel
  import opened QueueInvariant
  import opened QueueRuns
  import opened Selection

  lemma SelectionFacts(db: Db, source: string, now: int, limit: int, dirty: bool, entries: seq<Entry>)
    requires IsSelection(db, source, now, limit, dirty, entries)
    ensures entries != [] ==> source !in db.outbox
    ensures !BadIdentity(db, source, entries) && !AnyStale(db, entries)
  {
    assert entries != [] ==> Selects(db, source, now, dirty, entries[0]);
    forall i | 0 <= i < |entries|
      ensures entries[i].source == source && !Stale(db, entries[i])
    {
      assert Selects(db, source, now, dirty, entries[i]);
    }
    forall i, j | 0 <= i < j < |entries|
      ensures entries[i].key != entries[j].key
    {
      assert Selects(db, source, now, dirty, entries[i]) && Selects(db, source, now, dirty, entries[j]);
      PrecedesIsStrict(dirty, entries[i], entries[j], entries[i]);
    }
  }

  /** A non-empty Due or Dirty answer with a legal payload always freezes, as
      items 0..n-1 under a fresh box, and touches nothing else. */
  lemma SelectionFreezes(rules: PathRules, db: Db, source: string, now: int, limit: int, dirty: bool, entries: seq<Entry>,
                         epoch: int, sequence: int, requestId: string, payload: string)
    requires Valid(rules, db) && limit <= MAX_BATCH && IsSelection(db, source, now, limit, dirty, entries)
    requires entries != [] && Utf8Length(payload) <= MAX_PAYLOAD
    ensures FreezeDb(db, source, epoch, sequence, requestId, payload, entries) ==
            Ok((db.(outbox := db.outbox[source := Box(epoch, sequence, requestId, payload, 0, 0, false)],
                    items := db.items + Seats(source, entries)), true))
  {
    SelectionFacts(db, source, now, limit, dirty, entries);
    assert forall i :: Seat(source, i) in db.items ==> source in db.outbox;
  }

  /** The batch of a source, as stored. */
  ghost predicate Holds(db: Db, source: string, entries: seq<Entry>, box: Box) {
    && source in db.outbox
    && db.outbox[source].(attempts := 0, nextAttemptAt := 0, held := false) == box.(attempts := 0, nextAttemptAt := 0, held := false)
    && BatchOf(db.items, source, |entries|)
    && forall i :: 0 <= i < |entries| ==> db.items[Seat(source, i)] == Item(entries[i].key, entries[i].generation)
  }

  predicate Clears(step: Step, source: string) {
    (step.Acknowledged? || step.Reset?) && step.source == source
  }

  lemma FreezeElsewhere(db: Db, step: Step, source: string, entries: seq<Entry>, box: Box)
    requires step.Frozen? && Holds(db, source, entries, box)
    ensures Holds(After(db, FreezeDb(db, step.source, step.epoch, step.sequence, step.requestId, step.payload, step.entries)), source, entries, box)
  {
  }

  lemma AckElsewhere(db: Db, step: Step, source: string, entries: seq<Entry>, box: Box)
    requires step.Acknowledged? && step.source != source && Holds(db, source, entries, box)
    ensures Holds(After(db, AckDb(db, step.source, step.requestId, step.outcomes, step.now)), source, entries, box)
  {
  }

  lemma OthersHold(rules: PathRules, db: Db, step: Step, source: string, entries: seq<Entry>, box: Box)
    requires !step.Frozen? && !step.Acknowledged? && !Clears(step, source) && Holds(db, source, entries, box)
    ensures Holds(Next(rules, db, step), source, entries, box)
  {
  }

  lemma StepHolds(rules: PathRules, db: Db, step: Step, source: string, entries: seq<Entry>, box: Box)
    requires BatchesOk(db.outbox, db.items) && Holds(db, source, entries, box) && !Clears(step, source)
    ensures Holds(Next(rules, db, step), source, entries, box)
  {
    match step
    case Frozen(_, _, _, _, _, _) => FreezeElsewhere(db, step, source, entries, box);
    case Acknowledged(_, _, _, _) => AckElsewhere(db, step, source, entries, box);
    case _ => OthersHold(rules, db, step, source, entries, box);
  }

  /** Until it is acknowledged or the epoch is reset, a frozen batch keeps its
      request identity, its payload and its items whatever else happens. */
  lemma {:induction false} FrozenBatchImmutable(rules: PathRules, db: Db, steps: seq<Step>, source: string, entries: seq<Entry>, box: Box)
    requires Valid(rules, db) && Holds(db, source, entries, box)
    requires forall i :: 0 <= i < |steps| ==> !Clears(steps[i], source)
    ensures Holds(Run(rules, db, steps), source, entries, box)
    decreases |steps|
  {
    if steps != [] {
      NextValid(rules, db, steps[0]);
      StepHolds(rules, db, steps[0], source, entries, box);
      FrozenBatchImmutable(rules, Next(rules, db, steps[0]), steps[1..], source, entries, box);
    }
  }

  predicate LegalOutcomes(outcomes: seq<int>, now: int) {
    forall i :: 0 <= i < |outcomes| ==> 0 <= outcomes[i] <= 3 && (outcomes[i] == 1 ==> InLong(now + RECHECK_MS))
  }

  lemma {:induction false} LegalMeansNoFault(outcomes: seq<int>, now: int, i: nat)
    requires i <= |outcomes|
    ensures AckFault(outcomes, now, i).None? <==> LegalOutcomes(outcomes[i..], now)
    decreases |outcomes| - i
  {
    if i < |outcomes| {
      LegalMeansNoFault(outcomes, now, i + 1);
      assert outcomes[i..] == [outcomes[i]] + outcomes[i + 1..];
    }
  }

  /** What outcome i must do to the row of a frozen event that is still current. */
  ghost predicate SettledAs(before: Row, pending: map<Slot, Row>, slot: Slot, outcome: int, now: int) {
    match outcome
    case 0 => slot in pending && pending[slot] == before.(dirtySent := true)
    case 1 => slot in pending && pending[slot] == before.(dirtySent := true, stableCount := 1, dueAt := now + RECHECK_MS)
    case 2 => slot !in pending
    case _ => slot in pending && pending[slot] == before.(held := true)
  }

  ghost predicate Current(db: Db, source: string, entries: seq<Entry>, i: int)
    requires 0 <= i < |entries|
  {
    var slot := Slot(source, entries[i].key);
    slot in db.pending && db.pending[slot].generation == entries[i].generation
  }

  lemma BatchSizeIs(items: map<Seat, Item>, source: string, n: int)
    requires SomeBatch(items, source) && 0 <= n && BatchOf(items, source, n)
    ensures BatchSize(items, source) == n
  {
    var m := BatchSize(items, source);
    assert m < n ==> Seat(source, m) in items;
    assert n < m ==> Seat(source, n) in items;
  }

  /** The source's batch is gone, each frozen event that is still current got
      exactly its outcome, and every other row and batch is as it was. */
  ghost predicate Settles(db: Db, source: string, entries: seq<Entry>, outcomes: seq<int>, now: int, after: Db)
    requires |outcomes| == |entries|
  {
    && after.outbox == db.outbox - {source} && after.scope == db.scope && after.counter == db.counter
    && (forall seat :: seat in after.items <==> seat in db.items && seat.source != source)
    && (forall seat :: seat in after.items ==> after.items[seat] == db.items[seat])
    && after.pending.Keys <= db.pending.Keys
    && (forall i :: 0 <= i < |entries| && Current(db, source, entries, i) ==>
          var slot := Slot(source, entries[i].key);
          SettledAs(db.pending[slot], after.pending, slot, outcomes[i], now))
    && (forall slot :: slot in db.pending && !Touches(db, source, entries, slot) ==>
          slot in after.pending && after.pending[slot] == db.pending[slot])
  }

  ghost predicate Touches(db: Db, source: string, entries: seq<Entry>, slot: Slot) {
    exists i :: 0 <= i < |entries| && Current(db, source, entries, i) && slot == Slot(source, entries[i].key)
  }

  lemma AckAccepts(db: Db, source: string, entries: seq<Entry>, box: Box, outcomes: seq<int>, now: int)
    requires BatchesOk(db.outbox, db.items) && Holds(db, source, entries, box)
    ensures AckDb(db, source, box.requestId, outcomes, now).Ok? <==> |outcomes| == |entries| && LegalOutcomes(outcomes, now)
  {
    assert SomeBatch(db.items, source);
    BatchSizeIs(db.items, source, |entries|);
    LegalMeansNoFault(outcomes, now, 0);
    assert outcomes[0..] == outcomes;
  }

  lemma AckPending(db: Db, source: string, entries: seq<Entry>, box: Box, outcomes: seq<int>, now: int, i: int)
    requires BatchesOk(db.outbox, db.items) && Holds(db, source, entries, box) && |outcomes| == |entries|
    requires AckDb(db, source, box.requestId, outcomes, now).Ok? && LegalOutcomes(outcomes, now)
    requires 0 <= i < |entries| && Current(db, source, entries, i)
    ensures var slot := Slot(source, entries[i].key);
            SettledAs(db.pending[slot], AckDb(db, source, box.requestId, outcomes, now).value.0.pending, slot, outcomes[i], now)
  {
    ItemDecides(db, source, entries, box, outcomes, i);
    assert 0 <= outcomes[i] <= 3;
  }

  lemma DecidedIsTouched(db: Db, source: string, entries: seq<Entry>, box: Box, outcomes: seq<int>, slot: Slot, o: int)
    requires Holds(db, source, entries, box) && |outcomes| == |entries|
    requires Decides(db, source, outcomes, slot, o)
    ensures Touches(db, source, entries, slot)
  {
    var i :| 0 <= i < |outcomes| && outcomes[i] == o && Matches(db, slot, i);
    assert Current(db, source, entries, i);
  }

  /** An acknowledgement with the batch's request id succeeds exactly when it
      brings one legal outcome per item, and then settles the batch. */
  lemma AckSettlesFrozen(db: Db, source: string, entries: seq<Entry>, box: Box, outcomes: seq<int>, now: int)
    requires BatchesOk(db.outbox, db.items) && Holds(db, source, entries, box)
    ensures var effect := AckDb(db, source, box.requestId, outcomes, now);
            && (effect.Ok? <==> |outcomes| == |entries| && LegalOutcomes(outcomes, now))
            && (effect.Ok? ==> Settles(db, source, entries, outcomes, now, effect.value.0))
  {
    AckAccepts(db, source, entries, box, outcomes, now);
    if |outcomes| == |entries| && LegalOutcomes(outcomes, now) {
      forall i | 0 <= i < |entries| && Current(db, source, entries, i)
        ensures var slot := Slot(source, entries[i].key);
                SettledAs(db.pending[slot], AckDb(db, source, box.requestId, outcomes, now).value.0.pending, slot, outcomes[i], now)
      {
        AckPending(db, source, entries, box, outcomes, now, i);
      }
      forall slot, o | Decides(db, source, outcomes, slot, o)
        ensures Touches(db, source, entries, slot)
      {
        DecidedIsTouched(db, source, entries, box, outcomes, slot, o);
      }
    }
  }

  lemma ItemDecides(db: Db, source: string, entries: seq<Entry>, box: Box, outcomes: seq<int>, i: int)
    requires BatchesOk(db.outbox, db.items) && Holds(db, source, entries, box) && |outcomes| == |entries|
    requires 0 <= i < |entries| && Current(db, source, entries, i)
    ensures forall o :: Decides(db, source, outcomes, Slot(source, entries[i].key), o) <==> o == outcomes[i]
  {
    var slot := Slot(source, entries[i].key);
    assert Matches(db, slot, i);
    forall k | 0 <= k < |outcomes| && Matches(db, slot, k)
      ensures k == i
    {
      OneItemPerKey(db, slot, i, k);
    }
  }

  lemma FreshBatchHolds(db: Db, source: string, entries: seq<Entry>, box: Box)
    requires forall seat :: seat in db.items ==> seat.source != source
    ensures Holds(db.(outbox := db.outbox[source := box], items := db.items + Seats(source, entries)), source, entries, box)
  {
  }

  lemma FreezeHolds(rules: PathRules, db: Db, source: string, now: int, limit: int, dirty: bool, entries: seq<Entry>, box: Box)
    requires Valid(rules, db) && limit <= MAX_BATCH && IsSelection(db, source, now, limit, dirty, entries)
    requires entries != [] && Utf8Length(box.payload) <= MAX_PAYLOAD
    ensures var frozen := After(db, FreezeDb(db, source, box.epoch, box.sequence, box.requestId, box.payload, entries));
            Valid(rules, frozen) && frozen.pending == db.pending && Holds(frozen, source, entries, box)
  {
    SelectionFreezes(rules, db, source, now, limit, dirty, entries, box.epoch, box.sequence, box.requestId, box.payload);
    SelectionFacts(db, source, now, limit, dirty, entries);
    FreshBatchHolds(db, source, entries, Box(box.epoch, box.sequence, box.requestId, box.payload, 0, 0, false));
    FreezeValid(rules, db, source, box.epoch, box.sequence, box.requestId, box.payload, entries);
  }

  ghost predicate AcksExactly(db: Db, source: string, entries: seq<Entry>, requestId: string, outcomes: seq<int>, now: int) {
    var effect := AckDb(db, source, requestId, outcomes, now);
    && (effect.Ok? <==> |outcomes| == |entries| && LegalOutcomes(outcomes, now))
    && (effect.Ok? ==> Settles(db, source, entries, outcomes, now, effect.value.0))
  }

  lemma AfterFreeze(rules: PathRules, frozen: Db, source: string, entries: seq<Entry>, box: Box, steps: seq<Step>)
    requires Valid(rules, frozen) && Holds(frozen, source, entries, box)
    requires forall i :: 0 <= i < |steps| ==> !Clears(steps[i], source)
    ensures forall outcomes, now :: AcksExactly(Run(rules, frozen, steps), source, entries, box.requestId, outcomes, now)
  {
    FrozenBatchImmutable(rules, frozen, steps, source, entries, box);
    RunValid(rules, frozen, steps);
    forall outcomes, now
      ensures AcksExactly(Run(rules, frozen, steps), source, entries, box.requestId, outcomes, now)
    {
      AckSettlesFrozen(Run(rules, frozen, steps), source, entries, box, outcomes, now);
    }
  }

  /** The whole round: what Due or Dirty returned is frozen, anything runs that
      does not clear the batch, and any acknowledgement then settles exactly
      those entries that no newer event has replaced in the meantime. */
  lemma SelectFreezeAcknowledge(rules: PathRules, db: Db, source: string, now: int, limit: int, dirty: bool, entries: seq<Entry>,
                                box: Box, steps: seq<Step>)
    requires Valid(rules, db) && limit <= MAX_BATCH && IsSelection(db, source, now, limit, dirty, entries)
    requires entries != [] && Utf8Length(box.payload) <= MAX_PAYLOAD
    requires forall i :: 0 <= i < |steps| ==> !Clears(steps[i], source)
    ensures var frozen := After(db, FreezeDb(db, source, box.epoch, box.sequence, box.requestId, box.payload, entries));
            && frozen.pending == db.pending
            && forall outcomes, later :: AcksExactly(Run(rules, frozen, steps), source, entries, box.requestId, outcomes, later)
  {
    FreezeHolds(rules, db, source, now, limit, dirty, entries, box);
    AfterFreeze(rules, After(db, FreezeDb(db, source, box.epoch, box.sequence, box.requestId, box.payload, entries)),
                source, entries, box, steps);
  }
}
