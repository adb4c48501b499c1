/** The 120 second quiet period: under the sender's discipline no modified file
    is ever due before it has been quiet that long. */
module QuietPeriod {
  import opened Wrappers
  import opened Text
  import opened QueueModel
  import opened QueueInvariant
  import opened QueueRuns
  import opened EventSafety

  /** Deletions and first registrations do not wait. */
  predicate Exempt(row: Row) { row.kind == Delete || row.initial }

  ghost predicate QuietRow(row: Row) { Exempt(row) || row.changedAt + QUIET_MS <= row.dueAt }

  ghost predicate Quiet(db: Db) {
    forall slot :: slot in db.pending ==> QuietRow(db.pending[slot])
  }

  /** A run as the sender drives it: steps, and answers it got from Due. */
  datatype Event =
    | Did(step: Step)
    | SawDue(source: string, now: Long, limit: int, entries: seq<Entry>)

  ghost function Time(event: Event, clock: int): int {
    match event
    case SawDue(_, now, _, _) => now
    case Did(step) =>
      match step
      case Enqueued(_, _, _, _, now) => now
      case Scanned(_, _, now) => now
      case Delayed(_, now, _, _) => now
      case Reset(_, now) => now
      case Acknowledged(_, _, _, now) => now
      case Retried(_, _, now, _) => now
      case _ => clock
  }

  ghost predicate FromDue(seen: set<Entry>, source: string, item: Item) {
    exists e :: e in seen && e.source == source && e.key == item.key && e.generation == item.generation
  }

  /** Clocks never run backwards, delays are not negative, and Delay and outcome
      1 are only used on entries that Due has returned. */
  ghost predicate Disciplined(db: Db, event: Event, clock: int, seen: set<Entry>) {
    && clock <= Time(event, clock)
    && match event
       case SawDue(source, now, limit, entries) => IsSelection(db, source, now, limit, false, entries)
       case Did(step) =>
         && (step.Delayed? ==> step.milliseconds >= 0 && step.entry in seen)
         && (step.Acknowledged? ==>
               forall i :: 0 <= i < |step.outcomes| && step.outcomes[i] == 1 && Seat(step.source, i) in db.items ==>
                 FromDue(seen, step.source, db.items[Seat(step.source, i)]))
  }

  ghost function Then(rules: PathRules, db: Db, event: Event): Db {
    match event case SawDue(_, _, _, _) => db case Did(step) => Next(rules, db, step)
  }

  ghost function Seen(event: Event, seen: set<Entry>): set<Entry> {
    match event case SawDue(_, _, _, entries) => seen + (set e | e in entries) case Did(_) => seen
  }

  ghost predicate DisciplinedRun(rules: PathRules, db: Db, events: seq<Event>, clock: int, seen: set<Entry>)
    decreases |events|
  {
    events == [] ||
    (Disciplined(db, events[0], clock, seen) &&
     DisciplinedRun(rules, Then(rules, db, events[0]), events[1..], Time(events[0], clock), Seen(events[0], seen)))
  }

  ghost function Outcome(rules: PathRules, db: Db, events: seq<Event>): Db
    decreases |events|
  {
    if events == [] then db else Outcome(rules, Then(rules, db, events[0]), events[1..])
  }

  /** Events that were once due and are still pending have been quiet. */
  ghost predicate SeenQuiet(db: Db, clock: int, seen: set<Entry>) {
    forall e :: e in seen ==>
      && e.generation <= db.counter
      && (Names(db, e) ==>
            var row := db.pending[Slot(e.source, e.key)];
            Exempt(row) || row.changedAt + QUIET_MS <= clock)
  }

  lemma StepSeenQuiet(rules: PathRules, db: Db, step: Step, clock: int, later: int, seen: set<Entry>)
    requires Valid(rules, db) && SeenQuiet(db, clock, seen) && clock <= later
    ensures SeenQuiet(Next(rules, db, step), later, seen)
  {
    var after := Next(rules, db, step);
    forall e | e in seen
      ensures e.generation <= after.counter
      ensures Names(after, e) ==>
                var row := after.pending[Slot(e.source, e.key)];
                Exempt(row) || row.changedAt + QUIET_MS <= later
    {
      OneSeenQuiet(rules, db, step, clock, e);
    }
  }

  lemma OneSeenQuiet(rules: PathRules, db: Db, step: Step, clock: int, e: Entry)
    requires Valid(rules, db) && SeenQuiet(db, clock, {e})
    ensures SeenQuiet(Next(rules, db, step), clock, {e})
  {
    var slot := Slot(e.source, e.key);
    assert e in {e};
    if Gone(db, slot, e.generation) {
      StepStaysGone(rules, db, step, slot, e.generation);
    } else {
      StepTakes(rules, db, step, slot);
      if Consumed(rules, db, step, slot, e.generation) {
        TakenIsGone(rules, db, step, slot);
      } else {
        CounterGrows(rules, db, step);
      }
    }
  }

  lemma CounterGrows(rules: PathRules, db: Db, step: Step)
    ensures db.counter <= Next(rules, db, step).counter
  {
  }

  lemma SawSeenQuiet(rules: PathRules, db: Db, source: string, now: Long, limit: int, entries: seq<Entry>)
    requires Valid(rules, db) && Quiet(db) && IsSelection(db, source, now, limit, false, entries)
    ensures SeenQuiet(db, now, set e | e in entries)
  {
    forall e | e in entries
      ensures Selects(db, source, now, false, e)
    {
    }
  }

  lemma EnqueueQuiet(rules: PathRules, db: Db, step: Step)
    requires Quiet(db) && (step.Enqueued? || step.Scanned?)
    ensures Quiet(Next(rules, db, step))
  {
  }

  lemma DelayQuiet(rules: PathRules, db: Db, step: Step, clock: int, seen: set<Entry>)
    requires Quiet(db) && step.Delayed? && SeenQuiet(db, clock, seen) && Disciplined(db, Did(step), clock, seen)
    ensures Quiet(Next(rules, db, step))
  {
  }

  lemma AckQuiet(rules: PathRules, db: Db, step: Step, clock: int, seen: set<Entry>)
    requires Quiet(db) && step.Acknowledged? && SeenQuiet(db, clock, seen) && Disciplined(db, Did(step), clock, seen)
    ensures Quiet(Next(rules, db, step))
  {
    forall slot | slot in db.pending && Decides(db, step.source, step.outcomes, slot, 1)
      ensures Exempt(db.pending[slot]) || db.pending[slot].changedAt + QUIET_MS <= step.now
    {
      var i :| 0 <= i < |step.outcomes| && step.outcomes[i] == 1 && Matches(db, slot, i);
      assert FromDue(seen, step.source, db.items[Seat(step.source, i)]);
      var e :| e in seen && e.source == step.source && e.key == slot.key && e.generation == db.pending[slot].generation;
      assert Names(db, e) && Slot(e.source, e.key) == slot;
    }
  }

  lemma RestQuiet(rules: PathRules, db: Db, step: Step)
    requires Quiet(db) && !step.Enqueued? && !step.Scanned? && !step.Delayed? && !step.Acknowledged?
    ensures Quiet(Next(rules, db, step))
  {
  }

  lemma {:induction false} QuietRun(rules: PathRules, db: Db, events: seq<Event>, clock: int, seen: set<Entry>)
    requires Valid(rules, db) && Quiet(db) && SeenQuiet(db, clock, seen)
    requires DisciplinedRun(rules, db, events, clock, seen)
    ensures Quiet(Outcome(rules, db, events))
    decreases |events|
  {
    if events != [] {
      var event := events[0];
      var time := Time(event, clock);
      if event.SawDue? {
        SawSeenQuiet(rules, db, event.source, event.now, event.limit, event.entries);
      } else {
        NextValid(rules, db, event.step);
        StepSeenQuiet(rules, db, event.step, clock, time, seen);
        if event.step.Enqueued? || event.step.Scanned? { EnqueueQuiet(rules, db, event.step); }
        else if event.step.Delayed? { DelayQuiet(rules, db, event.step, clock, seen); }
        else if event.step.Acknowledged? { AckQuiet(rules, db, event.step, clock, seen); }
        else { RestQuiet(rules, db, event.step); }
      }
      QuietRun(rules, Then(rules, db, event), events[1..], time, Seen(event, seen));
    }
  }

  /** After any disciplined run from an empty database, whatever Due returns at
      any time is a deletion, a first registration, or has been quiet for 120
      seconds. */
  lemma NeverDueEarly(rules: PathRules, events: seq<Event>, clock: int, source: string, now: int, limit: int, entries: seq<Entry>)
    requires DisciplinedRun(rules, EMPTY, events, clock, {})
    requires IsSelection(Outcome(rules, EMPTY, events), source, now, limit, false, entries)
    ensures forall i :: 0 <= i < |entries| ==>
              entries[i].kind == Delete || entries[i].initial || entries[i].changedAt + QUIET_MS <= now
  {
    QuietRun(rules, EMPTY, events, clock, {});
    var db := Outcome(rules, EMPTY, events);
    forall i | 0 <= i < |entries|
      ensures Selects(db, source, now, false, entries[i])
    {
    }
  }

  /** Why the discipline is needed: a Delay keeps the period exactly when it
      does not bring a waiting row forward. */
  lemma DelayKeepsQuietIff(db: Db, e: Entry, now: int, milliseconds: int, stableCount: int)
    requires Quiet(db) && InLong(now + milliseconds)
    ensures Quiet(DelayDb(db, e, now, milliseconds, stableCount).value.0) <==>
            (Names(db, e) ==>
               var row := db.pending[Slot(e.source, e.key)];
               Exempt(row) || row.changedAt + QUIET_MS <= now + milliseconds)
  {
    var after := DelayDb(db, e, now, milliseconds, stableCount).value.0;
    var slot := Slot(e.source, e.key);
    if Names(db, e) { assert slot in after.pending; }
  }

  /** An autosave delayed straight from Dirty becomes due at once. */
  lemma DirtyDelayBreaksQuiet(rules: PathRules)
    requires NormalizePath(rules, "a").Some?
    ensures var db := Next(rules, EMPTY, Enqueued("s", "a", Upsert, "", 0));
            var slot := SlotOf(rules, "s", "a");
            && slot in db.pending
            && var e := EntryOf("s", slot.key, db.pending[slot]);
               && Selects(db, "s", 0, true, e)
               && !Quiet(Next(rules, db, Delayed(e, 0, 0, 0)))
  {
    var db := Next(rules, EMPTY, Enqueued("s", "a", Upsert, "", 0));
    var slot := SlotOf(rules, "s", "a");
    assert !IsWhite('s') && "s"[0] == 's';
    assert slot in db.pending;
    var e := EntryOf("s", slot.key, db.pending[slot]);
    assert slot in Next(rules, db, Delayed(e, 0, 0, 0)).pending;
  }
}
