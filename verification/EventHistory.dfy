/** What a pending row says about its past: after any run from an empty database
    every column of it follows from the steps that touched its key. */
module EventHistory {
  import opened Wrappers
  import opened Text
  import opened QueueModel
  import opened QueueInvariant
  import opened QueueRuns
  import opened EventSafety
  import opened Selection

  // ------------------------------------------------------- recording an event

  /** The step records a new event at this key. */
  ghost predicate Accepts(rules: PathRules, db: Db, step: Step, slot: Slot) {
    match step
    case Enqueued(source, path, kind, oldPath, now) =>
      EnqueueDb(rules, db, source, path, kind, oldPath, now).Ok? && slot == SlotOf(rules, source, path)
    case Scanned(source, path, now) =>
      ScanDb(rules, db, source, path, now).Ok? && slot == SlotOf(rules, source, path) && slot !in db.pending
    case _ => false
  }

  /** What the event was reported as; a scan reports a creation. */
  function Reported(step: Step): Kind
    requires step.Enqueued? || step.Scanned?
  {
    if step.Enqueued? then step.kind else Create
  }

  function NamedOrigin(rules: PathRules, step: Step): Option<string> {
    if step.Enqueued? && step.oldPath != "" then NormalizePath(rules, step.oldPath) else None
  }

  /** Where the event says the file was, or what the row it replaces remembers. */
  function KnownOrigin(rules: PathRules, db: Db, step: Step, slot: Slot): Option<string> {
    match NamedOrigin(rules, step)
    case Some(origin) => Some(origin)
    case None => if slot in db.pending then db.pending[slot].oldPath else None
  }

  /** The columns an event gives its row for good. */
  ghost predicate TellsEvent(rules: PathRules, db: Db, step: Step, slot: Slot, row: Row)
    requires step.Enqueued? || step.Scanned?
  {
    var reported, origin := Reported(step), KnownOrigin(rules, db, step, slot);
    && NormalizePath(rules, step.path) == Some(row.path) && row.changedAt == step.now && row.generation == db.counter + 1
    && (row.kind == Delete <==> reported == Delete)
    && (row.kind == Move <==> reported == Move || (reported == Upsert && origin.Some?))
    && (row.kind == Upsert <==> reported == Create || (reported == Upsert && origin.None?))
    && (reported != Move ==> row.oldPath == origin)
    && (reported == Move ==> MovesFrom(rules, db, slot, origin, row.oldPath))
  }

  /** A move starts where the row it leaves behind started, if that remembers. */
  predicate MovesFrom(rules: PathRules, db: Db, slot: Slot, origin: Option<string>, oldPath: Option<string>) {
    match origin
    case None => oldPath.None?
    case Some(path) =>
      var left := Slot(slot.source, rules.fold(path));
      oldPath == if left in db.pending && db.pending[left].oldPath.Some? then db.pending[left].oldPath else origin
  }

  /** A deletion and a first registration are due at once, everything else when
      it has been quiet; nothing else is known of the event yet. */
  predicate Fresh(row: Row, now: int) {
    && row.dueAt == (if row.kind == Delete || row.initial then now else now + 120000)
    && row.stableCount == 0 && !row.dirtySent && !row.held && row.fingerprint.None?
  }

  /** The row is a first registration: a creation where nothing was pending, or
      anything but a deletion on top of one. */
  predicate TellsInitial(db: Db, step: Step, slot: Slot, row: Row)
    requires step.Enqueued? || step.Scanned?
  {
    row.initial <==>
      || (slot !in db.pending && Reported(step) == Create)
      || (slot in db.pending && db.pending[slot].initial && Reported(step) != Delete)
  }

  lemma EventRecorded(rules: PathRules, db: Db, step: Step, slot: Slot)
    requires Accepts(rules, db, step, slot)
    ensures slot in Next(rules, db, step).pending
    ensures var row := Next(rules, db, step).pending[slot];
            TellsEvent(rules, db, step, slot, row) && TellsInitial(db, step, slot, row) && Fresh(row, step.now)
  {
  }

  /** The source, the kind and both paths are legal. */
  predicate LegalEvent(rules: PathRules, step: Step) {
    match step
    case Enqueued(source, path, kind, oldPath, _) =>
      && (exists i :: 0 <= i < |source| && !IsWhite(source[i]))
      && (kind == Create || kind == Upsert || kind == Delete || kind == Move)
      && NormalizePath(rules, path).Some? && (oldPath == "" || NormalizePath(rules, oldPath).Some?)
    case Scanned(source, path, _) =>
      (exists i :: 0 <= i < |source| && !IsWhite(source[i])) && NormalizePath(rules, path).Some?
    case _ => false
  }

  /** When an event is recorded, and what is thrown when not: an illegal request,
      an exhausted counter, or a quiet period beyond the calendar. */
  lemma EnqueueAnswers(rules: PathRules, db: Db, step: Step)
    requires step.Enqueued?
    ensures var effect := EnqueueDb(rules, db, step.source, step.path, step.kind, step.oldPath, step.now);
            && (!LegalEvent(rules, step) <==> effect == Throws(InvalidArgument))
            && (LegalEvent(rules, step) ==>
                  var slot := Slot(step.source, rules.fold(NormalizePath(rules, step.path).value));
                  var exempt := step.kind == Delete || (if slot in db.pending then db.pending[slot].initial else step.kind == Create);
                  && (effect.Ok? <==> db.counter < MAX_LONG && (exempt ==> InLong(step.now)) && (!exempt ==> InLong(step.now + 120000)))
                  && (effect.Ok? ==> effect.value.1 == db.counter + 1)
                  && (effect.Throws? ==> effect.error == Overflow))
  {
  }

  /** A scan answers the generation that is pending at its key, after it. */
  lemma ScanAnswers(rules: PathRules, db: Db, step: Step)
    requires step.Scanned? && Valid(rules, db)
    ensures var effect := ScanDb(rules, db, step.source, step.path, step.now);
            && (!LegalEvent(rules, step) <==> effect == Throws(InvalidArgument))
            && (LegalEvent(rules, step) ==>
                  var slot := Slot(step.source, rules.fold(NormalizePath(rules, step.path).value));
                  && (effect.Ok? <==> slot in db.pending || db.counter < MAX_LONG)
                  && (effect.Ok? ==> slot in effect.value.0.pending && effect.value.1 == effect.value.0.pending[slot].generation)
                  && (effect.Throws? ==> effect.error == Overflow))
  {
  }

  // -------------------------------------------------- the columns of a kept row

  /** The acknowledgement gives the event pending at this key the outcome o. */
  ghost predicate Answers(db: Db, step: Step, slot: Slot, o: int) {
    && step.Acknowledged? && AckDb(db, step.source, step.requestId, step.outcomes, step.now).Ok?
    && slot.source == step.source && slot in db.pending
    && exists i :: 0 <= i < |step.outcomes| && step.outcomes[i] == o
         && Seat(slot.source, i) in db.items && db.items[Seat(slot.source, i)] == Item(slot.key, db.pending[slot].generation)
  }

  predicate Resets(step: Step, slot: Slot) { step.Reset? && step.source == slot.source }

  /** A scan sees a held file again. */
  predicate Reopens(rules: PathRules, db: Db, step: Step, slot: Slot) {
    && step.Scanned? && LegalEvent(rules, step) && slot == Slot(step.source, rules.fold(NormalizePath(rules, step.path).value))
    && slot in db.pending && db.pending[slot].held
  }

  predicate Targets(db: Db, entry: Entry, slot: Slot) {
    slot in db.pending && slot == Slot(entry.source, entry.key) && db.pending[slot].generation == entry.generation
  }

  predicate Delays(db: Db, step: Step, slot: Slot) {
    step.Delayed? && InLong(step.now + step.milliseconds) && Targets(db, step.entry, slot)
  }

  predicate Prints(db: Db, step: Step, slot: Slot) {
    step.Remembered? && Utf16Length(step.fingerprint) == 64 && Targets(db, step.entry, slot)
  }

  ghost predicate Kept(db: Db, after: Db, slot: Slot) {
    slot in db.pending && Carries(after, slot, db.pending[slot])
  }

  /** What a step makes of the changing columns of a row it keeps. */
  ghost predicate ColumnsFollow(rules: PathRules, db: Db, step: Step, slot: Slot, after: Row)
    requires slot in db.pending
  {
    var row := db.pending[slot];
    && (after.dirtySent <==>
          (row.dirtySent || Answers(db, step, slot, 0) || Answers(db, step, slot, 1)) && !Resets(step, slot) && !Reopens(rules, db, step, slot))
    && (after.held <==> (row.held || Answers(db, step, slot, 3)) && !Reopens(rules, db, step, slot))
    && after.stableCount == (if Resets(step, slot) then 0 else if Answers(db, step, slot, 1) then 1
                             else if Delays(db, step, slot) then step.stableCount else row.stableCount)
    && after.fingerprint == (if Resets(step, slot) then None else if Prints(db, step, slot) then Some(step.fingerprint) else row.fingerprint)
    && after.dueAt == NewDueAt(rules, db, step, slot)
  }

  function Later(a: int, b: int): (r: int)
    ensures a <= r && b <= r && (r == a || r == b)
  {
    if a < b then b else a
  }

  ghost function NewDueAt(rules: PathRules, db: Db, step: Step, slot: Slot): int
    requires slot in db.pending
  {
    var row := db.pending[slot];
    if Resets(step, slot) then (if row.kind == Delete || row.initial then step.now else Later(step.now, row.changedAt + 120000))
    else if Answers(db, step, slot, 1) then step.now + 10000
    else if Delays(db, step, slot) then step.now + step.milliseconds
    else if Reopens(rules, db, step, slot) then Later(row.dueAt, step.now)
    else row.dueAt
  }

  /** An event has one item in the batch, and so one outcome. */
  lemma OneAnswer(db: Db, step: Step, slot: Slot)
    requires BatchesOk(db.outbox, db.items)
    ensures forall o, p :: Answers(db, step, slot, o) && Answers(db, step, slot, p) ==> o == p
  {
    forall o, p | Answers(db, step, slot, o) && Answers(db, step, slot, p) ensures o == p {
      var i :| 0 <= i < |step.outcomes| && step.outcomes[i] == o && Matches(db, slot, i);
      var j :| 0 <= j < |step.outcomes| && step.outcomes[j] == p && Matches(db, slot, j);
      OneItemPerKey(db, slot, i, j);
    }
  }

  lemma AckRow(rules: PathRules, db: Db, step: Step, slot: Slot)
    requires step.Acknowledged? && slot in db.pending && slot in Next(rules, db, step).pending
    ensures Next(rules, db, step).pending[slot] ==
            if AckDb(db, step.source, step.requestId, step.outcomes, step.now).Ok?
            then Settled(db, step.source, step.outcomes, step.now, slot) else db.pending[slot]
  {
  }

  lemma AnswerDecides(db: Db, step: Step, slot: Slot, o: int)
    requires step.Acknowledged? && AckDb(db, step.source, step.requestId, step.outcomes, step.now).Ok?
    ensures Answers(db, step, slot, o) <==> Decides(db, step.source, step.outcomes, slot, o)
  {
  }

  lemma AckColumns(rules: PathRules, db: Db, step: Step, slot: Slot)
    requires Valid(rules, db) && step.Acknowledged? && slot in db.pending && slot in Next(rules, db, step).pending
    ensures ColumnsFollow(rules, db, step, slot, Next(rules, db, step).pending[slot])
  {
    AckRow(rules, db, step, slot);
    OneAnswer(db, step, slot);
    if AckDb(db, step.source, step.requestId, step.outcomes, step.now).Ok? {
      AnswerDecides(db, step, slot, 0);
      AnswerDecides(db, step, slot, 1);
      AnswerDecides(db, step, slot, 3);
    }
  }

  lemma ScanRow(rules: PathRules, db: Db, step: Step, slot: Slot)
    requires step.Scanned? && slot in db.pending
    ensures slot in Next(rules, db, step).pending
    ensures Next(rules, db, step).pending[slot] ==
            if Reopens(rules, db, step, slot) && !KeyInFlight(db.items, slot) then Reopened(db.pending[slot], step.now) else db.pending[slot]
  {
    if LegalEvent(rules, step) && slot != SlotOf(rules, step.source, step.path) { ScanElsewhere(rules, db, step, slot); }
  }

  lemma ScanElsewhere(rules: PathRules, db: Db, step: Step, slot: Slot)
    requires step.Scanned? && slot in db.pending && LegalEvent(rules, step) && slot != SlotOf(rules, step.source, step.path)
    ensures slot in Next(rules, db, step).pending && Next(rules, db, step).pending[slot] == db.pending[slot]
  {
  }

  /** A held row has no item in flight. */
  lemma HeldIsFree(rules: PathRules, db: Db, slot: Slot)
    requires Valid(rules, db) && slot in db.pending && db.pending[slot].held
    ensures !KeyInFlight(db.items, slot)
  {
  }

  lemma ScanColumns(rules: PathRules, db: Db, step: Step, slot: Slot)
    requires step.Scanned? && slot in db.pending && (db.pending[slot].held ==> !KeyInFlight(db.items, slot))
    ensures slot in Next(rules, db, step).pending && ColumnsFollow(rules, db, step, slot, Next(rules, db, step).pending[slot])
  {
    ScanRow(rules, db, step, slot);
  }

  lemma ResetColumns(rules: PathRules, db: Db, step: Step, slot: Slot)
    requires step.Reset? && slot in db.pending
    ensures slot in Next(rules, db, step).pending && ColumnsFollow(rules, db, step, slot, Next(rules, db, step).pending[slot])
  {
  }

  lemma DelayColumns(rules: PathRules, db: Db, step: Step, slot: Slot)
    requires step.Delayed? && slot in db.pending
    ensures slot in Next(rules, db, step).pending && ColumnsFollow(rules, db, step, slot, Next(rules, db, step).pending[slot])
  {
  }

  lemma PrintColumns(rules: PathRules, db: Db, step: Step, slot: Slot)
    requires step.Remembered? && slot in db.pending
    ensures slot in Next(rules, db, step).pending && ColumnsFollow(rules, db, step, slot, Next(rules, db, step).pending[slot])
  {
  }

  lemma OtherRow(rules: PathRules, db: Db, step: Step, slot: Slot)
    requires !step.Scanned? && !step.Acknowledged? && !step.Reset? && !step.Delayed? && !step.Remembered?
    requires !Accepts(rules, db, step, slot) && slot in db.pending && slot in Next(rules, db, step).pending
    ensures Next(rules, db, step).pending[slot] == db.pending[slot]
  {
  }

  lemma KeptIsOther(rules: PathRules, db: Db, step: Step, slot: Slot)
    requires !step.Scanned? && !step.Acknowledged? && !step.Reset? && !step.Delayed? && !step.Remembered?
    requires Valid(rules, db) && Kept(db, Next(rules, db, step), slot)
    ensures ColumnsFollow(rules, db, step, slot, Next(rules, db, step).pending[slot])
  {
    if Accepts(rules, db, step, slot) { EventRecorded(rules, db, step, slot); }
    OtherRow(rules, db, step, slot);
  }

  lemma ColumnsAfter(rules: PathRules, db: Db, step: Step, slot: Slot)
    requires Valid(rules, db) && Kept(db, Next(rules, db, step), slot)
    ensures ColumnsFollow(rules, db, step, slot, Next(rules, db, step).pending[slot])
  {
    match step
    case Acknowledged(_, _, _, _) => AckColumns(rules, db, step, slot);
    case Scanned(_, _, _) =>
      if db.pending[slot].held { HeldIsFree(rules, db, slot); }
      ScanColumns(rules, db, step, slot);
    case Reset(_, _) => ResetColumns(rules, db, step, slot);
    case Delayed(_, _, _, _) => DelayColumns(rules, db, step, slot);
    case Remembered(_, _) => PrintColumns(rules, db, step, slot);
    case _ => KeptIsOther(rules, db, step, slot);
  }

  /** A pending row is the old one, kept, or that of an event just recorded. */
  lemma KeptOrRecorded(rules: PathRules, db: Db, step: Step, slot: Slot)
    requires Valid(rules, db) && slot in Next(rules, db, step).pending
    ensures Accepts(rules, db, step, slot) || Kept(db, Next(rules, db, step), slot)
    ensures Accepts(rules, db, step, slot) ==> !Kept(db, Next(rules, db, step), slot)
  {
    if Records(rules, db, step) && !step.ScopeEnqueued? {
      if Accepts(rules, db, step, slot) { EventRecorded(rules, db, step, slot); }
    } else {
      NextKeeps2(rules, db, step, slot);
      StepTakes(rules, db, step, slot);
    }
  }

  lemma NextKeeps2(rules: PathRules, db: Db, step: Step, slot: Slot)
    requires (!Records(rules, db, step) || step.ScopeEnqueued?) && slot in Next(rules, db, step).pending
    ensures slot in db.pending && Next(rules, db, step).pending[slot].generation == db.pending[slot].generation
    ensures !Accepts(rules, db, step, slot)
  {
    if !step.ScopeEnqueued? { NextKeeps(rules, db, step); }
  }

  // --------------------------------------------------------- over whole runs

  /** The tables after the first n steps from an empty database. */
  ghost function State(rules: PathRules, steps: seq<Step>, n: nat): Db
    requires n <= |steps|
  {
    if n == 0 then EMPTY else Next(rules, State(rules, steps, n - 1), steps[n - 1])
  }

  lemma {:induction false} StateIsRun(rules: PathRules, steps: seq<Step>, n: nat)
    requires n <= |steps|
    ensures State(rules, steps, n) == Run(rules, EMPTY, steps[..n]) && Valid(rules, State(rules, steps, n))
  {
    if n > 0 {
      StateIsRun(rules, steps, n - 1);
      assert steps[..n] == steps[..n - 1] + [steps[n - 1]];
      RunNext(rules, EMPTY, steps[..n - 1], steps[n - 1]);
      NextValid(rules, State(rules, steps, n - 1), steps[n - 1]);
    }
  }

  lemma {:induction false} RunNext(rules: PathRules, db: Db, steps: seq<Step>, last: Step)
    ensures Run(rules, db, steps + [last]) == Next(rules, Run(rules, db, steps), last)
    decreases |steps|
  {
    if steps == [] {
      assert [last][1..] == [];
    } else {
      RunNext(rules, Next(rules, db, steps[0]), steps[1..], last);
      assert (steps + [last])[1..] == steps[1..] + [last];
    }
  }

  ghost predicate AcceptsAt(rules: PathRules, steps: seq<Step>, slot: Slot, i: nat)
    requires i < |steps|
  {
    Accepts(rules, State(rules, steps, i), steps[i], slot)
  }

  /** The row pending after a step is one it recorded, or one it kept. */
  ghost predicate Follows(rules: PathRules, db: Db, step: Step, slot: Slot, row: Row) {
    if Accepts(rules, db, step, slot)
    then TellsEvent(rules, db, step, slot, row) && TellsInitial(db, step, slot, row) && Fresh(row, step.now)
    else slot in db.pending && SameEvent(row, db.pending[slot]) && ColumnsFollow(rules, db, step, slot, row)
  }

  lemma StepFollows(rules: PathRules, db: Db, step: Step, slot: Slot)
    requires Valid(rules, db) && slot in Next(rules, db, step).pending
    ensures Follows(rules, db, step, slot, Next(rules, db, step).pending[slot])
  {
    KeptOrRecorded(rules, db, step, slot);
    if Accepts(rules, db, step, slot) {
      EventRecorded(rules, db, step, slot);
    } else {
      ColumnsAfter(rules, db, step, slot);
    }
  }

  lemma StepHistory(rules: PathRules, steps: seq<Step>, n: nat, slot: Slot)
    requires 0 < n <= |steps| && slot in State(rules, steps, n).pending
    ensures Follows(rules, State(rules, steps, n - 1), steps[n - 1], slot, State(rules, steps, n).pending[slot])
  {
    StateIsRun(rules, steps, n - 1);
    StepFollows(rules, State(rules, steps, n - 1), steps[n - 1], slot);
  }

  lemma TellsSame(rules: PathRules, db: Db, step: Step, slot: Slot, row: Row, later: Row)
    requires (step.Enqueued? || step.Scanned?) && TellsEvent(rules, db, step, slot, row) && SameEvent(later, row)
    ensures TellsEvent(rules, db, step, slot, later)
  {
  }

  /** The last event of the first n steps that was recorded at the key. */
  ghost predicate LastEvent(rules: PathRules, steps: seq<Step>, n: nat, slot: Slot, i: nat)
    requires n <= |steps|
  {
    i < n && AcceptsAt(rules, steps, slot, i) && forall k :: i < k < n ==> !AcceptsAt(rules, steps, slot, k)
  }

  /** Whatever is pending is the last event recorded at its key, and says so. */
  lemma {:induction false} RowIsLastEvent(rules: PathRules, steps: seq<Step>, n: nat, slot: Slot) returns (i: nat)
    requires n <= |steps| && slot in State(rules, steps, n).pending
    ensures LastEvent(rules, steps, n, slot, i)
    ensures TellsEvent(rules, State(rules, steps, i), steps[i], slot, State(rules, steps, n).pending[slot])
  {
    StepHistory(rules, steps, n, slot);
    if AcceptsAt(rules, steps, slot, n - 1) {
      i := n - 1;
    } else {
      i := RowIsLastEvent(rules, steps, n - 1, slot);
      TellsSame(rules, State(rules, steps, i), steps[i], slot, State(rules, steps, n - 1).pending[slot], State(rules, steps, n).pending[slot]);
    }
  }

  /** So over any run: a row is a deletion exactly when the last event recorded
      at its key was one, a move exactly when that was a move or a change of a
      file whose origin is known, and a change otherwise. */
  lemma KindOfLastEvent(rules: PathRules, steps: seq<Step>, slot: Slot, i: nat)
    requires slot in Run(rules, EMPTY, steps).pending && LastEvent(rules, steps, |steps|, slot, i)
    ensures var row, event, db := Run(rules, EMPTY, steps).pending[slot], steps[i], State(rules, steps, i);
            && (row.kind == Delete <==> Reported(event) == Delete)
            && (row.kind == Move <==> Reported(event) == Move || (Reported(event) == Upsert && KnownOrigin(rules, db, event, slot).Some?))
            && (row.kind == Upsert <==> Reported(event) == Create || (Reported(event) == Upsert && KnownOrigin(rules, db, event, slot).None?))
  {
    StateIsRun(rules, steps, |steps|);
    assert steps[..|steps|] == steps;
    var j := RowIsLastEvent(rules, steps, |steps|, slot);
    assert i == j;
  }

  /** Something is pending at the key after the step, and the step recorded no
      deletion there. */
  ghost predicate UnbrokenAt(rules: PathRules, steps: seq<Step>, slot: Slot, i: nat)
    requires i < |steps|
  {
    slot in State(rules, steps, i + 1).pending && (AcceptsAt(rules, steps, slot, i) ==> Reported(steps[i]) != Delete)
  }

  ghost predicate Unbroken(rules: PathRules, steps: seq<Step>, slot: Slot, from: nat, n: nat)
    requires n <= |steps|
  {
    forall i :: from <= i < n ==> UnbrokenAt(rules, steps, slot, i)
  }

  /** A creation was recorded at the key while nothing was pending there. */
  ghost predicate Begins(rules: PathRules, steps: seq<Step>, slot: Slot, i: nat)
    requires i < |steps|
  {
    slot !in State(rules, steps, i).pending && AcceptsAt(rules, steps, slot, i) && Reported(steps[i]) == Create
  }

  /** Over any run: a row is a first registration exactly when an unbroken
      sequence of events other than deletions began with a creation. */
  lemma {:induction false} InitialHistory(rules: PathRules, steps: seq<Step>, n: nat, slot: Slot)
    requires n <= |steps| && slot in State(rules, steps, n).pending
    ensures State(rules, steps, n).pending[slot].initial <==>
            exists b :: 0 <= b < n && Begins(rules, steps, slot, b) && Unbroken(rules, steps, slot, b, n)
  {
    StepHistory(rules, steps, n, slot);
    if slot in State(rules, steps, n - 1).pending {
      InitialHistory(rules, steps, n - 1, slot);
      OldBeginning(rules, steps, n, slot);
    } else {
      NewBeginning(rules, steps, n, slot);
    }
  }

  lemma UnbrokenNext(rules: PathRules, steps: seq<Step>, slot: Slot, from: nat, n: nat)
    requires from < n <= |steps|
    ensures Unbroken(rules, steps, slot, from, n) <==> Unbroken(rules, steps, slot, from, n - 1) && UnbrokenAt(rules, steps, slot, n - 1)
  {
  }

  lemma OldBeginning(rules: PathRules, steps: seq<Step>, n: nat, slot: Slot)
    requires 0 < n <= |steps| && slot in State(rules, steps, n - 1).pending && slot in State(rules, steps, n).pending
    ensures (exists b :: 0 <= b < n && Begins(rules, steps, slot, b) && Unbroken(rules, steps, slot, b, n)) <==>
            (exists b :: 0 <= b < n - 1 && Begins(rules, steps, slot, b) && Unbroken(rules, steps, slot, b, n - 1))
            && (AcceptsAt(rules, steps, slot, n - 1) ==> Reported(steps[n - 1]) != Delete)
  {
    if b :| 0 <= b < n && Begins(rules, steps, slot, b) && Unbroken(rules, steps, slot, b, n) {
      UnbrokenNext(rules, steps, slot, b, n);
    }
    if b :| 0 <= b < n - 1 && Begins(rules, steps, slot, b) && Unbroken(rules, steps, slot, b, n - 1) {
      UnbrokenNext(rules, steps, slot, b, n);
    }
  }

  lemma NewBeginning(rules: PathRules, steps: seq<Step>, n: nat, slot: Slot)
    requires 0 < n <= |steps| && slot !in State(rules, steps, n - 1).pending && slot in State(rules, steps, n).pending
    requires AcceptsAt(rules, steps, slot, n - 1)
    ensures (exists b :: 0 <= b < n && Begins(rules, steps, slot, b) && Unbroken(rules, steps, slot, b, n)) <==> Reported(steps[n - 1]) == Create
  {
    if n > 1 { assert !UnbrokenAt(rules, steps, slot, n - 2); }
    if Reported(steps[n - 1]) == Create {
      assert Begins(rules, steps, slot, n - 1) && Unbroken(rules, steps, slot, n - 1, n);
    }
  }

  // ------------------------------------------------------ marks and holds

  /** An outcome that ends with the mark: stored, or to be observed again. */
  ghost predicate MarksAt(rules: PathRules, steps: seq<Step>, slot: Slot, i: nat)
    requires i < |steps|
  {
    Answers(State(rules, steps, i), steps[i], slot, 0) || Answers(State(rules, steps, i), steps[i], slot, 1)
  }

  ghost predicate HoldsAt(rules: PathRules, steps: seq<Step>, slot: Slot, i: nat)
    requires i < |steps|
  {
    Answers(State(rules, steps, i), steps[i], slot, 3)
  }

  /** A newer event, or a scan that reopens the row. */
  ghost predicate RenewsAt(rules: PathRules, steps: seq<Step>, slot: Slot, i: nat)
    requires i < |steps|
  {
    AcceptsAt(rules, steps, slot, i) || Reopens(rules, State(rules, steps, i), steps[i], slot)
  }

  ghost predicate Marked(rules: PathRules, steps: seq<Step>, slot: Slot, n: nat)
    requires n <= |steps|
  {
    exists i :: 0 <= i < n && MarksAt(rules, steps, slot, i)
      && forall k :: i < k < n ==> !RenewsAt(rules, steps, slot, k) && !Resets(steps[k], slot)
  }

  ghost predicate Held(rules: PathRules, steps: seq<Step>, slot: Slot, n: nat)
    requires n <= |steps|
  {
    exists i :: 0 <= i < n && HoldsAt(rules, steps, slot, i) && forall k :: i < k < n ==> !RenewsAt(rules, steps, slot, k)
  }

  lemma MarkedNext(rules: PathRules, steps: seq<Step>, slot: Slot, n: nat)
    requires 0 < n <= |steps|
    ensures Marked(rules, steps, slot, n) <==>
              MarksAt(rules, steps, slot, n - 1) ||
              (Marked(rules, steps, slot, n - 1) && !RenewsAt(rules, steps, slot, n - 1) && !Resets(steps[n - 1], slot))
  {
  }

  lemma HeldNext(rules: PathRules, steps: seq<Step>, slot: Slot, n: nat)
    requires 0 < n <= |steps|
    ensures Held(rules, steps, slot, n) <==>
              HoldsAt(rules, steps, slot, n - 1) || (Held(rules, steps, slot, n - 1) && !RenewsAt(rules, steps, slot, n - 1))
  {
  }

  /** Over any run: a row's dirty marker is sent exactly when an acknowledgement
      said so and no newer event, reopening or reset of its source came after;
      it is held exactly when one held it and neither of the first two did. */
  lemma {:induction false} MarksHistory(rules: PathRules, steps: seq<Step>, n: nat, slot: Slot)
    requires n <= |steps| && slot in State(rules, steps, n).pending
    ensures State(rules, steps, n).pending[slot].dirtySent <==> Marked(rules, steps, slot, n)
    ensures State(rules, steps, n).pending[slot].held <==> Held(rules, steps, slot, n)
  {
    MarkedNext(rules, steps, slot, n);
    HeldNext(rules, steps, slot, n);
    StepHistory(rules, steps, n, slot);
    if !AcceptsAt(rules, steps, slot, n - 1) { MarksHistory(rules, steps, n - 1, slot); }
  }

  // ------------------------------------------------------ what is selected

  /** A pending event is missing from Dirty exactly when a batch of its source
      is frozen, or an acknowledgement marked or held it since it was recorded,
      reopened or, for the mark, its source reset. */
  lemma DirtyMisses(rules: PathRules, steps: seq<Step>, slot: Slot)
    requires slot in Run(rules, EMPTY, steps).pending
    ensures var db := Run(rules, EMPTY, steps);
            !Selects(db, slot.source, 0, true, EntryOf(slot.source, slot.key, db.pending[slot])) <==>
              slot.source in db.outbox || Marked(rules, steps, slot, |steps|) || Held(rules, steps, slot, |steps|)
  {
    StateIsRun(rules, steps, |steps|);
    assert steps[..|steps|] == steps;
    MarksHistory(rules, steps, |steps|, slot);
  }

  /** And from Due exactly when it is held, a batch is frozen, or it is not due. */
  lemma DueMisses(rules: PathRules, steps: seq<Step>, slot: Slot, now: int)
    requires slot in Run(rules, EMPTY, steps).pending
    ensures var db := Run(rules, EMPTY, steps);
            !Selects(db, slot.source, now, false, EntryOf(slot.source, slot.key, db.pending[slot])) <==>
              slot.source in db.outbox || Held(rules, steps, slot, |steps|) || now < db.pending[slot].dueAt
  {
    StateIsRun(rules, steps, |steps|);
    assert steps[..|steps|] == steps;
    MarksHistory(rules, steps, |steps|, slot);
  }

  /** The order of an answer: Due returns rows seen once before all others, and
      then both go by due time and by key. */
  lemma AnswerOrder(db: Db, source: string, now: int, limit: int, dirty: bool, result: seq<Entry>, i: nat, j: nat)
    requires IsSelection(db, source, now, limit, dirty, result) && i < j < |result|
    ensures !dirty && result[j].stableCount > 0 ==> result[i].stableCount > 0
    ensures dirty || (result[i].stableCount > 0 <==> result[j].stableCount > 0) ==>
              result[i].dueAt < result[j].dueAt || (result[i].dueAt == result[j].dueAt && TextBefore(result[i].key, result[j].key))
  {
    assert Precedes(dirty, result[i], result[j]);
  }

  /** An answer says of each event what its row says. */
  lemma AnswerFaithful(db: Db, source: string, now: int, limit: int, dirty: bool, result: seq<Entry>, i: nat)
    requires IsSelection(db, source, now, limit, dirty, result) && i < |result|
    ensures var e := result[i];
            && e.source == source && Slot(source, e.key) in db.pending
            && var row := db.pending[Slot(source, e.key)];
               && e.path == row.path && e.kind == row.kind && e.oldPath == row.oldPath && e.generation == row.generation
               && e.changedAt == row.changedAt && e.dueAt == row.dueAt && e.stableCount == row.stableCount
               && e.fingerprint == row.fingerprint && e.initial == row.initial
  {
    assert Selects(db, source, now, dirty, result[i]);
  }

  // --------------------------------------------------------------- resets

  /** A reset drops the source's batch and no row; every row of the source loses
      its mark, its observation and its fingerprint and is due again, at once or
      when it has been quiet; other sources are as they were. */
  lemma ResetReopensAll(rules: PathRules, db: Db, source: string, now: Long)
    ensures var after := Next(rules, db, Reset(source, now));
            && after.pending.Keys == db.pending.Keys && source !in after.outbox
            && (forall seat :: seat in after.items <==> seat in db.items && seat.source != source)
            && (forall seat :: seat in after.items ==> after.items[seat] == db.items[seat])
            && (forall other :: other != source ==> (other in after.outbox <==> other in db.outbox))
            && (forall other :: other in after.outbox ==> after.outbox[other] == db.outbox[other])
            && (forall slot :: slot in db.pending && slot.source != source ==> after.pending[slot] == db.pending[slot])
            && (forall slot :: slot in db.pending && slot.source == source ==>
                  var row := after.pending[slot];
                  && !row.dirtySent && row.stableCount == 0 && row.fingerprint.None? && row.held == db.pending[slot].held
                  && SameEvent(row, db.pending[slot])
                  && row.dueAt == (if row.kind == Delete || row.initial then now else Later(now, row.changedAt + 120000))
                  && (!row.held ==> Selects(after, source, 0, true, EntryOf(source, slot.key, row))))
            && after.scope == db.scope && after.counter == db.counter
  {
  }
}
