/** What the queue answers: for every operation when it succeeds, which error it
    throws otherwise, and what a success stores. */
module QueueAnswers {
  import opened Wrappers
  import opened Text
  import opened QueueModel
  import opened QueueInvariant
  import opened QueueRuns
  import opened Selection
  import opened BatchSafety

  // --------------------------------------------------------------- freezing

  /** The entry is of this source, and its key did not come before. */
  predicate OwnAt(source: string, entries: seq<Entry>, i: nat)
    requires i < |entries|
  {
    entries[i].source == source && forall j :: 0 <= j < i ==> entries[j].key != entries[i].key
  }

  /** The entry is still what is pending at its key, and not held. */
  predicate LiveAt(db: Db, entries: seq<Entry>, i: nat)
    requires i < |entries|
  {
    var slot := Slot(entries[i].source, entries[i].key);
    slot in db.pending && !db.pending[slot].held && db.pending[slot].generation == entries[i].generation
  }

  predicate Sized(payload: string, entries: seq<Entry>) {
    1 <= |entries| <= 250 && Utf8Length(payload) <= 1048576
  }

  /** The first entry that is not both own and live is not own. */
  ghost predicate Misfit(db: Db, source: string, entries: seq<Entry>) {
    exists i :: 0 <= i < |entries| && !OwnAt(source, entries, i) && forall j :: 0 <= j < i ==> LiveAt(db, entries, j)
  }

  ghost predicate AllFit(db: Db, source: string, entries: seq<Entry>) {
    forall i :: 0 <= i < |entries| ==> OwnAt(source, entries, i) && LiveAt(db, entries, i)
  }

  /** The batch as it must be stored. */
  ghost predicate Stores(db: Db, step: Step, after: Db)
    requires step.Frozen?
  {
    && after.pending == db.pending && after.scope == db.scope && after.counter == db.counter
    && after.outbox == db.outbox[step.source := Box(step.epoch, step.sequence, step.requestId, step.payload, 0, 0, false)]
    && (forall i :: 0 <= i < |step.entries| ==>
          Seat(step.source, i) in after.items
          && after.items[Seat(step.source, i)] == Item(step.entries[i].key, step.entries[i].generation))
    && (forall seat :: seat in after.items ==> seat in db.items || (seat.source == step.source && 0 <= seat.ordinal < |step.entries|))
    && (forall seat :: seat in db.items ==> seat in after.items && after.items[seat] == db.items[seat])
  }

  lemma FitsMeans(db: Db, source: string, entries: seq<Entry>)
    ensures BadIdentity(db, source, entries) <==> Misfit(db, source, entries)
    ensures !BadIdentity(db, source, entries) ==> (AnyStale(db, entries) <==> !AllFit(db, source, entries))
  {
    forall i | 0 <= i < |entries|
      ensures Misplaced(source, entries, i) <==> !OwnAt(source, entries, i)
      ensures Stale(db, entries[i]) <==> !LiveAt(db, entries, i) {}
    if i :| 0 <= i < |entries| && Misplaced(source, entries, i) && forall j :: 0 <= j < i ==> !Stale(db, entries[j]) {
      assert !OwnAt(source, entries, i) && forall j :: 0 <= j < i ==> LiveAt(db, entries, j);
    }
    if i :| 0 <= i < |entries| && !OwnAt(source, entries, i) && forall j :: 0 <= j < i ==> LiveAt(db, entries, j) {
      assert Misplaced(source, entries, i) && forall j :: 0 <= j < i ==> !Stale(db, entries[j]);
    }
  }

  /** A batch is frozen exactly when it is of legal size, none is frozen yet, and
      every entry is own and live; it is refused with an error exactly when its
      size is illegal or a foreign or repeated entry comes before any stale one. */
  lemma FreezeAnswers(rules: PathRules, db: Db, step: Step)
    requires Valid(rules, db) && step.Frozen?
    ensures var effect := FreezeDb(db, step.source, step.epoch, step.sequence, step.requestId, step.payload, step.entries);
            var free := step.source !in db.outbox;
            && (effect.Throws? <==> !Sized(step.payload, step.entries) || (free && Misfit(db, step.source, step.entries)))
            && (effect.Throws? ==> effect.error == InvalidArgument)
            && (effect.Ok? && effect.value.1 <==> Sized(step.payload, step.entries) && free && AllFit(db, step.source, step.entries))
            && (effect.Ok? && effect.value.1 ==> Stores(db, step, effect.value.0))
            && (effect.Ok? && !effect.value.1 ==> effect.value.0 == db)
  {
    FitsMeans(db, step.source, step.entries);
    if step.source !in db.outbox {
      assert forall i :: Seat(step.source, i) !in db.items;
      SeatsStored(db, step);
    }
  }

  lemma SeatsStored(db: Db, step: Step)
    requires step.Frozen? && forall seat :: seat in db.items ==> seat.source != step.source
    ensures Stores(db, step, db.(outbox := db.outbox[step.source := Box(step.epoch, step.sequence, step.requestId, step.payload, 0, 0, false)],
                                 items := db.items + Seats(step.source, step.entries)))
  {
  }

  // -------------------------------------------------------- acknowledgement

  predicate LegalAt(outcomes: seq<int>, now: int, i: nat)
    requires i < |outcomes|
  {
    outcomes[i] == 0 || outcomes[i] == 2 || outcomes[i] == 3 || (outcomes[i] == 1 && InLong(now + 10000))
  }

  /** The first outcome that cannot be applied. */
  ghost predicate FirstBad(outcomes: seq<int>, now: int, i: nat) {
    i < |outcomes| && !LegalAt(outcomes, now, i) && forall j :: 0 <= j < i ==> LegalAt(outcomes, now, j)
  }

  lemma {:induction false} FaultIsFirstBad(outcomes: seq<int>, now: int, from: nat)
    requires from <= |outcomes| && forall j :: 0 <= j < from ==> LegalAt(outcomes, now, j)
    ensures AckFault(outcomes, now, from).None? <==> forall j :: 0 <= j < |outcomes| ==> LegalAt(outcomes, now, j)
    ensures forall i: nat :: FirstBad(outcomes, now, i) ==>
              AckFault(outcomes, now, from) == Some(if outcomes[i] == 1 then Overflow else InvalidArgument)
    decreases |outcomes| - from
  {
    if from < |outcomes| && LegalAt(outcomes, now, from) { FaultIsFirstBad(outcomes, now, from + 1); }
  }

  /** An acknowledgement must name the batch, bring one outcome per item, and
      only legal ones; the first fault in this order decides the error. */
  lemma AckAnswers(db: Db, step: Step, n: nat)
    requires step.Acknowledged? && BatchesOk(db.outbox, db.items)
    requires step.source in db.outbox ==> BatchOf(db.items, step.source, n)
    ensures var effect := AckDb(db, step.source, step.requestId, step.outcomes, step.now);
            var named := step.source in db.outbox && db.outbox[step.source].requestId == step.requestId;
            && (!named <==> effect == Throws(InvalidOperation))
            && (named && |step.outcomes| != n ==> effect == Throws(InvalidArgument))
            && (named && |step.outcomes| == n ==>
                  && (effect.Ok? <==> forall j :: 0 <= j < n ==> LegalAt(step.outcomes, step.now, j))
                  && forall i: nat :: FirstBad(step.outcomes, step.now, i) ==>
                       effect == Throws(if step.outcomes[i] == 1 then Overflow else InvalidArgument))
  {
    if step.source in db.outbox {
      assert SomeBatch(db.items, step.source);
      BatchSizeIs(db.items, step.source, n);
    }
    FaultIsFirstBad(step.outcomes, step.now, 0);
    FaultIsLegal(step.outcomes, step.now, 0);
  }

  lemma {:induction false} FaultIsLegal(outcomes: seq<int>, now: int, from: nat)
    requires from <= |outcomes|
    ensures AckFault(outcomes, now, from) != Some(InvalidOperation)
    decreases |outcomes| - from
  {
    if from < |outcomes| { FaultIsLegal(outcomes, now, from + 1); }
  }

  // --------------------------------------------------------------- retries

  /** 5, 10, 20, 40, 80 and 160 seconds, and then five minutes. */
  function Pause(attempts: nat): nat {
    match attempts
    case 0 => 5000
    case 1 => 10000
    case 2 => 20000
    case 3 => 40000
    case 4 => 80000
    case 5 => 160000
    case _ => 300000
  }

  lemma BackoffIsPause(attempts: nat)
    ensures Backoff(attempts) == Pause(attempts)
  {
    assert Pow2(0) == 1 && Pow2(1) == 2 && Pow2(2) == 4 && Pow2(3) == 8;
    assert Pow2(4) == 16 && Pow2(5) == 32 && Pow2(6) == 64;
    var few: nat := if attempts < 6 then attempts else 6;
    assert few in {0, 1, 2, 3, 4, 5, 6};
  }

  /** A retry must name the batch; it is counted, dated by the attempts before
      it, and held if the failure was permanent. */
  lemma RetryAnswers(db: Db, step: Step)
    requires step.Retried?
    ensures var effect := RetryDb(db, step.source, step.requestId, step.now, step.permanent);
            var named := step.source in db.outbox && db.outbox[step.source].requestId == step.requestId;
            && (!named <==> effect == Throws(InvalidOperation))
            && (named ==>
                  var box := db.outbox[step.source];
                  var at := step.now + Pause(box.attempts);
                  && (!InLong(at) ==> effect == Throws(Overflow))
                  && (InLong(at) ==>
                        && effect.Ok? && effect.value.0.outbox.Keys == db.outbox.Keys
                        && effect.value.0 == db.(outbox := effect.value.0.outbox)
                        && (forall other :: other in db.outbox && other != step.source ==> effect.value.0.outbox[other] == db.outbox[other])
                        && var after := effect.value.0.outbox[step.source];
                           && after.epoch == box.epoch && after.sequence == box.sequence && after.requestId == box.requestId
                           && after.payload == box.payload && after.attempts == box.attempts + 1 && after.nextAttemptAt == at
                           && after.held == step.permanent))
  {
    if step.source in db.outbox { BackoffIsPause(db.outbox[step.source].attempts); }
  }

  // ------------------------------------------------- fingerprints and delays

  /** The entry's own event is what is pending at its key. */
  predicate StillPending(db: Db, entry: Entry) {
    var slot := Slot(entry.source, entry.key);
    slot in db.pending && db.pending[slot].generation == entry.generation
  }

  /** A fingerprint has 64 units, and the answer says whether it was stored; a
      stale generation changes nothing. */
  lemma RememberAnswers(db: Db, step: Step)
    requires step.Remembered?
    ensures var effect := RememberDb(db, step.entry, step.fingerprint);
            && (Utf16Length(step.fingerprint) != 64 <==> effect == Throws(InvalidArgument))
            && (effect.Ok? <==> Utf16Length(step.fingerprint) == 64)
            && (effect.Ok? ==> (effect.value.1 <==> StillPending(db, step.entry)) && (!effect.value.1 ==> effect.value.0 == db))
  {
  }

  lemma DelayAnswers(db: Db, step: Step)
    requires step.Delayed?
    ensures var effect := DelayDb(db, step.entry, step.now, step.milliseconds, step.stableCount);
            && (!InLong(step.now + step.milliseconds) <==> effect == Throws(Overflow))
            && (effect.Ok? <==> InLong(step.now + step.milliseconds))
            && (effect.Ok? && !StillPending(db, step.entry) ==> effect.value.0 == db)
  {
  }

  // ---------------------------------------------------------------- scopes

  /** A request is stored under a fresh generation with the caller's own path,
      old path and kind; a recovery needs no path. */
  lemma ScopeAnswers(rules: PathRules, db: Db, step: Step)
    requires step.ScopeEnqueued?
    ensures var effect := EnqueueScopeDb(rules, db, step.source, step.path, step.oldPath, step.scopeKind);
            var legal := (step.scopeKind == "recovery" || NormalizePath(rules, step.path).Some?)
                         && (step.oldPath == "" || NormalizePath(rules, step.oldPath).Some?);
            && (!legal <==> effect == Throws(InvalidArgument))
            && (legal && db.counter >= MAX_LONG ==> effect == Throws(Overflow))
            && (legal && db.counter < MAX_LONG ==>
                  var path := if step.scopeKind == "recovery" then "" else NormalizePath(rules, step.path).value;
                  var slot := Slot(step.source, rules.fold(path));
                  && effect.Ok? && effect.value.0.counter == db.counter + 1
                  && effect.value.0 == db.(counter := db.counter + 1, scope := effect.value.0.scope)
                  && effect.value.0.scope.Keys == db.scope.Keys + {slot}
                  && (forall other :: other in db.scope && other != slot ==> effect.value.0.scope[other] == db.scope[other])
                  && var stored := effect.value.0.scope[slot];
                     && stored.path == path && stored.kind == step.scopeKind && stored.generation == db.counter + 1
                     && (step.oldPath == "" <==> stored.oldPath.None?)
                     && (step.oldPath != "" ==> stored.oldPath == NormalizePath(rules, step.oldPath)))
  {
  }

  /** A completion removes the request of exactly this generation. */
  lemma CompletionAnswers(rules: PathRules, db: Db, step: Step)
    requires step.ScopeCompleted?
    ensures var after := CompleteScopeDb(rules, db, step.source, step.path, step.generation);
            var slot := Slot(step.source, rules.fold(step.path));
            && after == db.(scope := after.scope)
            && (forall other :: other in after.scope <==>
                  other in db.scope && !(other == slot && db.scope[slot].generation == step.generation))
            && (forall other :: other in after.scope ==> after.scope[other] == db.scope[other])
  {
  }
}
