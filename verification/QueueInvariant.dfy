/** Every operation of the queue keeps the invariant of its tables. */
module QueueInvariant {
  import opened Wrappers
  import opened Text
  import opened QueueModel

  /** An event gets a fresh generation; what was in flight at its key is now
      older than what is pending there. */
  lemma CaptureValid(rules: PathRules, db: Db, slot: Slot, path: string, kind: Kind, oldPath: Option<string>, now: Long)
    requires Valid(rules, db) && !kind.Unknown?
    requires slot.key == rules.fold(path)
    ensures var effect := Capture(rules, db, slot, path, kind, oldPath, now);
            effect.Ok? ==> Valid(rules, effect.value.0)
  {
    var effect := Capture(rules, db, slot, path, kind, oldPath, now);
    if effect.Ok? {
      var after := effect.value.0;
      var left := Depart(db.pending, slot, Departed(rules, db.pending, slot, kind, oldPath));
      var row := NewRow(rules, db, slot, path, kind, oldPath, now);
      assert after.pending == left[slot := row];
      forall s | s in left ensures s in db.pending && left[s] == db.pending[s] {}
      assert RowOk(rules, slot, row);
    }
  }

  lemma EnqueueValid(rules: PathRules, db: Db, source: string, path: string, kind: Kind, oldPath: string, now: Long)
    requires Valid(rules, db)
    ensures var effect := EnqueueDb(rules, db, source, path, kind, oldPath, now);
            effect.Ok? ==> Valid(rules, effect.value.0)
  {
    if LegalRequest(rules, source, path, kind, oldPath) {
      CaptureValid(rules, db, SlotOf(rules, source, path), NormalizePath(rules, path).value, kind, OldPath(rules, oldPath), now);
    }
  }

  /** Same rows up to columns that neither identify nor order events. */
  ghost predicate SameEvents(before: map<Slot, Row>, after: map<Slot, Row>) {
    forall s :: s in after ==> s in before && after[s].generation == before[s].generation
  }

  lemma ScanValid(rules: PathRules, db: Db, source: string, path: string, now: Long)
    requires Valid(rules, db)
    ensures var effect := ScanDb(rules, db, source, path, now);
            effect.Ok? ==> Valid(rules, effect.value.0)
  {
    if LegalRequest(rules, source, path, Create, "") {
      var slot := SlotOf(rules, source, path);
      if slot !in db.pending {
        CaptureValid(rules, db, slot, NormalizePath(rules, path).value, Create, None, now);
      } else {
        var row := db.pending[slot];
        assert RowOk(rules, slot, row);
        var after := db.pending[slot := Reopened(row, now)];
      }
    }
  }

  /** In a valid state the scan's guard never stops a held row from reopening:
      the row keeps its identity and gets a fresh try. */
  lemma ScanReopensHeld(rules: PathRules, db: Db, source: string, path: string, now: Long)
    requires Valid(rules, db) && LegalRequest(rules, source, path, Create, "")
    requires SlotOf(rules, source, path) in db.pending && db.pending[SlotOf(rules, source, path)].held
    ensures var slot := SlotOf(rules, source, path);
            var row := db.pending[slot];
            ScanDb(rules, db, source, path, now) ==
            Ok((db.(pending := db.pending[slot := row.(held := false, dirtySent := false,
                                                       dueAt := if row.dueAt < now then now else row.dueAt)]),
                row.generation))
  {
    var slot := SlotOf(rules, source, path);
    assert forall seat :: seat in db.items && Slot(seat.source, db.items[seat].key) == slot ==> !db.pending[slot].held;
    assert !KeyInFlight(db.items, slot);
  }

  lemma RowUpdateValid(rules: PathRules, db: Db, slot: Slot, row: Row)
    requires Valid(rules, db) && slot in db.pending && RowOk(rules, slot, row)
    requires row.generation == db.pending[slot].generation && row.held == db.pending[slot].held
    ensures Valid(rules, db.(pending := db.pending[slot := row]))
  {
  }

  lemma DelayValid(rules: PathRules, db: Db, e: Entry, now: Long, milliseconds: Long, stableCount: int)
    requires Valid(rules, db)
    ensures var effect := DelayDb(db, e, now, milliseconds, stableCount);
            effect.Ok? ==> Valid(rules, effect.value.0)
  {
    var slot := Slot(e.source, e.key);
    if Names(db, e) && InLong(now + milliseconds) {
      assert RowOk(rules, slot, db.pending[slot]);
      RowUpdateValid(rules, db, slot, db.pending[slot].(dueAt := now + milliseconds, stableCount := stableCount));
    }
  }

  lemma RememberValid(rules: PathRules, db: Db, e: Entry, fingerprint: string)
    requires Valid(rules, db)
    ensures var effect := RememberDb(db, e, fingerprint);
            effect.Ok? ==> Valid(rules, effect.value.0)
  {
    var slot := Slot(e.source, e.key);
    if Names(db, e) {
      assert RowOk(rules, slot, db.pending[slot]);
      RowUpdateValid(rules, db, slot, db.pending[slot].(fingerprint := Some(fingerprint)));
    }
  }

  /** Dropping one source's box together with its items keeps the batches. */
  lemma WithoutSourceBatches(outbox: map<string, Box>, items: map<Seat, Item>, source: string)
    requires BatchesOk(outbox, items)
    ensures BatchesOk(outbox - {source}, WithoutSource(items, source))
  {
    var rest := WithoutSource(items, source);
    forall other | other in outbox && other != source
      ensures SomeBatch(rest, other)
    {
      assert SomeBatch(items, other);
      var n :| 1 <= n <= MAX_BATCH && BatchOf(items, other, n);
      assert BatchOf(rest, other, n);
    }
  }

  /** Items go only with their whole source; a row may become held only there. */
  lemma InFlightWithout(pending: map<Slot, Row>, after: map<Slot, Row>, items: map<Seat, Item>, source: string)
    requires InFlightOk(pending, items) && SameEvents(pending, after)
    requires forall slot :: slot in after && slot.source != source ==> after[slot].held == pending[slot].held
    ensures InFlightOk(after, WithoutSource(items, source))
  {
  }

  lemma ResetValid(rules: PathRules, db: Db, source: string, now: Long)
    requires Valid(rules, db)
    ensures Valid(rules, ResetDb(db, source, now))
  {
    var after := ResetDb(db, source, now);
    ResetRowsOk(rules, db.pending, source, now);
    ClearValid(rules, db, after, source);
  }

  lemma ResetRowsOk(rules: PathRules, before: map<Slot, Row>, source: string, now: Long)
    requires RowsOk(rules, before)
    ensures RowsOk(rules, ResetRows(before, source, now)) && SameEvents(before, ResetRows(before, source, now))
  {
    var after := ResetRows(before, source, now);
    forall slot | slot in after
      ensures RowOk(rules, slot, after[slot])
    {
      assert RowOk(rules, slot, before[slot]);
    }
  }

  lemma ClearGenerations(db: Db, after: map<Slot, Row>, source: string)
    requires GenerationsOk(db.counter, db.pending, db.items, db.scope) && SameEvents(db.pending, after)
    ensures GenerationsOk(db.counter, after, WithoutSource(db.items, source), db.scope)
  {
  }

  /** Clearing a source's batch while every surviving row keeps its identity. */
  lemma ClearValid(rules: PathRules, db: Db, after: Db, source: string)
    requires BatchesOk(db.outbox, db.items) && GenerationsOk(db.counter, db.pending, db.items, db.scope)
    requires InFlightOk(db.pending, db.items) && ScopesOk(rules, db.scope)
    requires RowsOk(rules, after.pending) && SameEvents(db.pending, after.pending)
    requires after.counter == db.counter && after.scope == db.scope
    requires after.items == WithoutSource(db.items, source) && after.outbox == db.outbox - {source}
    requires forall slot :: slot in after.pending && slot.source != source ==> after.pending[slot].held == db.pending[slot].held
    ensures Valid(rules, after)
  {
    WithoutSourceBatches(db.outbox, db.items, source);
    ClearGenerations(db, after.pending, source);
    InFlightWithout(db.pending, after.pending, db.items, source);
  }

  lemma SoundBatch(db: Db, source: string, entries: seq<Entry>)
    requires !BadIdentity(db, source, entries) && !AnyStale(db, entries)
    ensures forall i :: 0 <= i < |entries| ==> !Stale(db, entries[i])
    ensures forall i :: 0 <= i < |entries| ==> entries[i].source == source
    ensures forall i, j :: 0 <= i < j < |entries| ==> entries[i].key != entries[j].key
  {
    forall i | 0 <= i < |entries| ensures !Stale(db, entries[i]) {}
    forall i | 0 <= i < |entries| ensures !Misplaced(source, entries, i) {}
    assert forall i :: 0 <= i < |entries| && !Misplaced(source, entries, i) ==> entries[i].source == source;
    forall i, j | 0 <= i < j < |entries|
      ensures entries[i].key != entries[j].key
    {
      assert !Misplaced(source, entries, j);
    }
  }

  lemma FreezeValid(rules: PathRules, db: Db, source: string, epoch: int, sequence: int, requestId: string, payload: string, entries: seq<Entry>)
    requires Valid(rules, db)
    ensures var effect := FreezeDb(db, source, epoch, sequence, requestId, payload, entries);
            effect.Ok? ==> Valid(rules, effect.value.0)
  {
    var effect := FreezeDb(db, source, epoch, sequence, requestId, payload, entries);
    if effect.Ok? && effect.value.1 {
      SoundBatch(db, source, entries);
      FreezeBatches(db.outbox, db.items, source, effect.value.0.outbox[source], entries);
      FreezeItems(db, source, entries);
      MoreInFlight(db.pending, db.items, Seats(source, entries));
      MoreGenerations(db, Seats(source, entries));
    }
  }

  lemma FreezeItems(db: Db, source: string, entries: seq<Entry>)
    requires GenerationsOk(db.counter, db.pending, db.items, db.scope)
    requires forall i :: 0 <= i < |entries| ==> !Stale(db, entries[i])
    requires forall i :: 0 <= i < |entries| ==> entries[i].source == source
    ensures InFlightOk(db.pending, Seats(source, entries))
    ensures forall seat :: seat in Seats(source, entries) ==> 1 <= Seats(source, entries)[seat].generation <= db.counter
  {
    var seats := Seats(source, entries);
    forall seat | seat in seats
      ensures var slot := Slot(seat.source, seats[seat].key);
              slot in db.pending && !db.pending[slot].held && seats[seat].generation == db.pending[slot].generation
    {
      assert !Stale(db, entries[seat.ordinal]);
    }
  }

  lemma MoreInFlight(pending: map<Slot, Row>, items: map<Seat, Item>, more: map<Seat, Item>)
    requires InFlightOk(pending, items) && InFlightOk(pending, more)
    ensures InFlightOk(pending, items + more)
  {
  }

  lemma MoreGenerations(db: Db, more: map<Seat, Item>)
    requires GenerationsOk(db.counter, db.pending, db.items, db.scope)
    requires forall seat :: seat in more ==> 1 <= more[seat].generation <= db.counter
    ensures GenerationsOk(db.counter, db.pending, db.items + more, db.scope)
  {
  }

  lemma FreezeBatches(outbox: map<string, Box>, items: map<Seat, Item>, source: string, box: Box, entries: seq<Entry>)
    requires BatchesOk(outbox, items) && source !in outbox && 1 <= |entries| <= MAX_BATCH
    requires forall i, j :: 0 <= i < j < |entries| ==> entries[i].key != entries[j].key
    ensures BatchesOk(outbox[source := box], items + Seats(source, entries))
  {
    var after := items + Seats(source, entries);
    assert BatchOf(after, source, |entries|);
    forall other | other in outbox
      ensures SomeBatch(after, other)
    {
      assert SomeBatch(items, other);
      var n :| 1 <= n <= MAX_BATCH && BatchOf(items, other, n);
      assert BatchOf(after, other, n);
    }
  }

  lemma AckValid(rules: PathRules, db: Db, source: string, requestId: string, outcomes: seq<int>, now: Long)
    requires Valid(rules, db)
    ensures var effect := AckDb(db, source, requestId, outcomes, now);
            effect.Ok? ==> Valid(rules, effect.value.0)
  {
    var effect := AckDb(db, source, requestId, outcomes, now);
    if effect.Ok? {
      AckRows(rules, db, effect.value.0.pending, source, outcomes, now);
      ClearValid(rules, db, effect.value.0, source);
    }
  }

  lemma AckRows(rules: PathRules, db: Db, after: map<Slot, Row>, source: string, outcomes: seq<int>, now: Long)
    requires RowsOk(rules, db.pending) && AckFault(outcomes, now, 0).None?
    requires forall slot :: slot in after ==> slot in db.pending && after[slot] == Settled(db, source, outcomes, now, slot)
    ensures RowsOk(rules, after)
  {
    forall slot | slot in after
      ensures RowOk(rules, slot, after[slot])
    {
      assert RowOk(rules, slot, db.pending[slot]);
      AckDue(db, source, outcomes, now, slot);
    }
  }

  lemma AckDue(db: Db, source: string, outcomes: seq<int>, now: Long, slot: Slot)
    requires slot in db.pending && AckFault(outcomes, now, 0).None?
    ensures Decides(db, source, outcomes, slot, 1) ==> InLong(now + RECHECK_MS)
  {
    if Decides(db, source, outcomes, slot, 1) {
      var i :| 0 <= i < |outcomes| && outcomes[i] == 1 && Matches(db, slot, i);
      NoFaultAt(outcomes, now, 0, i);
    }
  }

  lemma {:induction false} NoFaultAt(outcomes: seq<int>, now: int, from: nat, i: nat)
    requires from <= i < |outcomes| && AckFault(outcomes, now, from).None?
    ensures 0 <= outcomes[i] <= 3 && (outcomes[i] == 1 ==> InLong(now + RECHECK_MS))
    decreases i - from
  {
    if from < i { NoFaultAt(outcomes, now, from + 1, i); }
  }

  lemma RetryValid(rules: PathRules, db: Db, source: string, requestId: string, now: Long, permanent: bool)
    requires Valid(rules, db)
    ensures var effect := RetryDb(db, source, requestId, now, permanent);
            effect.Ok? ==> Valid(rules, effect.value.0)
  {
  }

  lemma EnqueueScopeValid(rules: PathRules, db: Db, source: string, path: string, oldPath: string, kind: string)
    requires Valid(rules, db)
    ensures var effect := EnqueueScopeDb(rules, db, source, path, oldPath, kind);
            effect.Ok? ==> Valid(rules, effect.value.0)
  {
  }

  lemma CompleteScopeValid(rules: PathRules, db: Db, source: string, path: string, generation: int)
    requires Valid(rules, db)
    ensures Valid(rules, CompleteScopeDb(rules, db, source, path, generation))
  {
  }
}
