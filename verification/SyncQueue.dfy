/** The queue itself: statement by statement over mutable tables. Each public
    method is one lock-protected step and is proved to leave exactly the tables
    and the answer that QueueModel prescribes. */
module SyncQueues {
  import opened Wrappers
  import opened Text
  import opened QueueModel
  import opened Selection

  class SyncQueue {
    const rules: PathRules
    var counter: int
    var pending: map<Slot, Row>
    var outbox: map<string, Box>
    var items: map<Seat, Item>
    var scope: map<Slot, Scope>

    function Tables(): Db
      reads this
    {
      Db(counter, pending, outbox, items, scope)
    }

    ghost predicate Valid()
      reads this
    {
      QueueModel.Valid(rules, Tables())
    }

    constructor (rules: PathRules)
      ensures this.rules == rules && Tables() == EMPTY && Valid()
    {
      this.rules := rules;
      counter, pending, outbox, items, scope := 0, map[], map[], map[], map[];
    }

    /** ROLLBACK */
    method Restore(saved: Db)
      modifies this
      ensures Tables() == saved
    {
      counter, pending, outbox, items, scope := saved.counter, saved.pending, saved.outbox, saved.items, saved.scope;
    }

    method Enqueue(source: string, path: string, kind: Kind, oldPath: string, now: Long) returns (r: Result<int>)
      modifies this
      ensures Leaves(EnqueueDb(rules, old(Tables()), source, path, kind, oldPath, now), old(Tables()), Tables(), r)
    {
      r := EnqueueCore(source, path, kind, oldPath, now, false);
    }

    method EnqueueScan(source: string, path: string, now: Long) returns (r: Result<int>)
      modifies this
      ensures Leaves(ScanDb(rules, old(Tables()), source, path, now), old(Tables()), Tables(), r)
    {
      r := EnqueueCore(source, path, Create, "", now, true);
    }

    method EnqueueCore(source: string, path: string, kind: Kind, oldPath: string, now: Long, scan: bool) returns (r: Result<int>)
      requires scan ==> kind == Create && oldPath == ""
      modifies this
      ensures scan ==> Leaves(ScanDb(rules, old(Tables()), source, path, now), old(Tables()), Tables(), r)
      ensures !scan ==> Leaves(EnqueueDb(rules, old(Tables()), source, path, kind, oldPath, now), old(Tables()), Tables(), r)
    {
      if IsBlank(source) || kind.Unknown? { return Throws(InvalidArgument); }
      var normalized := NormalizePath(rules, path);
      if normalized.None? { return Throws(InvalidArgument); }
      var origin: Option<string> := None;
      if oldPath != "" {
        origin := NormalizePath(rules, oldPath);
        if origin.None? { return Throws(InvalidArgument); }
      }
      var slot := Slot(source, rules.fold(normalized.value));
      if scan && slot in pending {
        var generation := Observe(slot, now);
        return Ok(generation);
      }
      r := Record(slot, normalized.value, kind, origin, now);
    }

    /** A scan that finds a pending row: reopen it if it is held and nothing of
        its key is in flight. */
    method Observe(slot: Slot, now: Long) returns (generation: int)
      requires slot in pending
      modifies this
      ensures generation == old(pending[slot].generation)
      ensures Tables() ==
              if old(pending[slot].held && !KeyInFlight(items, slot))
              then old(Tables()).(pending := old(pending)[slot := Reopened(old(pending[slot]), now)])
              else old(Tables())
    {
      generation := pending[slot].generation;
      if pending[slot].held && (forall seat :: seat in items ==> seat.source != slot.source || items[seat].key != slot.key) {
        var dueAt := if pending[slot].dueAt < now then now else pending[slot].dueAt;
        pending := pending[slot := pending[slot].(held := false, dirtySent := false, dueAt := dueAt)];
      }
    }

    /** Where an event at this slot comes from; a move takes over what the row it
        leaves behind remembered, and removes that row. */
    method Follow(slot: Slot, kind: Kind, oldPath: Option<string>) returns (origin: Option<string>)
      modifies this`pending
      ensures origin == Origin(rules, old(pending), slot, kind, oldPath)
      ensures pending == Depart(old(pending), slot, Departed(rules, old(pending), slot, kind, oldPath))
    {
      origin := oldPath;
      if origin.None? && slot in pending { origin := pending[slot].oldPath; }
      if kind == Move && origin.Some? {
        var left := Slot(slot.source, rules.fold(origin.value));
        if left in pending && pending[left].oldPath.Some? { origin := pending[left].oldPath; }
        if left != slot { pending := pending - {left}; }
      }
    }

    /** The transaction that captures one event. */
    method Record(slot: Slot, path: string, kind: Kind, oldPath: Option<string>, now: Long) returns (r: Result<int>)
      modifies this
      ensures Leaves(Capture(rules, old(Tables()), slot, path, kind, oldPath, now), old(Tables()), Tables(), r)
    {
      var saved := Tables();
      if counter >= MAX_LONG { return Throws(Overflow); }
      counter := counter + 1;
      var generation := counter;
      var stored := Store(slot, path, kind, oldPath, now, generation, saved);
      if !stored {
        Restore(saved);
        return Throws(Overflow);
      }
      return Ok(generation);
    }

    /** INSERT OR REPLACE of the event's row; false when its due time overflows. */
    method Store(slot: Slot, path: string, kind: Kind, oldPath: Option<string>, now: Long, generation: int, ghost saved: Db)
      returns (ok: bool)
      requires pending == saved.pending && generation == saved.counter + 1
      modifies this`pending
      ensures ok <==> InLong(NewRow(rules, saved, slot, path, kind, oldPath, now).dueAt)
      ensures ok ==>
                pending == Depart(saved.pending, slot, Departed(rules, saved.pending, slot, kind, oldPath))
                             [slot := NewRow(rules, saved, slot, path, kind, oldPath, now)]
    {
      var stored := kind;
      var initial := stored == Create && slot !in pending;
      if slot in pending && stored != Delete { initial := pending[slot].initial; }
      var origin := Follow(slot, kind, oldPath);
      if origin.Some? && stored == Upsert { stored := Move; }
      if stored == Create { stored := Upsert; }
      var dueAt: int := if stored == Delete || initial then now else now + QUIET_MS;
      if !InLong(dueAt) { return false; }
      pending := pending[slot := Row(path, stored, origin, generation, now, dueAt, 0, false, false, None, initial)];
      return true;
    }

    method Due(source: string, now: Long, limit: int) returns (r: Result<seq<Entry>>)
      requires Valid()
      ensures r.Ok? <==> 1 <= limit <= MAX_BATCH
      ensures r.Ok? ==> IsSelection(Tables(), source, now, limit, false, r.value)
      ensures r.Throws? ==> r.error == OutOfRange
    {
      r := Entries(source, now, limit, false);
    }

    method Dirty(source: string, limit: int) returns (r: Result<seq<Entry>>)
      requires Valid()
      ensures r.Ok? <==> 1 <= limit <= MAX_BATCH
      ensures r.Ok? ==> IsSelection(Tables(), source, 0, limit, true, r.value)
      ensures r.Throws? ==> r.error == OutOfRange
    {
      r := Entries(source, 0, limit, true);
    }

    method Entries(source: string, now: Long, limit: int, dirty: bool) returns (r: Result<seq<Entry>>)
      requires Valid()
      ensures r.Ok? <==> 1 <= limit <= MAX_BATCH
      ensures r.Ok? ==> IsSelection(Tables(), source, now, limit, dirty, r.value)
      ensures r.Throws? ==> r.error == OutOfRange
    {
      if limit < 1 || limit > MAX_BATCH { return Throws(OutOfRange); }
      var db := Tables();
      var rest := Qualifying(db, source, now, dirty);
      var result: seq<Entry> := [];
      while |result| < limit && rest != {}
        invariant |result| <= limit
        invariant forall e :: Selects(db, source, now, dirty, e) <==> e in rest || e in result
        invariant forall i, e :: 0 <= i < |result| && e in rest ==> Precedes(dirty, result[i], e)
        invariant forall i, j :: 0 <= i < j < |result| ==> Precedes(dirty, result[i], result[j])
        decreases limit - |result|
      {
        FirstExists(dirty, rest, db, source, now);
        var first :| IsFirst(dirty, rest, first);
        result := result + [first];
        rest := rest - {first};
      }
      return Ok(result);
    }

    method Delay(entry: Entry, now: Long, milliseconds: Long, stableCount: int) returns (r: Result<()>)
      modifies this
      ensures Leaves(DelayDb(old(Tables()), entry, now, milliseconds, stableCount), old(Tables()), Tables(), r)
    {
      var dueAt := now + milliseconds;
      if !InLong(dueAt) { return Throws(Overflow); }
      var slot := Slot(entry.source, entry.key);
      if slot in pending && pending[slot].generation == entry.generation {
        pending := pending[slot := pending[slot].(dueAt := dueAt, stableCount := stableCount)];
      }
      return Ok(());
    }

    method RememberFingerprint(entry: Entry, fingerprint: string) returns (r: Result<bool>)
      modifies this
      ensures Leaves(RememberDb(old(Tables()), entry, fingerprint), old(Tables()), Tables(), r)
    {
      if Utf16Length(fingerprint) != FINGERPRINT_LENGTH { return Throws(InvalidArgument); }
      var slot := Slot(entry.source, entry.key);
      if slot in pending && pending[slot].generation == entry.generation {
        pending := pending[slot := pending[slot].(fingerprint := Some(fingerprint))];
      }
      return Ok(slot in pending && pending[slot].generation == entry.generation && pending[slot].fingerprint == Some(fingerprint));
    }

    method ResetForNewEpoch(source: string, now: Long)
      modifies this
      ensures Tables() == ResetDb(old(Tables()), source, now)
    {
      items := map seat | seat in items && seat.source != source :: items[seat];
      outbox := outbox - {source};
      pending := map slot | slot in pending ::
        var row := pending[slot];
        if slot.source != source then row
        else row.(dirtySent := false, stableCount := 0, fingerprint := None,
                  dueAt := if row.kind == Delete || row.initial then now
                           else if row.changedAt + QUIET_MS > now then row.changedAt + QUIET_MS
                           else now);
    }

    method Freeze(source: string, epoch: Long, sequence: Long, requestId: string, payload: string, entries: seq<Entry>)
      returns (r: Result<bool>)
      modifies this
      ensures Leaves(FreezeDb(old(Tables()), source, epoch, sequence, requestId, payload, entries), old(Tables()), Tables(), r)
    {
      if |entries| == 0 || |entries| > MAX_BATCH || Utf8Length(payload) > MAX_PAYLOAD { return Throws(InvalidArgument); }
      var saved := Tables();
      if source in outbox { return Ok(false); }
      r := CheckEntries(source, entries);
      if r != Ok(true) { return r; }
      outbox := outbox[source := Box(epoch, sequence, requestId, payload, 0, 0, false)];
      var inserted := InsertItems(source, entries);
      if !inserted {
        Restore(saved);
        return Throws(Constraint);
      }
      return Ok(true);
    }

    /** Ok(true) when every entry is still the live event of its own key. */
    method CheckEntries(source: string, entries: seq<Entry>) returns (r: Result<bool>)
      ensures r == if BadIdentity(Tables(), source, entries) then Throws(InvalidArgument)
                   else Ok(!AnyStale(Tables(), entries))
    {
      var seen: set<string> := {};
      for i := 0 to |entries|
        invariant seen == set j | 0 <= j < i :: entries[j].key
        invariant forall j :: 0 <= j < i ==> !Misplaced(source, entries, j) && !Stale(Tables(), entries[j])
      {
        var entry := entries[i];
        if entry.source != source || entry.key in seen {
          assert Misplaced(source, entries, i);
          return Throws(InvalidArgument);
        }
        seen := seen + {entry.key};
        var slot := Slot(source, entry.key);
        if slot !in pending || pending[slot].held || pending[slot].generation != entry.generation {
          assert Stale(Tables(), entries[i]);
          assert !Misplaced(source, entries, i);
          return Ok(false);
        }
      }
      return Ok(true);
    }

    /** Insert the items one by one; a taken primary key stops the loop. */
    method InsertItems(source: string, entries: seq<Entry>) returns (ok: bool)
      modifies this`items
      ensures ok <==> forall i :: 0 <= i < |entries| ==> Seat(source, i) !in old(items)
      ensures ok ==> items == old(items) + Seats(source, entries)
    {
      for i := 0 to |entries|
        invariant forall j :: 0 <= j < i ==> Seat(source, j) !in old(items)
        invariant forall seat :: seat in items <==> seat in old(items) || (seat.source == source && 0 <= seat.ordinal < i)
        invariant forall seat :: seat in items ==>
                    items[seat] == if seat.source == source && 0 <= seat.ordinal < i
                                   then Item(entries[seat.ordinal].key, entries[seat.ordinal].generation)
                                   else old(items)[seat]
      {
        if Seat(source, i) in items { return false; }
        items := items[Seat(source, i) := Item(entries[i].key, entries[i].generation)];
      }
      return true;
    }

    /** SELECT ... FROM outbox_item WHERE source = ? ORDER BY ordinal */
    static method SelectItems(items: map<Seat, Item>, source: string, ghost n: nat) returns (rows: seq<Item>)
      requires BatchOf(items, source, n)
      ensures |rows| == n
      ensures forall i :: 0 <= i < n ==> rows[i] == items[Seat(source, i)]
    {
      var rest := set seat | seat in items && seat.source == source;
      rows := [];
      while rest != {}
        invariant |rows| <= n
        invariant forall seat :: seat in rest <==> seat in items && seat.source == source && |rows| <= seat.ordinal
        invariant forall i :: 0 <= i < |rows| ==> rows[i] == items[Seat(source, i)]
        decreases n - |rows|
      {
        LeastSeat(items, source, n, |rows|, rest);
        var seat :| seat in rest && forall other :: other in rest ==> seat.ordinal <= other.ordinal;
        rows := rows + [items[seat]];
        rest := rest - {seat};
      }
      assert |rows| < n ==> Seat(source, |rows|) in rest;
    }

    method Acknowledge(source: string, requestId: string, outcomes: seq<int>, now: Long) returns (r: Result<()>)
      requires BatchesOk(outbox, items)
      modifies this
      ensures Leaves(AckDb(old(Tables()), source, requestId, outcomes, now), old(Tables()), Tables(), r)
    {
      var saved := Tables();
      if source !in outbox || outbox[source].requestId != requestId { return Throws(InvalidOperation); }
      assert SomeBatch(items, source);
      var entries := SelectItems(items, source, BatchSize(items, source));
      if |outcomes| != |entries| { return Throws(InvalidArgument); }
      r := Settle(source, entries, outcomes, now);
      if r.Throws? {
        Restore(saved);
        return;
      }
      AppliedAll(saved, source, outcomes, now, pending);
      items := map seat | seat in items && seat.source != source :: items[seat];
      outbox := outbox - {source};
    }

    /** The body of the acknowledgement loop: one UPDATE or DELETE per item. */
    method Settle(source: string, entries: seq<Item>, outcomes: seq<int>, now: Long) returns (r: Result<()>)
      requires BatchesOk(outbox, items)
      requires |outcomes| == |entries|
      requires forall i :: 0 <= i < |entries| ==> Seat(source, i) in items && entries[i] == items[Seat(source, i)]
      modifies this`pending
      ensures r == match AckFault(outcomes, now, 0) case Some(error) => Throws(error) case None => Ok(())
      ensures r.Ok? ==> Applied(old(Tables()), source, outcomes, now, |outcomes|, pending)
    {
      ghost var saved := Tables();
      for i := 0 to |entries|
        invariant AckFault(outcomes, now, 0) == AckFault(outcomes, now, i)
        invariant Applied(saved, source, outcomes, now, i, pending)
      {
        var slot := Slot(source, entries[i].key);
        var hit := slot in pending && pending[slot].generation == entries[i].generation;
        ghost var before := pending;
        if outcomes[i] == 0 {
          if hit { pending := pending[slot := pending[slot].(dirtySent := true)]; }
        } else if outcomes[i] == 1 {
          if !InLong(now + RECHECK_MS) { return Throws(Overflow); }
          if hit { pending := pending[slot := pending[slot].(dirtySent := true, stableCount := 1, dueAt := now + RECHECK_MS)]; }
        } else if outcomes[i] == 2 {
          if hit { pending := pending - {slot}; }
        } else if outcomes[i] == 3 {
          if hit { pending := pending[slot := pending[slot].(held := true)]; }
        } else {
          return Throws(InvalidArgument);
        }
        ApplyNext(saved, source, outcomes, now, i, before, pending);
      }
      return Ok(());
    }

    method Retry(source: string, requestId: string, now: Long, permanent: bool) returns (r: Result<()>)
      modifies this
      ensures Leaves(RetryDb(old(Tables()), source, requestId, now, permanent), old(Tables()), Tables(), r)
    {
      if source !in outbox || outbox[source].requestId != requestId { return Throws(InvalidOperation); }
      var box := outbox[source];
      var delay := 5000 * Pow2(if box.attempts < 6 then box.attempts else 6);
      if delay > 300000 { delay := 300000; }
      if !InLong(now + delay) { return Throws(Overflow); }
      outbox := outbox[source := box.(attempts := box.attempts + 1, nextAttemptAt := now + delay, held := permanent)];
      return Ok(());
    }

    method EnqueueScope(source: string, path: string, oldPath: string, kind: string) returns (r: Result<()>)
      modifies this
      ensures Leaves(EnqueueScopeDb(rules, old(Tables()), source, path, oldPath, kind), old(Tables()), Tables(), r)
    {
      var stored := Some("");
      if kind != "recovery" {
        stored := NormalizePath(rules, path);
        if stored.None? { return Throws(InvalidArgument); }
      }
      var origin: Option<string> := None;
      if oldPath != "" {
        origin := NormalizePath(rules, oldPath);
        if origin.None? { return Throws(InvalidArgument); }
      }
      if counter >= MAX_LONG { return Throws(Overflow); }
      counter := counter + 1;
      scope := scope[Slot(source, rules.fold(stored.value)) := Scope(stored.value, origin, kind, counter)];
      return Ok(());
    }

    method CompleteScope(source: string, path: string, generation: int)
      modifies this
      ensures Tables() == CompleteScopeDb(rules, old(Tables()), source, path, generation)
    {
      var slot := Slot(source, rules.fold(path));
      if slot in scope && scope[slot].generation == generation {
        scope := scope - {slot};
      }
    }
  }
}
