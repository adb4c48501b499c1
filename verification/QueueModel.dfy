/** The durable state of the sync queue and, for every operation, the state and
    the answer it must leave behind. Tables are maps from their primary key;
    a failed operation leaves the tables as they were. */
module QueueModel {
  import opened Wrappers
  import opened Text

  const MIN_LONG: int := -0x8000_0000_0000_0000
  const MAX_LONG: int := 0x7FFF_FFFF_FFFF_FFFF
  const QUIET_MS: int := 120000
  const RECHECK_MS: int := 10000
  const MAX_BATCH: int := 250
  const MAX_PAYLOAD: int := 1048576
  const FINGERPRINT_LENGTH: int := 64

  type Long = x: int | MIN_LONG <= x <= MAX_LONG

  predicate InLong(x: int) { MIN_LONG <= x <= MAX_LONG }

  datatype Error = InvalidArgument | OutOfRange | InvalidOperation | Overflow | Constraint

  datatype Result<+T> = Ok(value: T) | Throws(error: Error)

  /** An operation of a transaction: either the new tables and an answer, or an
      error and the tables as they were. */
  type Effect<T> = Result<(Db, T)>

  ghost predicate Leaves<T>(effect: Effect<T>, before: Db, after: Db, answer: Result<T>) {
    match effect
    case Ok(done) => after == done.0 && answer == Ok(done.1)
    case Throws(error) => after == before && answer == Throws(error)
  }

  // ---------------------------------------------------------------- tables

  // Unknown stands for every other string a caller may pass.
  datatype Kind = Create | Upsert | Delete | Move | Unknown(text: string)

  // Primary key (source, path_key) of the pending and scope tables.
  datatype Slot = Slot(source: string, key: string)

  // Primary key (source, ordinal) of the outbox_item table.
  datatype Seat = Seat(source: string, ordinal: int)

  // `held` is column state = 1.
  datatype Row = Row(
    path: string, kind: Kind, oldPath: Option<string>, generation: int,
    changedAt: int, dueAt: int, stableCount: int, dirtySent: bool, held: bool,
    fingerprint: Option<string>, initial: bool)

  datatype Box = Box(
    epoch: int, sequence: int, requestId: string, payload: string,
    attempts: nat, nextAttemptAt: int, held: bool)

  datatype Item = Item(key: string, generation: int)

  datatype Scope = Scope(path: string, oldPath: Option<string>, kind: string, generation: int)

  datatype Entry = Entry(
    source: string, path: string, key: string, kind: Kind, oldPath: Option<string>,
    generation: int, changedAt: int, dueAt: int, stableCount: int,
    fingerprint: Option<string>, initial: bool)

  datatype Db = Db(
    counter: int,
    pending: map<Slot, Row>,
    outbox: map<string, Box>,
    items: map<Seat, Item>,
    scope: map<Slot, Scope>)

  const EMPTY := Db(0, map[], map[], map[], map[])

  // ------------------------------------------------------------- invariant

  /** The ordinals of a source's items are exactly 0..n-1. */
  ghost predicate BatchOf(items: map<Seat, Item>, source: string, n: int) {
    && (forall seat :: seat in items && seat.source == source ==> 0 <= seat.ordinal < n)
    && (forall i :: 0 <= i < n ==> Seat(source, i) in items)
  }

  ghost predicate SomeBatch(items: map<Seat, Item>, source: string) {
    exists n :: 1 <= n <= MAX_BATCH && BatchOf(items, source, n)
  }

  ghost predicate BatchesOk(outbox: map<string, Box>, items: map<Seat, Item>) {
    && (forall seat :: seat in items ==> seat.source in outbox)
    && (forall source :: source in outbox ==> SomeBatch(items, source))
    && (forall source, i, j :: Seat(source, i) in items && Seat(source, j) in items && i != j
          ==> items[Seat(source, i)].key != items[Seat(source, j)].key)
  }

  ghost predicate GenerationsOk(counter: int, pending: map<Slot, Row>, items: map<Seat, Item>, scope: map<Slot, Scope>) {
    && 0 <= counter <= MAX_LONG
    && (forall slot :: slot in pending ==> 1 <= pending[slot].generation <= counter)
    && (forall slot :: slot in scope ==> 1 <= scope[slot].generation <= counter)
    && (forall seat :: seat in items ==> 1 <= items[seat].generation <= counter)
  }

  ghost predicate DistinctOk(pending: map<Slot, Row>, scope: map<Slot, Scope>) {
    && (forall a, b :: a in pending && b in pending && a != b ==> pending[a].generation != pending[b].generation)
    && (forall a, b :: a in scope && b in scope && a != b ==> scope[a].generation != scope[b].generation)
    && (forall a, b :: a in pending && b in scope ==> pending[a].generation != scope[b].generation)
  }

  /** Whatever is in flight is either gone from pending or live there with the
      same or a newer generation. */
  ghost predicate InFlightOk(pending: map<Slot, Row>, items: map<Seat, Item>) {
    forall seat :: seat in items && Slot(seat.source, items[seat].key) in pending ==>
      var row := pending[Slot(seat.source, items[seat].key)];
      !row.held && items[seat].generation <= row.generation
  }

  ghost predicate RowOk(rules: PathRules, slot: Slot, row: Row) {
    && slot.key == rules.fold(row.path)
    && (row.kind == Upsert || row.kind == Delete || row.kind == Move)
    && InLong(row.changedAt) && InLong(row.dueAt)
    && (row.kind != Delete && !row.initial ==> InLong(row.changedAt + QUIET_MS))
  }

  ghost predicate RowsOk(rules: PathRules, pending: map<Slot, Row>) {
    forall slot :: slot in pending ==> RowOk(rules, slot, pending[slot])
  }

  ghost predicate ScopesOk(rules: PathRules, scope: map<Slot, Scope>) {
    forall slot :: slot in scope ==> slot.key == rules.fold(scope[slot].path)
  }

  ghost predicate Valid(rules: PathRules, db: Db) {
    && BatchesOk(db.outbox, db.items)
    && GenerationsOk(db.counter, db.pending, db.items, db.scope)
    && InFlightOk(db.pending, db.items)
    && RowsOk(rules, db.pending)
    && ScopesOk(rules, db.scope)
  }

  // --------------------------------------------------------------- enqueue

  /** The old path an event starts from: its own, or the one an earlier event
      at the same key still remembers. */
  function FirstOrigin(pending: map<Slot, Row>, slot: Slot, oldPath: Option<string>): Option<string> {
    if oldPath.None? && slot in pending then pending[slot].oldPath else oldPath
  }

  /** The key a move leaves behind, if it leaves one. */
  function Departed(rules: PathRules, pending: map<Slot, Row>, slot: Slot, kind: Kind, oldPath: Option<string>): Option<Slot> {
    var origin := FirstOrigin(pending, slot, oldPath);
    if kind == Move && origin.Some? then Some(Slot(slot.source, rules.fold(origin.value))) else None
  }

  /** The old path the new row records: a move inherits what the row it leaves
      behind remembered. */
  function Origin(rules: PathRules, pending: map<Slot, Row>, slot: Slot, kind: Kind, oldPath: Option<string>): Option<string> {
    var first := FirstOrigin(pending, slot, oldPath);
    match Departed(rules, pending, slot, kind, oldPath)
    case Some(left) => if left in pending && pending[left].oldPath.Some? then pending[left].oldPath else first
    case None => first
  }

  function StoredKind(kind: Kind, origin: Option<string>): Kind {
    if kind == Upsert && origin.Some? then Move else if kind == Create then Upsert else kind
  }

  function StoredInitial(pending: map<Slot, Row>, slot: Slot, kind: Kind): bool {
    kind != Delete && if slot in pending then pending[slot].initial else kind == Create
  }

  function NewRow(rules: PathRules, db: Db, slot: Slot, path: string, kind: Kind, oldPath: Option<string>, now: int): Row {
    var origin := Origin(rules, db.pending, slot, kind, oldPath);
    var initial := StoredInitial(db.pending, slot, kind);
    Row(path, StoredKind(kind, origin), origin, db.counter + 1, now,
        if kind == Delete || initial then now else now + QUIET_MS,
        0, false, false, None, initial)
  }

  function Depart(pending: map<Slot, Row>, slot: Slot, left: Option<Slot>): map<Slot, Row> {
    if left.Some? && left.value != slot then pending - {left.value} else pending
  }

  /** An event at a normalized path. */
  function Capture(rules: PathRules, db: Db, slot: Slot, path: string, kind: Kind, oldPath: Option<string>, now: int): Effect<int> {
    var row := NewRow(rules, db, slot, path, kind, oldPath, now);
    if db.counter >= MAX_LONG || !InLong(row.dueAt) then Throws(Overflow)
    else
      var left := Departed(rules, db.pending, slot, kind, oldPath);
      Ok((db.(counter := db.counter + 1, pending := Depart(db.pending, slot, left)[slot := row]), row.generation))
  }

  predicate LegalRequest(rules: PathRules, source: string, path: string, kind: Kind, oldPath: string) {
    && !IsBlank(source)
    && !kind.Unknown?
    && NormalizePath(rules, path).Some?
    && (oldPath != "" ==> NormalizePath(rules, oldPath).Some?)
  }

  function OldPath(rules: PathRules, oldPath: string): Option<string> {
    if oldPath == "" then None else NormalizePath(rules, oldPath)
  }

  function SlotOf(rules: PathRules, source: string, path: string): Slot
    requires NormalizePath(rules, path).Some?
  {
    Slot(source, rules.fold(NormalizePath(rules, path).value))
  }

  function EnqueueDb(rules: PathRules, db: Db, source: string, path: string, kind: Kind, oldPath: string, now: int): Effect<int> {
    if !LegalRequest(rules, source, path, kind, oldPath) then Throws(InvalidArgument)
    else
      var slot := SlotOf(rules, source, path);
      Capture(rules, db, slot, NormalizePath(rules, path).value, kind, OldPath(rules, oldPath), now)
  }

  ghost predicate KeyInFlight(items: map<Seat, Item>, slot: Slot) {
    exists seat :: seat in items && seat.source == slot.source && items[seat].key == slot.key
  }

  function Reopened(row: Row, now: int): Row {
    row.(held := false, dirtySent := false, dueAt := if row.dueAt < now then now else row.dueAt)
  }

  ghost function ScanDb(rules: PathRules, db: Db, source: string, path: string, now: int): Effect<int> {
    if !LegalRequest(rules, source, path, Create, "") then Throws(InvalidArgument)
    else
      var slot := SlotOf(rules, source, path);
      if slot in db.pending then
        var row := db.pending[slot];
        if row.held && !KeyInFlight(db.items, slot) then
          Ok((db.(pending := db.pending[slot := Reopened(row, now)]), row.generation))
        else Ok((db, row.generation))
      else Capture(rules, db, slot, NormalizePath(rules, path).value, Create, None, now)
  }

  // ------------------------------------------------- selecting and freezing

  predicate Selectable(db: Db, source: string, now: int, dirty: bool, key: string) {
    && Slot(source, key) in db.pending
    && source !in db.outbox
    && var row := db.pending[Slot(source, key)];
       !row.held && if dirty then !row.dirtySent else row.dueAt <= now
  }

  function EntryOf(source: string, key: string, row: Row): Entry {
    Entry(source, row.path, key, row.kind, row.oldPath, row.generation, row.changedAt,
          row.dueAt, row.stableCount, row.fingerprint, row.initial)
  }

  /** ORDER BY: second observations first (Due only), then due time, then key. */
  predicate Precedes(dirty: bool, a: Entry, b: Entry) {
    var ra := if dirty || a.stableCount > 0 then 0 else 1;
    var rb := if dirty || b.stableCount > 0 then 0 else 1;
    ra < rb || (ra == rb && (a.dueAt < b.dueAt || (a.dueAt == b.dueAt && TextBefore(a.key, b.key))))
  }

  ghost predicate Selects(db: Db, source: string, now: int, dirty: bool, e: Entry) {
    && Selectable(db, source, now, dirty, e.key)
    && e == EntryOf(source, e.key, db.pending[Slot(source, e.key)])
  }

  /** What the ordered, limited SELECT answers: rows that qualify, in strict
      order, and everything left out comes later than everything returned. */
  ghost predicate IsSelection(db: Db, source: string, now: int, limit: int, dirty: bool, result: seq<Entry>) {
    && |result| <= limit
    && (forall i :: 0 <= i < |result| ==> Selects(db, source, now, dirty, result[i]))
    && (forall i, j :: 0 <= i < j < |result| ==> Precedes(dirty, result[i], result[j]))
    && (forall e :: Selects(db, source, now, dirty, e) && e !in result ==>
          |result| == limit && forall i :: 0 <= i < |result| ==> Precedes(dirty, result[i], e))
  }

  predicate Stale(db: Db, e: Entry) {
    var slot := Slot(e.source, e.key);
    slot !in db.pending || db.pending[slot].held || db.pending[slot].generation != e.generation
  }

  predicate Misplaced(source: string, entries: seq<Entry>, i: int)
    requires 0 <= i < |entries|
  {
    entries[i].source != source || exists j :: 0 <= j < i && entries[j].key == entries[i].key
  }

  /** Some entry is foreign or repeated, and nothing before it was stale. */
  ghost predicate BadIdentity(db: Db, source: string, entries: seq<Entry>) {
    exists i :: 0 <= i < |entries| && Misplaced(source, entries, i) && forall j :: 0 <= j < i ==> !Stale(db, entries[j])
  }

  ghost predicate AnyStale(db: Db, entries: seq<Entry>) {
    exists i :: 0 <= i < |entries| && Stale(db, entries[i])
  }

  predicate LegalBatch(payload: string, entries: seq<Entry>) {
    0 < |entries| <= MAX_BATCH && Utf8Length(payload) <= MAX_PAYLOAD
  }

  /** The items a batch is stored as. */
  ghost function Seats(source: string, entries: seq<Entry>): (m: map<Seat, Item>)
    ensures forall seat :: seat in m <==> seat.source == source && 0 <= seat.ordinal < |entries|
    ensures forall seat :: seat in m ==> m[seat] == Item(entries[seat.ordinal].key, entries[seat.ordinal].generation)
  {
    map i | 0 <= i < |entries| :: Seat(source, i) := Item(entries[i].key, entries[i].generation)
  }

  ghost function FreezeDb(db: Db, source: string, epoch: int, sequence: int, requestId: string, payload: string, entries: seq<Entry>): Effect<bool> {
    if !LegalBatch(payload, entries) then Throws(InvalidArgument)
    else if source in db.outbox then Ok((db, false))
    else if BadIdentity(db, source, entries) then Throws(InvalidArgument)
    else if AnyStale(db, entries) then Ok((db, false))
    else if exists i :: 0 <= i < |entries| && Seat(source, i) in db.items then Throws(Constraint)
    else Ok((db.(outbox := db.outbox[source := Box(epoch, sequence, requestId, payload, 0, 0, false)],
                 items := db.items + Seats(source, entries)), true))
  }

  // -------------------------------------------------------- acknowledgement

  /** Number of frozen items of a source. */
  ghost function BatchSize(items: map<Seat, Item>, source: string): (n: int)
    ensures SomeBatch(items, source) ==> 1 <= n <= MAX_BATCH && BatchOf(items, source, n)
  {
    if SomeBatch(items, source) then
      var n :| 1 <= n <= MAX_BATCH && BatchOf(items, source, n); n
    else 0
  }

  /** The first outcome that cannot be applied decides the error. */
  function AckFault(outcomes: seq<int>, now: int, i: nat): Option<Error>
    requires i <= |outcomes|
    decreases |outcomes| - i
  {
    if i == |outcomes| then None
    else if !(0 <= outcomes[i] <= 3) then Some(InvalidArgument)
    else if outcomes[i] == 1 && !InLong(now + RECHECK_MS) then Some(Overflow)
    else AckFault(outcomes, now, i + 1)
  }

  /** Item i of the batch is the event pending at this slot. */
  ghost predicate Matches(db: Db, slot: Slot, i: int) {
    && slot in db.pending
    && Seat(slot.source, i) in db.items
    && db.items[Seat(slot.source, i)] == Item(slot.key, db.pending[slot].generation)
  }

  /** The acknowledgement decides this slot with outcome o. */
  ghost predicate Decides(db: Db, source: string, outcomes: seq<int>, slot: Slot, o: int) {
    slot.source == source && exists i :: 0 <= i < |outcomes| && outcomes[i] == o && Matches(db, slot, i)
  }

  ghost function Settled(db: Db, source: string, outcomes: seq<int>, now: int, slot: Slot): Row
    requires slot in db.pending
  {
    var row := db.pending[slot];
    if Decides(db, source, outcomes, slot, 0) then row.(dirtySent := true)
    else if Decides(db, source, outcomes, slot, 1) then row.(dirtySent := true, stableCount := 1, dueAt := now + RECHECK_MS)
    else if Decides(db, source, outcomes, slot, 3) then row.(held := true)
    else row
  }

  function WithoutSource(items: map<Seat, Item>, source: string): map<Seat, Item> {
    map seat | seat in items && seat.source != source :: items[seat]
  }

  ghost function AckFailure(db: Db, source: string, requestId: string, outcomes: seq<int>, now: int): Option<Error>
  {
    if source !in db.outbox || db.outbox[source].requestId != requestId then Some(InvalidOperation)
    else if |outcomes| != BatchSize(db.items, source) then Some(InvalidArgument)
    else AckFault(outcomes, now, 0)
  }

  /** One simultaneous update of the whole batch. */
  ghost function AckDb(db: Db, source: string, requestId: string, outcomes: seq<int>, now: int): Effect<()>
  {
    match AckFailure(db, source, requestId, outcomes, now)
    case Some(error) => Throws(error)
    case None =>
      Ok((db.(pending := map slot | slot in db.pending && !Decides(db, source, outcomes, slot, 2)
                          :: Settled(db, source, outcomes, now, slot),
             items := WithoutSource(db.items, source),
             outbox := db.outbox - {source}), ()))
  }

  // ------------------------------------------------------ other operations

  predicate Names(db: Db, e: Entry) {
    var slot := Slot(e.source, e.key);
    slot in db.pending && db.pending[slot].generation == e.generation
  }

  function DelayDb(db: Db, e: Entry, now: int, milliseconds: int, stableCount: int): Effect<()> {
    if !InLong(now + milliseconds) then Throws(Overflow)
    else if !Names(db, e) then Ok((db, ()))
    else
      var slot := Slot(e.source, e.key);
      Ok((db.(pending := db.pending[slot := db.pending[slot].(dueAt := now + milliseconds, stableCount := stableCount)]), ()))
  }

  function RememberDb(db: Db, e: Entry, fingerprint: string): Effect<bool> {
    if Utf16Length(fingerprint) != FINGERPRINT_LENGTH then Throws(InvalidArgument)
    else if !Names(db, e) then Ok((db, false))
    else
      var slot := Slot(e.source, e.key);
      Ok((db.(pending := db.pending[slot := db.pending[slot].(fingerprint := Some(fingerprint))]), true))
  }

  function ResetRow(row: Row, now: int): Row {
    row.(dirtySent := false, stableCount := 0, fingerprint := None,
         dueAt := if row.kind == Delete || row.initial then now
                  else if row.changedAt + QUIET_MS > now then row.changedAt + QUIET_MS else now)
  }

  function ResetRows(pending: map<Slot, Row>, source: string, now: int): (after: map<Slot, Row>)
    ensures after.Keys == pending.Keys
    ensures forall slot :: slot in after ==>
              after[slot] == if slot.source == source then ResetRow(pending[slot], now) else pending[slot]
  {
    map slot | slot in pending :: if slot.source == source then ResetRow(pending[slot], now) else pending[slot]
  }

  function ResetDb(db: Db, source: string, now: int): Db {
    db.(pending := ResetRows(db.pending, source, now),
        items := WithoutSource(db.items, source),
        outbox := db.outbox - {source})
  }

  function Pow2(n: nat): nat { if n == 0 then 1 else 2 * Pow2(n - 1) }

  function Backoff(attempts: nat): nat {
    var delay := 5000 * Pow2(if attempts < 6 then attempts else 6);
    if delay < 300000 then delay else 300000
  }

  function RetryDb(db: Db, source: string, requestId: string, now: int, permanent: bool): Effect<()> {
    if source !in db.outbox || db.outbox[source].requestId != requestId then Throws(InvalidOperation)
    else
      var box := db.outbox[source];
      var at := now + Backoff(box.attempts);
      if !InLong(at) then Throws(Overflow)
      else Ok((db.(outbox := db.outbox[source := box.(attempts := box.attempts + 1, nextAttemptAt := at, held := permanent)]), ()))
  }

  function ScopePath(rules: PathRules, path: string, kind: string): Option<string> {
    if kind == "recovery" then Some("") else NormalizePath(rules, path)
  }

  function EnqueueScopeDb(rules: PathRules, db: Db, source: string, path: string, oldPath: string, kind: string): Effect<()> {
    var p := ScopePath(rules, path, kind);
    var origin := OldPath(rules, oldPath);
    if p.None? || (oldPath != "" && origin.None?) then Throws(InvalidArgument)
    else if db.counter >= MAX_LONG then Throws(Overflow)
    else Ok((db.(counter := db.counter + 1,
                 scope := db.scope[Slot(source, rules.fold(p.value)) := Scope(p.value, origin, kind, db.counter + 1)]), ()))
  }

  function CompleteScopeDb(rules: PathRules, db: Db, source: string, path: string, generation: int): Db {
    var slot := Slot(source, rules.fold(path));
    if slot in db.scope && db.scope[slot].generation == generation then db.(scope := db.scope - {slot}) else db
  }
}
