/** Facts behind the two loops of the queue that build a batch and settle one. */
module Selection {
  import opened Text
  import opened QueueModel

  lemma PrecedesIsStrict(dirty: bool, a: Entry, b: Entry, c: Entry)
    ensures !Precedes(dirty, a, a)
    ensures Precedes(dirty, a, b) && Precedes(dirty, b, c) ==> Precedes(dirty, a, c)
    ensures a.key != b.key ==> Precedes(dirty, a, b) || Precedes(dirty, b, a)
  {
    TextOrderStrict(a.key, b.key, c.key);
    TextOrderTotal(a.key, b.key);
  }

  /** The rows of the WHERE clause. */
  function Qualifying(db: Db, source: string, now: int, dirty: bool): (rows: set<Entry>)
    ensures forall e :: e in rows <==> Selects(db, source, now, dirty, e)
  {
    set slot | slot in db.pending && slot.source == source && Selectable(db, source, now, dirty, slot.key)
      :: EntryOf(source, slot.key, db.pending[slot])
  }

  predicate IsFirst(dirty: bool, rest: set<Entry>, first: Entry) {
    first in rest && forall e :: e in rest && e != first ==> Precedes(dirty, first, e)
  }

  lemma NewFirst(dirty: bool, others: set<Entry>, y: Entry, x: Entry)
    requires IsFirst(dirty, others, y) && Precedes(dirty, x, y)
    ensures IsFirst(dirty, others + {x}, x)
  {
    forall e | e in others && e != x ensures Precedes(dirty, x, e) { PrecedesIsStrict(dirty, x, y, e); }
  }

  lemma SameFirst(dirty: bool, others: set<Entry>, y: Entry, x: Entry)
    requires IsFirst(dirty, others, y) && Precedes(dirty, y, x)
    ensures IsFirst(dirty, others + {x}, y)
  {
  }

  /** Entries with distinct keys always have a first one. */
  lemma {:induction false} FirstOf(dirty: bool, rest: set<Entry>)
    requires rest != {}
    requires forall a, b :: a in rest && b in rest && a != b ==> a.key != b.key
    ensures exists first :: IsFirst(dirty, rest, first)
    decreases rest
  {
    var x :| x in rest;
    var others := rest - {x};
    assert rest == others + {x};
    if others == {} {
      assert IsFirst(dirty, rest, x);
    } else {
      FirstOf(dirty, others);
      var y :| IsFirst(dirty, others, y);
      PrecedesIsStrict(dirty, x, y, y);
      if Precedes(dirty, x, y) { NewFirst(dirty, others, y, x); } else { SameFirst(dirty, others, y, x); }
    }
  }

  /** Qualifying rows of one source always have a first one. */
  lemma FirstExists(dirty: bool, rest: set<Entry>, db: Db, source: string, now: int)
    requires rest != {}
    requires forall e :: e in rest ==> Selects(db, source, now, dirty, e)
    ensures exists first :: IsFirst(dirty, rest, first)
  {
    FirstOf(dirty, rest);
  }

  /** At most one answer satisfies the SELECT. */
  lemma {:induction false} SelectionUnique(db: Db, source: string, now: int, limit: int, dirty: bool, a: seq<Entry>, b: seq<Entry>, n: nat)
    requires IsSelection(db, source, now, limit, dirty, a) && IsSelection(db, source, now, limit, dirty, b)
    requires n <= |a| && n <= |b|
    ensures a[..n] == b[..n]
    ensures |a| == n ==> |b| == n
  {
    if n > 0 {
      SelectionUnique(db, source, now, limit, dirty, a, b, n - 1);
      var x, y := a[n - 1], b[n - 1];
      PrecedesIsStrict(dirty, x, y, x);
      PrecedesIsStrict(dirty, y, x, y);
      NotEarlier(dirty, a, b, n);
      NotEarlier(dirty, b, a, n);
    }
    if |a| == n < |b| {
      NotEarlier(dirty, b, a, n + 1);
    }
  }

  lemma NotEarlier(dirty: bool, a: seq<Entry>, b: seq<Entry>, n: nat)
    requires 1 <= n <= |a| && n - 1 <= |b| && a[..n - 1] == b[..n - 1]
    requires forall i, j :: 0 <= i < j < |a| ==> Precedes(dirty, a[i], a[j])
    requires forall i, j :: 0 <= i < j < |b| ==> Precedes(dirty, b[i], b[j])
    ensures a[n - 1] in b ==> n <= |b| && (a[n - 1] == b[n - 1] || Precedes(dirty, b[n - 1], a[n - 1]))
  {
    if a[n - 1] in b {
      var i :| 0 <= i < |b| && b[i] == a[n - 1];
      if i < n - 1 {
        assert b[i] == b[..n - 1][i] == a[i];
        PrecedesIsStrict(dirty, a[i], a[i], a[i]);
      }
    }
  }

  lemma LeastSeat(items: map<Seat, Item>, source: string, n: nat, done: nat, rest: set<Seat>)
    requires BatchOf(items, source, n) && rest != {}
    requires forall seat :: seat in rest <==> seat in items && seat.source == source && done <= seat.ordinal
    ensures done < n && Seat(source, done) in rest
    ensures forall seat :: seat in rest && (forall other :: other in rest ==> seat.ordinal <= other.ordinal)
              ==> seat == Seat(source, done)
  {
    var seat :| seat in rest;
    assert done <= seat.ordinal < n;
  }

  // ------------------------------------------------------ settling a batch

  /** Outcomes before index i have been applied to this slot. */
  ghost predicate AppliedAt(db: Db, source: string, outcomes: seq<int>, now: int, i: int, pending: map<Slot, Row>, slot: Slot)
    requires 0 <= i <= |outcomes|
  {
    && (slot in pending <==> slot in db.pending && !Decides(db, source, outcomes[..i], slot, 2))
    && (slot in pending ==> pending[slot] == Settled(db, source, outcomes[..i], now, slot))
  }

  /** Outcomes before index i have been applied, one statement at a time. */
  ghost predicate Applied(db: Db, source: string, outcomes: seq<int>, now: int, i: int, pending: map<Slot, Row>)
    requires 0 <= i <= |outcomes|
  {
    forall slot :: AppliedAt(db, source, outcomes, now, i, pending, slot)
  }

  ghost predicate Stepped(db: Db, source: string, outcomes: seq<int>, now: int, i: int, before: map<Slot, Row>, after: map<Slot, Row>)
    requires 0 <= i < |outcomes| && Seat(source, i) in db.items
  {
    var item := db.items[Seat(source, i)];
    var slot := Slot(source, item.key);
    if slot !in before || before[slot].generation != item.generation then after == before
    else
      match outcomes[i]
      case 0 => after == before[slot := before[slot].(dirtySent := true)]
      case 1 => after == before[slot := before[slot].(dirtySent := true, stableCount := 1, dueAt := now + RECHECK_MS)]
      case 2 => after == before - {slot}
      case 3 => after == before[slot := before[slot].(held := true)]
      case _ => false
  }

  lemma DecidesNext(db: Db, source: string, outcomes: seq<int>, i: int, slot: Slot, o: int)
    requires 0 <= i < |outcomes|
    ensures Decides(db, source, outcomes[..i + 1], slot, o) <==>
            Decides(db, source, outcomes[..i], slot, o) || (slot.source == source && outcomes[i] == o && Matches(db, slot, i))
  {
    var longer, shorter := outcomes[..i + 1], outcomes[..i];
    if Decides(db, source, shorter, slot, o) {
      var k :| 0 <= k < |shorter| && shorter[k] == o && Matches(db, slot, k);
      assert longer[k] == o;
    }
    if slot.source == source && outcomes[i] == o && Matches(db, slot, i) {
      assert longer[i] == o;
    }
    if Decides(db, source, longer, slot, o) {
      var k :| 0 <= k < |longer| && longer[k] == o && Matches(db, slot, k);
      if k < i { assert shorter[k] == o; }
    }
  }

  lemma OneItemPerKey(db: Db, slot: Slot, i: int, j: int)
    requires BatchesOk(db.outbox, db.items)
    requires Matches(db, slot, i) && Matches(db, slot, j)
    ensures i == j
  {
    assert Seat(slot.source, i) in db.items && Seat(slot.source, j) in db.items;
  }

  lemma Undecided(db: Db, source: string, outcomes: seq<int>, i: int, slot: Slot)
    requires BatchesOk(db.outbox, db.items)
    requires 0 <= i < |outcomes| && Matches(db, slot, i) && slot.source == source
    ensures forall o :: !Decides(db, source, outcomes[..i], slot, o)
  {
    forall k | 0 <= k < i && Matches(db, slot, k)
      ensures false
    {
      OneItemPerKey(db, slot, i, k);
    }
  }

  /** A statement about another row decides nothing here. */
  lemma ElsewhereSame(db: Db, source: string, outcomes: seq<int>, now: int, i: int, slot: Slot)
    requires 0 <= i < |outcomes| && (slot.source != source || !Matches(db, slot, i))
    ensures forall o :: Decides(db, source, outcomes[..i + 1], slot, o) <==> Decides(db, source, outcomes[..i], slot, o)
    ensures slot in db.pending ==> Settled(db, source, outcomes[..i + 1], now, slot) == Settled(db, source, outcomes[..i], now, slot)
  {
    forall o ensures Decides(db, source, outcomes[..i + 1], slot, o) <==> Decides(db, source, outcomes[..i], slot, o) {
      DecidesNext(db, source, outcomes, i, slot, o);
    }
  }

  /** The statement about this row is the only one. */
  lemma OnlyHere(db: Db, source: string, outcomes: seq<int>, now: int, i: int, upto: seq<int>, slot: Slot)
    requires BatchesOk(db.outbox, db.items)
    requires 0 <= i < |outcomes| && upto == outcomes[..i + 1] && slot.source == source && Matches(db, slot, i)
    ensures forall o :: Decides(db, source, upto, slot, o) <==> outcomes[i] == o
    ensures forall o :: !Decides(db, source, outcomes[..i], slot, o)
    ensures Settled(db, source, outcomes[..i], now, slot) == db.pending[slot]
  {
    Undecided(db, source, outcomes, i, slot);
    forall o ensures Decides(db, source, upto, slot, o) <==> outcomes[i] == o {
      DecidesNext(db, source, outcomes, i, slot, o);
    }
  }

  lemma ApplyHere(db: Db, source: string, outcomes: seq<int>, now: int, i: int, before: map<Slot, Row>, after: map<Slot, Row>, slot: Slot)
    requires BatchesOk(db.outbox, db.items)
    requires 0 <= i < |outcomes| && slot.source == source && Matches(db, slot, i)
    requires AppliedAt(db, source, outcomes, now, i, before, slot)
    requires Stepped(db, source, outcomes, now, i, before, after)
    ensures AppliedAt(db, source, outcomes, now, i + 1, after, slot)
  {
    OnlyHere(db, source, outcomes, now, i, outcomes[..i + 1], slot);
    assert before[slot] == db.pending[slot];
  }

  lemma ApplyElsewhere(db: Db, source: string, outcomes: seq<int>, now: int, i: int, before: map<Slot, Row>, after: map<Slot, Row>, slot: Slot)
    requires 0 <= i < |outcomes| && Seat(source, i) in db.items && (slot.source != source || !Matches(db, slot, i))
    requires AppliedAt(db, source, outcomes, now, i, before, slot)
    requires Stepped(db, source, outcomes, now, i, before, after)
    ensures AppliedAt(db, source, outcomes, now, i + 1, after, slot)
  {
    ElsewhereSame(db, source, outcomes, now, i, slot);
    var item := db.items[Seat(source, i)];
    if slot == Slot(source, item.key) {
      assert slot in before ==> before[slot].generation == db.pending[slot].generation;
      assert after == before;
    }
  }

  lemma ApplyNext(db: Db, source: string, outcomes: seq<int>, now: int, i: int, before: map<Slot, Row>, after: map<Slot, Row>)
    requires BatchesOk(db.outbox, db.items)
    requires 0 <= i < |outcomes| && Seat(source, i) in db.items
    requires Applied(db, source, outcomes, now, i, before)
    requires Stepped(db, source, outcomes, now, i, before, after)
    ensures Applied(db, source, outcomes, now, i + 1, after)
  {
    var next := i + 1;
    forall slot: Slot
      ensures AppliedAt(db, source, outcomes, now, next, after, slot)
    {
      assert AppliedAt(db, source, outcomes, now, i, before, slot);
      if slot.source == source && Matches(db, slot, i) {
        ApplyHere(db, source, outcomes, now, i, before, after, slot);
      } else {
        ApplyElsewhere(db, source, outcomes, now, i, before, after, slot);
      }
    }
  }

  lemma AppliedAll(db: Db, source: string, outcomes: seq<int>, now: int, pending: map<Slot, Row>)
    requires Applied(db, source, outcomes, now, |outcomes|, pending)
    ensures pending == map slot | slot in db.pending && !Decides(db, source, outcomes, slot, 2)
                         :: Settled(db, source, outcomes, now, slot)
  {
    assert outcomes[..|outcomes|] == outcomes;
    forall slot: Slot
      ensures slot in pending <==> slot in db.pending && !Decides(db, source, outcomes, slot, 2)
      ensures slot in pending ==> pending[slot] == Settled(db, source, outcomes, now, slot)
    {
      assert AppliedAt(db, source, outcomes, now, |outcomes|, pending, slot);
    }
  }
}
