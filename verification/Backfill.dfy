/** The guarded backfill of lexical fields and its rollback journal, with other
    writers changing the index between any two of its steps. */
module Backfill {
  import opened Wrappers

  type Id = string
  type Content = map<string, string>

  const FIELDS: set<string> := {
    "title_tks", "title_sm_tks", "lexical_title_ko_ltks", "lexical_content_ko_ltks",
    "lexical_title_exact_ltks", "lexical_content_exact_ltks" }

  /** A stored chunk; every write gives it a version nothing had before. */
  datatype Doc = Doc(content: Content, version: nat)

  datatype Record =
    | Intent(id: Id, previous: Content)
    | Applied(id: Id, previous: Content, version: nat)

  /** How one update request can end besides success and a version conflict. */
  datatype Fault = NoFault | RequestLost | AnswerLost

  function Lexical(content: Content): Content { map k | k in content && k in FIELDS :: content[k] }

  function Updated(content: Content, fields: Content): Content { content + fields }

  /** The rollback script: drop the lexical fields, put the recorded ones back. */
  function Restored(content: Content, previous: Content): Content { (content - FIELDS) + previous }

  /** Rolling an update back is exact, and neither touches a protected field. */
  lemma RollbackInverts(content: Content, fields: Content)
    requires fields.Keys <= FIELDS
    ensures Restored(Updated(content, fields), Lexical(content)) == content
    ensures Updated(content, fields) - FIELDS == content - FIELDS
  {
    var back := Restored(Updated(content, fields), Lexical(content));
    assert back.Keys == content.Keys;
    assert forall k :: k in content ==> back[k] == content[k];
  }

  // -------------------------------------------------------- other writers

  /** What everyone but the backfill last made of each chunk; None is deleted. */
  type Gifts = map<Id, Option<Content>>

  type Move = (Id, Option<Content>)

  function GiftOf(given: Gifts, id: Id): Option<Content> { if id in given then given[id] else None }

  function Told(given: Gifts, moves: seq<Move>): Gifts {
    if moves == [] then given
    else
      var last := moves[|moves| - 1];
      Told(given, moves[..|moves| - 1])[last.0 := last.1]
  }

  /** What the others have made of the start after their first n turns, as if
      the backfill had never run. */
  function GivenAfter(start: Gifts, others: nat -> seq<Move>, n: nat): Gifts {
    if n == 0 then start else Told(GivenAfter(start, others, n - 1), others(n - 1))
  }

  predicate LeavesAlone(moves: seq<Move>, id: Id) { forall k :: 0 <= k < |moves| ==> moves[k].0 != id }

  lemma LeavesNext(moves: seq<Move>, move: Move, id: Id)
    ensures LeavesAlone(moves + [move], id) <==> LeavesAlone(moves, id) && move.0 != id
  {
    var longer := moves + [move];
    assert longer[|moves|] == move && forall k :: 0 <= k < |moves| ==> longer[k] == moves[k];
  }

  lemma {:induction false} ToldElsewhere(given: Gifts, moves: seq<Move>, id: Id)
    requires LeavesAlone(moves, id)
    ensures GiftOf(Told(given, moves), id) == GiftOf(given, id)
  {
    if moves != [] { ToldElsewhere(given, moves[..|moves| - 1], id); }
  }

  ghost predicate NeverTold(others: nat -> seq<Move>, n: nat, id: Id) {
    forall t :: 0 <= t < n ==> LeavesAlone(others(t), id)
  }

  /** A chunk no other writer ever wrote is still what it was at the start. */
  lemma {:induction false} NeverToldKeeps(start: Gifts, others: nat -> seq<Move>, n: nat, id: Id)
    requires NeverTold(others, n, id)
    ensures GiftOf(GivenAfter(start, others, n), id) == GiftOf(start, id)
  {
    if n > 0 {
      NeverToldKeeps(start, others, n - 1, id);
      ToldElsewhere(GivenAfter(start, others, n - 1), others(n - 1), id);
    }
  }

  // ---------------------------------------------------------------- state

  datatype Stage = Unanswered | Receipted | RolledBack

  /** What the proof remembers of the backfill's write of a chunk: the content
      the store held just before, the version written, where in the journal its
      intent stands, and after how many turns of the others it was made. */
  datatype Own = Own(original: Content, version: nat, intent: nat, turn: nat, stage: Stage)

  /** The index, the journal file, and what the proof remembers: the others'
      turns so far and what they last gave each chunk, the backfill's own
      writes, and the chunks of those that others have written since. */
  datatype State = State(
    store: map<Id, Doc>, clock: nat, journal: seq<Record>,
    turns: nat, given: Gifts, own: map<Id, Own>, foreign: set<Id>)

  function At(store: map<Id, Doc>, id: Id): Option<Content> {
    if id in store then Some(store[id].content) else None
  }

  function Contents(store: map<Id, Doc>): (given: Gifts)
    ensures forall id :: GiftOf(given, id) == At(store, id)
  {
    map id | id in store :: Some(store[id].content)
  }

  /** The backfill's write of the chunk still stands. */
  predicate Stands(s: State, id: Id) { id in s.own && id !in s.foreign && s.own[id].stage != RolledBack }

  /** A chunk holds exactly what others last gave it, except that where a write
      of the backfill stands, it holds that content updated. */
  ghost predicate Traced(desired: Content -> Content, s: State, id: Id) {
    && (!Stands(s, id) ==> At(s.store, id) == GiftOf(s.given, id))
    && (id in s.own ==>
          var o := s.own[id];
          && o.version < s.clock
          && (id !in s.foreign ==> GiftOf(s.given, id) == Some(o.original) && id in s.store)
          && (Stands(s, id) ==> At(s.store, id) == Some(Updated(o.original, desired(o.original))))
          && (id in s.store ==> (s.store[id].version == o.version <==> Stands(s, id))))
  }

  ghost predicate StoreOk(desired: Content -> Content, s: State) {
    && (forall id :: id in s.store ==> s.store[id].version < s.clock)
    && (forall id :: Traced(desired, s, id))
  }

  /** A write found its intent, with the fields it overwrote, as the journal's
      last record; its receipt, if any, is the next one. */
  ghost predicate Journaled(journal: seq<Record>, id: Id, o: Own) {
    && o.intent < |journal| && journal[o.intent] == Intent(id, Lexical(o.original))
    && (o.stage != Unanswered ==> o.intent + 1 < |journal| && journal[o.intent + 1] == Applied(id, Lexical(o.original), o.version))
  }

  /** A receipt belongs to the one write of its chunk. */
  ghost predicate Owned(own: map<Id, Own>, journal: seq<Record>, j: nat)
    requires j < |journal|
  {
    journal[j].Applied? ==>
      var id := journal[j].id;
      id in own && own[id].stage != Unanswered && own[id].intent + 1 == j
  }

  ghost predicate JournalOk(journal: seq<Record>, own: map<Id, Own>) {
    && (forall id :: id in own ==> Journaled(journal, id, own[id]))
    && (forall j :: 0 <= j < |journal| ==> Owned(own, journal, j))
  }

  ghost predicate Valid(desired: Content -> Content, s: State) { StoreOk(desired, s) && JournalOk(s.journal, s.own) }

  // ----------------------------------------------------------- transitions

  function OtherWrites(s: State, id: Id, content: Option<Content>): State {
    s.(store := if content.Some? then s.store[id := Doc(content.value, s.clock)] else s.store - {id},
       clock := s.clock + 1, given := s.given[id := content], foreign := s.foreign + {id})
  }

  lemma OtherWritesValid(desired: Content -> Content, s: State, id: Id, content: Option<Content>)
    requires Valid(desired, s)
    ensures Valid(desired, OtherWrites(s, id, content))
  {
    var after := OtherWrites(s, id, content);
    forall other ensures Traced(desired, after, other) { assert Traced(desired, s, other); }
  }

  function Announce(s: State, id: Id, source: Content): State {
    s.(journal := s.journal + [Intent(id, Lexical(source))])
  }

  lemma AnnounceValid(desired: Content -> Content, s: State, id: Id, source: Content)
    requires Valid(desired, s)
    ensures Valid(desired, Announce(s, id, source))
  {
    var after := Announce(s, id, source);
    forall other ensures Traced(desired, after, other) { assert Traced(desired, s, other); }
    forall j | 0 <= j < |after.journal| ensures Owned(after.own, after.journal, j) {
      if j < |s.journal| { assert Owned(s.own, s.journal, j); }
    }
    forall other | other in after.own ensures Journaled(after.journal, other, after.own[other]) {
      assert Journaled(s.journal, other, s.own[other]);
    }
  }

  /** The guarded update, its answer not yet seen: the store merges the fields
      into what it holds. */
  function Rewrite(s: State, id: Id, fields: Content): State
    requires id in s.store && s.journal != []
  {
    var held := s.store[id].content;
    s.(store := s.store[id := Doc(Updated(held, fields), s.clock)], clock := s.clock + 1, foreign := s.foreign - {id},
       own := s.own[id := Own(held, s.clock, |s.journal| - 1, s.turns, Unanswered)])
  }

  /** The last record announces exactly the fields this write overwrites. */
  lemma RewriteValid(desired: Content -> Content, s: State, id: Id, fields: Content)
    requires Valid(desired, s) && id !in s.own && id in s.store && s.journal != []
    requires s.journal[|s.journal| - 1] == Intent(id, Lexical(s.store[id].content)) && fields == desired(s.store[id].content)
    ensures Valid(desired, Rewrite(s, id, fields))
    ensures GiftOf(s.given, id) == Some(s.store[id].content)
  {
    var after := Rewrite(s, id, fields);
    assert Traced(desired, s, id);
    forall other ensures Traced(desired, after, other) { assert Traced(desired, s, other); }
    RewriteJournal(s, id, fields);
  }

  lemma RewriteJournal(s: State, id: Id, fields: Content)
    requires JournalOk(s.journal, s.own) && id !in s.own && id in s.store && s.journal != []
    requires s.journal[|s.journal| - 1] == Intent(id, Lexical(s.store[id].content))
    ensures JournalOk(Rewrite(s, id, fields).journal, Rewrite(s, id, fields).own)
  {
    var after := Rewrite(s, id, fields);
    forall j | 0 <= j < |after.journal| ensures Owned(after.own, after.journal, j) { assert Owned(s.own, s.journal, j); }
    forall other | other in after.own ensures Journaled(after.journal, other, after.own[other]) {
      if other != id { assert Journaled(s.journal, other, s.own[other]); }
    }
  }

  /** The receipt of an answered update, with the fields the scan had seen. */
  function Receipt(s: State, id: Id, source: Content): State
    requires id in s.own
  {
    s.(journal := s.journal + [Applied(id, Lexical(source), s.own[id].version)],
       own := s.own[id := s.own[id].(stage := Receipted)])
  }

  lemma ReceiptValid(desired: Content -> Content, s: State, id: Id, source: Content)
    requires Valid(desired, s) && id in s.own && id !in s.foreign
    requires s.own[id].stage == Unanswered && s.own[id].intent + 1 == |s.journal| && Lexical(source) == Lexical(s.own[id].original)
    ensures Valid(desired, Receipt(s, id, source))
  {
    var after := Receipt(s, id, source);
    forall other ensures Traced(desired, after, other) { assert Traced(desired, s, other); }
    ReceiptJournal(s, id, source);
  }

  lemma ReceiptJournal(s: State, id: Id, source: Content)
    requires JournalOk(s.journal, s.own) && id in s.own
    requires s.own[id].stage == Unanswered && s.own[id].intent + 1 == |s.journal| && Lexical(source) == Lexical(s.own[id].original)
    ensures JournalOk(Receipt(s, id, source).journal, Receipt(s, id, source).own)
  {
    var after := Receipt(s, id, source);
    forall j | 0 <= j < |after.journal| ensures Owned(after.own, after.journal, j) {
      if j < |s.journal| { assert Owned(s.own, s.journal, j); }
    }
    forall other | other in after.own ensures Journaled(after.journal, other, after.own[other]) {
      assert Journaled(s.journal, other, s.own[other]);
    }
  }

  /** The rollback of one receipt whose version still stands. */
  function Revert(s: State, record: Record): State
    requires record.id in s.store
  {
    s.(store := s.store[record.id := Doc(Restored(s.store[record.id].content, record.previous), s.clock)], clock := s.clock + 1,
       own := if record.id in s.own then s.own[record.id := s.own[record.id].(stage := RolledBack)] else s.own)
  }

  function Attempted(s: State, record: Record): State
    requires record.Applied?
  {
    if record.id in s.store && s.store[record.id].version == record.version then Revert(s, record) else s
  }

  /** A standing version means nobody touched the chunk since, and the rollback
      brings back exactly what others last gave it. */
  lemma RevertValid(desired: Content -> Content, s: State, j: nat)
    requires Valid(desired, s) && j < |s.journal| && s.journal[j].Applied?
    requires forall c :: desired(c).Keys <= FIELDS
    requires s.journal[j].id in s.store && s.store[s.journal[j].id].version == s.journal[j].version
    ensures s.journal[j].id in s.own && Stands(s, s.journal[j].id)
    ensures Valid(desired, Revert(s, s.journal[j]))
    ensures At(Revert(s, s.journal[j]).store, s.journal[j].id) == GiftOf(s.given, s.journal[j].id)
  {
    var record := s.journal[j];
    ReceiptFacts(desired, s, j);
    assert Traced(desired, s, record.id);
    var o := s.own[record.id];
    RollbackInverts(o.original, desired(o.original));
    var after := Revert(s, record);
    forall other ensures Traced(desired, after, other) { assert Traced(desired, s, other); }
    RevertJournal(s, j);
  }

  lemma ReceiptFacts(desired: Content -> Content, s: State, j: nat)
    requires JournalOk(s.journal, s.own) && j < |s.journal| && s.journal[j].Applied?
    ensures var record := s.journal[j];
            && record.id in s.own && s.own[record.id].stage != Unanswered
            && record == Applied(record.id, Lexical(s.own[record.id].original), s.own[record.id].version)
  {
    assert Owned(s.own, s.journal, j);
    assert Journaled(s.journal, s.journal[j].id, s.own[s.journal[j].id]);
  }

  lemma RevertJournal(s: State, j: nat)
    requires JournalOk(s.journal, s.own) && j < |s.journal| && s.journal[j].Applied? && s.journal[j].id in s.store
    ensures JournalOk(s.journal, Revert(s, s.journal[j]).own)
  {
    var own := Revert(s, s.journal[j]).own;
    assert Owned(s.own, s.journal, j);
    forall i | 0 <= i < |s.journal| ensures Owned(own, s.journal, i) { assert Owned(s.own, s.journal, i); }
    forall other | other in own ensures Journaled(s.journal, other, own[other]) {
      assert Journaled(s.journal, other, s.own[other]);
    }
  }

  /** Somebody wrote the chunk since it was scanned. */
  predicate Moved(s: State, id: Id, source: Doc) { id in s.store && s.store[id].version != source.version }

  /** The update request reaches an unmoved chunk. */
  predicate Reaches(s: State, id: Id, source: Doc, fault: Fault) {
    !fault.RequestLost? && id in s.store && !Moved(s, id, source)
  }

  /** The outcome of one guarded update: a lost request and a conflict change
      nothing, and without an answer there is no receipt. */
  function Wrote(s: State, id: Id, source: Doc, fields: Content, fault: Fault): State
    requires s.journal != []
  {
    if !Reaches(s, id, source, fault) then s
    else
      var written := Rewrite(s, id, fields);
      if fault.AnswerLost? then written else Receipt(written, id, source.content)
  }

  lemma WroteValid(desired: Content -> Content, s: State, id: Id, source: Doc, fault: Fault)
    requires Valid(desired, s) && id !in s.own && s.journal != []
    requires id in s.store && s.store[id].version == source.version ==> s.store[id] == source
    requires s.journal[|s.journal| - 1] == Intent(id, Lexical(source.content))
    ensures Valid(desired, Wrote(s, id, source, desired(source.content), fault))
    ensures Reaches(s, id, source, fault) ==> GiftOf(s.given, id) == Some(source.content)
  {
    if Reaches(s, id, source, fault) {
      RewriteValid(desired, s, id, desired(source.content));
      if !fault.AnswerLost? { ReceiptValid(desired, Rewrite(s, id, desired(source.content)), id, source.content); }
    }
  }

  /** Number of receipts in a journal. */
  function Receipts(journal: seq<Record>): nat {
    if journal == [] then 0
    else (if journal[|journal| - 1].Applied? then 1 else 0) + Receipts(journal[..|journal| - 1])
  }

  /** Number of intents in a journal. */
  function Intents(journal: seq<Record>): int { |journal| - Receipts(journal) }

  lemma ReceiptsNext(journal: seq<Record>, record: Record)
    ensures Receipts(journal + [record]) == Receipts(journal) + if record.Applied? then 1 else 0
  {
    assert (journal + [record])[..|journal|] == journal;
  }

  /** The chunk was not written. */
  ghost predicate Spared(before: State, after: State, id: Id) {
    (id in after.store <==> id in before.store) && (id in before.store ==> after.store[id] == before.store[id])
  }

  /** What other writers leave as it was. */
  ghost predicate OthersOnly(before: State, after: State) {
    && after.journal == before.journal && after.own == before.own
    && before.clock <= after.clock && before.foreign <= after.foreign
    && (forall id :: id in after.store && after.store[id].version < before.clock ==> id in before.store && after.store[id] == before.store[id])
  }

  /** The apply run only adds: records to the journal, and writes of these
      chunks, none of them rolled back. */
  ghost predicate Extends(before: State, after: State, ids: set<Id>) {
    && before.journal <= after.journal && before.own.Keys <= after.own.Keys && before.turns <= after.turns
    && (forall id :: id in before.own ==> after.own[id] == before.own[id])
    && (forall id :: id in after.own && id !in before.own ==> id in ids && after.own[id].stage != RolledBack)
  }

  /** Written in this run, and never answered. */
  predicate Lapsed(before: State, after: State, id: Id) {
    id in after.own && id !in before.own && after.own[id].stage == Unanswered
  }

  lemma ExtendsNext(before: State, s: State, after: State, all: set<Id>, id: Id)
    requires Extends(before, s, all) && Extends(s, after, {id}) && id in all
    ensures Extends(before, after, all)
    ensures forall other :: Lapsed(before, after, other) ==> Lapsed(before, s, other) || Lapsed(s, after, other)
  {
  }

  /** An announced write adds at most its own receipt, and remembers as original
      exactly what the scan had seen. */
  lemma WroteAdds(before: State, s: State, after: State, id: Id, source: Doc, fields: Content, fault: Fault)
    requires s.own == before.own && id !in s.own && s.journal == before.journal + [Intent(id, Lexical(source.content))]
    requires before.turns <= s.turns
    requires id in s.store && s.store[id].version == source.version ==> s.store[id] == source
    requires after == Wrote(s, id, source, fields, fault)
    ensures Extends(before, after, {id})
    ensures Receipts(after.journal) == Receipts(before.journal) + if Reaches(s, id, source, fault) && fault.NoFault? then 1 else 0
    ensures Intents(after.journal) == Intents(before.journal) + 1
    ensures id in after.own ==> after.own[id].original == source.content
    ensures fault.NoFault? ==> !Lapsed(before, after, id)
    ensures fault.NoFault? && id in s.store && s.store[id] == source ==> id in after.own
  {
    ReceiptsNext(before.journal, Intent(id, Lexical(source.content)));
    ReceiptsNext(s.journal, Applied(id, Lexical(source.content), s.clock));
  }

  /** These moves account for what is written and what is foreign. */
  ghost predicate MovedBy(before: State, after: State, moves: seq<Move>) {
    && (forall id :: LeavesAlone(moves, id) ==> Spared(before, after, id))
    && (forall id :: id in after.foreign ==> id in before.foreign || !LeavesAlone(moves, id))
  }

  lemma OthersNext(before: State, s: State, moves: seq<Move>, move: Move)
    requires OthersOnly(before, s) && MovedBy(before, s, moves)
    ensures OthersOnly(before, OtherWrites(s, move.0, move.1))
    ensures MovedBy(before, OtherWrites(s, move.0, move.1), moves + [move])
  {
    var after := OtherWrites(s, move.0, move.1);
    forall id | LeavesAlone(moves + [move], id) ensures Spared(before, after, id) { LeavesNext(moves, move, id); }
    forall id | id in after.foreign ensures id in before.foreign || !LeavesAlone(moves + [move], id) { LeavesNext(moves, move, id); }
  }

  lemma OtherStep(desired: Content -> Content, before: State, s: State, moves: seq<Move>, n: nat)
    requires n < |moves| && Valid(desired, s) && OthersOnly(before, s) && MovedBy(before, s, moves[..n])
    requires s.given == Told(before.given, moves[..n])
    ensures var after := OtherWrites(s, moves[n].0, moves[n].1);
            && Valid(desired, after) && OthersOnly(before, after) && MovedBy(before, after, moves[..n + 1])
            && after.given == Told(before.given, moves[..n + 1])
  {
    OtherWritesValid(desired, s, moves[n].0, moves[n].1);
    OthersNext(before, s, moves[..n], moves[n]);
    assert moves[..n + 1] == moves[..n] + [moves[n]] && moves[..n + 1][..n] == moves[..n];
  }

  // --------------------------------------------------------------- the job

  /** The memory is of what happened: `given` is the start as only the others
      changed it, every original is what it held when it was overwritten, and
      the foreign chunks were written by others. */
  ghost predicate Grounded(start: Gifts, others: nat -> seq<Move>, s: State) {
    && s.given == GivenAfter(start, others, s.turns)
    && (forall id :: id in s.own ==>
          s.own[id].turn <= s.turns && GiftOf(GivenAfter(start, others, s.own[id].turn), id) == Some(s.own[id].original))
    && (forall id :: id in s.foreign ==> !NeverTold(others, s.turns, id))
  }

  predicate UpToDate(content: Content, fields: Content) {
    forall k :: k in fields ==> k in content && content[k] == fields[k]
  }

  /** A chunk is up to date exactly when writing its fields would change nothing. */
  lemma UpToDateMeans(content: Content, fields: Content)
    ensures UpToDate(content, fields) <==> Updated(content, fields) == content
  {
    if Updated(content, fields) == content {
      forall k | k in fields ensures k in content && content[k] == fields[k] { assert k in Updated(content, fields); }
    }
  }

  /** What a chunk that only the backfill writes becomes. */
  function Brought(desired: Content -> Content, given: Option<Content>): Option<Content> {
    if given.Some? then Some(Updated(given.value, desired(given.value))) else None
  }

  /** Missing, or holding all its fields already. */
  ghost predicate NeedsNothing(desired: Content -> Content, given: Option<Content>) {
    given.Some? ==> UpToDate(given.value, desired(given.value))
  }

  /** A chunk nobody else wrote holds its fields once it is written or needs nothing. */
  lemma OnlyBackfilled(desired: Content -> Content, start: Gifts, others: nat -> seq<Move>, s: State, id: Id)
    requires Valid(desired, s) && Grounded(start, others, s) && NeverTold(others, s.turns, id)
    requires if id in s.own then s.own[id].stage != RolledBack else NeedsNothing(desired, GiftOf(start, id))
    ensures At(s.store, id) == Brought(desired, GiftOf(start, id))
  {
    assert Traced(desired, s, id);
    NeverToldKeeps(start, others, s.turns, id);
    if id !in s.own && GiftOf(start, id).Some? {
      var content := GiftOf(start, id).value;
      assert Updated(content, desired(content)) == content;
    }
  }

  /** What a chunk that is not written was scanned as. */
  lemma Scanned(desired: Content -> Content, start: Gifts, others: nat -> seq<Move>, s: State, id: Id)
    requires Valid(desired, s) && Grounded(start, others, s) && id !in s.own
    ensures At(s.store, id) == GiftOf(GivenAfter(start, others, s.turns), id)
    ensures NeverTold(others, s.turns, id) ==> At(s.store, id) == GiftOf(start, id)
  {
    assert Traced(desired, s, id);
    if NeverTold(others, s.turns, id) { NeverToldKeeps(start, others, s.turns, id); }
  }

  lemma TurnValid(desired: Content -> Content, s: State)
    requires Valid(desired, s)
    ensures Valid(desired, s.(turns := s.turns + 1))
  {
    var after := s.(turns := s.turns + 1);
    forall id ensures Traced(desired, after, id) { assert Traced(desired, s, id); }
  }

  predicate Distinct(ids: seq<Id>) { forall i, j :: 0 <= i < j < |ids| ==> ids[i] != ids[j] }

  /** Before position n, each chunk is written, or others wrote it, or it needs nothing. */
  ghost predicate Served(desired: Content -> Content, start: Gifts, others: nat -> seq<Move>, s: State, ids: seq<Id>, n: nat)
    requires n <= |ids|
  {
    forall k :: 0 <= k < n && ids[k] !in s.own && NeverTold(others, s.turns, ids[k]) ==> NeedsNothing(desired, GiftOf(start, ids[k]))
  }

  lemma ServedNext(desired: Content -> Content, start: Gifts, others: nat -> seq<Move>, before: State, after: State, ids: seq<Id>, n: nat)
    requires n < |ids| && Served(desired, start, others, before, ids, n)
    requires before.own.Keys <= after.own.Keys && before.turns <= after.turns
    requires ids[n] !in after.own && NeverTold(others, after.turns, ids[n]) ==> NeedsNothing(desired, GiftOf(start, ids[n]))
    ensures Served(desired, start, others, after, ids, n + 1)
  {
    forall id | NeverTold(others, after.turns, id) ensures NeverTold(others, before.turns, id) {}
  }

  ghost predicate OneLapse(before: State, after: State) {
    forall a, b :: Lapsed(before, after, a) && Lapsed(before, after, b) ==> a == b
  }

  /** The apply run up to position n: all writes receipted, later chunks not written. */
  ghost predicate Applies(desired: Content -> Content, start: Gifts, others: nat -> seq<Move>, before: State, s: State, ids: seq<Id>, n: nat)
    requires n <= |ids|
  {
    && Extends(before, s, (set id | id in ids))
    && (forall id :: !Lapsed(before, s, id))
    && (forall k :: n <= k < |ids| ==> ids[k] !in s.own)
    && Served(desired, start, others, s, ids, n)
  }

  lemma AppliesNext(desired: Content -> Content, start: Gifts, others: nat -> seq<Move>, before: State, s: State, after: State,
                    ids: seq<Id>, n: nat, ok: bool)
    requires n < |ids| && Distinct(ids) && Applies(desired, start, others, before, s, ids, n)
    requires Extends(s, after, {ids[n]}) && (ok ==> !Lapsed(s, after, ids[n]))
    requires ok && ids[n] !in after.own && NeverTold(others, after.turns, ids[n]) ==> NeedsNothing(desired, GiftOf(start, ids[n]))
    ensures Extends(before, after, (set id | id in ids)) && OneLapse(before, after)
    ensures ok ==> Applies(desired, start, others, before, after, ids, n + 1)
  {
    var all := set id | id in ids;
    ExtendsNext(before, s, after, all, ids[n]);
    assert forall a :: Lapsed(before, after, a) ==> a == ids[n];
    if ok { ServedNext(desired, start, others, s, after, ids, n); }
  }

  /** So after a completed run from a state without rollbacks, every scanned chunk
      that nobody else wrote holds its start content with all its fields. */
  lemma AllBrought(desired: Content -> Content, start: Gifts, others: nat -> seq<Move>, s: State, ids: seq<Id>)
    requires Valid(desired, s) && Grounded(start, others, s) && Served(desired, start, others, s, ids, |ids|)
    requires forall i :: 0 <= i < |ids| && ids[i] in s.own ==> s.own[ids[i]].stage != RolledBack
    ensures forall i :: 0 <= i < |ids| && NeverTold(others, s.turns, ids[i]) ==>
              At(s.store, ids[i]) == Brought(desired, GiftOf(start, ids[i]))
  {
    forall i | 0 <= i < |ids| && NeverTold(others, s.turns, ids[i])
      ensures At(s.store, ids[i]) == Brought(desired, GiftOf(start, ids[i]))
    {
      OnlyBackfilled(desired, start, others, s, ids[i]);
    }
  }

  lemma TurnGrounded(start: Gifts, others: nat -> seq<Move>, before: State, s: State)
    requires Grounded(start, others, before) && s.own == before.own
    requires s.turns == before.turns + 1 && s.given == Told(before.given, others(before.turns))
    requires forall id :: id in s.foreign ==> id in before.foreign || !LeavesAlone(others(before.turns), id)
    ensures Grounded(start, others, s)
  {
  }

  lemma WroteGrounded(start: Gifts, others: nat -> seq<Move>, s: State, id: Id, source: Doc, fields: Content, fault: Fault)
    requires Grounded(start, others, s) && s.journal != []
    requires Reaches(s, id, source, fault) ==> GiftOf(s.given, id) == Some(s.store[id].content)
    ensures Grounded(start, others, Wrote(s, id, source, fields, fault))
  {
  }

  /** The counters, next to what they count. */
  datatype Counts = Counts(scanned: int, changed: int, same: int, conflicts: int, receipts: int, intents: int)

  /** Chunks are counted as changed by their receipts, a scanned chunk without an
      intent is counted as unchanged, and unless a request failed every scanned
      chunk is counted once. */
  predicate Adds(a: Counts, b: Counts, ok: bool) {
    && b.changed - a.changed == b.receipts - a.receipts
    && b.scanned - a.scanned == (b.same - a.same) + (b.intents - a.intents)
    && (ok ==> b.scanned - a.scanned == (b.changed - a.changed) + (b.same - a.same) + (b.conflicts - a.conflicts))
  }

  lemma AddsNext(a: Counts, b: Counts, c: Counts, ok: bool)
    requires Adds(a, b, true) && Adds(b, c, ok)
    ensures Adds(a, c, ok)
  {
  }

  // ------------------------------------------------------ when runs complete

  /** A request for the chunk after t turns is answered, if only by a conflict. */
  predicate Answered(start: Gifts, others: nat -> seq<Move>, faults: nat -> Fault, id: Id, t: nat) {
    faults(t).NoFault? && GiftOf(GivenAfter(start, others, t), id).Some?
  }

  /** The scan finds the chunk without its fields, after one more turn. */
  ghost predicate Wanted(desired: Content -> Content, start: Gifts, others: nat -> seq<Move>, id: Id, t: nat) {
    !NeedsNothing(desired, GiftOf(GivenAfter(start, others, t + 1), id))
  }

  /** One chunk of the apply run, whether or not its request is answered. */
  ghost predicate Handled(desired: Content -> Content, start: Gifts, others: nat -> seq<Move>, faults: nat -> Fault,
                          before: State, after: State, id: Id, ok: bool) {
    && Extends(before, after, {id})
    && after.turns == before.turns + (if Wanted(desired, start, others, id, before.turns) then 2 else 1)
    && (ok <==> Wanted(desired, start, others, id, before.turns) ==> Answered(start, others, faults, id, before.turns + 2))
    && (!Wanted(desired, start, others, id, before.turns) ==> after.own == before.own && after.journal == before.journal)
    && (ok ==> !Lapsed(before, after, id))
    && (ok && id !in after.own && NeverTold(others, after.turns, id) ==> NeedsNothing(desired, GiftOf(start, id)))
  }

  lemma ChangeHandles(desired: Content -> Content, start: Gifts, others: nat -> seq<Move>, faults: nat -> Fault,
                      before: State, seen: State, after: State, id: Id, ok: bool)
    requires seen.journal == before.journal && seen.own == before.own && seen.turns == before.turns + 1
    requires Wanted(desired, start, others, id, before.turns) && Extends(seen, after, {id}) && after.turns == seen.turns + 1
    requires ok <==> Answered(start, others, faults, id, seen.turns + 1)
    requires ok ==> !Lapsed(seen, after, id) && (id !in after.own ==> !LeavesAlone(others(seen.turns), id))
    ensures Handled(desired, start, others, faults, before, after, id, ok)
  {
  }

  /** Every chunk found without its fields has its request answered. */
  ghost predicate ApplyCompletes(desired: Content -> Content, start: Gifts, others: nat -> seq<Move>, faults: nat -> Fault, ids: seq<Id>, t: nat) {
    ids != [] ==>
      if Wanted(desired, start, others, ids[0], t)
      then Answered(start, others, faults, ids[0], t + 2) && ApplyCompletes(desired, start, others, faults, ids[1..], t + 2)
      else ApplyCompletes(desired, start, others, faults, ids[1..], t + 1)
  }

  /** The receipts from position j on: each takes one turn of the rollback. */
  function ReceiptsFrom(journal: seq<Record>, j: nat): nat
    requires j <= |journal|
    decreases |journal| - j
  {
    if j == |journal| then 0 else (if journal[j].Applied? then 1 else 0) + ReceiptsFrom(journal, j + 1)
  }

  /** In a rollback begun after t turns, receipt j has its request answered. */
  predicate TurnAnswered(start: Gifts, others: nat -> seq<Move>, faults: nat -> Fault, journal: seq<Record>, t: nat, j: nat)
    requires j < |journal|
  {
    journal[j].Applied? ==> Answered(start, others, faults, journal[j].id, t + ReceiptsFrom(journal, j))
  }

  predicate RollbackCompletes(start: Gifts, others: nat -> seq<Move>, faults: nat -> Fault, journal: seq<Record>, t: nat) {
    forall j :: 0 <= j < |journal| ==> TurnAnswered(start, others, faults, journal, t, j)
  }

  /** Behind a receipt whose request is not answered, no write is rolled back. */
  ghost predicate Blocked(start: Gifts, others: nat -> seq<Move>, faults: nat -> Fault, before: State, after: State) {
    forall j, k :: 0 <= k < j < |before.journal| && !TurnAnswered(start, others, faults, before.journal, before.turns, j) ==>
                   KeepsReceipt(before, after, k)
  }

  ghost predicate KeepsReceipt(before: State, after: State, k: nat)
    requires k < |before.journal|
  {
    var id := before.journal[k].id;
    before.journal[k].Applied? && id in before.own ==> id in after.own && after.own[id] == before.own[id]
  }

  /** A chunk is in the store exactly when the others last left it there. */
  lemma PresentAsGiven(desired: Content -> Content, start: Gifts, others: nat -> seq<Move>, s: State, id: Id)
    requires Valid(desired, s) && Grounded(start, others, s)
    ensures id in s.store <==> GiftOf(GivenAfter(start, others, s.turns), id).Some?
  {
    assert Traced(desired, s, id);
  }

  lemma AnsweredNow(desired: Content -> Content, start: Gifts, others: nat -> seq<Move>, faults: nat -> Fault, s: State, id: Id)
    requires Valid(desired, s) && Grounded(start, others, s)
    ensures Answered(start, others, faults, id, s.turns) <==> faults(s.turns).NoFault? && id in s.store
  {
    PresentAsGiven(desired, start, others, s, id);
  }

  /** Two receipts are of two chunks. */
  lemma OneReceiptEach(desired: Content -> Content, s: State, j: nat, k: nat)
    requires Valid(desired, s) && j < |s.journal| && k < |s.journal| && j != k
    requires s.journal[j].Applied? && s.journal[k].Applied?
    ensures s.journal[j].id != s.journal[k].id
  {
    assert Owned(s.own, s.journal, j) && Owned(s.own, s.journal, k);
  }

  predicate OnlyWrites(moves: seq<Move>) { forall k :: 0 <= k < |moves| ==> moves[k].1.Some? }

  ghost predicate NoFaultsEver(faults: nat -> Fault) { forall t: nat :: faults(t).NoFault? }

  ghost predicate NoDeletesEver(others: nat -> seq<Move>) { forall t: nat :: OnlyWrites(others(t)) }

  lemma {:induction false} WritesKeep(given: Gifts, moves: seq<Move>, id: Id)
    requires OnlyWrites(moves) && GiftOf(given, id).Some?
    ensures GiftOf(Told(given, moves), id).Some?
  {
    if moves != [] { WritesKeep(given, moves[..|moves| - 1], id); }
  }

  /** Where nobody deletes, what is there stays there. */
  lemma {:induction false} StaysPresent(start: Gifts, others: nat -> seq<Move>, t: nat, later: nat, id: Id)
    requires NoDeletesEver(others) && t <= later && GiftOf(GivenAfter(start, others, t), id).Some?
    ensures GiftOf(GivenAfter(start, others, later), id).Some?
  {
    if t < later {
      StaysPresent(start, others, t, later - 1, id);
      WritesKeep(GivenAfter(start, others, later - 1), others(later - 1), id);
    }
  }

  /** Without faults and deletions an apply run completes, */
  lemma {:induction false} NothingStopsApply(desired: Content -> Content, start: Gifts, others: nat -> seq<Move>, faults: nat -> Fault, ids: seq<Id>, t: nat)
    requires NoFaultsEver(faults) && NoDeletesEver(others)
    ensures ApplyCompletes(desired, start, others, faults, ids, t)
    decreases |ids|
  {
    if ids != [] {
      if Wanted(desired, start, others, ids[0], t) {
        StaysPresent(start, others, t + 1, t + 2, ids[0]);
        NothingStopsApply(desired, start, others, faults, ids[1..], t + 2);
      } else {
        NothingStopsApply(desired, start, others, faults, ids[1..], t + 1);
      }
    }
  }

  /** and so does the rollback of any journal such runs leave. */
  lemma NothingStopsRollback(desired: Content -> Content, start: Gifts, others: nat -> seq<Move>, faults: nat -> Fault, s: State)
    requires Valid(desired, s) && Grounded(start, others, s) && NoFaultsEver(faults) && NoDeletesEver(others)
    ensures RollbackCompletes(start, others, faults, s.journal, s.turns)
  {
    forall j | 0 <= j < |s.journal| && s.journal[j].Applied?
      ensures TurnAnswered(start, others, faults, s.journal, s.turns, j)
    {
      var id := s.journal[j].id;
      assert Owned(s.own, s.journal, j);
      StaysPresent(start, others, s.own[id].turn, s.turns + ReceiptsFrom(s.journal, j), id);
    }
  }

  lemma {:induction false} StaysDeleted(start: Gifts, others: nat -> seq<Move>, t: nat, later: nat, id: Id)
    requires t <= later && GiftOf(GivenAfter(start, others, t), id).None?
    requires forall n :: t <= n < later ==> LeavesAlone(others(n), id)
    ensures GiftOf(GivenAfter(start, others, later), id).None?
  {
    if t < later {
      StaysDeleted(start, others, t, later - 1, id);
      ToldElsewhere(GivenAfter(start, others, later - 1), others(later - 1), id);
    }
  }

  /** A chunk with a receipt that another writer deletes before its turn comes, and
      nobody writes again, stops this rollback, and every later one, at its
      receipt at the latest, however the requests fare. */
  lemma DeletedChunkStops(start: Gifts, others: nat -> seq<Move>, faults: nat -> Fault, journal: seq<Record>, j: nat, t: nat, begun: nat)
    requires j < |journal| && journal[j].Applied? && t <= begun + ReceiptsFrom(journal, j)
    requires GiftOf(GivenAfter(start, others, t), journal[j].id).None?
    requires forall n :: t <= n ==> LeavesAlone(others(n), journal[j].id)
    ensures !TurnAnswered(start, others, faults, journal, begun, j) && !RollbackCompletes(start, others, faults, journal, begun)
  {
    StaysDeleted(start, others, t, begun + ReceiptsFrom(journal, j), journal[j].id);
    assert !TurnAnswered(start, others, faults, journal, begun, j);
  }

  class Job {
    const desired: Content -> Content
    // What others write, or delete, before each step, and how requests fail.
    const others: nat -> seq<Move>
    const faults: nat -> Fault
    const start: Gifts
    var s: State
    var scanned: nat
    var changed: nat
    var same: nat
    var conflicts: nat

    ghost function Tally(): Counts
      reads this
    {
      Counts(scanned, changed, same, conflicts, Receipts(s.journal), Intents(s.journal))
    }

    constructor (desired: Content -> Content, others: nat -> seq<Move>, faults: nat -> Fault, store: map<Id, Doc>, clock: nat)
      requires forall id :: id in store ==> store[id].version < clock
      ensures this.desired == desired && this.others == others && this.faults == faults && start == Contents(store)
      ensures s == State(store, clock, [], 0, start, map[], {}) && Valid(desired, s) && Grounded(start, others, s)
      ensures Tally() == Counts(0, 0, 0, 0, 0, 0)
    {
      this.desired, this.others, this.faults, start := desired, others, faults, Contents(store);
      s := State(store, clock, [], 0, Contents(store), map[], {});
      scanned, changed, same, conflicts := 0, 0, 0, 0;
    }

    /** Other writers act. */
    method Others()
      requires Valid(desired, s) && Grounded(start, others, s)
      modifies this`s
      ensures Valid(desired, s) && Grounded(start, others, s) && OthersOnly(old(s), s)
      ensures s.turns == old(s).turns + 1
      ensures forall id :: LeavesAlone(others(old(s).turns), id) ==> Spared(old(s), s, id)
    {
      var moves := others(s.turns);
      for n := 0 to |moves|
        invariant Valid(desired, s) && OthersOnly(old(s), s)
        invariant s.turns == old(s).turns && s.given == Told(old(s).given, moves[..n])
        invariant MovedBy(old(s), s, moves[..n])
      {
        var (id, content) := moves[n];
        OtherStep(desired, old(s), s, moves, n);
        s := OtherWrites(s, id, content);
      }
      assert moves[..|moves|] == moves;
      TurnValid(desired, s);
      s := s.(turns := s.turns + 1);
      TurnGrounded(start, others, old(s), s);
    }

    /** The guarded update and its receipt. False is a failed request. */
    method WriteGuarded(id: Id, source: Doc, fields: Content) returns (ok: bool)
      requires Valid(desired, s) && id !in s.own && fields == desired(source.content)
      requires id in s.store && s.store[id].version == source.version ==> s.store[id] == source
      requires s.journal != [] && s.journal[|s.journal| - 1] == Intent(id, Lexical(source.content))
      requires Grounded(start, others, s)
      modifies this`s, this`changed, this`conflicts
      ensures Valid(desired, s) && Grounded(start, others, s)
      ensures s == Wrote(old(s), id, source, fields, faults(old(s).turns))
      ensures ok <==> faults(old(s).turns).NoFault? && id in old(s).store
      ensures conflicts == old(conflicts) + if ok && Moved(old(s), id, source) then 1 else 0
      ensures changed == old(changed) + if ok && !Moved(old(s), id, source) then 1 else 0
    {
      var fault := faults(s.turns);
      WroteValid(desired, s, id, source, fault);
      WroteGrounded(start, others, s, id, source, fields, fault);
      if fault.RequestLost? || id !in s.store { return false; }
      if s.store[id].version != source.version {
        if fault.AnswerLost? { return false; }
        conflicts := conflicts + 1;
        return true;
      }
      s := Rewrite(s, id, fields);
      if fault.AnswerLost? { return false; }
      s := Receipt(s, id, source.content);
      changed := changed + 1;
      return true;
    }

    /** The durable intent, and then other writers. */
    method Intend(id: Id, source: Doc)
      requires Valid(desired, s) && Grounded(start, others, s) && id in s.store && s.store[id] == source
      modifies this`s
      ensures Valid(desired, s) && Grounded(start, others, s) && s.own == old(s).own
      ensures s.journal == old(s).journal + [Intent(id, Lexical(source.content))]
      ensures id in s.store && s.store[id].version == source.version ==> s.store[id] == source
      ensures s.turns == old(s).turns + 1 && (LeavesAlone(others(old(s).turns), id) ==> id in s.store && s.store[id] == source)
    {
      AnnounceValid(desired, s, id, source.content);
      s := Announce(s, id, source.content);
      Others();
    }

    /** A chunk that needs the fields: the intent first, then the guarded update.
        If it is written, what it held is what was scanned, and that is what the
        start or the last other writer gave it. */
    method Change(id: Id, source: Doc, fields: Content) returns (ok: bool)
      requires Valid(desired, s) && Grounded(start, others, s) && id !in s.own && fields == desired(source.content)
      requires id in s.store && s.store[id] == source
      modifies this`s, this`changed, this`conflicts
      ensures Valid(desired, s) && Grounded(start, others, s) && Extends(old(s), s, {id})
      ensures id in s.own ==> s.own[id].original == source.content
      ensures ok <==> Answered(start, others, faults, id, old(s).turns + 1)
      ensures ok ==> !Lapsed(old(s), s, id)
      ensures s.turns == old(s).turns + 1 && (ok && id !in s.own ==> !LeavesAlone(others(old(s).turns), id))
      ensures changed - Receipts(s.journal) == old(changed - Receipts(s.journal)) && Intents(s.journal) == old(Intents(s.journal)) + 1
      ensures ok ==> changed + conflicts == old(changed + conflicts) + 1
    {
      ghost var before := s;
      Intend(id, source);
      ghost var announced := s;
      ok := WriteGuarded(id, source, fields);
      AnsweredNow(desired, start, others, faults, announced, id);
      WroteAdds(before, announced, s, id, source, fields, faults(announced.turns));
    }

    /** Other writers act, and the chunk is looked at. */
    method Scan(id: Id) returns (found: Option<Doc>)
      requires Valid(desired, s) && Grounded(start, others, s) && id !in s.own
      modifies this`s
      ensures Valid(desired, s) && Grounded(start, others, s)
      ensures s.journal == old(s).journal && s.own == old(s).own && s.turns == old(s).turns + 1
      ensures found == if id in s.store then Some(s.store[id]) else None
      ensures Wanted(desired, start, others, id, old(s).turns) <==>
                found.Some? && !UpToDate(found.value.content, desired(found.value.content))
      ensures !Wanted(desired, start, others, id, old(s).turns) ==> Handled(desired, start, others, faults, old(s), s, id, true)
    {
      Others();
      Scanned(desired, start, others, s, id);
      found := if id in s.store then Some(s.store[id]) else None;
    }

    /** One chunk of the scan. False is a failed request that ends the run. */
    method ApplyOne(id: Id) returns (ok: bool)
      requires Valid(desired, s) && Grounded(start, others, s) && id !in s.own
      modifies this
      ensures Valid(desired, s) && Grounded(start, others, s) && Handled(desired, start, others, faults, old(s), s, id, ok)
      ensures Adds(old(Tally()), Tally(), ok)
    {
      var found := Scan(id);
      ghost var seen := s;
      if found.None? { return true; }
      var source := found.value;
      scanned := scanned + 1;
      var fields := desired(source.content);
      if UpToDate(source.content, fields) {
        same := same + 1;
        return true;
      }
      ok := Change(id, source, fields);
      ChangeHandles(desired, start, others, faults, old(s), seen, s, id, ok);
    }

    /** The apply loop over the scanned chunks: every scanned chunk is counted
        once, and as changed exactly when it got its receipt. Only the write that
        ends a failed run can lack one, and a completed run has served every
        chunk that nobody else wrote. It completes exactly when every chunk found
        without its fields has its request answered. */
    method Apply(ids: seq<Id>) returns (ok: bool)
      requires Valid(desired, s) && Grounded(start, others, s) && Distinct(ids)
      requires forall i :: 0 <= i < |ids| ==> ids[i] !in s.own
      modifies this
      ensures Valid(desired, s) && Grounded(start, others, s) && Extends(old(s), s, (set id | id in ids))
      ensures OneLapse(old(s), s)
      ensures ok <==> ApplyCompletes(desired, start, others, faults, ids, old(s).turns)
      ensures ok ==> Applies(desired, start, others, old(s), s, ids, |ids|)
      ensures Adds(old(Tally()), Tally(), ok)
    {
      for i := 0 to |ids|
        invariant Valid(desired, s) && Grounded(start, others, s) && Applies(desired, start, others, old(s), s, ids, i)
        invariant ApplyCompletes(desired, start, others, faults, ids, old(s).turns) <==>
                  ApplyCompletes(desired, start, others, faults, ids[i..], s.turns)
        invariant Adds(old(Tally()), Tally(), true)
      {
        ghost var before, tally := s, Tally();
        assert ids[i..][0] == ids[i] && ids[i..][1..] == ids[i + 1..];
        ok := ApplyOne(ids[i]);
        AppliesNext(desired, start, others, old(s), before, s, ids, i, ok);
        AddsNext(old(Tally()), tally, Tally(), ok);
        if !ok { return; }
      }
      return true;
    }

    /** The guarded rollback of one receipt. False is a failed request, which may
        still have taken effect. */
    method RollbackOne(record: Record) returns (ok: bool)
      requires record.Applied?
      modifies this`s, this`changed, this`conflicts
      ensures s == if faults(old(s).turns).RequestLost? then old(s) else Attempted(old(s), record)
      ensures ok <==> faults(old(s).turns).NoFault? && record.id in old(s).store
      ensures !ok ==> changed == old(changed) && conflicts == old(conflicts)
      ensures ok ==>
                if old(s).store[record.id].version == record.version
                then changed == old(changed) + 1 && conflicts == old(conflicts)
                else changed == old(changed) && conflicts == old(conflicts) + 1
    {
      var fault := faults(s.turns);
      var id := record.id;
      if fault.RequestLost? || id !in s.store { return false; }
      var conflict := s.store[id].version != record.version;
      if !conflict { s := Revert(s, record); }
      if fault.AnswerLost? { return false; }
      if conflict { conflicts := conflicts + 1; } else { changed := changed + 1; }
      return true;
    }

    /** The turn of receipt j, with other writers acting before it. */
    method RollbackNext(j: nat, ghost before: State) returns (ok: bool)
      requires Valid(desired, s) && Grounded(start, others, s) && RollsTo(start, others, faults, before, s, j + 1, true)
      requires forall c :: desired(c).Keys <= FIELDS
      modifies this`s, this`changed, this`conflicts
      ensures Valid(desired, s) && Grounded(start, others, s) && RollsTo(start, others, faults, before, s, j, ok)
    {
      if s.journal[j].Intent? {
        IntentRolls(start, others, faults, before, s, j);
        return true;
      }
      ghost var earlier := s;
      Others();
      ghost var now := s;
      ok := RollbackOne(s.journal[j]);
      ReceiptRolls(desired, start, others, faults, before, earlier, now, j);
    }

    /** The rollback loop, newest receipt first. However it ends, a chunk holds
        exactly what the others made of the start, unless a write of the backfill
        still stands there. It completes exactly when every receipt has its
        request answered in its turn, and then only writes that were never
        answered, and so have no receipt, still stand; otherwise nothing behind
        the receipt that stopped it is rolled back. */
    method Rollback() returns (ok: bool)
      requires Valid(desired, s) && Grounded(start, others, s) && forall c :: desired(c).Keys <= FIELDS
      modifies this`s, this`changed, this`conflicts
      ensures Valid(desired, s) && Grounded(start, others, s) && RollsForward(old(s), s)
      ensures forall id :: !Stands(s, id) ==> At(s.store, id) == GiftOf(GivenAfter(start, others, s.turns), id)
      ensures ok ==> forall id :: Stands(s, id) ==> s.own[id].stage == Unanswered
      ensures ok <==> RollbackCompletes(start, others, faults, old(s).journal, old(s).turns)
      ensures Blocked(start, others, faults, old(s), s)
    {
      var j: nat := |s.journal|;
      ok := true;
      while j > 0 && ok
        invariant Valid(desired, s) && Grounded(start, others, s) && j <= |s.journal|
        invariant RollsTo(start, others, faults, old(s), s, j, ok) && (!ok ==> j < |s.journal|)
      {
        j := j - 1;
        ok := RollbackNext(j, old(s));
      }
      RollsEnd(start, others, faults, old(s), s, j, ok);
      forall id | !Stands(s, id) ensures At(s.store, id) == GiftOf(s.given, id) { assert Traced(desired, s, id); }
      if ok { AllUndone(s); }
    }
  }

  /** What the rollback never loses. */
  ghost predicate RollsForward(before: State, after: State) {
    && after.journal == before.journal && after.own.Keys == before.own.Keys && before.foreign <= after.foreign
    && (forall id :: id in before.own ==>
          && after.own[id].(stage := before.own[id].stage) == before.own[id]
          && (after.own[id].stage == before.own[id].stage || after.own[id].stage == RolledBack))
  }

  lemma RevertForward(s: State, record: Record)
    requires record.id in s.store && record.id in s.own
    ensures RollsForward(s, Revert(s, record)) && Revert(s, record).own[record.id].stage == RolledBack
  {
  }

  lemma AttemptedValid(desired: Content -> Content, s: State, j: nat)
    requires Valid(desired, s) && j < |s.journal| && s.journal[j].Applied?
    requires forall c :: desired(c).Keys <= FIELDS
    ensures Valid(desired, Attempted(s, s.journal[j])) && RollsForward(s, Attempted(s, s.journal[j]))
    ensures s.journal[j].id in s.store ==> !Stands(Attempted(s, s.journal[j]), s.journal[j].id)
  {
    var record := s.journal[j];
    ReceiptFacts(desired, s, j);
    if record.id in s.store && s.store[record.id].version == record.version {
      RevertValid(desired, s, j);
      RevertForward(s, record);
      assert Attempted(s, record) == Revert(s, record);
    } else {
      assert Traced(desired, s, record.id);
    }
  }

  /** No receipt from position j on still stands. */
  ghost predicate Undone(s: State, j: int) {
    forall k :: 0 <= j <= k < |s.journal| && s.journal[k].Applied? ==> !Stands(s, s.journal[k].id)
  }

  /** The rollback has come down to position j, or stopped there. */
  ghost predicate RollsTo(start: Gifts, others: nat -> seq<Move>, faults: nat -> Fault, before: State, s: State, j: nat, ok: bool) {
    && RollsForward(before, s) && j <= |before.journal| && s.turns == before.turns + ReceiptsFrom(before.journal, j)
    && (forall k :: j < k < |before.journal| ==> TurnAnswered(start, others, faults, before.journal, before.turns, k))
    && (j < |before.journal| ==> (ok <==> TurnAnswered(start, others, faults, before.journal, before.turns, j)))
    && (forall k :: 0 <= k < j ==> KeepsReceipt(before, s, k))
    && (ok ==> Undone(s, j))
  }

  lemma IntentRolls(start: Gifts, others: nat -> seq<Move>, faults: nat -> Fault, before: State, s: State, j: nat)
    requires RollsTo(start, others, faults, before, s, j + 1, true) && before.journal[j].Intent?
    ensures RollsTo(start, others, faults, before, s, j, true)
  {
  }

  lemma AttemptedKeeps(desired: Content -> Content, s: State, j: nat)
    requires Valid(desired, s) && j < |s.journal| && s.journal[j].Applied?
    ensures forall k :: 0 <= k < j ==> KeepsReceipt(s, Attempted(s, s.journal[j]), k)
  {
    forall k | 0 <= k < j && s.journal[k].Applied? ensures KeepsReceipt(s, Attempted(s, s.journal[j]), k) {
      OneReceiptEach(desired, s, j, k);
    }
  }

  lemma TurnRolls(start: Gifts, others: nat -> seq<Move>, faults: nat -> Fault, before: State, s: State, now: State, after: State, j: nat, ok: bool)
    requires RollsTo(start, others, faults, before, s, j + 1, true) && before.journal[j].Applied?
    requires OthersOnly(s, now) && now.turns == s.turns + 1 && RollsForward(now, after) && after.turns == now.turns
    requires ok <==> Answered(start, others, faults, before.journal[j].id, now.turns)
    requires ok ==> !Stands(after, before.journal[j].id)
    requires forall k :: 0 <= k < j ==> KeepsReceipt(now, after, k)
    ensures RollsTo(start, others, faults, before, after, j, ok)
  {
    forall k | 0 <= k < j ensures KeepsReceipt(before, after, k) {
      assert KeepsReceipt(before, s, k) && KeepsReceipt(now, after, k);
    }
  }

  /** Others act, and then the request for receipt j, unless it is lost. */
  lemma ReceiptRolls(desired: Content -> Content, start: Gifts, others: nat -> seq<Move>, faults: nat -> Fault,
                     before: State, s: State, now: State, j: nat)
    requires Valid(desired, now) && Grounded(start, others, now) && OthersOnly(s, now) && now.turns == s.turns + 1
    requires RollsTo(start, others, faults, before, s, j + 1, true) && before.journal[j].Applied?
    requires forall c :: desired(c).Keys <= FIELDS
    ensures var fault, record := faults(now.turns), before.journal[j];
            var after := if fault.RequestLost? then now else Attempted(now, record);
            && Valid(desired, after) && Grounded(start, others, after)
            && RollsTo(start, others, faults, before, after, j, fault.NoFault? && record.id in now.store)
  {
    var fault, record := faults(now.turns), before.journal[j];
    var after := if fault.RequestLost? then now else Attempted(now, record);
    AttemptedValid(desired, now, j);
    PresentAsGiven(desired, start, others, now, record.id);
    AttemptedKeeps(desired, now, j);
    TurnRolls(start, others, faults, before, s, now, after, j, fault.NoFault? && record.id in now.store);
  }

  lemma RollsEnd(start: Gifts, others: nat -> seq<Move>, faults: nat -> Fault, before: State, s: State, j: nat, ok: bool)
    requires RollsTo(start, others, faults, before, s, j, ok) && (ok ==> j == 0) && (!ok ==> j < |before.journal|)
    ensures ok <==> RollbackCompletes(start, others, faults, before.journal, before.turns)
    ensures Blocked(start, others, faults, before, s)
  {
    if ok && before.journal != [] { assert TurnAnswered(start, others, faults, before.journal, before.turns, 0); }
  }

  lemma AllUndone(s: State)
    requires JournalOk(s.journal, s.own) && Undone(s, 0)
    ensures forall id :: Stands(s, id) ==> s.own[id].stage == Unanswered
  {
    forall id | Stands(s, id) ensures s.own[id].stage == Unanswered { assert Journaled(s.journal, id, s.own[id]); }
  }

  /** Apply to a fresh index, whether or not it completes, and then a rollback
      of its journal. Once that completes every chunk is what it would be had the
      backfill never run, and one that no other writer ever wrote is what it was
      at the start; the one exception is a write whose lost answer ended the
      apply run. Without faults and deletions both complete, with no exception. */
  method RoundTrip(desired: Content -> Content, others: nat -> seq<Move>, faults: nat -> Fault, store: map<Id, Doc>, clock: nat, ids: seq<Id>)
    returns (after: map<Id, Doc>, begun: nat, turns: nat, journal: seq<Record>, applied: bool, undone: bool, lapsed: set<Id>)
    requires forall id :: id in store ==> store[id].version < clock
    requires Distinct(ids) && forall c :: desired(c).Keys <= FIELDS
    ensures applied <==> ApplyCompletes(desired, Contents(store), others, faults, ids, 0)
    ensures undone <==> RollbackCompletes(Contents(store), others, faults, journal, begun)
    ensures forall a, b :: a in lapsed && b in lapsed ==> !applied && a == b
    ensures undone ==> forall id :: id !in lapsed ==> At(after, id) == GiftOf(GivenAfter(Contents(store), others, turns), id)
    ensures undone ==> forall id :: id !in lapsed && NeverTold(others, turns, id) ==> At(after, id) == At(store, id)
    ensures NoFaultsEver(faults) && NoDeletesEver(others) ==>
              applied && undone && forall id :: At(after, id) == GiftOf(GivenAfter(Contents(store), others, turns), id)
  {
    var job := new Job(desired, others, faults, store, clock);
    var blank := job.s;
    applied := job.Apply(ids);
    var written := job.s;
    begun, journal := job.s.turns, job.s.journal;
    undone := job.Rollback();
    after, turns := job.s.store, job.s.turns;
    lapsed := set id | id in written.own && Lapsed(blank, written, id);
    forall id | NeverTold(others, turns, id)
      ensures GiftOf(GivenAfter(Contents(store), others, turns), id) == At(store, id)
    {
      NeverToldKeeps(Contents(store), others, turns, id);
    }
    if NoFaultsEver(faults) && NoDeletesEver(others) {
      NothingStopsApply(desired, Contents(store), others, faults, ids, 0);
      NothingStopsRollback(desired, Contents(store), others, faults, written);
    }
  }

  function ThirdTurnDeletes(n: nat): seq<Move> { if n == 2 then [("c", None)] else [] }

  lemma DeletedOnTurn(start: Gifts)
    ensures NeverTold(ThirdTurnDeletes, 2, "c") && GiftOf(GivenAfter(start, ThirdTurnDeletes, 3), "c").None?
    ensures GiftOf(GivenAfter(start, ThirdTurnDeletes, 1), "c") == GiftOf(GivenAfter(start, ThirdTurnDeletes, 2), "c") == GiftOf(start, "c")
    ensures forall n: nat :: 3 <= n ==> LeavesAlone(ThirdTurnDeletes(n), "c")
  {
    NeverToldKeeps(start, ThirdTurnDeletes, 1, "c");
    NeverToldKeeps(start, ThirdTurnDeletes, 2, "c");
    assert ThirdTurnDeletes(2)[..0] == [];
  }

  lemma DeletedAfter(start: Gifts, faults: nat -> Fault, s: State)
    requires JournalOk(s.journal, s.own) && "c" in s.own && s.own["c"].stage != Unanswered && s.turns == 2
    ensures !RollbackCompletes(start, ThirdTurnDeletes, faults, s.journal, s.turns)
  {
    assert Journaled(s.journal, "c", s.own["c"]);
    DeletedOnTurn(start);
    DeletedChunkStops(start, ThirdTurnDeletes, faults, s.journal, s.own["c"].intent + 1, 3, s.turns);
  }

  /** Such a run: one chunk gets its fields and its receipt, another writer deletes
      it, no request ever fails, and the rollback does not complete. */
  method DeletedChunk(content: Content, fields: Content) returns (applied: bool, undone: bool)
    requires fields.Keys <= FIELDS && !UpToDate(content, fields)
    ensures applied && !undone
  {
    var job := new Job(_ => fields, ThirdTurnDeletes, _ => NoFault, map["c" := Doc(content, 0)], 1);
    DeletedOnTurn(job.start);
    assert GiftOf(job.start, "c") == Some(content);
    applied := job.ApplyOne("c");
    DeletedAfter(job.start, job.faults, job.s);
    undone := job.Rollback();
  }
}
