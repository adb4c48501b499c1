/** The sequential importer's document loop: its counters, and the rule that
    stops it after too many deferrals in a row. */
module ImportLoop {
  /** How the attempt on a document ends; Fails is any other ImportStopped. */
  datatype Verdict = Passes | Defers(errorCode: string) | Fails

  /** What became of a document at the loop head that follows it. */
  datatype Fate = Completed | Skipped | NewlyDeferred | AlreadyDeferred

  /** How the run ends; Gated is a stop by the recycling or the resource gate
      after a document was counted. */
  datatype Ending = Finished | LimitReached | Gated | Failed

  function Count(log: seq<Fate>, fate: Fate): nat {
    if log == [] then 0 else (if log[|log| - 1] == fate then 1 else 0) + Count(log[..|log| - 1], fate)
  }

  /** Deferrals in a row at the end of the log; documents that were deferred in
      an earlier run are passed over without an attempt. */
  function Trailing(log: seq<Fate>): nat {
    if log == [] then 0
    else
      match log[|log| - 1]
      case NewlyDeferred => 1 + Trailing(log[..|log| - 1])
      case AlreadyDeferred => Trailing(log[..|log| - 1])
      case _ => 0
  }

  /** Document k of the log is the one that reached the limit. */
  predicate AtLimit(log: seq<Fate>, limit: int, k: nat)
    requires k < |log|
  {
    log[k] == NewlyDeferred && Trailing(log[..k + 1]) >= limit
  }

  /** The gate, which is asked after every attempt that was not skipped, stops
      the run at document k. */
  predicate AtGate(log: seq<Fate>, gates: nat -> bool, k: nat)
    requires k < |log|
  {
    (log[k] == NewlyDeferred || log[k] == Completed) && gates(k)
  }

  /** The run goes on past these documents. */
  ghost predicate GoesOn(log: seq<Fate>, limit: int, gates: nat -> bool, n: int)
    requires n <= |log|
  {
    forall k :: 0 <= k < n ==> !AtLimit(log, limit, k) && !AtGate(log, gates, k)
  }

  /** No run of deferrals in the log ever reached the limit. */
  ghost predicate RunsStayBelow(log: seq<Fate>, limit: int) {
    forall n :: 0 <= n <= |log| && Trailing(log[..n]) > 0 ==> Trailing(log[..n]) < limit
  }

  lemma CountNext(log: seq<Fate>, fate: Fate, next: Fate)
    ensures Count(log + [next], fate) == Count(log, fate) + if next == fate then 1 else 0
  {
    assert (log + [next])[..|log|] == log;
  }

  lemma TrailingNext(log: seq<Fate>, next: Fate)
    ensures Trailing(log + [next]) ==
            if next == NewlyDeferred then Trailing(log) + 1 else if next == AlreadyDeferred then Trailing(log) else 0
  {
    assert (log + [next])[..|log|] == log;
  }

  /** All counters at once. */
  lemma LogNext(log: seq<Fate>, next: Fate)
    ensures Count(log + [next], Completed) == Count(log, Completed) + if next == Completed then 1 else 0
    ensures Count(log + [next], Skipped) == Count(log, Skipped) + if next == Skipped then 1 else 0
    ensures Count(log + [next], NewlyDeferred) == Count(log, NewlyDeferred) + if next == NewlyDeferred then 1 else 0
    ensures Trailing(log + [next]) ==
            if next == NewlyDeferred then Trailing(log) + 1 else if next == AlreadyDeferred then Trailing(log) else 0
  {
    CountNext(log, Completed, next);
    CountNext(log, Skipped, next);
    CountNext(log, NewlyDeferred, next);
    TrailingNext(log, next);
  }

  /** Every document has exactly one fate. */
  lemma {:induction false} FatesPartition(log: seq<Fate>)
    ensures |log| == Count(log, Completed) + Count(log, Skipped) + Count(log, NewlyDeferred) + Count(log, AlreadyDeferred)
  {
    if log != [] { FatesPartition(log[..|log| - 1]); }
  }

  /** The trailing count measures what the stop rule is about: over a stretch
      without a success it grows by exactly the deferrals in that stretch, and a
      success resets it. */
  lemma {:induction false} TrailingMeasures(log: seq<Fate>, lo: nat, hi: nat)
    requires lo <= hi <= |log| && forall i :: lo <= i < hi ==> log[i] == NewlyDeferred || log[i] == AlreadyDeferred
    ensures Trailing(log[..hi]) == Trailing(log[..lo]) + Count(log[..hi], NewlyDeferred) - Count(log[..lo], NewlyDeferred)
    ensures hi < |log| && (log[hi] == Completed || log[hi] == Skipped) ==> Trailing(log[..hi + 1]) == 0
    decreases hi
  {
    if lo < hi {
      TrailingMeasures(log, lo, hi - 1);
      assert log[..hi] == log[..hi - 1] + [log[hi - 1]];
      CountNext(log[..hi - 1], NewlyDeferred, log[hi - 1]);
      TrailingNext(log[..hi - 1], log[hi - 1]);
    }
    if hi < |log| {
      assert log[..hi + 1] == log[..hi] + [log[hi]];
      TrailingNext(log[..hi], log[hi]);
    }
  }

  class Importer {
    const maxConsecutiveDeferred: int
    var completed: nat
    var skipped: nat
    var consecutiveDeferred: nat
    var deferredRuntime: nat
    var deferredRecords: map<string, string>
    var existing: set<string>
    ghost var log: seq<Fate>

    constructor (limit: int, loaded: map<string, string>, existing: set<string>)
      ensures maxConsecutiveDeferred == limit && deferredRecords == loaded && this.existing == existing
      ensures completed == skipped == consecutiveDeferred == 0 && deferredRuntime == |loaded| && log == []
    {
      maxConsecutiveDeferred := limit;
      completed, skipped, consecutiveDeferred := 0, 0, 0;
      deferredRuntime, deferredRecords, this.existing := |loaded|, loaded, existing;
      log := [];
    }

    /** What every loop head knows. */
    ghost predicate Counted(loaded: map<string, string>)
      reads this
      ensures Counted(loaded) ==> |log| == completed + skipped + Count(log, NewlyDeferred) + Count(log, AlreadyDeferred)
    {
      FatesPartition(log);
      && completed == Count(log, Completed) && skipped == Count(log, Skipped)
      && deferredRuntime == |deferredRecords| == |loaded| + Count(log, NewlyDeferred)
      && consecutiveDeferred == Trailing(log)
    }

    /** Record a deferral; the answer is whether the limit now stops the run. */
    method DeferRegistration(relative: string, errorCode: string, ghost loaded: map<string, string>) returns (stop: bool)
      requires Counted(loaded) && relative !in deferredRecords
      modifies this
      ensures Counted(loaded) && log == old(log) + [NewlyDeferred]
      ensures deferredRecords == old(deferredRecords)[relative := errorCode] && existing == old(existing)
      ensures stop <==> Trailing(log) >= maxConsecutiveDeferred
    {
      ghost var before := log;
      LogNext(before, NewlyDeferred);
      deferredRecords := deferredRecords[relative := errorCode];
      deferredRuntime := |deferredRecords|;
      consecutiveDeferred := consecutiveDeferred + 1;
      log := log + [NewlyDeferred];
      assert Count(log, NewlyDeferred) == Count(before, NewlyDeferred) + 1 && Trailing(log) == Trailing(before) + 1;
      assert Count(log, Completed) == Count(before, Completed) && Count(log, Skipped) == Count(before, Skipped);
      stop := consecutiveDeferred >= maxConsecutiveDeferred;
    }

    /** The fate of document i, from what was known before the run. */
    static function FateOf(selected: seq<string>, verdicts: nat -> Verdict, loaded: map<string, string>, existing: set<string>, i: nat): Fate
      requires i < |selected|
    {
      if selected[i] in loaded then AlreadyDeferred
      else if verdicts(i).Defers? then NewlyDeferred
      else if selected[i] in existing then Skipped
      else Completed
    }

    /** What the fates stand for: passed over since an earlier run, deferred by
        its own attempt, and of those that passed, indexed before or now. */
    static lemma FatesMean(selected: seq<string>, verdicts: nat -> Verdict, loaded: map<string, string>, existing: set<string>, i: nat)
      requires i < |selected|
      ensures FateOf(selected, verdicts, loaded, existing, i) == AlreadyDeferred <==> selected[i] in loaded.Keys
      ensures FateOf(selected, verdicts, loaded, existing, i) == NewlyDeferred <==> selected[i] !in loaded.Keys && verdicts(i).Defers?
      ensures FateOf(selected, verdicts, loaded, existing, i) == Skipped <==>
              selected[i] !in loaded.Keys && !verdicts(i).Defers? && selected[i] in existing
      ensures FateOf(selected, verdicts, loaded, existing, i) == Completed <==>
              selected[i] !in loaded.Keys && !verdicts(i).Defers? && selected[i] !in existing
    {
    }

    /** The documents so far had these fates, and none of them failed. */
    static ghost predicate Logged(selected: seq<string>, verdicts: nat -> Verdict, loaded: map<string, string>, existing: set<string>, log: seq<Fate>) {
      && |log| <= |selected|
      && (forall k :: 0 <= k < |log| ==> log[k] == FateOf(selected, verdicts, loaded, existing, k))
      && (forall k :: 0 <= k < |log| && selected[k] !in loaded ==> !verdicts(k).Fails?)
    }

    /** One document: its fate is logged unless the run stops before its loop
        head. */
    method Attempt(selected: seq<string>, verdicts: nat -> Verdict, gates: nat -> bool, i: nat, ghost loaded: map<string, string>, ghost known: set<string>)
      returns (stop: Ending)
      requires i < |selected| && |log| == i && Counted(loaded)
      requires selected[i] in deferredRecords <==> selected[i] in loaded
      requires selected[i] in existing <==> selected[i] in known
      modifies this
      ensures Counted(loaded)
      ensures stop.Failed? <==> selected[i] !in loaded && verdicts(i).Fails?
      ensures stop.Failed? ==> log == old(log)
      ensures !stop.Failed? ==> log == old(log) + [FateOf(selected, verdicts, loaded, known, i)]
      ensures stop.LimitReached? <==> |log| > i && AtLimit(log, maxConsecutiveDeferred, i)
      ensures stop.Gated? <==> |log| > i && !AtLimit(log, maxConsecutiveDeferred, i) && AtGate(log, gates, i)
      ensures forall path :: path != selected[i] ==>
                (path in deferredRecords <==> path in old(deferredRecords)) && (path in existing <==> path in old(existing))
    {
      var relative := selected[i];
      ghost var fate := FateOf(selected, verdicts, loaded, known, i);
      LogNext(log, fate);
      assert (log + [fate])[..i + 1] == log + [fate];
      if relative in deferredRecords {
        log := log + [AlreadyDeferred];
        return Finished;
      }
      if verdicts(i).Fails? { return Failed; }
      if verdicts(i).Defers? {
        var limit := DeferRegistration(relative, verdicts(i).errorCode, loaded);
        return if limit then LimitReached else if gates(i) then Gated else Finished;
      }
      consecutiveDeferred := 0;
      if relative in existing {
        skipped := skipped + 1;
        log := log + [Skipped];
        return Finished;
      }
      completed := completed + 1;
      existing := existing + {relative};
      log := log + [Completed];
      return if gates(i) then Gated else Finished;
    }

    /** The run over a duplicate-free queue: at the end every processed document
        is counted once, and the run has ended at the first document that fails,
        reaches the limit or meets a closed gate, in this order, if there is one. */
    method Run(selected: seq<string>, verdicts: nat -> Verdict, gates: nat -> bool) returns (ending: Ending)
      requires forall i, j :: 0 <= i < j < |selected| ==> selected[i] != selected[j]
      requires completed == skipped == consecutiveDeferred == 0 && log == [] && deferredRuntime == |deferredRecords|
      modifies this
      ensures Counted(old(deferredRecords)) && Logged(selected, verdicts, old(deferredRecords), old(existing), log)
      ensures GoesOn(log, maxConsecutiveDeferred, gates, if ending.Finished? || ending.Failed? then |log| else |log| - 1)
      ensures ending.Finished? ==> |log| == |selected| && RunsStayBelow(log, maxConsecutiveDeferred)
      ensures ending.LimitReached? ==> log != [] && AtLimit(log, maxConsecutiveDeferred, |log| - 1)
      ensures ending.Gated? ==> log != [] && !AtLimit(log, maxConsecutiveDeferred, |log| - 1) && AtGate(log, gates, |log| - 1)
      ensures ending.Failed? ==> |log| < |selected| && selected[|log|] !in old(deferredRecords) && verdicts(|log|).Fails?
    {
      ghost var loaded, known := deferredRecords, existing;
      for i := 0 to |selected|
        invariant |log| == i && Counted(loaded) && Logged(selected, verdicts, loaded, known, log)
        invariant GoesOn(log, maxConsecutiveDeferred, gates, i)
        invariant forall k :: i <= k < |selected| ==>
                    (selected[k] in deferredRecords <==> selected[k] in loaded) && (selected[k] in existing <==> selected[k] in known)
      {
        ghost var before := log;
        ending := Attempt(selected, verdicts, gates, i, loaded, known);
        if ending.Failed? { return; }
        LogGrows(selected, verdicts, gates, maxConsecutiveDeferred, loaded, known, before, log);
        if !ending.Finished? { return; }
      }
      BelowLimit(log, maxConsecutiveDeferred, gates, |log|);
      assert log[..|log|] == log;
      return Finished;
    }
  }

  /** One more document. */
  lemma LogGrows(selected: seq<string>, verdicts: nat -> Verdict, gates: nat -> bool, limit: int,
                 loaded: map<string, string>, known: set<string>, before: seq<Fate>, log: seq<Fate>)
    requires Importer.Logged(selected, verdicts, loaded, known, before) && GoesOn(before, limit, gates, |before|)
    requires |before| < |selected| && log == before + [Importer.FateOf(selected, verdicts, loaded, known, |before|)]
    requires selected[|before|] in loaded || !verdicts(|before|).Fails?
    ensures Importer.Logged(selected, verdicts, loaded, known, log) && GoesOn(log, limit, gates, |before|)
    ensures !AtLimit(log, limit, |before|) && !AtGate(log, gates, |before|) ==> GoesOn(log, limit, gates, |log|)
  {
    forall k | 0 <= k < |before| ensures !AtLimit(log, limit, k) && !AtGate(log, gates, k) {
      assert log[..k + 1] == before[..k + 1];
      assert !AtLimit(before, limit, k) && !AtGate(before, gates, k);
    }
  }

  /** Where no document reached the limit, no run of deferrals did. */
  lemma {:induction false} BelowLimit(log: seq<Fate>, limit: int, gates: nat -> bool, n: nat)
    requires n <= |log| && GoesOn(log, limit, gates, n)
    ensures RunsStayBelow(log[..n], limit)
  {
    forall m | 0 <= m <= n && Trailing(log[..n][..m]) > 0 ensures Trailing(log[..n][..m]) < limit {
      assert log[..n][..m] == log[..m];
      if m < n {
        BelowLimit(log, limit, gates, m);
        assert log[..m][..m] == log[..m];
      } else {
        var k := n - 1;
        assert log[..n] == log[..k] + [log[k]];
        TrailingNext(log[..k], log[k]);
        assert !AtLimit(log, limit, k);
        BelowLimit(log, limit, gates, k);
        assert log[..k][..k] == log[..k];
      }
    }
  }
}
