/** The embedding engine: batching, recursive bisection when memory runs out,
    and the scatter back to the callers' order. The model call is a pointwise
    function that may fail on any call in any pattern. */
module EmbeddingEngine {
  import opened Wrappers
  import opened BatchPlan

  datatype Fault = EmptyInput | TooLong | OutOfMemory | InvalidOutput

  datatype Result<+T> = Ok(value: T) | Failed(fault: Fault)

  datatype ModelAnswer = Fits | NoMemory | BadOutput

  class GTEEngine<Text(!new), Vector(!new)> {
    const config: Config
    const tokens: Text -> nat
    const embed: Text -> Vector
    // What the c-th call of the model does with a batch: arbitrary.
    const model: (nat, seq<Text>) -> ModelAnswer
    var calls: nat
    ghost var log: seq<(seq<Text>, ModelAnswer)>
    ghost var batches: seq<seq<nat>>

    constructor (config: Config, tokens: Text -> nat, embed: Text -> Vector, model: (nat, seq<Text>) -> ModelAnswer)
      ensures this.config == config && this.tokens == tokens && this.embed == embed && this.model == model
      ensures calls == 0 && log == [] && batches == []
    {
      this.config, this.tokens, this.embed, this.model := config, tokens, embed, model;
      calls, log, batches := 0, [], [];
    }

    /** The log has every call of the model with its batch and its answer. */
    ghost predicate Logged()
      reads this
    {
      |log| == calls && forall c :: 0 <= c < calls ==> log[c].1 == model(c, log[c].0)
    }

    /** One of these calls got a text of its own, one of these, and was out of memory. */
    static ghost predicate SingleStarved(calls: seq<(seq<Text>, ModelAnswer)>, texts: seq<Text>) {
      exists c :: 0 <= c < |calls| && calls[c].1 == NoMemory && |calls[c].0| == 1 && calls[c].0[0] in texts
    }

    /** One of these calls got only such texts and returned unusable vectors. */
    static ghost predicate SomeBadOutput(calls: seq<(seq<Text>, ModelAnswer)>, texts: seq<Text>) {
      exists c :: 0 <= c < |calls| && calls[c].1 == BadOutput && forall t :: t in calls[c].0 ==> t in texts
    }

    /** A failure of these calls is one of these two. */
    static ghost predicate Excused(fault: Fault, calls: seq<(seq<Text>, ModelAnswer)>, texts: seq<Text>) {
      match fault
      case OutOfMemory => SingleStarved(calls, texts)
      case InvalidOutput => SomeBadOutput(calls, texts)
      case _ => false
    }

    static lemma ExcusedWithin(fault: Fault, log: seq<(seq<Text>, ModelAnswer)>, from: nat, part: seq<Text>, first: nat, texts: seq<Text>)
      requires first <= from <= |log| && Excused(fault, log[from..], part)
      requires forall t :: t in part ==> t in texts
      ensures Excused(fault, log[first..], texts)
    {
      assert forall c :: 0 <= c < |log| - from ==> log[from..][c] == log[first..][c + (from - first)];
    }

    function Embedded(texts: seq<Text>): (r: seq<Vector>)
      ensures |r| == |texts|
      ensures forall i :: 0 <= i < |texts| ==> r[i] == embed(texts[i])
    {
      seq(|texts|, i requires 0 <= i < |texts| => embed(texts[i]))
    }

    lemma EmbeddedSplit(texts: seq<Text>, mid: nat)
      requires mid <= |texts|
      ensures Embedded(texts[..mid]) + Embedded(texts[mid..]) == Embedded(texts)
    {
    }

    method Batch(texts: seq<Text>) returns (r: Result<seq<Vector>>)
      requires Logged()
      modifies this`calls, this`log
      ensures Logged() && calls == old(calls) + 1 && log == old(log) + [(texts, model(old(calls), texts))]
      ensures r == match model(old(calls), texts)
                   case Fits => Ok(Embedded(texts))
                   case NoMemory => Failed(OutOfMemory)
                   case BadOutput => Failed(InvalidOutput)
    {
      var answer := model(calls, texts);
      calls, log := calls + 1, log + [(texts, answer)];
      match answer {
        case Fits => r := Ok(Embedded(texts));
        case NoMemory => r := Failed(OutOfMemory);
        case BadOutput => r := Failed(InvalidOutput);
      }
    }

    /** Halve the batch until it fits: at most 2n - 1 model calls, the vectors in
        order, and out of memory only if one text alone does not fit. */
    method Retry(texts: seq<Text>) returns (r: Result<seq<Vector>>)
      requires texts != [] && Logged()
      modifies this`calls, this`log
      ensures Logged() && old(log) <= log && old(calls) < calls <= old(calls) + 2 * |texts| - 1
      ensures r.Ok? ==> r.value == Embedded(texts)
      ensures r.Failed? ==> Excused(r.fault, log[old(calls)..], texts)
      decreases |texts|
    {
      r := Batch(texts);
      assert log[old(calls)] == (texts, model(old(calls), texts));
      if r != Failed(OutOfMemory) {
        assert r.Failed? ==> log[old(calls)..][0].1 == BadOutput;
        return;
      }
      if |texts| == 1 {
        assert log[old(calls)..][0] == (texts, NoMemory);
        return;
      }
      var mid := |texts| / 2;
      ghost var start := calls;
      var left := Retry(texts[..mid]);
      if left.Failed? {
        ExcusedWithin(left.fault, log, start, texts[..mid], old(calls), texts);
        return left;
      }
      ghost var between := calls;
      var right := Retry(texts[mid..]);
      if right.Failed? {
        ExcusedWithin(right.fault, log, between, texts[mid..], old(calls), texts);
        return right;
      }
      EmbeddedSplit(texts, mid);
      r := Ok(left.value + right.value);
    }

    /** The fill loop, scanning the window upwards. */
    method Fill(lengths: seq<nat>, ids: seq<nat>, ghost rest: seq<nat>) returns (selected: seq<nat>)
      requires 0 < |ids| <= |rest| && NonIncreasing(rest)
      requires forall k :: 0 <= k < |ids| ==> ids[k] < |lengths| && rest[k] == lengths[ids[k]]
      ensures selected == ids[..Longest(config, rest, |ids|)]
    {
      var n := lengths[ids[0]];
      selected := [ids[0]];
      var held := n;
      ghost var k := 1;
      assert rest[..1] == [n] && Sum([n]) == n + Sum([]);
      while |selected| < |ids|
        invariant 1 <= k <= |ids| && selected == ids[..k]
        invariant held == Sum(rest[..k])
        invariant k == 1 || Fills(config, rest, k)
        decreases |ids| - k
      {
        var next := held + lengths[ids[|selected|]];
        FillsNext(config, rest, k, n, held);
        if next * 100 < config.minTokenFill * n * (|selected| + 1) { break; }
        selected := selected + [ids[|selected|]];
        held := next;
        k := k + 1;
      }
      GreedyIsLongest(config, rest, k, |ids|);
    }

    /** The group at this offset: the longest well-filled prefix of its window. */
    method Group(lengths: seq<nat>, order: seq<nat>, offset: nat, ghost s: seq<nat>) returns (ids: seq<nat>)
      requires config.shortBatch > 0 && offset < |order|
      requires Measures(s, lengths, order) && NonIncreasing(s[offset..])
      ensures |ids| == Take(config, s[offset..])
      ensures offset + |ids| <= |order| && ids == order[offset..offset + |ids|]
    {
      var n := lengths[order[offset]];
      var size := if config.cpu || n > 2048 then 1 else if n > 1024 then 2 else config.shortBatch;
      var end := if offset + size < |order| then offset + size else |order|;
      ids := order[offset..end];
      ghost var rest := s[offset..];
      assert n == rest[0] && |ids| == Window(config, rest);
      if n <= 1024 && config.minTokenFill != 0 {
        var window := ids;
        ids := Fill(lengths, window, rest);
        SliceOfSlice(order, offset, end, |ids|);
      }
    }

    /** Scatter the vectors of a group to their texts' positions. */
    method Scatter(out: array<Option<Vector>>, texts: seq<Text>, ids: seq<nat>, vectors: seq<Vector>)
      requires out.Length == |texts| && |ids| == |vectors|
      requires forall k :: 0 <= k < |ids| ==> ids[k] < |texts| && vectors[k] == embed(texts[ids[k]])
      modifies out
      ensures forall k :: 0 <= k < |ids| ==> out[ids[k]] == Some(embed(texts[ids[k]]))
      ensures forall i :: 0 <= i < |texts| && i !in ids ==> out[i] == old(out[i])
      ensures forall i :: 0 <= i < |texts| ==> out[i] == Some(embed(texts[i])) || out[i] == old(out[i])
    {
      for k := 0 to |ids|
        invariant forall j :: 0 <= j < k ==> out[ids[j]] == Some(embed(texts[ids[j]]))
        invariant forall i :: 0 <= i < |texts| && i !in ids ==> out[i] == old(out[i])
        invariant forall i :: 0 <= i < |texts| ==> out[i] == Some(embed(texts[i])) || out[i] == old(out[i])
      {
        out[ids[k]] := Some(vectors[k]);
      }
    }

    ghost predicate Written(texts: seq<Text>, order: seq<nat>, from: nat, to: nat, out: array<Option<Vector>>)
      reads out
      requires out.Length == |texts| && forall k :: 0 <= k < |order| ==> order[k] < |texts|
    {
      forall j :: from <= j < to && j < |order| ==> out[order[j]] == Some(embed(texts[order[j]]))
    }

    /** One turn of the encoding loop: group, embed, scatter. */
    method EncodeGroup(texts: seq<Text>, lengths: seq<nat>, order: seq<nat>, ghost s: seq<nat>, offset: nat, out: array<Option<Vector>>)
      returns (r: Result<nat>)
      requires config.shortBatch > 0 && offset < |order| && out.Length == |texts| == |lengths|
      requires Measures(s, lengths, order) && NonIncreasing(s[offset..])
      requires Logged() && Written(texts, order, 0, offset, out)
      modifies this, out
      ensures Logged() && old(log) <= log && old(calls) <= calls
      ensures r.Ok? ==>
                && 0 < r.value <= |order| - offset
                && calls <= old(calls) + 2 * r.value
                && batches + Remaining(config, order, s, offset + r.value) == old(batches) + Remaining(config, order, s, offset)
                && Written(texts, order, 0, offset + r.value, out)
      ensures r.Failed? ==> calls <= old(calls) + 2 * (|order| - offset)
      ensures r.Failed? ==> Excused(r.fault, log[old(calls)..], texts)
    {
      var ids := Group(lengths, order, offset, s);
      batches := batches + [ids];
      assert forall k :: 0 <= k < |ids| ==> ids[k] == order[offset + k];
      var group := seq(|ids|, k requires 0 <= k < |ids| => texts[ids[k]]);
      var part := Retry(group);
      if part.Failed? {
        ExcusedWithin(part.fault, log, old(calls), group, old(calls), texts);
        return Failed(part.fault);
      }
      Scatter(out, texts, ids, part.value);
      forall j | 0 <= j < offset + |ids|
        ensures out[order[j]] == Some(embed(texts[order[j]]))
      {
        if offset <= j { assert order[j] == ids[j - offset]; }
      }
      Regroup(old(batches), [ids], Remaining(config, order, s, offset + |ids|));
      return Ok(|ids|);
    }

    /** Position i of the answer is the embedding of text i, whatever the order,
        the grouping and the pattern of memory failures. */
    method Encode(texts: seq<Text>) returns (r: Result<(seq<Option<Vector>>, nat)>)
      requires config.shortBatch > 0 && Logged()
      modifies this
      ensures Logged() && old(log) <= log
      ensures r.Ok? ==> |r.value.0| == |texts| && forall i :: 0 <= i < |texts| ==> r.value.0[i] == Some(embed(texts[i]))
      ensures r.Ok? ==> r.value.1 == Sum(Lengths(texts)) && texts != []
      ensures r.Ok? ==> batches == old(batches) + Cut(Sorted(texts), PlanOf(texts))
      ensures r == Failed(EmptyInput) <==> texts == []
      ensures r == Failed(TooLong) <==> !Fits8192(texts)
      ensures r.Failed? && texts != [] && Fits8192(texts) ==> Excused(r.fault, log[old(calls)..], texts)
      ensures calls <= old(calls) + 2 * |texts|
    {
      if texts == [] { return Failed(EmptyInput); }
      var lengths := Lengths(texts);
      if exists i :: 0 <= i < |lengths| && lengths[i] > MAX_TOKENS { return Failed(TooLong); }
      var order := Order(lengths, |lengths|);
      ghost var s := Along(lengths, order);
      OrderReady(config, lengths, order, s);
      var out := new Option<Vector>[|texts|](_ => None);
      var done := EncodeGroups(texts, lengths, order, s, out);
      if done.Failed? { return Failed(done.fault); }
      return Ok((out[..], Sum(lengths)));
    }

    /** The encoding loop over all groups. */
    method EncodeGroups(texts: seq<Text>, lengths: seq<nat>, order: seq<nat>, ghost s: seq<nat>, out: array<Option<Vector>>)
      returns (r: Result<()>)
      requires config.shortBatch > 0 && out.Length == |texts| == |lengths|
      requires Measures(s, lengths, order) && forall n :: 0 <= n <= |s| ==> NonIncreasing(s[n..])
      requires Logged()
      modifies this, out
      ensures Logged() && old(log) <= log
      ensures r.Ok? ==> batches == old(batches) + Remaining(config, order, s, 0)
      ensures r.Ok? ==> forall i :: 0 <= i < |texts| && i in order ==> out[i] == Some(embed(texts[i]))
      ensures r.Failed? ==> Excused(r.fault, log[old(calls)..], texts)
      ensures calls <= old(calls) + 2 * |order|
    {
      var offset := 0;
      while offset < |order|
        invariant 0 <= offset <= |order|
        invariant Logged() && old(log) <= log && old(calls) <= calls <= old(calls) + 2 * offset
        invariant batches + Remaining(config, order, s, offset) == old(batches) + Remaining(config, order, s, 0)
        invariant Written(texts, order, 0, offset, out)
        decreases |order| - offset
      {
        ghost var start := calls;
        var done := EncodeGroup(texts, lengths, order, s, offset, out);
        if done.Failed? {
          ExcusedWithin(done.fault, log, start, texts, old(calls), texts);
          return Failed(done.fault);
        }
        offset := offset + done.value;
      }
      assert batches + [] == batches;
      return Ok(());
    }

    function Lengths(texts: seq<Text>): (r: seq<nat>)
      ensures |r| == |texts| && forall i :: 0 <= i < |r| ==> r[i] == tokens(texts[i])
    {
      seq(|texts|, i requires 0 <= i < |texts| => tokens(texts[i]))
    }

    predicate Fits8192(texts: seq<Text>) { forall i :: 0 <= i < |texts| ==> tokens(texts[i]) <= MAX_TOKENS }

    function Sorted(texts: seq<Text>): seq<nat> { Order(Lengths(texts), |texts|) }

    /** The group sizes for these texts. */
    function PlanOf(texts: seq<Text>): seq<nat>
      requires config.shortBatch > 0
    {
      Plan(config, Along(Lengths(texts), Sorted(texts)))
    }
  }

  lemma Regroup(a: seq<seq<nat>>, b: seq<seq<nat>>, c: seq<seq<nat>>)
    ensures a + (b + c) == (a + b) + c
  {
  }
}
