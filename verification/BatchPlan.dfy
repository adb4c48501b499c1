/** How the embedding service groups texts: by non-increasing token count, each
    group as long as its padding stays under the fill bound. */
module BatchPlan {
  datatype Config = Config(cpu: bool, shortBatch: nat, minTokenFill: nat)

  const MAX_TOKENS: nat := 8192

  function Sum(s: seq<nat>): nat { if s == [] then 0 else s[0] + Sum(s[1..]) }

  predicate NonIncreasing(s: seq<nat>) { forall i, j :: 0 <= i < j < |s| ==> s[j] <= s[i] }

  /** Most texts a group may hold when its longest text has n tokens. */
  function Width(config: Config, n: nat): nat {
    if config.cpu || n > 2048 then 1 else if n > 1024 then 2 else config.shortBatch
  }

  function Window(config: Config, s: seq<nat>): nat
    requires s != []
  {
    var size := Width(config, s[0]);
    if size < |s| then size else |s|
  }

  /** The first k texts, padded to the longest, hold enough real tokens. */
  predicate Fills(config: Config, s: seq<nat>, k: nat)
    requires 0 < k <= |s|
  {
    100 * Sum(s[..k]) >= config.minTokenFill * s[0] * k
  }

  predicate FillApplies(config: Config, n: nat) { n <= 1024 && config.minTokenFill > 0 }

  /** The longest prefix of at most k texts that fills, found from the long end. */
  function Longest(config: Config, s: seq<nat>, k: nat): (r: nat)
    requires 0 < k <= |s|
    ensures 0 < r <= k
    ensures r == 1 || Fills(config, s, r)
    ensures forall j :: r < j <= k ==> !Fills(config, s, j)
  {
    if k == 1 || Fills(config, s, k) then k else Longest(config, s, k - 1)
  }

  function Take(config: Config, s: seq<nat>): (r: nat)
    requires s != [] && config.shortBatch > 0
    ensures 0 < r <= Window(config, s)
  {
    if FillApplies(config, s[0]) then Longest(config, s, Window(config, s)) else Window(config, s)
  }

  /** Sizes of all groups, in order. */
  function Plan(config: Config, s: seq<nat>): seq<nat>
    requires config.shortBatch > 0
    decreases |s|
  {
    if s == [] then [] else [Take(config, s)] + Plan(config, s[Take(config, s)..])
  }

  lemma PlanFirst(config: Config, s: seq<nat>, k: nat)
    requires config.shortBatch > 0 && s != [] && k == Take(config, s)
    ensures Plan(config, s) == [k] + Plan(config, s[k..])
  {
  }

  function Padded(s: seq<nat>, sizes: seq<nat>): nat
    requires Sum(sizes) == |s|
    decreases |sizes|
  {
    if sizes == [] || s == [] then 0 else s[0] * sizes[0] + Padded(s[sizes[0]..], sizes[1..])
  }

  lemma {:induction false} SumSplit(s: seq<nat>, k: nat)
    requires k <= |s|
    ensures Sum(s) == Sum(s[..k]) + Sum(s[k..])
  {
    if k == 0 {
      assert s[..0] == [] && s[0..] == s;
    } else {
      SumSplit(s[1..], k - 1);
      assert s[..k][1..] == s[1..][..k - 1] && s[k..] == s[1..][k - 1..];
    }
  }

  lemma SumLast(s: seq<nat>, k: nat)
    requires k < |s|
    ensures Sum(s[..k + 1]) == Sum(s[..k]) + s[k]
  {
    SumSplit(s[..k + 1], k);
    assert s[..k + 1][..k] == s[..k] && s[..k + 1][k..] == [s[k]];
    assert Sum([s[k]]) == s[k] + Sum([]);
  }

  /** The running comparison of the fill loop decides the next prefix. */
  lemma FillsNext(config: Config, s: seq<nat>, k: nat, n: nat, held: nat)
    requires 0 < k < |s| && n == s[0] && held == Sum(s[..k])
    ensures Sum(s[..k + 1]) == held + s[k]
    ensures Fills(config, s, k + 1) <==> !((held + s[k]) * 100 < config.minTokenFill * n * (k + 1))
  {
    SumLast(s, k);
  }

  lemma {:induction false} SumAtLeast(s: seq<nat>, bound: nat)
    requires forall i :: 0 <= i < |s| ==> bound <= s[i]
    ensures bound * |s| <= Sum(s)
  {
    if s != [] {
      SumAtLeast(s[1..], bound);
      assert bound * |s| == bound + bound * |s[1..]|;
    }
  }

  /** The average fill only falls as a group grows: a prefix that fails to fill
      is never followed by one that fills. */
  lemma FailureIsFinal(config: Config, s: seq<nat>, k: nat)
    requires NonIncreasing(s) && 0 < k < |s| && !Fills(config, s, k)
    ensures !Fills(config, s, k + 1)
  {
    var limit := config.minTokenFill * s[0];
    SumAtLeast(s[..k], s[k - 1]);
    LastIsLow(Sum(s[..k]), s[k - 1], k, limit);
    SumLast(s, k);
    assert limit * (k + 1) == limit * k + limit;
  }

  lemma MulMono(a: nat, b: nat, c: nat)
    requires a <= b
    ensures a * c <= b * c
  {
    assert b * c == a * c + (b - a) * c;
  }

  lemma LastIsLow(sum: nat, last: nat, k: nat, limit: nat)
    requires k > 0 && last * k <= sum && 100 * sum < limit * k
    ensures 100 * last < limit
  {
    assert (100 * last) * k == 100 * (last * k);
    if limit <= 100 * last { MulMono(limit, 100 * last, k); }
  }

  /** Scanning upwards and stopping at the first failure finds the longest. */
  lemma {:induction false} GreedyIsLongest(config: Config, s: seq<nat>, k: nat, window: nat)
    requires NonIncreasing(s) && 0 < k <= window <= |s|
    requires k == 1 || Fills(config, s, k)
    requires k == window || !Fills(config, s, k + 1)
    ensures Longest(config, s, window) == k
  {
    var j := k + 1;
    while j <= window
      invariant k + 1 <= j <= window + 1
      invariant forall i :: k < i < j ==> !Fills(config, s, i)
      invariant k < window ==> !Fills(config, s, k + 1)
    {
      if j > k + 1 { FailureIsFinal(config, s, j - 1); }
      j := j + 1;
    }
  }

  /** The groups partition the order. */
  lemma {:induction false} PlanPartitions(config: Config, s: seq<nat>)
    requires config.shortBatch > 0
    ensures Sum(Plan(config, s)) == |s|
    decreases |s|
  {
    if s != [] { PlanPartitions(config, s[Take(config, s)..]); }
  }

  /** Each group is the longest prefix of its window that fills, or one text;
      no longer one in the window fills. */
  lemma TakeIsMaximal(config: Config, s: seq<nat>)
    requires s != [] && config.shortBatch > 0 && NonIncreasing(s) && FillApplies(config, s[0])
    ensures forall k :: 0 < k <= Window(config, s) ==> (k == 1 || Fills(config, s, k) <==> k <= Take(config, s))
  {
    var take := Take(config, s);
    forall k | 1 < k <= take ensures Fills(config, s, k) { FilledBelow(config, s, k, take); }
  }

  lemma {:induction false} FilledBelow(config: Config, s: seq<nat>, k: nat, take: nat)
    requires NonIncreasing(s) && 0 < k <= take <= |s| && Fills(config, s, take)
    ensures Fills(config, s, k)
    decreases take - k
  {
    if k < take {
      FilledBelow(config, s, k + 1, take);
      if !Fills(config, s, k) { FailureIsFinal(config, s, k); }
    }
  }

  /** Exactly: on the processor, or beyond 2048 tokens, every text is alone; two
      go together beyond 1024; shorter ones fill up the short batch, as long as
      enough of the padded area are real tokens where a bound is set. */
  lemma GroupSizes(config: Config, s: seq<nat>)
    requires s != [] && config.shortBatch > 0 && NonIncreasing(s)
    ensures config.cpu || s[0] > 2048 ==> Take(config, s) == 1
    ensures !config.cpu && 1024 < s[0] <= 2048 ==> Take(config, s) == if |s| == 1 then 1 else 2
    ensures !config.cpu && s[0] <= 1024 && config.minTokenFill == 0 ==>
              Take(config, s) == if |s| < config.shortBatch then |s| else config.shortBatch
    ensures !config.cpu && s[0] <= 1024 && config.minTokenFill > 0 ==>
              forall k :: 1 < k <= |s| && k <= config.shortBatch ==>
                (k <= Take(config, s) <==> 100 * Sum(s[..k]) >= config.minTokenFill * s[0] * k)
  {
    if FillApplies(config, s[0]) {
      TakeIsMaximal(config, s);
      forall k | 1 < k <= |s| && k <= config.shortBatch && !config.cpu
        ensures k <= Take(config, s) <==> 100 * Sum(s[..k]) >= config.minTokenFill * s[0] * k
      {
        assert Fills(config, s, k) <==> k <= Take(config, s);
      }
    }
  }

  /** The padded token budget of a group: 16384 for the short batch of 16. */
  function Budget(config: Config): nat {
    if 1024 * config.shortBatch > MAX_TOKENS then 1024 * config.shortBatch else MAX_TOKENS
  }

  /** One group never exceeds the budget. */
  lemma AreaBounded(config: Config, s: seq<nat>)
    requires s != [] && config.shortBatch > 0 && s[0] <= MAX_TOKENS
    ensures s[0] * Take(config, s) <= Budget(config)
  {
    var n, k := s[0], Take(config, s);
    MulMono(k, Width(config, n), n);
    if !config.cpu && n <= 1024 { MulMono(n, 1024, config.shortBatch); }
  }

  /** Padding only ever adds: every group's area holds its own tokens. */
  lemma {:induction false} PaddedCovers(s: seq<nat>, sizes: seq<nat>)
    requires NonIncreasing(s) && Sum(sizes) == |s|
    ensures Padded(s, sizes) >= Sum(s)
    decreases |sizes|
  {
    if sizes != [] && s != [] {
      var k := sizes[0];
      PaddedCovers(s[k..], sizes[1..]);
      SumSplit(s, k);
      SumAtMost(s[..k], s[0]);
    }
  }

  lemma {:induction false} SumAtMost(s: seq<nat>, bound: nat)
    requires forall i :: 0 <= i < |s| ==> s[i] <= bound
    ensures Sum(s) <= bound * |s|
  {
    if s != [] {
      SumAtMost(s[1..], bound);
      assert bound * |s| == bound + bound * |s[1..]|;
    }
  }

  /** Real tokens per hundred padded ones that every group is sure to hold: the
      fill bound, or the half that a pair of long texts can fall to. */
  function SureFill(config: Config): nat { if config.minTokenFill < 50 then config.minTokenFill else 50 }

  lemma GroupWaste(config: Config, s: seq<nat>)
    requires s != [] && config.shortBatch > 0
    ensures SureFill(config) * (s[0] * Take(config, s)) <= 100 * Sum(s[..Take(config, s)])
  {
    var n, k := s[0], Take(config, s);
    var held := Sum(s[..k]);
    assert n <= held by { SumSplit(s[..k], 1); assert s[..k][..1] == [n] && Sum([n]) == n + Sum([]); }
    if FillApplies(config, n) && k > 1 {
      assert Fills(config, s, k);
      FillMeans(config.minTokenFill, SureFill(config), n, k, held);
    } else if config.minTokenFill > 0 {
      assert k <= 2;
      MulMono(k, 2, n);
      MulMono(SureFill(config), 50, n * k);
      assert k == 1 ==> n * k == n;
    }
  }

  lemma FillMeans(fill: nat, sure: nat, n: nat, k: nat, held: nat)
    requires sure <= fill && 100 * held >= fill * n * k
    ensures sure * (n * k) <= 100 * held
  {
    assert fill * n * k == fill * (n * k);
    MulMono(sure, fill, n * k);
  }

  /** All groups together: with a fill bound of at least half, they pad at most
      twice the tokens they hold. */
  lemma {:induction false} TotalWaste(config: Config, s: seq<nat>)
    requires config.shortBatch > 0
    ensures Sum(Plan(config, s)) == |s|
    ensures SureFill(config) * Padded(s, Plan(config, s)) <= 100 * Sum(s)
    decreases |s|
  {
    PlanPartitions(config, s);
    if s != [] {
      var k := Take(config, s);
      TotalWaste(config, s[k..]);
      GroupWaste(config, s);
      SumSplit(s, k);
      Distribute(SureFill(config), s[0] * k, Padded(s[k..], Plan(config, s[k..])));
    }
  }

  lemma HalfFull(config: Config, padded: nat, held: nat)
    requires SureFill(config) * padded <= 100 * held
    ensures config.minTokenFill >= 50 ==> padded <= 2 * held
  {
  }

  lemma Distribute(a: nat, b: nat, c: nat)
    ensures a * (b + c) == a * b + a * c
  {
  }

  // ----------------------------------------------------------- the order

  /** Insert index i behind every index at least as long: stable, longest first. */
  function Insert(order: seq<nat>, lengths: seq<nat>, i: nat): (r: seq<nat>)
    requires i < |lengths| && forall k :: 0 <= k < |order| ==> order[k] < |lengths|
    ensures |r| == |order| + 1
  {
    if order == [] || lengths[order[0]] < lengths[i] then [i] + order
    else [order[0]] + Insert(order[1..], lengths, i)
  }

  lemma {:induction false} InsertBelow(order: seq<nat>, lengths: seq<nat>, i: nat)
    requires i < |lengths| && forall k :: 0 <= k < |order| ==> order[k] < i
    ensures forall k :: 0 <= k <= |order| ==> Insert(order, lengths, i)[k] <= i
  {
    if order != [] && lengths[order[0]] >= lengths[i] { InsertBelow(order[1..], lengths, i); }
  }

  lemma {:induction false} InsertFrom(order: seq<nat>, lengths: seq<nat>, i: nat, k: nat)
    requires i < |lengths| && forall k :: 0 <= k < |order| ==> order[k] < |lengths|
    requires k <= |order|
    ensures Insert(order, lengths, i)[k] == i || Insert(order, lengths, i)[k] in order
  {
    if order != [] && lengths[order[0]] >= lengths[i] && k > 0 {
      InsertFrom(order[1..], lengths, i, k - 1);
    }
  }

  lemma {:induction false} InsertKeeps(order: seq<nat>, lengths: seq<nat>, i: nat, x: nat)
    requires i < |lengths| && forall k :: 0 <= k < |order| ==> order[k] < |lengths|
    requires x == i || x in order
    ensures x in Insert(order, lengths, i)
  {
    if order == [] || lengths[order[0]] < lengths[i] {
      assert Insert(order, lengths, i) == [i] + order;
    } else if x != order[0] {
      InsertKeeps(order[1..], lengths, i, x);
    }
  }

  /** Indices below n, sorted by length, longest first, earlier ones first among
      equals. */
  function Order(lengths: seq<nat>, n: nat): (r: seq<nat>)
    requires n <= |lengths|
    ensures |r| == n
    ensures forall i :: 0 <= i < |r| ==> r[i] < n
  {
    if n == 0 then []
    else
      InsertBelow(Order(lengths, n - 1), lengths, n - 1);
      Insert(Order(lengths, n - 1), lengths, n - 1)
  }

  predicate Before(lengths: seq<nat>, a: nat, b: nat)
    requires a < |lengths| && b < |lengths|
  {
    lengths[a] > lengths[b] || (lengths[a] == lengths[b] && a < b)
  }

  predicate Sorted(lengths: seq<nat>, order: seq<nat>) {
    && (forall k :: 0 <= k < |order| ==> order[k] < |lengths|)
    && (forall i, j :: 0 <= i < j < |order| ==> Before(lengths, order[i], order[j]))
  }

  lemma FrontSorted(lengths: seq<nat>, first: nat, tail: seq<nat>)
    requires first < |lengths| && Sorted(lengths, tail)
    requires forall k :: 0 <= k < |tail| ==> Before(lengths, first, tail[k])
    ensures Sorted(lengths, [first] + tail)
  {
  }

  lemma {:induction false} InsertSorted(order: seq<nat>, lengths: seq<nat>, i: nat)
    requires i < |lengths| && Sorted(lengths, order) && forall k :: 0 <= k < |order| ==> order[k] < i
    ensures Sorted(lengths, Insert(order, lengths, i))
  {
    var r := Insert(order, lengths, i);
    if order == [] || lengths[order[0]] < lengths[i] {
      assert forall k :: 0 < k < |r| ==> r[k] == order[k - 1];
    } else {
      var tail := Insert(order[1..], lengths, i);
      InsertSorted(order[1..], lengths, i);
      forall k | 0 <= k < |tail|
        ensures tail[k] < |lengths| && Before(lengths, order[0], tail[k])
      {
        InsertFrom(order[1..], lengths, i, k);
      }
      FrontSorted(lengths, order[0], tail);
    }
  }

  lemma {:induction false} OrderSorted(lengths: seq<nat>, n: nat)
    requires n <= |lengths|
    ensures Sorted(lengths, Order(lengths, n))
  {
    if n > 0 {
      OrderSorted(lengths, n - 1);
      InsertSorted(Order(lengths, n - 1), lengths, n - 1);
    }
  }

  lemma {:induction false} IndexIn(lengths: seq<nat>, n: nat, i: nat)
    requires i < n <= |lengths|
    ensures i in Order(lengths, n)
  {
    if i < n - 1 { IndexIn(lengths, n - 1, i); }
    InsertKeeps(Order(lengths, n - 1), lengths, n - 1, i);
  }

  /** The order is a permutation: every index occurs, and none occurs twice. */
  lemma EveryIndexOnce(lengths: seq<nat>, n: nat)
    requires n <= |lengths|
    ensures forall i :: 0 <= i < n ==> i in Order(lengths, n)
    ensures forall j, k :: 0 <= j < k < n ==> Order(lengths, n)[j] != Order(lengths, n)[k]
  {
    forall i | 0 <= i < n ensures i in Order(lengths, n) { IndexIn(lengths, n, i); }
    OrderSorted(lengths, n);
  }

  /** The lengths in the chosen order. */
  function Along(lengths: seq<nat>, order: seq<nat>): (r: seq<nat>)
    requires forall k :: 0 <= k < |order| ==> order[k] < |lengths|
    ensures |r| == |order| && forall k :: 0 <= k < |r| ==> r[k] == lengths[order[k]]
  {
    seq(|order|, k requires 0 <= k < |order| => lengths[order[k]])
  }

  lemma {:induction false} InsertSum(order: seq<nat>, lengths: seq<nat>, i: nat)
    requires i < |lengths| && forall k :: 0 <= k < |order| ==> order[k] < |lengths|
    ensures forall k :: 0 <= k < |Insert(order, lengths, i)| ==> Insert(order, lengths, i)[k] < |lengths|
    ensures Sum(Along(lengths, Insert(order, lengths, i))) == Sum(Along(lengths, order)) + lengths[i]
  {
    var r := Insert(order, lengths, i);
    if order == [] || lengths[order[0]] < lengths[i] {
      assert Along(lengths, r)[1..] == Along(lengths, order);
    } else {
      InsertSum(order[1..], lengths, i);
      assert Along(lengths, r)[1..] == Along(lengths, Insert(order[1..], lengths, i));
      assert Along(lengths, order)[1..] == Along(lengths, order[1..]);
    }
  }

  lemma {:induction false} OrderSum(lengths: seq<nat>, n: nat)
    requires n <= |lengths|
    ensures Sum(Along(lengths, Order(lengths, n))) == Sum(lengths[..n])
  {
    if n > 0 {
      OrderSum(lengths, n - 1);
      InsertSum(Order(lengths, n - 1), lengths, n - 1);
      SumLast(lengths, n - 1);
    }
  }

  lemma SortedMeasures(s: seq<nat>, lengths: seq<nat>, order: seq<nat>)
    requires Sorted(lengths, order) && |s| == |order| && forall k :: 0 <= k < |order| ==> s[k] == lengths[order[k]]
    ensures NonIncreasing(s)
  {
    forall i, j | 0 <= i < j < |s| ensures s[j] <= s[i] { assert Before(lengths, order[i], order[j]); }
  }

  /** For any texts: groups over the sorted order hold every text once, and with
      a fill bound of at least half, such as the engine's 85, the padded total
      is at most twice the real total. */
  lemma PlanBounds(config: Config, lengths: seq<nat>, order: seq<nat>, s: seq<nat>)
    requires config.shortBatch > 0 && order == Order(lengths, |lengths|) && s == Along(lengths, order)
    ensures NonIncreasing(s)
    ensures Sum(Plan(config, s)) == |lengths|
    ensures SureFill(config) * Padded(s, Plan(config, s)) <= 100 * Sum(lengths)
    ensures config.minTokenFill >= 50 ==> Padded(s, Plan(config, s)) <= 2 * Sum(lengths)
  {
    OrderSorted(lengths, |lengths|);
    SortedMeasures(s, lengths, order);
    OrderSum(lengths, |lengths|);
    assert lengths[..|lengths|] == lengths;
    TotalWaste(config, s);
    HalfFull(config, Padded(s, Plan(config, s)), Sum(lengths));
  }

  // ----------------------------------------------------------- the groups

  /** Cut a sequence into consecutive pieces of the given sizes. */
  function Cut(s: seq<nat>, sizes: seq<nat>): seq<seq<nat>>
    decreases |sizes|
  {
    if sizes == [] then []
    else
      var k := if sizes[0] <= |s| then sizes[0] else |s|;
      [s[..k]] + Cut(s[k..], sizes[1..])
  }

  lemma SliceOfSlice(s: seq<nat>, from: nat, to: nat, k: nat)
    requires from <= to <= |s| && k <= to - from
    ensures s[from..to][..k] == s[from..from + k]
  {
  }

  lemma CutFirst(s: seq<nat>, offset: nat, k: nat, sizes: seq<nat>)
    requires offset + k <= |s|
    ensures Cut(s[offset..], [k] + sizes) == [s[offset..offset + k]] + Cut(s[offset + k..], sizes)
  {
    assert ([k] + sizes)[1..] == sizes;
    assert s[offset..][k..] == s[offset + k..] && s[offset..][..k] == s[offset..offset + k];
  }

  function Joined(pieces: seq<seq<nat>>): seq<nat> {
    if pieces == [] then [] else pieces[0] + Joined(pieces[1..])
  }

  /** The pieces, laid end to end, are the whole. */
  lemma {:induction false} CutPartitions(s: seq<nat>, sizes: seq<nat>)
    requires Sum(sizes) == |s|
    ensures Joined(Cut(s, sizes)) == s
    decreases |sizes|
  {
    if sizes == [] {
      assert s == [];
    } else {
      CutPartitions(s[sizes[0]..], sizes[1..]);
    }
  }

  /** s holds the lengths along the order. */
  ghost predicate Measures(s: seq<nat>, lengths: seq<nat>, order: seq<nat>) {
    |s| == |order| && forall k :: 0 <= k < |order| ==> order[k] < |lengths| && s[k] == lengths[order[k]]
  }

  /** The groups still to be encoded from this offset on. */
  ghost function Remaining(config: Config, order: seq<nat>, s: seq<nat>, offset: nat): seq<seq<nat>>
    requires config.shortBatch > 0 && offset <= |order| == |s|
    decreases |order| - offset
  {
    if offset == |order| then []
    else
      var k := Take(config, s[offset..]);
      [order[offset..offset + k]] + Remaining(config, order, s, offset + k)
  }

  lemma RemainingFirst(config: Config, order: seq<nat>, s: seq<nat>, offset: nat, k: nat, plan: seq<nat>)
    requires config.shortBatch > 0 && offset < |order| == |s| && k == Take(config, s[offset..])
    requires Remaining(config, order, s, offset + k) == Cut(order[offset + k..], plan)
    ensures Remaining(config, order, s, offset) == Cut(order[offset..], [k] + plan)
  {
    CutFirst(order, offset, k, plan);
  }

  /** They are the order cut along the plan. */
  lemma {:induction false} RemainingIsCut(config: Config, order: seq<nat>, s: seq<nat>, offset: nat)
    requires config.shortBatch > 0 && offset <= |order| == |s|
    ensures Remaining(config, order, s, offset) == Cut(order[offset..], Plan(config, s[offset..]))
    decreases |order| - offset
  {
    if offset == |order| {
      assert order[offset..] == [] && s[offset..] == [];
    } else {
      var k := Take(config, s[offset..]);
      assert s[offset..][k..] == s[offset + k..];
      PlanFirst(config, s[offset..], k);
      RemainingIsCut(config, order, s, offset + k);
      RemainingFirst(config, order, s, offset, k, Plan(config, s[offset + k..]));
    }
  }

  lemma SuffixesSorted(s: seq<nat>)
    requires NonIncreasing(s)
    ensures forall n :: 0 <= n <= |s| ==> NonIncreasing(s[n..])
  {
  }

  /** What one group is: its window's longest prefix that fills, within the budget. */
  ghost predicate WellCut(config: Config, s: seq<nat>, offset: nat, k: nat)
    requires config.shortBatch > 0
  {
    && offset < |s| && 0 < k <= |s| - offset
    && s[offset] * k <= Budget(config)
    && var rest := s[offset..];
       && k <= Window(config, rest)
       && if FillApplies(config, s[offset])
          then forall n :: 0 < n <= Window(config, rest) ==> (n == 1 || Fills(config, rest, n) <==> n <= k)
          else k == Window(config, rest)
  }

  lemma FirstWellCut(config: Config, s: seq<nat>, offset: nat)
    requires config.shortBatch > 0 && offset < |s|
    requires NonIncreasing(s[offset..]) && s[offset] <= MAX_TOKENS
    ensures WellCut(config, s, offset, Take(config, s[offset..]))
  {
    var rest := s[offset..];
    assert rest[0] == s[offset];
    AreaBounded(config, rest);
    if FillApplies(config, rest[0]) { TakeIsMaximal(config, rest); }
  }

  ghost predicate AllWellCut(config: Config, s: seq<nat>, offset: nat, sizes: seq<nat>)
    requires config.shortBatch > 0
    decreases |sizes|
  {
    sizes != [] ==> WellCut(config, s, offset, sizes[0]) && AllWellCut(config, s, offset + sizes[0], sizes[1..])
  }

  /** Every group of the plan is well cut. */
  lemma {:induction false} PlanWellCut(config: Config, s: seq<nat>, offset: nat)
    requires config.shortBatch > 0 && offset <= |s|
    requires forall n :: 0 <= n <= |s| ==> NonIncreasing(s[n..])
    requires forall n :: 0 <= n < |s| ==> s[n] <= MAX_TOKENS
    ensures AllWellCut(config, s, offset, Plan(config, s[offset..]))
    decreases |s| - offset
  {
    if offset < |s| {
      var rest := s[offset..];
      var k := Take(config, rest);
      FirstWellCut(config, s, offset);
      PlanWellCut(config, s, offset + k);
      PlanFirst(config, rest, k);
      assert rest[k..] == s[offset + k..];
      CutMore(config, s, offset, k, Plan(config, s[offset + k..]));
    }
  }

  lemma CutMore(config: Config, s: seq<nat>, offset: nat, k: nat, sizes: seq<nat>)
    requires config.shortBatch > 0 && WellCut(config, s, offset, k) && AllWellCut(config, s, offset + k, sizes)
    ensures AllWellCut(config, s, offset, [k] + sizes)
  {
    assert ([k] + sizes)[1..] == sizes;
  }

  lemma {:induction false} GroupAt(config: Config, s: seq<nat>, offset: nat, sizes: seq<nat>, g: nat)
    requires config.shortBatch > 0 && g < |sizes| && AllWellCut(config, s, offset, sizes)
    ensures WellCut(config, s, offset + Sum(sizes[..g]), sizes[g])
    decreases g
  {
    if g == 0 {
      assert sizes[..0] == [];
    } else {
      GroupAt(config, s, offset + sizes[0], sizes[1..], g - 1);
      SumFirst(sizes, g);
    }
  }

  lemma SumFirst(sizes: seq<nat>, g: nat)
    requires 0 < g <= |sizes|
    ensures Sum(sizes[..g]) == sizes[0] + Sum(sizes[1..][..g - 1])
  {
    assert sizes[..g][0] == sizes[0] && sizes[..g][1..] == sizes[1..][..g - 1];
  }

  lemma {:induction false} CutAt(s: seq<nat>, sizes: seq<nat>, g: nat)
    requires Sum(sizes) == |s| && g < |sizes|
    ensures g < |Cut(s, sizes)| && Sum(sizes[..g]) + sizes[g] <= |s|
    ensures Cut(s, sizes)[g] == s[Sum(sizes[..g])..Sum(sizes[..g]) + sizes[g]]
    decreases g
  {
    var rest := s[sizes[0]..];
    if g == 0 {
      assert sizes[..0] == [];
    } else {
      CutAt(rest, sizes[1..], g - 1);
      SumFirst(sizes, g);
    }
  }

  /** For any texts within the token limit, every batch cut from the sorted order
      is the longest well-filled prefix of its window, and its padded area is
      within the budget. */
  lemma EveryBatch(config: Config, lengths: seq<nat>, order: seq<nat>, s: seq<nat>, plan: seq<nat>, g: nat)
    requires config.shortBatch > 0
    requires order == Order(lengths, |lengths|) && s == Along(lengths, order) && plan == Plan(config, s)
    requires forall i :: 0 <= i < |lengths| ==> lengths[i] <= MAX_TOKENS
    requires g < |plan|
    ensures WellCut(config, s, Sum(plan[..g]), plan[g])
    ensures g < |Cut(order, plan)| && Cut(order, plan)[g] == order[Sum(plan[..g])..Sum(plan[..g]) + plan[g]]
  {
    BatchWellCut(config, lengths, order, s, plan, g);
    PlanPartitions(config, s);
    CutAt(order, plan, g);
  }

  lemma BatchWellCut(config: Config, lengths: seq<nat>, order: seq<nat>, s: seq<nat>, plan: seq<nat>, g: nat)
    requires config.shortBatch > 0
    requires order == Order(lengths, |lengths|) && s == Along(lengths, order) && plan == Plan(config, s)
    requires forall i :: 0 <= i < |lengths| ==> lengths[i] <= MAX_TOKENS
    requires g < |plan|
    ensures Sum(plan[..g]) + plan[g] <= |s| && WellCut(config, s, Sum(plan[..g]), plan[g])
  {
    OrderReady(config, lengths, order, s);
    assert s[0..] == s;
    PlanWellCut(config, s, 0);
    GroupAt(config, s, 0, plan, g);
  }

  /** What the encoding loop may rely on for the sorted order. */
  lemma OrderReady(config: Config, lengths: seq<nat>, order: seq<nat>, s: seq<nat>)
    requires config.shortBatch > 0 && order == Order(lengths, |lengths|) && s == Along(lengths, order)
    ensures Measures(s, lengths, order) && forall n :: 0 <= n <= |s| ==> NonIncreasing(s[n..])
    ensures forall i :: 0 <= i < |lengths| ==> i in order
    ensures Remaining(config, order, s, 0) == Cut(order, Plan(config, s))
  {
    OrderSorted(lengths, |lengths|);
    EveryIndexOnce(lengths, |lengths|);
    SortedMeasures(s, lengths, order);
    SuffixesSorted(s);
    RemainingIsCut(config, order, s, 0);
    assert order[0..] == order && s[0..] == s;
  }
}
