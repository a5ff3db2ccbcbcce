// The number of nodes, summed over the seconds of each interval.
// Source: internal/timeseries/stat/earnings.go

module Earnings {
  import opened Collections

  /** A change of the number of active nodes in one second. */
  datatype Delta = Delta(time: int, change: int)

  /** The query orders the changes by time; they are within the window. */
  predicate InWindow(deltas: seq<Delta>, from: int, until: int) {
    && (forall i, j | 0 <= i < j < |deltas| :: deltas[i].time <= deltas[j].time)
    && forall i | 0 <= i < |deltas| :: from <= deltas[i].time < until
  }

  /** The window of the query: intervals in order, and changes inside it. */
  predicate Setting(starts: seq<int>, until: int, deltas: seq<Delta>)
    requires 0 < |starts|
  {
    Increasing(starts) && starts[|starts| - 1] < until && InWindow(deltas, starts[0], until)
  }

  /** The number of nodes at a second. */
  function Count(start: int, deltas: seq<Delta>, time: int): int {
    if deltas == [] then start
    else
      Count(start, deltas[..|deltas| - 1], time)
      + if deltas[|deltas| - 1].time <= time then deltas[|deltas| - 1].change else 0
  }

  /** The sum of the number of nodes over the seconds from `a` to just before `b`. */
  function Integral(start: int, deltas: seq<Delta>, a: int, b: int): int
    decreases b - a
  {
    if b <= a then 0 else Integral(start, deltas, a, b - 1) + Count(start, deltas, b - 1)
  }

  lemma {:induction false} IntegralSplits(start: int, deltas: seq<Delta>, a: int, b: int, c: int)
    requires a <= b <= c
    ensures Integral(start, deltas, a, c) == Integral(start, deltas, a, b) + Integral(start, deltas, b, c)
    decreases c - b
  {
    if b < c {
      IntegralSplits(start, deltas, a, b, c - 1);
    }
  }

  /** Between two changes the number stays. */
  lemma {:induction false} CountStays(start: int, deltas: seq<Delta>, k: nat, n: nat, time: int)
    requires k <= n <= |deltas|
    requires forall i | 0 <= i < k :: deltas[i].time <= time
    requires forall i | k <= i < n :: time < deltas[i].time
    ensures Count(start, deltas[..n], time) == Total(start, deltas[..k])
    decreases n
  {
    if k < n {
      CountStays(start, deltas, k, n - 1, time);
      assert deltas[..n][..n - 1] == deltas[..n - 1];
    } else if n > 0 {
      CountStays(start, deltas, n - 1, n - 1, time);
      assert deltas[..n][..n - 1] == deltas[..n - 1];
    }
  }

  /** The number after some changes. */
  function Total(start: int, deltas: seq<Delta>): int {
    if deltas == [] then start else Total(start, deltas[..|deltas| - 1]) + deltas[|deltas| - 1].change
  }

  lemma {:induction false} ConstantIntegral(start: int, deltas: seq<Delta>, k: nat, a: int, b: int)
    requires k <= |deltas| && a <= b
    requires forall i | 0 <= i < k :: deltas[i].time <= a
    requires forall i | k <= i < |deltas| :: b <= deltas[i].time
    ensures Integral(start, deltas, a, b) == (b - a) * Total(start, deltas[..k])
    decreases b - a
  {
    if a < b {
      ConstantIntegral(start, deltas, k, a, b - 1);
      CountStays(start, deltas, k, |deltas|, b - 1);
      assert deltas[..|deltas|] == deltas;
      assert (b - a) * Total(start, deltas[..k]) == (b - 1 - a) * Total(start, deltas[..k]) + Total(start, deltas[..k]);
    }
  }

  function End(starts: seq<int>, until: int, i: int): int
    requires 0 <= i < |starts|
  {
    if i + 1 < |starts| then starts[i + 1] else until
  }

  /** The last second at which the count was looked at: the last change, or the last start if that is later. */
  function LastPoint(starts: seq<int>, deltas: seq<Delta>): int
    requires 0 < |starts|
  {
    var last := starts[|starts| - 1];
    if deltas != [] && last < deltas[|deltas| - 1].time then deltas[|deltas| - 1].time else last
  }

  /** What is missing at the end: the last second, when it is the last point. */
  function Missing(starts: seq<int>, until: int, startCount: int, deltas: seq<Delta>): int
    requires 0 < |starts|
  {
    if LastPoint(starts, deltas) == until - 1 then Count(startCount, deltas, until - 1) else 0
  }

  /**
   * Each interval has the exact sum over its seconds, but the last one lacks what is missing; the
   * meta is the sum over the window, less the same.
   */
  ghost predicate SumsAre(starts: seq<int>, until: int, startCount: int, deltas: seq<Delta>, sums: map<int, int>,
                          meta: int)
    requires 0 < |starts|
  {
    && (forall i | 0 <= i < |starts| ::
          Get(sums, starts[i]) == Integral(startCount, deltas, starts[i], End(starts, until, i))
                                  - if i == |starts| - 1 then Missing(starts, until, startCount, deltas) else 0)
    && meta == Integral(startCount, deltas, starts[0], until) - Missing(starts, until, startCount, deltas)
  }

  /** The walk stands at `last` in interval `index`, with `k` changes done and all integrals up to there. */
  ghost predicate Walked(starts: seq<int>, until: int, startCount: int, deltas: seq<Delta>,
                         k: int, index: int, last: int, count: int, sums: map<int, int>, meta: int)
  {
    && 0 <= k <= |deltas| && 0 <= index < |starts|
    && starts[index] <= last <= End(starts, until, index)
    && count == Total(startCount, deltas[..k])
    && (forall i | 0 <= i < k :: deltas[i].time <= last)
    && (forall i | k <= i < |deltas| :: last <= deltas[i].time)
    && (forall i | 0 <= i < index :: Get(sums, starts[i]) == Integral(startCount, deltas, starts[i], starts[i + 1]))
    && Get(sums, starts[index]) == Integral(startCount, deltas, starts[index], last)
    && (forall i | index < i < |starts| :: Get(sums, starts[i]) == 0)
    && meta == Integral(startCount, deltas, starts[0], last)
  }

  /** A count that holds from one second to just before another. */
  function Weighted(from: int, to: int, count: int): int {
    (to - from) * count
  }

  function Added(sums: map<int, int>, key: int, value: int): map<int, int> {
    sums[key := Get(sums, key) + value]
  }

  /** Going on to a second up to which there is no further change. */
  lemma WalkOn(starts: seq<int>, until: int, startCount: int, deltas: seq<Delta>,
               k: int, index: int, last: int, count: int, sums: map<int, int>, meta: int, next: int)
    requires Increasing(starts) && Walked(starts, until, startCount, deltas, k, index, last, count, sums, meta)
    requires last <= next <= End(starts, until, index) && forall i | k <= i < |deltas| :: next <= deltas[i].time
    ensures var weighted := Weighted(last, next, count);
            Walked(starts, until, startCount, deltas, k, index, next, count, Added(sums, starts[index], weighted),
                   meta + weighted)
  {
    ConstantIntegral(startCount, deltas, k, last, next);
    IntegralSplits(startCount, deltas, starts[index], last, next);
    assert starts[0] <= starts[index];
    IntegralSplits(startCount, deltas, starts[0], last, next);
    hide Integral, Total;
  }

  lemma NextInterval(starts: seq<int>, until: int, startCount: int, deltas: seq<Delta>,
                     k: int, index: int, last: int, count: int, sums: map<int, int>, meta: int)
    requires 0 < |starts| && Increasing(starts) && starts[|starts| - 1] < until
    requires Walked(starts, until, startCount, deltas, k, index, last, count, sums, meta)
    requires index < |starts| - 1 && last == starts[index + 1]
    ensures Walked(starts, until, startCount, deltas, k, index + 1, last, count, sums, meta)
  {
    assert Integral(startCount, deltas, last, last) == 0;
    hide Integral, Total;
  }

  lemma NextDelta(starts: seq<int>, until: int, startCount: int, deltas: seq<Delta>,
                  k: int, index: int, count: int, sums: map<int, int>, meta: int)
    requires 0 <= k < |deltas|
    requires Walked(starts, until, startCount, deltas, k, index, deltas[k].time, count, sums, meta)
    ensures Walked(starts, until, startCount, deltas, k + 1, index, deltas[k].time, count + deltas[k].change, sums,
                   meta)
  {
    assert deltas[..k + 1][..k] == deltas[..k];
  }

  lemma WalkStarts(starts: seq<int>, until: int, startCount: int, deltas: seq<Delta>)
    requires 0 < |starts| && Setting(starts, until, deltas)
    ensures Walked(starts, until, startCount, deltas, 0, 0, starts[0], startCount, map[], 0)
  {
    assert deltas[..0] == [];
  }

  /** Two pointers walk over changes and intervals. */
  method NodeCountWeightedSums(starts: seq<int>, until: int, startCount: int, deltas: seq<Delta>)
    returns (sums: map<int, int>, meta: int)
    requires 0 < |starts| && Setting(starts, until, deltas)
    ensures SumsAre(starts, until, startCount, deltas, sums, meta)
  {
    var index, last, count := 0, starts[0], startCount;
    sums, meta := map[], 0;
    WalkStarts(starts, until, startCount, deltas);
    hide Setting, Walked, Integral, Count, Total, Missing, InWindow, Increasing, Weighted, Added, SumsAre;
    for k := 0 to |deltas|
      invariant 0 <= index < |starts|
      invariant Walked(starts, until, startCount, deltas, k, index, last, count, sums, meta)
      invariant last == if k == 0 then starts[0] else deltas[k - 1].time
    {
      index, last, sums, meta := AdvanceTo(starts, until, startCount, deltas, k, deltas[k].time, index, last, count,
                                           sums, meta);
      var weightedCount := Weighted(last, deltas[k].time, count);
      ToNextDelta(starts, until, startCount, deltas, k, index, last, count, sums, meta);
      sums := Added(sums, starts[index], weightedCount);
      meta := meta + weightedCount;
      count := count + deltas[k].change;
      last := deltas[k].time;
    }
    sums, meta := Finish(starts, until, startCount, deltas, index, last, count, sums, meta);
  }

  /** After the last change: completes the remaining intervals, and the last one as far as it goes. */
  method Finish(starts: seq<int>, until: int, startCount: int, ghost deltas: seq<Delta>,
                index0: nat, last0: int, count: int, sums0: map<int, int>, meta0: int)
    returns (sums: map<int, int>, meta: int)
    requires 0 < |starts| && Setting(starts, until, deltas)
    requires Walked(starts, until, startCount, deltas, |deltas|, index0, last0, count, sums0, meta0)
    requires last0 == if deltas == [] then starts[0] else deltas[|deltas| - 1].time
    ensures SumsAre(starts, until, startCount, deltas, sums, meta)
  {
    WalkedBounds(starts, until, startCount, deltas, |deltas|, index0, last0, count, sums0, meta0);
    hide Setting, Walked, Integral, Count, Total, Missing, InWindow, Increasing, Weighted, Added, SumsAre;
    var index, last;
    index, last, sums, meta := AdvanceTo(starts, until, startCount, deltas, |deltas|, until, index0, last0, count,
                                         sums0, meta0);
    if last < until - 1 {
      var weightedCount := Weighted(last, until, count);
      ToTheEnd(starts, until, startCount, deltas, last, count, sums, meta);
      sums := Added(sums, starts[index], weightedCount);
      meta := meta + weightedCount;
      last := until;
    }
    WalkEnds(starts, until, startCount, deltas, last, count, sums, meta);
  }

  /** Completes all intervals that end before a time: that of the next change, or the end of the window. */
  method AdvanceTo(starts: seq<int>, until: int, startCount: int, ghost deltas: seq<Delta>, ghost k: nat, time: int,
                   index0: nat, last0: int, count: int, sums0: map<int, int>, meta0: int)
    returns (index: nat, last: int, sums: map<int, int>, meta: int)
    requires 0 < |starts| && Setting(starts, until, deltas)
    requires Walked(starts, until, startCount, deltas, k, index0, last0, count, sums0, meta0)
    requires k <= |deltas| && time == if k < |deltas| then deltas[k].time else until
    ensures index < |starts| && (index == |starts| - 1 || time <= starts[index + 1])
    ensures Walked(starts, until, startCount, deltas, k, index, last, count, sums, meta)
    ensures last == if last0 < starts[index] then starts[index] else last0
  {
    index, last, sums, meta := index0, last0, sums0, meta0;
    WalkedBounds(starts, until, startCount, deltas, k, index, last, count, sums, meta);
    assert Increasing(starts);
    hide Setting, Walked, Integral, Count, Total, Missing, InWindow, Weighted, Added;
    while index < |starts| - 1 && starts[index + 1] < time
      invariant index < |starts| && starts[index] <= last
      invariant Walked(starts, until, startCount, deltas, k, index, last, count, sums, meta)
      invariant last == if last0 < starts[index] then starts[index] else last0
      decreases |starts| - index
    {
      var weightedCount := Weighted(last, starts[index + 1], count);
      ToNextStart(starts, until, startCount, deltas, k, index, last, count, sums, meta);
      sums := Added(sums, starts[index], weightedCount);
      meta := meta + weightedCount;
      index := index + 1;
      last := starts[index];
    }
  }

  lemma ToNextStart(starts: seq<int>, until: int, startCount: int, deltas: seq<Delta>,
                    k: int, index: int, last: int, count: int, sums: map<int, int>, meta: int)
    requires 0 < |starts| && Setting(starts, until, deltas)
    requires Walked(starts, until, startCount, deltas, k, index, last, count, sums, meta)
    requires index < |starts| - 1 && (k < |deltas| ==> starts[index + 1] < deltas[k].time)
    ensures var weighted := Weighted(last, starts[index + 1], count);
            Walked(starts, until, startCount, deltas, k, index + 1, starts[index + 1], count,
                   Added(sums, starts[index], weighted), meta + weighted)
    ensures last <= starts[index + 1]
  {
    if k < |deltas| {
      LaterDeltas(starts, until, startCount, deltas, k, index, last, count, sums, meta);
    }
    WalkOn(starts, until, startCount, deltas, k, index, last, count, sums, meta, starts[index + 1]);
    var weighted := Weighted(last, starts[index + 1], count);
    NextInterval(starts, until, startCount, deltas, k, index, starts[index + 1], count,
                 Added(sums, starts[index], weighted), meta + weighted);
  }

  lemma ToNextDelta(starts: seq<int>, until: int, startCount: int, deltas: seq<Delta>,
                    k: int, index: int, last: int, count: int, sums: map<int, int>, meta: int)
    requires 0 < |starts| && Setting(starts, until, deltas)
    requires Walked(starts, until, startCount, deltas, k, index, last, count, sums, meta)
    requires k < |deltas| && (index < |starts| - 1 ==> deltas[k].time <= starts[index + 1])
    ensures var weighted := Weighted(last, deltas[k].time, count);
            Walked(starts, until, startCount, deltas, k + 1, index, deltas[k].time, count + deltas[k].change,
                   Added(sums, starts[index], weighted), meta + weighted)
  {
    LaterDeltas(starts, until, startCount, deltas, k, index, last, count, sums, meta);
    hide Walked, Integral, Total;
    WalkOn(starts, until, startCount, deltas, k, index, last, count, sums, meta, deltas[k].time);
    var weighted := Weighted(last, deltas[k].time, count);
    NextDelta(starts, until, startCount, deltas, k, index, count, Added(sums, starts[index], weighted),
              meta + weighted);
  }

  lemma ToTheEnd(starts: seq<int>, until: int, startCount: int, deltas: seq<Delta>, last: int, count: int,
                 sums: map<int, int>, meta: int)
    requires 0 < |starts| && Setting(starts, until, deltas)
    requires Walked(starts, until, startCount, deltas, |deltas|, |starts| - 1, last, count, sums, meta)
    ensures var weighted := Weighted(last, until, count);
            Walked(starts, until, startCount, deltas, |deltas|, |starts| - 1, until, count,
                   Added(sums, starts[|starts| - 1], weighted), meta + weighted)
  {
    WalkOn(starts, until, startCount, deltas, |deltas|, |starts| - 1, last, count, sums, meta, until);
  }

  lemma WalkedBounds(starts: seq<int>, until: int, startCount: int, deltas: seq<Delta>,
                     k: int, index: int, last: int, count: int, sums: map<int, int>, meta: int)
    requires Walked(starts, until, startCount, deltas, k, index, last, count, sums, meta)
    ensures 0 <= k <= |deltas| && 0 <= index < |starts| && starts[index] <= last <= End(starts, until, index)
  {
  }

  /** Whatever change comes next, none of the later ones is before it. */
  lemma LaterDeltas(starts: seq<int>, until: int, startCount: int, deltas: seq<Delta>,
                    k: int, index: int, last: int, count: int, sums: map<int, int>, meta: int)
    requires 0 <= k < |deltas| && 0 < |starts| && InWindow(deltas, starts[0], until)
    requires Walked(starts, until, startCount, deltas, k, index, last, count, sums, meta)
    ensures 0 <= index < |starts| && starts[index] <= last <= End(starts, until, index)
            && last <= deltas[k].time < until
    ensures forall i | k <= i < |deltas| :: deltas[k].time <= deltas[i].time
  {
  }

  lemma WalkEnds(starts: seq<int>, until: int, startCount: int, deltas: seq<Delta>, last: int, count: int,
                 sums: map<int, int>, meta: int)
    requires 0 < |starts| && Setting(starts, until, deltas)
    requires Walked(starts, until, startCount, deltas, |deltas|, |starts| - 1, last, count, sums, meta)
    requires if LastPoint(starts, deltas) < until - 1 then last == until else last == LastPoint(starts, deltas)
    ensures SumsAre(starts, until, startCount, deltas, sums, meta)
  {
    var n := |starts| - 1;
    assert starts[0] <= starts[n] <= until - 1;
    LastSecond(startCount, deltas, starts[n], until);
    LastSecond(startCount, deltas, starts[0], until);
    var missing := Missing(starts, until, startCount, deltas);
    assert last == until - 1 ==> missing == Count(startCount, deltas, until - 1);
    assert last != until - 1 ==> last == until && missing == 0;
    hide Count, Integral, Missing, LastPoint, InWindow, Increasing, Total;
  }

  lemma LastSecond(startCount: int, deltas: seq<Delta>, a: int, until: int)
    requires a < until
    ensures Integral(startCount, deltas, a, until)
            == Integral(startCount, deltas, a, until - 1) + Count(startCount, deltas, until - 1)
  {
  }

  function SumOfIntervals(sums: map<int, int>, starts: seq<int>): int {
    if starts == [] then 0 else SumOfIntervals(sums, starts[..|starts| - 1]) + Get(sums, starts[|starts| - 1])
  }

  /** The intervals add up to the meta. */
  lemma IntervalsAddUp(starts: seq<int>, until: int, startCount: int, deltas: seq<Delta>, sums: map<int, int>,
                       meta: int)
    requires 0 < |starts| && Increasing(starts) && starts[|starts| - 1] < until
    requires SumsAre(starts, until, startCount, deltas, sums, meta)
    ensures SumOfIntervals(sums, starts) == meta
  {
    SumsAddUp(starts, until, startCount, deltas, sums, Missing(starts, until, startCount, deltas));
  }

  lemma {:induction false} SumsAddUp(starts: seq<int>, until: int, startCount: int, deltas: seq<Delta>,
                                     sums: map<int, int>, missing: int)
    requires 0 < |starts| && Increasing(starts) && starts[|starts| - 1] < until
    requires forall i | 0 <= i < |starts| ::
               Get(sums, starts[i]) == Integral(startCount, deltas, starts[i], End(starts, until, i))
                                       - if i == |starts| - 1 then missing else 0
    ensures SumOfIntervals(sums, starts) == Integral(startCount, deltas, starts[0], until) - missing
  {
    var n := |starts| - 1;
    hide Integral;
    if n > 0 {
      var front := starts[..n];
      assert forall i | 0 <= i < n :: End(front, starts[n], i) == End(starts, until, i);
      SumsAddUp(front, starts[n], startCount, deltas, sums, 0);
      IntegralSplits(startCount, deltas, starts[0], starts[n], until);
    } else {
      assert starts[..0] == [];
    }
  }
}
