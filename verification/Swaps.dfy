// Swap statistics: filling buckets by a merge with a sentinel, totals per bucket, and the sum over all buckets.
// Source: internal/timeseries/stat/swap.go, internal/api/json.go

module Swaps {

  datatype Direction =
    | RuneToAsset | AssetToRune | RuneToSynth | SynthToRune | RuneToDerived
    | DerivedToRune | RuneToTrade | TradeToRune | RuneToSecure | SecureToRune

  /** What is summed up for each direction. */
  datatype Measures = Measures(count: int, volume: int, volumeUSD: int, fees: int, slip: int) {
    function Plus(m: Measures): Measures {
      Measures(count + m.count, volume + m.volume, volumeUSD + m.volumeUSD, fees + m.fees, slip + m.slip)
    }
  }

  const ZERO := Measures(0, 0, 0, 0, 0)

  datatype OneDirection = OneDirection(time: int, direction: Direction, measures: Measures)

  /** One bucket's window, with the price at its end. */
  datatype PricedWindow = PricedWindow(from: int, until: int, runePriceUSD: real)

  datatype Bucket = Bucket(
    startTime: int, endTime: int,
    runeToAsset: Measures, assetToRune: Measures, runeToSynth: Measures, synthToRune: Measures,
    runeToTrade: Measures, tradeToRune: Measures, runeToSecured: Measures, securedToRune: Measures,
    total: Measures, runePriceUSD: real)

  predicate Derived(d: Direction) {
    d == RuneToDerived || d == DerivedToRune
  }

  /** The measures of a direction; derived ones are not kept. */
  function Of(b: Bucket, d: Direction): Measures {
    match d
    case RuneToAsset => b.runeToAsset
    case AssetToRune => b.assetToRune
    case RuneToSynth => b.runeToSynth
    case SynthToRune => b.synthToRune
    case RuneToTrade => b.runeToTrade
    case TradeToRune => b.tradeToRune
    case RuneToSecure => b.runeToSecured
    case SecureToRune => b.securedToRune
    case _ => ZERO
  }

  /** The sum over all directions. */
  function AllDirections(b: Bucket): Measures {
    Of(b, RuneToAsset).Plus(Of(b, AssetToRune)).Plus(Of(b, RuneToSynth)).Plus(Of(b, SynthToRune))
    .Plus(Of(b, RuneToTrade)).Plus(Of(b, TradeToRune)).Plus(Of(b, RuneToSecure)).Plus(Of(b, SecureToRune))
  }

  function Counted(s: OneDirection): Measures {
    if Derived(s.direction) then ZERO else s.measures
  }

  function AtTime(s: OneDirection, time: int, d: Direction): Measures {
    if s.time == time && s.direction == d then Counted(s) else ZERO
  }

  /** The sum over the swaps of one time and direction. */
  function SumAt(swaps: seq<OneDirection>, time: int, d: Direction): Measures {
    if swaps == [] then ZERO
    else
      var s := swaps[|swaps| - 1];
      SumAt(swaps[..|swaps| - 1], time, d).Plus(AtTime(s, time, d))
  }

  /** The sum over all swaps but those of derived assets. */
  function SumAll(swaps: seq<OneDirection>): Measures {
    if swaps == [] then ZERO else SumAll(swaps[..|swaps| - 1]).Plus(Counted(swaps[|swaps| - 1]))
  }

  function SumTotals(buckets: seq<Bucket>): Measures {
    if buckets == [] then ZERO else SumTotals(buckets[..|buckets| - 1]).Plus(buckets[|buckets| - 1].total)
  }

  function SumDirection(buckets: seq<Bucket>, d: Direction): Measures {
    if buckets == [] then ZERO else SumDirection(buckets[..|buckets| - 1], d).Plus(Of(buckets[|buckets| - 1], d))
  }

  class SwapBucket {
    var startTime: int
    var endTime: int
    var runeToAsset: Measures
    var assetToRune: Measures
    var runeToSynth: Measures
    var synthToRune: Measures
    var runeToTrade: Measures
    var tradeToRune: Measures
    var runeToSecured: Measures
    var securedToRune: Measures
    var total: Measures
    var runePriceUSD: real

    function Value(): Bucket
      reads this
    {
      Bucket(startTime, endTime, runeToAsset, assetToRune, runeToSynth, synthToRune,
             runeToTrade, tradeToRune, runeToSecured, securedToRune, total, runePriceUSD)
    }

    constructor ()
      ensures forall d :: Of(Value(), d) == ZERO
      ensures total == ZERO
    {
      startTime, endTime, runePriceUSD := 0, 0, 0.0;
      runeToAsset, assetToRune, runeToSynth, synthToRune := ZERO, ZERO, ZERO, ZERO;
      runeToTrade, tradeToRune, runeToSecured, securedToRune := ZERO, ZERO, ZERO, ZERO;
      total := ZERO;
    }

    /** Adds to the swap's own direction, and to no other. */
    method WriteOneDirection(s: OneDirection)
      modifies this
      ensures forall d :: Of(Value(), d) == old(Of(Value(), d)).Plus(if d == s.direction then Counted(s) else ZERO)
      ensures startTime == old(startTime) && endTime == old(endTime) && total == old(total)
              && runePriceUSD == old(runePriceUSD)
    {
      match s.direction {
        case RuneToAsset => runeToAsset := runeToAsset.Plus(s.measures);
        case AssetToRune => assetToRune := assetToRune.Plus(s.measures);
        case RuneToSynth => runeToSynth := runeToSynth.Plus(s.measures);
        case SynthToRune => synthToRune := synthToRune.Plus(s.measures);
        case RuneToTrade => runeToTrade := runeToTrade.Plus(s.measures);
        case TradeToRune => tradeToRune := tradeToRune.Plus(s.measures);
        case RuneToSecure => runeToSecured := runeToSecured.Plus(s.measures);
        case SecureToRune => securedToRune := securedToRune.Plus(s.measures);
        case _ =>
      }
    }

    /** A bucket that holds any list of swaps by direction gets their sum, without the derived ones, as its total. */
    method CalculateTotals()
      modifies this`total
      ensures total == AllDirections(Value())
      ensures forall swaps :: Holds(Value(), swaps) ==> total == SumAll(swaps)
    {
      total := runeToAsset.Plus(assetToRune).Plus(runeToSynth).Plus(synthToRune)
               .Plus(runeToTrade).Plus(tradeToRune).Plus(securedToRune).Plus(runeToSecured);
      forall swaps | Holds(Value(), swaps)
        ensures AllDirections(Value()) == SumAll(swaps)
      {
        TotalIsSum(Value(), swaps);
      }
    }

    /** Sums up buckets, the totals included. */
    method AddBucket(b: Bucket)
      modifies this
      ensures forall d :: Of(Value(), d) == old(Of(Value(), d)).Plus(Of(b, d))
      ensures total == old(total).Plus(b.total)
      ensures startTime == old(startTime) && endTime == old(endTime) && runePriceUSD == old(runePriceUSD)
    {
      runeToAsset, assetToRune := runeToAsset.Plus(b.runeToAsset), assetToRune.Plus(b.assetToRune);
      runeToSynth, synthToRune := runeToSynth.Plus(b.runeToSynth), synthToRune.Plus(b.synthToRune);
      runeToTrade, tradeToRune := runeToTrade.Plus(b.runeToTrade), tradeToRune.Plus(b.tradeToRune);
      securedToRune, runeToSecured := securedToRune.Plus(b.securedToRune), runeToSecured.Plus(b.runeToSecured);
      total := total.Plus(b.total);
    }
  }

  function DirectionSum(swaps: seq<OneDirection>, d: Direction): Measures {
    if swaps == [] then ZERO
    else
      var s := swaps[|swaps| - 1];
      DirectionSum(swaps[..|swaps| - 1], d).Plus(if s.direction == d then Counted(s) else ZERO)
  }

  /** For each direction the bucket has the sum over the list. */
  ghost predicate Holds(b: Bucket, swaps: seq<OneDirection>) {
    forall d :: Of(b, d) == DirectionSum(swaps, d)
  }

  /** Writing a swap adds it to the sum over all directions, unless it is derived. */
  lemma AllDirectionsWritten(b: Bucket, c: Bucket, s: OneDirection)
    requires forall d :: Of(c, d) == Of(b, d).Plus(if d == s.direction then Counted(s) else ZERO)
    ensures AllDirections(c) == AllDirections(b).Plus(Counted(s))
  {
    hide Of;
  }

  /** A bucket that holds a list. */
  function Holder(swaps: seq<OneDirection>): Bucket {
    Bucket(0, 0,
           DirectionSum(swaps, RuneToAsset), DirectionSum(swaps, AssetToRune),
           DirectionSum(swaps, RuneToSynth), DirectionSum(swaps, SynthToRune),
           DirectionSum(swaps, RuneToTrade), DirectionSum(swaps, TradeToRune),
           DirectionSum(swaps, RuneToSecure), DirectionSum(swaps, SecureToRune),
           ZERO, 0.0)
  }

  lemma {:induction false} HolderHolds(swaps: seq<OneDirection>)
    ensures Holds(Holder(swaps), swaps)
  {
    if swaps != [] {
      HolderHolds(swaps[..|swaps| - 1]);
    }
  }

  lemma {:induction false} TotalIsSum(b: Bucket, swaps: seq<OneDirection>)
    requires Holds(b, swaps)
    ensures AllDirections(b) == SumAll(swaps)
    decreases |swaps|
  {
    if swaps == [] {
      AllZero(b);
    } else {
      var front, s := swaps[..|swaps| - 1], swaps[|swaps| - 1];
      HolderHolds(front);
      TotalIsSum(Holder(front), front);
      assert forall d :: Of(b, d) == Of(Holder(front), d).Plus(if d == s.direction then Counted(s) else ZERO);
      AllDirectionsWritten(Holder(front), b, s);
    }
  }

  lemma {:induction false} SumAtNone(swaps: seq<OneDirection>, time: int, d: Direction)
    requires forall s <- swaps :: s.time != time
    ensures SumAt(swaps, time, d) == ZERO
  {
    if swaps != [] {
      SumAtNone(swaps[..|swaps| - 1], time, d);
    }
  }

  predicate Sorted(swaps: seq<OneDirection>) {
    forall i, j | 0 <= i < j < |swaps| :: swaps[i].time <= swaps[j].time
  }

  predicate WindowsInOrder(windows: seq<PricedWindow>) {
    && (forall i, j | 0 <= i < j < |windows| :: windows[i].from < windows[j].from)
    && forall w <- windows :: w.from <= windows[|windows| - 1].until
  }

  predicate StartsAt(windows: seq<PricedWindow>, n: int, time: int) {
    exists i | 0 <= i < n <= |windows| :: windows[i].from == time
  }

  /** The first `k` swaps are all at the start of one of the first `n` buckets, and the next one is not. */
  ghost predicate Used(swaps: seq<OneDirection>, windows: seq<PricedWindow>, n: int, k: int) {
    && 0 <= k <= |swaps|
    && (forall j | 0 <= j < k :: StartsAt(windows, n, swaps[j].time))
    && (k < |swaps| ==> !StartsAt(windows, n, swaps[k].time))
  }

  /** Each bucket has, for each direction, the sum over the swaps at its start. */
  ghost predicate Filled(buckets: seq<Bucket>, windows: seq<PricedWindow>, swaps: seq<OneDirection>) {
    && |buckets| <= |windows|
    && forall i | 0 <= i < |buckets| ::
         && buckets[i].startTime == windows[i].from && buckets[i].endTime == windows[i].until
         && buckets[i].runePriceUSD == windows[i].runePriceUSD
         && buckets[i].total == AllDirections(buckets[i])
         && forall d :: Of(buckets[i], d) == SumAt(swaps, windows[i].from, d)
  }

  lemma FilledNext(buckets: seq<Bucket>, windows: seq<PricedWindow>, swaps: seq<OneDirection>, k: nat)
    requires k < |swaps| && Filled(buckets, windows, swaps[..k])
    requires !StartsAt(windows, |buckets|, swaps[k].time)
    ensures Filled(buckets, windows, swaps[..k + 1])
  {
    assert swaps[..k + 1][..k] == swaps[..k];
    hide AllDirections;
  }

  /**
   * Fills the buckets in one pass; `k` is the number of swaps used. The sentinel keeps the index in
   * range. All swaps are used exactly when all are at the start of some bucket; nothing that is used
   * is lost or counted twice.
   */
  method MergeSwapsGapfill(swaps: seq<OneDirection>, windows: seq<PricedWindow>)
    returns (ret: seq<Bucket>, ghost k: nat)
    requires 0 < |windows| && WindowsInOrder(windows) && Sorted(swaps)
    ensures |ret| == |windows| && k <= |swaps|
    ensures k == |swaps| <==> forall j | 0 <= j < |swaps| :: StartsAt(windows, |windows|, swaps[j].time)
    ensures Used(swaps, windows, |windows|, k)
    ensures Filled(ret, windows, swaps[..k])
    ensures SumTotals(ret) == SumAll(swaps[..k])
  {
    ret := [];
    var timeAfterLast := windows[|windows| - 1].until + 1;
    var withSentinel := swaps + [OneDirection(timeAfterLast, RuneToAsset, ZERO)];
    var idx := 0;
    hide AllDirections, SumAt, SumAll, SumTotals, Filled, StartsAt, Used, WindowsInOrder, Sorted;
    NothingFilled(windows, swaps);
    for i := 0 to |windows|
      invariant |ret| == i && idx <= |swaps| && Used(swaps, windows, i, idx)
      invariant Filled(ret, windows, swaps[..idx])
      invariant SumTotals(ret) == SumAll(swaps[..idx])
    {
      var b;
      b, idx := FillOne(swaps, windows, withSentinel, i, idx, ret);
      SumTotalsNext(ret, b);
      ret := ret + [b];
    }
    k := idx;
    AllUsed(swaps, windows, k);
  }

  lemma AllUsed(swaps: seq<OneDirection>, windows: seq<PricedWindow>, k: nat)
    requires Used(swaps, windows, |windows|, k)
    ensures k == |swaps| <==> forall j | 0 <= j < |swaps| :: StartsAt(windows, |windows|, swaps[j].time)
  {
  }

  lemma NothingFilled(windows: seq<PricedWindow>, swaps: seq<OneDirection>)
    ensures Filled([], windows, swaps[..0]) && SumTotals([]) == SumAll(swaps[..0]) == ZERO
    ensures Used(swaps, windows, 0, 0)
  {
  }

  lemma SumTotalsNext(buckets: seq<Bucket>, b: Bucket)
    ensures SumTotals(buckets + [b]) == SumTotals(buckets).Plus(b.total)
  {
    assert (buckets + [b])[..|buckets|] == buckets;
  }

  /** The inner loop, for bucket `i`. */
  method FillOne(swaps: seq<OneDirection>, windows: seq<PricedWindow>, withSentinel: seq<OneDirection>, i: nat,
                 idx0: nat, ghost ret: seq<Bucket>)
    returns (b: Bucket, idx: nat)
    requires WindowsInOrder(windows) && Sorted(swaps) && |ret| == i < |windows| && idx0 <= |swaps|
    requires withSentinel == swaps + [OneDirection(windows[|windows| - 1].until + 1, RuneToAsset, ZERO)]
    requires Used(swaps, windows, i, idx0)
    requires Filled(ret, windows, swaps[..idx0])
    ensures idx0 <= idx <= |swaps|
    ensures Used(swaps, windows, i + 1, idx)
    ensures Filled(ret + [b], windows, swaps[..idx])
    ensures SumAll(swaps[..idx]) == SumAll(swaps[..idx0]).Plus(b.total)
  {
    hide AllDirections, SumAt, SumAll, Filled, Sorted, Of, Filling, StartsAt, Used, WindowsInOrder;
    var from := windows[i].from;
    var current := new SwapBucket();
    ghost var created := current.Value();
    current.startTime, current.endTime := windows[i].from, windows[i].until;
    SameDirections(created, current.Value());
    idx := idx0;
    FillingStart(swaps, windows, i, idx0, ret, current.Value());
    SentinelIsLater(windows, i);
    while withSentinel[idx].time == from
      invariant idx <= |swaps| && Filling(swaps, windows, i, idx0, idx, ret, current.Value())
      decreases |swaps| - idx
    {
      ghost var before := current.Value();
      current.WriteOneDirection(withSentinel[idx]);
      FillingNext(swaps, windows, i, idx0, idx, ret, before, current.Value());
      idx := idx + 1;
    }
    ghost var written := current.Value();
    current.CalculateTotals();
    ghost var totalled := current.Value();
    current.runePriceUSD := windows[i].runePriceUSD;
    b := current.Value();
    SameSums(written, b);
    SameSums(totalled, b);
    FillingEnd(swaps, windows, i, idx0, idx, ret, written, b);
  }

  /** The state of the inner loop: `b` is the bucket so far, and the swaps up to `idx` are used. */
  ghost predicate Filling(swaps: seq<OneDirection>, windows: seq<PricedWindow>, i: nat, idx0: nat, idx: nat,
                          ret: seq<Bucket>, b: Bucket) {
    && idx0 <= idx <= |swaps| && |ret| == i < |windows|
    && (forall j | 0 <= j < idx :: StartsAt(windows, i + 1, swaps[j].time))
    && (idx < |swaps| ==> !StartsAt(windows, i, swaps[idx].time))
    && Filled(ret, windows, swaps[..idx])
    && (forall d :: Of(b, d) == SumAt(swaps[..idx], windows[i].from, d))
    && SumAll(swaps[..idx]) == SumAll(swaps[..idx0]).Plus(AllDirections(b))
    && b.startTime == windows[i].from && b.endTime == windows[i].until
  }

  lemma SentinelIsLater(windows: seq<PricedWindow>, i: nat)
    requires WindowsInOrder(windows) && i < |windows|
    ensures windows[i].from < windows[|windows| - 1].until + 1
  {
    assert windows[i] in windows;
  }

  lemma FillingStart(swaps: seq<OneDirection>, windows: seq<PricedWindow>, i: nat, idx0: nat, ret: seq<Bucket>,
                     b: Bucket)
    requires WindowsInOrder(windows) && |ret| == i < |windows| && idx0 <= |swaps|
    requires Used(swaps, windows, i, idx0)
    requires Filled(ret, windows, swaps[..idx0])
    requires forall d :: Of(b, d) == ZERO
    requires b.startTime == windows[i].from && b.endTime == windows[i].until
    ensures Filling(swaps, windows, i, idx0, idx0, ret, b)
  {
    hide Of, SumAt, SumAll, Filled, AllDirections, StartsAt, WindowsInOrder;
    FreshBucket(b, swaps, windows, i, idx0);
    AllZero(b);
    NotYet(swaps, windows, i, idx0);
  }

  lemma FillingNext(swaps: seq<OneDirection>, windows: seq<PricedWindow>, i: nat, idx0: nat, idx: nat, ret: seq<Bucket>,
                    b: Bucket, c: Bucket)
    requires WindowsInOrder(windows) && Sorted(swaps) && Filling(swaps, windows, i, idx0, idx, ret, b)
    requires idx < |swaps| && swaps[idx].time == windows[i].from
    requires forall d :: Of(c, d) == Of(b, d).Plus(if d == swaps[idx].direction then Counted(swaps[idx]) else ZERO)
    requires c.startTime == b.startTime && c.endTime == b.endTime
    ensures Filling(swaps, windows, i, idx0, idx + 1, ret, c)
  {
    hide Of, SumAt, SumAll, Filled, AllDirections, StartsAt, WindowsInOrder, Sorted, Counted;
    AllDirectionsWritten(b, c, swaps[idx]);
    SumsNext(swaps, idx, windows[i].from);
    FilledNext(ret, windows, swaps, idx);
    NextIsNotEarlier(swaps, windows, i, idx);
  }

  lemma FillingEnd(swaps: seq<OneDirection>, windows: seq<PricedWindow>, i: nat, idx0: nat, idx: nat, ret: seq<Bucket>,
                   b: Bucket, c: Bucket)
    requires Filling(swaps, windows, i, idx0, idx, ret, b)
    requires idx < |swaps| ==> swaps[idx].time != windows[i].from
    requires c == b.(total := AllDirections(c), runePriceUSD := windows[i].runePriceUSD)
    requires AllDirections(c) == AllDirections(b) && forall d :: Of(b, d) == Of(c, d)
    ensures Used(swaps, windows, i + 1, idx)
    ensures Filled(ret + [c], windows, swaps[..idx])
    ensures SumAll(swaps[..idx]) == SumAll(swaps[..idx0]).Plus(c.total)
  {
    hide Of, SumAt, SumAll, Filled, AllDirections;
    FilledAppend(ret, windows, swaps[..idx], c);
  }

  lemma NotYet(swaps: seq<OneDirection>, windows: seq<PricedWindow>, i: nat, k: nat)
    requires WindowsInOrder(windows) && i < |windows| && k <= |swaps|
    requires forall j | 0 <= j < k :: StartsAt(windows, i, swaps[j].time)
    ensures forall j | 0 <= j < k :: StartsAt(windows, i + 1, swaps[j].time)
    ensures forall s <- swaps[..k] :: s.time != windows[i].from
  {
    forall s <- swaps[..k]
      ensures s.time != windows[i].from
    {
      var j :| 0 <= j < k && swaps[j] == s;
      assert StartsAt(windows, i, swaps[j].time);
    }
  }

  lemma AllZero(b: Bucket)
    requires forall d :: Of(b, d) == ZERO
    ensures AllDirections(b) == ZERO
  {
    hide Of;
  }

  lemma FreshBucket(b: Bucket, swaps: seq<OneDirection>, windows: seq<PricedWindow>, i: nat, k: nat)
    requires forall d :: Of(b, d) == ZERO
    requires WindowsInOrder(windows) && i < |windows| && k <= |swaps|
    requires forall j | 0 <= j < k :: StartsAt(windows, i, swaps[j].time)
    ensures forall d :: Of(b, d) == SumAt(swaps[..k], windows[i].from, d)
  {
    hide Of, SumAt, AllDirections;
    NotYet(swaps, windows, i, k);
    hide StartsAt, WindowsInOrder;
    forall d
      ensures SumAt(swaps[..k], windows[i].from, d) == ZERO
    {
      SumAtNone(swaps[..k], windows[i].from, d);
    }
  }

  lemma SumsNext(swaps: seq<OneDirection>, k: nat, time: int)
    requires k < |swaps|
    ensures SumAll(swaps[..k + 1]) == SumAll(swaps[..k]).Plus(Counted(swaps[k]))
    ensures forall d :: SumAt(swaps[..k + 1], time, d)
                        == SumAt(swaps[..k], time, d).Plus(AtTime(swaps[k], time, d))
  {
    assert swaps[..k + 1][..k] == swaps[..k];
  }

  lemma NextIsNotEarlier(swaps: seq<OneDirection>, windows: seq<PricedWindow>, i: nat, k: nat)
    requires WindowsInOrder(windows) && Sorted(swaps) && i < |windows| && k < |swaps|
             && swaps[k].time == windows[i].from
    ensures StartsAt(windows, i + 1, swaps[k].time)
    ensures k + 1 < |swaps| ==> !StartsAt(windows, i, swaps[k + 1].time)
  {
    if k + 1 < |swaps| {
      assert swaps[k].time <= swaps[k + 1].time;
    }
  }

  lemma SameSums(b: Bucket, c: Bucket)
    requires c == b.(total := c.total, runePriceUSD := c.runePriceUSD)
    ensures AllDirections(b) == AllDirections(c)
    ensures forall d :: Of(b, d) == Of(c, d)
  {
  }

  lemma FilledAppend(buckets: seq<Bucket>, windows: seq<PricedWindow>, swaps: seq<OneDirection>, b: Bucket)
    requires Filled(buckets, windows, swaps) && |buckets| < |windows|
    requires var w := windows[|buckets|];
             && b.startTime == w.from && b.endTime == w.until && b.runePriceUSD == w.runePriceUSD
             && b.total == AllDirections(b)
             && forall d :: Of(b, d) == SumAt(swaps, w.from, d)
    ensures Filled(buckets + [b], windows, swaps)
  {
    hide AllDirections, SumAt, Of;
  }

  /** The sum over all intervals. */
  method CreateVolumeIntervals(buckets: seq<Bucket>) returns (meta: Bucket)
    requires 0 < |buckets|
    ensures meta.total == SumTotals(buckets) && forall d :: Of(meta, d) == SumDirection(buckets, d)
    ensures meta.startTime == buckets[0].startTime && meta.endTime == buckets[|buckets| - 1].endTime
    ensures meta.runePriceUSD == buckets[|buckets| - 1].runePriceUSD
  {
    hide Of;
    var metaBucket := new SwapBucket();
    for i := 0 to |buckets|
      invariant metaBucket.total == SumTotals(buckets[..i])
      invariant forall d :: Of(metaBucket.Value(), d) == SumDirection(buckets[..i], d)
    {
      assert buckets[..i + 1][..i] == buckets[..i];
      metaBucket.AddBucket(buckets[i]);
    }
    assert buckets[..|buckets|] == buckets;
    ghost var summed := metaBucket.Value();
    metaBucket.startTime, metaBucket.endTime := buckets[0].startTime, buckets[|buckets| - 1].endTime;
    metaBucket.runePriceUSD := buckets[|buckets| - 1].runePriceUSD;
    meta := metaBucket.Value();
    SameDirections(summed, meta);
  }

  lemma SameDirections(b: Bucket, c: Bucket)
    requires c == b.(startTime := c.startTime, endTime := c.endTime, runePriceUSD := c.runePriceUSD)
    ensures forall d :: Of(b, d) == Of(c, d)
  {
  }

  // ---- In plain sums ----

  datatype Figure = Count | Volume | VolumeUSD | Fees | Slip

  function FigureOf(m: Measures, f: Figure): int {
    match f
    case Count => m.count
    case Volume => m.volume
    case VolumeUSD => m.volumeUSD
    case Fees => m.fees
    case Slip => m.slip
  }

  /** The sum of one figure over the swaps that are selected. */
  function Sum(swaps: seq<OneDirection>, keep: OneDirection -> bool, f: Figure): int {
    if swaps == [] then 0
    else
      var s := swaps[|swaps| - 1];
      Sum(swaps[..|swaps| - 1], keep, f) + if keep(s) then FigureOf(s.measures, f) else 0
  }

  /** Each measure is the sum of that measure over the swaps that are selected. */
  function Sums(swaps: seq<OneDirection>, keep: OneDirection -> bool): Measures {
    Measures(Sum(swaps, keep, Count), Sum(swaps, keep, Volume), Sum(swaps, keep, VolumeUSD), Sum(swaps, keep, Fees),
             Sum(swaps, keep, Slip))
  }

  function NotDerived(): OneDirection -> bool {
    (s: OneDirection) => s.direction != RuneToDerived && s.direction != DerivedToRune
  }

  function StartsIn(w: PricedWindow, d: Direction): OneDirection -> bool {
    (s: OneDirection) => s.time == w.from && s.direction == d
  }

  lemma NextSums(swaps: seq<OneDirection>, keep: OneDirection -> bool)
    requires swaps != []
    ensures Sums(swaps, keep)
            == Sums(swaps[..|swaps| - 1], keep)
               .Plus(if keep(swaps[|swaps| - 1]) then swaps[|swaps| - 1].measures else ZERO)
  {
  }

  lemma {:induction false} SumAtIs(swaps: seq<OneDirection>, w: PricedWindow, d: Direction)
    requires d != RuneToDerived && d != DerivedToRune
    ensures SumAt(swaps, w.from, d) == Sums(swaps, StartsIn(w, d))
  {
    if swaps != [] {
      SumAtIs(swaps[..|swaps| - 1], w, d);
      NextSums(swaps, StartsIn(w, d));
      hide Sums, Measures.Plus;
    }
  }

  lemma {:induction false} SumAllIs(swaps: seq<OneDirection>)
    ensures SumAll(swaps) == Sums(swaps, NotDerived())
  {
    if swaps != [] {
      SumAllIs(swaps[..|swaps| - 1]);
      NextSums(swaps, NotDerived());
      hide Sums, Measures.Plus;
    }
  }

  /** Each field of a filled bucket has the sums over the swaps of its direction at the bucket's start. */
  ghost predicate FieldsAreSums(b: Bucket, w: PricedWindow, swaps: seq<OneDirection>) {
    && b.runeToAsset == Sums(swaps, StartsIn(w, RuneToAsset)) && b.assetToRune == Sums(swaps, StartsIn(w, AssetToRune))
    && b.runeToSynth == Sums(swaps, StartsIn(w, RuneToSynth)) && b.synthToRune == Sums(swaps, StartsIn(w, SynthToRune))
    && b.runeToTrade == Sums(swaps, StartsIn(w, RuneToTrade)) && b.tradeToRune == Sums(swaps, StartsIn(w, TradeToRune))
    && b.runeToSecured == Sums(swaps, StartsIn(w, RuneToSecure))
    && b.securedToRune == Sums(swaps, StartsIn(w, SecureToRune))
  }

  /** What filling comes to in plain sums: field by field, and over all buckets. */
  lemma FilledSums(buckets: seq<Bucket>, windows: seq<PricedWindow>, swaps: seq<OneDirection>)
    requires Filled(buckets, windows, swaps) && SumTotals(buckets) == SumAll(swaps)
    ensures forall i | 0 <= i < |buckets| :: FieldsAreSums(buckets[i], windows[i], swaps)
    ensures SumTotals(buckets) == Sums(swaps, NotDerived())
  {
    hide SumAt, Sums, SumAll, SumTotals, AllDirections, NotDerived, StartsIn;
    SumAllIs(swaps);
    forall i | 0 <= i < |buckets|
      ensures FieldsAreSums(buckets[i], windows[i], swaps)
    {
      BucketSums(buckets[i], windows[i], swaps);
    }
  }

  lemma BucketSums(b: Bucket, w: PricedWindow, swaps: seq<OneDirection>)
    requires forall d :: Of(b, d) == SumAt(swaps, w.from, d)
    ensures FieldsAreSums(b, w, swaps)
  {
    hide SumAt, Sums, StartsIn;
    forall d | d != RuneToDerived && d != DerivedToRune
      ensures Of(b, d) == Sums(swaps, StartsIn(w, d))
    {
      SumAtIs(swaps, w, d);
    }
    assert Of(b, RuneToAsset) == b.runeToAsset && Of(b, AssetToRune) == b.assetToRune;
    assert Of(b, RuneToSynth) == b.runeToSynth && Of(b, SynthToRune) == b.synthToRune;
    assert Of(b, RuneToTrade) == b.runeToTrade && Of(b, TradeToRune) == b.tradeToRune;
    assert Of(b, RuneToSecure) == b.runeToSecured && Of(b, SecureToRune) == b.securedToRune;
  }
}
