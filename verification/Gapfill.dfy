// Buckets, and the merge loop that turns sparse rows into one value per bucket.
// Source: internal/db/buckets.go, internal/timeseries/stat/depth.go

/** Buckets: bucket `i` reaches from timestamp `i` to just before timestamp `i + 1`. */
module Bucketing {
  import opened Collections

  const NANO := 1_000_000_000

  /** What trimming comes to; a slice or an index may be out of range, which ends the request in a panic. */
  datatype Trimmed = OutOfRange | NothingRequested | Boundaries(ts: seq<int>)

  /** When a window is outside the candidates, or ends long before it starts. */
  predicate RunsOut(ts: seq<int>, from: int, until: int) {
    || |ts| == 1
    || (2 <= |ts| && ts[|ts| - 1] <= from)
    || exists j | 2 <= j < |ts| :: ts[j] <= from && until <= ts[j - 2]
  }

  /** Some bucket has a part inside the window, or around it. */
  predicate Overlaps(ts: seq<int>, from: int, until: int) {
    exists j | 0 < j < |ts| :: from < ts[j] && ts[j - 1] < until
  }

  /** `ret` is the slice from `first` that has the boundaries needed for a window, and no others. */
  ghost predicate Trims(ts: seq<int>, from: int, until: int, ret: seq<int>, first: nat) {
    && 2 <= |ret| && first + |ret| <= |ts| && ret == ts[first..first + |ret|]
    && (forall i | 0 <= i < |ret| - 1 :: ret[i] < until)
    && (until <= ts[|ts| - 1] ==> until <= ret[|ret| - 1])
    && (forall i | 0 < i < |ret| :: from < ret[i])
    && (ts[0] <= from ==> ret[0] <= from)
    // A boundary that equals the end of the window is the last one: none bigger than it is kept.
    && (until in ts && from < until ==> ret[|ret| - 1] == until)
  }

  /**
   * Keeps the boundaries needed for a window: one that is not before its end, and one that is not
   * after its start.
   */
  method TrimTimestamps(ts: seq<int>, from: int, until: int) returns (r: Trimmed, ghost first: nat)
    requires Increasing(ts)
    ensures r.OutOfRange? <==> RunsOut(ts, from, until)
    ensures r.Boundaries? <==> !RunsOut(ts, from, until) && Overlaps(ts, from, until)
    ensures r.Boundaries? ==> Trims(ts, from, until, r.ts, first)
  {
    first := 0;
    var lastIdx := |ts| - 1;
    while 0 < lastIdx && until <= ts[lastIdx - 1]
      invariant ts == [] ==> lastIdx == -1
      invariant ts != [] ==> 0 <= lastIdx < |ts| && (lastIdx < |ts| - 1 ==> until <= ts[lastIdx])
    {
      lastIdx := lastIdx - 1;
    }
    var firstIdx := 0;
    while firstIdx < |ts|
      invariant 0 <= firstIdx && (if ts == [] then firstIdx == 0 else firstIdx < |ts|)
      invariant 0 < firstIdx ==> ts[firstIdx] <= from
    {
      if firstIdx + 1 == |ts| {
        return OutOfRange, first;
      }
      if from < ts[firstIdx + 1] {
        break;
      }
      firstIdx := firstIdx + 1;
    }
    if ts != [] {
      StopsDecide(ts, from, until, lastIdx, firstIdx);
    }
    hide RunsOut, Overlaps, Trims;
    if lastIdx + 1 < firstIdx {
      return OutOfRange, first;
    }
    first := firstIdx;
    var ret := ts[firstIdx..lastIdx + 1];
    if |ret| < 2 {
      return NothingRequested, first;
    }
    r := Boundaries(ret);
  }

  /** `l` and `f` are where the two loops stop. */
  ghost predicate Stops(ts: seq<int>, from: int, until: int, l: nat, f: nat) {
    && l < |ts| && (0 < l ==> ts[l - 1] < until) && (l < |ts| - 1 ==> until <= ts[l])
    && f + 1 < |ts| && from < ts[f + 1] && (0 < f ==> ts[f] <= from)
  }

  lemma StopsDecide(ts: seq<int>, from: int, until: int, l: nat, f: nat)
    requires Increasing(ts) && Stops(ts, from, until, l, f)
    ensures RunsOut(ts, from, until) <==> l + 1 < f
    ensures f <= l + 1 ==> (Overlaps(ts, from, until) <==> f < l)
    ensures f < l ==> Trims(ts, from, until, ts[f..l + 1], f)
  {
    hide Increasing, RunsOut, Overlaps, Trims, Stops;
    RunsOutAt(ts, from, until, l, f);
    OverlapsAt(ts, from, until, l, f);
    if f < l {
      TrimsAt(ts, from, until, l, f);
    }
  }

  lemma InOrder(ts: seq<int>, i: nat, j: nat)
    requires Increasing(ts) && i < |ts| && j < |ts|
    ensures (i < j <==> ts[i] < ts[j]) && (j < i <==> ts[j] < ts[i])
  {
  }

  lemma RunsOutAt(ts: seq<int>, from: int, until: int, l: nat, f: nat)
    requires Increasing(ts) && Stops(ts, from, until, l, f)
    ensures RunsOut(ts, from, until) <==> l + 1 < f
  {
    if l + 1 < f {
      assert ts[l + 2] <= ts[f] && until <= ts[l + 2 - 2];
    }
    if j :| 2 <= j < |ts| && ts[j] <= from && until <= ts[j - 2] {
      InOrder(ts, f + 1, j);
      if 0 < l {
        InOrder(ts, j - 2, l - 1);
      }
    }
    assert ts[f + 1] <= ts[|ts| - 1];
  }

  lemma OverlapsAt(ts: seq<int>, from: int, until: int, l: nat, f: nat)
    requires Increasing(ts) && Stops(ts, from, until, l, f)
    ensures f <= l + 1 ==> (Overlaps(ts, from, until) <==> f < l)
  {
    if f < l {
      assert ts[f] <= ts[l - 1];
      assert from < ts[f + 1] && ts[f + 1 - 1] < until;
    }
    if j :| 0 < j < |ts| && from < ts[j] && ts[j - 1] < until {
      InOrder(ts, j, f);
      InOrder(ts, f, j - 1);
      InOrder(ts, l, f);
    }
  }

  lemma TrimsAt(ts: seq<int>, from: int, until: int, l: nat, f: nat)
    requires Increasing(ts) && Stops(ts, from, until, l, f) && f < l
    ensures Trims(ts, from, until, ts[f..l + 1], f)
  {
    var ret := ts[f..l + 1];
    forall i | 0 <= i < |ret| - 1
      ensures ret[i] < until
    {
      assert ts[f + i] <= ts[l - 1];
    }
    forall i | 0 < i < |ret|
      ensures from < ret[i]
    {
      assert ts[f + 1] <= ts[f + i];
    }
    if until in ts && from < until {
      var k :| 0 <= k < |ts| && ts[k] == until;
      InOrder(ts, k, l - 1);
      InOrder(ts, l, k);
    }
  }

  /**
   * Drops buckets outside the life of the chain: only such that start after its last block or end
   * before its first one, and all of these but the outermost.
   */
  method RestrictBuckets(firstBlock: int, lastBlock: int, ts: seq<int>) returns (ret: seq<int>, ghost first: nat)
    requires Increasing(ts) && 2 <= |ts| && firstBlock <= lastBlock
    ensures 2 <= |ret| && first + |ret| <= |ts| && ret == ts[first..first + |ret|]
    ensures forall i | 0 < i <= first :: ts[i] < firstBlock
    ensures forall i | first + |ret| - 1 <= i < |ts| - 1 :: lastBlock < ts[i]
    ensures 2 < |ret| ==> firstBlock <= ret[1] && ret[|ret| - 2] <= lastBlock
  {
    var firstok, lastok := 0, |ts| - 1;
    while 1 < lastok && lastBlock < ts[lastok - 1]
      invariant 1 <= lastok < |ts|
      invariant forall i | lastok <= i < |ts| - 1 :: lastBlock < ts[i]
    {
      lastok := lastok - 1;
    }
    while firstok < lastok - 1 && ts[firstok + 1] < firstBlock
      invariant 0 <= firstok < lastok
      invariant forall i | 0 < i <= firstok :: ts[i] < firstBlock
    {
      firstok := firstok + 1;
    }
    first := firstok;
    ret := ts[firstok..lastok + 1];
  }

  // ---- Merging sparse rows into buckets ----

  datatype Sample<V> = Sample(time: int, value: V)

  predicate Sorted<V>(rows: seq<Sample<V>>) {
    forall i, j | 0 <= i < j < |rows| :: rows[i].time <= rows[j].time
  }

  /** All rows of one time, applied in order. */
  function AppliedAt<S, V>(apply: (S, V) -> S, rows: seq<Sample<V>>, time: int, s: S): S {
    if rows == [] then s
    else
      var r := rows[|rows| - 1];
      var s' := AppliedAt(apply, rows[..|rows| - 1], time, s);
      if r.time == time then apply(s', r.value) else s'
  }

  /**
   * The state after `n` buckets. Buckets that start before the epoch see no rows, and one that starts
   * at the epoch sees an empty row first.
   */
  function Saved<S, V>(apply: (S, V) -> S, rows: seq<Sample<V>>, ts: seq<int>, n: nat, zero: V, s: S): S
    requires n <= |ts|
  {
    if n == 0 then s
    else
      var prev, t := Saved(apply, rows, ts, n - 1, zero, s), ts[n - 1];
      if t < 0 then prev
      else AppliedAt(apply, rows, t, if t == 0 then apply(prev, zero) else prev)
  }

  lemma {:induction false} AppliedPrefix<S, V>(apply: (S, V) -> S, rows: seq<Sample<V>>, k: nat, time: int, s: S)
    requires k <= |rows| && forall i | k <= i < |rows| :: rows[i].time != time
    ensures AppliedAt(apply, rows, time, s) == AppliedAt(apply, rows[..k], time, s)
    decreases |rows|
  {
    if k < |rows| {
      AppliedPrefix(apply, rows[..|rows| - 1], k, time, s);
      assert rows[..|rows| - 1][..k] == rows[..k];
    } else {
      assert rows[..k] == rows;
    }
  }

  lemma AppliedNone<S, V>(apply: (S, V) -> S, rows: seq<Sample<V>>, time: int, s: S)
    requires forall r <- rows :: r.time != time
    ensures AppliedAt(apply, rows, time, s) == s
  {
    AppliedPrefix(apply, rows, 0, time, s);
  }

  /** `k` rows are scanned, all before or at `time` but the last; `next` is later. */
  ghost predicate Pending<V>(rows: seq<Sample<V>>, k: int, next: int, value: V, time: int, end: int) {
    && 0 <= k <= |rows| && time < next
    && (|| (0 < k && rows[k - 1] == Sample(next, value) && forall j | 0 <= j < k - 1 :: rows[j].time <= time)
        || (k == |rows| && next == end + 1 && forall j | 0 <= j < k :: rows[j].time <= time))
  }

  /** Rows are scanned once; a scanned row waits until its bucket comes up. */
  method QueryBucketedGeneral<S(==), V(==)>(ts: seq<int>, rows: seq<Sample<V>>, zero: V, apply: (S, V) -> S, s0: S)
    returns (saved: seq<S>)
    requires 0 < |ts| && Increasing(ts) && Sorted(rows)
    ensures |saved| == |ts| - 1
    ensures forall i | 0 <= i < |saved| :: saved[i] == Saved(apply, rows, ts, i + 1, zero, s0)
  {
    var nextDBTimestamp, next := 0, zero;
    var state, k := s0, 0;
    var end := ts[|ts| - 1];
    saved := [];
    hide AppliedAt, Saved, Sorted, Pending, AtStarts;
    assert Saved(apply, rows, ts, 0, zero, s0) == s0 by { SavedFirst(apply, rows, ts, zero, s0); }
    for i := 0 to |ts| - 1
      invariant |saved| == i && forall j | 0 <= j < i :: saved[j] == Saved(apply, rows, ts, j + 1, zero, s0)
      invariant state == Saved(apply, rows, ts, i, zero, s0)
      invariant if i == 0 || ts[i - 1] < 0 then nextDBTimestamp == 0 && next == zero && k == 0
                else Pending(rows, k, nextDBTimestamp, next, ts[i - 1], end)
    {
      ghost var before := if ts[i] == 0 then apply(state, zero) else state;
      if i > 0 && 0 <= ts[i - 1] {
        PendingHere(apply, rows, k, nextDBTimestamp, next, ts[i - 1], end, ts[i], before);
      } else {
        NoneScanned(apply, rows, ts[i], before);
      }
      if nextDBTimestamp == ts[i] {
        state := apply(state, next);
      }
      state, k, nextDBTimestamp, next := ScanRows(ts[i], end, rows, apply, state, k, nextDBTimestamp, next, before);
      SavedNext(apply, rows, ts, i, zero, s0);
      saved := saved + [state];
    }
  }

  /** The inner loop, for the bucket that starts at `from`. */
  method ScanRows<S(==), V(==)>(from: int, end: int, rows: seq<Sample<V>>, apply: (S, V) -> S, state0: S, k0: nat,
                                next0: int, value0: V, ghost before: S)
    returns (state: S, k: nat, nextDBTimestamp: int, next: V)
    requires Sorted(rows) && k0 <= |rows| && from <= end
    requires 0 <= from ==> state0 == AppliedAt(apply, rows[..k0], from, before)
    requires from < 0 ==> from < next0
    requires if next0 <= from then forall j | 0 <= j < k0 :: rows[j].time <= from
             else from < 0 || Pending(rows, k0, next0, value0, from, end)
    ensures k <= |rows|
    ensures from < 0 ==> state == state0 && k == k0 && nextDBTimestamp == next0 && next == value0
    ensures 0 <= from ==>
              state == AppliedAt(apply, rows, from, before) && Pending(rows, k, nextDBTimestamp, next, from, end)
  {
    state, k, nextDBTimestamp, next := state0, k0, next0, value0;
    hide AppliedAt, Sorted;
    while nextDBTimestamp <= from
      invariant k <= |rows|
      invariant 0 <= from ==> state == AppliedAt(apply, rows[..k], from, before)
      invariant from < 0 ==> nextDBTimestamp == next0 && next == value0 && k == k0 && state == state0
      invariant if nextDBTimestamp <= from then forall j | 0 <= j < k :: rows[j].time <= from
                else from < 0 || Pending(rows, k, nextDBTimestamp, next, from, end)
      decreases |rows| - k, if nextDBTimestamp <= from then 1 else 0
    {
      if k < |rows| {
        nextDBTimestamp, next := rows[k].time, rows[k].value;
        AppliedNext(apply, rows, k, from, before);
        k := k + 1;
        if nextDBTimestamp == from {
          state := apply(state, next);
        }
      } else {
        nextDBTimestamp := end + 1;
      }
    }
    if 0 <= from {
      AllScanned(apply, rows, k, nextDBTimestamp, next, from, end, before);
    }
  }

  /** Buckets that start before the epoch leave the state as it is. */
  lemma {:induction false} SavedEarly<S, V>(apply: (S, V) -> S, rows: seq<Sample<V>>, ts: seq<int>, n: nat, zero: V,
                                            s: S)
    requires n <= |ts| && forall i | 0 <= i < n :: ts[i] < 0
    ensures Saved(apply, rows, ts, n, zero, s) == s
  {
    if n > 0 {
      SavedEarly(apply, rows, ts, n - 1, zero, s);
    }
  }

  /** The bucket in which the epoch is, at its start or inside. */
  lemma EpochBucket(ts: seq<int>) returns (i: nat)
    requires 2 <= |ts| && ts[0] <= 0 < ts[|ts| - 1]
    ensures i < |ts| - 1 && ts[i] <= 0 < ts[i + 1]
  {
    i := 0;
    while ts[i + 1] <= 0
      invariant i < |ts| - 1 && ts[i] <= 0
      decreases |ts| - i
    {
      i := i + 1;
    }
  }

  /** The epoch is inside a bucket, and not at its start. */
  predicate Straddles(ts: seq<int>) {
    exists i | 0 < i < |ts| :: ts[i - 1] < 0 < ts[i]
  }

  lemma SavedFirst<S, V>(apply: (S, V) -> S, rows: seq<Sample<V>>, ts: seq<int>, zero: V, s: S)
    ensures Saved(apply, rows, ts, 0, zero, s) == s
  {
  }

  lemma SavedNext<S, V>(apply: (S, V) -> S, rows: seq<Sample<V>>, ts: seq<int>, n: nat, zero: V, s: S)
    requires n < |ts|
    ensures var prev, t := Saved(apply, rows, ts, n, zero, s), ts[n];
            Saved(apply, rows, ts, n + 1, zero, s)
            == if t < 0 then prev else AppliedAt(apply, rows, t, if t == 0 then apply(prev, zero) else prev)
  {
  }

  lemma AppliedNext<S, V>(apply: (S, V) -> S, rows: seq<Sample<V>>, k: nat, time: int, s: S)
    requires k < |rows|
    ensures var s' := AppliedAt(apply, rows[..k], time, s);
            AppliedAt(apply, rows[..k + 1], time, s) == if rows[k].time == time then apply(s', rows[k].value) else s'
  {
    assert rows[..k + 1][..k] == rows[..k];
  }

  /** A row that was scanned for an earlier bucket is the only scanned one that can belong to this bucket. */
  lemma PendingHere<S, V>(apply: (S, V) -> S, rows: seq<Sample<V>>, k: nat, next: int, value: V, prev: int, end: int,
                          from: int, s: S)
    requires Pending(rows, k, next, value, prev, end) && prev < from <= end
    ensures k <= |rows|
    ensures AppliedAt(apply, rows[..k], from, s) == if next == from then apply(s, value) else s
    ensures if next <= from then forall j | 0 <= j < k :: rows[j].time <= from
            else Pending(rows, k, next, value, from, end)
  {
    if 0 < k && rows[k - 1].time == next {
      AppliedNext(apply, rows, k - 1, from, s);
      AppliedNone(apply, rows[..k - 1], from, s);
    } else {
      AppliedNone(apply, rows[..k], from, s);
    }
  }

  lemma NoneScanned<S, V>(apply: (S, V) -> S, rows: seq<Sample<V>>, from: int, s: S)
    ensures AppliedAt(apply, rows[..0], from, s) == s
  {
  }

  lemma AllScanned<S, V>(apply: (S, V) -> S, rows: seq<Sample<V>>, k: nat, next: int, value: V, from: int, end: int,
                         s: S)
    requires Sorted(rows)
    requires Pending(rows, k, next, value, from, end)
    ensures AppliedAt(apply, rows, from, s) == AppliedAt(apply, rows[..k], from, s)
  {
    AppliedPrefix(apply, rows, k, from, s);
  }

  // ---- The same as a fold ----

  function Fold<S, V>(apply: (S, V) -> S, rows: seq<Sample<V>>, s: S): S {
    if rows == [] then s else apply(Fold(apply, rows[..|rows| - 1], s), rows[|rows| - 1].value)
  }

  /** The rows up to a time. */
  function UpTo<V>(rows: seq<Sample<V>>, time: int): seq<Sample<V>> {
    if rows == [] then []
    else UpTo(rows[..|rows| - 1], time) + if rows[|rows| - 1].time <= time then [rows[|rows| - 1]] else []
  }

  predicate AtStarts<V>(rows: seq<Sample<V>>, ts: seq<int>) {
    forall i | 0 <= i < |rows| :: rows[i].time in ts
  }

  lemma NoneLater<V>(rows: seq<Sample<V>>, k: nat, time: int)
    requires Sorted(rows) && k < |rows| && rows[|rows| - 1].time <= time
    requires forall i | k <= i < |rows| - 1 :: time < rows[i].time
    ensures k == |rows| - 1
  {
    var r := rows[k];
  }

  /** Of sorted rows, those up to a time come first. */
  lemma {:induction false} UpToIsPrefix<V>(rows: seq<Sample<V>>, time: int) returns (k: nat)
    requires Sorted(rows)
    ensures k <= |rows| && UpTo(rows, time) == rows[..k]
    ensures forall i | 0 <= i < k :: rows[i].time <= time
    ensures forall i | k <= i < |rows| :: time < rows[i].time
  {
    k := 0;
    if rows != [] {
      var front := rows[..|rows| - 1];
      k := UpToIsPrefix(front, time);
      if rows[|rows| - 1].time <= time {
        NoneLater(rows, k, time);
        k := k + 1;
      }
    }
  }

  lemma {:induction false} UpToGrows<V>(rows: seq<Sample<V>>, time: int, later: int)
    requires time <= later
    ensures |UpTo(rows, time)| <= |UpTo(rows, later)|
  {
    if rows != [] {
      UpToGrows(rows[..|rows| - 1], time, later);
    }
  }

  lemma NoStartBetween(ts: seq<int>, n: nat, m: nat)
    requires Increasing(ts) && 0 < n <= |ts| && m < |ts|
    requires ts[m] <= ts[n - 1] && (n > 1 ==> ts[n - 2] < ts[m])
    ensures m == n - 1
  {
  }

  /** Rows `j` to `k` are those of one time. */
  lemma {:induction false} AppliedIsFold<S, V>(apply: (S, V) -> S, rows: seq<Sample<V>>, j: nat, k: nat, time: int,
                                               s: S)
    requires j <= k <= |rows|
    requires forall i | 0 <= i < j :: rows[i].time != time
    requires forall i | j <= i < k :: rows[i].time == time
    ensures AppliedAt(apply, rows[..k], time, Fold(apply, rows[..j], s)) == Fold(apply, rows[..k], s)
    decreases k
  {
    if j < k {
      AppliedIsFold(apply, rows, j, k - 1, time, s);
      AppliedNext(apply, rows, k - 1, time, Fold(apply, rows[..j], s));
      assert rows[..k][..k - 1] == rows[..k - 1];
    } else {
      AppliedNone(apply, rows[..j], time, Fold(apply, rows[..j], s));
    }
  }

  /** Each row is applied exactly once: bucket `i` holds the fold of all rows up to its start. */
  lemma {:induction false} SavedIsFold<S, V>(apply: (S, V) -> S, rows: seq<Sample<V>>, ts: seq<int>, n: nat, zero: V,
                                             s: S)
    requires Increasing(ts) && Sorted(rows) && AtStarts(rows, ts) && 0 < n <= |ts| && 0 < ts[0]
    ensures Saved(apply, rows, ts, n, zero, s) == Fold(apply, UpTo(rows, ts[n - 1]), s)
  {
    var t := ts[n - 1];
    var k := UpToIsPrefix(rows, t);
    var j := 0;
    if n > 1 {
      SavedIsFold(apply, rows, ts, n - 1, zero, s);
      j := UpToIsPrefix(rows, ts[n - 2]);
      UpToGrows(rows, ts[n - 2], t);
    }
    forall i | j <= i < k
      ensures rows[i].time == t
    {
      var m :| 0 <= m < |ts| && ts[m] == rows[i].time;
      NoStartBetween(ts, n, m);
    }
    AppliedPrefix(apply, rows, k, t, Saved(apply, rows, ts, n - 1, zero, s));
    AppliedIsFold(apply, rows, j, k, t, s);
    assert rows[..0] == [];
  }
}

/** Liquidity units, from the events that add and withdraw them. */
module UnitHistory {
  import opened Collections
  import opened Tables
  import opened Bucketing

  /** A row of the stake or withdraw events. */
  datatype Change = Change(time: int, pool: string, units: int)

  predicate Within(time: int, from: Option<int>, until: Option<int>) {
    (from.Some? ==> from.value <= time) && (until.Some? ==> time < until.value)
  }

  function UnitsIn(changes: seq<Change>, pool: string, from: Option<int>, until: Option<int>): int {
    if changes == [] then 0
    else
      var c := changes[|changes| - 1];
      UnitsIn(changes[..|changes| - 1], pool, from, until)
      + if c.pool == pool && Within(c.time, from, until) then c.units else 0
  }

  /** The changes before a time, which does not include the time itself. */
  function Earlier(changes: seq<Change>, time: int): seq<Change> {
    if changes == [] then []
    else
      var c := changes[|changes| - 1];
      Earlier(changes[..|changes| - 1], time) + if c.time < time then [c] else []
  }

  function UnitsOfPool(changes: seq<Change>, pool: string): int {
    if changes == [] then 0
    else
      var c := changes[|changes| - 1];
      UnitsOfPool(changes[..|changes| - 1], pool) + if c.pool == pool then c.units else 0
  }

  /** Units before a time are those of all changes before it; units without a time are those of all changes. */
  lemma {:induction false} UnitsBefore(changes: seq<Change>, pool: string, time: int)
    ensures UnitsIn(changes, pool, None, Some(time)) == UnitsOfPool(Earlier(changes, time), pool)
    ensures UnitsIn(changes, pool, None, None) == UnitsOfPool(changes, pool)
  {
    if changes != [] {
      var front, c := changes[..|changes| - 1], changes[|changes| - 1];
      UnitsBefore(front, pool, time);
      var earlier := Earlier(front, time);
      assert (earlier + [c])[..|earlier|] == earlier;
      assert c.time >= time ==> Earlier(changes, time) == earlier;
    }
  }

  predicate AnyIn(changes: seq<Change>, pool: string, from: Option<int>, until: Option<int>) {
    exists c <- changes :: c.pool == pool && Within(c.time, from, until)
  }

  /** The query for the sums per pool; pools without events have no row. */
  function TotalUnitChanges(changes: seq<Change>, pools: seq<string>, until: Option<int>): map<string, int> {
    map pool <- pools | AnyIn(changes, pool, None, until) :: UnitsIn(changes, pool, None, until)
  }

  lemma {:induction false} NoneIn(changes: seq<Change>, pool: string, from: Option<int>, until: Option<int>)
    requires !AnyIn(changes, pool, from, until)
    ensures UnitsIn(changes, pool, from, until) == 0
  {
    if changes != [] {
      assert changes[|changes| - 1] in changes;
      NoneIn(changes[..|changes| - 1], pool, from, until);
    }
  }

  lemma {:induction false} UnitsSplit(changes: seq<Change>, pool: string, from: Option<int>, mid: int,
                                      until: Option<int>)
    requires (from.Some? ==> from.value <= mid) && (until.Some? ==> mid <= until.value)
    ensures UnitsIn(changes, pool, from, until)
            == UnitsIn(changes, pool, from, Some(mid)) + UnitsIn(changes, pool, Some(mid), until)
  {
    if changes != [] {
      UnitsSplit(changes[..|changes| - 1], pool, from, mid, until);
    }
  }

  lemma TotalIs(changes: seq<Change>, pools: seq<string>, until: Option<int>, pool: string)
    requires pool in pools
    ensures Get(TotalUnitChanges(changes, pools, until), pool) == UnitsIn(changes, pool, None, until)
  {
    if !AnyIn(changes, pool, None, until) {
      NoneIn(changes, pool, None, until);
    }
  }

  /** The net units of each pool, not including the time itself. */
  method PoolsLiquidityUnitsBefore(stakeEvents: seq<Change>, withdrawEvents: seq<Change>, pools: seq<string>,
                                   until: Option<int>)
    returns (stakes: map<string, int>)
    ensures forall pool <- pools ::
              Get(stakes, pool) == UnitsIn(stakeEvents, pool, None, until) - UnitsIn(withdrawEvents, pool, None, until)
  {
    stakes := TotalUnitChanges(stakeEvents, pools, until);
    var withdraws := TotalUnitChanges(withdrawEvents, pools, until);
    ghost var before := stakes;
    var todo := withdraws.Keys;
    while todo != {}
      invariant todo <= withdraws.Keys
      invariant forall pool: string ::
                  Get(stakes, pool) == Get(before, pool) - if pool in todo then 0 else Get(withdraws, pool)
    {
      var k :| k in todo;
      stakes := stakes[k := Get(stakes, k) - withdraws[k]];
      todo := todo - {k};
    }
    forall pool <- pools
      ensures Get(before, pool) == UnitsIn(stakeEvents, pool, None, until)
      ensures Get(withdraws, pool) == UnitsIn(withdrawEvents, pool, None, until)
    {
      TotalIs(stakeEvents, pools, until, pool);
      TotalIs(withdrawEvents, pools, until, pool);
    }
  }

  function Start(ts: seq<int>, i: int): Option<int>
    requires 0 <= i < |ts|
  {
    Some(ts[i] * NANO)
  }

  /** The units of one bucket. */
  function UnitsOf(changes: seq<Change>, pool: string, ts: seq<int>, i: int): int
    requires 0 <= i < |ts| - 1
  {
    UnitsIn(changes, pool, Start(ts, i), Start(ts, i + 1))
  }

  predicate AnyOf(changes: seq<Change>, pool: string, ts: seq<int>, i: int)
    requires 0 <= i < |ts| - 1
  {
    AnyIn(changes, pool, Start(ts, i), Start(ts, i + 1))
  }

  /** The rows of the query for one pool: the sum over each bucket with events, by its start. */
  ghost predicate IsGrouped(changes: seq<Change>, pool: string, ts: seq<int>, rows: seq<Sample<int>>) {
    && (forall i, j | 0 <= i < j < |rows| :: rows[i].time < rows[j].time)
    && (forall r <- rows :: exists i | 0 <= i < |ts| - 1 ::
          ts[i] == r.time && r.value == UnitsOf(changes, pool, ts, i))
    && forall i | 0 <= i < |ts| - 1 && AnyOf(changes, pool, ts, i) :: exists r <- rows :: r.time == ts[i]
  }

  function Plus(): (int, int) -> int {
    (a: int, b: int) => a + b
  }

  /** At most one row has the time, so applying adds its value, or nothing. */
  lemma {:induction false} AppliedOnce(rows: seq<Sample<int>>, time: int, s: int)
    requires forall i, j | 0 <= i < j < |rows| :: rows[i].time < rows[j].time
    ensures (forall r <- rows :: r.time != time) ==> AppliedAt(Plus(), rows, time, s) == s
    ensures forall r <- rows :: r.time == time ==> AppliedAt(Plus(), rows, time, s) == s + r.value
  {
    if rows != [] {
      var front, r := rows[..|rows| - 1], rows[|rows| - 1];
      AppliedOnce(front, time, s);
      assert rows == front + [r];
      if r.time == time {
        assert forall q <- front :: q.time != time;
      }
    }
  }

  lemma BucketApplied(changes: seq<Change>, pool: string, ts: seq<int>, rows: seq<Sample<int>>, i: nat, s: int)
    requires Increasing(ts) && IsGrouped(changes, pool, ts, rows) && i < |ts| - 1
    ensures AppliedAt(Plus(), rows, ts[i], s) == s + UnitsOf(changes, pool, ts, i)
  {
    AppliedOnce(rows, ts[i], s);
    if r :| r in rows && r.time == ts[i] {
      var j :| 0 <= j < |ts| - 1 && ts[j] == r.time && r.value == UnitsOf(changes, pool, ts, j);
      assert i == j;
    } else {
      NoneIn(changes, pool, Start(ts, i), Start(ts, i + 1));
    }
  }

  predicate FromTheEpoch(changes: seq<Change>) {
    forall c <- changes :: 0 <= c.time
  }

  /** All buckets start from the epoch on, or no change is before it and it is not inside a bucket. */
  predicate Readable(changes: seq<Change>, ts: seq<int>)
    requires 0 < |ts|
  {
    0 <= ts[0] || (FromTheEpoch(changes) && !Straddles(ts))
  }

  /** Bucket by bucket, what is saved is what the direct query gives at the end of the bucket. */
  lemma {:induction false} SavedUnits(changes: seq<Change>, pool: string, ts: seq<int>, rows: seq<Sample<int>>, n: nat)
    requires Increasing(ts) && n < |ts| && Readable(changes, ts) && IsGrouped(changes, pool, ts, rows)
    ensures Saved(Plus(), rows, ts, n, 0, UnitsIn(changes, pool, None, Start(ts, 0)))
            == UnitsIn(changes, pool, None, Start(ts, n))
  {
    if n > 0 {
      SavedUnits(changes, pool, ts, rows, n - 1);
      assert ts[n - 1] < ts[n];
      if ts[n - 1] < 0 {
        assert ts[0] <= ts[n - 1];
        NoUnitsBeforeTheEpoch(changes, pool, ts[n - 1] * NANO);
        NoUnitsBeforeTheEpoch(changes, pool, ts[n] * NANO);
      } else {
        BucketApplied(changes, pool, ts, rows, n - 1, UnitsIn(changes, pool, None, Start(ts, n - 1)));
        UnitsSplit(changes, pool, None, ts[n - 1] * NANO, Start(ts, n));
      }
      hide IsGrouped, AppliedAt, UnitsIn;
    }
  }

  lemma NoUnitsBeforeTheEpoch(changes: seq<Change>, pool: string, until: int)
    requires FromTheEpoch(changes) && until <= 0
    ensures UnitsIn(changes, pool, None, Some(until)) == 0
  {
    NoneIn(changes, pool, None, Some(until));
  }

  method BucketedUnitChanges(changes: seq<Change>, pool: string, ts: seq<int>, rows: seq<Sample<int>>)
    returns (beforeUnit: int, ret: seq<int>)
    requires 2 <= |ts| && Increasing(ts) && IsGrouped(changes, pool, ts, rows)
    ensures beforeUnit == UnitsIn(changes, pool, None, Start(ts, 0)) && |ret| == |ts| - 1
    ensures forall i | 0 <= i < |ret| :: ret[i] == Saved(Plus(), rows, ts, i + 1, 0, beforeUnit)
    ensures Readable(changes, ts) ==>
              forall i | 0 <= i < |ret| :: ret[i] == UnitsIn(changes, pool, None, Start(ts, i + 1))
    ensures ts[0] < 0 ==> ret[0] == beforeUnit
  {
    var lastValueMap := TotalUnitChanges(changes, [pool], Start(ts, 0));
    beforeUnit := Get(lastValueMap, pool);
    TotalIs(changes, [pool], Start(ts, 0), pool);
    ret := QueryBucketedGeneral(ts, rows, 0, Plus(), beforeUnit);
    if ts[0] < 0 {
      SavedEarly(Plus(), rows, ts, 1, 0, beforeUnit);
    }
    if Readable(changes, ts) {
      forall i | 0 <= i < |ret|
        ensures ret[i] == UnitsIn(changes, pool, None, Start(ts, i + 1))
      {
        SavedUnits(changes, pool, ts, rows, i + 1);
      }
    }
  }

  /** The history at each bucket agrees with the direct answer for the end of the bucket. */
  method PoolLiquidityUnitsHistory(stakeEvents: seq<Change>, withdrawEvents: seq<Change>, pool: string, ts: seq<int>,
                                   stakeRows: seq<Sample<int>>, withdrawRows: seq<Sample<int>>)
    returns (beforeUnit: int, ret: seq<int>)
    requires 2 <= |ts| && Increasing(ts)
    requires IsGrouped(stakeEvents, pool, ts, stakeRows) && IsGrouped(withdrawEvents, pool, ts, withdrawRows)
    ensures beforeUnit == Net(stakeEvents, withdrawEvents, pool, Start(ts, 0)) && |ret| == |ts| - 1
    ensures forall i | 0 <= i < |ret| ::
              ret[i] == Saved(Plus(), stakeRows, ts, i + 1, 0, UnitsIn(stakeEvents, pool, None, Start(ts, 0)))
                        - Saved(Plus(), withdrawRows, ts, i + 1, 0, UnitsIn(withdrawEvents, pool, None, Start(ts, 0)))
    ensures Readable(stakeEvents, ts) && Readable(withdrawEvents, ts) ==>
              forall i | 0 <= i < |ret| :: ret[i] == Net(stakeEvents, withdrawEvents, pool, Start(ts, i + 1))
  {
    var beforeUnitStake, stakes := BucketedUnitChanges(stakeEvents, pool, ts, stakeRows);
    var beforeUnitWithdraw, withdraws := BucketedUnitChanges(withdrawEvents, pool, ts, withdrawRows);
    ret := stakes;
    for i := 0 to |ret|
      invariant |ret| == |stakes|
      invariant forall j | 0 <= j < |ret| :: ret[j] == stakes[j] - if j < i then withdraws[j] else 0
    {
      ret := ret[i := ret[i] - withdraws[i]];
    }
    beforeUnit := beforeUnitStake - beforeUnitWithdraw;
  }

  function Net(stakeEvents: seq<Change>, withdrawEvents: seq<Change>, pool: string, until: Option<int>): int {
    UnitsIn(stakeEvents, pool, None, until) - UnitsIn(withdrawEvents, pool, None, until)
  }

  lemma OneChange(c: Change, from: Option<int>, until: Option<int>)
    ensures UnitsIn([c], c.pool, from, until) == if Within(c.time, from, until) then c.units else 0
  {
    assert [c][..0] == [];
  }

  /** A bucket with the epoch inside misses what happens in it. */
  lemma StraddlingBucketMisses(pool: string, ts: seq<int>, i: nat, units: int)
    requires Increasing(ts) && i < |ts| - 1 && ts[i] < 0 < ts[i + 1]
    ensures var changes, rows := [Change(0, pool, units)], [Sample(ts[i], units)];
            && FromTheEpoch(changes) && IsGrouped(changes, pool, ts, rows)
            && Saved(Plus(), rows, ts, i + 1, 0, UnitsIn(changes, pool, None, Start(ts, 0))) == 0
            && UnitsIn(changes, pool, None, Start(ts, i + 1)) == units
  {
    var changes, rows := [Change(0, pool, units)], [Sample(ts[i], units)];
    assert ts[0] <= ts[i];
    OneChange(changes[0], None, Start(ts, 0));
    OneChange(changes[0], None, Start(ts, i + 1));
    forall j | 0 <= j < |ts| - 1
      ensures UnitsOf(changes, pool, ts, j) == if j == i then units else 0
      ensures AnyOf(changes, pool, ts, j) ==> j == i
    {
      assert j > i ==> ts[i + 1] <= ts[j];
      assert j < i ==> ts[j + 1] <= ts[i];
      OneChange(changes[0], Start(ts, j), Start(ts, j + 1));
    }
    assert ts[i] == rows[0].time && rows[0].value == UnitsOf(changes, pool, ts, i) && rows[0] in rows;
    SavedEarly(Plus(), rows, ts, i + 1, 0, UnitsIn(changes, pool, None, Start(ts, 0)));
  }

  /** Without changes before the epoch: every bucket of every history has the units up to its end. */
  ghost predicate AlwaysExact(pool: string, ts: seq<int>)
    requires 0 < |ts|
  {
    forall changes, rows, n: nat | FromTheEpoch(changes) && IsGrouped(changes, pool, ts, rows) && n < |ts| ::
      Saved(Plus(), rows, ts, n, 0, UnitsIn(changes, pool, None, Start(ts, 0)))
      == UnitsIn(changes, pool, None, Start(ts, n))
  }

  /** The units are right for every history exactly when the epoch is not inside a bucket. */
  lemma ExactUnlessStraddling(pool: string, ts: seq<int>)
    requires Increasing(ts) && 2 <= |ts|
    ensures AlwaysExact(pool, ts) <==> !Straddles(ts)
  {
    hide IsGrouped, Saved, UnitsIn;
    if j :| 0 < j < |ts| && ts[j - 1] < 0 < ts[j] {
      StraddlingBucketMisses(pool, ts, j - 1, 1);
    } else {
      forall changes, rows, n: nat | FromTheEpoch(changes) && IsGrouped(changes, pool, ts, rows) && n < |ts|
        ensures Saved(Plus(), rows, ts, n, 0, UnitsIn(changes, pool, None, Start(ts, 0)))
                == UnitsIn(changes, pool, None, Start(ts, n))
      {
        SavedUnits(changes, pool, ts, rows, n);
      }
    }
  }
}

/** Pool depths, from the sparse log of changes. */
module DepthHistory {
  import opened Collections
  import opened Tables
  import opened Bucketing

  datatype PoolDepth = PoolDepth(asset: int, rune: int, synth: int)

  /** A row of the change log, in the order in which the log was written. */
  datatype DepthEntry = DepthEntry(time: int, pool: string, depths: PoolDepth)

  /** What one row of an aggregated view yields. */
  datatype Scanned = Scanned(pool: string, depths: PoolDepth)

  type DepthMap = map<string, PoolDepth>

  const NO_DEPTH := PoolDepth(0, 0, 0)

  /** The depths in the newest row of a pool, among rows of a span of time. */
  function LatestIn(log: seq<DepthEntry>, pool: string, from: Option<int>, until: int): Option<PoolDepth> {
    if log == [] then None
    else
      var e := log[|log| - 1];
      if e.pool == pool && (from.Some? ==> from.value <= e.time) && e.time < until then Some(e.depths)
      else LatestIn(log[..|log| - 1], pool, from, until)
  }

  predicate Ascending(log: seq<DepthEntry>) {
    forall i, j | 0 <= i < j < |log| :: log[i].time <= log[j].time
  }

  predicate Asked(pools: Option<set<string>>, pool: string) {
    pools.Some? ==> pool in pools.value
  }

  function PoolsOf(log: seq<DepthEntry>): set<string> {
    set e <- log :: e.pool
  }

  /** Depths before a time: those of all pools with a row, and none for other pools that were asked for. */
  function DepthsBefore(log: seq<DepthEntry>, pools: Option<set<string>>, time: int): DepthMap {
    map pool | pool in PoolsOf(log) + (if pools.Some? then pools.value else {})
               && Asked(pools, pool) && (pools.Some? || LatestIn(log, pool, None, time).Some?) ::
      if LatestIn(log, pool, None, time).Some? then LatestIn(log, pool, None, time).value else NO_DEPTH
  }

  lemma {:induction false} LatestIsOfTheLog(log: seq<DepthEntry>, pool: string, from: Option<int>, until: int)
    ensures LatestIn(log, pool, from, until).Some? ==> pool in PoolsOf(log)
  {
    if log != [] {
      LatestIsOfTheLog(log[..|log| - 1], pool, from, until);
      assert log == log[..|log| - 1] + [log[|log| - 1]];
    }
  }

  /** In an ascending log, a row in the later part of a span is newer than all in the earlier part. */
  lemma {:induction false} LatestSplits(log: seq<DepthEntry>, pool: string, mid: int, until: int)
    requires Ascending(log) && mid <= until
    ensures LatestIn(log, pool, None, until)
            == if LatestIn(log, pool, Some(mid), until).Some? then LatestIn(log, pool, Some(mid), until)
              else LatestIn(log, pool, None, mid)
  {
    if log != [] {
      var front, e := log[..|log| - 1], log[|log| - 1];
      LatestSplits(front, pool, mid, until);
      if e.time < mid {
        NothingLate(front, pool, mid, until);
      }
    }
  }

  lemma {:induction false} NothingLate(log: seq<DepthEntry>, pool: string, mid: int, until: int)
    requires forall e <- log :: e.time < mid
    ensures LatestIn(log, pool, Some(mid), until).None?
  {
    if log != [] {
      NothingLate(log[..|log| - 1], pool, mid, until);
    }
  }

  function InBucket(log: seq<DepthEntry>, pool: string, ts: seq<int>, i: int): Option<PoolDepth>
    requires 0 <= i < |ts| - 1
  {
    LatestIn(log, pool, Some(ts[i] * NANO), ts[i + 1] * NANO)
  }

  /** The rows of the view for the buckets: the newest depths of each bucket and pool, in order of time. */
  ghost predicate IsView(log: seq<DepthEntry>, pools: Option<set<string>>, ts: seq<int>, rows: seq<Sample<Scanned>>) {
    && Sorted(rows)
    && (forall i, j | 0 <= i < j < |rows| :: rows[i].time != rows[j].time || rows[i].value.pool != rows[j].value.pool)
    && (forall r <- rows :: exists i | 0 <= i < |ts| - 1 ::
          ts[i] == r.time && Asked(pools, r.value.pool) && InBucket(log, r.value.pool, ts, i) == Some(r.value.depths))
    && forall i, pool | 0 <= i < |ts| - 1 && Asked(pools, pool) && InBucket(log, pool, ts, i).Some? ::
         Sample(ts[i], Scanned(pool, InBucket(log, pool, ts, i).value)) in rows
  }

  function PutDepths(): (DepthMap, Scanned) -> DepthMap {
    (m: DepthMap, s: Scanned) => m[s.pool := s.depths]
  }

  /** Applying the rows of one time overwrites exactly the pools that have one. */
  lemma {:induction false} AppliedPools(rows: seq<Sample<Scanned>>, time: int, m: DepthMap, pool: string)
    requires forall i, j | 0 <= i < j < |rows| ::
               rows[i].time != rows[j].time || rows[i].value.pool != rows[j].value.pool
    ensures var m' := AppliedAt(PutDepths(), rows, time, m);
            && (forall r <- rows :: r.time == time && r.value.pool == pool ==> pool in m' && m'[pool] == r.value.depths)
            && ((forall r <- rows :: !(r.time == time && r.value.pool == pool)) ==>
                  (pool in m' <==> pool in m) && (pool in m ==> m'[pool] == m[pool]))
  {
    if rows != [] {
      var front, r := rows[..|rows| - 1], rows[|rows| - 1];
      AppliedPools(front, time, m, pool);
      assert rows == front + [r];
    }
  }

  lemma BucketApplied(log: seq<DepthEntry>, pools: Option<set<string>>, ts: seq<int>, rows: seq<Sample<Scanned>>,
                      i: nat)
    requires Increasing(ts) && Ascending(log) && IsView(log, pools, ts, rows) && i < |ts| - 1
    ensures AppliedAt(PutDepths(), rows, ts[i], DepthsBefore(log, pools, ts[i] * NANO))
            == DepthsBefore(log, pools, ts[i + 1] * NANO)
  {
    var m := DepthsBefore(log, pools, ts[i] * NANO);
    var m' := AppliedAt(PutDepths(), rows, ts[i], m);
    var n := DepthsBefore(log, pools, ts[i + 1] * NANO);
    forall pool: string
      ensures pool in m' <==> pool in n
      ensures pool in m' ==> m'[pool] == n[pool]
    {
      PoolApplied(log, pools, ts, rows, i, pool);
    }
    assert m' == n;
  }

  lemma PoolApplied(log: seq<DepthEntry>, pools: Option<set<string>>, ts: seq<int>, rows: seq<Sample<Scanned>>, i: nat,
                    pool: string)
    requires Increasing(ts) && Ascending(log) && IsView(log, pools, ts, rows) && i < |ts| - 1
    ensures var m' := AppliedAt(PutDepths(), rows, ts[i], DepthsBefore(log, pools, ts[i] * NANO));
            var n := DepthsBefore(log, pools, ts[i + 1] * NANO);
            (pool in m' <==> pool in n) && (pool in m' ==> m'[pool] == n[pool])
  {
    AppliedPools(rows, ts[i], DepthsBefore(log, pools, ts[i] * NANO), pool);
    assert ts[i] < ts[i + 1];
    LatestSplits(log, pool, ts[i] * NANO, ts[i + 1] * NANO);
    LatestIsOfTheLog(log, pool, None, ts[i + 1] * NANO);
    LatestIsOfTheLog(log, pool, None, ts[i] * NANO);
    hide AppliedAt, LatestIn, Sorted, Increasing, Ascending;
    var here := InBucket(log, pool, ts, i);
    if Asked(pools, pool) && here.Some? {
      assert Sample(ts[i], Scanned(pool, here.value)) in rows;
    } else {
      forall r <- rows
        ensures !(r.time == ts[i] && r.value.pool == pool)
      {
        var j :| 0 <= j < |ts| - 1 && ts[j] == r.time && Asked(pools, r.value.pool)
            && InBucket(log, r.value.pool, ts, j) == Some(r.value.depths);
        SameStart(ts, i, j);
      }
    }
  }

  lemma SameStart(ts: seq<int>, i: nat, j: nat)
    requires Increasing(ts) && i < |ts| && j < |ts|
    ensures ts[i] == ts[j] <==> i == j
  {
  }

  predicate FromTheEpoch(log: seq<DepthEntry>) {
    forall e <- log :: 0 <= e.time
  }

  /** The window starts after the epoch, or no row is before the epoch and the window ends there. */
  predicate Readable(log: seq<DepthEntry>, ts: seq<int>)
    requires 0 < |ts|
  {
    0 < ts[0] || (FromTheEpoch(log) && ts[|ts| - 1] <= 0)
  }

  lemma {:induction false} NoneBeforeTheEpoch(log: seq<DepthEntry>, pool: string, until: int)
    requires FromTheEpoch(log) && until <= 0
    ensures LatestIn(log, pool, None, until) == None
  {
    if log != [] {
      assert log[|log| - 1] in log;
      NoneBeforeTheEpoch(log[..|log| - 1], pool, until);
    }
  }

  lemma NoDepthsBeforeTheEpoch(log: seq<DepthEntry>, pools: Option<set<string>>, time: int, until: int)
    requires FromTheEpoch(log) && time <= 0 && until <= 0
    ensures DepthsBefore(log, pools, time) == DepthsBefore(log, pools, until)
  {
    forall pool: string
      ensures LatestIn(log, pool, None, time) == LatestIn(log, pool, None, until) == None
    {
      NoneBeforeTheEpoch(log, pool, time);
      NoneBeforeTheEpoch(log, pool, until);
    }
  }

  lemma {:induction false} SavedDepths(log: seq<DepthEntry>, pools: Option<set<string>>, ts: seq<int>,
                                       rows: seq<Sample<Scanned>>, n: nat, zero: Scanned)
    requires Increasing(ts) && Ascending(log) && IsView(log, pools, ts, rows) && n < |ts| && Readable(log, ts)
    ensures Saved(PutDepths(), rows, ts, n, zero, DepthsBefore(log, pools, ts[0] * NANO))
            == DepthsBefore(log, pools, ts[n] * NANO)
  {
    hide DepthsBefore, IsView, AppliedAt, Ascending, FromTheEpoch;
    if ts[0] <= 0 {
      assert forall i | 0 <= i < n :: ts[i] < ts[n] <= ts[|ts| - 1];
      SavedEarly(PutDepths(), rows, ts, n, zero, DepthsBefore(log, pools, ts[0] * NANO));
      NoDepthsBeforeTheEpoch(log, pools, ts[0] * NANO, ts[n] * NANO);
    } else if n > 0 {
      SavedDepths(log, pools, ts, rows, n - 1, zero);
      BucketApplied(log, pools, ts, rows, n - 1);
      SavedNext(PutDepths(), rows, ts, n - 1, zero, DepthsBefore(log, pools, ts[0] * NANO));
    } else {
      SavedFirst(PutDepths(), rows, ts, zero, DepthsBefore(log, pools, ts[0] * NANO));
    }
  }

  /** Each bucket holds the depths before its end, with an interval and without. */
  method GetDepthsHistory(log: seq<DepthEntry>, pools: Option<set<string>>, ts: seq<int>, oneInterval: bool,
                          rows: seq<Sample<Scanned>>)
    returns (before: DepthMap, saved: seq<DepthMap>)
    requires 2 <= |ts| && Increasing(ts) && Ascending(log) && (oneInterval ==> |ts| == 2)
    requires !oneInterval ==> IsView(log, pools, ts, rows)
    ensures before == DepthsBefore(log, pools, ts[0] * NANO) && |saved| == |ts| - 1
    ensures !oneInterval ==> forall i | 0 <= i < |saved| ::
                saved[i] == Saved(PutDepths(), rows, ts, i + 1, Scanned("", NO_DEPTH), before)
    ensures oneInterval || Readable(log, ts) ==>
              forall i | 0 <= i < |saved| :: saved[i] == DepthsBefore(log, pools, ts[i + 1] * NANO)
  {
    var poolDepths := DepthsBefore(log, pools, ts[0] * NANO);
    before := poolDepths;
    if oneInterval {
      poolDepths := DepthsBefore(log, pools, ts[1] * NANO);
      return before, [poolDepths];
    }
    hide DepthsBefore, Increasing, Ascending, Sorted;
    var next := Scanned("", NO_DEPTH);
    saved := QueryBucketedGeneral(ts, rows, next, PutDepths(), poolDepths);
    if Readable(log, ts) {
      forall i | 0 <= i < |saved|
        ensures saved[i] == DepthsBefore(log, pools, ts[i + 1] * NANO)
      {
        SavedDepths(log, pools, ts, rows, i + 1, next);
      }
    }
  }

  lemma OneEntry(e: DepthEntry, pool: string, from: Option<int>, until: int)
    ensures LatestIn([e], pool, from, until)
            == if e.pool == pool && (from.Some? ==> from.value <= e.time) && e.time < until then Some(e.depths)
               else None
    ensures LatestIn([], pool, from, until) == None
  {
    assert [e][..0] == [];
  }

  /** A bucket that starts at the epoch brings in a pool without a name. */
  lemma ZeroStartAddsAPool(pools: Option<set<string>>, ts: seq<int>, i: nat, s: DepthMap)
    requires Increasing(ts) && i < |ts| - 1 && ts[i] == 0 && (pools.Some? ==> "" !in pools.value)
    ensures IsView([], pools, ts, [])
    ensures Saved(PutDepths(), [], ts, i + 1, Scanned("", NO_DEPTH), s) != DepthsBefore([], pools, ts[i + 1] * NANO)
  {
    SavedNext(PutDepths(), [], ts, i, Scanned("", NO_DEPTH), s);
    assert "" in Saved(PutDepths(), [], ts, i + 1, Scanned("", NO_DEPTH), s);
  }

  /** One with the epoch inside misses what happens in it. */
  lemma StraddlingBucketMisses(pools: Option<set<string>>, ts: seq<int>, i: nat, pool: string)
    requires Increasing(ts) && i < |ts| - 1 && ts[i] < 0 < ts[i + 1] && Asked(pools, pool)
    ensures var depths := PoolDepth(1, 1, 1);
            var log, rows := [DepthEntry(0, pool, depths)], [Sample(ts[i], Scanned(pool, depths))];
            && IsView(log, pools, ts, rows)
            && Saved(PutDepths(), rows, ts, i + 1, Scanned("", NO_DEPTH), DepthsBefore(log, pools, ts[0] * NANO))
               != DepthsBefore(log, pools, ts[i + 1] * NANO)
  {
    var depths := PoolDepth(1, 1, 1);
    var e, r := DepthEntry(0, pool, depths), Sample(ts[i], Scanned(pool, depths));
    assert ts[0] <= ts[i];
    forall j, g | 0 <= j < |ts| - 1
      ensures InBucket([e], g, ts, j) == if j == i && g == pool then Some(depths) else None
    {
      assert j > i ==> ts[i + 1] <= ts[j];
      assert j < i ==> ts[j + 1] <= ts[i];
      OneEntry(e, g, Some(ts[j] * NANO), ts[j + 1] * NANO);
    }
    assert r in [r] && ts[i] == r.time;
    OneEntry(e, pool, None, ts[0] * NANO);
    OneEntry(e, pool, None, ts[i + 1] * NANO);
    assert pool in PoolsOf([e]) by { assert e in [e]; }
    var s := DepthsBefore([e], pools, ts[0] * NANO);
    SavedEarly(PutDepths(), [r], ts, i + 1, Scanned("", NO_DEPTH), s);
    assert pool in DepthsBefore([e], pools, ts[i + 1] * NANO);
    assert DepthsBefore([e], pools, ts[i + 1] * NANO)[pool] == depths;
    assert pool in s ==> s[pool] == NO_DEPTH;
  }

  /** Without rows before the epoch: every bucket of every log holds the depths before its end. */
  ghost predicate AlwaysExact(pools: Option<set<string>>, ts: seq<int>)
    requires 0 < |ts|
  {
    forall log, rows, n: nat | Ascending(log) && FromTheEpoch(log) && IsView(log, pools, ts, rows) && n < |ts| ::
      Saved(PutDepths(), rows, ts, n, Scanned("", NO_DEPTH), DepthsBefore(log, pools, ts[0] * NANO))
      == DepthsBefore(log, pools, ts[n] * NANO)
  }

  /** The history is right for every log exactly when the epoch is before the window, or not before its end. */
  lemma ExactUnlessTheEpochIsInside(pools: Option<set<string>>, ts: seq<int>, pool: string)
    requires Increasing(ts) && 2 <= |ts| && Asked(pools, pool) && (pools.Some? ==> "" !in pools.value)
    ensures AlwaysExact(pools, ts) <==> 0 < ts[0] || ts[|ts| - 1] <= 0
  {
    hide IsView, DepthsBefore, Saved;
    if ts[0] <= 0 < ts[|ts| - 1] {
      var i := EpochBucket(ts);
      if ts[i] == 0 {
        ZeroStartAddsAPool(pools, ts, i, DepthsBefore([], pools, ts[0] * NANO));
        assert Ascending([]) && FromTheEpoch([]);
      } else {
        StraddlingBucketMisses(pools, ts, i, pool);
        var log := [DepthEntry(0, pool, PoolDepth(1, 1, 1))];
        assert Ascending(log) && FromTheEpoch(log);
      }
    } else {
      forall log, rows, n: nat | Ascending(log) && FromTheEpoch(log) && IsView(log, pools, ts, rows) && n < |ts|
        ensures Saved(PutDepths(), rows, ts, n, Scanned("", NO_DEPTH), DepthsBefore(log, pools, ts[0] * NANO))
                == DepthsBefore(log, pools, ts[n] * NANO)
      {
        SavedDepths(log, pools, ts, rows, n, Scanned("", NO_DEPTH));
      }
    }
  }
}
