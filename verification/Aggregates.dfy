// Aggregates over arbitrary intervals and over long periods, computed from daily aggregates.
// Source: internal/db/aggregates.go

module Aggregates {
  import opened GoInt
  import opened Tables

  /** A raw row: its block's timestamp, its group, a column that is summed and one whose last value counts. */
  datatype RawRow = RawRow(time: int, group: string, amount: int, value: int)

  /** One group's row in an aggregate, with the timestamp by which later aggregates order it. */
  datatype Cell = Cell(stamp: int, sum: int, last: int)

  type Answer = map<string, Cell>

  const DAY: pos := 86_400_000_000_000

  function TimeBucketCeil(time: int, period: pos): int {
    Quo(time + period - 1, period) * period
  }

  function TimeBucketFloor(time: int, period: pos): int {
    Quo(time, period) * period
  }

  /** The bucket of the database's own `time_bucket`, which rounds down for negative times as well. */
  function DayOf(time: int): int {
    time / DAY * DAY
  }

  // ---- What a query means ----

  predicate Present(rows: seq<RawRow>, sel: int -> bool, g: string) {
    exists r <- rows :: r.group == g && sel(r.time)
  }

  function Sum(rows: seq<RawRow>, sel: int -> bool, g: string): int {
    if rows == [] then 0
    else
      var r := rows[|rows| - 1];
      Sum(rows[..|rows| - 1], sel, g) + if r.group == g && sel(r.time) then r.amount else 0
  }

  /** A value of the group's newest selected row; rows of one block are equally new. */
  ghost predicate LegalLast(rows: seq<RawRow>, sel: int -> bool, g: string, v: int) {
    exists r <- rows ::
      && r.group == g && sel(r.time) && r.value == v
      && forall s <- rows :: s.group == g && sel(s.time) ==> s.time <= r.time
  }

  /** `out` aggregates the selected rows directly: one row for each group that occurs. */
  ghost predicate Direct(rows: seq<RawRow>, sel: int -> bool, out: Answer) {
    forall g: string ::
      && (g in out <==> Present(rows, sel, g))
      && (g in out ==> out[g].sum == Sum(rows, sel, g) && LegalLast(rows, sel, g, out[g].last))
  }

  lemma {:induction false} LastExists(rows: seq<RawRow>, sel: int -> bool, g: string) returns (v: int)
    requires Present(rows, sel, g)
    ensures LegalLast(rows, sel, g, v)
  {
    var front, r := rows[..|rows| - 1], rows[|rows| - 1];
    assert rows == front + [r];
    v := r.value;
    if Present(front, sel, g) {
      var before := LastExists(front, sel, g);
      var w :| w in front && w.group == g && sel(w.time) && w.value == before
               && forall s <- front :: s.group == g && sel(s.time) ==> s.time <= w.time;
      assert w in rows;
      if !(r.group == g && sel(r.time) && w.time <= r.time) {
        v := before;
      }
    }
    assert r in rows;
  }

  ghost function SomeLast(rows: seq<RawRow>, sel: int -> bool, g: string): (v: int)
    requires Present(rows, sel, g)
    ensures LegalLast(rows, sel, g, v)
  {
    assert exists v :: LegalLast(rows, sel, g, v) by { var v := LastExists(rows, sel, g); }
    var v :| LegalLast(rows, sel, g, v);
    v
  }

  /** Such an answer always exists. */
  lemma DirectExists(rows: seq<RawRow>, sel: int -> bool) returns (out: Answer)
    ensures Direct(rows, sel, out)
  {
    var groups := set r <- rows :: r.group;
    out := map g | g in groups && Present(rows, sel, g) :: Cell(0, Sum(rows, sel, g), SomeLast(rows, sel, g));
    hide Sum, LegalLast;
    assert forall g: string :: Present(rows, sel, g) ==> g in groups;
  }

  /** The contract of the daily view: one row per day, aggregating the rows of that day. */
  ghost predicate DayView(rows: seq<RawRow>, view: map<int, Answer>) {
    && (forall d <- view :: DayOf(d) == d)
    && (forall r <- rows :: DayOf(r.time) in view)
    && forall d <- view :: Direct(rows, (t: int) => DayOf(t) == d, view[d])
  }

  function DaySum(view: map<int, Answer>, days: seq<int>, g: string): int {
    if days == [] then 0
    else
      var d := days[|days| - 1];
      DaySum(view, days[..|days| - 1], g) + if d in view && g in view[d] then view[d][g].sum else 0
  }

  ghost predicate Lists(days: seq<int>, view: map<int, Answer>, keep: int -> bool) {
    && (forall i, j | 0 <= i < j < |days| :: days[i] != days[j])
    && (forall d <- days :: d in view && keep(d))
    && (forall d <- view :: keep(d) ==> d in days)
  }

  /** `out` aggregates the rows of the daily view for the days that `keep` selects, listed by `days`. */
  ghost predicate OverDays(view: map<int, Answer>, days: seq<int>, out: Answer) {
    forall g: string ::
      && (g in out <==> exists d <- days :: d in view && g in view[d])
      && (g in out ==>
            && out[g].sum == DaySum(view, days, g)
            && exists d <- days ::
                 && d in view && g in view[d] && out[g].last == view[d][g].last
                 && forall e <- days :: e in view && g in view[e] ==> e <= d)
  }

  // ---- Days instead of rows ----

  lemma {:induction false} SumSplit(rows: seq<RawRow>, a: int -> bool, b: int -> bool, c: int -> bool, g: string)
    requires forall t :: c(t) <==> a(t) || b(t)
    requires forall t :: !(a(t) && b(t))
    ensures Sum(rows, c, g) == Sum(rows, a, g) + Sum(rows, b, g)
  {
    if rows != [] {
      SumSplit(rows[..|rows| - 1], a, b, c, g);
    }
  }

  lemma {:induction false} SumNone(rows: seq<RawRow>, a: int -> bool, g: string)
    requires !Present(rows, a, g)
    ensures Sum(rows, a, g) == 0
  {
    if rows != [] {
      assert rows[|rows| - 1] in rows;
      SumNone(rows[..|rows| - 1], a, g);
    }
  }

  function OnDays(days: seq<int>): int -> bool {
    (t: int) => DayOf(t) in days
  }

  lemma {:induction false} DaySumIsDirect(rows: seq<RawRow>, view: map<int, Answer>, days: seq<int>, g: string)
    requires DayView(rows, view)
    requires forall i, j | 0 <= i < j < |days| :: days[i] != days[j]
    requires forall d <- days :: d in view
    ensures DaySum(view, days, g) == Sum(rows, OnDays(days), g)
  {
    hide DayOf, LegalLast;
    if days == [] {
      SumNone(rows, OnDays(days), g);
    } else {
      var front, d := days[..|days| - 1], days[|days| - 1];
      DaySumIsDirect(rows, view, front, g);
      var today := (t: int) => DayOf(t) == d;
      assert days == front + [d];
      SumSplit(rows, OnDays(front), today, OnDays(days), g);
      assert Direct(rows, today, view[d]);
      if g !in view[d] {
        SumNone(rows, today, g);
      }
    }
  }

  /** Whatever set of days a query takes from the daily view, it answers as the rows of those days would. */
  lemma DaysAreDirect(rows: seq<RawRow>, view: map<int, Answer>, days: seq<int>, keep: int -> bool, sel: int -> bool,
                      out: Answer)
    requires DayView(rows, view) && Lists(days, view, keep) && OverDays(view, days, out)
    requires forall t :: sel(t) <==> keep(DayOf(t))
    ensures Direct(rows, sel, out)
  {
    hide Sum, DaySum, DayOf;
    forall g: string
      ensures g in out <==> Present(rows, sel, g)
      ensures g in out ==> out[g].sum == Sum(rows, sel, g) && LegalLast(rows, sel, g, out[g].last)
    {
      DayPresent(rows, view, days, keep, sel, g);
      if g in out {
        DaySumIsDirect(rows, view, days, g);
        SameSelection(rows, OnDays(days), sel, g);
        DayLast(rows, view, days, keep, sel, out, g);
      }
    }
  }

  lemma {:induction false} SameSelection(rows: seq<RawRow>, a: int -> bool, b: int -> bool, g: string)
    requires forall r <- rows :: a(r.time) == b(r.time)
    ensures Sum(rows, a, g) == Sum(rows, b, g)
  {
    if rows != [] {
      assert rows[|rows| - 1] in rows;
      SameSelection(rows[..|rows| - 1], a, b, g);
    }
  }

  lemma DayPresent(rows: seq<RawRow>, view: map<int, Answer>, days: seq<int>, keep: int -> bool, sel: int -> bool,
                   g: string)
    requires DayView(rows, view) && Lists(days, view, keep)
    requires forall t :: sel(t) <==> keep(DayOf(t))
    ensures (exists d <- days :: d in view && g in view[d]) <==> Present(rows, sel, g)
    ensures forall r <- rows :: sel(r.time) == OnDays(days)(r.time)
  {
    hide Sum, DayOf, LegalLast;
    if Present(rows, sel, g) {
      var r :| r in rows && r.group == g && sel(r.time);
      var d := DayOf(r.time);
      assert Direct(rows, (t: int) => DayOf(t) == d, view[d]);
      assert d in days && g in view[d];
    }
    if d :| d in days && d in view && g in view[d] {
      assert Direct(rows, (t: int) => DayOf(t) == d, view[d]);
      var r :| r in rows && r.group == g && DayOf(r.time) == d;
      assert sel(r.time);
    }
  }

  /** The newest row of a group on a day that has it. */
  lemma NewestOfDay(rows: seq<RawRow>, view: map<int, Answer>, d: int, g: string) returns (r: RawRow)
    requires DayView(rows, view) && d in view && g in view[d]
    ensures r in rows && r.group == g && DayOf(r.time) == d && r.value == view[d][g].last
    ensures forall s <- rows :: s.group == g && DayOf(s.time) == d ==> s.time <= r.time
  {
    hide Sum, DayOf;
    var today := (t: int) => DayOf(t) == d;
    assert Direct(rows, today, view[d]);
    r :| r in rows && r.group == g && today(r.time) && r.value == view[d][g].last
         && forall s <- rows :: s.group == g && today(s.time) ==> s.time <= r.time;
  }

  lemma DayHasRow(rows: seq<RawRow>, view: map<int, Answer>, s: RawRow)
    requires DayView(rows, view) && s in rows
    ensures DayOf(s.time) in view && s.group in view[DayOf(s.time)]
  {
    hide Sum, DayOf, LegalLast;
    var d := DayOf(s.time);
    var today := (t: int) => DayOf(t) == d;
    assert Direct(rows, today, view[d]) && Present(rows, today, s.group);
  }

  lemma DayLast(rows: seq<RawRow>, view: map<int, Answer>, days: seq<int>, keep: int -> bool, sel: int -> bool,
                out: Answer, g: string)
    requires DayView(rows, view) && Lists(days, view, keep) && OverDays(view, days, out) && g in out
    requires forall t :: sel(t) <==> keep(DayOf(t))
    ensures LegalLast(rows, sel, g, out[g].last)
  {
    hide Sum, DaySum, DayOf, DayView;
    var d :| d in days && d in view && g in view[d] && out[g].last == view[d][g].last
             && forall e <- days :: e in view && g in view[e] ==> e <= d;
    var r := NewestOfDay(rows, view, d, g);
    forall s <- rows | s.group == g && sel(s.time)
      ensures s.time <= r.time
    {
      DayHasRow(rows, view, s);
      LaterDay(s.time, r.time);
    }
  }

  lemma LaterDay(t: int, u: int)
    ensures DayOf(t) < DayOf(u) ==> t < u
    ensures DayOf(t) <= t < DayOf(u) + DAY || DayOf(u) < DayOf(t)
  {
  }

  /**
   * A view of a longer period groups the days of the daily view by the period they are in. It has a row
   * exactly for each period and group with a raw row, and that row aggregates the raw rows directly.
   */
  lemma HigherViewIsDirect(rows: seq<RawRow>, view: map<int, Answer>, trunc: int -> int, period: int, days: seq<int>,
                           out: Answer)
    requires forall t :: trunc(t) == trunc(DayOf(t))
    requires DayView(rows, view)
    requires Lists(days, view, (d: int) => trunc(d) == period) && OverDays(view, days, out)
    ensures Direct(rows, (t: int) => trunc(t) == period, out)
  {
    hide DayOf, DayView, Lists, OverDays, Direct;
    DaysAreDirect(rows, view, days, (d: int) => trunc(d) == period, (t: int) => trunc(t) == period, out);
  }

  // ---- Three parts instead of one ----

  /** A part of a union: raw rows between two times, or rows of the daily view. */
  datatype Part = Raw(low: int, high: int) | Days(from: Option<int>, high: int)

  predicate InPart(p: Part, t: int) {
    match p
    case Raw(low, high) => low <= t < high
    case Days(from, high) => (from.Some? ==> from.value <= DayOf(t)) && DayOf(t) < high
  }

  function In(p: Part): int -> bool {
    (t: int) => InPart(p, t)
  }

  function UnionParts(timeLow: int, timeHigh: int): seq<Part> {
    var ceil, floor := TimeBucketCeil(timeLow, DAY), TimeBucketFloor(timeHigh, DAY);
    (if 0 < timeLow && ceil != timeLow then [Raw(timeLow, ceil)] else [])
    + (if timeHigh != floor then [Raw(floor, timeHigh)] else [])
    + [Days(if 0 < timeLow then Some(ceil) else None, floor)]
  }

  method UnionQuery(timeLow: int, timeHigh: int) returns (parts: seq<Part>)
    ensures parts == UnionParts(timeLow, timeHigh)
    ensures Tiles(parts, timeLow, timeHigh) <==> Exact(timeLow, timeHigh)
  {
    parts := [];
    var timeLowCeil := 0;
    if timeLow > 0 {
      timeLowCeil := TimeBucketCeil(timeLow, DAY);
      if timeLowCeil != timeLow {
        parts := parts + [Raw(timeLow, timeLowCeil)];
      }
    }
    var timeHighFloor := TimeBucketFloor(timeHigh, DAY);
    if timeHigh != timeHighFloor {
      parts := parts + [Raw(timeHighFloor, timeHigh)];
    }
    var from := None;
    if timeLow > 0 {
      from := Some(timeLowCeil);
    }
    parts := parts + [Days(from, timeHighFloor)];
    UnionTiles(timeLow, timeHigh);
    hide Tiles, Exact;
  }

  /** The interval that is asked for; a lower bound that is not positive is omitted. */
  function Window(timeLow: int, timeHigh: int): int -> bool {
    (t: int) => (0 < timeLow ==> timeLow <= t) && t < timeHigh
  }

  /** A day boundary lies inside the window, or the window is made of whole days; see `UnionTiles`. */
  predicate Exact(timeLow: int, timeHigh: int) {
    var ceil, floor := TimeBucketCeil(timeLow, DAY), TimeBucketFloor(timeHigh, DAY);
    if 0 < timeLow then ceil <= floor || (timeLow == ceil && timeHigh <= floor) else floor <= timeHigh
  }

  predicate Before(p: Part, q: Part) {
    match q
    case Raw(low, _) => p.high <= low
    case Days(from, _) => from.Some? && p.high <= from.value
  }

  ghost predicate Apart(parts: seq<Part>) {
    forall i, j | 0 <= i < j < |parts| :: Before(parts[i], parts[j]) || Before(parts[j], parts[i])
  }

  /** The daily part begins and ends on day boundaries. */
  predicate Aligned(p: Part) {
    p.Days? ==> DayOf(p.high) == p.high && (p.from.Some? ==> DayOf(p.from.value) == p.from.value)
  }

  ghost function Covered(parts: seq<Part>): int -> bool {
    (t: int) => exists p <- parts :: InPart(p, t)
  }

  /** The parts do not overlap and make up exactly the window. */
  ghost predicate Tiles(parts: seq<Part>, timeLow: int, timeHigh: int) {
    && Apart(parts)
    && forall t :: Covered(parts)(t) <==> Window(timeLow, timeHigh)(t)
  }

  lemma BucketBounds(time: int)
    ensures var ceil := TimeBucketCeil(time, DAY);
            DayOf(ceil) == ceil && (0 < time ==> time <= ceil < time + DAY && DAY <= ceil)
    ensures var floor := TimeBucketFloor(time, DAY);
            DayOf(floor) == floor && (if 0 <= time then 0 <= floor <= time < floor + DAY else time <= floor <= 0)
  {
    assert forall k :: k * DAY / DAY == k;
  }

  /** A time that a union takes into account although it is outside the window, when there is one. */
  function Stray(timeLow: int, timeHigh: int): int {
    var ceil, floor := TimeBucketCeil(timeLow, DAY), TimeBucketFloor(timeHigh, DAY);
    if timeLow <= 0 then timeHigh else if ceil != timeLow then ceil - 1 else floor
  }

  lemma DaysInOrder(t: int, b: int)
    requires DayOf(b) == b
    ensures DayOf(t) < b <==> t < b
    ensures b <= DayOf(t) <==> b <= t
    ensures DayOf(t) <= t
  {
  }

  lemma StrayIsOutside(timeLow: int, timeHigh: int)
    requires !Exact(timeLow, timeHigh)
    ensures Covered(UnionParts(timeLow, timeHigh))(Stray(timeLow, timeHigh))
    ensures !Window(timeLow, timeHigh)(Stray(timeLow, timeHigh))
  {
    var ceil, floor := TimeBucketCeil(timeLow, DAY), TimeBucketFloor(timeHigh, DAY);
    BucketBounds(timeLow);
    BucketBounds(timeHigh);
    DaysInOrder(timeHigh, floor);
    var parts := UnionParts(timeLow, timeHigh);
    hide TimeBucketCeil, TimeBucketFloor, DayOf;
    var t := Stray(timeLow, timeHigh);
    if timeLow <= 0 {
      assert parts[|parts| - 1] == Days(None, floor) && InPart(parts[|parts| - 1], t);
    } else if ceil != timeLow {
      assert InPart(parts[0], t);
      WholeDaysApart(floor, ceil);
    } else {
      assert parts[0] == Raw(floor, timeHigh) && InPart(parts[0], t);
    }
  }

  lemma WholeDaysApart(a: int, b: int)
    requires DayOf(a) == a && DayOf(b) == b && a < b
    ensures a + DAY <= b
  {
  }

  lemma ExactTiles(timeLow: int, timeHigh: int)
    requires Exact(timeLow, timeHigh)
    ensures Tiles(UnionParts(timeLow, timeHigh), timeLow, timeHigh)
  {
    var ceil, floor := TimeBucketCeil(timeLow, DAY), TimeBucketFloor(timeHigh, DAY);
    var parts := UnionParts(timeLow, timeHigh);
    BucketBounds(timeLow);
    BucketBounds(timeHigh);
    var days := Days(if 0 < timeLow then Some(ceil) else None, floor);
    assert days == parts[|parts| - 1] && days in parts;
    assert 0 < timeLow && ceil != timeLow ==> Raw(timeLow, ceil) in parts;
    assert timeHigh != floor ==> Raw(floor, timeHigh) in parts;
    forall t
      ensures Covered(parts)(t) <==> Window(timeLow, timeHigh)(t)
    {
      DaysInOrder(t, floor);
      DaysInOrder(t, ceil);
      hide TimeBucketCeil, TimeBucketFloor, DayOf;
      assert InPart(days, t) <==> (0 < timeLow ==> ceil <= t) && t < floor;
    }
    hide TimeBucketCeil, TimeBucketFloor, DayOf;
  }

  lemma UnionTiles(timeLow: int, timeHigh: int)
    ensures Tiles(UnionParts(timeLow, timeHigh), timeLow, timeHigh) <==> Exact(timeLow, timeHigh)
    ensures forall p <- UnionParts(timeLow, timeHigh) :: Aligned(p)
  {
    BucketBounds(timeLow);
    BucketBounds(timeHigh);
    hide TimeBucketCeil, TimeBucketFloor, DayOf;
    if Exact(timeLow, timeHigh) {
      ExactTiles(timeLow, timeHigh);
    } else {
      StrayIsOutside(timeLow, timeHigh);
    }
  }

  // ---- Evaluating a union ----

  /** The timestamp of a group in a raw part is the smallest one of its rows. */
  ghost predicate RawStamps(rows: seq<RawRow>, sel: int -> bool, out: Answer) {
    forall g <- out :: exists r <- rows ::
      && r.group == g && sel(r.time) && r.time == out[g].stamp
      && forall s <- rows :: s.group == g && sel(s.time) ==> r.time <= s.time
  }

  /** In the daily part it is the first of its days. */
  ghost predicate DayStamps(view: map<int, Answer>, days: seq<int>, out: Answer) {
    forall g <- out :: exists d <- days ::
      && d in view && g in view[d] && d == out[g].stamp
      && forall e <- days :: e in view && g in view[e] ==> d <= e
  }

  function KeepDays(p: Part): int -> bool
    requires p.Days?
  {
    (d: int) => (p.from.Some? ==> p.from.value <= d) && d < p.high
  }

  /** `out` is what one part of the union may yield. */
  ghost predicate PartAnswer(rows: seq<RawRow>, view: map<int, Answer>, p: Part, out: Answer) {
    match p
    case Raw(_, _) => Direct(rows, In(p), out) && RawStamps(rows, In(p), out)
    case Days(_, _) =>
      exists days :: Lists(days, view, KeepDays(p)) && OverDays(view, days, out) && DayStamps(view, days, out)
  }

  function SumOuts(outs: seq<Answer>, g: string): int {
    if outs == [] then 0
    else
      var out := outs[|outs| - 1];
      SumOuts(outs[..|outs| - 1], g) + if g in out then out[g].sum else 0
  }

  /** `i` is a newest answer with group `g`. */
  predicate Newest(outs: seq<Answer>, g: string, i: int) {
    && 0 <= i < |outs| && g in outs[i]
    && forall j | 0 <= j < |outs| && g in outs[j] :: outs[j][g].stamp <= outs[i][g].stamp
  }

  /** The outer query, which aggregates the rows of all parts. */
  ghost predicate Combined(outs: seq<Answer>, res: Answer) {
    forall g: string ::
      && (g in res <==> exists out <- outs :: g in out)
      && (g in res ==>
            && res[g].sum == SumOuts(outs, g)
            && exists i | 0 <= i < |outs| :: Newest(outs, g, i) && res[g].last == outs[i][g].last)
  }

  ghost predicate Answers(rows: seq<RawRow>, view: map<int, Answer>, parts: seq<Part>, outs: seq<Answer>) {
    && |outs| == |parts|
    && forall i | 0 <= i < |parts| :: PartAnswer(rows, view, parts[i], outs[i])
  }

  predicate InSpan(p: Part, t: int) {
    (p.Raw? ==> p.low <= t) && (p.Days? && p.from.Some? ==> p.from.value <= t) && t < p.high
  }

  /** Each part answers for its own rows, under a timestamp in its own span. */
  ghost predicate PartDirect(rows: seq<RawRow>, p: Part, out: Answer) {
    && Direct(rows, In(p), out)
    && (forall g <- out :: InSpan(p, out[g].stamp))
    && forall t | InPart(p, t) :: InSpan(p, t)
  }

  lemma DaysPartSpans(view: map<int, Answer>, p: Part, days: seq<int>, out: Answer)
    requires p.Days? && Aligned(p)
    requires Lists(days, view, KeepDays(p)) && DayStamps(view, days, out)
    ensures forall g <- out :: InSpan(p, out[g].stamp)
    ensures forall t | InPart(p, t) :: InSpan(p, t)
  {
    forall t | InPart(p, t) ensures InSpan(p, t) {
      DaysInOrder(t, p.high);
      if p.from.Some? { DaysInOrder(t, p.from.value); }
    }
    hide DayOf;
    forall g <- out ensures InSpan(p, out[g].stamp) {
      var d :| d in days && d in view && g in view[d] && d == out[g].stamp;
      assert KeepDays(p)(d);
    }
  }

  lemma PartIsDirect(rows: seq<RawRow>, view: map<int, Answer>, p: Part, out: Answer)
    requires DayView(rows, view) && PartAnswer(rows, view, p, out) && Aligned(p)
    ensures PartDirect(rows, p, out)
  {
    hide Direct, DayOf, OverDays, DayView, Lists, DayStamps;
    if p.Days? {
      var days :| Lists(days, view, KeepDays(p)) && OverDays(view, days, out) && DayStamps(view, days, out);
      DaysPartSpans(view, p, days, out);
      DaysAreDirect(rows, view, days, KeepDays(p), In(p), out);
    }
  }

  ghost predicate PartsDirect(rows: seq<RawRow>, parts: seq<Part>, outs: seq<Answer>) {
    && |outs| == |parts|
    && forall i | 0 <= i < |parts| :: PartDirect(rows, parts[i], outs[i])
  }

  lemma {:induction false} CombinedSum(rows: seq<RawRow>, parts: seq<Part>, outs: seq<Answer>, g: string)
    requires PartsDirect(rows, parts, outs) && Apart(parts)
    ensures SumOuts(outs, g) == Sum(rows, Covered(parts), g)
  {
    hide InPart, InSpan, LegalLast;
    if parts == [] {
      SumNone(rows, Covered(parts), g);
    } else {
      var n := |parts| - 1;
      CombinedSum(rows, parts[..n], outs[..n], g);
      assert parts == parts[..n] + [parts[n]];
      forall t
        ensures !(Covered(parts[..n])(t) && In(parts[n])(t))
      {
        if p :| p in parts[..n] && InPart(p, t) {
          var i :| 0 <= i < n && parts[i] == p;
          Disjoint(rows, parts, outs, i, n, t);
        }
      }
      SumSplit(rows, Covered(parts[..n]), In(parts[n]), Covered(parts), g);
      assert Direct(rows, In(parts[n]), outs[n]);
      if g !in outs[n] {
        SumNone(rows, In(parts[n]), g);
      }
    }
  }

  lemma Disjoint(rows: seq<RawRow>, parts: seq<Part>, outs: seq<Answer>, i: nat, j: nat, t: int)
    requires PartsDirect(rows, parts, outs) && Apart(parts) && i < j < |parts|
    ensures !(InPart(parts[i], t) && InPart(parts[j], t))
  {
    hide InPart, Direct;
    assert PartDirect(rows, parts[i], outs[i]) && PartDirect(rows, parts[j], outs[j]);
  }

  lemma CombinedPresent(rows: seq<RawRow>, parts: seq<Part>, outs: seq<Answer>, g: string)
    requires PartsDirect(rows, parts, outs)
    ensures (exists out <- outs :: g in out) <==> Present(rows, Covered(parts), g)
  {
    hide InPart, InSpan, LegalLast, Sum;
    if out :| out in outs && g in out {
      var i :| 0 <= i < |outs| && outs[i] == out;
      assert Direct(rows, In(parts[i]), outs[i]);
      var r :| r in rows && r.group == g && In(parts[i])(r.time);
      assert parts[i] in parts && Covered(parts)(r.time);
    }
    if Present(rows, Covered(parts), g) {
      var r :| r in rows && r.group == g && Covered(parts)(r.time);
      var p :| p in parts && InPart(p, r.time);
      var i :| 0 <= i < |parts| && parts[i] == p;
      assert Direct(rows, In(parts[i]), outs[i]);
      assert g in outs[i] && outs[i] in outs;
    }
  }

  lemma LastOf(rows: seq<RawRow>, p: Part, out: Answer, g: string)
    requires PartDirect(rows, p, out) && g in out
    ensures LegalLast(rows, In(p), g, out[g].last) && InSpan(p, out[g].stamp)
  {
  }

  lemma InOut(rows: seq<RawRow>, p: Part, out: Answer, s: RawRow)
    requires PartDirect(rows, p, out) && s in rows && InPart(p, s.time)
    ensures s.group in out && InSpan(p, s.time) && InSpan(p, out[s.group].stamp)
  {
    assert Present(rows, In(p), s.group);
  }

  lemma InOrder(parts: seq<Part>, i: int, j: int)
    requires Apart(parts) && 0 <= i < |parts| && 0 <= j < |parts|
    ensures i == j || Before(parts[i], parts[j]) || Before(parts[j], parts[i])
  {
  }

  lemma CombinedLast(rows: seq<RawRow>, parts: seq<Part>, outs: seq<Answer>, g: string, i: int)
    requires PartsDirect(rows, parts, outs) && Apart(parts) && Newest(outs, g, i)
    ensures LegalLast(rows, Covered(parts), g, outs[i][g].last)
  {
    hide InPart, PartDirect;
    LastOf(rows, parts[i], outs[i], g);
    var r :| r in rows && r.group == g && In(parts[i])(r.time) && r.value == outs[i][g].last
             && forall s <- rows :: s.group == g && In(parts[i])(s.time) ==> s.time <= r.time;
    InOut(rows, parts[i], outs[i], r);
    assert parts[i] in parts && Covered(parts)(r.time);
    forall s <- rows | s.group == g && Covered(parts)(s.time)
      ensures s.time <= r.time
    {
      var p :| p in parts && InPart(p, s.time);
      var j :| 0 <= j < |parts| && parts[j] == p;
      InOut(rows, parts[j], outs[j], s);
      InOrder(parts, i, j);
    }
  }

  /** Parts that do not overlap answer together as their rows do. */
  lemma CombinedIsDirect(rows: seq<RawRow>, parts: seq<Part>, outs: seq<Answer>, res: Answer)
    requires PartsDirect(rows, parts, outs) && Apart(parts) && Combined(outs, res)
    ensures Direct(rows, Covered(parts), res)
  {
    hide PartsDirect, Apart, Covered, Sum, SumOuts, LegalLast, Present;
    forall g: string
      ensures g in res <==> Present(rows, Covered(parts), g)
      ensures g in res ==> res[g].sum == Sum(rows, Covered(parts), g) && LegalLast(rows, Covered(parts), g, res[g].last)
    {
      CombinedPresent(rows, parts, outs, g);
      CombinedSum(rows, parts, outs, g);
      if g in res {
        var i :| 0 <= i < |outs| && Newest(outs, g, i) && res[g].last == outs[i][g].last;
        CombinedLast(rows, parts, outs, g, i);
      }
    }
  }

  lemma AllPartsDirect(rows: seq<RawRow>, view: map<int, Answer>, timeLow: int, timeHigh: int, outs: seq<Answer>)
    requires DayView(rows, view) && Answers(rows, view, UnionParts(timeLow, timeHigh), outs)
    ensures PartsDirect(rows, UnionParts(timeLow, timeHigh), outs)
  {
    var parts := UnionParts(timeLow, timeHigh);
    UnionTiles(timeLow, timeHigh);
    hide UnionParts, DayView, PartAnswer, PartDirect, Aligned;
    forall i | 0 <= i < |parts|
      ensures PartDirect(rows, parts[i], outs[i])
    {
      PartIsDirect(rows, view, parts[i], outs[i]);
    }
  }

  lemma DirectOn(rows: seq<RawRow>, a: int -> bool, b: int -> bool, out: Answer)
    requires Direct(rows, a, out) && forall t :: a(t) <==> b(t)
    ensures Direct(rows, b, out)
  {
    forall g: string
      ensures Sum(rows, a, g) == Sum(rows, b, g) && (Present(rows, a, g) <==> Present(rows, b, g))
    {
      SameSelection(rows, a, b, g);
    }
    hide Sum;
  }

  /**
   * For every table and every window with a day boundary inside, or made of whole days, head, tail and
   * whole days together give each group the same sum and the same last value as the raw rows do.
   */
  lemma UnionIsDirect(rows: seq<RawRow>, view: map<int, Answer>, timeLow: int, timeHigh: int, outs: seq<Answer>,
                      res: Answer)
    requires DayView(rows, view)
    requires Answers(rows, view, UnionParts(timeLow, timeHigh), outs) && Combined(outs, res)
    requires Exact(timeLow, timeHigh)
    ensures Direct(rows, Window(timeLow, timeHigh), res)
  {
    hide UnionParts, DayView, Answers, Combined, Direct, Exact, PartsDirect;
    UnionTiles(timeLow, timeHigh);
    AllPartsDirect(rows, view, timeLow, timeHigh, outs);
    CombinedIsDirect(rows, UnionParts(timeLow, timeHigh), outs, res);
    DirectOn(rows, Covered(UnionParts(timeLow, timeHigh)), Window(timeLow, timeHigh), res);
  }

  /** Every other window has a row that the union counts although it is outside. */
  lemma UnionInsideOneDay(view: map<int, Answer>, timeLow: int, timeHigh: int, r: RawRow, outs: seq<Answer>,
                          res: Answer)
    requires !Exact(timeLow, timeHigh) && r.time == Stray(timeLow, timeHigh)
    requires DayView([r], view)
    requires Answers([r], view, UnionParts(timeLow, timeHigh), outs) && Combined(outs, res)
    ensures r.group in res && !Direct([r], Window(timeLow, timeHigh), res)
  {
    hide UnionParts, DayView, Answers, Exact, PartsDirect, Covered, Stray, Window;
    StrayIsOutside(timeLow, timeHigh);
    AllPartsDirect([r], view, timeLow, timeHigh, outs);
    CombinedPresent([r], UnionParts(timeLow, timeHigh), outs, r.group);
    assert r in [r];
  }

  // ---- A union always has an answer ----

  /** The first of the indexes with the greatest score, among those that have one. */
  lemma {:induction false} Best(n: nat, score: int -> Option<int>) returns (i: nat)
    requires exists k :: 0 <= k < n && score(k).Some?
    ensures i < n && score(i).Some?
    ensures forall k :: 0 <= k < n && score(k).Some? ==> score(k).value <= score(i).value
  {
    i := n - 1;
    if exists k :: 0 <= k < n - 1 && score(k).Some? {
      var before := Best(n - 1, score);
      if score(i).None? || score(i).value <= score(before).value {
        i := before;
      }
    }
  }

  lemma DayViewExists(rows: seq<RawRow>) returns (view: map<int, Answer>)
    ensures DayView(rows, view)
  {
    var days := set r <- rows :: DayOf(r.time);
    view := map d | d in days :: SomeDirect(rows, (t: int) => DayOf(t) == d);
    assert forall t :: DayOf(DayOf(t)) == DayOf(t);
    hide DayOf, Direct;
  }

  ghost function SomeDirect(rows: seq<RawRow>, sel: int -> bool): (out: Answer)
    ensures Direct(rows, sel, out)
  {
    assert exists out :: Direct(rows, sel, out) by { var out := DirectExists(rows, sel); }
    var out :| Direct(rows, sel, out);
    out
  }

  lemma FirstRow(rows: seq<RawRow>, sel: int -> bool, g: string) returns (r: RawRow)
    requires Present(rows, sel, g)
    ensures r in rows && r.group == g && sel(r.time)
    ensures forall s <- rows :: s.group == g && sel(s.time) ==> r.time <= s.time
  {
    var score := (k: int) =>
      if 0 <= k < |rows| && rows[k].group == g && sel(rows[k].time) then Some(-rows[k].time) else None;
    var w :| w in rows && w.group == g && sel(w.time);
    var j :| 0 <= j < |rows| && rows[j] == w;
    assert score(j).Some?;
    var i := Best(|rows|, score);
    r := rows[i];
    forall s <- rows | s.group == g && sel(s.time)
      ensures r.time <= s.time
    {
      var k :| 0 <= k < |rows| && rows[k] == s;
      assert score(k).Some?;
    }
  }

  ghost function FirstTime(rows: seq<RawRow>, sel: int -> bool, g: string): (t: int)
    requires Present(rows, sel, g)
    ensures exists r <- rows ::
              && r.group == g && sel(r.time) && r.time == t
              && forall s <- rows :: s.group == g && sel(s.time) ==> r.time <= s.time
  {
    assert exists r <- rows ::
        && r.group == g && sel(r.time)
        && forall s <- rows :: s.group == g && sel(s.time) ==> r.time <= s.time by {
      var r := FirstRow(rows, sel, g);
    }
    var r :| r in rows && r.group == g && sel(r.time)
             && forall s <- rows :: s.group == g && sel(s.time) ==> r.time <= s.time;
    r.time
  }

  lemma RawPartExists(rows: seq<RawRow>, sel: int -> bool) returns (out: Answer)
    ensures Direct(rows, sel, out) && RawStamps(rows, sel, out)
  {
    var direct := SomeDirect(rows, sel);
    out := map g | g in direct && Present(rows, sel, g) ::
      Cell(FirstTime(rows, sel, g), direct[g].sum, direct[g].last);
    hide Sum, LegalLast, Present;
  }

  lemma {:induction false} Listing(days: set<int>) returns (list: seq<int>)
    ensures forall i, j | 0 <= i < j < |list| :: list[i] != list[j]
    ensures forall d :: d in list <==> d in days
  {
    list := [];
    if d :| d in days {
      list := Listing(days - {d});
      list := list + [d];
    }
  }

  predicate HasGroup(view: map<int, Answer>, days: seq<int>, g: string) {
    exists d <- days :: d in view && g in view[d]
  }

  /** The first and the last listed day that has a group. */
  lemma EndDays(view: map<int, Answer>, days: seq<int>, g: string) returns (first: int, last: int)
    requires HasGroup(view, days, g)
    ensures first in days && first in view && g in view[first]
    ensures last in days && last in view && g in view[last]
    ensures forall e <- days :: e in view && g in view[e] ==> first <= e <= last
  {
    var latest := (k: int) => if 0 <= k < |days| && days[k] in view && g in view[days[k]] then Some(days[k]) else None;
    var earliest :=
      (k: int) => if 0 <= k < |days| && days[k] in view && g in view[days[k]] then Some(-days[k]) else None;
    var w :| w in days && w in view && g in view[w];
    var j :| 0 <= j < |days| && days[j] == w;
    assert latest(j).Some? && earliest(j).Some?;
    var f := Best(|days|, earliest);
    var l := Best(|days|, latest);
    first, last := days[f], days[l];
    forall e <- days | e in view && g in view[e]
      ensures first <= e <= last
    {
      var k :| 0 <= k < |days| && days[k] == e;
      assert latest(k).Some? && earliest(k).Some?;
    }
  }

  ghost predicate AreEnds(view: map<int, Answer>, days: seq<int>, g: string, ends: (int, int)) {
    && ends.0 in days && ends.0 in view && g in view[ends.0]
    && ends.1 in days && ends.1 in view && g in view[ends.1]
    && forall e <- days :: e in view && g in view[e] ==> ends.0 <= e <= ends.1
  }

  ghost function Ends(view: map<int, Answer>, days: seq<int>, g: string): (ends: (int, int))
    requires HasGroup(view, days, g)
    ensures AreEnds(view, days, g, ends)
  {
    assert exists ends :: AreEnds(view, days, g, ends) by {
      var first, last := EndDays(view, days, g);
      assert AreEnds(view, days, g, (first, last));
    }
    var ends :| AreEnds(view, days, g, ends);
    ends
  }

  lemma DayPartExists(view: map<int, Answer>, keep: int -> bool) returns (days: seq<int>, out: Answer)
    ensures Lists(days, view, keep) && OverDays(view, days, out) && DayStamps(view, days, out)
  {
    days := Listing(set d | d in view && keep(d));
    var groups := set d, g | d in view && g in view[d] :: g;
    out := map g | g in groups && HasGroup(view, days, g) ::
      var ends := Ends(view, days, g); Cell(ends.0, DaySum(view, days, g), view[ends.1][g].last);
    hide DaySum;
    forall g: string
      ensures g in out <==> HasGroup(view, days, g)
      ensures g in out ==> AreEnds(view, days, g, Ends(view, days, g))
    {
    }
    hide Ends, Lists;
  }

  lemma NewestExists(outs: seq<Answer>, g: string) returns (i: nat)
    requires exists out <- outs :: g in out
    ensures Newest(outs, g, i)
  {
    var score := (k: int) => if 0 <= k < |outs| && g in outs[k] then Some(outs[k][g].stamp) else None;
    var w :| w in outs && g in w;
    var j :| 0 <= j < |outs| && outs[j] == w;
    assert score(j).Some?;
    i := Best(|outs|, score);
    assert forall k | 0 <= k < |outs| && g in outs[k] :: score(k).Some?;
  }

  ghost function SomeNewest(outs: seq<Answer>, g: string): (i: nat)
    requires exists out <- outs :: g in out
    ensures Newest(outs, g, i)
  {
    assert exists i: nat :: Newest(outs, g, i) by { var i := NewestExists(outs, g); }
    var i: nat :| Newest(outs, g, i);
    i
  }

  lemma CombinedExists(outs: seq<Answer>) returns (res: Answer)
    ensures Combined(outs, res)
  {
    var groups := set out, g | out in outs && g in out :: g;
    res := map g | g in groups && exists out <- outs :: g in out ::
      Cell(0, SumOuts(outs, g), outs[SomeNewest(outs, g)][g].last);
    hide SumOuts;
    assert forall g <- res :: Newest(outs, g, SomeNewest(outs, g));
  }

  lemma PartExists(rows: seq<RawRow>, view: map<int, Answer>, p: Part) returns (out: Answer)
    ensures PartAnswer(rows, view, p, out)
  {
    hide Direct, RawStamps, Lists, OverDays, DayStamps;
    if p.Raw? {
      out := RawPartExists(rows, In(p));
    } else {
      var days;
      days, out := DayPartExists(view, KeepDays(p));
    }
  }

  lemma {:induction false} PartsExist(rows: seq<RawRow>, view: map<int, Answer>, parts: seq<Part>)
    returns (outs: seq<Answer>)
    ensures Answers(rows, view, parts, outs)
  {
    hide PartAnswer;
    outs := [];
    if parts != [] {
      var front := PartsExist(rows, view, parts[..|parts| - 1]);
      var out := PartExists(rows, view, parts[|parts| - 1]);
      outs := front + [out];
    }
  }

  /** For every table and window there are a daily view, answers of the parts and a combined answer. */
  lemma UnionExists(rows: seq<RawRow>, timeLow: int, timeHigh: int)
    returns (view: map<int, Answer>, outs: seq<Answer>, res: Answer)
    ensures DayView(rows, view)
    ensures Answers(rows, view, UnionParts(timeLow, timeHigh), outs) && Combined(outs, res)
  {
    hide DayView, Answers, Combined;
    view := DayViewExists(rows);
    outs := PartsExist(rows, view, UnionParts(timeLow, timeHigh));
    res := CombinedExists(outs);
  }
}
