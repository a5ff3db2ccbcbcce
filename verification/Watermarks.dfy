// Materialized views with a watermark, refreshed while blocks keep being committed.
// Source: internal/db/aggregates.go, internal/db/aggregates.sql

module Watermarks {
  import opened Tables

  /** A row of a view: its block's timestamp and its other columns. */
  datatype ViewRow = ViewRow(time: int, columns: string)

  /** The materialized rows of a view, and the time up to which they are complete. */
  datatype View = View(materialized: seq<ViewRow>, watermark: int)

  /** A refresh under way: the end of its range, the next aggregated time, the views still to do. */
  datatype Pass = Pass(end: int, nextAggregated: int, todo: set<string>, actionsDone: bool)

  /**
   * `live` is what each view's query yields. The views and the actions watermark are durable, as are
   * the live rows; the three block times and the pass are in memory.
   */
  datatype State = State(
    live: map<string, seq<ViewRow>>,
    views: map<string, View>,
    actions: int,
    lastFlushed: int,
    lastCommitted: int,
    lastAggregated: int,
    firstBlock: int,
    pass: Option<Pass>)

  const MAX_STEP := 20 * 86_400_000_000_000

  function Between(rows: seq<ViewRow>, from: int, to: int): seq<ViewRow> {
    if rows == [] then []
    else
      var r := rows[|rows| - 1];
      Between(rows[..|rows| - 1], from, to) + if from <= r.time < to then [r] else []
  }

  function Below(rows: seq<ViewRow>, to: int): seq<ViewRow> {
    if rows == [] then []
    else
      var r := rows[|rows| - 1];
      Below(rows[..|rows| - 1], to) + if r.time < to then [r] else []
  }

  function From(rows: seq<ViewRow>, from: int): seq<ViewRow> {
    if rows == [] then []
    else
      var r := rows[|rows| - 1];
      From(rows[..|rows| - 1], from) + if from <= r.time then [r] else []
  }

  /** What queries read: materialized rows below the watermark, live rows from there on. */
  function CombinedRows(v: View, live: seq<ViewRow>): seq<ViewRow> {
    Below(v.materialized, v.watermark) + From(live, v.watermark)
  }

  // ---- Steps ----

  /** The database's procedure for one view; a range that ends in the past is ignored. */
  function RefreshView(v: View, live: seq<ViewRow>, end: int): View {
    if end <= v.watermark then v
    else View(v.materialized + Between(live, v.watermark, end), end)
  }

  function Advance(watermark: int, end: int): int {
    if end <= watermark then watermark else end
  }

  function Clamped(s: State): int {
    if s.lastAggregated < s.firstBlock then s.firstBlock else s.lastAggregated
  }

  function RefreshEnd(s: State): int {
    if s.lastCommitted + 1 > Clamped(s) + MAX_STEP then Clamped(s) + MAX_STEP else s.lastCommitted + 1
  }

  function NextAggregated(s: State): int {
    if s.lastCommitted + 1 > Clamped(s) + MAX_STEP then Clamped(s) + MAX_STEP else s.lastCommitted
  }

  function StartPass(s: State): State {
    s.(lastAggregated := Clamped(s), pass := Some(Pass(RefreshEnd(s), NextAggregated(s), s.views.Keys, false)))
  }

  function AppendRows(live: map<string, seq<ViewRow>>, rows: map<string, seq<ViewRow>>): map<string, seq<ViewRow>> {
    map name | name in live :: live[name] + if name in rows then rows[name] else []
  }

  predicate AllAt(rows: map<string, seq<ViewRow>>, time: int) {
    forall name <- rows, r <- rows[name] :: r.time == time
  }

  datatype Step =
    | Flush(rows: map<string, seq<ViewRow>>, time: int)
    | Publish(time: int)
    | Start
    | RefreshOne(name: string)
    | SkipOne(name: string)
    | RefreshActions
    | SkipActions
    | Finish
    | Abort
    | Restart

  predicate Enabled(s: State, step: Step) {
    match step
    // A block becomes durable: its rows carry its time, which is later than that of all blocks before it.
    case Flush(rows, time) => s.lastFlushed < time && AllAt(rows, time)
    // The ingesting process announces a durable block.
    case Publish(time) => s.lastCommitted <= time <= s.lastFlushed
    case Start => s.pass.None?
    // Statements that fail are logged and skipped.
    case RefreshOne(name) => s.pass.Some? && name in s.pass.value.todo && name in s.views && name in s.live
    case SkipOne(name) => s.pass.Some? && name in s.pass.value.todo
    case RefreshActions => s.pass.Some? && s.pass.value.todo == {} && !s.pass.value.actionsDone
    case SkipActions => s.pass.Some? && s.pass.value.todo == {} && !s.pass.value.actionsDone
    case Finish => s.pass.Some? && s.pass.value.todo == {} && s.pass.value.actionsDone
    case Abort => s.pass.Some?
    case Restart => true
  }

  function Apply(s: State, step: Step): State
    requires Enabled(s, step)
  {
    match step
    case Flush(rows, time) => s.(live := AppendRows(s.live, rows), lastFlushed := time)
    case Publish(time) => s.(lastCommitted := time)
    case Start => StartPass(s)
    case RefreshOne(name) =>
      var p := s.pass.value;
      s.(views := s.views[name := RefreshView(s.views[name], s.live[name], p.end)],
         pass := Some(p.(todo := p.todo - {name})))
    case SkipOne(name) => s.(pass := Some(s.pass.value.(todo := s.pass.value.todo - {name})))
    case RefreshActions => s.(actions := Advance(s.actions, s.pass.value.end),
                              pass := Some(s.pass.value.(actionsDone := true)))
    case SkipActions => s.(pass := Some(s.pass.value.(actionsDone := true)))
    case Finish => s.(lastAggregated := s.pass.value.nextAggregated, pass := None)
    case Abort => s.(pass := None)
    case Restart => s.(lastCommitted := s.lastFlushed, lastAggregated := s.actions, pass := None)
  }

  // ---- The invariant ----

  /** The materialized rows of a view are exactly its live rows below the watermark. */
  ghost predicate UpToDate(v: View, live: seq<ViewRow>) {
    multiset(v.materialized) == multiset(Below(live, v.watermark))
  }

  ghost predicate Inv(s: State) {
    && s.live.Keys == s.views.Keys
    && s.lastCommitted <= s.lastFlushed
    && (forall name <- s.views ::
          UpToDate(s.views[name], s.live[name]) && s.views[name].watermark <= s.lastCommitted + 1)
    && s.actions <= s.lastCommitted + 1
    && (forall name <- s.live, r <- s.live[name] :: r.time <= s.lastFlushed)
    && (s.pass.Some? ==> s.pass.value.end <= s.lastCommitted + 1 && s.pass.value.todo <= s.views.Keys)
  }

  /** The state in which the views were created, over a database that may hold blocks already. */
  ghost predicate Initial(s: State) {
    && s.live.Keys == s.views.Keys
    && (forall name <- s.views :: s.views[name] == View([], 0))
    && (forall name <- s.live, r <- s.live[name] :: 0 <= r.time <= s.lastFlushed)
    && s.actions == 0 <= s.lastCommitted <= s.lastFlushed
    && s.pass.None?
  }

  lemma {:induction false} BetweenJoins(rows: seq<ViewRow>, from: int, to: int)
    requires from <= to
    ensures multiset(Below(rows, from)) + multiset(Between(rows, from, to)) == multiset(Below(rows, to))
  {
    if rows != [] {
      BetweenJoins(rows[..|rows| - 1], from, to);
    }
  }

  lemma {:induction false} BelowAndFrom(rows: seq<ViewRow>, w: int)
    ensures multiset(Below(rows, w)) + multiset(From(rows, w)) == multiset(rows)
    ensures forall r <- Below(rows, w) :: r.time < w
  {
    if rows != [] {
      BelowAndFrom(rows[..|rows| - 1], w);
      assert rows == rows[..|rows| - 1] + [rows[|rows| - 1]];
    }
  }

  lemma {:induction false} AllBelow(rows: seq<ViewRow>, w: int)
    requires forall r <- rows :: r.time < w
    ensures Below(rows, w) == rows
  {
    if rows != [] {
      AllBelow(rows[..|rows| - 1], w);
      assert rows == rows[..|rows| - 1] + [rows[|rows| - 1]];
    }
  }

  /** An up-to-date view reads as the live one, row for row. */
  lemma UpToDateReadsLive(v: View, live: seq<ViewRow>)
    requires UpToDate(v, live)
    ensures multiset(CombinedRows(v, live)) == multiset(live)
  {
    BelowAndFrom(live, v.watermark);
    forall r <- v.materialized
      ensures r.time < v.watermark
    {
      assert r in multiset(v.materialized);
    }
    AllBelow(v.materialized, v.watermark);
  }

  lemma RefreshKeepsUpToDate(v: View, live: seq<ViewRow>, end: int)
    requires UpToDate(v, live)
    ensures UpToDate(RefreshView(v, live, end), live)
    ensures RefreshView(v, live, end).watermark == Advance(v.watermark, end)
  {
    if v.watermark < end {
      BetweenJoins(live, v.watermark, end);
    }
  }

  lemma {:induction false} BelowAppend(live: seq<ViewRow>, rows: seq<ViewRow>, w: int)
    ensures Below(live + rows, w) == Below(live, w) + Below(rows, w)
  {
    if rows == [] {
      assert live + rows == live;
    } else {
      BelowAppend(live, rows[..|rows| - 1], w);
      assert (live + rows)[..|live + rows| - 1] == live + rows[..|rows| - 1];
    }
  }

  lemma {:induction false} NoneBelow(rows: seq<ViewRow>, w: int)
    ensures Below(rows, w) == [] <==> forall r <- rows :: w <= r.time
  {
    if rows != [] {
      NoneBelow(rows[..|rows| - 1], w);
      assert rows == rows[..|rows| - 1] + [rows[|rows| - 1]];
    }
  }

  /** New rows leave a view up to date exactly when none is below its watermark. */
  lemma LateRowsAreLost(v: View, live: seq<ViewRow>, rows: seq<ViewRow>)
    requires UpToDate(v, live)
    ensures UpToDate(v, live + rows) <==> forall r <- rows :: v.watermark <= r.time
  {
    BelowAppend(live, rows, v.watermark);
    NoneBelow(rows, v.watermark);
    if UpToDate(v, live + rows) {
      assert |multiset(Below(live + rows, v.watermark))| == |Below(live, v.watermark)| + |Below(rows, v.watermark)|;
      assert |multiset(Below(live, v.watermark))| == |Below(live, v.watermark)|;
    }
  }

  lemma InitialIsInv(s: State)
    requires Initial(s)
    ensures Inv(s)
  {
    forall name <- s.views
      ensures UpToDate(s.views[name], s.live[name])
    {
      NoneBelow(s.live[name], 0);
    }
  }

  lemma FlushKeepsInv(s: State, rows: map<string, seq<ViewRow>>, time: int)
    requires Inv(s) && Enabled(s, Flush(rows, time))
    ensures Inv(Apply(s, Flush(rows, time)))
  {
    hide UpToDate;
    var s' := Apply(s, Flush(rows, time));
    forall name <- s'.views
      ensures UpToDate(s'.views[name], s'.live[name])
      ensures forall r <- s'.live[name] :: r.time <= s'.lastFlushed
    {
      LateRowsAreLost(s.views[name], s.live[name], if name in rows then rows[name] else []);
    }
  }

  lemma RefreshOneKeepsInv(s: State, name: string)
    requires Inv(s) && Enabled(s, RefreshOne(name))
    ensures Inv(Apply(s, RefreshOne(name)))
  {
    hide UpToDate, RefreshView;
    RefreshKeepsUpToDate(s.views[name], s.live[name], s.pass.value.end);
  }

  lemma StepKeepsInv(s: State, step: Step)
    requires Inv(s) && Enabled(s, step)
    ensures Inv(Apply(s, step))
  {
    hide UpToDate, RefreshView;
    match step
    case Flush(rows, time) => FlushKeepsInv(s, rows, time);
    case RefreshOne(name) => RefreshOneKeepsInv(s, name);
    case _ =>
  }

  /** The states along a run. */
  ghost predicate IsRun(states: seq<State>, steps: seq<Step>) {
    && |states| == |steps| + 1
    && Initial(states[0])
    && forall i | 0 <= i < |steps| :: Leads(states[i], steps[i], states[i + 1])
  }

  lemma {:induction false} RunKeepsInv(states: seq<State>, steps: seq<Step>, i: nat)
    requires IsRun(states, steps) && i < |states|
    ensures Inv(states[i])
  {
    if i == 0 {
      InitialIsInv(states[0]);
    } else {
      RunKeepsInv(states, steps, i - 1);
      assert Leads(states[i - 1], steps[i - 1], states[i - 1 + 1]);
      StepKeepsInv(states[i - 1], steps[i - 1]);
    }
  }

  /**
   * However commits, refreshes, failures and restarts interleave: no watermark is beyond the last
   * committed block, and every combined view has exactly the rows of its live view.
   */
  lemma CombinedIsAlwaysLive(states: seq<State>, steps: seq<Step>, i: nat, name: string)
    requires IsRun(states, steps) && i < |states| && name in states[i].views
    ensures name in states[i].live
    ensures states[i].views[name].watermark <= states[i].lastCommitted + 1
    ensures multiset(CombinedRows(states[i].views[name], states[i].live[name])) == multiset(states[i].live[name])
  {
    RunKeepsInv(states, steps, i);
    UpToDateReadsLive(states[i].views[name], states[i].live[name]);
  }

  // ---- Catching up ----

  /** A refresh that runs to its end without failures and without commits in between. */
  function Refreshed(s: State): State
    requires s.live.Keys == s.views.Keys
  {
    s.(views := map name | name in s.views :: RefreshView(s.views[name], s.live[name], RefreshEnd(s)),
       actions := Advance(s.actions, RefreshEnd(s)),
       lastAggregated := NextAggregated(s))
  }

  ghost predicate Leads(s: State, step: Step, t: State) {
    Enabled(s, step) && t == Apply(s, step)
  }

  /** `steps` lead from `s` to `t`. */
  ghost predicate Path(s: State, steps: seq<Step>, t: State)
    decreases |steps|
  {
    if steps == [] then s == t
    else
      var front, last := steps[..|steps| - 1], steps[|steps| - 1];
      exists u :: Path(s, front, u) && Leads(u, last, t)
  }

  ghost predicate Reaches(s: State, t: State) {
    exists steps :: Path(s, steps, t)
  }

  lemma ReachesStep(s: State, t: State, step: Step)
    requires Reaches(s, t) && Enabled(t, step)
    ensures Reaches(s, Apply(t, step))
  {
    hide Enabled, Apply;
    var steps :| Path(s, steps, t);
    assert (steps + [step])[..|steps|] == steps;
    assert Leads(t, step, Apply(t, step));
    assert Path(s, steps + [step], Apply(t, step));
  }

  lemma ReachesStart(s: State)
    requires s.pass.None?
    ensures Reaches(s, StartPass(s))
  {
    assert Path(s, [], s);
    ReachesStep(s, s, Start);
  }

  lemma ReachesRefreshOne(s: State, t: State, name: string)
    requires Reaches(s, t) && Enabled(t, RefreshOne(name))
    ensures Reaches(s, t.(views := t.views[name := RefreshView(t.views[name], t.live[name], t.pass.value.end)],
                          pass := Some(t.pass.value.(todo := t.pass.value.todo - {name}))))
  {
    ReachesStep(s, t, RefreshOne(name));
  }

  lemma ReachesEnd(s: State, t: State)
    requires Reaches(s, t) && t.pass.Some? && t.pass.value.todo == {} && !t.pass.value.actionsDone
    ensures Reaches(s, t.(actions := Advance(t.actions, t.pass.value.end),
                          lastAggregated := t.pass.value.nextAggregated, pass := None))
  {
    ReachesStep(s, t, RefreshActions);
    ReachesStep(s, Apply(t, RefreshActions), Finish);
  }

  /** The job that refreshes the aggregates, alone with the database. */
  class Aggregator {
    var state: State

    constructor (state: State)
      ensures this.state == state
    {
      this.state := state;
    }

    method RefreshAggregates()
      requires state.live.Keys == state.views.Keys && state.pass.None?
      modifies this
      ensures state == Refreshed(old(state)) && Reaches(old(state), state)
    {
      var lastCommitted, lastAggregated := state.lastCommitted, state.lastAggregated;
      if lastAggregated < state.firstBlock {
        lastAggregated := state.firstBlock;
        state := state.(lastAggregated := lastAggregated);
      }
      var refreshEnd := lastCommitted + 1;
      if refreshEnd > lastAggregated + MAX_STEP {
        refreshEnd := lastAggregated + MAX_STEP;
        lastAggregated := refreshEnd;
      } else {
        lastAggregated := lastCommitted;
      }
      ReachesStart(old(state));
      ghost var run := StartPass(old(state));
      hide RefreshView, Reaches;
      var todo := state.views.Keys;
      ghost var s0 := state;
      while todo != {}
        invariant todo <= s0.views.Keys == state.views.Keys
        invariant state == s0.(views := state.views)
        invariant forall name <- s0.views ::
                    state.views[name] == if name in todo then s0.views[name]
                                         else RefreshView(s0.views[name], s0.live[name], refreshEnd)
        invariant run == state.(pass := Some(Pass(refreshEnd, lastAggregated, todo, false))) && Reaches(old(state), run)
      {
        var name :| name in todo;
        ReachesRefreshOne(old(state), run, name);
        run := run.(views := run.views[name := RefreshView(run.views[name], run.live[name], refreshEnd)],
                    pass := Some(run.pass.value.(todo := todo - {name})));
        state := state.(views := state.views[name := RefreshView(state.views[name], state.live[name], refreshEnd)]);
        todo := todo - {name};
      }
      state := state.(actions := Advance(state.actions, refreshEnd));
      state := state.(lastAggregated := lastAggregated);
      ReachesEnd(old(state), run);
    }
  }

  function Times(s: State, n: nat): State
    requires s.live.Keys == s.views.Keys
    ensures Times(s, n).live == s.live && Times(s, n).views.Keys == s.views.Keys
    ensures Times(s, n).lastCommitted == s.lastCommitted && Times(s, n).firstBlock == s.firstBlock
  {
    if n == 0 then s else Refreshed(Times(s, n - 1))
  }

  /** Each refresh moves on by twenty days until it reaches the last committed block. */
  lemma {:induction false} RefreshesMoveOn(s: State, n: nat)
    requires s.live.Keys == s.views.Keys
    ensures s.lastCommitted <= Clamped(Times(s, n)) || Clamped(Times(s, n)) == Clamped(s) + n * MAX_STEP
  {
    if n > 0 {
      RefreshesMoveOn(s, n - 1);
    }
  }

  /**
   * Without new commits, refreshing once for every twenty days of backlog, begun or complete, completes
   * all views: each watermark is just beyond the last committed block. The backlog counts from the
   * last aggregated block, or from the first block when nothing has been aggregated yet.
   */
  lemma CatchesUp(s: State, n: nat, name: string)
    requires Inv(s) && name in s.views
    requires 0 < n && s.lastCommitted < Clamped(s) + n * MAX_STEP
    ensures Times(s, n).views[name].watermark == s.lastCommitted + 1
    ensures Times(s, n).actions == s.lastCommitted + 1 && Times(s, n).lastAggregated == s.lastCommitted
    ensures multiset(Times(s, n).views[name].materialized) == multiset(Below(s.live[name], s.lastCommitted + 1))
  {
    hide UpToDate, RefreshView, RefreshEnd, Clamped, NextAggregated, Below, Times;
    TimesNext(s, n);
    LastRefreshEnd(s, n);
    ActionsStayBehind(s, n - 1);
    TimesUpToDate(s, n - 1, name);
    var t := Times(s, n - 1);
    RefreshKeepsUpToDate(t.views[name], t.live[name], RefreshEnd(t));
    CatchesUpStep(s, Times(s, n), name);
  }

  lemma TimesNext(s: State, n: nat)
    requires s.live.Keys == s.views.Keys && 0 < n
    ensures Times(s, n) == Refreshed(Times(s, n - 1))
  {
  }

  lemma LastRefreshEnd(s: State, n: nat)
    requires s.live.Keys == s.views.Keys && 0 < n && s.lastCommitted < Clamped(s) + n * MAX_STEP
    ensures RefreshEnd(Times(s, n - 1)) == s.lastCommitted + 1
    ensures NextAggregated(Times(s, n - 1)) == s.lastCommitted
  {
    RefreshesMoveOn(s, n - 1);
  }

  lemma {:induction false} ActionsStayBehind(s: State, n: nat)
    requires Inv(s)
    ensures Times(s, n).actions <= s.lastCommitted + 1
  {
    if n > 0 {
      ActionsStayBehind(s, n - 1);
    }
  }

  lemma CatchesUpStep(s: State, t: State, name: string)
    requires name in t.views && name in s.live && UpToDate(t.views[name], s.live[name])
             && t.views[name].watermark == s.lastCommitted + 1
    ensures multiset(t.views[name].materialized) == multiset(Below(s.live[name], s.lastCommitted + 1))
  {
  }

  lemma {:induction false} TimesUpToDate(s: State, n: nat, name: string)
    requires Inv(s) && name in s.views
    ensures var t := Times(s, n);
            UpToDate(t.views[name], s.live[name]) && t.views[name].watermark <= s.lastCommitted + 1
  {
    hide UpToDate, RefreshView;
    if n > 0 {
      TimesUpToDate(s, n - 1, name);
      var t := Times(s, n - 1);
      RefreshKeepsUpToDate(t.views[name], t.live[name], RefreshEnd(t));
    }
  }
}
