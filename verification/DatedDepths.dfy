// The depth log by time: the newest row, depths before any time, and the union query that reads them.
// Source: internal/timeseries/depthrecorder.go, internal/timeseries/stat/depth.go, internal/db/aggregates.go

module DatedDepths {
  import opened PoolDepths
  import opened Tables
  import opened Recording
  import opened DepthLog
  import opened Mux
  import opened Ingestion
  import DH = DepthHistory
  import Agg = Aggregates

  ghost predicate TimesGrow(env: Env) {
    forall i, j | 0 <= i < j < |env.blocks| :: env.blocks[i].time < env.blocks[j].time
  }

  // ---- The log, in the order of time ----

  /** Times never decrease, no pool has two rows of one time, and none is later than `last`. */
  ghost predicate Dated(log: seq<Values>, last: int) {
    && (forall v <- log :: v.DepthRow? && v.timestamp <= last)
    && forall j, k | 0 <= j < k < |log| ::
         log[j].timestamp <= log[k].timestamp && (log[j].pool == log[k].pool ==> log[j].timestamp < log[k].timestamp)
  }

  lemma DatedGrows(log: seq<Values>, last: int, was: Depths, now: Depths, time: int, rows: seq<Row<Values>>)
    requires Dated(log, last) && last < time && ChangeRows(was, now, time, rows)
    ensures Dated(log + ValuesOf(rows), time)
  {
    hide Changed;
    var values := ValuesOf(rows);
    forall v <- values
      ensures v.DepthRow? && v.timestamp == time
    {
      var i :| 0 <= i < |values| && values[i] == v;
      assert rows[i] in rows;
    }
    forall j, k | 0 <= j < k < |values|
      ensures values[j].pool != values[k].pool
    {
      assert rows[j] in rows && rows[k] in rows;
      assert rows[j] != rows[k];
    }
  }

  function EntryOf(v: Values): DH.DepthEntry {
    if v.DepthRow? then DH.DepthEntry(v.timestamp, v.pool, DH.PoolDepth(v.assetE8, v.runeE8, v.synthE8))
    else DH.DepthEntry(0, "", DH.NO_DEPTH)
  }

  function Entries(log: seq<Values>): (es: seq<DH.DepthEntry>)
    ensures |es| == |log| && forall i | 0 <= i < |log| :: es[i] == EntryOf(log[i])
  {
    seq(|log|, i requires 0 <= i < |log| => EntryOf(log[i]))
  }

  function Triple(d: DH.PoolDepth): (int, int, int) {
    (d.asset, d.rune, d.synth)
  }

  /** What the log says about a pool just before a time; a pool without a row reads as zeros. */
  function ReadAt(log: seq<Values>, pool: string, until: int): (int, int, int) {
    match DH.LatestIn(Entries(log), pool, None, until)
    case None => (0, 0, 0)
    case Some(d) => Triple(d)
  }

  lemma {:induction false} ReadAtEnd(log: seq<Values>, pool: string, until: int)
    requires forall v <- log :: v.DepthRow? && v.timestamp < until
    ensures ReadAt(log, pool, until) == Latest(log, pool)
  {
    if log != [] {
      var front := log[..|log| - 1];
      ReadAtEnd(front, pool, until);
      assert Entries(log)[..|front|] == Entries(front);
      assert log[|log| - 1] in log;
    }
  }

  lemma {:induction false} LaterRowsDoNotCount(log: seq<Values>, more: seq<Values>, pool: string, until: int)
    requires forall v <- more :: v.DepthRow? && until <= v.timestamp
    ensures ReadAt(log + more, pool, until) == ReadAt(log, pool, until)
    decreases |more|
  {
    if more == [] {
      assert log + more == log;
    } else {
      var front, v := more[..|more| - 1], more[|more| - 1];
      assert v in more;
      LaterRowsDoNotCount(log, front, pool, until);
      assert Entries(log + more)[..|log + front|] == Entries(log + front);
    }
  }

  /** Of the first `n` blocks, the first `k` are before a time and the others are not. */
  ghost predicate SplitsAt(env: Env, k: nat, n: nat, until: int)
    requires k <= n <= |env.blocks|
  {
    (k > 0 ==> env.blocks[k - 1].time < until) && (k < n ==> until <= env.blocks[k].time)
  }

  /** Read at any time, the log gives the depths after the blocks before that time. */
  ghost predicate ReadsAsOf(env: Env, log: seq<Values>, n: nat)
    requires n <= |env.blocks|
  {
    forall k: nat, until: int, pool: string | k <= n && SplitsAt(env, k, n, until) ::
      ReadAt(log, pool, until) == Current(After(env, k), pool)
  }

  ghost predicate DatedLog(env: Env, log: seq<Values>, n: nat)
    requires n <= |env.blocks|
  {
    && (if n == 0 then log == [] else Dated(log, env.blocks[n - 1].time))
    && ReadsAsOf(env, log, n)
  }

  lemma DatesGrow(env: Env, log: seq<Values>, m: nat, was: Depths, rows: seq<Row<Values>>)
    requires TimesGrow(env) && m < |env.blocks| && (if m == 0 then log == [] else Dated(log, env.blocks[m - 1].time))
    requires ChangeRows(was, After(env, m + 1), env.blocks[m].time, rows)
    ensures Dated(log + ValuesOf(rows), env.blocks[m].time)
  {
    hide After, ChangeRows;
    if m == 0 {
      DatedGrows([], env.blocks[0].time - 1, was, After(env, 1), env.blocks[0].time, rows);
    } else {
      DatedGrows(log, env.blocks[m - 1].time, was, After(env, m + 1), env.blocks[m].time, rows);
    }
  }

  lemma ReadsGrow(env: Env, log: seq<Values>, m: nat, was: Depths, rows: seq<Row<Values>>)
    requires TimesGrow(env) && m < |env.blocks| && ReadsAsOf(env, log, m)
    requires ChangeRows(was, After(env, m + 1), env.blocks[m].time, rows)
    requires Dated(log + ValuesOf(rows), env.blocks[m].time) && Replays(log + ValuesOf(rows), After(env, m + 1))
    ensures ReadsAsOf(env, log + ValuesOf(rows), m + 1)
  {
    hide After, ChangeRows, ReadAt, ReadsAsOf, SplitsAt;
    RowsAreOf(was, After(env, m + 1), env.blocks[m].time, rows);
    DatesBound(log + ValuesOf(rows), env.blocks[m].time);
    hide Dated, TimesGrow, Replays;
    forall k: nat, until: int, pool: string | k <= m + 1 && SplitsAt(env, k, m + 1, until)
      ensures ReadAt(log + ValuesOf(rows), pool, until) == Current(After(env, k), pool)
    {
      ReadGrows(env, log, m, ValuesOf(rows), k, until, pool);
    }
    AllReads(env, log + ValuesOf(rows), m + 1);
  }

  lemma DatesBound(log: seq<Values>, last: int)
    requires Dated(log, last)
    ensures forall v <- log :: v.DepthRow? && v.timestamp <= last
  {
  }

  lemma AllReads(env: Env, log: seq<Values>, n: nat)
    requires n <= |env.blocks|
    requires forall k: nat, until: int, pool: string | k <= n && SplitsAt(env, k, n, until) ::
               ReadAt(log, pool, until) == Current(After(env, k), pool)
    ensures ReadsAsOf(env, log, n)
  {
    hide SplitsAt, ReadAt, After;
  }

  lemma ReadGrows(env: Env, log: seq<Values>, m: nat, more: seq<Values>, k: nat, until: int, pool: string)
    requires TimesGrow(env) && m < |env.blocks| && ReadsAsOf(env, log, m) && Replays(log + more, After(env, m + 1))
    requires forall v <- log + more :: v.DepthRow? && v.timestamp <= env.blocks[m].time
    requires forall v <- more :: v.DepthRow? && v.timestamp == env.blocks[m].time
    requires k <= m + 1 && SplitsAt(env, k, m + 1, until)
    ensures ReadAt(log + more, pool, until) == Current(After(env, k), pool)
  {
    hide After, ReadAt;
    if k == m + 1 {
      ReadAtEnd(log + more, pool, until);
    } else {
      assert k < m ==> env.blocks[k].time < env.blocks[m].time;
      LaterRowsDoNotCount(log, more, pool, until);
      assert SplitsAt(env, k, m, until);
    }
  }

  lemma RowsAreOf(was: Depths, now: Depths, time: int, rows: seq<Row<Values>>)
    requires ChangeRows(was, now, time, rows)
    ensures forall v <- ValuesOf(rows) :: v.DepthRow? && v.timestamp == time
  {
    hide Changed;
    forall v <- ValuesOf(rows)
      ensures v.DepthRow? && v.timestamp == time
    {
      var i :| 0 <= i < |rows| && rows[i].values == v;
      assert rows[i] in rows;
    }
  }

  // ---- Every run ----

  ghost predicate DatedTables(env: Env, tables: Tables<Values>) {
    Durable(tables) <= |env.blocks| && DatedLog(env, RowsIn(tables, DEPTHS), Durable(tables))
  }

  ghost predicate DatedInv(env: Env, s: State) {
    && DatedTables(env, s.tables)
    && (s.process.Some? ==> DatedTables(env, PutAll(s.tables, s.process.value.pending)))
  }

  lemma BlockKeepsDates(env: Env, all: Tables<Values>, snapshot: Depths, persist: bool, changes: seq<Row<Values>>)
    requires TimesGrow(env) && DatedTables(env, all)
    requires var m := Durable(all);
             && m < |env.blocks| && Consistent(env, all, m)
             && (snapshot == After(env, m) || snapshot == NO_DEPTHS)
             && ChangeRows(snapshot, After(env, m + 1), env.blocks[m].time, changes)
    ensures DatedTables(env, PutAll(all, NextRows(env, Durable(all), persist, changes)))
  {
    hide After, NextRows, RowsFor, PutAll, LogsPrefix, HoldsEvents, Replays, ChangeRows, Dated, ReadsAsOf, RowsIn,
         TimesGrow;
    var m := Durable(all);
    var log, all' := RowsIn(all, DEPTHS), PutAll(all, NextRows(env, m, persist, changes));
    ChangesAreDepths(snapshot, After(env, m + 1), env.blocks[m].time, changes);
    NextRowsPerTable(env, m, persist, changes);
    PutAllAppends(all, NextRows(env, m, persist, changes), DEPTHS);
    BlockKeepsConsistency(env, all, m, snapshot, persist, changes);
    LengthOfLog(env, RowsIn(all', LOG), m + 1);
    DatesGrow(env, log, m, snapshot, changes);
    ReadsGrow(env, log, m, snapshot, changes);
  }

  lemma ChangesAreDepths(was: Depths, now: Depths, time: int, rows: seq<Row<Values>>)
    requires ChangeRows(was, now, time, rows)
    ensures forall row <- rows :: row.target == DEPTHS
  {
    hide Changed;
  }

  lemma WorkKeepsDates(env: Env, s: State, synced: bool, changes: seq<Row<Values>>, s': State)
    requires env.Valid() && TimesGrow(env) && Inv(env, s) && DatedInv(env, s) && Work(env, s, synced, changes, s')
    ensures DatedInv(env, s')
  {
    hide After, RunBlock, NextRows, BlockRows, PutAll, Commits, ChangeRows, LogsPrefix, HoldsEvents, Replays,
         DatedTables, TimesGrow;
    var v := s.process.value;
    var all := PutAll(s.tables, v.pending);
    var m := Durable(all);
    var b := v.channel[0];
    assert b == env.blocks[m];
    var persist := Persists(Commits(env, b.height, synced), v.firstBlock, b.height);
    NextBlock(env, m, persist, changes);
    BlockKeepsDates(env, all, v.snapshot, persist, changes);
    PutAllConcat(s.tables, v.pending, NextRows(env, m, persist, changes));
  }

  lemma NextKeepsDates(env: Env, s: State, s': State)
    requires env.Valid() && TimesGrow(env) && Inv(env, s) && DatedInv(env, s) && Next(env, s, s')
    ensures DatedInv(env, s')
  {
    hide DatedTables, Inv, Work, TimesGrow;
    if synced, changes :| Work(env, s, synced, changes, s') {
      WorkKeepsDates(env, s, synced, changes, s');
    } else {
      assert forall tables: Tables<Values> :: PutAll(tables, []) == tables;
      hide PutAll;
    }
  }

  lemma {:induction false} RunKeepsDates(env: Env, run: seq<State>, i: nat)
    requires env.Valid() && TimesGrow(env) && IsRun(env, run) && i < |run|
    ensures DatedInv(env, run[i])
  {
    if i == 0 {
      assert Entries([]) == [];
    } else {
      RunKeepsInv(env, run, i - 1);
      RunKeepsDates(env, run, i - 1);
      hide DatedInv, Inv, TimesGrow;
      NextKeepsDates(env, run[i - 1], run[i]);
    }
  }

  /**
   * When block times grow, in every state of every run the newest row of a pool, by its timestamp,
   * holds exactly the depths after the last durable block.
   */
  lemma NewestRowIsCurrent(env: Env, run: seq<State>, i: nat, j: nat)
    requires env.Valid() && TimesGrow(env) && IsRun(env, run) && i < |run|
    requires var log := RowsIn(run[i].tables, DEPTHS);
             && j < |log| && log[j].DepthRow?
             && forall k | 0 <= k < |log| && log[k].DepthRow? && log[k].pool == log[j].pool ::
                 log[k].timestamp <= log[j].timestamp
    ensures var tables := run[i].tables;
            var row := RowsIn(tables, DEPTHS)[j];
            && Durable(tables) <= |env.blocks|
            && (row.assetE8, row.runeE8, row.synthE8) == Current(After(env, Durable(tables)), row.pool)
  {
    RunKeepsDates(env, run, i);
    DurableStateIsACommittedPrefix(env, run, i);
    var log := RowsIn(run[i].tables, DEPTHS);
    hide After, ReadsAsOf;
    assert forall v <- log :: v.DepthRow?;
    assert forall k | 0 <= k < |log| :: log[k] in log;
    LatestIsNewest(log, j);
  }

  /**
   * And reading the log just before any time gives, for every pool, the depths after the durable
   * blocks before that time.
   */
  lemma DepthsBeforeAreOfTheChain(env: Env, run: seq<State>, i: nat, k: nat, until: int, pools: Option<set<string>>,
                                  pool: string)
    requires env.Valid() && TimesGrow(env) && IsRun(env, run) && i < |run| && DH.Asked(pools, pool)
    requires k <= Durable(run[i].tables) <= |env.blocks| && SplitsAt(env, k, Durable(run[i].tables), until)
    ensures var before := DH.DepthsBefore(Entries(RowsIn(run[i].tables, DEPTHS)), pools, until);
            && (if pool in before then Triple(before[pool]) else (0, 0, 0)) == Current(After(env, k), pool)
            && (pools.Some? ==> pool in before)
  {
    RunKeepsDates(env, run, i);
    var log := RowsIn(run[i].tables, DEPTHS);
    assert ReadAt(log, pool, until) == Current(After(env, k), pool);
    DH.LatestIsOfTheLog(Entries(log), pool, None, until);
    hide After, ReadsAsOf, Dated;
  }

  // ---- The query that reads the depths before a time ----

  /** The log as the aggregates see it, with one of its columns. */
  function RawRows(log: seq<DH.DepthEntry>, column: DH.PoolDepth -> int): (rows: seq<Agg.RawRow>)
    ensures |rows| == |log|
    ensures forall i | 0 <= i < |log| :: rows[i] == Agg.RawRow(log[i].time, log[i].pool, 0, column(log[i].depths))
  {
    seq(|log|, i requires 0 <= i < |log| => Agg.RawRow(log[i].time, log[i].pool, 0, column(log[i].depths)))
  }

  ghost predicate OneRowEach(log: seq<DH.DepthEntry>) {
    forall i, j | 0 <= i < j < |log| ::
      log[i].time <= log[j].time && (log[i].pool == log[j].pool ==> log[i].time < log[j].time)
  }

  lemma DatedEntries(log: seq<Values>, last: int)
    requires Dated(log, last)
    ensures OneRowEach(Entries(log))
  {
    assert forall i | 0 <= i < |log| :: log[i] in log;
  }

  /** What the latest depths before a time are, by the times of the rows. */
  lemma {:induction false} LatestByTime(log: seq<DH.DepthEntry>, pool: string, until: int) returns (i: nat)
    requires OneRowEach(log)
    ensures DH.LatestIn(log, pool, None, until).Some? ==>
              && i < |log| && log[i].pool == pool && log[i].time < until
              && DH.LatestIn(log, pool, None, until).value == log[i].depths
              && forall j | 0 <= j < |log| && log[j].pool == pool && log[j].time < until && j != i ::
                  log[j].time < log[i].time
    ensures DH.LatestIn(log, pool, None, until).None? ==>
              forall j | 0 <= j < |log| :: !(log[j].pool == pool && log[j].time < until)
  {
    i := 0;
    if log != [] {
      var e := log[|log| - 1];
      if e.pool == pool && e.time < until {
        i := |log| - 1;
      } else {
        i := LatestByTime(log[..|log| - 1], pool, until);
      }
    }
  }

  /**
   * For every log with growing times and every time from the epoch on, the union of tail and whole days
   * answers for exactly the pools with a row before that time, and with the latest depths of each.
   */
  lemma UnionReadsTheLatest(log: seq<DH.DepthEntry>, column: DH.PoolDepth -> int, view: map<int, Agg.Answer>,
                            until: int, outs: seq<Agg.Answer>, res: Agg.Answer, pool: string)
    requires OneRowEach(log) && 0 <= until && Agg.DayView(RawRows(log, column), view)
    requires Agg.Answers(RawRows(log, column), view, Agg.UnionParts(0, until), outs) && Agg.Combined(outs, res)
    ensures pool in res <==> DH.LatestIn(log, pool, None, until).Some?
    ensures pool in res ==> res[pool].last == column(DH.LatestIn(log, pool, None, until).value)
  {
    var rows := RawRows(log, column);
    Agg.BucketBounds(until);
    assert Agg.Exact(0, until);
    Agg.UnionIsDirect(rows, view, 0, until, outs, res);
    var i := LatestByTime(log, pool, until);
    DirectIsLatest(log, column, until, res, pool, i);
  }

  lemma DirectIsLatest(log: seq<DH.DepthEntry>, column: DH.PoolDepth -> int, until: int, res: Agg.Answer, pool: string,
                       i: nat)
    requires Agg.Direct(RawRows(log, column), Agg.Window(0, until), res)
    requires DH.LatestIn(log, pool, None, until).Some? ==>
               && i < |log| && log[i].pool == pool && log[i].time < until
               && DH.LatestIn(log, pool, None, until).value == log[i].depths
               && forall j | 0 <= j < |log| && log[j].pool == pool && log[j].time < until && j != i ::
                   log[j].time < log[i].time
    requires DH.LatestIn(log, pool, None, until).None? ==>
               forall j | 0 <= j < |log| :: !(log[j].pool == pool && log[j].time < until)
    ensures pool in res <==> DH.LatestIn(log, pool, None, until).Some?
    ensures pool in res ==> res[pool].last == column(DH.LatestIn(log, pool, None, until).value)
  {
    var rows, sel := RawRows(log, column), Agg.Window(0, until);
    hide Agg.Sum, DH.LatestIn;
    if DH.LatestIn(log, pool, None, until).Some? {
      assert rows[i] in rows && sel(rows[i].time);
    }
    if pool in res {
      var r :| r in rows && r.group == pool && sel(r.time) && r.value == res[pool].last
               && forall s <- rows :: s.group == pool && sel(s.time) ==> s.time <= r.time;
      var j :| 0 <= j < |rows| && rows[j] == r;
    }
  }

  /**
   * So, when block times grow, in every state of every run the query for the depths before a time
   * yields the depths after the durable blocks before it; pools it has no row for have none.
   */
  lemma UnionAnswersForTheChain(env: Env, run: seq<State>, i: nat, k: nat, until: int, column: DH.PoolDepth -> int,
                                view: map<int, Agg.Answer>, outs: seq<Agg.Answer>, res: Agg.Answer, pool: string)
    requires env.Valid() && TimesGrow(env) && IsRun(env, run) && i < |run|
    requires k <= Durable(run[i].tables) <= |env.blocks| && SplitsAt(env, k, Durable(run[i].tables), until)
    requires var rows := RawRows(Entries(RowsIn(run[i].tables, DEPTHS)), column);
             && 0 <= until && Agg.DayView(rows, view)
             && Agg.Answers(rows, view, Agg.UnionParts(0, until), outs) && Agg.Combined(outs, res)
    ensures var (asset, rune, synth) := Current(After(env, k), pool);
            if pool in res then res[pool].last == column(DH.PoolDepth(asset, rune, synth))
            else asset == 0 && rune == 0 && synth == 0
  {
    hide After, DH.LatestIn, Agg.DayView, Agg.Answers, Agg.Combined, Agg.UnionParts, RawRows, IsRun;
    RunKeepsDates(env, run, i);
    var log := RowsIn(run[i].tables, DEPTHS);
    assert ReadAt(log, pool, until) == Current(After(env, k), pool);
    hide ReadsAsOf;
    if log == [] {
      assert Entries(log) == [];
    } else {
      DatedEntries(log, env.blocks[Durable(run[i].tables) - 1].time);
    }
    hide Dated;
    UnionReadsTheLatest(Entries(log), column, view, until, outs, res, pool);
  }
}
