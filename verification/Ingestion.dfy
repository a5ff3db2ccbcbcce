// Ingestion as a protocol over volatile and durable state, with crashes and restarts at any point.
// Source: cmd/midgard/blockwriter.go, internal/timeseries/timeseries.go

module Ingestion {
  import opened PoolDepths
  import opened Tables
  import opened Blocks
  import opened Recording
  import opened Mux
  import opened DepthLog
  import opened GoInt

  const LOG := Target("block_log", ["height", "timestamp", "hash", "agg_state"])

  /** The chain (heights 1, 2, ...), how it is interpreted, and the configuration. */
  datatype Env = Env(blocks: seq<Block>, decoder: Decoder, rules: Rules,
                     batchSize: pos, immediate: bool, hardForkHeight: int, capacity: nat) {
    ghost predicate Valid() {
      && (forall i | 0 <= i < |blocks| :: blocks[i].height == i + 1)
      && 0 <= hardForkHeight
    }
  }

  // ---- One uninterrupted run ----

  /** The depths after the first `n` blocks. */
  ghost function After(env: Env, n: nat): Depths
    requires n <= |env.blocks|
  {
    if n == 0 then NO_DEPTHS
    else RunBlock(env.decoder, env.rules, env.blocks[n - 1], Ledger(After(env, n - 1), [], [])).depths
  }

  /** The event rows of the first `n` blocks. */
  ghost function EventRows(env: Env, n: nat): seq<Row<Values>>
    requires n <= |env.blocks|
  {
    if n == 0 then []
    else EventRows(env, n - 1) +
         RunBlock(env.decoder, env.rules, env.blocks[n - 1], Ledger(After(env, n - 1), [], [])).rows
  }

  // ---- The state ----

  datatype Track = Track(height: int, timestamp: int)

  /**
   * Where the block writer is: ready for the next block, about to flush, flushed but not yet
   * published as the last committed block, or waiting at the hard fork.
   */
  datatype Phase = Ready | Flushing | Publishing | AtFork

  datatype Volatile = Volatile(
    depths: Depths,
    snapshot: Depths,
    pending: seq<Row<Values>>,
    lastProcessed: Track,
    committed: Track,
    firstBlock: int,
    nextFetch: int,
    channel: seq<Block>,
    phase: Phase)

  datatype State = State(tables: Tables<Values>, process: Option<Volatile>)

  /** The commit rule of the block writer. */
  predicate Commits(env: Env, height: int, synced: bool) {
    || env.immediate
    || synced
    || height % env.batchSize == 0
    || (env.hardForkHeight != 0 && height == env.hardForkHeight)
  }

  /** A block is flushed when it is committed, or when it is the first block. */
  predicate Persists(commit: bool, firstBlock: int, height: int) {
    commit || firstBlock == 0 || height <= firstBlock
  }

  /** The rows that processing a block inserts, given the rows of the events and of the depth log. */
  function BlockRows(b: Block, persist: bool, now: Depths, events: seq<Row<Values>>,
                     changes: seq<Row<Values>>): seq<Row<Values>> {
    events + [Row(LOG, LogRow(b.height, b.time, if persist then Some(now) else None))] + changes
  }

  // ---- The steps ----

  /** The fetcher puts the next block of the chain on the channel. */
  ghost predicate Fetch(env: Env, s: State, s': State) {
    && s.process.Some?
    && var v := s.process.value;
    && 1 <= v.nextFetch <= |env.blocks| && |v.channel| < env.capacity
    && s' == s.(process := Some(v.(channel := v.channel + [env.blocks[v.nextFetch - 1]], nextFetch := v.nextFetch + 1)))
  }

  /** The writer takes a block that is beyond the hard fork: it stops. */
  ghost predicate Refuse(env: Env, s: State, s': State) {
    && s.process.Some?
    && var v := s.process.value;
    && v.phase == Ready && v.channel != []
    && env.hardForkHeight != 0 && env.hardForkHeight < v.channel[0].height
    && s' == s.(process := Some(v.(channel := v.channel[1..], phase := AtFork)))
  }

  /** The state after the head of the channel has been recorded in memory. */
  ghost function Recorded(env: Env, v: Volatile, persist: bool, changes: seq<Row<Values>>): Volatile
    requires v.channel != []
  {
    var b := v.channel[0];
    var l := RunBlock(env.decoder, env.rules, b, Ledger(v.depths, [], []));
    v.(depths := l.depths,
       snapshot := l.depths,
       pending := v.pending + BlockRows(b, persist, l.depths, l.rows, changes),
       lastProcessed := Track(b.height, b.time),
       channel := v.channel[1..],
       phase := if persist then Flushing else Ready)
  }

  /** The writer records a block in memory: depths, change log snapshot, pending rows. */
  ghost predicate Work(env: Env, s: State, synced: bool, changes: seq<Row<Values>>, s': State) {
    && s.process.Some?
    && var v := s.process.value;
    && v.phase == Ready && v.channel != []
    && var b := v.channel[0];
    && (env.hardForkHeight == 0 || b.height <= env.hardForkHeight)
    && var persist := Persists(Commits(env, b.height, synced), v.firstBlock, b.height);
    && ChangeRows(v.snapshot,
                  RunBlock(env.decoder, env.rules, b, Ledger(v.depths, [], [])).depths, b.time, changes)
    && s' == s.(process := Some(Recorded(env, v, persist, changes)))
  }

  /** The pending rows reach the tables in one transaction. */
  ghost predicate Flush(env: Env, s: State, s': State) {
    && s.process.Some?
    && var v := s.process.value;
    && v.phase == Flushing
    && s' == State(PutAll(s.tables, v.pending), Some(v.(pending := [], phase := Publishing)))
  }

  ghost function Published(env: Env, v: Volatile): Volatile {
    v.(committed := v.lastProcessed,
       firstBlock := if v.firstBlock == 0 then v.lastProcessed.height else v.firstBlock,
       phase := if env.hardForkHeight != 0 && env.hardForkHeight <= v.lastProcessed.height then AtFork else Ready)
  }

  /** The flushed block becomes the last committed one; at the hard fork the writer stops. */
  ghost predicate Publish(env: Env, s: State, s': State) {
    && s.process.Some?
    && var v := s.process.value;
    && v.phase == Publishing
    && s' == s.(process := Some(Published(env, v)))
  }

  /** The process dies, for any reason: a failed flush, a signal, a bug. */
  ghost predicate Crash(env: Env, s: State, s': State) {
    s.process.Some? && s' == s.(process := None)
  }

  /** The last row of the block log. */
  function LastLogRow(tables: Tables<Values>): Option<Values> {
    var log := RowsIn(tables, LOG);
    if log == [] then None else Some(log[|log| - 1])
  }

  /** Setup: what is in memory comes from the last durable row, or is empty when there is none. */
  ghost predicate Setup(tables: Tables<Values>, v: Volatile) {
    && v.snapshot == NO_DEPTHS && v.pending == [] && v.channel == [] && v.phase == Ready
    && v.nextFetch == v.committed.height + 1 && v.lastProcessed == v.committed
    && match LastLogRow(tables)
       case None => v.depths == NO_DEPTHS && v.committed == Track(0, 0)
       case Some(row) =>
         && row.LogRow? && row.aggState.Some?
         && v.depths == row.aggState.value && v.committed == Track(row.height, row.timestamp)
  }

  ghost predicate Restart(env: Env, s: State, s': State) {
    s.process.None? && s'.process.Some? && s'.tables == s.tables && Setup(s.tables, s'.process.value)
  }

  ghost predicate Next(env: Env, s: State, s': State) {
    || Fetch(env, s, s')
    || Refuse(env, s, s')
    || (exists synced, changes :: Work(env, s, synced, changes, s'))
    || Flush(env, s, s')
    || Publish(env, s, s')
    || Crash(env, s, s')
    || Restart(env, s, s')
  }

  ghost predicate IsRun(env: Env, run: seq<State>) {
    && run != [] && run[0] == State(map[], None)
    && forall i | 0 <= i < |run| - 1 :: Next(env, run[i], run[i + 1])
  }

  // ---- The invariant ----

  /** The block log is a gapless prefix of the chain. */
  ghost predicate LogsPrefix(env: Env, log: seq<Values>, n: nat)
    requires n <= |env.blocks|
  {
    |log| == n && forall i | 0 <= i < n ::
      log[i].LogRow? && log[i].height == env.blocks[i].height && log[i].timestamp == env.blocks[i].time
  }

  /** Every other table but the depth log holds the event rows of that prefix. */
  ghost predicate HoldsEvents(env: Env, tables: Tables<Values>, n: nat)
    requires n <= |env.blocks|
  {
    forall t | t != LOG && t != DEPTHS :: RowsIn(tables, t) == RowsFor(EventRows(env, n), t)
  }

  /** The tables hold what an uninterrupted run over the first `n` blocks has to say. */
  ghost predicate Consistent(env: Env, tables: Tables<Values>, n: nat)
    requires n <= |env.blocks|
  {
    && LogsPrefix(env, RowsIn(tables, LOG), n)
    && Replays(RowsIn(tables, DEPTHS), After(env, n))
    && HoldsEvents(env, tables, n)
  }

  /** Moreover the last row is a commit block that carries the depths after it. */
  ghost predicate Committed(env: Env, tables: Tables<Values>, n: nat)
    requires n <= |env.blocks|
  {
    && Consistent(env, tables, n)
    && (n > 0 ==> RowsIn(tables, LOG)[n - 1].aggState == Some(After(env, n)))
  }

  function Durable(tables: Tables<Values>): nat {
    |RowsIn(tables, LOG)|
  }

  /** A height at which the writer has to flush, whatever else happens. */
  predicate Due(env: Env, h: nat) {
    env.immediate || h % env.batchSize == 0 || (env.hardForkHeight != 0 && h == env.hardForkHeight)
  }

  /** What is in memory only: no block that had to be flushed, and nothing at all before the first flush. */
  ghost predicate Owed(env: Env, n: nat, v: Volatile) {
    && n <= v.lastProcessed.height
    && (v.phase == Ready ==>
          && (forall h: nat | n < h <= v.lastProcessed.height :: !Due(env, h))
          && (v.firstBlock == 0 ==> n == v.lastProcessed.height))
    && (v.phase == AtFork ==> n == v.lastProcessed.height)
    && (v.phase == Flushing || v.phase == Publishing ==> 0 < v.lastProcessed.height)
  }

  /** Height and time of the `n`-th block. */
  ghost function TrackOf(env: Env, n: nat): Track
    requires n <= |env.blocks|
  {
    if n == 0 then Track(0, 0) else Track(n, env.blocks[n - 1].time)
  }

  ghost predicate MemoryInv(env: Env, tables: Tables<Values>, v: Volatile) {
    var all := PutAll(tables, v.pending);
    var m := Durable(all);
    && m <= |env.blocks| && (env.hardForkHeight != 0 ==> m <= env.hardForkHeight)
    && Consistent(env, all, m)
    && v.depths == After(env, m)
    && (v.snapshot == v.depths || v.snapshot == NO_DEPTHS)
    && v.lastProcessed == TrackOf(env, m)
    && Owed(env, Durable(tables), v)
    && (v.phase != AtFork ==>
          && v.nextFetch == m + |v.channel| + 1
          && m + |v.channel| <= |env.blocks| && v.channel == env.blocks[m..m + |v.channel|])
    && (v.phase == Flushing ==> Committed(env, all, m))
    && (v.phase == Publishing ==> v.pending == [])
    && (v.phase == Ready || v.phase == Flushing ==> v.committed == TrackOf(env, Durable(tables)))
  }

  ghost predicate Inv(env: Env, s: State) {
    && var n := Durable(s.tables);
    && n <= |env.blocks| && (env.hardForkHeight != 0 ==> n <= env.hardForkHeight)
    && Committed(env, s.tables, n)
    && (s.process.Some? ==> MemoryInv(env, s.tables, s.process.value))
  }

  // ---- The invariant is kept ----

  lemma LogRowsOnly(row: Row<Values>, t: Target)
    ensures RowsFor([row], t) == if row.target == t then [row.values] else []
  {
    assert [row][..0] == [];
  }

  lemma {:induction false} NoRowsFor(rows: seq<Row<Values>>, t: Target)
    requires forall row <- rows :: row.target != t
    ensures RowsFor(rows, t) == []
  {
    if rows != [] {
      NoRowsFor(rows[..|rows| - 1], t);
    }
  }

  lemma {:induction false} OnlyRowsFor(rows: seq<Row<Values>>, t: Target)
    requires forall row <- rows :: row.target == t
    ensures RowsFor(rows, t) == ValuesOf(rows)
  {
    if rows != [] {
      OnlyRowsFor(rows[..|rows| - 1], t);
      assert ValuesOf(rows) == ValuesOf(rows[..|rows| - 1]) + [rows[|rows| - 1].values];
    }
  }

  /** What a block adds to the block log, to the depth log and to any other table. */
  lemma RowsOfBlock(b: Block, persist: bool, now: Depths, events: seq<Row<Values>>, changes: seq<Row<Values>>)
    requires forall row <- events :: row.target != LOG && row.target != DEPTHS
    requires forall row <- changes :: row.target == DEPTHS
    ensures var rows := BlockRows(b, persist, now, events, changes);
            && RowsFor(rows, LOG) == [LogRow(b.height, b.time, if persist then Some(now) else None)]
            && RowsFor(rows, DEPTHS) == ValuesOf(changes)
            && forall t | t != LOG && t != DEPTHS :: RowsFor(rows, t) == RowsFor(events, t)
  {
    var logRow: Row<Values> := Row(LOG, LogRow(b.height, b.time, if persist then Some(now) else None));
    forall t: Target
      ensures RowsFor(BlockRows(b, persist, now, events, changes), t) ==
              RowsFor(events, t) + RowsFor([logRow], t) + RowsFor(changes, t)
    {
      RowsForConcat(events, [logRow], t);
      RowsForConcat(events + [logRow], changes, t);
    }
    NoRowsFor(events, LOG);
    NoRowsFor(events, DEPTHS);
    NoRowsFor(changes, LOG);
    OnlyRowsFor(changes, DEPTHS);
    LogRowsOnly(logRow, LOG);
    LogRowsOnly(logRow, DEPTHS);
    forall t | t != LOG && t != DEPTHS
      ensures RowsFor(BlockRows(b, persist, now, events, changes), t) == RowsFor(events, t)
    {
      LogRowsOnly(logRow, t);
      NoRowsFor(changes, t);
    }
  }

  /** What processing the next block inserts. */
  ghost function NextRows(env: Env, m: nat, persist: bool, changes: seq<Row<Values>>): seq<Row<Values>>
    requires m < |env.blocks|
  {
    var l := RunBlock(env.decoder, env.rules, env.blocks[m], Ledger(After(env, m), [], []));
    BlockRows(env.blocks[m], persist, l.depths, l.rows, changes)
  }

  lemma NextRowsPerTable(env: Env, m: nat, persist: bool, changes: seq<Row<Values>>)
    requires m < |env.blocks|
    requires forall row <- changes :: row.target == DEPTHS
    ensures var rows, b := NextRows(env, m, persist, changes), env.blocks[m];
            && RowsFor(rows, LOG) == [LogRow(b.height, b.time, if persist then Some(After(env, m + 1)) else None)]
            && RowsFor(rows, DEPTHS) == ValuesOf(changes)
            && forall t | t != LOG && t != DEPTHS ::
                 RowsFor(EventRows(env, m + 1), t) == RowsFor(EventRows(env, m), t) + RowsFor(rows, t)
    ensures After(env, m).Pools() <= After(env, m + 1).Pools()
  {
    var b, d := env.blocks[m], After(env, m);
    var l := RunBlock(env.decoder, env.rules, b, Ledger(d, [], []));
    TraceKeepsBalance(d, env.decoder, env.rules, b, BlockTrace(b), Ledger(d, [], []));
    hide RunBlock, RunTrace, BlockTrace;
    PoolsOnlyGrow(d, l.effects);
    RowsOfBlock(b, persist, l.depths, l.rows, changes);
    forall t | t != LOG && t != DEPTHS
      ensures RowsFor(EventRows(env, m + 1), t)
              == RowsFor(EventRows(env, m), t) + RowsFor(NextRows(env, m, persist, changes), t)
    {
      RowsForConcat(EventRows(env, m), l.rows, t);
    }
  }

  lemma EventsGrow(env: Env, all: Tables<Values>, m: nat, persist: bool, changes: seq<Row<Values>>)
    requires m < |env.blocks| && HoldsEvents(env, all, m)
    requires forall row <- changes :: row.target == DEPTHS
    ensures HoldsEvents(env, PutAll(all, NextRows(env, m, persist, changes)), m + 1)
  {
    var rows := NextRows(env, m, persist, changes);
    NextRowsPerTable(env, m, persist, changes);
    hide EventRows, NextRows, RowsFor, PutAll;
    forall t | t != LOG && t != DEPTHS
      ensures RowsIn(PutAll(all, rows), t) == RowsFor(EventRows(env, m + 1), t)
    {
      PutAllAppends(all, rows, t);
    }
  }

  lemma LogGrows(env: Env, all: Tables<Values>, m: nat, persist: bool, changes: seq<Row<Values>>)
    requires m < |env.blocks| && LogsPrefix(env, RowsIn(all, LOG), m)
    requires forall row <- changes :: row.target == DEPTHS
    ensures var log := RowsIn(PutAll(all, NextRows(env, m, persist, changes)), LOG);
            && LogsPrefix(env, log, m + 1)
            && (persist ==> log[m].aggState == Some(After(env, m + 1)))
  {
    hide After, NextRows, RowsFor, PutAll, EventRows, RowsIn;
    NextRowsPerTable(env, m, persist, changes);
    PutAllAppends(all, NextRows(env, m, persist, changes), LOG);
    var b := env.blocks[m];
    PrefixGrows(env, RowsIn(all, LOG), m, LogRow(b.height, b.time, if persist then Some(After(env, m + 1)) else None));
  }

  lemma PrefixGrows(env: Env, log: seq<Values>, m: nat, row: Values)
    requires m < |env.blocks| && LogsPrefix(env, log, m)
    requires row.LogRow? && row.height == env.blocks[m].height && row.timestamp == env.blocks[m].time
    ensures LogsPrefix(env, log + [row], m + 1) && (log + [row])[m] == row
  {
  }

  /** Processing the next block takes consistent tables to consistent tables. */
  lemma BlockKeepsConsistency(env: Env, all: Tables<Values>, m: nat, snapshot: Depths, persist: bool,
                              changes: seq<Row<Values>>)
    requires m < |env.blocks| && Consistent(env, all, m)
    requires snapshot == After(env, m) || snapshot == NO_DEPTHS
    requires ChangeRows(snapshot, After(env, m + 1), env.blocks[m].time, changes)
    ensures var all' := PutAll(all, NextRows(env, m, persist, changes));
            Consistent(env, all', m + 1) && (persist ==> Committed(env, all', m + 1))
  {
    hide After, NextRows, RowsFor, PutAll, LogsPrefix, HoldsEvents, Replays, RunBlock, EventRows, Changed;
    LogGrows(env, all, m, persist, changes);
    EventsGrow(env, all, m, persist, changes);
    NextRowsPerTable(env, m, persist, changes);
    PutAllAppends(all, NextRows(env, m, persist, changes), DEPTHS);
    UpdateKeepsReplay(RowsIn(all, DEPTHS), After(env, m), snapshot, After(env, m + 1), env.blocks[m].time, changes);
  }

  lemma NextBlock(env: Env, m: nat, persist: bool, changes: seq<Row<Values>>)
    requires m < |env.blocks|
    ensures var l := RunBlock(env.decoder, env.rules, env.blocks[m], Ledger(After(env, m), [], []));
            && l.depths == After(env, m + 1)
            && BlockRows(env.blocks[m], persist, l.depths, l.rows, changes) == NextRows(env, m, persist, changes)
  {
  }

  lemma LengthOfLog(env: Env, log: seq<Values>, n: nat)
    requires n <= |env.blocks| && LogsPrefix(env, log, n)
    ensures |log| == n
  {
  }

  /** A block that need not be flushed, and is not, adds no height at which a flush is due. */
  lemma WorkKeepsOwed(env: Env, v: Volatile, n: nat, synced: bool, persist: bool, changes: seq<Row<Values>>)
    requires env.Valid() && Owed(env, n, v) && v.phase == Ready && v.channel != []
    requires v.channel[0].height == v.lastProcessed.height + 1
    requires persist == Persists(Commits(env, v.channel[0].height, synced), v.firstBlock, v.channel[0].height)
    ensures Owed(env, n, Recorded(env, v, persist, changes))
  {
    hide RunBlock, BlockRows;
  }

  lemma WorkKeepsInv(env: Env, s: State, synced: bool, changes: seq<Row<Values>>, s': State)
    requires env.Valid() && Inv(env, s) && Work(env, s, synced, changes, s')
    ensures Inv(env, s')
  {
    hide After, RunBlock, NextRows, BlockRows, PutAll, Commits, ChangeRows, LogsPrefix, HoldsEvents, Replays;
    var v := s.process.value;
    var all := PutAll(s.tables, v.pending);
    var m := Durable(all);
    var b := v.channel[0];
    assert b == env.blocks[m];
    var persist := Persists(Commits(env, b.height, synced), v.firstBlock, b.height);
    WorkKeepsOwed(env, v, Durable(s.tables), synced, persist, changes);
    hide Owed;
    NextBlock(env, m, persist, changes);
    BlockKeepsConsistency(env, all, m, v.snapshot, persist, changes);
    PutAllConcat(s.tables, v.pending, NextRows(env, m, persist, changes));
    LengthOfLog(env, RowsIn(PutAll(all, NextRows(env, m, persist, changes)), LOG), m + 1);
  }

  lemma RestartKeepsInv(env: Env, s: State, s': State)
    requires env.Valid() && Inv(env, s) && Restart(env, s, s')
    ensures Inv(env, s')
  {
    hide RunBlock, EventRows, HoldsEvents, Replays;
    var v := s'.process.value;
    assert PutAll(s.tables, v.pending) == s.tables;
  }

  lemma OwedAtFork(env: Env, n: nat, v: Volatile)
    requires Owed(env, n, v) && v.phase == Ready && v.lastProcessed.height == env.hardForkHeight != 0
    ensures n == v.lastProcessed.height
  {
    assert Due(env, v.lastProcessed.height);
  }

  lemma FetchKeepsInv(env: Env, s: State, s': State)
    requires env.Valid() && Inv(env, s) && (Fetch(env, s, s') || Refuse(env, s, s'))
    ensures Inv(env, s')
  {
    hide Consistent, Committed, After, PutAll;
    if Refuse(env, s, s') {
      var v := s.process.value;
      assert v.channel[0] == env.blocks[v.lastProcessed.height];
      OwedAtFork(env, Durable(s.tables), v);
    }
  }

  lemma FlushKeepsInv(env: Env, s: State, s': State)
    requires env.Valid() && Inv(env, s) && (Flush(env, s, s') || Publish(env, s, s'))
    ensures Inv(env, s')
  {
    hide Consistent, After, RunBlock, EventRows;
    assert PutAll(s'.tables, s'.process.value.pending) == s'.tables;
    hide PutAll;
  }

  lemma NextKeepsInv(env: Env, s: State, s': State)
    requires env.Valid() && Inv(env, s) && Next(env, s, s')
    ensures Inv(env, s')
  {
    if Fetch(env, s, s') || Refuse(env, s, s') {
      FetchKeepsInv(env, s, s');
    } else if Flush(env, s, s') || Publish(env, s, s') {
      FlushKeepsInv(env, s, s');
    } else if Restart(env, s, s') {
      RestartKeepsInv(env, s, s');
    } else if !Crash(env, s, s') {
      var synced, changes :| Work(env, s, synced, changes, s');
      WorkKeepsInv(env, s, synced, changes, s');
    }
  }

  lemma {:induction false} RunKeepsInv(env: Env, run: seq<State>, i: nat)
    requires env.Valid() && IsRun(env, run) && i < |run|
    ensures Inv(env, run[i])
  {
    if i == 0 {
      assert Latest([], "") == (0, 0, 0);
    } else {
      RunKeepsInv(env, run, i - 1);
      NextKeepsInv(env, run[i - 1], run[i]);
    }
  }

  // ---- What every run keeps ----

  /**
   * In every state of every run the block log is a gapless prefix of the chain whose last row is a
   * commit block with a saved snapshot, nothing beyond the hard fork is in it, the event tables are
   * those of an uninterrupted run over that prefix, and the depth log replays to its depths.
   */
  lemma DurableStateIsACommittedPrefix(env: Env, run: seq<State>, i: nat)
    requires env.Valid() && IsRun(env, run) && i < |run|
    ensures var tables := run[i].tables;
            var n := Durable(tables);
            && n <= |env.blocks| && (env.hardForkHeight != 0 ==> n <= env.hardForkHeight)
            && (forall k | 0 <= k < n :: RowsIn(tables, LOG)[k].LogRow? && RowsIn(tables, LOG)[k].height == k + 1)
            && (n > 0 ==> RowsIn(tables, LOG)[n - 1].aggState == Some(After(env, n)))
            && Replays(RowsIn(tables, DEPTHS), After(env, n))
            && forall t | t != LOG && t != DEPTHS :: RowsIn(tables, t) == RowsFor(EventRows(env, n), t)
  {
    RunKeepsInv(env, run, i);
  }

  /** Setup never meets a malformed snapshot, restores exactly the depths, and resumes at the next height. */
  lemma RestartRestoresTheDepths(env: Env, run: seq<State>, i: nat)
    requires env.Valid() && IsRun(env, run) && i + 1 < |run| && Restart(env, run[i], run[i + 1])
    ensures var n := Durable(run[i].tables);
            var v := run[i + 1].process.value;
            n <= |env.blocks| && v.depths == After(env, n) && v.nextFetch == n + 1
  {
    hide Replays, HoldsEvents, IsRun, RunBlock, EventRows;
    RunKeepsInv(env, run, i);
  }

  /** A dead process can always be set up again. */
  lemma RestartIsPossible(env: Env, run: seq<State>, i: nat) returns (s': State)
    requires env.Valid() && IsRun(env, run) && i < |run| && run[i].process.None?
    ensures Next(env, run[i], s')
  {
    hide IsRun, HoldsEvents, Replays, RunBlock;
    RunKeepsInv(env, run, i);
    var tables := run[i].tables;
    var n := Durable(tables);
    var committed := if n == 0 then Track(0, 0) else Track(n, RowsIn(tables, LOG)[n - 1].timestamp);
    s' := State(tables, Some(Volatile(After(env, n), NO_DEPTHS, [], committed, committed, 0, committed.height + 1, [],
                                      Ready)));
    assert Restart(env, run[i], s');
  }

  /**
   * In every state of every run: what is processed but not yet durable has no height that is a multiple
   * of the batch size or the hard fork, is less than a batch, and is nothing at all for a writer that
   * flushes immediately, has not flushed before, or has stopped at the fork.
   */
  lemma BatchesAreCommitted(env: Env, run: seq<State>, i: nat)
    requires env.Valid() && IsRun(env, run) && i < |run| && run[i].process.Some?
    ensures var n, v := Durable(run[i].tables), run[i].process.value;
            var m := v.lastProcessed.height;
            && n <= m
            && (v.phase == Ready ==>
                  && (forall h: nat | n < h <= m :: h % env.batchSize != 0 && h != env.hardForkHeight)
                  && m - n < env.batchSize
                  && (env.immediate || v.firstBlock == 0 ==> m == n))
            && (v.phase == AtFork ==> m == n)
  {
    RunKeepsInv(env, run, i);
    var n, v := Durable(run[i].tables), run[i].process.value;
    OwedIs(env, n, v);
    hide IsRun, Committed, Consistent, After, PutAll, Owed;
  }

  lemma OwedIs(env: Env, n: nat, v: Volatile)
    requires Owed(env, n, v)
    ensures var m := v.lastProcessed.height;
            && n <= m
            && (v.phase == Ready ==>
                  && (forall h: nat | n < h <= m :: h % env.batchSize != 0 && h != env.hardForkHeight)
                  && m - n < env.batchSize
                  && (env.immediate || v.firstBlock == 0 ==> m == n))
            && (v.phase == AtFork ==> m == n)
  {
    if v.phase == Ready {
      var m: nat := v.lastProcessed.height;
      forall h: nat | n < h <= m
        ensures h % env.batchSize != 0 && h != env.hardForkHeight
      {
        assert !Due(env, h);
      }
      MultipleWithin(m, env.batchSize);
      assert m - m % env.batchSize <= n;
      assert m > n ==> !Due(env, m);
    }
  }

  /**
   * Which blocks are flushed: those of a process in sync as well, and no others; their rows in the block log,
   * and no others, carry the depths.
   */
  lemma FlushedExactlyWhen(env: Env, s: State, synced: bool, changes: seq<Row<Values>>, s': State)
    requires Work(env, s, synced, changes, s')
    ensures var v, h := s.process.value, s.process.value.channel[0].height;
            s'.process.value.phase == (if env.immediate || synced || h % env.batchSize == 0 || v.firstBlock == 0
                                          || h <= v.firstBlock || (h == env.hardForkHeight && h != 0)
                                       then Flushing else Ready)
    ensures var v, b, v' := s.process.value, s.process.value.channel[0], s'.process.value;
            RowsFor(v'.pending, LOG)
            == RowsFor(v.pending, LOG)
               + [LogRow(b.height, b.time, if v'.phase == Flushing then Some(v'.depths) else None)]
  {
    var v, b, v' := s.process.value, s.process.value.channel[0], s'.process.value;
    var d := v.depths;
    var l := RunBlock(env.decoder, env.rules, b, Ledger(d, [], []));
    TraceKeepsBalance(d, env.decoder, env.rules, b, BlockTrace(b), Ledger(d, [], []));
    hide RunBlock, RunTrace, BlockTrace, RowsFor, BlockRows;
    var persist := v'.phase == Flushing;
    RowsOfBlock(b, persist, l.depths, l.rows, changes);
    RowsForConcat(v.pending, BlockRows(b, persist, l.depths, l.rows, changes), LOG);
    hide ChangeRows;
  }

  /** The writer stops right after the last block before the hard fork, and after no other one. */
  lemma StopsAtTheFork(env: Env, run: seq<State>, i: nat)
    requires env.Valid() && IsRun(env, run) && i + 1 < |run|
    requires run[i].process.Some? && Publish(env, run[i], run[i + 1])
    ensures run[i + 1].process.value.phase
            == if run[i].process.value.lastProcessed.height == env.hardForkHeight then AtFork else Ready
  {
    hide After, RunBlock, EventRows, BlockRows, PutAll, Commits, ChangeRows, Replays, HoldsEvents, IsRun;
    RunKeepsInv(env, run, i);
  }

  /** The process has flushed, and remembers a first block that is not in the future. */
  predicate Settled(s: State) {
    s.process.Some? && 0 < s.process.value.firstBlock <= s.process.value.lastProcessed.height
  }

  lemma NextKeepsSettled(env: Env, s: State, s': State)
    requires env.Valid() && Inv(env, s) && Settled(s) && Next(env, s, s')
    ensures s'.process.None? || Settled(s')
  {
    hide After, RunBlock, EventRows, BlockRows, PutAll, Commits, ChangeRows, Replays, Consistent, Committed;
    if Restart(env, s, s') {
      assert false;
    }
  }

  lemma {:induction false} StaysSettled(env: Env, run: seq<State>, i: nat, j: nat)
    requires env.Valid() && IsRun(env, run) && i < j < |run|
    requires run[i].process.Some? && run[i].process.value.firstBlock == 0 && Publish(env, run[i], run[i + 1])
    requires forall k | i < k <= j :: run[k].process.Some?
    ensures Settled(run[j])
  {
    hide Inv, Settled, IsRun, Next, Publish;
    if j == i + 1 {
      PublishSettles(env, run, i);
    } else {
      StaysSettled(env, run, i, j - 1);
      RunKeepsInv(env, run, j - 1);
      StepOfRun(env, run, j - 1);
      NextKeepsSettled(env, run[j - 1], run[j]);
    }
  }

  lemma StepOfRun(env: Env, run: seq<State>, i: nat)
    requires IsRun(env, run) && i + 1 < |run|
    ensures Next(env, run[i], run[i + 1])
  {
    hide Next;
  }

  lemma PublishSettles(env: Env, run: seq<State>, i: nat)
    requires env.Valid() && IsRun(env, run) && i + 1 < |run|
    requires run[i].process.Some? && run[i].process.value.firstBlock == 0 && Publish(env, run[i], run[i + 1])
    ensures Settled(run[i + 1])
  {
    hide After, RunBlock, EventRows, BlockRows, PutAll, Commits, ChangeRows, Replays, HoldsEvents;
    RunKeepsInv(env, run, i);
  }

  /**
   * A process that starts without a first block flushes the first one that it records, and from then on,
   * for as long as it lives, only blocks at which a flush is due, and those recorded in sync.
   */
  lemma OnlyDueBlocksAreFlushed(env: Env, run: seq<State>, i: nat, j: nat, synced: bool, changes: seq<Row<Values>>)
    requires env.Valid() && IsRun(env, run) && i < j && j + 1 < |run|
    requires run[i].process.Some? && run[i].process.value.firstBlock == 0 && Publish(env, run[i], run[i + 1])
    requires forall k | i < k <= j :: run[k].process.Some?
    requires Work(env, run[j], synced, changes, run[j + 1])
    ensures var h := run[j].process.value.channel[0].height;
            run[j + 1].process.value.phase == Flushing
            <==> synced || env.immediate || h % env.batchSize == 0 || (h == env.hardForkHeight && h != 0)
  {
    hide RunBlock, ChangeRows, IsRun, Inv;
    StaysSettled(env, run, i, j);
    MemoryIsThatOfAnUninterruptedRun(env, run, j);
    FlushedExactlyWhen(env, run[j], synced, changes, run[j + 1]);
  }

  /** Memory is always that of an uninterrupted run, and the writer never skips or repeats a block. */
  lemma MemoryIsThatOfAnUninterruptedRun(env: Env, run: seq<State>, i: nat)
    requires env.Valid() && IsRun(env, run) && i < |run| && run[i].process.Some?
    ensures var v := run[i].process.value;
            var m := v.lastProcessed.height;
            && 0 <= m <= |env.blocks| && v.depths == After(env, m) && v.lastProcessed == TrackOf(env, m)
            && Durable(run[i].tables) <= m
            && (v.phase == Ready ==> v.committed == TrackOf(env, Durable(run[i].tables)))
            && (v.phase == Ready && v.channel != [] ==> v.channel[0].height == m + 1)
  {
    hide RunBlock, EventRows, HoldsEvents, Replays, IsRun, After;
    RunKeepsInv(env, run, i);
  }
}
