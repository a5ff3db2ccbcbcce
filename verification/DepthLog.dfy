// The sparse log of pool depths: a row only for pools that changed in a block.
// Source: internal/timeseries/depthrecorder.go

module DepthLog {
  import opened PoolDepths
  import opened Tables
  import opened Recording

  const DEPTHS := Target("block_pool_depths", ["pool", "asset_e8", "rune_e8", "synth_e8", "block_timestamp"])

  /** Whether the value of a pool differs from the snapshot, and the new value (0 when absent). */
  function DiffAtKey(snapshot: map<string, int>, pool: string, now: map<string, int>): (bool, int) {
    if pool in now then (pool !in snapshot || snapshot[pool] != now[pool], now[pool])
    else (pool in snapshot, 0)
  }

  predicate Changed(was: Depths, now: Depths, pool: string) {
    || DiffAtKey(was.asset, pool, now.asset).0
    || DiffAtKey(was.rune, pool, now.rune).0
    || DiffAtKey(was.synth, pool, now.synth).0
  }

  function DepthRowOf(now: Depths, time: int, pool: string): Row<Values> {
    Row(DEPTHS, DepthRow(pool, now.At(Asset, pool), now.At(Rune, pool), now.At(Synth, pool), time))
  }

  /** One row with all three values for every pool that changed, in any order, and nothing else. */
  ghost predicate ChangeRows(was: Depths, now: Depths, time: int, rows: seq<Row<Values>>) {
    && (forall row <- rows :: row.values.DepthRow? && row == DepthRowOf(now, time, row.values.pool)
                              && Changed(was, now, row.values.pool))
    && (forall pool | Changed(was, now, pool) :: DepthRowOf(now, time, pool) in rows)
    && (forall i, j | 0 <= i < j < |rows| :: rows[i] != rows[j])
  }

  class DepthManager {
    var snapshot: Depths

    constructor ()
      ensures snapshot == NO_DEPTHS
    {
      snapshot := NO_DEPTHS;
    }

    /** The rows to insert; the set of pool names is visited in any order. */
    method Update(time: int, now: Depths) returns (rows: seq<Row<Values>>)
      modifies this
      ensures ChangeRows(old(snapshot), now, time, rows)
      ensures snapshot == now
    {
      rows := [];
      var poolNames := now.Pools() + snapshot.Pools();
      ghost var visited := {};
      while poolNames != {}
        invariant snapshot == old(snapshot)
        invariant poolNames + visited == now.Pools() + snapshot.Pools() && poolNames !! visited
        invariant forall row <- rows :: row.values.DepthRow? && row == DepthRowOf(now, time, row.values.pool)
                                        && Changed(snapshot, now, row.values.pool) && row.values.pool in visited
        invariant forall pool <- visited | Changed(snapshot, now, pool) :: DepthRowOf(now, time, pool) in rows
        invariant forall i, j | 0 <= i < j < |rows| :: rows[i] != rows[j]
        decreases poolNames
      {
        var pool :| pool in poolNames;
        var (assetDiff, assetValue) := DiffAtKey(snapshot.asset, pool, now.asset);
        var (runeDiff, runeValue) := DiffAtKey(snapshot.rune, pool, now.rune);
        var (synthDiff, synthValue) := DiffAtKey(snapshot.synth, pool, now.synth);
        if assetDiff || runeDiff || synthDiff {
          rows := rows + [Row(DEPTHS, DepthRow(pool, assetValue, runeValue, synthValue, time))];
        }
        poolNames := poolNames - {pool};
        visited := visited + {pool};
      }
      snapshot := now;
    }
  }

  /** The latest logged depths of a pool; a pool that was never logged reads as zeros. */
  function Latest(log: seq<Values>, pool: string): (int, int, int) {
    if log == [] then (0, 0, 0)
    else
      var v := log[|log| - 1];
      if v.DepthRow? && v.pool == pool then (v.assetE8, v.runeE8, v.synthE8)
      else Latest(log[..|log| - 1], pool)
  }

  function Current(d: Depths, pool: string): (int, int, int) {
    (d.At(Asset, pool), d.At(Rune, pool), d.At(Synth, pool))
  }

  /** Replaying the log gives the current depths of every pool. */
  ghost predicate Replays(log: seq<Values>, d: Depths) {
    forall pool :: Latest(log, pool) == Current(d, pool)
  }

  function ValuesOf(rows: seq<Row<Values>>): seq<Values> {
    seq(|rows|, i requires 0 <= i < |rows| => rows[i].values)
  }

  lemma {:induction false} LatestAfter(log: seq<Values>, now: Depths, time: int, rows: seq<Row<Values>>, pool: string)
    requires forall row <- rows :: row.values.DepthRow? && row == DepthRowOf(now, time, row.values.pool)
    ensures Latest(log + ValuesOf(rows), pool) ==
            if DepthRowOf(now, time, pool) in rows then Current(now, pool) else Latest(log, pool)
    decreases |rows|
  {
    if rows == [] {
      assert log + ValuesOf(rows) == log;
    } else {
      var front := rows[..|rows| - 1];
      LatestAfter(log, now, time, front, pool);
      assert (log + ValuesOf(rows))[..|log + ValuesOf(rows)| - 1] == log + ValuesOf(front);
      assert rows == front + [rows[|rows| - 1]];
    }
  }

  /**
   * The log still replays to the depths after a block's rows are added, both when the snapshot is the
   * depths before the block and when a restart has emptied it. In the second case it is enough that
   * pools never leave the maps.
   */
  lemma UpdateKeepsReplay(log: seq<Values>, before: Depths, snapshot: Depths, now: Depths, time: int,
                          rows: seq<Row<Values>>)
    requires Replays(log, before) && ChangeRows(snapshot, now, time, rows)
    requires snapshot == before || (snapshot == NO_DEPTHS && before.Pools() <= now.Pools())
    ensures Replays(log + ValuesOf(rows), now)
  {
    forall pool
      ensures Latest(log + ValuesOf(rows), pool) == Current(now, pool)
    {
      LatestAfter(log, now, time, rows, pool);
      if !Changed(snapshot, now, pool) {
        assert Latest(log, pool) == Current(before, pool);
      }
    }
  }

  function Lookup(m: map<string, int>, pool: string): Option<int> {
    if pool in m then Some(m[pool]) else None
  }

  /** Rows are written exactly for pools of which some entry came, went or changed its value. */
  lemma RowsAreSparse(was: Depths, now: Depths, time: int, rows: seq<Row<Values>>, pool: string)
    requires ChangeRows(was, now, time, rows)
    ensures (exists row <- rows :: row.values.pool == pool)
            <==> Lookup(was.asset, pool) != Lookup(now.asset, pool) || Lookup(was.rune, pool) != Lookup(now.rune, pool)
                 || Lookup(was.synth, pool) != Lookup(now.synth, pool)
  {
    if Changed(was, now, pool) {
      assert DepthRowOf(now, time, pool).values.pool == pool;
    }
  }

  /** With block times that grow and at most one row per pool and block, the latest row is the newest. */
  lemma {:induction false} LatestIsNewest(log: seq<Values>, i: nat)
    requires forall v <- log :: v.DepthRow?
    requires forall j, k | 0 <= j < k < |log| ::
               log[j].timestamp <= log[k].timestamp
                 && (log[j].pool == log[k].pool ==> log[j].timestamp < log[k].timestamp)
    requires i < |log| && forall j | 0 <= j < |log| && log[j].pool == log[i].pool ::
               log[j].timestamp <= log[i].timestamp
    ensures Latest(log, log[i].pool) == (log[i].assetE8, log[i].runeE8, log[i].synthE8)
  {
    if i < |log| - 1 {
      LatestIsNewest(log[..|log| - 1], i);
    }
  }
}
