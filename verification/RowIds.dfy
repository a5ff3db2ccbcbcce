// The ids and times that event rows carry, and the order of the event tables.
// Source: internal/fetch/record/record.go, internal/fetch/record/mux.go

module RowIds {
  import opened PoolDepths
  import opened Tables
  import opened EventIds
  import opened GoInt
  import opened Blocks
  import opened Recording
  import opened Deltas
  import opened Mux
  import opened DepthLog
  import opened Ingestion

  predicate Carries(row: Row<Values>, id: int, time: int) {
    row.values.EventRow? && row.values.eventId == id && row.values.timestamp == time
  }

  predicate AllCarry(rows: seq<Row<Values>>, id: int, time: int) {
    forall row <- rows :: Carries(row, id, time)
  }

  /** Every row of an event carries the event's id and the time of its block. */
  lemma EventRowsCarry(r: Rules, m: Meta, p: Payload, l: Ledger)
    ensures l.rows <= Record(r, m, p, l).rows
    ensures AllCarry(Record(r, m, p, l).rows[|l.rows|..], AsBigint(m.eventId), m.time)
  {
    RecordMeans(r, m, p, l);
    hide AsBigint, Delta, Record;
    assert Record(r, m, p, l).rows[|l.rows|..] == RowsOf(r, m, p, l.depths);
  }

  lemma {:induction false} ItemRowsCarry(r: Rules, m: Meta, ps: seq<Payload>, l: Ledger)
    ensures l.rows <= RecordAll(r, m, ps, l).rows
    ensures AllCarry(RecordAll(r, m, ps, l).rows[|l.rows|..], AsBigint(m.eventId), m.time)
  {
    if ps != [] {
      var front := RecordAll(r, m, ps[..|ps| - 1], l);
      ItemRowsCarry(r, m, ps[..|ps| - 1], l);
      EventRowsCarry(r, m, ps[|ps| - 1], front);
      hide Record, Carries;
      var all := RecordAll(r, m, ps, l).rows;
      assert all[|l.rows|..] == front.rows[|l.rows|..] + all[|front.rows|..];
    }
  }

  /** Row `k` comes from item `from[k]` of a trace: it has that item's id, and rows are in the items' order. */
  ghost predicate Traced(rows: seq<Row<Values>>, from: seq<nat>, t: seq<Stamped>, time: int) {
    && |from| == |rows|
    && (forall k | 0 <= k < |rows| :: from[k] < |t| && Carries(rows[k], AsBigint(t[from[k]].id), time))
    && forall j, k | 0 <= j < k < |rows| :: from[j] <= from[k]
  }

  lemma TracedMore(rows: seq<Row<Values>>, from: seq<nat>, t: seq<Stamped>, s: Stamped, more: seq<Row<Values>>,
                   time: int)
    requires Traced(rows, from, t, time) && AllCarry(more, AsBigint(s.id), time)
    ensures Traced(rows + more, from + seq(|more|, _ => |t|), t + [s], time)
  {
    hide Carries, AsBigint;
  }

  lemma {:induction false} TraceRows(d: Decoder, r: Rules, b: Block, t: seq<Stamped>, l: Ledger)
    returns (from: seq<nat>)
    ensures l.rows <= RunTrace(d, r, b, t, l).rows
    ensures Traced(RunTrace(d, r, b, t, l).rows[|l.rows|..], from, t, b.time)
  {
    from := [];
    if t != [] {
      var front, s := t[..|t| - 1], t[|t| - 1];
      from := TraceRows(d, r, b, front, l);
      var l' := RunTrace(d, r, b, front, l);
      var m := Meta(b.height, b.time, s.id);
      ItemRowsCarry(r, m, Payloads(d, m, s.item), l');
      hide RecordAll, Payloads, AsBigint, Traced, AllCarry;
      var all := RunTrace(d, r, b, t, l).rows;
      TracedMore(l'.rows[|l.rows|..], from, front, s, all[|l'.rows|..], b.time);
      assert all[|l.rows|..] == l'.rows[|l.rows|..] + all[|l'.rows|..] && t == front + [s];
      from := from + seq(|all| - |l'.rows|, _ => |front|);
    }
  }

  /** Every row that a block adds has the id of something that is processed for the block, and its time. */
  lemma BlockRowsCarryIds(d: Decoder, r: Rules, b: Block, l: Ledger)
    ensures l.rows <= RunBlock(d, r, b, l).rows
    ensures forall row <- RunBlock(d, r, b, l).rows[|l.rows|..] ::
              exists s <- BlockTrace(b) :: Carries(row, AsBigint(s.id), b.time)
  {
    var from := TraceRows(d, r, b, BlockTrace(b), l);
    hide RunTrace, BlockTrace, AsBigint, Carries;
    var rows := RunBlock(d, r, b, l).rows[|l.rows|..];
    forall row <- rows
      ensures exists s <- BlockTrace(b) :: Carries(row, AsBigint(s.id), b.time)
    {
      var k :| 0 <= k < |rows| && rows[k] == row;
      assert BlockTrace(b)[from[k]] in BlockTrace(b);
    }
  }

  // ---- Order ----

  /** Ids never decrease along the rows. */
  ghost predicate IdsInOrder(rows: seq<Row<Values>>) {
    && (forall row <- rows :: row.values.EventRow?)
    && forall j, k | 0 <= j < k < |rows| :: rows[j].values.eventId <= rows[k].values.eventId
  }

  /** All rows belong to a block: by the height in their ids, and by their times. */
  predicate OfBlock(row: Row<Values>, b: Block) {
    && row.values.EventRow? && row.values.timestamp == b.time
    && b.height * HEIGHT_SCALE < row.values.eventId < (b.height + 1) * HEIGHT_SCALE
  }

  lemma KeysOfRows(rows: seq<Row<Values>>, from: seq<nat>, t: seq<Stamped>, b: Block)
    requires Traced(rows, from, t, b.time) && Ordered(t)
    requires KeysIn(t, b.height * HEIGHT_SCALE + 1, b.height * HEIGHT_SCALE + HEIGHT_SCALE - 1)
    ensures IdsInOrder(rows) && forall row <- rows :: OfBlock(row, b)
  {
    hide AsBigint;
    forall j, k | 0 <= j < k < |rows|
      ensures rows[j].values.eventId <= rows[k].values.eventId
    {
      assert from[j] < from[k] ==> Key(t[from[j]]) <= Key(t[from[k]]);
    }
    forall row <- rows
      ensures OfBlock(row, b)
    {
      var k :| 0 <= k < |rows| && rows[k] == row;
      assert Key(t[from[k]]) == row.values.eventId;
    }
  }

  /** Within the documented bounds the rows of a block are in the order of their ids. */
  lemma BlockRowsInOrder(d: Decoder, r: Rules, b: Block, l: Ledger)
    requires WithinBounds(b)
    ensures l.rows <= RunBlock(d, r, b, l).rows
    ensures var rows := RunBlock(d, r, b, l).rows[|l.rows|..];
            IdsInOrder(rows) && forall row <- rows :: OfBlock(row, b)
  {
    var from := TraceRows(d, r, b, BlockTrace(b), l);
    IdsNeverDecrease(b);
    hide RunTrace, BlockTrace, Traced, Ordered, KeysIn, IdsInOrder, OfBlock;
    KeysOfRows(RunBlock(d, r, b, l).rows[|l.rows|..], from, BlockTrace(b), b);
  }

  // ---- Every run ----

  ghost predicate AllWithinBounds(env: Env) {
    forall b <- env.blocks :: WithinBounds(b)
  }

  /** A row belongs to one of the first `n` blocks. */
  ghost predicate OfBlocks(env: Env, n: nat, row: Row<Values>) {
    exists i | 0 <= i < n && i < |env.blocks| :: OfBlock(row, env.blocks[i])
  }

  ghost predicate RowsOfBlocks(env: Env, n: nat, rows: seq<Row<Values>>) {
    forall row <- rows :: OfBlocks(env, n, row)
  }

  lemma OrderedRowsConcat(env: Env, n: nat, rows: seq<Row<Values>>, more: seq<Row<Values>>)
    requires env.Valid() && n < |env.blocks|
    requires IdsInOrder(rows) && RowsOfBlocks(env, n, rows)
    requires IdsInOrder(more) && forall row <- more :: OfBlock(row, env.blocks[n])
    ensures IdsInOrder(rows + more) && RowsOfBlocks(env, n + 1, rows + more)
  {
    forall row <- rows
      ensures OfBlocks(env, n + 1, row) && row.values.eventId <= (n + 1) * HEIGHT_SCALE
    {
      assert OfBlocks(env, n, row);
      var i :| 0 <= i < n && OfBlock(row, env.blocks[i]);
      assert (i + 2) * HEIGHT_SCALE <= (n + 1) * HEIGHT_SCALE;
    }
    forall row <- more
      ensures OfBlocks(env, n + 1, row) && (n + 1) * HEIGHT_SCALE < row.values.eventId
    {
    }
    hide OfBlocks, OfBlock;
    forall j, k | 0 <= j < k < |rows + more|
      ensures (rows + more)[j].values.eventId <= (rows + more)[k].values.eventId
    {
      assert j < |rows| ==> (rows + more)[j] in rows;
      assert |rows| <= k ==> (rows + more)[k] in more;
    }
    assert forall row <- rows + more :: row in rows || row in more;
  }

  lemma FirstRowsInOrder(d: Decoder, r: Rules, b: Block, depths: Depths)
    requires WithinBounds(b)
    ensures var rows := RunBlock(d, r, b, Ledger(depths, [], [])).rows;
            IdsInOrder(rows) && forall row <- rows :: OfBlock(row, b)
  {
    BlockRowsInOrder(d, r, b, Ledger(depths, [], []));
    hide RunBlock, IdsInOrder, OfBlock, WithinBounds;
    var rows := RunBlock(d, r, b, Ledger(depths, [], [])).rows;
    assert rows[0..] == rows;
  }

  ghost predicate OrderedUpTo(env: Env, n: nat)
    requires n <= |env.blocks|
  {
    IdsInOrder(EventRows(env, n)) && RowsOfBlocks(env, n, EventRows(env, n))
  }

  lemma EventRowsStep(env: Env, n: nat)
    requires env.Valid() && n < |env.blocks| && WithinBounds(env.blocks[n]) && OrderedUpTo(env, n)
    ensures OrderedUpTo(env, n + 1)
  {
    FirstRowsInOrder(env.decoder, env.rules, env.blocks[n], After(env, n));
    hide RunBlock, OfBlock, WithinBounds, After, IdsInOrder, RowsOfBlocks;
    OrderedRowsConcat(env, n, EventRows(env, n),
                      RunBlock(env.decoder, env.rules, env.blocks[n], Ledger(After(env, n), [], [])).rows);
  }

  lemma {:induction false} EventRowsInOrder(env: Env, n: nat)
    requires env.Valid() && AllWithinBounds(env) && n <= |env.blocks|
    ensures OrderedUpTo(env, n)
  {
    NothingInOrder(env);
    hide OrderedUpTo, WithinBounds;
    if n > 0 {
      EventRowsInOrder(env, n - 1);
      EventRowsStep(env, n - 1);
    }
  }

  lemma NothingInOrder(env: Env)
    ensures OrderedUpTo(env, 0)
  {
    hide RunBlock, After;
  }

  ghost predicate InOrder(vs: seq<Values>) {
    && (forall v <- vs :: v.EventRow?)
    && forall j, k | 0 <= j < k < |vs| :: vs[j].eventId <= vs[k].eventId
  }

  /** One table's share of rows in order is in order. */
  lemma {:induction false} ShareInOrder(rows: seq<Row<Values>>, t: Target)
    requires IdsInOrder(rows)
    ensures InOrder(RowsFor(rows, t)) && forall v <- RowsFor(rows, t) :: Row(t, v) in rows
  {
    if rows != [] {
      var front, last := rows[..|rows| - 1], rows[|rows| - 1];
      ShareInOrder(front, t);
      assert rows == front + [last];
      var vs := RowsFor(front, t);
      forall v <- vs
        ensures v.eventId <= last.values.eventId
      {
        var i :| 0 <= i < |front| && front[i] == Row(t, v);
        assert rows[i] == front[i];
      }
      InOrderMore(vs, last.values);
      hide IdsInOrder, InOrder;
    }
  }

  lemma InOrderMore(vs: seq<Values>, v: Values)
    requires InOrder(vs) && v.EventRow? && forall w <- vs :: w.eventId <= v.eventId
    ensures InOrder(vs + [v])
  {
  }

  /** What a row of an event table says: its id has the height of a durable block, its time is that block's. */
  ghost predicate RowOfChain(env: Env, n: nat, v: Values) {
    && v.EventRow?
    && 1 <= HeightFromEventId(v.eventId) <= n <= |env.blocks|
    && v.timestamp == env.blocks[HeightFromEventId(v.eventId) - 1].time
  }

  lemma TableIs(env: Env, run: seq<State>, i: nat, t: Target)
    requires env.Valid() && IsRun(env, run) && i < |run| && t != LOG && t != DEPTHS
    ensures var n := Durable(run[i].tables);
            n <= |env.blocks| && RowsIn(run[i].tables, t) == RowsFor(EventRows(env, n), t)
  {
    DurableStateIsACommittedPrefix(env, run, i);
    hide EventRows, IsRun, Replays, After, RowsIn, RowsFor;
  }

  /** In every state of every run each event table is in the order of event ids, with the times of their blocks. */
  lemma TablesInOrder(env: Env, run: seq<State>, i: nat, t: Target)
    requires env.Valid() && AllWithinBounds(env) && IsRun(env, run) && i < |run| && t != LOG && t != DEPTHS
    ensures InOrder(RowsIn(run[i].tables, t))
    ensures forall v <- RowsIn(run[i].tables, t) :: RowOfChain(env, Durable(run[i].tables), v)
  {
    var n := Durable(run[i].tables);
    hide EventRows, IsRun, AllWithinBounds, IdsInOrder, InOrder, RowsFor, After;
    TableIs(env, run, i, t);
    EventRowsInOrder(env, n);
    ShareInOrder(EventRows(env, n), t);
    forall v <- RowsIn(run[i].tables, t)
      ensures RowOfChain(env, n, v)
    {
      assert OfBlocks(env, n, Row(t, v));
      RowIsOfChain(env, n, t, v);
    }
    hide RowOfChain;
  }

  lemma RowIsOfChain(env: Env, n: nat, t: Target, v: Values)
    requires env.Valid() && n <= |env.blocks| && OfBlocks(env, n, Row(t, v))
    ensures RowOfChain(env, n, v)
  {
    var k :| 0 <= k < n && OfBlock(Row(t, v), env.blocks[k]);
    HeightOfRow(v.eventId, env.blocks[k].height);
  }

  lemma HeightOfRow(id: int, h: nat)
    requires h * HEIGHT_SCALE < id < (h + 1) * HEIGHT_SCALE
    ensures HeightFromEventId(id) == h
  {
  }
}
