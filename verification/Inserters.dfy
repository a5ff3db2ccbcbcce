// Row inserters: batching with one atomic flush, and one transaction per block with savepoints.
// Source: internal/db/inserter.go

module Tables {

  datatype Option<T> = None | Some(value: T)

  /** What an insert names: a table and the list of columns it fills. */
  datatype Target = Target(table: string, columns: seq<string>)

  datatype Row<V> = Row(target: Target, values: V)

  /** The database: for every insert target its rows in insertion order. */
  type Tables<V> = map<Target, seq<V>>

  function RowsIn<V>(tables: Tables<V>, t: Target): seq<V> {
    if t in tables then tables[t] else []
  }

  function Put<V>(tables: Tables<V>, row: Row<V>): Tables<V> {
    tables[row.target := RowsIn(tables, row.target) + [row.values]]
  }

  function PutAll<V>(tables: Tables<V>, rows: seq<Row<V>>): Tables<V> {
    if rows == [] then tables else Put(PutAll(tables, rows[..|rows| - 1]), rows[|rows| - 1])
  }

  /** The values that a list of rows holds for one target. */
  function RowsFor<V>(rows: seq<Row<V>>, t: Target): seq<V> {
    if rows == [] then []
    else
      RowsFor(rows[..|rows| - 1], t) +
      if rows[|rows| - 1].target == t then [rows[|rows| - 1].values] else []
  }

  lemma {:induction false} PutAllAppends<V>(tables: Tables<V>, rows: seq<Row<V>>, t: Target)
    ensures RowsIn(PutAll(tables, rows), t) == RowsIn(tables, t) + RowsFor(rows, t)
    ensures t in PutAll(tables, rows) <==> t in tables || RowsFor(rows, t) != []
  {
    if rows != [] {
      PutAllAppends(tables, rows[..|rows| - 1], t);
    }
  }

  lemma {:induction false} PutAllConcat<V>(tables: Tables<V>, rows: seq<Row<V>>, more: seq<Row<V>>)
    ensures PutAll(tables, rows + more) == PutAll(PutAll(tables, rows), more)
    decreases |more|
  {
    if more == [] {
      assert rows + more == rows;
    } else {
      assert (rows + more)[..|rows + more| - 1] == rows + more[..|more| - 1];
      PutAllConcat(tables, rows, more[..|more| - 1]);
    }
  }

  lemma {:induction false} RowsForConcat<V>(rows: seq<Row<V>>, more: seq<Row<V>>, t: Target)
    ensures RowsFor(rows + more, t) == RowsFor(rows, t) + RowsFor(more, t)
    decreases |more|
  {
    if more == [] {
      assert rows + more == rows;
    } else {
      assert (rows + more)[..|rows + more| - 1] == rows + more[..|more| - 1];
      RowsForConcat(rows, more[..|more| - 1], t);
    }
  }

  function Flatten<V>(blocks: seq<seq<Row<V>>>): seq<Row<V>> {
    if blocks == [] then [] else Flatten(blocks[..|blocks| - 1]) + blocks[|blocks| - 1]
  }

  /** One commit per block. */
  function PutBlocks<V>(tables: Tables<V>, blocks: seq<seq<Row<V>>>): Tables<V> {
    if blocks == [] then tables
    else PutAll(PutBlocks(tables, blocks[..|blocks| - 1]), blocks[|blocks| - 1])
  }

  /** Committing block by block leaves the same tables as one commit of everything. */
  lemma {:induction false} OneFlushEqualsManyCommits<V>(tables: Tables<V>, blocks: seq<seq<Row<V>>>)
    ensures PutBlocks(tables, blocks) == PutAll(tables, Flatten(blocks))
  {
    if blocks != [] {
      var front, last := blocks[..|blocks| - 1], blocks[|blocks| - 1];
      OneFlushEqualsManyCommits(tables, front);
      PutAllConcat(tables, Flatten(front), last);
    }
  }
}

/** The string that identifies a batch in memory. */
module BatchKeys {
  import opened Tables

  function Join(names: seq<string>, sep: string): string {
    if names == [] then "" else if |names| == 1 then names[0] else names[0] + sep + Join(names[1..], sep)
  }

  function BatchKey(t: Target): string {
    t.table + "(" + Join(t.columns, ",") + ")"
  }

  /** SQL identifiers: no parenthesis in a table name, no comma in a column name, no empty column. */
  predicate Plain(t: Target) {
    '(' !in t.table && forall c <- t.columns :: c != "" && ',' !in c
  }

  lemma SplitAtFirst(a: string, x: string, b: string, y: string, sep: char)
    requires sep !in a && sep !in b && a + [sep] + x == b + [sep] + y
    ensures a == b && x == y
  {
    var s := a + [sep] + x;
    assert s[|a|] == sep && s[|b|] == sep;
    assert forall i | 0 <= i < |a| :: s[i] == a[i];
    assert forall i | 0 <= i < |b| :: s[i] == b[i];
    assert |a| == |b|;
    assert a == s[..|a|] && b == s[..|b|];
    assert x == s[|a| + 1..] && y == s[|b| + 1..];
  }

  lemma {:induction false} JoinInjective(cs: seq<string>, ds: seq<string>)
    requires forall c <- cs :: c != "" && ',' !in c
    requires forall d <- ds :: d != "" && ',' !in d
    requires Join(cs, ",") == Join(ds, ",")
    ensures cs == ds
  {
    CommaInJoin(cs);
    CommaInJoin(ds);
    if |cs| > 1 {
      assert Join(cs, ",") == cs[0] + [','] + Join(cs[1..], ",");
      assert Join(ds, ",") == ds[0] + [','] + Join(ds[1..], ",");
      SplitAtFirst(cs[0], Join(cs[1..], ","), ds[0], Join(ds[1..], ","), ',');
      assert (forall c <- cs[1..] :: c in cs) && (forall d <- ds[1..] :: d in ds);
      JoinInjective(cs[1..], ds[1..]);
      assert cs == [cs[0]] + cs[1..] && ds == [ds[0]] + ds[1..];
    }
  }

  lemma CommaInJoin(cs: seq<string>)
    requires forall c <- cs :: c != "" && ',' !in c
    ensures ',' in Join(cs, ",") <==> |cs| > 1
    ensures Join(cs, ",") == "" <==> cs == []
  {
    if |cs| > 1 {
      assert Join(cs, ",")[|cs[0]|] == ',';
    }
  }

  /** Two plain targets never share a batch. */
  lemma BatchKeyInjective(s: Target, t: Target)
    requires Plain(s) && Plain(t) && BatchKey(s) == BatchKey(t)
    ensures s == t
  {
    var x, y := Join(s.columns, ",") + ")", Join(t.columns, ",") + ")";
    assert BatchKey(s) == s.table + ['('] + x && BatchKey(t) == t.table + ['('] + y;
    SplitAtFirst(s.table, x, t.table, y, '(');
    assert Join(s.columns, ",") == x[..|x| - 1] && Join(t.columns, ",") == y[..|y| - 1];
    JoinInjective(s.columns, t.columns);
  }
}

module Inserters {
  import opened Tables
  import opened BatchKeys

  /** The database; which statements fail, by their number since it was opened, is not up to the program. */
  class Database<V> {
    const fails: nat -> bool
    var tables: Tables<V>
    var statements: nat

    constructor (fails: nat -> bool)
      ensures tables == map[] && statements == 0 && this.fails == fails
    {
      this.fails := fails;
      tables, statements := map[], 0;
    }

    ghost predicate Reliable() {
      forall n: nat :: !fails(n)
    }

    /** None of the statements from number `from` up to number `to` fails. */
    ghost predicate Succeeds(from: nat, to: nat) {
      forall n: nat | from <= n < to :: !fails(n)
    }

    lemma ReliableSucceeds()
      ensures Reliable() ==> forall from: nat, to: nat :: Succeeds(from, to)
    {
    }

    lemma SucceedsOn(from: nat, to: nat)
      requires from <= to
      ensures Succeeds(from, from) && (Succeeds(from, to + 1) <==> Succeeds(from, to) && !fails(to))
      ensures forall n: nat | from <= n < to && fails(n) :: !Succeeds(from, to)
    {
    }

    method Exec() returns (ok: bool)
      modifies this`statements
      ensures ok == !fails(old(statements)) && statements == old(statements) + 1
    {
      ok := !fails(statements);
      statements := statements + 1;
    }
  }

  datatype BatchRows<V> = BatchRows(target: Target, rows: seq<V>)

  type Batches<V> = map<string, BatchRows<V>>

  function RowsOfBatch<V>(batches: Batches<V>, t: Target): seq<V> {
    if BatchKey(t) in batches then batches[BatchKey(t)].rows else []
  }

  /** The batches hold exactly the inserted rows, each under the key of its own target. */
  ghost predicate Groups<V(!new)>(batches: Batches<V>, rows: seq<Row<V>>) {
    && (forall k <- batches :: k == BatchKey(batches[k].target) && Plain(batches[k].target) && batches[k].rows != [])
    && (forall t: Target | Plain(t) :: RowsOfBatch(batches, t) == RowsFor(rows, t))
    && (forall row <- rows :: Plain(row.target))
  }

  class BatchInserter<V(!new)> {
    const db: Database<V>
    var batches: Option<Batches<V>>
    /** The rows inserted since the last flush, in order. */
    ghost var pending: seq<Row<V>>

    ghost predicate Valid()
      reads this
    {
      if batches.None? then pending == [] else Groups(batches.value, pending)
    }

    constructor (db: Database<V>)
      ensures Valid() && this.db == db && batches.None? && pending == []
    {
      this.db := db;
      batches := None;
      pending := [];
    }

    method StartBlock()
      requires Valid()
      modifies this
      ensures Valid() && batches.Some? && pending == old(pending)
    {
      if batches.None? {
        batches := Some(map[]);
      }
    }

    method EndBlock()
      ensures unchanged(this) && unchanged(db)
    {
    }

    /** Writing to a nil map panics, so a block must have been started. */
    method Insert(target: Target, values: V)
      requires Valid() && batches.Some? && Plain(target)
      modifies this
      ensures Valid() && batches.Some? && pending == old(pending) + [Row(target, values)]
    {
      var key := BatchKey(target);
      var brows := if key in batches.value then batches.value[key] else BatchRows(target, []);
      if key in batches.value {
        BatchKeyInjective(target, brows.target);
      }
      brows := brows.(rows := brows.rows + [values]);
      batches := Some(batches.value[key := brows]);
      pending := pending + [Row(target, values)];
      assert pending[..|pending| - 1] == old(pending);
      forall t: Target | Plain(t)
        ensures RowsOfBatch(batches.value, t) == RowsFor(pending, t)
      {
        if BatchKey(t) == key {
          BatchKeyInjective(t, target);
        }
      }
    }

    /** COPY one batch into the transaction's view of the tables; it may fail. */
    method CopyFrom(txn: Tables<V>, batch: BatchRows<V>) returns (ok: bool, txn': Tables<V>)
      modifies db`statements
      ensures ok == !db.fails(old(db.statements)) && db.statements == old(db.statements) + 1
      ensures txn' == if ok then txn[batch.target := RowsIn(txn, batch.target) + batch.rows] else txn
    {
      ok := db.Exec();
      txn' := if ok then txn[batch.target := RowsIn(txn, batch.target) + batch.rows] else txn;
    }

    /** Copies all batches into a transaction, in any order, up to the first copy that fails. */
    method CopyAll(tables: Tables<V>, batches: Batches<V>, ghost rows: seq<Row<V>>) returns (ok: bool, txn: Tables<V>)
      requires Groups(batches, rows)
      modifies db`statements
      ensures ok <==> db.Succeeds(old(db.statements), old(db.statements) + |batches.Keys|)
      ensures ok ==> Merged(tables, batches, {}, txn) && db.statements == old(db.statements) + |batches.Keys|
    {
      hide Groups, Merged, RowsIn, BatchKey, Database.Succeeds;
      NothingMerged(tables, batches);
      db.SucceedsOn(db.statements, db.statements);
      ok, txn := true, tables;
      var left := batches.Keys;
      while left != {}
        invariant left <= batches.Keys && Merged(tables, batches, left, txn)
        invariant db.statements + |left| == old(db.statements) + |batches.Keys|
        invariant ok && old(db.statements) <= db.statements && db.Succeeds(old(db.statements), db.statements)
      {
        var key :| key in left;
        MergeOne(tables, batches, rows, left, key, txn);
        assert |left - {key}| + 1 == |left|;
        db.SucceedsOn(old(db.statements), db.statements);
        db.SucceedsOn(old(db.statements), old(db.statements) + |batches.Keys|);
        ok, txn := CopyFrom(txn, batches[key]);
        if !ok {
          return;
        }
        left := left - {key};
      }
    }

    /**
     * All batches in one transaction. When no copy fails, nor the commit, every row is in the tables as if
     * inserted one by one, and otherwise nothing is; the batches are gone in both cases.
     */
    method Flush() returns (ok: bool)
      requires Valid()
      modifies this, db
      ensures Valid() && batches.None? && pending == []
      ensures db.tables == if ok then PutAll(old(db.tables), old(pending)) else old(db.tables)
      ensures var from, n := old(db.statements), if old(batches).None? then 0 else |old(batches).value.Keys| + 1;
              ok <==> db.Succeeds(from, from + n)
    {
      hide Groups, Merged, RowsIn, Database.Succeeds;
      db.SucceedsOn(db.statements, db.statements);
      if batches.None? {
        return true;
      }
      hide PutAll;
      var todo := batches.value;
      ghost var rows := pending;
      batches, pending := None, [];
      var txn;
      db.SucceedsOn(db.statements, db.statements + |todo.Keys|);
      ok, txn := CopyAll(db.tables, todo, rows);
      if !ok {
        return;
      }
      ok := db.Exec();
      if ok {
        MergedIsPutAll(db.tables, todo, rows, txn);
        db.tables := txn;
      }
    }
  }

  /** What the batches that are no longer left hold for a target. */
  function Copied<V>(batches: Batches<V>, left: set<string>, t: Target): seq<V> {
    var k := BatchKey(t);
    if k in batches && k !in left && batches[k].target == t then batches[k].rows else []
  }

  /** The transaction after copying every batch whose key is no longer left. */
  ghost predicate Merged<V>(tables: Tables<V>, batches: Batches<V>, left: set<string>, txn: Tables<V>) {
    forall t: Target ::
      && RowsIn(txn, t) == RowsIn(tables, t) + Copied(batches, left, t)
      && (t in txn <==> t in tables || Copied(batches, left, t) != [])
  }

  lemma NothingMerged<V>(tables: Tables<V>, batches: Batches<V>)
    ensures Merged(tables, batches, batches.Keys, tables)
  {
  }

  lemma BatchIsGrouped<V(!new)>(batches: Batches<V>, rows: seq<Row<V>>, key: string)
    requires Groups(batches, rows) && key in batches
    ensures key == BatchKey(batches[key].target) && batches[key].rows != []
  {
  }

  lemma MergeOne<V(!new)>(tables: Tables<V>, batches: Batches<V>, rows: seq<Row<V>>, left: set<string>, key: string,
                          txn: Tables<V>)
    requires key in batches && key in left && Merged(tables, batches, left, txn) && Groups(batches, rows)
    ensures Merged(tables, batches, left - {key},
                   txn[batches[key].target := RowsIn(txn, batches[key].target) + batches[key].rows])
  {
    hide Groups, RowsFor, Plain, BatchKey;
    BatchIsGrouped(batches, rows, key);
    var target := batches[key].target;
    var txn' := txn[target := RowsIn(txn, target) + batches[key].rows];
    forall t: Target
      ensures RowsIn(txn', t) == RowsIn(tables, t) + Copied(batches, left - {key}, t)
      ensures t in txn' <==> t in tables || Copied(batches, left - {key}, t) != []
    {
      assert t in txn <==> t in tables || Copied(batches, left, t) != [];
      assert RowsIn(txn, t) == RowsIn(tables, t) + Copied(batches, left, t);
    }
  }

  lemma PlainRowsOnly<V>(rows: seq<Row<V>>, t: Target)
    requires (forall row <- rows :: Plain(row.target)) && !Plain(t)
    ensures RowsFor(rows, t) == []
  {
  }

  lemma MergedIsPutAll<V(!new)>(tables: Tables<V>, batches: Batches<V>, rows: seq<Row<V>>, txn: Tables<V>)
    requires Groups(batches, rows)
    requires Merged(tables, batches, {}, txn)
    ensures txn == PutAll(tables, rows)
  {
    var all := PutAll(tables, rows);
    forall t: Target
      ensures (t in txn <==> t in all) && RowsIn(txn, t) == RowsIn(all, t)
    {
      PutAllAppends(tables, rows, t);
      if Plain(t) {
        assert RowsOfBatch(batches, t) == RowsFor(rows, t);
        if BatchKey(t) in batches {
          BatchKeyInjective(t, batches[BatchKey(t)].target);
        }
      } else {
        PlainRowsOnly(rows, t);
      }
    }
    assert forall t <- txn :: txn[t] == RowsIn(txn, t) && all[t] == RowsIn(all, t);
  }

  /** A transaction: its view of the tables, the state at the savepoint, and whether a statement failed. */
  datatype Txn<V> = Txn(work: Tables<V>, savepoint: Tables<V>, aborted: bool)

  class ImmediateInserter<V> {
    const db: Database<V>
    var txn: Option<Txn<V>>
    /** The rows of the current block whose insert succeeded, in order. */
    ghost var accepted: seq<Row<V>>

    ghost predicate Valid()
      reads this, db
    {
      txn.Some? ==>
        && !txn.value.aborted
        && txn.value.work == txn.value.savepoint == PutAll(db.tables, accepted)
    }

    constructor (db: Database<V>)
      ensures Valid() && this.db == db && txn.None?
    {
      this.db := db;
      txn := None;
      accepted := [];
    }

    method StartBlock()
      requires Valid() && txn.None?
      modifies this
      ensures Valid() && txn.Some? && accepted == []
    {
      txn := Some(Txn(db.tables, db.tables, false));
      accepted := [];
    }

    /** An INSERT; when it fails the transaction accepts nothing but a rollback. */
    method Exec(t: Txn<V>, row: Row<V>) returns (ok: bool, t': Txn<V>)
      requires !t.aborted
      modifies db`statements
      ensures ok == !db.fails(old(db.statements)) && db.statements == old(db.statements) + 1
      ensures t' == if ok then t.(work := Put(t.work, row)) else t.(aborted := true)
    {
      ok := db.Exec();
      t' := if ok then t.(work := Put(t.work, row)) else t.(aborted := true);
    }

    method Insert(target: Target, values: V) returns (ok: bool)
      requires Valid() && txn.Some?
      modifies this, db`statements
      ensures Valid() && txn.Some?
      ensures ok == !db.fails(old(db.statements)) && db.statements == old(db.statements) + 1
      ensures accepted == old(accepted) + if ok then [Row(target, values)] else []
    {
      var t;
      ok, t := Exec(txn.value, Row(target, values));
      txn := Some(t);
      if ok {
        txn := Some(t.(savepoint := t.work));
        accepted := accepted + [Row(target, values)];
        assert accepted[..|accepted| - 1] == old(accepted);
      } else {
        txn := Some(t.(work := t.savepoint, aborted := false));
      }
    }

    /** COMMIT; a failed commit writes nothing. */
    method EndBlock() returns (ok: bool)
      requires Valid() && txn.Some?
      modifies this, db
      ensures Valid() && txn.None?
      ensures ok == !db.fails(old(db.statements))
      ensures db.tables == if ok then PutAll(old(db.tables), old(accepted)) else old(db.tables)
    {
      ok := db.Exec();
      if ok && !txn.value.aborted {
        db.tables := txn.value.work;
      }
      txn := None;
    }

    method Flush()
      requires txn.None?
    {
    }
  }

  // ---- The two inserters side by side ----

  method InsertBlocksInBatch<V(!new)>(ins: BatchInserter<V>, blocks: seq<seq<Row<V>>>) returns (ok: bool)
    requires ins.Valid() && ins.pending == []
    requires forall block <- blocks, row <- block :: Plain(row.target)
    modifies ins, ins.db
    ensures ins.Valid()
    ensures ins.db.tables == if ok then PutAll(old(ins.db.tables), Flatten(blocks)) else old(ins.db.tables)
    ensures ins.db.Reliable() ==> ok
  {
    hide BatchInserter.Valid, Plain, PutAll;
    for i := 0 to |blocks|
      invariant ins.Valid() && ins.pending == Flatten(blocks[..i]) && ins.db.tables == old(ins.db.tables)
    {
      assert blocks[..i + 1][..i] == blocks[..i];
      var block := blocks[i];
      ins.StartBlock();
      for j := 0 to |block|
        invariant ins.Valid() && ins.batches.Some? && ins.db.tables == old(ins.db.tables)
        invariant ins.pending == Flatten(blocks[..i]) + block[..j]
      {
        assert block in blocks && block[j] in block;
        ins.Insert(block[j].target, block[j].values);
      }
      assert block[..|block|] == block;
      ins.EndBlock();
    }
    assert blocks[..|blocks|] == blocks;
    ok := ins.Flush();
  }

  /** Stops at the first insert or commit that fails. */
  method InsertBlocksAtOnce<V(!new)>(ins: ImmediateInserter<V>, blocks: seq<seq<Row<V>>>) returns (ok: bool)
    requires ins.Valid() && ins.txn.None?
    modifies ins, ins.db
    ensures ok ==> ins.db.tables == PutBlocks(old(ins.db.tables), blocks)
    ensures ins.db.Reliable() ==> ok
  {
    hide PutAll;
    for i := 0 to |blocks|
      invariant ins.Valid() && ins.txn.None? && ins.db.tables == PutBlocks(old(ins.db.tables), blocks[..i])
    {
      assert blocks[..i + 1][..i] == blocks[..i];
      var block := blocks[i];
      ins.StartBlock();
      for j := 0 to |block|
        invariant ins.Valid() && ins.txn.Some? && ins.db.tables == PutBlocks(old(ins.db.tables), blocks[..i])
        invariant ins.accepted == block[..j]
      {
        ok := ins.Insert(block[j].target, block[j].values);
        if !ok {
          return;
        }
      }
      assert block[..|block|] == block;
      ok := ins.EndBlock();
      if !ok {
        return;
      }
    }
    assert blocks[..|blocks|] == blocks;
    ok := true;
  }

  /** From equal databases, when nothing fails, both inserters end with the same rows in every table. */
  method BothInserters<V(!new)>(batch: BatchInserter<V>, atOnce: ImmediateInserter<V>, blocks: seq<seq<Row<V>>>)
    returns (ok: bool)
    requires batch.Valid() && batch.pending == [] && atOnce.Valid() && atOnce.txn.None?
    requires batch.db != atOnce.db && batch.db.tables == atOnce.db.tables
    requires forall block <- blocks, row <- block :: Plain(row.target)
    modifies batch, batch.db, atOnce, atOnce.db
    ensures ok ==> batch.db.tables == atOnce.db.tables
    ensures batch.db.Reliable() && atOnce.db.Reliable() ==> ok
  {
    hide BatchInserter.Valid, ImmediateInserter.Valid, Plain, PutAll, PutBlocks, Flatten;
    ghost var tables := batch.db.tables;
    ok := InsertBlocksInBatch(batch, blocks);
    if ok {
      ok := InsertBlocksAtOnce(atOnce, blocks);
      OneFlushEqualsManyCommits(tables, blocks);
    }
  }
}
