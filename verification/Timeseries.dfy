// The running process: setup from the last durable row, block processing, and the writer's loop.
// Every execution is a run of the protocol in Ingestion.
// Source: internal/timeseries/timeseries.go, cmd/midgard/blockwriter.go

module Timeseries {
  import opened PoolDepths
  import opened Tables
  import opened Inserters
  import opened RT = RunningTotals
  import opened Blocks
  import opened Recording
  import opened Recorders
  import opened Mux
  import opened DepthLog
  import opened Ingestion
  import opened GoInt

  /** States each of which follows from the one before. */
  ghost predicate IsPath(env: Env, run: seq<State>) {
    run != [] && forall i | 0 <= i < |run| - 1 :: Next(env, run[i], run[i + 1])
  }

  ghost predicate Reaches(env: Env, s: State, s': State) {
    exists run: seq<State> | IsPath(env, run) :: run[0] == s && run[|run| - 1] == s'
  }

  lemma ReachesTrans(env: Env, s: State, s': State, s'': State)
    requires Reaches(env, s, s') && Next(env, s', s'')
    ensures Reaches(env, s, s'')
  {
    hide Next;
    var run: seq<State> :| IsPath(env, run) && run[0] == s && run[|run| - 1] == s';
    assert IsPath(env, run + [s'']);
  }

  lemma ReachesChain(env: Env, s: State, s': State, s'': State)
    requires Reaches(env, s, s') && Reaches(env, s', s'')
    ensures Reaches(env, s, s'')
  {
    hide Next;
    var run: seq<State> :| IsPath(env, run) && run[0] == s && run[|run| - 1] == s';
    var more: seq<State> :| IsPath(env, more) && more[0] == s' && more[|more| - 1] == s'';
    var all := run + more[1..];
    forall i | 0 <= i < |all| - 1
      ensures Next(env, all[i], all[i + 1])
    {
      if i < |run| - 1 {
        assert all[i] == run[i] && all[i + 1] == run[i + 1];
      } else {
        assert all[i] == more[i - |run| + 1] && all[i + 1] == more[i - |run| + 2];
      }
    }
    assert IsPath(env, all);
  }

  lemma {:induction false} ReachesKeepsInv(env: Env, s: State, s': State)
    requires env.Valid() && Inv(env, s) && Reaches(env, s, s')
    ensures Inv(env, s')
  {
    var run: seq<State> :| IsPath(env, run) && run[0] == s && run[|run| - 1] == s';
    PathKeepsInv(env, run);
  }

  lemma {:induction false} PathKeepsInv(env: Env, run: seq<State>)
    requires env.Valid() && IsPath(env, run) && Inv(env, run[0])
    ensures Inv(env, run[|run| - 1])
    decreases |run|
  {
    if |run| > 1 {
      var front := run[..|run| - 1];
      assert IsPath(env, front);
      PathKeepsInv(env, front);
      NextKeepsInv(env, run[|run| - 2], run[|run| - 1]);
    }
  }

  lemma ReachesRefl(env: Env, s: State)
    ensures Reaches(env, s, s)
  {
    assert IsPath(env, [s]);
  }

  method RestoreAsset(totals: RunningTotals, asset: map<string, int>)
    requires totals.Valid() && totals.contents.asset == map[]
    modifies totals
    ensures totals.Valid() && fresh(totals.owner.Keys - old(totals.owner.Keys))
    ensures totals.contents == old(totals.contents).(asset := asset)
  {
    hide RunningTotals.Valid;
    var left := asset.Keys;
    while left != {}
      invariant totals.Valid() && left <= asset.Keys && fresh(totals.owner.Keys - old(totals.owner.Keys))
      invariant totals.contents == old(totals.contents).(asset := map k | k in asset && k !in left :: asset[k])
    {
      var pool :| pool in left;
      totals.SetAssetDepth(pool, asset[pool]);
      left := left - {pool};
    }
  }

  method RestoreRune(totals: RunningTotals, rune: map<string, int>)
    requires totals.Valid() && totals.contents.rune == map[]
    modifies totals
    ensures totals.Valid() && fresh(totals.owner.Keys - old(totals.owner.Keys))
    ensures totals.contents == old(totals.contents).(rune := rune)
  {
    hide RunningTotals.Valid;
    var left := rune.Keys;
    while left != {}
      invariant totals.Valid() && left <= rune.Keys && fresh(totals.owner.Keys - old(totals.owner.Keys))
      invariant totals.contents == old(totals.contents).(rune := map k | k in rune && k !in left :: rune[k])
    {
      var pool :| pool in left;
      totals.SetRuneDepth(pool, rune[pool]);
      left := left - {pool};
    }
  }

  method RestoreSynth(totals: RunningTotals, synth: map<string, int>)
    requires totals.Valid() && totals.contents.synth == map[]
    modifies totals
    ensures totals.Valid() && fresh(totals.owner.Keys - old(totals.owner.Keys))
    ensures totals.contents == old(totals.contents).(synth := synth)
  {
    hide RunningTotals.Valid;
    var left := synth.Keys;
    while left != {}
      invariant totals.Valid() && left <= synth.Keys && fresh(totals.owner.Keys - old(totals.owner.Keys))
      invariant totals.contents == old(totals.contents).(synth := map k | k in synth && k !in left :: synth[k])
    {
      var pool :| pool in left;
      totals.SetSynthDepth(pool, synth[pool]);
      left := left - {pool};
    }
  }

  method RestoreDepths(totals: RunningTotals, d: Depths)
    requires totals.Valid() && totals.contents == NO_DEPTHS
    modifies totals
    ensures totals.Valid() && totals.contents == d && fresh(totals.owner.Keys - old(totals.owner.Keys))
  {
    hide RunningTotals.Valid;
    RestoreAsset(totals, d.asset);
    RestoreRune(totals, d.rune);
    RestoreSynth(totals, d.synth);
  }

  /** What may happen next to a process; a round looks at the height that the node last reported. */
  datatype Choice = Arrival | Round(lastThorNodeBlock: int) | Stop

  class Process {
    ghost const env: Env
    const decoder: Decoder
    const batchSize: pos
    const immediate: bool
    const hardForkHeight: int
    const rec: Recorder
    const inserter: BatchInserter<Values>
    const depthRecorder: DepthManager
    var alive: bool
    var phase: Phase
    var lastProcessed: Track
    var committed: Track
    var firstBlock: int
    var nextFetch: int
    var channel: seq<Block>

    ghost predicate Valid()
      reads this, rec, rec.totals, rec.totals.owner.Keys, inserter
    {
      && decoder == env.decoder && batchSize == env.batchSize && immediate == env.immediate
      && hardForkHeight == env.hardForkHeight && rec.rules == env.rules
      && rec.Valid() && inserter.Valid()
      && (phase == Ready || phase == AtFork)
    }

    /** The database never fails. */
    ghost predicate IsReliable() {
      inserter.db.Reliable()
    }

    /** The state of the protocol that this process is in. */
    ghost function View(): State
      reads this, rec, rec.totals, inserter, inserter.db, depthRecorder
    {
      State(inserter.db.tables,
            if alive then
              Some(Volatile(rec.totals.contents, depthRecorder.snapshot, inserter.pending, lastProcessed, committed,
                            firstBlock, nextFetch, channel, phase))
            else None)
    }

    constructor (ghost env: Env, decoder: Decoder, rules: Rules, batchSize: pos, immediate: bool, hardForkHeight: int,
                 db: Database<Values>, totals: RunningTotals, track: Track, firstBlock: int)
      requires totals.Valid()
      requires env == Env(env.blocks, decoder, rules, batchSize, immediate, hardForkHeight, env.capacity)
      ensures Valid() && this.env == env && inserter.db == db && rec.totals == totals
      ensures fresh(rec) && fresh(inserter) && fresh(depthRecorder)
      ensures View() == State(db.tables, Some(Volatile(totals.contents, NO_DEPTHS, [], track, track, firstBlock,
                                                       track.height + 1, [], Ready)))
    {
      this.env := env;
      this.decoder, this.batchSize, this.immediate, this.hardForkHeight := decoder, batchSize, immediate,
        hardForkHeight;
      this.rec := new Recorder(totals, rules);
      this.inserter := new BatchInserter(db);
      this.depthRecorder := new DepthManager();
      this.alive, this.phase := true, Ready;
      this.lastProcessed, this.committed := track, track;
      this.firstBlock, this.nextFetch, this.channel := firstBlock, track.height + 1, [];
    }

    method InsertAll(rows: seq<Row<Values>>)
      requires inserter.Valid() && inserter.batches.Some?
      requires forall row <- rows :: BatchKeys.Plain(row.target)
      modifies inserter
      ensures inserter.Valid() && inserter.batches.Some? && inserter.pending == old(inserter.pending) + rows
    {
      hide BatchInserter.Valid;
      for i := 0 to |rows|
        invariant inserter.Valid() && inserter.batches.Some?
        invariant inserter.pending == old(inserter.pending) + rows[..i]
      {
        inserter.Insert(rows[i].target, rows[i].values);
      }
      assert rows[..|rows|] == rows;
    }

    /** The events of a block: the depths in memory, and their rows in the inserter. */
    method RecordEvents(b: Block)
      requires Valid()
      modifies rec`out, rec`effects, rec.totals, rec.totals.owner.Keys, inserter
      ensures Valid() && inserter.batches.Some? && fresh(rec.totals.owner.Keys - old(rec.totals.owner.Keys))
      ensures var l := RunBlock(env.decoder, env.rules, b, Ledger(old(rec.totals.contents), [], []));
              rec.totals.contents == l.depths && inserter.pending == old(inserter.pending) + l.rows
    {
      hide RunningTotals.Valid, RunTrace, BlockTrace, BatchInserter.Valid;
      inserter.StartBlock();
      rec.StartBlock();
      Mux.ProcessBlock(rec, decoder, b);
      TraceKeepsBalance(old(rec.totals.contents), decoder, rec.rules, b, BlockTrace(b),
                        Ledger(old(rec.totals.contents), [], []));
      InsertAll(rec.out);
    }

    method InMemorySnapshot() returns (now: Depths)
      requires Valid()
      ensures now == rec.totals.contents
    {
      hide RunningTotals.Holds, BatchInserter.Valid;
      var asset := rec.totals.AssetE8DepthPerPool();
      var rune := rec.totals.RuneE8DepthPerPool();
      var synth := rec.totals.SynthE8DepthPerPool();
      now := Depths(asset, rune, synth);
    }

    /** The row of the block log and the rows of the depth log. */
    method RecordDepths(b: Block, persist: bool) returns (ghost changes: seq<Row<Values>>)
      requires Valid() && inserter.batches.Some?
      modifies inserter, depthRecorder
      ensures Valid() && inserter.batches.Some?
      ensures ChangeRows(old(depthRecorder.snapshot), rec.totals.contents, b.time, changes)
      ensures depthRecorder.snapshot == rec.totals.contents
      ensures inserter.pending == old(inserter.pending) + BlockRows(b, persist, rec.totals.contents, [], changes)
    {
      hide RunningTotals.Valid, Recorder.Valid, ChangeRows, BatchInserter.Valid;
      var now := InMemorySnapshot();
      inserter.Insert(LOG, LogRow(b.height, b.time, if persist then Some(now) else None));
      var rows := depthRecorder.Update(b.time, now);
      changes := rows;
      ChangesArePlain(old(depthRecorder.snapshot), now, b.time, rows);
      InsertAll(rows);
    }

    /**
     * Records a block in memory and, when it persists, flushes everything that is pending. A failed
     * flush ends the process with nothing written.
     */
    method ProcessBlock(b: Block, commit: bool) returns (ok: bool, ghost changes: seq<Row<Values>>)
      requires Valid() && alive
      modifies this`committed, this`firstBlock, rec`out, rec`effects, rec.totals, rec.totals.owner.Keys
      modifies inserter, inserter.db, depthRecorder
      ensures Valid() && fresh(rec.totals.owner.Keys - old(rec.totals.owner.Keys))
      ensures IsProcessed(env, b, commit, old(View()), changes, ok, View())
      ensures IsReliable() ==> ok
    {
      hide RunningTotals.Valid, RunBlock, ChangeRows, BatchInserter.Valid, PutAll, IsReliable;
      RecordEvents(b);
      ghost var l := RunBlock(env.decoder, env.rules, b, Ledger(old(rec.totals.contents), [], []));
      var thisIsTheFirstBlock := firstBlock == 0 || b.height <= firstBlock;
      var persist := commit || thisIsTheFirstBlock;
      changes := RecordDepths(b, persist);
      assert inserter.pending == old(inserter.pending) + BlockRows(b, persist, l.depths, l.rows, changes);
      inserter.EndBlock();
      ok := true;
      if persist {
        ok := FlushBlock(b);
      }
    }

    /** Flushes what is pending; the block is then the last committed one, and the first one if there is none yet. */
    method FlushBlock(b: Block) returns (ok: bool)
      requires Valid()
      modifies this`committed, this`firstBlock, inserter, inserter.db
      ensures Valid() && inserter.pending == []
      ensures inserter.db.tables
              == if ok then PutAll(old(inserter.db.tables), old(inserter.pending)) else old(inserter.db.tables)
      ensures committed == if ok then Track(b.height, b.time) else old(committed)
      ensures firstBlock == if ok && old(firstBlock) == 0 then b.height else old(firstBlock)
      ensures IsReliable() ==> ok
    {
      hide RunningTotals.Valid, BatchInserter.Valid, PutAll, Database.Succeeds;
      inserter.db.ReliableSucceeds();
      ok := inserter.Flush();
      if ok {
        committed := Track(b.height, b.time);
        if firstBlock == 0 {
          firstBlock := b.height;
        }
      }
    }

    /** What a block changes: depths and snapshot, the pending rows, and on a flush the tables and what is committed. */
    static ghost predicate IsProcessed(env: Env, b: Block, commit: bool, s: State, changes: seq<Row<Values>>, ok: bool,
                                       s': State) {
      && s.process.Some?
      && var v := s.process.value;
      && var l := RunBlock(env.decoder, env.rules, b, Ledger(v.depths, [], []));
      && var persist := Persists(commit, v.firstBlock, b.height);
      && var all := v.pending + BlockRows(b, persist, l.depths, l.rows, changes);
      && var v' := v.(depths := l.depths, snapshot := l.depths);
      && ChangeRows(v.snapshot, l.depths, b.time, changes) && (!persist ==> ok)
      && s' == if !persist then State(s.tables, Some(v'.(pending := all)))
               else if !ok then State(s.tables, Some(v'.(pending := [])))
               else State(PutAll(s.tables, all),
                          Some(v'.(pending := [], committed := Track(b.height, b.time),
                                   firstBlock := if v.firstBlock == 0 then b.height else v.firstBlock)))
    }

    /** The fetcher delivers the next block of the chain. */
    method Deliver(b: Block)
      requires Valid() && alive && |channel| < env.capacity
      requires 1 <= nextFetch <= |env.blocks| && b == env.blocks[nextFetch - 1]
      modifies this`channel, this`nextFetch
      ensures Valid() && alive && Fetch(env, old(View()), View())
    {
      channel := channel + [b];
      nextFetch := nextFetch + 1;
    }

    /** One round of the writer's loop: refuse what is beyond the hard fork, write the rest. */
    method Receive(lastThorNodeBlock: int)
      requires Valid() && alive && phase == Ready && channel != []
      modifies this, rec`out, rec`effects, rec.totals, rec.totals.owner.Keys
      modifies inserter, inserter.db, depthRecorder
      ensures Valid() && fresh(rec.totals.owner.Keys - old(rec.totals.owner.Keys))
      ensures Received(env, IsReliable(), old(View()), lastThorNodeBlock, View())
    {
      hide RunningTotals.Valid, BatchInserter.Valid, RunBlock, PutAll, ChangeRows, BlockRows, AfterRound, IsRound;
      var b := channel[0];
      if b.height == 0 {
        alive := false;
        assert Crash(env, old(View()), View());
        return;
      }
      var lastBlockBeforeStop := false;
      if hardForkHeight != 0 {
        if b.height == hardForkHeight {
          lastBlockBeforeStop := true;
        }
        if hardForkHeight < b.height {
          channel := channel[1..];
          phase := AtFork;
          assert Refuse(env, old(View()), View());
          return;
        }
      }
      var synced := lastThorNodeBlock <= b.height + 1;
      ghost var changes := Write(synced, lastBlockBeforeStop);
      assert b == old(View()).process.value.channel[0];
      assert IsRound(env, old(View()), synced, changes, alive, View());
    }

    /**
     * What the writer does with the first block of its channel: it fails, stops at the fork, or does a round,
     * which it survives when the database is reliable.
     */
    static ghost predicate Received(env: Env, reliable: bool, s: State, lastThorNodeBlock: int, s': State)
      requires s.process.Some? && s.process.value.channel != []
    {
      var b := s.process.value.channel[0];
      if b.height == 0 then Crash(env, s, s')
      else if env.hardForkHeight != 0 && env.hardForkHeight < b.height then Refuse(env, s, s')
      else SomeRound(env, reliable, s, lastThorNodeBlock <= b.height + 1, s')
    }

    static ghost predicate SomeRound(env: Env, reliable: bool, s: State, synced: bool, s': State) {
      exists changes, ok :: (reliable ==> ok) && IsRound(env, s, synced, changes, ok, s')
    }

    /** What a choice comes to; nothing when there is no room, no block, or the writer is not waiting for one. */
    static ghost predicate Took(env: Env, reliable: bool, c: Choice, s: State, s': State) {
      && s.process.Some?
      && var v := s.process.value;
      match c
      case Arrival =>
        if |v.channel| < env.capacity && 1 <= v.nextFetch <= |env.blocks| then Fetch(env, s, s') else s' == s
      case Round(last) => if v.phase == Ready && v.channel != [] then Received(env, reliable, s, last, s') else s' == s
      case Stop => Crash(env, s, s')
    }

    static lemma SomeRoundReaches(env: Env, reliable: bool, s: State, synced: bool, s': State)
      requires SomeRound(env, reliable, s, synced, s')
      requires s.process.Some? && s.process.value.phase == Ready && s.process.value.channel != []
      requires env.hardForkHeight == 0 || s.process.value.channel[0].height <= env.hardForkHeight
      ensures Reaches(env, s, s')
    {
      hide Reaches, IsRound;
      var changes, ok :| (reliable ==> ok) && IsRound(env, s, synced, changes, ok, s');
      RoundReaches(env, s, synced, changes, ok, s');
    }

    static lemma TookReaches(env: Env, reliable: bool, c: Choice, s: State, s': State)
      requires Took(env, reliable, c, s, s')
      ensures Reaches(env, s, s')
    {
      hide Reaches, SomeRound, Fetch, Crash, Refuse;
      ReachesRefl(env, s);
      if Fetch(env, s, s') || Crash(env, s, s') || Refuse(env, s, s') {
        ReachesTrans(env, s, s, s');
      } else if s' != s {
        var b := s.process.value.channel[0];
        SomeRoundReaches(env, reliable, s, c.lastThorNodeBlock <= b.height + 1, s');
      }
    }

    /** The commit rule, the work on the block, and the stop at the hard fork. */
    method Write(synced: bool, lastBlockBeforeStop: bool) returns (ghost changes: seq<Row<Values>>)
      requires Valid() && alive && phase == Ready && channel != []
      requires hardForkHeight == 0 || channel[0].height <= hardForkHeight
      requires lastBlockBeforeStop <==> hardForkHeight != 0 && channel[0].height == hardForkHeight
      modifies this, rec`out, rec`effects, rec.totals, rec.totals.owner.Keys
      modifies inserter, inserter.db, depthRecorder
      ensures Valid() && fresh(rec.totals.owner.Keys - old(rec.totals.owner.Keys))
      ensures IsRound(env, old(View()), synced, changes, alive, View()) && (IsReliable() ==> alive)
    {
      hide RunningTotals.Valid, Recorder.Valid, BatchInserter.Valid, IsProcessed, IsRound, IsReliable, Finished;
      ghost var s := View();
      var b := channel[0];
      channel := channel[1..];
      ghost var s0 := View();
      var commit := immediate || synced || b.height % batchSize == 0 || lastBlockBeforeStop;
      assert commit == Commits(env, b.height, synced);
      var ok;
      ok, changes := ProcessBlock(b, commit);
      ghost var s1 := View();
      FinishRound(b, ok);
      ProcessedIsRound(env, s, synced, s0, changes, ok, s1, View());
    }

    /** The loop ends with an error, or remembers the block and stops at the hard fork. */
    method FinishRound(b: Block, ok: bool)
      requires Valid() && alive && phase == Ready
      modifies this`alive, this`lastProcessed, this`phase
      ensures Valid() && alive == ok
      ensures View() == old(View()).(process := Finished(env, old(View()), b, ok))
    {
      hide RunningTotals.Valid, Recorder.Valid, BatchInserter.Valid;
      if !ok {
        alive := false;
        return;
      }
      lastProcessed := Track(b.height, b.time);
      if hardForkHeight != 0 && hardForkHeight <= b.height {
        phase := AtFork;
      }
    }

    static ghost function Finished(env: Env, s: State, b: Block, ok: bool): Option<Volatile>
      requires s.process.Some?
    {
      if !ok then None
      else
        var fork := env.hardForkHeight != 0 && env.hardForkHeight <= b.height;
        Some(s.process.value.(lastProcessed := Track(b.height, b.time), phase := if fork then AtFork else Ready))
    }

    static lemma ProcessedIsRound(env: Env, s: State, synced: bool, s0: State, changes: seq<Row<Values>>, ok: bool,
                                  s1: State, s': State)
      requires s.process.Some? && s.process.value.phase == Ready && s.process.value.channel != []
      requires s0 == s.(process := Some(s.process.value.(channel := s.process.value.channel[1..])))
      requires var b := s.process.value.channel[0];
               && IsProcessed(env, b, Commits(env, b.height, synced), s0, changes, ok, s1) && s1.process.Some?
               && s' == s1.(process := Finished(env, s1, b, ok))
      ensures IsRound(env, s, synced, changes, ok, s')
    {
      hide RunBlock, BlockRows, ChangeRows, PutAll, Commits, Persists;
    }

    /** A round takes the first block of the channel: the changes are those of the block, the state is as below. */
    static ghost predicate IsRound(env: Env, s: State, synced: bool, changes: seq<Row<Values>>, ok: bool, s': State) {
      && s.process.Some? && s.process.value.channel != []
      && var v, b := s.process.value, s.process.value.channel[0];
      && var l := RunBlock(env.decoder, env.rules, b, Ledger(v.depths, [], []));
      && ChangeRows(v.snapshot, l.depths, b.time, changes) && s' == AfterRound(env, s, synced, changes, l, ok)
    }

    /** Where a round ends: dead with nothing written, quietly in memory, or flushed and published. */
    static ghost function AfterRound(env: Env, s: State, synced: bool, changes: seq<Row<Values>>, l: Ledger,
                                     ok: bool): State
      requires s.process.Some? && s.process.value.channel != []
    {
      var v, b := s.process.value, s.process.value.channel[0];
      var persist := Persists(Commits(env, b.height, synced), v.firstBlock, b.height);
      var all := v.pending + BlockRows(b, persist, l.depths, l.rows, changes);
      var v' := v.(depths := l.depths, snapshot := l.depths, lastProcessed := Track(b.height, b.time),
                   channel := v.channel[1..],
                   phase := if env.hardForkHeight != 0 && env.hardForkHeight <= b.height then AtFork else Ready);
      if !ok then State(s.tables, None)
      else if !persist then State(s.tables, Some(v'.(pending := all)))
      else State(PutAll(s.tables, all),
                 Some(v'.(pending := [], committed := Track(b.height, b.time),
                          firstBlock := if v.firstBlock == 0 then b.height else v.firstBlock)))
    }

    /** A round is the recording of a block, then a crash, or nothing more, or a flush and a publication. */
    static lemma RoundReaches(env: Env, s0: State, synced: bool, changes: seq<Row<Values>>, ok: bool, s: State)
      requires IsRound(env, s0, synced, changes, ok, s) && s0.process.value.phase == Ready
      requires env.hardForkHeight == 0 || s0.process.value.channel[0].height <= env.hardForkHeight
      ensures Reaches(env, s0, s)
    {
      hide RunBlock, ChangeRows, Reaches, IsPath, BlockRows, PutAll;
      var v, b := s0.process.value, s0.process.value.channel[0];
      var persist := Persists(Commits(env, b.height, synced), v.firstBlock, b.height);
      var s1 := s0.(process := Some(Recorded(env, v, persist, changes)));
      ReachesRefl(env, s0);
      if !ok {
        assert Crash(env, s0, s);
        ReachesTrans(env, s0, s0, s);
      } else {
        assert Work(env, s0, synced, changes, s1);
        ReachesTrans(env, s0, s0, s1);
        if persist {
          var s2 := State(PutAll(s1.tables, s1.process.value.pending),
                          Some(s1.process.value.(pending := [], phase := Publishing)));
          assert Flush(env, s1, s2) && Publish(env, s2, s);
          ReachesTrans(env, s0, s1, s2);
          ReachesTrans(env, s0, s2, s);
        }
      }
    }

    /**
     * The writer's loop beside the fetcher: in whatever order blocks arrive, rounds take place, in sync
     * or not, and the process is told to stop, each choice has its effect, until the process is dead, and
     * the whole execution is a run of the protocol.
     */
    method Loop(blocks: seq<Block>, capacity: nat, choices: seq<Choice>) returns (ghost trail: seq<State>)
      requires Valid() && alive && phase == Ready && blocks == env.blocks && capacity == env.capacity
      modifies this, rec`out, rec`effects, rec.totals, rec.totals.owner.Keys
      modifies inserter, inserter.db, depthRecorder
      ensures Valid() && Reaches(env, old(View()), View())
      ensures 0 < |trail| <= |choices| + 1 && trail[0] == old(View()) && trail[|trail| - 1] == View()
      ensures forall i | 0 <= i < |trail| - 1 ::
                Took(env, IsReliable(), choices[i], trail[i], trail[i + 1])
      ensures |trail| == |choices| + 1 || !alive
    {
      hide RunningTotals.Valid, BatchInserter.Valid, Reaches, Received, Fetch, Crash, IsReliable;
      ReachesRefl(env, View());
      trail := [View()];
      for i := 0 to |choices|
        invariant Valid() && fresh(rec.totals.owner.Keys - old(rec.totals.owner.Keys))
        invariant Reaches(env, old(View()), View()) && alive
        invariant |trail| == i + 1 && trail[0] == old(View()) && trail[i] == View()
        invariant forall k | 0 <= k < i ::
                    Took(env, IsReliable(), choices[k], trail[k], trail[k + 1])
      {
        ghost var s := View();
        match choices[i] {
          case Arrival =>
            if |channel| < capacity && 1 <= nextFetch <= |blocks| {
              Deliver(blocks[nextFetch - 1]);
            }
          case Round(lastThorNodeBlock) =>
            if phase == Ready && channel != [] {
              Receive(lastThorNodeBlock);
            }
          case Stop => Die();
        }
        assert Took(env, IsReliable(), choices[i], s, View());
        TookReaches(env, IsReliable(), choices[i], s, View());
        ReachesChain(env, old(View()), s, View());
        trail := trail + [View()];
        if !alive {
          return;
        }
      }
    }

    /** The process ends, and with it what is in memory. */
    method Die()
      requires Valid() && alive
      modifies this`alive
      ensures Valid() && Crash(env, old(View()), View()) && !alive
    {
      alive := false;
    }

    lemma ChangesArePlain(was: Depths, now: Depths, time: int, rows: seq<Row<Values>>)
      requires ChangeRows(was, now, time, rows)
      ensures forall row <- rows :: BatchKeys.Plain(row.target)
    {
      assert BatchKeys.Plain(DEPTHS);
      hide BatchKeys.Plain, Changed;
    }
  }

  /** Setup after a start or a crash. A snapshot that cannot be decoded is refused. */
  method Setup(ghost env: Env, decoder: Decoder, rules: Rules, batchSize: pos, immediate: bool, hardForkHeight: int,
               firstBlock: int, db: Database<Values>) returns (r: Option<Process>)
    requires env == Env(env.blocks, decoder, rules, batchSize, immediate, hardForkHeight, env.capacity)
    ensures var last := LastLogRow(db.tables);
            r.Some? <==> (last.Some? ==> last.value.LogRow? && last.value.aggState.Some?)
    ensures r.Some? ==> fresh(r.value) && r.value.Valid() && r.value.env == env && r.value.inserter.db == db
    ensures r.Some? ==> Restart(env, State(db.tables, None), r.value.View())
  {
    var last := LastLogRow(db.tables);
    var depths, track := NO_DEPTHS, Track(0, 0);
    if last.Some? {
      if !last.value.LogRow? || last.value.aggState.None? {
        return None;
      }
      depths, track := last.value.aggState.value, Track(last.value.height, last.value.timestamp);
    }
    var totals := new RunningTotals();
    RestoreDepths(totals, depths);
    var p := new Process(env, decoder, rules, batchSize, immediate, hardForkHeight, db, totals, track, firstBlock);
    r := Some(p);
  }
}
