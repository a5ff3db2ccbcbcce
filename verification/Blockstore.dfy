// The chunked block store: writing, recovery after a crash, lookup and iteration.
// Source: internal/fetch/sync/blockstore/blockstore.go, internal/fetch/sync/blockstore/iterator.go

module BlockStores {
  import opened Collections
  import opened Tables
  import opened Blocks
  import opened ChunkNames
  import opened GoInt

  /** One line of a chunk: the printed height and the encoded block. */
  datatype Line = Line(prefix: string, block: Block)

  function Prefix(height: int): string {
    if height < 0 then "-" else Padded(height)
  }

  function LineOf(b: Block): Line {
    Line(Prefix(b.height), b)
  }

  function LinesOf(blocks: seq<Block>): seq<Line> {
    seq(|blocks|, i requires 0 <= i < |blocks| => LineOf(blocks[i]))
  }

  type Files = map<string, seq<Line>>

  // ---- The folder ----

  ghost predicate StrictlySorted(names: seq<string>) {
    forall i, j | 0 <= i < j < |names| :: LexLess(names[i], names[j])
  }

  class Folder {
    var files: Files
    /** Every state the folder has been in; a crash leaves it in one of them. */
    ghost var history: seq<Files>

    ghost predicate Valid()
      reads this
    {
      history != [] && history[|history| - 1] == files
    }

    constructor (files: Files)
      ensures Valid() && this.files == files && history == [files]
    {
      this.files := files;
      this.history := [files];
    }

    method Create(name: string)
      requires Valid()
      modifies this
      ensures Valid() && files == old(files)[name := []] && history == old(history) + [files]
    {
      files := files[name := []];
      history := history + [files];
    }

    method Write(name: string, lines: seq<Line>)
      requires Valid() && name in files
      modifies this
      ensures Valid() && files == old(files)[name := lines] && history == old(history) + [files]
    {
      files := files[name := lines];
      history := history + [files];
    }

    method Remove(name: string)
      requires Valid()
      modifies this
      ensures Valid() && files == old(files) - {name} && history == old(history) + [files]
    {
      files := files - {name};
      history := history + [files];
    }

    method Rename(from: string, to: string)
      requires Valid() && from in files && from != to
      modifies this
      ensures Valid() && files == (old(files) - {from})[to := old(files)[from]] && history == old(history) + [files]
    {
      files := (files - {from})[to := files[from]];
      history := history + [files];
    }

    /** Directory entries, sorted by name. */
    method ReadDir() returns (names: seq<string>)
      ensures StrictlySorted(names) && forall n :: n in names <==> n in files
    {
      names := [];
      var left := files.Keys;
      while left != {}
        invariant left <= files.Keys && StrictlySorted(names)
        invariant forall n :: n in names <==> n in files && n !in left
      {
        var name :| name in left;
        names := Insert(names, name);
        left := left - {name};
      }
    }

    static method Insert(names: seq<string>, name: string) returns (r: seq<string>)
      requires StrictlySorted(names) && name !in names
      ensures StrictlySorted(r) && forall n :: n in r <==> n in names || n == name
    {
      var i := 0;
      while i < |names| && LexLess(names[i], name)
        invariant 0 <= i <= |names|
        invariant forall k | 0 <= k < i :: LexLess(names[k], name)
      {
        i := i + 1;
      }
      r := names[..i] + [name] + names[i..];
      if i < |names| {
        LexTotal(names[i], name);
        forall k | i <= k < |names|
          ensures LexLess(name, names[k])
        {
          if i < k {
            LexTransitive(name, names[i], names[k]);
          }
        }
      }
    }
  }

  // ---- What the folder stands for ----

  function StartOf(base: nat, bounds: seq<nat>, k: nat): nat
    requires k <= |bounds|
  {
    if k == 0 then base else bounds[k - 1]
  }

  ghost predicate Consecutive(blocks: seq<Block>, first: int) {
    forall i | 0 <= i < |blocks| :: blocks[i].height == first + i
  }

  /** Ends of chunks above `base`, below the limit of the naming scheme. */
  ghost predicate GoodBounds(base: nat, bounds: seq<nat>) {
    Increasing(bounds) && forall h <- bounds :: base < h < MAX_NAMED
  }

  /** Chunk k is named after its last height and holds the blocks since the previous chunk. */
  ghost predicate HoldsChunk(files: Files, base: nat, bounds: seq<nat>, blocks: seq<Block>, k: nat)
    requires k < |bounds|
  {
    var lo, hi := StartOf(base, bounds, k) - base, bounds[k] - base;
    && 0 <= lo <= hi <= |blocks|
    && ChunkName(bounds[k]) in files && files[ChunkName(bounds[k])] == LinesOf(blocks[lo..hi])
  }

  ghost predicate HoldsChunks(files: Files, base: nat, bounds: seq<nat>, blocks: seq<Block>) {
    forall k: nat | k < |bounds| :: HoldsChunk(files, base, bounds, blocks, k)
  }

  /** No other file name is a number. */
  ghost predicate OnlyChunks(files: Files, bounds: seq<nat>) {
    forall name <- files | ParseInt(name).Some? ::
      var h := ParseInt(name).value;
      h >= 0 && h in bounds && name == ChunkName(h)
  }

  /** The finalised chunks of the folder tile one contiguous range of heights, from `base` (exclusive) on. */
  ghost predicate Tiles(files: Files, base: nat, bounds: seq<nat>, blocks: seq<Block>) {
    && GoodBounds(base, bounds)
    && |blocks| == StartOf(base, bounds, |bounds|) - base
    && Consecutive(blocks, base + 1)
    && HoldsChunks(files, base, bounds, blocks)
    && OnlyChunks(files, bounds)
  }

  /** After clean-up the chunks hold the blocks up to some point, and at least the first `lo` of them. */
  ghost predicate Recoverable(files: Files, base: nat, lo: nat, blocks: seq<Block>) {
    exists bounds: seq<nat>, n: nat | lo <= n <= |blocks| :: Tiles(files, base, bounds, blocks[..n])
  }

  datatype Chunk = Chunk(name: string, height: int)

  lemma SomeElement(a: seq<int>)
    ensures a != [] ==> exists x :: x in a
  {
    if a != [] {
      var x := a[0];
      assert x in a;
    }
  }

  lemma {:induction false} SortedSameSet(a: seq<int>, b: seq<int>)
    requires forall i, j | 0 <= i < j < |a| :: a[i] < a[j]
    requires forall i, j | 0 <= i < j < |b| :: b[i] < b[j]
    requires forall x :: x in a <==> x in b
    ensures a == b
  {
    if |b| == 0 {
      SomeElement(a);
    } else {
      SameLast(a, b);
      var a', b' := a[..|a| - 1], b[..|b| - 1];
      assert a == a' + [a[|a| - 1]] && b == b' + [b[|b| - 1]];
      forall x
        ensures x in a' <==> x in b'
      {
        assert x in a <==> x in a' || x == a[|a| - 1];
        assert x in b <==> x in b' || x == b[|b| - 1];
      }
      SortedSameSet(a', b');
    }
  }

  lemma SameLast(a: seq<int>, b: seq<int>)
    requires forall i, j | 0 <= i < j < |a| :: a[i] < a[j]
    requires forall i, j | 0 <= i < j < |b| :: b[i] < b[j]
    requires b != [] && forall x :: x in a <==> x in b
    ensures a != [] && a[|a| - 1] == b[|b| - 1]
  {
    assert b[|b| - 1] in b;
    assert b[|b| - 1] in a;
    var j :| 0 <= j < |a| && a[j] == b[|b| - 1];
    assert a[|a| - 1] in a;
    assert a[|a| - 1] in b;
    var i :| 0 <= i < |b| && b[i] == a[|a| - 1];
  }

  /** The height of every chunk of the listing, in order. */
  function HeightsOf(chunks: seq<Chunk>): seq<int> {
    seq(|chunks|, i requires 0 <= i < |chunks| => chunks[i].height)
  }

  /** The chunks found by listing a folder: the numeric names, in the order of the listing. */
  ghost predicate AreChunksOf(chunks: seq<Chunk>, files: Files) {
    && (forall c <- chunks :: c.name in files && ParseInt(c.name) == Some(c.height))
    && (forall name <- files :: ParseInt(name).Some? ==> Chunk(name, ParseInt(name).value) in chunks)
    && (forall i, j | 0 <= i < j < |chunks| :: LexLess(chunks[i].name, chunks[j].name))
  }

  /** Listed by name, the chunks come in the order of their heights. */
  lemma ListingFollowsHeights(chunks: seq<Chunk>, files: Files, base: nat, bounds: seq<nat>, blocks: seq<Block>)
    requires AreChunksOf(chunks, files) && Tiles(files, base, bounds, blocks)
    ensures HeightsOf(chunks) == bounds
    ensures forall c <- chunks :: c.height >= 0 && c.name == ChunkName(c.height)
  {
    hide ChunkName, ParseInt, Consecutive, LinesOf, LexLess;
    var hs := HeightsOf(chunks);
    forall i, j | 0 <= i < j < |hs|
      ensures hs[i] < hs[j]
    {
      assert chunks[i] in chunks && chunks[j] in chunks;
      NamesSortAsHeights(hs[i], hs[j]);
    }
    forall x: int
      ensures x in hs <==> x in bounds
    {
      if x in bounds {
        var k: nat :| k < |bounds| && bounds[k] == x;
        ChunkNameParses(x);
        assert HoldsChunk(files, base, bounds, blocks, k);
        assert Chunk(ChunkName(x), x) in chunks;
        var i :| 0 <= i < |chunks| && chunks[i] == Chunk(ChunkName(x), x);
        assert hs[i] == x;
      }
    }
    SortedSameSet(hs, bounds);
  }

  lemma BoundsOf(files: Files, base: nat, bounds: seq<nat>, blocks: seq<Block>)
    requires Tiles(files, base, bounds, blocks)
    ensures bounds != [] ==> bounds[|bounds| - 1] == base + |blocks|
    ensures forall i, j | 0 <= i < j < |bounds| :: bounds[i] < bounds[j]
  {
  }

  ghost predicate SafeHistory(history: seq<Files>, base: nat, from: nat, lo: nat, blocks: seq<Block>) {
    && from <= |history| && lo <= |blocks|
    && forall i | from <= i < |history| :: Recoverable(history[i], base, lo, blocks)
  }

  lemma SafeHistoryGrows(history: seq<Files>, states: seq<Files>, base: nat, blocks: seq<Block>, more: seq<Block>)
    requires forall files <- states, lo: nat | lo <= |blocks| :: Recoverable(files, base, lo, blocks + more)
    ensures forall from: nat, lo: nat | SafeHistory(history, base, from, lo, blocks) ::
              SafeHistory(history + states, base, from, lo, blocks + more)
    ensures SafeHistory(history + states, base, |history|, |blocks|, blocks + more)
  {
    forall from: nat, lo: nat | SafeHistory(history, base, from, lo, blocks)
      ensures SafeHistory(history + states, base, from, lo, blocks + more)
    {
      forall i | from <= i < |history|
        ensures Recoverable(history[i], base, lo, blocks + more)
      {
        BlockStore.StillRecoverable(history[i], base, lo, blocks, more);
      }
      hide Recoverable;
    }
    hide Recoverable;
  }

  // ---- The store ----

  class BlockStore {
    const folder: Folder
    const blocksPerChunk: pos
    /** What an empty folder counts as: 0, or a height derived from a genesis file. */
    const emptyHeight: nat
    var currentFile: Option<string>
    /** What the compressing writer has taken; it reaches the file when the writer is closed. */
    var blockWriter: seq<Line>
    var writeCursorHeight: int
    var lastFetchedHeight: int
    ghost var base: nat
    ghost var bounds: seq<nat>
    /** The blocks in finalised chunks, and those in the file that is being written. */
    ghost var stored: seq<Block>
    ghost var current: seq<Block>
    /** Where the history stood, and what was stored, when the store was opened. */
    ghost var since: nat
    ghost var initially: nat

    ghost predicate Valid()
      reads this, folder
    {
      && folder.Valid()
      && Tiles(folder.files, base, bounds, stored)
      && (bounds == [] ==> base == emptyHeight)
      && (initially == 0 ==> base == emptyHeight)
      && (currentFile.None? ==> current == [])
      && (currentFile.Some? ==> currentFile.value == TMP && TMP in folder.files
                                && current != [] && blockWriter == LinesOf(current))
      && Consecutive(current, base + |stored| + 1)
      && base + |stored| + |current| < MAX_NAMED
      && (current != [] ==> writeCursorHeight == base + |stored| + |current|)
      && Safe(since, initially)
    }

    /**
     * In every state of the folder from `from` on, were the process to die there, the blocks up to some
     * point would be safe in finalised chunks, and at least the first `lo` ones.
     */
    ghost predicate Safe(from: nat, lo: nat)
      reads this, folder
    {
      SafeHistory(folder.history, base, from, lo, stored)
    }

    /** Opens a folder that holds `blocks`, whatever else a crash has left there. */
    constructor (folder: Folder, blocksPerChunk: pos, emptyHeight: nat,
                 ghost base: nat, ghost bounds: seq<nat>, ghost blocks: seq<Block>)
      requires folder.Valid() && Tiles(folder.files, base, bounds, blocks)
      requires (bounds == [] ==> base == emptyHeight) && base + |blocks| < MAX_NAMED
      modifies folder
      ensures Valid() && this.folder == folder && this.blocksPerChunk == blocksPerChunk
      ensures this.base == base && this.bounds == bounds && stored == blocks && current == []
      ensures lastFetchedHeight == base + |blocks| && writeCursorHeight == lastFetchedHeight + 1
      ensures folder.files == map name | name in old(folder.files) && !IsTemporaryChunk(name) :: old(folder.files)[name]
      ensures forall i | |old(folder.history)| <= i < |folder.history| :: Tiles(folder.history[i], base, bounds, blocks)
    {
      this.folder := folder;
      this.blocksPerChunk := blocksPerChunk;
      this.emptyHeight := emptyHeight;
      this.currentFile := None;
      this.blockWriter := [];
      this.base, this.bounds, this.stored, this.current := base, bounds, blocks, [];
      this.writeCursorHeight, this.lastFetchedHeight := 0, 0;
      this.since, this.initially := |folder.history|, |blocks|;
      new;
      hide Tiles, IsTemporaryChunk;
      CleanUp();
      NothingStored(folder.files, base, bounds, stored);
      var h := FindLastFetchedHeight();
      lastFetchedHeight := h;
      writeCursorHeight := h + 1;
      forall i | since <= i < |folder.history|
        ensures Recoverable(folder.history[i], base, initially, stored)
      {
        TilesIsRecoverable(folder.history[i], base, bounds, stored, []);
      }
    }

    static lemma TilesIsRecoverable(files: Files, base: nat, bounds: seq<nat>, blocks: seq<Block>, more: seq<Block>)
      requires Tiles(files, base, bounds, blocks)
      ensures forall lo: nat | lo <= |blocks| ::
                Recoverable(files, base, lo, blocks + more) && Recoverable(files, base, lo, blocks)
    {
      assert (blocks + more)[..|blocks|] == blocks && blocks[..|blocks|] == blocks;
    }

    static lemma StillRecoverable(files: Files, base: nat, lo: nat, blocks: seq<Block>, more: seq<Block>)
      requires Recoverable(files, base, lo, blocks)
      ensures Recoverable(files, base, lo, blocks + more)
    {
      var bounds, n: nat :| lo <= n <= |blocks| && Tiles(files, base, bounds, blocks[..n]);
      assert (blocks + more)[..n] == blocks[..n];
    }

    /** Removes temporary chunks, and nothing else. */
    method CleanUp()
      requires folder.Valid() && Tiles(folder.files, base, bounds, stored)
      modifies folder
      ensures folder.Valid() && Tiles(folder.files, base, bounds, stored)
      ensures folder.files == map name | name in old(folder.files) && !IsTemporaryChunk(name) :: old(folder.files)[name]
      ensures old(folder.history) <= folder.history
      ensures forall i | |old(folder.history)| <= i < |folder.history| :: Tiles(folder.history[i], base, bounds, stored)
    {
      hide Tiles, IsTemporaryChunk;
      var names := folder.ReadDir();
      for i := 0 to |names|
        invariant folder.Valid() && Tiles(folder.files, base, bounds, stored)
        invariant forall name <- folder.files ::
                    name in old(folder.files) && folder.files[name] == old(folder.files)[name]
        invariant forall name <- old(folder.files) :: name in folder.files || IsTemporaryChunk(name)
        invariant forall k | 0 <= k < i :: names[k] in folder.files ==> !IsTemporaryChunk(names[k])
        invariant old(folder.history) <= folder.history
        invariant forall k | |old(folder.history)| <= k < |folder.history| ::
                    Tiles(folder.history[k], base, bounds, stored)
      {
        if IsTemporaryChunk(names[i]) {
          RemovingTemporaryKeepsTiles(folder.files, base, bounds, stored, names[i]);
          folder.Remove(names[i]);
        }
      }
    }

    static lemma RemovingTemporaryKeepsTiles(files: Files, base: nat, bounds: seq<nat>, blocks: seq<Block>,
                                             name: string)
      requires Tiles(files, base, bounds, blocks) && IsTemporaryChunk(name)
      ensures Tiles(files - {name}, base, bounds, blocks)
    {
      hide IsTemporaryChunk, ChunkName, ParseInt, Consecutive, LinesOf;
      forall k: nat | k < |bounds|
        ensures HoldsChunk(files - {name}, base, bounds, blocks, k)
      {
        assert HoldsChunk(files, base, bounds, blocks, k);
        assert bounds[k] in bounds;
        ChunkNameParses(bounds[k]);
      }
    }

    method GetLocalChunks() returns (chunks: seq<Chunk>)
      ensures AreChunksOf(chunks, folder.files)
    {
      var names := folder.ReadDir();
      chunks := [];
      for i := 0 to |names|
        invariant forall c <- chunks :: c.name in names[..i] && ParseInt(c.name) == Some(c.height)
        invariant forall k | 0 <= k < i && ParseInt(names[k]).Some? ::
                    Chunk(names[k], ParseInt(names[k]).value) in chunks
        invariant forall k, l | 0 <= k < l < |chunks| :: LexLess(chunks[k].name, chunks[l].name)
      {
        var height := ParseInt(names[i]);
        if height.Some? {
          chunks := chunks + [Chunk(names[i], height.value)];
        }
      }
    }

    method FindLastFetchedHeight() returns (h: int)
      requires Tiles(folder.files, base, bounds, stored) && (bounds == [] ==> base == emptyHeight)
      ensures h == base + |stored|
    {
      hide Tiles, AreChunksOf, ChunkName, LexLess, ParseInt, HeightsOf;
      var chunks := GetLocalChunks();
      ListedChunks(chunks, folder.files, base, bounds, stored);
      NothingStored(folder.files, base, bounds, stored);
      if |chunks| == 0 {
        return emptyHeight;
      }
      h := chunks[|chunks| - 1].height;
    }

    method StartNewFile()
      requires folder.Valid()
      modifies this`currentFile, folder
      ensures folder.Valid() && currentFile == Some(TMP)
      ensures folder.files == old(folder.files)[TMP := []] && folder.history == old(folder.history) + [folder.files]
    {
      folder.Create(TMP);
      currentFile := Some(TMP);
    }

    /** Closes the writer, drops a file that is in the way, and renames: the last step is atomic. */
    method FinalizeChunk(name: string)
      requires folder.Valid() && name != TMP
      requires currentFile.Some? ==> currentFile.value == TMP && TMP in folder.files
      modifies this`currentFile, folder
      ensures folder.Valid() && currentFile.None?
      ensures old(currentFile).None? ==> folder.files == old(folder.files) && folder.history == old(folder.history)
      ensures old(currentFile).Some? ==>
                var closed := old(folder.files)[TMP := blockWriter];
                && folder.files == (closed - {name} - {TMP})[name := blockWriter]
                && folder.history == old(folder.history) + [closed] +
                                     (if name in closed then [closed - {name}] else []) + [folder.files]
    {
      if currentFile.None? {
        return;
      }
      folder.Write(TMP, blockWriter);
      if name in folder.files {
        folder.Remove(name);
      }
      var oldName := currentFile.value;
      folder.Rename(oldName, name);
      currentFile := None;
    }

    static lemma WritingTemporaryKeepsTiles(files: Files, base: nat, bounds: seq<nat>, blocks: seq<Block>, name: string,
                                            lines: seq<Line>)
      requires Tiles(files, base, bounds, blocks) && IsTemporaryChunk(name) && ParseInt(name).None?
      ensures Tiles(files[name := lines], base, bounds, blocks)
    {
      hide IsTemporaryChunk, ChunkName, ParseInt, Consecutive, LinesOf;
      var files' := files[name := lines];
      forall k: nat | k < |bounds|
        ensures HoldsChunk(files', base, bounds, blocks, k)
      {
        assert HoldsChunk(files, base, bounds, blocks, k);
        assert bounds[k] in bounds;
        ChunkNameParses(bounds[k]);
      }
    }

    /** A renamed file extends the tiling by one chunk. */
    static lemma NewChunkExtendsTiles(files: Files, base: nat, bounds: seq<nat>, blocks: seq<Block>, more: seq<Block>)
      requires Tiles(files, base, bounds, blocks) && more != [] && Consecutive(more, base + |blocks| + 1)
      requires base + |blocks| + |more| < MAX_NAMED
      ensures var h := base + |blocks| + |more|;
              && ChunkName(h) !in files
              && Tiles((files - {TMP})[ChunkName(h) := LinesOf(more)], base, bounds + [h], blocks + more)
    {
      hide IsTemporaryChunk, ChunkName, ParseInt, LinesOf, HoldsChunks, GoodBounds, OnlyChunks, Consecutive;
      var h := base + |blocks| + |more|;
      BoundsBelow(base, bounds);
      UnfinishedIsTemporary(0);
      RemovingTemporaryKeepsTiles(files, base, bounds, blocks, TMP);
      ChunkNameIsNew(files, base, bounds, blocks, h);
      NewChunkHeld(files - {TMP}, base, bounds, blocks, more);
      GoodBoundsGrow(base, bounds, h);
      OnlyOneMore(files - {TMP}, bounds, h, LinesOf(more));
      ConsecutiveConcat(blocks, more, base + 1);
    }

    static lemma ChunkNameIsNew(files: Files, base: nat, bounds: seq<nat>, blocks: seq<Block>, h: nat)
      requires Tiles(files, base, bounds, blocks) && base + |blocks| < h < MAX_NAMED
      ensures ChunkName(h) !in files
    {
      BoundsBelow(base, bounds);
      ChunkNameParses(h);
      hide ChunkName, ParseInt, HoldsChunks, Consecutive;
    }

    static lemma ConsecutiveConcat(blocks: seq<Block>, more: seq<Block>, first: int)
      requires Consecutive(blocks, first) && Consecutive(more, first + |blocks|)
      ensures Consecutive(blocks + more, first)
    {
    }

    static lemma OnlyOneMore(files: Files, bounds: seq<nat>, h: nat, lines: seq<Line>)
      requires OnlyChunks(files, bounds) && h < MAX_NAMED
      ensures OnlyChunks(files[ChunkName(h) := lines], bounds + [h])
    {
      ChunkNameParses(h);
      hide ChunkName, ParseInt;
    }

    static lemma GoodBoundsGrow(base: nat, bounds: seq<nat>, h: nat)
      requires GoodBounds(base, bounds) && StartOf(base, bounds, |bounds|) < h < MAX_NAMED
      ensures GoodBounds(base, bounds + [h])
    {
      BoundsBelow(base, bounds);
      assert forall i | 0 <= i < |bounds| :: bounds[i] in bounds;
    }

    static lemma NewChunkHeld(files: Files, base: nat, bounds: seq<nat>, blocks: seq<Block>, more: seq<Block>)
      requires Tiles(files, base, bounds, blocks) && more != [] && base + |blocks| + |more| < MAX_NAMED
      ensures var h := base + |blocks| + |more|;
              HoldsChunks(files[ChunkName(h) := LinesOf(more)], base, bounds + [h], blocks + more)
    {
      hide IsTemporaryChunk, ChunkName, ParseInt, LinesOf, Consecutive, OnlyChunks;
      BoundsBelow(base, bounds);
      var h := base + |blocks| + |more|;
      var bounds', blocks', files' := bounds + [h], blocks + more, files[ChunkName(h) := LinesOf(more)];
      forall k: nat | k < |bounds'|
        ensures HoldsChunk(files', base, bounds', blocks', k)
      {
        if k < |bounds| {
          assert HoldsChunk(files, base, bounds, blocks, k);
          assert bounds[k] in bounds && StartOf(base, bounds', k) == StartOf(base, bounds, k);
          NamesSortAsHeights(bounds[k], h);
          var lo, hi := StartOf(base, bounds, k) - base, bounds[k] - base;
          assert blocks'[lo..hi] == blocks[lo..hi];
        } else {
          assert StartOf(base, bounds', k) == base + |blocks|;
          assert blocks'[|blocks|..h - base] == more;
        }
      }
    }

    static lemma BoundsBelow(base: nat, bounds: seq<nat>)
      requires GoodBounds(base, bounds)
      ensures forall h <- bounds :: base < h <= StartOf(base, bounds, |bounds|)
      ensures base <= StartOf(base, bounds, |bounds|)
    {
      assert bounds == [] || bounds[|bounds| - 1] in bounds;
    }

    /**
     * Appends the next block; on a chunk boundary, or when forced, everything written since the last
     * chunk becomes a chunk.
     */
    method DumpBlock(block: Block, forceFinalizeChunk: bool)
      requires Valid() && block.height == base + |stored| + |current| + 1 < MAX_NAMED
      modifies this`currentFile, this`blockWriter, this`writeCursorHeight, this`bounds, this`stored, this`current,
               folder
      ensures Valid() && writeCursorHeight == block.height
      ensures Safe(|old(folder.history)|, |old(stored)|)
      ensures if block.height % blocksPerChunk == 0 || forceFinalizeChunk then
                && stored == old(stored) + old(current) + [block] && current == []
                && bounds == old(bounds) + [block.height]
              else
                stored == old(stored) && current == old(current) + [block] && bounds == old(bounds)
      ensures old(folder.history) <= folder.history
    {
      hide Safe, Consecutive, Tiles, LinesOf;
      WriteBlock(block);
      if block.height % blocksPerChunk == 0 || forceFinalizeChunk {
        CompleteChunk();
      }
    }

    /** The block goes to the writer; the first one of a chunk creates the temporary file. */
    method WriteBlock(block: Block)
      requires Valid() && block.height == base + |stored| + |current| + 1 < MAX_NAMED
      modifies this`currentFile, this`blockWriter, this`writeCursorHeight, this`current, folder
      ensures Valid() && currentFile.Some? && current == old(current) + [block]
      ensures Safe(|old(folder.history)|, |old(stored)|)
      ensures old(folder.history) <= folder.history
    {
      hide Tiles, LinesOf, IsTemporaryChunk, ParseInt, Recoverable;
      UnfinishedIsTemporary(0);
      if currentFile.None? {
        WritingTemporaryKeepsTiles(folder.files, base, bounds, stored, TMP, []);
        StartNewFile();
        blockWriter := [];
        LinesOfNone();
      }
      blockWriter := blockWriter + [LineOf(block)];
      LinesOfMore(current, block);
      TilesIsRecoverable(folder.files, base, bounds, stored, []);
      current := current + [block];
      writeCursorHeight := block.height;
    }

    /** What was written since the last chunk becomes a chunk. */
    method CompleteChunk()
      requires Valid() && current != []
      modifies this`currentFile, this`bounds, this`stored, this`current, folder
      ensures Valid() && currentFile.None? && stored == old(stored) + old(current) && current == []
      ensures Safe(|old(folder.history)|, |old(stored)|)
      ensures forall from: nat, lo: nat :: old(Safe(from, lo)) ==> Safe(from, lo)
      ensures bounds == old(bounds) + [writeCursorHeight]
      ensures old(folder.history) <= folder.history
    {
      hide Tiles, LinesOf, IsTemporaryChunk, ParseInt, Recoverable, ChunkName;
      UnfinishedIsTemporary(0);
      ChunkNameParses(writeCursorHeight);
      WritingTemporaryKeepsTiles(folder.files, base, bounds, stored, TMP, blockWriter);
      NewChunkExtendsTiles(folder.files[TMP := blockWriter], base, bounds, stored, current);
      TilesIsRecoverable(folder.files[TMP := blockWriter], base, bounds, stored, current);
      ghost var closed := folder.files[TMP := blockWriter];
      assert closed - {ChunkName(writeCursorHeight)} == closed;
      FinalizeChunk(ChunkName(writeCursorHeight));
      TilesIsRecoverable(folder.files, base, bounds + [writeCursorHeight], stored + current, []);
      assert folder.history == old(folder.history) + [closed, folder.files];
      SafeHistoryGrows(old(folder.history), [closed, folder.files], base, stored, current);
      bounds := bounds + [writeCursorHeight];
      stored, current := stored + current, [];
      hide SafeHistory;
    }

    static lemma LinesOfNone()
      ensures LinesOf([]) == []
    {
    }

    static lemma LinesOfMore(blocks: seq<Block>, block: Block)
      ensures LinesOf(blocks + [block]) == LinesOf(blocks) + [LineOf(block)]
    {
    }

    /** Leaves the unfinished chunk under a temporary name; the next start removes it. */
    method Close()
      requires Valid()
      modifies this`currentFile, this`current, folder
      ensures Valid() && currentFile.None? && stored == old(stored) && current == []
      ensures if old(currentFile).None? then folder.files == old(folder.files)
              else
                var unfinished := UnfinishedName(writeCursorHeight);
                folder.files == (old(folder.files) - {unfinished, TMP})[unfinished := LinesOf(old(current))]
      ensures Safe(|old(folder.history)|, |old(stored)|)
      ensures old(folder.history) <= folder.history
    {
      hide Tiles, LinesOf, IsTemporaryChunk, ParseInt, Recoverable, UnfinishedName;
      if currentFile.None? {
        return;
      }
      var name := UnfinishedName(writeCursorHeight);
      UnfinishedIsTemporary(writeCursorHeight);
      assert name != TMP by { UnfinishedIsLonger(writeCursorHeight); }
      ghost var closed := folder.files[TMP := blockWriter];
      WritingTemporaryKeepsTiles(folder.files, base, bounds, stored, TMP, blockWriter);
      RemovingTemporaryKeepsTiles(closed, base, bounds, stored, name);
      RemovingTemporaryKeepsTiles(closed - {name}, base, bounds, stored, TMP);
      WritingTemporaryKeepsTiles(closed - {name} - {TMP}, base, bounds, stored, name, blockWriter);
      FinalizeChunk(name);
      current := [];
      TilesIsRecoverable(closed, base, bounds, stored, []);
      TilesIsRecoverable(closed - {name}, base, bounds, stored, []);
      TilesIsRecoverable(folder.files, base, bounds, stored, []);
    }

    static lemma UnfinishedIsLonger(height: nat)
      requires height < MAX_NAMED
      ensures UnfinishedName(height) != TMP
    {
      ChunkNameParses(height);
    }

    /** The first chunk that ends at or above a height; none above the last one. */
    method FindChunkForHeight(h: int) returns (r: Option<Chunk>, eof: bool)
      requires Tiles(folder.files, base, bounds, stored)
      ensures eof <==> bounds != [] && base + |stored| < h
      ensures r.Some? <==> bounds != [] && h <= base + |stored|
      ensures r.Some? ==> exists k: nat | k < |bounds| ::
                            && r.value == Chunk(ChunkName(bounds[k]), bounds[k])
                            && h <= bounds[k] && (k > 0 ==> bounds[k - 1] < h)
    {
      hide Tiles, AreChunksOf, ChunkName, LexLess, ParseInt, HeightsOf;
      var chunks := GetLocalChunks();
      ListedChunks(chunks, folder.files, base, bounds, stored);
      r, eof := None, false;
      if |chunks| == 0 {
        return;
      }
      if chunks[|chunks| - 1].height < h {
        eof := true;
        return;
      }
      var lo := SearchChunks(chunks, h);
      r := Some(chunks[lo]);
    }
  }

  /**
   * The process dies with the folder in any state it has been in since the store was opened, and the store is
   * opened again: it holds the same blocks up to some point, and at least those it held at the opening before.
   */
  method Reopen(store: BlockStore, files: Files, ghost k: nat) returns (again: BlockStore, ghost n: nat)
    requires store.Valid()
    requires store.since <= k < |store.folder.history| && store.folder.history[k] == files
    ensures again.Valid() && again.base == store.base && again.current == []
    ensures store.initially <= n <= |store.stored| && again.stored == store.stored[..n]
    ensures again.lastFetchedHeight == store.base + n && again.writeCursorHeight == again.lastFetchedHeight + 1
    ensures again.folder.files == map name | name in files && !IsTemporaryChunk(name) :: files[name]
  {
    hide Tiles, IsTemporaryChunk, Consecutive, LinesOf;
    assert Recoverable(files, store.base, store.initially, store.stored);
    ghost var bounds: seq<nat>;
    bounds, n :| store.initially <= n <= |store.stored| && Tiles(files, store.base, bounds, store.stored[..n]);
    NothingStored(files, store.base, bounds, store.stored[..n]);
    var folder := new Folder(files);
    again := new BlockStore(folder, store.blocksPerChunk, store.emptyHeight, store.base, bounds, store.stored[..n]);
  }

  lemma NothingStored(files: Files, base: nat, bounds: seq<nat>, blocks: seq<Block>)
    requires Tiles(files, base, bounds, blocks)
    ensures bounds == [] <==> blocks == []
  {
    assert bounds != [] ==> bounds[|bounds| - 1] in bounds;
  }

  lemma ListedChunks(chunks: seq<Chunk>, files: Files, base: nat, bounds: seq<nat>, blocks: seq<Block>)
    requires AreChunksOf(chunks, files) && Tiles(files, base, bounds, blocks)
    ensures |chunks| == |bounds| && (bounds != [] ==> bounds[|bounds| - 1] == base + |blocks|)
    ensures forall k: nat | k < |chunks| :: chunks[k] == Chunk(ChunkName(bounds[k]), bounds[k])
  {
    ListingFollowsHeights(chunks, files, base, bounds, blocks);
    BoundsOf(files, base, bounds, blocks);
    hide Tiles, AreChunksOf, ChunkName;
    forall k: nat | k < |chunks|
      ensures chunks[k] == Chunk(ChunkName(bounds[k]), bounds[k])
    {
      assert chunks[k] in chunks && HeightsOf(chunks)[k] == bounds[k];
    }
  }

  /** The first chunk that ends at or after a height. */
  method SearchChunks(chunks: seq<Chunk>, h: int) returns (lo: nat)
    requires chunks != [] && h <= chunks[|chunks| - 1].height
    ensures lo < |chunks| && h <= chunks[lo].height && (lo > 0 ==> chunks[lo - 1].height < h)
  {
    lo := 0;
    var hi := |chunks| - 1;
    while lo < hi
      invariant 0 <= lo <= hi < |chunks|
      invariant h <= chunks[hi].height
      invariant lo > 0 ==> chunks[lo - 1].height < h
    {
      var mid := lo + (hi - lo) / 2;
      if chunks[mid].height < h {
        lo := mid + 1;
      } else {
        hi := mid;
      }
    }
  }

  /** `i` is the first line with a prefix, or the end when there is none. */
  predicate FirstLine(lines: seq<Line>, prefix: string, i: nat) {
    && i <= |lines| && (i < |lines| ==> lines[i].prefix == prefix)
    && forall j | 0 <= j < i :: lines[j].prefix != prefix
  }

  method FindLine(lines: seq<Line>, prefix: string) returns (i: nat)
    ensures FirstLine(lines, prefix, i)
  {
    i := 0;
    while i < |lines| && lines[i].prefix != prefix
      invariant i <= |lines| && forall j | 0 <= j < i :: lines[j].prefix != prefix
    {
      i := i + 1;
    }
  }

  /** Among the lines of some stored blocks, only that of a height has its prefix. */
  lemma PrefixAt(files: Files, base: nat, bounds: seq<nat>, blocks: seq<Block>, lo: nat, hi: nat, h: int, j: nat)
    requires Tiles(files, base, bounds, blocks)
    requires lo <= hi <= |blocks| && h <= base + hi && lo + j < hi
    ensures |LinesOf(blocks[lo..hi])| == hi - lo
    ensures LinesOf(blocks[lo..hi])[j].prefix == Prefix(h) <==> j == h - 1 - base - lo
  {
    StoredHeightsAreSmall(files, base, bounds, blocks);
    hide Tiles, Prefix;
    LineAt(blocks, lo, hi, j);
    PrefixIdentifies(h, base + 1 + lo + j);
  }

  lemma NumberOfLines(blocks: seq<Block>, lo: nat, hi: nat)
    requires lo <= hi <= |blocks|
    ensures |LinesOf(blocks[lo..hi])| == hi - lo
  {
  }

  lemma LineAt(blocks: seq<Block>, lo: nat, hi: nat, j: nat)
    requires lo <= hi <= |blocks| && lo + j < hi
    ensures var lines := LinesOf(blocks[lo..hi]);
            && |lines| == hi - lo
            && lines[j] == Line(Prefix(blocks[lo + j].height), blocks[lo + j])
            && lines[j + 1..] == LinesOf(blocks[lo + j + 1..hi])
  {
  }

  /** A search for the prefix of a height finds its block, or nothing below all heights. */
  lemma LineFound(files: Files, base: nat, bounds: seq<nat>, blocks: seq<Block>, lo: nat, hi: nat, h: int, i: nat)
    requires Tiles(files, base, bounds, blocks)
    requires lo <= hi <= |blocks| && h <= base + hi && (base < h ==> lo <= h - 1 - base)
    requires FirstLine(LinesOf(blocks[lo..hi]), Prefix(h), i)
    ensures var lines := LinesOf(blocks[lo..hi]);
            if base < h then
              i < |lines| && lines[i].block == blocks[h - 1 - base] && lines[i + 1..] == LinesOf(blocks[h - base..hi])
            else i == |lines|
    ensures i <= |LinesOf(blocks[lo..hi])|
  {
    hide Tiles, Prefix, LinesOf, LineOf;
    NumberOfLines(blocks, lo, hi);
    var k := h - 1 - base - lo;
    if 0 <= k {
      PrefixAt(files, base, bounds, blocks, lo, hi, h, k);
    }
    if i < hi - lo {
      PrefixAt(files, base, bounds, blocks, lo, hi, h, i);
      LineAt(blocks, lo, hi, i);
    }
  }

  // ---- Iteration ----

  datatype Fetched = Got(block: Block) | AtEnd | Failed

  class Iterator {
    const store: BlockStore
    var nextHeight: int
    var currentChunk: Option<Chunk>
    var reader: seq<Line>

    /** The reader stands at the next block of the open chunk, or has been read to its end in vain. */
    ghost predicate Valid()
      reads this, store, store.folder
    {
      && Tiles(store.folder.files, store.base, store.bounds, store.stored)
      && (currentChunk.Some? ==>
            && store.base <= currentChunk.value.height <= store.base + |store.stored|
            && if store.base < nextHeight <= currentChunk.value.height + 1 then
                 reader == LinesOf(store.stored[nextHeight - 1 - store.base..currentChunk.value.height - store.base])
               else nextHeight <= store.base && reader == [])
    }

    constructor (store: BlockStore, startHeight: int)
      requires Tiles(store.folder.files, store.base, store.bounds, store.stored)
      ensures Valid() && this.store == store && nextHeight == startHeight
    {
      this.store := store;
      this.nextHeight := startHeight;
      this.currentChunk := None;
      this.reader := [];
    }

    /**
     * The block of the next height, for all heights that the store holds; the end above the last of
     * them. Below the first one no chunk has the block; an empty store has no chunk to open.
     */
    method Next() returns (r: Fetched)
      requires Valid()
      modifies this
      ensures Valid()
      ensures if store.base < old(nextHeight) <= store.base + |store.stored| then
                r == Got(store.stored[old(nextHeight) - store.base - 1]) && nextHeight == old(nextHeight) + 1
              else
                && nextHeight == old(nextHeight)
                && r == if store.base + |store.stored| < nextHeight && store.bounds != [] then AtEnd else Failed
    {
      hide HoldsChunks, OnlyChunks, Consecutive, GoodBounds, ChunkName, LinesOf;
      ghost var lo: nat;
      if currentChunk.None? || currentChunk.value.height < nextHeight {
        currentChunk, reader := None, [];
        var eof;
        eof, lo := OpenNextChunk();
        if eof {
          return AtEnd;
        }
        if currentChunk.None? {
          return Failed;
        }
      } else {
        lo := if store.base < nextHeight then nextHeight - 1 - store.base else currentChunk.value.height - store.base;
        LinesOfNone(store.stored, lo);
      }
      r := UnmarshalNextBlock(lo);
    }

    /** From any height in the store, repeated calls yield exactly the remaining blocks, in order, and then the end. */
    method Rest() returns (blocks: seq<Block>, last: Fetched)
      requires Valid() && store.base < nextHeight <= store.base + |store.stored| + 1 && store.bounds != []
      modifies this
      ensures Valid() && blocks == old(store.stored[nextHeight - store.base - 1..]) && last == AtEnd
    {
      hide Tiles, LinesOf;
      blocks := [];
      last := Next();
      while last.Got?
        invariant Valid() && old(nextHeight) + |blocks| <= store.base + |store.stored| + 1
        invariant blocks == old(store.stored[nextHeight - store.base - 1..])[..|blocks|]
        invariant if last.Got? then
                    && old(nextHeight) + |blocks| <= store.base + |store.stored|
                    && last.block == store.stored[old(nextHeight) + |blocks| - store.base - 1]
                    && nextHeight == old(nextHeight) + |blocks| + 1
                  else
                    last == AtEnd && old(nextHeight) + |blocks| == store.base + |store.stored| + 1
        decreases store.base + |store.stored| + 1 - old(nextHeight) - |blocks|, last.Got?
      {
        blocks := blocks + [last.block];
        last := Next();
      }
    }

    static lemma LinesOfNone(blocks: seq<Block>, lo: nat)
      ensures lo <= |blocks| ==> LinesOf(blocks[lo..lo]) == []
    {
    }

    method OpenNextChunk() returns (eof: bool, ghost lo: nat)
      requires Tiles(store.folder.files, store.base, store.bounds, store.stored) && currentChunk.None?
      modifies this`currentChunk, this`reader
      ensures eof <==> store.bounds != [] && store.base + |store.stored| < nextHeight
      ensures currentChunk.Some? <==> store.bounds != [] && nextHeight <= store.base + |store.stored|
      ensures currentChunk.Some? ==>
                && nextHeight <= currentChunk.value.height <= store.base + |store.stored|
                && store.base <= currentChunk.value.height && lo <= currentChunk.value.height - store.base
                && reader == LinesOf(store.stored[lo..currentChunk.value.height - store.base])
                && (store.base < nextHeight ==> lo <= nextHeight - 1 - store.base)
      ensures currentChunk.None? ==> reader == old(reader)
    {
      hide Tiles, ChunkName, LinesOf;
      lo := 0;
      var chunk;
      chunk, eof := store.FindChunkForHeight(nextHeight);
      if chunk.None? {
        return;
      }
      ghost var k: nat :| k < |store.bounds|
                          && chunk.value == Chunk(ChunkName(store.bounds[k]), store.bounds[k])
                          && nextHeight <= store.bounds[k] && (k > 0 ==> store.bounds[k - 1] < nextHeight);
      ChunkIsHeld(store.folder.files, store.base, store.bounds, store.stored, k);
      currentChunk, reader := chunk, store.folder.files[chunk.value.name];
      lo := StartOf(store.base, store.bounds, k) - store.base;
    }

    static lemma ChunkIsHeld(files: Files, base: nat, bounds: seq<nat>, blocks: seq<Block>, k: nat)
      requires Tiles(files, base, bounds, blocks) && k < |bounds|
      ensures HoldsChunk(files, base, bounds, blocks, k) && base <= bounds[k]
    {
      assert bounds[k] in bounds;
    }

    /** Skips lines until one carries the wanted height. */
    method UnmarshalNextBlock(ghost lo: nat) returns (r: Fetched)
      requires currentChunk.Some? && nextHeight <= currentChunk.value.height <= store.base + |store.stored|
      requires store.base <= currentChunk.value.height
      requires Tiles(store.folder.files, store.base, store.bounds, store.stored)
      requires lo <= currentChunk.value.height - store.base
      requires reader == LinesOf(store.stored[lo..currentChunk.value.height - store.base])
      requires store.base < nextHeight ==> lo <= nextHeight - 1 - store.base
      modifies this`reader, this`nextHeight
      ensures Valid()
      ensures if store.base < old(nextHeight) then
                r == Got(store.stored[old(nextHeight) - store.base - 1]) && nextHeight == old(nextHeight) + 1
              else
                r == Failed && nextHeight == old(nextHeight)
    {
      hide Tiles, Prefix, LinesOf, LineOf, FirstLine, Consecutive;
      ghost var hi := currentChunk.value.height - store.base;
      var i := FindLine(reader, Prefix(nextHeight));
      LineFound(store.folder.files, store.base, store.bounds, store.stored, lo, hi, nextHeight, i);
      if i == |reader| {
        reader := [];
        return Failed;
      }
      assert store.base < nextHeight;
      var line := reader[i];
      reader := reader[i + 1..];
      nextHeight := nextHeight + 1;
      r := Got(line.block);
    }
  }

  lemma StoredHeightsAreSmall(files: Files, base: nat, bounds: seq<nat>, blocks: seq<Block>)
    requires Tiles(files, base, bounds, blocks)
    ensures bounds != [] ==> base + |blocks| < MAX_NAMED
    ensures bounds == [] ==> blocks == []
    ensures forall i | 0 <= i < |blocks| :: blocks[i].height == base + 1 + i
  {
    if bounds != [] {
      assert bounds[|bounds| - 1] in bounds;
    }
  }

  lemma PrefixIdentifies(h: int, k: nat)
    requires h < MAX_NAMED && k < MAX_NAMED
    ensures Prefix(h) == Prefix(k) <==> h == k
  {
    ChunkNameParses(k);
    if h >= 0 {
      NamesSortAsHeights(h, k);
    }
  }
}
