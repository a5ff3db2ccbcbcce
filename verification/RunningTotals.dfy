// Pool depths: the values, and the pointer-valued maps that hold them in memory.
// Source: internal/fetch/record/aggregate.go

module PoolDepths {

  datatype Quantity = Asset | Rune | Synth

  /** A snapshot of the running totals: one map per quantity, keyed by pool name. */
  datatype Depths = Depths(asset: map<string, int>, rune: map<string, int>, synth: map<string, int>) {
    function Of(q: Quantity): map<string, int> {
      match q
      case Asset => asset
      case Rune => rune
      case Synth => synth
    }

    /** The depth of a pool; a pool that is not in the map reads as zero. */
    function At(q: Quantity, pool: string): int {
      if pool in Of(q) then Of(q)[pool] else 0
    }

    function With(q: Quantity, pool: string, e8: int): Depths {
      match q
      case Asset => this.(asset := asset[pool := e8])
      case Rune => this.(rune := rune[pool := e8])
      case Synth => this.(synth := synth[pool := e8])
    }

    function Pools(): set<string> {
      asset.Keys + rune.Keys + synth.Keys
    }
  }

  const NO_DEPTHS := Depths(map[], map[], map[])

  /** What one event does to the totals. */
  datatype Effect = Add(quantity: Quantity, pool: string, e8: int) | Suspend(pool: string)

  function Apply(d: Depths, f: Effect): Depths {
    match f
    case Add(q, pool, e8) => d.With(q, pool, d.At(q, pool) + e8)
    case Suspend(pool) => d.With(Asset, pool, 0).With(Rune, pool, 0).With(Synth, pool, 0)
  }

  function ApplyAll(d: Depths, fs: seq<Effect>): Depths {
    if fs == [] then d else Apply(ApplyAll(d, fs[..|fs| - 1]), fs[|fs| - 1])
  }

  lemma ApplyAllConcat(d: Depths, fs: seq<Effect>, gs: seq<Effect>)
    ensures ApplyAll(d, fs + gs) == ApplyAll(ApplyAll(d, fs), gs)
    decreases |gs|
  {
    if gs == [] {
      assert fs + gs == fs;
    } else {
      var gs' := gs[..|gs| - 1];
      assert (fs + gs)[..|fs + gs| - 1] == fs + gs';
      ApplyAllConcat(d, fs, gs');
    }
  }

  /** The sum of the deltas of one pool and one quantity. */
  function SumOf(fs: seq<Effect>, q: Quantity, pool: string): int {
    if fs == [] then 0
    else SumOf(fs[..|fs| - 1], q, pool) +
         match fs[|fs| - 1]
         case Add(q', pool', e8) => if q' == q && pool' == pool then e8 else 0
         case Suspend(_) => 0
  }

  /** The deltas after the last suspension of a pool, and whether there was one. */
  function SinceSuspension(fs: seq<Effect>, pool: string): (bool, seq<Effect>) {
    if fs == [] then (false, [])
    else if fs[|fs| - 1] == Suspend(pool) then (true, [])
    else
      var (found, rest) := SinceSuspension(fs[..|fs| - 1], pool);
      (found, rest + [fs[|fs| - 1]])
  }

  /** It splits the effects at the last suspension of the pool. */
  lemma {:induction false} SinceSuspensionSplits(fs: seq<Effect>, pool: string)
    ensures var (suspended, rest) := SinceSuspension(fs, pool);
            && Suspend(pool) !in rest
            && if suspended then exists before :: fs == before + [Suspend(pool)] + rest else fs == rest
  {
    if fs != [] && fs[|fs| - 1] != Suspend(pool) {
      var front := fs[..|fs| - 1];
      SinceSuspensionSplits(front, pool);
      var (suspended, rest) := SinceSuspension(front, pool);
      assert fs == front + [fs[|fs| - 1]];
      if suspended {
        var before :| front == before + [Suspend(pool)] + rest;
        assert fs == before + [Suspend(pool)] + (rest + [fs[|fs| - 1]]);
      }
    } else if fs != [] {
      assert fs == fs[..|fs| - 1] + [Suspend(pool)] + [];
    }
  }

  lemma ApplyAt(d: Depths, f: Effect, q: Quantity, pool: string)
    ensures Apply(d, f).At(q, pool) ==
            if f == Suspend(pool) then 0 else d.At(q, pool) + SumOf([f], q, pool)
  {
    assert [f][..0] == [];
  }

  /**
   * A depth is the sum of the signed deltas of its pool since the pool was last suspended, on top of
   * the initial depth when it never was. No other pool or quantity has any influence on it.
   */
  lemma {:induction false} DepthIsSumSinceSuspension(d: Depths, fs: seq<Effect>, q: Quantity, pool: string)
    ensures var (suspended, rest) := SinceSuspension(fs, pool);
            ApplyAll(d, fs).At(q, pool) == (if suspended then 0 else d.At(q, pool)) + SumOf(rest, q, pool)
  {
    if fs != [] {
      var fs', f := fs[..|fs| - 1], fs[|fs| - 1];
      DepthIsSumSinceSuspension(d, fs', q, pool);
      var d' := ApplyAll(d, fs');
      assert ApplyAll(d, fs) == Apply(d', f);
      ApplyAt(d', f, q, pool);
      if f != Suspend(pool) {
        SumOfSnoc(SinceSuspension(fs', pool).1, f, q, pool);
      }
    }
  }

  lemma SumOfSnoc(fs: seq<Effect>, f: Effect, q: Quantity, pool: string)
    ensures SumOf(fs + [f], q, pool) == SumOf(fs, q, pool) + SumOf([f], q, pool)
  {
    assert (fs + [f])[..|fs|] == fs;
    assert [f][..0] == [];
  }

  /** Pools never leave the maps. */
  lemma {:induction false} PoolsOnlyGrow(d: Depths, fs: seq<Effect>)
    ensures d.asset.Keys <= ApplyAll(d, fs).asset.Keys
    ensures d.rune.Keys <= ApplyAll(d, fs).rune.Keys
    ensures d.synth.Keys <= ApplyAll(d, fs).synth.Keys
  {
    if fs != [] {
      PoolsOnlyGrow(d, fs[..|fs| - 1]);
    }
  }
}

module RunningTotals {
  import opened PoolDepths

  /** The target of one map entry's pointer. */
  class Cell {
    var e8: int

    constructor (e8: int)
      ensures this.e8 == e8
    {
      this.e8 := e8;
    }
  }

  type Cells = map<string, Cell>

  class RunningTotals {
    var assetCells: Cells
    var runeCells: Cells
    var synthCells: Cells
    ghost var contents: Depths
    /** Whose depth each cell holds: no two entries, of one map or of two, share a cell. */
    ghost var owner: map<Cell, (Quantity, string)>

    ghost predicate Holds(q: Quantity, cells: Cells)
      reads this, owner.Keys
    {
      && cells.Keys == contents.Of(q).Keys
      && forall pool <- cells ::
           && cells[pool] in owner && owner[cells[pool]] == (q, pool)
           && cells[pool].e8 == contents.Of(q)[pool]
    }

    ghost predicate Valid()
      reads this, owner.Keys
    {
      Holds(Asset, assetCells) && Holds(Rune, runeCells) && Holds(Synth, synthCells)
    }

    constructor ()
      ensures Valid() && contents == NO_DEPTHS && owner == map[]
    {
      assetCells, runeCells, synthCells := map[], map[], map[];
      contents := NO_DEPTHS;
      owner := map[];
    }

    method CurrentDepths(pool: string) returns (assetE8: int, runeE8: int, synthE8: int)
      requires Valid()
      ensures assetE8 == contents.At(Asset, pool)
      ensures runeE8 == contents.At(Rune, pool)
      ensures synthE8 == contents.At(Synth, pool)
    {
      assetE8, runeE8, synthE8 := 0, 0, 0;
      if pool in assetCells {
        assetE8 := assetCells[pool].e8;
      }
      if pool in runeCells {
        runeE8 := runeCells[pool].e8;
      }
      if pool in synthCells {
        synthE8 := synthCells[pool].e8;
      }
    }

    /** Adjusts in place through the pointer when the pool is known, else installs a new cell. */
    method AddPoolAssetE8Depth(pool: string, e8: int)
      requires Valid()
      modifies this, owner.Keys
      ensures Valid() && fresh(owner.Keys - old(owner.Keys))
      ensures contents == Apply(old(contents), Add(Asset, pool, e8))
    {
      if pool in assetCells {
        var p := assetCells[pool];
        p.e8 := p.e8 + e8;
        contents := contents.With(Asset, pool, p.e8);
        assert Holds(Rune, runeCells) && Holds(Synth, synthCells);
      } else {
        SetAssetDepth(pool, e8);
      }
    }

    method AddPoolRuneE8Depth(pool: string, e8: int)
      requires Valid()
      modifies this, owner.Keys
      ensures Valid() && fresh(owner.Keys - old(owner.Keys))
      ensures contents == Apply(old(contents), Add(Rune, pool, e8))
    {
      if pool in runeCells {
        var p := runeCells[pool];
        p.e8 := p.e8 + e8;
        contents := contents.With(Rune, pool, p.e8);
        assert Holds(Asset, assetCells) && Holds(Synth, synthCells);
      } else {
        SetRuneDepth(pool, e8);
      }
    }

    method AddPoolSynthE8Depth(pool: string, e8: int)
      requires Valid()
      modifies this, owner.Keys
      ensures Valid() && fresh(owner.Keys - old(owner.Keys))
      ensures contents == Apply(old(contents), Add(Synth, pool, e8))
    {
      if pool in synthCells {
        var p := synthCells[pool];
        p.e8 := p.e8 + e8;
        contents := contents.With(Synth, pool, p.e8);
        assert Holds(Asset, assetCells) && Holds(Rune, runeCells);
      } else {
        SetSynthDepth(pool, e8);
      }
    }

    /** Replaces the cell: nothing that still points to the old one can reach the depth. */
    method SetAssetDepth(pool: string, e8: int)
      requires Valid()
      modifies this
      ensures Valid() && fresh(owner.Keys - old(owner.Keys))
      ensures contents == old(contents).With(Asset, pool, e8)
      ensures pool in assetCells && fresh(assetCells[pool])
    {
      var p := new Cell(e8);
      assetCells := assetCells[pool := p];
      owner := owner[p := (Asset, pool)];
      contents := contents.With(Asset, pool, e8);
    }

    method SetRuneDepth(pool: string, e8: int)
      requires Valid()
      modifies this
      ensures Valid() && fresh(owner.Keys - old(owner.Keys))
      ensures contents == old(contents).With(Rune, pool, e8)
      ensures pool in runeCells && fresh(runeCells[pool])
    {
      var p := new Cell(e8);
      runeCells := runeCells[pool := p];
      owner := owner[p := (Rune, pool)];
      contents := contents.With(Rune, pool, e8);
    }

    method SetSynthDepth(pool: string, e8: int)
      requires Valid()
      modifies this
      ensures Valid() && fresh(owner.Keys - old(owner.Keys))
      ensures contents == old(contents).With(Synth, pool, e8)
      ensures pool in synthCells && fresh(synthCells[pool])
    {
      var p := new Cell(e8);
      synthCells := synthCells[pool := p];
      owner := owner[p := (Synth, pool)];
      contents := contents.With(Synth, pool, e8);
    }

    /** A copy of the values; later changes to the cells do not reach it. */
    method AssetE8DepthPerPool() returns (m: map<string, int>)
      requires Valid()
      ensures m == contents.asset
    {
      m := map[];
      var left := assetCells.Keys;
      while left != {}
        invariant left <= assetCells.Keys
        invariant m == map pool | pool in assetCells && pool !in left :: assetCells[pool].e8
      {
        var pool :| pool in left;
        m := m[pool := assetCells[pool].e8];
        left := left - {pool};
      }
      assert m.Keys == assetCells.Keys;
    }

    method RuneE8DepthPerPool() returns (m: map<string, int>)
      requires Valid()
      ensures m == contents.rune
    {
      m := map[];
      var left := runeCells.Keys;
      while left != {}
        invariant left <= runeCells.Keys
        invariant m == map pool | pool in runeCells && pool !in left :: runeCells[pool].e8
      {
        var pool :| pool in left;
        m := m[pool := runeCells[pool].e8];
        left := left - {pool};
      }
      assert m.Keys == runeCells.Keys;
    }

    method SynthE8DepthPerPool() returns (m: map<string, int>)
      requires Valid()
      ensures m == contents.synth
    {
      m := map[];
      var left := synthCells.Keys;
      while left != {}
        invariant left <= synthCells.Keys
        invariant m == map pool | pool in synthCells && pool !in left :: synthCells[pool].e8
      {
        var pool :| pool in left;
        m := m[pool := synthCells[pool].e8];
        left := left - {pool};
      }
      assert m.Keys == synthCells.Keys;
    }
  }
}
