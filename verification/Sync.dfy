// Fetching: the iterator over block store and chain, catching up, and the endless retry.
// Source: internal/fetch/sync/iterator.go, internal/fetch/sync/sync.go

module Syncing {
  import opened Blocks
  import opened Tables
  import opened BlockStores

  /**
   * What the world answers during one catch-up: the block store's iterator call by call, the chain's
   * iterator by the height it was opened at and call by call, the node's latest height unless the request
   * fails, and whether the process has been told to stop at each look.
   */
  datatype World = World(store: nat -> Fetched, chain: int -> nat -> Fetched, status: Option<int>, stops: nat -> bool)

  /** An iterator of either source; it may yield, end or fail at any time. */
  class Source {
    const script: nat -> Fetched
    var calls: nat

    constructor (script: nat -> Fetched)
      ensures this.script == script && calls == 0
    {
      this.script, this.calls := script, 0;
    }

    method Next() returns (r: Fetched)
      modifies this
      ensures r == script(old(calls)) && calls == old(calls) + 1
    {
      r := script(calls);
      calls := calls + 1;
    }
  }

  /** Which source is being read, and how many answers have been taken from it. */
  datatype Reading = FromStore(calls: nat) | FromChain(openedAt: int, calls: nat)

  /** The next answer: when the store has none, the chain is opened at the height and answers instead. */
  function Ask(w: World, at: Reading, height: int): (Fetched, Reading) {
    match at
    case FromStore(n) =>
      if w.store(n).Got? then (w.store(n), FromStore(n + 1)) else (w.chain(height)(0), FromChain(height, 1))
    case FromChain(openedAt, n) => (w.chain(openedAt)(n), FromChain(openedAt, n + 1))
  }

  /** Reads the block store first and switches to the chain at its end or at its first error. */
  class Iterator {
    const world: World
    var height: int
    const finalHeight: int
    var chainIt: Option<Source>
    var bStoreIt: Option<Source>
    ghost var openedAt: int

    ghost predicate Valid()
      reads this, Sources()
    {
      && (bStoreIt.Some? <==> chainIt.None?)
      && (bStoreIt.Some? ==> bStoreIt.value.script == world.store)
      && (chainIt.Some? ==> chainIt.value.script == world.chain(openedAt))
    }

    ghost function Sources(): set<object>
      reads this
    {
      (if bStoreIt.Some? then {bStoreIt.value} else {}) + (if chainIt.Some? then {chainIt.value} else {})
    }

    ghost function At(): Reading
      reads this, Sources()
      requires Valid()
    {
      if bStoreIt.Some? then FromStore(bStoreIt.value.calls) else FromChain(openedAt, chainIt.value.calls)
    }

    constructor (world: World, startHeight: int, finalHeight: int, storeHeight: int)
      ensures Valid() && fresh(Sources()) && this.world == world
      ensures height == startHeight && this.finalHeight == finalHeight
      ensures At() == if startHeight <= storeHeight then FromStore(0) else FromChain(startHeight, 0)
    {
      this.world := world;
      height := startHeight;
      this.finalHeight := finalHeight;
      chainIt, bStoreIt := None, None;
      openedAt := startHeight;
      new;
      if startHeight <= storeHeight {
        var store := new Source(world.store);
        bStoreIt := Some(store);
      } else {
        var chain := new Source(world.chain(startHeight));
        chainIt := Some(chain);
      }
    }

    /** A block of the next height is handed on, whichever source has it; anything else is a failure. */
    method Next() returns (r: Fetched)
      requires Valid()
      modifies this, Sources()
      ensures Valid() && fresh(Sources() - old(Sources()))
      ensures if finalHeight < old(height) then r == AtEnd && height == old(height) && At() == old(At())
              else
                var (answer, at) := Ask(world, old(At()), old(height));
                && At() == at
                && if answer.Got? && answer.block.height == old(height) then r == answer && height == old(height) + 1
                   else r == Failed && height == old(height)
    {
      if finalHeight < height {
        return AtEnd;
      }
      if bStoreIt.Some? {
        var ret := bStoreIt.value.Next();
        if ret.Got? {
          if ret.block.height != height {
            return Failed;
          }
          height := height + 1;
          return ret;
        } else {
          bStoreIt := None;
          var chain := new Source(world.chain(height));
          chainIt := Some(chain);
          openedAt := height;
        }
      }
      var ret := chainIt.value.Next();
      if ret.Got? {
        if ret.block.height != height {
          return Failed;
        }
        height := height + 1;
        return ret;
      }
      r := Failed;
    }
  }

  // ---- What a catch-up is given ----

  /** The store is left after `m` answers, or is not read at all. */
  ghost predicate SwitchesAt(w: World, start: int, storeHeight: int, m: nat) {
    if start <= storeHeight then !w.store(m).Got? && forall j: nat | j < m :: w.store(j).Got?
    else m == 0
  }

  /** `a` is the answer to question `n`: of the store for as long as it yields, and of the chain from there on. */
  ghost predicate Yields(w: World, start: int, storeHeight: int, n: nat, a: Fetched) {
    || (start <= storeHeight && a == w.store(n) && forall j: nat | j <= n :: w.store(j).Got?)
    || exists m: nat | SwitchesAt(w, start, storeHeight, m) && m <= n :: a == w.chain(start + m)(n - m)
  }

  /** The blocks of the heights from `start` up to `height`, as they were yielded. */
  ghost predicate Delivered(w: World, start: int, storeHeight: int, height: int, bs: seq<Block>) {
    && |bs| == height - start && Consecutive(bs, start)
    && forall j: nat | j < |bs| :: Yields(w, start, storeHeight, j, Got(bs[j]))
  }

  lemma OneMoreDelivered(w: World, start: int, storeHeight: int, height: int, bs: seq<Block>, b: Block)
    requires Delivered(w, start, storeHeight, height, bs) && b.height == height
    requires start <= height && Yields(w, start, storeHeight, height - start, Got(b))
    ensures Delivered(w, start, storeHeight, height + 1, bs + [b])
  {
    hide Yields;
  }

  /** The chain yields every block up to the target, from wherever it is opened; the store, for as long as it yields. */
  ghost predicate Serves(w: World, start: int, target: int) {
    && (forall j: nat :: w.store(j).Got? ==> w.store(j).block.height == start + j)
    && (forall h, j: nat | start <= h && h + j <= target :: w.chain(h)(j).Got? && w.chain(h)(j).block.height == h + j)
    && forall k :: !w.stops(k)
  }

  /** No block is sent after a stop: there are two looks before each of the `n` blocks, and none says so. */
  ghost predicate NoStopSeen(w: World, looks: nat, n: int) {
    forall k: nat | looks <= k < looks + 2 * n :: !w.stops(k)
  }

  /** Where a reader stands after `n` answers that were blocks. */
  ghost predicate Stands(w: World, start: int, storeHeight: int, n: nat, at: Reading) {
    match at
    case FromStore(calls) => start <= storeHeight && calls == n && forall j: nat | j < n :: w.store(j).Got?
    case FromChain(openedAt, calls) =>
      exists m: nat | SwitchesAt(w, start, storeHeight, m) :: openedAt == start + m && calls == n - m
  }

  lemma AskYields(w: World, start: int, storeHeight: int, n: nat, at: Reading)
    requires Stands(w, start, storeHeight, n, at)
    ensures var (a, at') := Ask(w, at, start + n);
            Yields(w, start, storeHeight, n, a) && Stands(w, start, storeHeight, n + 1, at')
  {
    if at.FromStore? {
      if !w.store(n).Got? {
        assert SwitchesAt(w, start, storeHeight, n);
      }
    } else {
      var m: nat :| SwitchesAt(w, start, storeHeight, m) && at.openedAt == start + m && at.calls == n - m;
    }
  }

  /** Sources that serve up to a target yield the block of every height up to it. */
  lemma ServedBlocks(w: World, start: int, storeHeight: int, target: int, n: nat, a: Fetched)
    requires Serves(w, start, target) && Yields(w, start, storeHeight, n, a) && start + n <= target
    ensures a.Got? && a.block.height == start + n
  {
  }

  /** How a catch-up ended. */
  datatype Outcome = Reached | StatusFailed | FetchFailed | Cancelled

  /** One catch-up: where it started, up to which height it meant to fetch, where it stopped. */
  datatype Round = Round(start: int, target: int, end: int, outcome: Outcome)

  predicate IsError(o: Outcome) {
    o == StatusFailed || o == FetchFailed
  }

  /** The number of failed rounds at the height where the run is stuck, not counting the first round there. */
  function Stalls(rounds: seq<Round>): nat {
    if |rounds| <= 1 then 0
    else
      var r := rounds[|rounds| - 1];
      if r.start != r.end then 0
      else Stalls(rounds[..|rounds| - 1]) + if IsError(r.outcome) then 1 else 0
  }

  const MAX_ERROR_COUNT := 20
  const HEIGHT_EPSILON := 10

  class Sync {
    var failedThorNodeFetchHeight: int
    const storeHeight: int
    /** What has been sent on the channel. */
    var sent: seq<Block>
    /** Whether some catch-up was found to be in sync. */
    var caughtUp: bool
    ghost var rounds: seq<Round>

    constructor (storeHeight: int)
      ensures failedThorNodeFetchHeight == -1 && sent == [] && rounds == [] && !caughtUp
    {
      failedThorNodeFetchHeight := -1;
      this.storeHeight := storeHeight;
      sent, rounds, caughtUp := [], [], false;
    }

    /**
     * Sends the blocks from a height up to a target: the height that failed last time, or the node's latest.
     * What is sent is what the sources yield, and when they serve up to the target, it is reached.
     */
    method CatchUp(w: World, startHeight: int, looks: nat)
      returns (height: int, inSync: bool, outcome: Outcome, ghost round: Round, ghost more: seq<Block>)
      requires 0 < startHeight
      modifies this`failedThorNodeFetchHeight, this`sent, this`rounds
      ensures sent == old(sent) + more && Delivered(w, startHeight, storeHeight, height, more)
      ensures rounds == old(rounds) + [round]
      ensures round.start == startHeight && round.end == height && round.outcome == outcome
      ensures RoundOf(round, old(failedThorNodeFetchHeight), failedThorNodeFetchHeight)
      ensures AnswersTo(w, storeHeight, old(failedThorNodeFetchHeight), round)
      ensures inSync <==> outcome == Reached && round.target < startHeight + HEIGHT_EPSILON
      ensures NoStopSeen(w, looks, height - startHeight)
    {
      ghost var failed := failedThorNodeFetchHeight;
      if failedThorNodeFetchHeight < startHeight {
        failedThorNodeFetchHeight := -1;
      }
      var finalBlockHeight;
      if 0 < failedThorNodeFetchHeight {
        finalBlockHeight := failedThorNodeFetchHeight;
        failedThorNodeFetchHeight := -1;
      } else {
        if w.status.None? {
          StartsFresh(w, startHeight, storeHeight);
          round := Round(startHeight, 0, startHeight, StatusFailed);
          rounds := rounds + [round];
          return startHeight, false, StatusFailed, round, [];
        }
        finalBlockHeight := w.status.value;
      }
      hide Yields, Delivered;
      inSync := finalBlockHeight < startHeight + HEIGHT_EPSILON;
      height, outcome := FetchUpTo(w, startHeight, finalBlockHeight, looks);
      more := sent[|old(sent)|..];
      if outcome == FetchFailed {
        failedThorNodeFetchHeight := finalBlockHeight;
      }
      inSync := inSync && outcome == Reached;
      round := Round(startHeight, finalBlockHeight, height, outcome);
      rounds := rounds + [round];
    }

    /** The loop of a catch-up: it ends with the target, at a failure, or when the process is told to stop. */
    method FetchUpTo(w: World, startHeight: int, finalBlockHeight: int, looks: nat)
      returns (height: int, outcome: Outcome)
      requires 0 < startHeight
      modifies this`sent
      ensures old(sent) <= sent && Delivered(w, startHeight, storeHeight, height, sent[|old(sent)|..])
      ensures outcome != StatusFailed
      ensures Stopped(w, storeHeight, Round(startHeight, finalBlockHeight, height, outcome))
      ensures NoStopSeen(w, looks, height - startHeight)
    {
      hide Yields, Stands, Ask, Delivered;
      StartsFresh(w, startHeight, storeHeight);
      assert sent[|sent|..] == [];
      var i := new Iterator(w, startHeight, finalBlockHeight, storeHeight);
      height := startHeight;
      var look := looks;
      while true
        invariant i.Valid() && fresh(i) && fresh(i.Sources()) && i.world == w
        invariant i.height == height && i.finalHeight == finalBlockHeight
        invariant startHeight <= height && (height > startHeight ==> height <= finalBlockHeight + 1)
        invariant look == looks + 2 * (height - startHeight) && NoStopSeen(w, looks, height - startHeight)
        invariant Stands(w, startHeight, storeHeight, height - startHeight, i.At())
        invariant old(sent) <= sent && Delivered(w, startHeight, storeHeight, height, sent[|old(sent)|..])
        decreases finalBlockHeight + 1 - height
      {
        if w.stops(look) {
          return height, Cancelled;
        }
        AskYields(w, startHeight, storeHeight, height - startHeight, i.At());
        var block := i.Next();
        if block.Failed? {
          return height, FetchFailed;
        }
        if block.AtEnd? {
          return height, Reached;
        }
        if w.stops(look + 1) {
          return height, Cancelled;
        }
        OneMoreDelivered(w, startHeight, storeHeight, height, sent[|old(sent)|..], block.block);
        assert sent[|old(sent)|..] + [block.block] == (sent + [block.block])[|old(sent)|..];
        sent := sent + [block.block];
        height := block.block.height + 1;
        look := look + 2;
      }
    }

    /** One round of the endless loop. */
    method DoRound(ghost worlds: nat -> World, w: World, ghost first: int, start: int)
      returns (next: int, outcome: Outcome)
      requires 0 < start == first + |sent| && w == worlds(|rounds|)
      requires Went(worlds, storeHeight, first, sent, rounds, failedThorNodeFetchHeight, caughtUp)
      modifies this
      ensures Went(worlds, storeHeight, first, sent, rounds, failedThorNodeFetchHeight, caughtUp)
      ensures next == first + |sent| && |rounds| == |old(rounds)| + 1
      ensures Stalls(old(rounds)) <= MAX_ERROR_COUNT ==> IsPatient(rounds)
      ensures Stalls(rounds)
              == if old(rounds) == [] || start != next then 0
                 else Stalls(old(rounds)) + if IsError(outcome) then 1 else 0
    {
      hide Delivered, RoundOf, AnswersTo, Stalls, Went, IsPatient;
      var inSync;
      ghost var round, more;
      next, inSync, outcome, round, more := CatchUp(w, start, 1);
      if inSync {
        caughtUp := true;
      }
      GoesOn(worlds, storeHeight, first, old(sent), old(rounds), old(failedThorNodeFetchHeight), old(caughtUp), more,
             round, failedThorNodeFetchHeight);
    }

    /**
     * Over any number of rounds the heights sent are exactly the next ones, without gap or repeat. After
     * a failed fetch the next round has the same target. The run gives up only after too many failures
     * at one height.
     */
    method KeepInSync(worlds: nat -> World, heightOnStart: nat, maxRounds: nat) returns (gaveUp: bool)
      requires sent == [] && rounds == [] && !caughtUp
      modifies this
      ensures Went(worlds, storeHeight, heightOnStart + 1, sent, rounds, failedThorNodeFetchHeight, caughtUp)
      ensures gaveUp <==> Stalls(rounds) > MAX_ERROR_COUNT
      ensures IsPatient(rounds)
      ensures |rounds| == maxRounds || gaveUp || worlds(|rounds|).stops(0)
    {
      hide Stalls, Went, IsPatient, Yields, Stands, AnswersTo, Stopped, RoundOf, RunOf, Delivered, CaughtUp,
           RoundsAnswer;
      failedThorNodeFetchHeight := -1;
      var nextHeightToFetch: int := heightOnStart + 1;
      var previousHeight := 0;
      var errorCountAtCurrentHeight := 0;
      gaveUp := false;
      StandsStill(worlds, storeHeight, heightOnStart + 1);
      for i := 0 to maxRounds
        invariant |rounds| == i
        invariant Went(worlds, storeHeight, heightOnStart + 1, sent, rounds, failedThorNodeFetchHeight, caughtUp)
        invariant nextHeightToFetch == heightOnStart + 1 + |sent|
        invariant previousHeight == if rounds == [] then 0 else nextHeightToFetch
        invariant IsPatient(rounds)
        invariant errorCountAtCurrentHeight == Stalls(rounds) <= MAX_ERROR_COUNT
        invariant !gaveUp
      {
        if worlds(i).stops(0) {
          return false;
        }
        var outcome;
        nextHeightToFetch, outcome := DoRound(worlds, worlds(i), heightOnStart + 1, nextHeightToFetch);
        if IsError(outcome) {
          if nextHeightToFetch == previousHeight {
            errorCountAtCurrentHeight := errorCountAtCurrentHeight + 1;
            if MAX_ERROR_COUNT < errorCountAtCurrentHeight {
              return true;
            }
          }
        }
        if previousHeight != nextHeightToFetch {
          previousHeight := nextHeightToFetch;
          errorCountAtCurrentHeight := 0;
        }
      }
    }
  }

  /** The height that failed, which the round before leaves behind. */
  function FailedBefore(rounds: seq<Round>, i: nat): int
    requires i <= |rounds|
  {
    if 0 < i && rounds[i - 1].outcome == FetchFailed then rounds[i - 1].target else -1
  }

  /** The target of a catch-up: the height that failed before, or else what the node reports. */
  function TargetOf(w: World, start: int, failed: int): Option<int> {
    if 0 < failed && start <= failed then Some(failed) else w.status
  }

  /** Where a fetching round ends: it fails only when it is told something else than the next block. */
  ghost predicate Stopped(w: World, storeHeight: int, r: Round) {
    && r.start <= r.end && (r.start < r.end ==> r.end <= r.target + 1)
    && match r.outcome
       case Reached => r.target < r.end
       case FetchFailed =>
         && r.end <= r.target
         && exists a ::
              Yields(w, r.start, storeHeight, r.end - r.start, a) && !(a.Got? && a.block.height == r.end)
       case Cancelled => exists k :: w.stops(k)
       case StatusFailed => r.end == r.start
  }

  /** How a round answers to what it was given. */
  ghost predicate AnswersTo(w: World, storeHeight: int, failed: int, r: Round) {
    && Stopped(w, storeHeight, r)
    && (r.outcome == StatusFailed <==> TargetOf(w, r.start, failed).None?)
    && (r.outcome != StatusFailed ==> Some(r.target) == TargetOf(w, r.start, failed))
  }

  ghost predicate RoundsAnswer(worlds: nat -> World, storeHeight: int, rounds: seq<Round>) {
    forall i: nat | i < |rounds| :: AnswersTo(worlds(i), storeHeight, FailedBefore(rounds, i), rounds[i])
  }

  /** Some round reached a target that was not far from where it started. */
  predicate CaughtUp(rounds: seq<Round>) {
    exists r <- rounds :: r.outcome == Reached && r.target < r.start + HEIGHT_EPSILON
  }

  lemma RoundAnswered(worlds: nat -> World, storeHeight: int, before: seq<Round>, r: Round)
    requires RoundsAnswer(worlds, storeHeight, before)
    requires AnswersTo(worlds(|before|), storeHeight, FailedBefore(before, |before|), r)
    ensures RoundsAnswer(worlds, storeHeight, before + [r])
    ensures CaughtUp(before + [r])
            <==> CaughtUp(before) || (r.outcome == Reached && r.target < r.start + HEIGHT_EPSILON)
  {
    hide AnswersTo;
    var all := before + [r];
    forall i: nat | i < |all|
      ensures AnswersTo(worlds(i), storeHeight, FailedBefore(all, i), all[i])
    {
      assert i < |before| ==> FailedBefore(all, i) == FailedBefore(before, i);
    }
  }

  /** Served up to its target, a catch-up reaches it: every block up to it is sent. */
  lemma ServedRoundsReach(w: World, storeHeight: int, failed: int, r: Round)
    requires AnswersTo(w, storeHeight, failed, r) && TargetOf(w, r.start, failed).Some? && Serves(w, r.start, r.target)
    ensures r.outcome == Reached && r.end == if r.target < r.start then r.start else r.target + 1
  {
    hide Yields, Serves;
    if r.outcome == FetchFailed {
      var a :| Yields(w, r.start, storeHeight, r.end - r.start, a) && !(a.Got? && a.block.height == r.end);
      ServedBlocks(w, r.start, storeHeight, r.target, r.end - r.start, a);
      assert false;
    }
    assert r.outcome != Cancelled by { NotStopped(w, r.start, r.target); }
  }

  lemma NotStopped(w: World, start: int, target: int)
    requires Serves(w, start, target)
    ensures forall k :: !w.stops(k)
  {
  }

  /** Every round is told a target and served up to it. */
  ghost predicate AllServed(worlds: nat -> World, rounds: seq<Round>) {
    forall i: nat | i < |rounds| ::
      TargetOf(worlds(i), rounds[i].start, FailedBefore(rounds, i)).Some?
      && Serves(worlds(i), rounds[i].start, rounds[i].target)
  }

  /** A run in which every round is served reaches every target, and is never given up. */
  lemma ServedRunsGoOn(worlds: nat -> World, storeHeight: int, first: int, sent: seq<Block>, rounds: seq<Round>,
                       failed: int, caughtUp: bool)
    requires Went(worlds, storeHeight, first, sent, rounds, failed, caughtUp) && AllServed(worlds, rounds)
    ensures forall r <- rounds ::
              r.outcome == Reached && r.end == if r.target < r.start then r.start else r.target + 1
    ensures Stalls(rounds) == 0
  {
    hide AnswersTo, Serves, RunOf, CaughtUp, Stalls;
    forall r <- rounds
      ensures r.outcome == Reached && r.end == if r.target < r.start then r.start else r.target + 1
    {
      var i :| 0 <= i < |rounds| && rounds[i] == r;
      assert AnswersTo(worlds(i), storeHeight, FailedBefore(rounds, i), r);
      ServedRoundsReach(worlds(i), storeHeight, FailedBefore(rounds, i), r);
    }
    NeverStalls(rounds);
  }

  lemma {:induction false} NeverStalls(rounds: seq<Round>)
    requires forall r <- rounds :: r.outcome == Reached
    ensures Stalls(rounds) == 0
  {
    if |rounds| > 1 {
      NeverStalls(rounds[..|rounds| - 1]);
    }
  }

  lemma StartsFresh(w: World, start: int, storeHeight: int)
    ensures Stands(w, start, storeHeight, 0, if start <= storeHeight then FromStore(0) else FromChain(start, 0))
    ensures Delivered(w, start, storeHeight, start, [])
  {
    assert start > storeHeight ==> SwitchesAt(w, start, storeHeight, 0);
  }

  /** One round: it never goes beyond its target, and the failed height of the round before is its target. */
  ghost predicate RoundOf(r: Round, oldFailed: int, newFailed: int) {
    && r.start <= r.end && (r.start < r.end ==> r.end <= r.target + 1)
    && (0 < oldFailed && r.start <= oldFailed ==> r.target == oldFailed && r.outcome != StatusFailed)
    && (r.outcome == StatusFailed ==> r.end == r.start)
    && (r.outcome == Reached ==> r.target < r.end)
    && (r.outcome == FetchFailed ==> r.end <= r.target)
    && newFailed == if r.outcome == FetchFailed then r.target else -1
  }

  /**
   * A whole run: each round starts where the one before stopped, none goes beyond its target, and a
   * round after a failed fetch aims at the very height that the failed one aimed at, without asking
   * for the status. The last two arguments are where the run stands.
   */
  ghost predicate RunOf(rounds: seq<Round>, first: int, next: int, failed: int)
    decreases |rounds|
  {
    if rounds == [] then next == first && failed == -1
    else
      var r := rounds[|rounds| - 1];
      r.end == next && exists oldFailed ::
        RoundOf(r, oldFailed, failed) && RunOf(rounds[..|rounds| - 1], first, r.start, oldFailed)
  }

  lemma RoundAdded(before: seq<Round>, r: Round, first: int, oldFailed: int, failed: int)
    requires RunOf(before, first, r.start, oldFailed) && RoundOf(r, oldFailed, failed)
    ensures RunOf(before + [r], first, r.end, failed)
    ensures Stalls(before + [r])
            == if before == [] || r.start != r.end then 0 else Stalls(before) + if IsError(r.outcome) then 1 else 0
  {
    assert (before + [r])[..|before|] == before;
  }

  /** The rounds that neither reached their target nor were told to stop. */
  function Errors(rounds: seq<Round>): nat {
    if rounds == [] then 0
    else
      var o := rounds[|rounds| - 1].outcome;
      Errors(rounds[..|rounds| - 1]) + if o == Reached || o == Cancelled then 0 else 1
  }

  /** What the count means: since some round `k` nothing has been sent, and so many rounds have failed. */
  lemma {:induction false} StuckSince(rounds: seq<Round>, first: int, next: int, failed: int) returns (k: nat)
    requires RunOf(rounds, first, next, failed)
    ensures k <= |rounds| && forall i | k <= i < |rounds| :: rounds[i].start == rounds[i].end == next
    ensures Errors(rounds[k..]) == Stalls(rounds)
  {
    k := |rounds|;
    if |rounds| > 1 && rounds[|rounds| - 1].start == rounds[|rounds| - 1].end {
      var front, r := rounds[..|rounds| - 1], rounds[|rounds| - 1];
      var oldFailed :| RoundOf(r, oldFailed, failed) && RunOf(front, first, r.start, oldFailed);
      k := StuckSince(front, first, r.start, oldFailed);
      assert rounds[k..][..|rounds[k..]| - 1] == front[k..];
    }
  }

  /** A run goes on for as long as there have not been too many failures. */
  predicate IsPatient(rounds: seq<Round>) {
    0 < |rounds| ==> Stalls(rounds[..|rounds| - 1]) <= MAX_ERROR_COUNT
  }

  /** Where a run stands: what has been sent has no gap, and each round follows from the one before and its world. */
  ghost predicate Went(worlds: nat -> World, storeHeight: int, first: int, sent: seq<Block>, rounds: seq<Round>,
                       failed: int, caughtUp: bool) {
    && Consecutive(sent, first)
    && RunOf(rounds, first, first + |sent|, failed)
    && RoundsAnswer(worlds, storeHeight, rounds)
    && failed == FailedBefore(rounds, |rounds|)
    && (caughtUp <==> CaughtUp(rounds))
  }

  lemma StandsStill(worlds: nat -> World, storeHeight: int, first: int)
    ensures Went(worlds, storeHeight, first, [], [], -1, false) && Stalls([]) == 0 && IsPatient([])
  {
  }

  lemma GoesOn(worlds: nat -> World, storeHeight: int, first: int, sent: seq<Block>, rounds: seq<Round>, failed: int,
               caughtUp: bool, more: seq<Block>, r: Round, newFailed: int)
    requires Went(worlds, storeHeight, first, sent, rounds, failed, caughtUp)
    requires r.start == first + |sent| && Delivered(worlds(|rounds|), r.start, storeHeight, r.end, more)
    requires RoundOf(r, failed, newFailed) && AnswersTo(worlds(|rounds|), storeHeight, failed, r)
    ensures Went(worlds, storeHeight, first, sent + more, rounds + [r], newFailed,
                 caughtUp || (r.outcome == Reached && r.target < r.start + HEIGHT_EPSILON))
    ensures r.end == first + |sent + more|
    ensures Stalls(rounds) <= MAX_ERROR_COUNT ==> IsPatient(rounds + [r])
    ensures Stalls(rounds + [r])
            == if rounds == [] || r.start != r.end then 0 else Stalls(rounds) + if IsError(r.outcome) then 1 else 0
  {
    hide RunOf, RoundsAnswer, CaughtUp, Stalls, AnswersTo, Delivered, Consecutive;
    assert (rounds + [r])[..|rounds|] == rounds;
    RoundAdded(rounds, r, first, failed, newFailed);
    RoundAnswered(worlds, storeHeight, rounds, r);
    DeliveredMore(worlds(|rounds|), storeHeight, sent, more, first, r.end);
  }

  lemma DeliveredMore(w: World, storeHeight: int, bs: seq<Block>, cs: seq<Block>, first: int, height: int)
    requires Consecutive(bs, first) && Delivered(w, first + |bs|, storeHeight, height, cs)
    ensures Consecutive(bs + cs, first) && height == first + |bs + cs|
  {
    hide Yields;
  }

  /** The successor of a failed fetch, anywhere in a run. */
  lemma {:induction false} RatchetHolds(rounds: seq<Round>, first: int, next: int, failed: int, i: nat)
    requires RunOf(rounds, first, next, failed) && i < |rounds| && rounds[i].outcome == FetchFailed
             && 0 < rounds[i].target
    ensures i + 1 == |rounds| ==> failed == rounds[i].target
    ensures i + 1 < |rounds| ==>
              rounds[i + 1].start == rounds[i].end <= rounds[i + 1].target == rounds[i].target
                && rounds[i + 1].outcome != StatusFailed
  {
    var r := rounds[|rounds| - 1];
    var oldFailed :| RoundOf(r, oldFailed, failed) && RunOf(rounds[..|rounds| - 1], first, r.start, oldFailed);
    if i + 1 < |rounds| {
      RatchetHolds(rounds[..|rounds| - 1], first, r.start, oldFailed, i);
      if i + 2 == |rounds| {
        assert rounds[..|rounds| - 1][|rounds| - 2] == rounds[i];
      }
    }
  }

  /** So the target stays at the failed height for as long as fetches fail, and until it is reached. */
  lemma {:induction false} TargetStays(rounds: seq<Round>, first: int, next: int, failed: int, i: nat, j: nat)
    requires RunOf(rounds, first, next, failed) && i <= j < |rounds| && 0 < rounds[i].target
    requires forall k | i <= k < j :: rounds[k].outcome == FetchFailed
    ensures rounds[j].target == rounds[i].target
    decreases j - i
  {
    if i < j {
      TargetStays(rounds, first, next, failed, i, j - 1);
      RatchetHolds(rounds, first, next, failed, j - 1);
    }
  }
}
