// Chains that continue other chains after a hard fork.
// Source: internal/db/chainancestry.go

module Forks {
  import opened Tables

  /** A chain; a height of zero is not given, and so is an empty parent. */
  datatype ForkInfo = ForkInfo(
    chainId: string,
    parentChainId: string,
    earliestBlockHash: string,
    earliestBlockHeight: int,
    hardForkHeight: int)

  type ForkMap = map<string, ForkInfo>

  /** An entry with its default height filled in, or none where the program stops. */
  function Checked(m: ForkMap, fi: ForkInfo): Option<ForkInfo> {
    if fi.parentChainId != "" && fi.parentChainId !in m then None
    else if fi.parentChainId != "" && m[fi.parentChainId].hardForkHeight == 0 then None
    else
      var first := if fi.parentChainId != "" then m[fi.parentChainId].hardForkHeight + 1 else 1;
      var full := if fi.earliestBlockHeight == 0 then fi.(earliestBlockHeight := first) else fi;
      if fi.parentChainId != "" && full.earliestBlockHeight != first then None
      else if full.hardForkHeight != 0 && full.hardForkHeight < full.earliestBlockHeight then None
      else Some(full)
  }

  function Combined(infos: seq<ForkInfo>): Option<ForkMap> {
    if infos == [] then Some(map[])
    else
      var front, fi := Combined(infos[..|infos| - 1]), infos[|infos| - 1];
      if front.None? then None
      else
        var full := Checked(front.value, fi);
        if full.None? then None else Some(front.value[fi.chainId := full.value])
  }

  lemma CombinedNext(infos: seq<ForkInfo>, fi: ForkInfo)
    ensures Combined([]) == Some(map[])
    ensures Combined(infos).Some? ==>
              Combined(infos + [fi]) == match Checked(Combined(infos).value, fi)
                                        case None => None
                                        case Some(full) => Some(Combined(infos).value[fi.chainId := full])
  {
    assert (infos + [fi])[..|infos|] == infos;
  }

  /** The map of all chains, or none when the program stops at a wrong one. */
  method CombinedForkInfoMap(infos: seq<ForkInfo>) returns (r: Option<ForkMap>)
    ensures r == Combined(infos)
  {
    var m: ForkMap := map[];
    for i := 0 to |infos|
      invariant Combined(infos[..i]) == Some(m)
    {
      CombinedNext(infos[..i], infos[i]);
      assert infos[..i + 1] == infos[..i] + [infos[i]];
      hide Combined;
      var fi := infos[i];
      if fi.parentChainId != "" {
        if fi.parentChainId !in m {
          CombinedStops(infos, i + 1);
          return None;
        }
        var parent := m[fi.parentChainId];
        if parent.hardForkHeight == 0 {
          CombinedStops(infos, i + 1);
          return None;
        }
        if fi.earliestBlockHeight == 0 {
          fi := fi.(earliestBlockHeight := parent.hardForkHeight + 1);
        }
        if fi.earliestBlockHeight != parent.hardForkHeight + 1 {
          CombinedStops(infos, i + 1);
          return None;
        }
      } else {
        if fi.earliestBlockHeight == 0 {
          fi := fi.(earliestBlockHeight := 1);
        }
      }
      if fi.hardForkHeight != 0 && fi.hardForkHeight < fi.earliestBlockHeight {
        CombinedStops(infos, i + 1);
        return None;
      }
      m := m[fi.chainId := fi];
    }
    assert infos[..|infos|] == infos;
    r := Some(m);
  }

  lemma {:induction false} CombinedStops(infos: seq<ForkInfo>, n: nat)
    requires n <= |infos| && Combined(infos[..n]).None?
    ensures Combined(infos).None?
    decreases |infos| - n
  {
    if n < |infos| {
      assert infos[..n + 1][..n] == infos[..n];
      CombinedStops(infos, n + 1);
    } else {
      assert infos[..n] == infos;
    }
  }

  // ---- Which lists are accepted ----

  /** The last one of the first `n` entries with a name. */
  function LastOf(infos: seq<ForkInfo>, n: nat, id: string): (r: Option<nat>)
    requires n <= |infos|
    ensures match r
            case None => forall i | 0 <= i < n :: infos[i].chainId != id
            case Some(k) => k < n && infos[k].chainId == id && forall i | k < i < n :: infos[i].chainId != id
  {
    if n == 0 then None else if infos[n - 1].chainId == id then Some(n - 1) else LastOf(infos, n - 1, id)
  }

  /** Where an entry must begin: at one without a parent, otherwise right after the parent's last block. */
  function DefaultStart(infos: seq<ForkInfo>, i: nat): int
    requires i < |infos|
  {
    var parent := LastOf(infos, i, infos[i].parentChainId);
    if infos[i].parentChainId == "" || parent.None? then 1 else infos[parent.value].hardForkHeight + 1
  }

  function StartOf(infos: seq<ForkInfo>, i: nat): int
    requires i < |infos|
  {
    if infos[i].earliestBlockHeight != 0 then infos[i].earliestBlockHeight else DefaultStart(infos, i)
  }

  /** An entry is right when its parent, if it has one, is listed before, has ended, and is continued by it. */
  predicate IsRight(infos: seq<ForkInfo>, i: nat)
    requires i < |infos|
  {
    var fi := infos[i];
    var parent := LastOf(infos, i, fi.parentChainId);
    && (fi.parentChainId != "" ==>
          && parent.Some? && infos[parent.value].hardForkHeight != 0
          && StartOf(infos, i) == infos[parent.value].hardForkHeight + 1)
    && (fi.hardForkHeight == 0 || StartOf(infos, i) <= fi.hardForkHeight)
  }

  /** The map has for each name its last entry, with the height at which it begins. */
  ghost predicate HoldsLast(m: ForkMap, infos: seq<ForkInfo>, n: nat)
    requires n <= |infos|
  {
    forall id: string ::
      && (id in m <==> LastOf(infos, n, id).Some?)
      && (id in m ==> m[id] == infos[LastOf(infos, n, id).value].(earliestBlockHeight :=
                                 StartOf(infos, LastOf(infos, n, id).value)))
  }

  lemma CheckedIsRight(m: ForkMap, infos: seq<ForkInfo>, i: nat)
    requires i < |infos| && HoldsLast(m, infos, i)
    ensures Checked(m, infos[i]).Some? <==> IsRight(infos, i)
    ensures IsRight(infos, i) ==> Checked(m, infos[i]).value == infos[i].(earliestBlockHeight := StartOf(infos, i))
  {
  }

  lemma {:induction false} AcceptedUpTo(infos: seq<ForkInfo>, n: nat)
    requires n <= |infos|
    ensures Combined(infos[..n]).Some? <==> forall i: nat | i < n :: IsRight(infos, i)
    ensures Combined(infos[..n]).Some? ==> HoldsLast(Combined(infos[..n]).value, infos, n)
  {
    NoneAccepted(infos);
    hide Combined, Checked, IsRight, StartOf, HoldsLast;
    if n > 0 {
      AcceptedUpTo(infos, n - 1);
      CombinedNext(infos[..n - 1], infos[n - 1]);
      assert infos[..n] == infos[..n - 1] + [infos[n - 1]];
      if Combined(infos[..n - 1]).Some? {
        var m := Combined(infos[..n - 1]).value;
        CheckedIsRight(m, infos, n - 1);
        LastNext(m, infos, n);
      } else {
        CombinedStops(infos[..n], n - 1);
      }
    }
  }

  lemma NoneAccepted(infos: seq<ForkInfo>)
    ensures Combined(infos[..0]) == Some(map[]) && HoldsLast(map[], infos, 0)
  {
  }

  lemma LastNext(m: ForkMap, infos: seq<ForkInfo>, n: nat)
    requires 0 < n <= |infos| && HoldsLast(m, infos, n - 1)
    ensures var fi := infos[n - 1];
            HoldsLast(m[fi.chainId := fi.(earliestBlockHeight := StartOf(infos, n - 1))], infos, n)
  {
    hide StartOf;
  }

  /** A list is accepted exactly when all its entries are right; the map then has the last one of each name. */
  lemma AcceptedExactly(infos: seq<ForkInfo>)
    ensures Combined(infos).Some? <==> forall i: nat | i < |infos| :: IsRight(infos, i)
    ensures Combined(infos).Some? ==> HoldsLast(Combined(infos).value, infos, |infos|)
  {
    AcceptedUpTo(infos, |infos|);
    assert infos[..|infos|] == infos;
  }

  // ---- What the checks achieve ----

  /** Chains have their own names, and none is called by the empty one. */
  predicate ProperIds(infos: seq<ForkInfo>) {
    && (forall i | 0 <= i < |infos| :: infos[i].chainId != "")
    && forall i, j | 0 <= i < j < |infos| :: infos[i].chainId != infos[j].chainId
  }

  /** `child` begins right after `parent` ends. */
  predicate Continues(parent: ForkInfo, child: ForkInfo) {
    parent.earliestBlockHeight <= parent.hardForkHeight && child.earliestBlockHeight == parent.hardForkHeight + 1
  }

  ghost predicate Linked(m: ForkMap) {
    && "" !in m
    && forall id <- m ::
         && m[id].chainId == id
         && (m[id].parentChainId != "" ==> m[id].parentChainId in m && Continues(m[m[id].parentChainId], m[id]))
  }

  lemma {:induction false} IdsOf(infos: seq<ForkInfo>)
    requires Combined(infos).Some?
    ensures forall id: string :: id in Combined(infos).value <==> exists i | 0 <= i < |infos| :: infos[i].chainId == id
  {
    if infos != [] {
      var front, fi := infos[..|infos| - 1], infos[|infos| - 1];
      IdsOf(front);
      var m, m' := Combined(front).value, Combined(infos).value;
      assert m'.Keys == m.Keys + {fi.chainId};
      hide Combined;
      forall id: string
        ensures id in m' <==> exists i | 0 <= i < |infos| :: infos[i].chainId == id
      {
        if id in m {
          var i :| 0 <= i < |front| && front[i].chainId == id;
          assert infos[i].chainId == id;
        }
      }
    }
  }

  ghost predicate AllInOrder(m: ForkMap) {
    forall id <- m :: HeightsInOrder(m[id])
  }

  lemma CheckedKeepsLinks(m: ForkMap, fi: ForkInfo)
    requires Linked(m) && AllInOrder(m) && fi.chainId != "" && fi.chainId !in m && Checked(m, fi).Some?
    ensures Linked(m[fi.chainId := Checked(m, fi).value]) && AllInOrder(m[fi.chainId := Checked(m, fi).value])
  {
    var m' := m[fi.chainId := Checked(m, fi).value];
    forall id <- m'
      ensures m'[id].parentChainId != "" ==> m'[id].parentChainId in m' && Continues(m'[m'[id].parentChainId], m'[id])
      ensures HeightsInOrder(m'[id])
    {
      if id == fi.chainId && fi.parentChainId != "" {
        assert HeightsInOrder(m[fi.parentChainId]);
      }
    }
  }

  lemma {:induction false} CombinedIsLinked(infos: seq<ForkInfo>)
    requires ProperIds(infos) && Combined(infos).Some?
    ensures Linked(Combined(infos).value) && AllInOrder(Combined(infos).value)
  {
    if infos != [] {
      var front, fi := infos[..|infos| - 1], infos[|infos| - 1];
      CombinedIsLinked(front);
      IdsOf(front);
      hide Linked, AllInOrder, Checked;
      var m := Combined(front).value;
      assert forall i | 0 <= i < |front| :: front[i] == infos[i] && infos[i].chainId != fi.chainId;
      CheckedKeepsLinks(m, fi);
    }
  }

  /** A chain that ends does not end before it begins. */
  predicate HeightsInOrder(fi: ForkInfo) {
    fi.hardForkHeight != 0 ==> fi.earliestBlockHeight <= fi.hardForkHeight
  }

  /** What holds of every accepted list: chains are found under their own names, and parents are listed. */
  ghost predicate Known(m: ForkMap) {
    forall id <- m :: m[id].chainId == id && (m[id].parentChainId == "" || m[id].parentChainId in m)
  }

  lemma {:induction false} CombinedIsKnown(infos: seq<ForkInfo>)
    requires Combined(infos).Some?
    ensures Known(Combined(infos).value)
  {
    if infos != [] {
      CombinedIsKnown(infos[..|infos| - 1]);
    }
  }

  // ---- Walking to the root ----

  /** The walk from `target` makes at least `n` steps. */
  predicate Walks(m: ForkMap, target: ForkInfo, n: nat)
    decreases n
  {
    n == 0 || (target.parentChainId in m && Walks(m, m[target.parentChainId], n - 1))
  }

  /** The walk leaves the map within as many steps as it has chains; see `WalksEndSoonOrNever`. */
  predicate Ends(m: ForkMap, target: ForkInfo) {
    !Walks(m, target, |m| + 1)
  }

  lemma {:induction false} FewerSteps(m: ForkMap, target: ForkInfo, k: nat, n: nat)
    requires k <= n && Walks(m, target, n)
    ensures Walks(m, target, k)
    decreases k
  {
    if k > 0 {
      FewerSteps(m, m[target.parentChainId], k - 1, n - 1);
    }
  }

  /** The chains from which the walk makes fewer than `k` steps. */
  ghost function Shorter(m: ForkMap, k: nat): set<string> {
    set id <- m | !Walks(m, m[id], k)
  }

  /** A walk of exactly `k` steps passes chains with shorter and shorter walks. */
  lemma {:induction false} ShorterAreMany(m: ForkMap, target: ForkInfo, k: nat)
    requires Walks(m, target, k) && !Walks(m, target, k + 1)
    ensures k <= |Shorter(m, k)|
    decreases k
  {
    if k > 0 {
      var parent := m[target.parentChainId];
      ShorterAreMany(m, parent, k - 1);
      forall id <- Shorter(m, k - 1)
        ensures id in Shorter(m, k)
      {
        if Walks(m, m[id], k) { FewerSteps(m, m[id], k - 1, k); }
      }
      assert target.parentChainId in Shorter(m, k) && target.parentChainId !in Shorter(m, k - 1);
      Smaller(Shorter(m, k - 1), Shorter(m, k), target.parentChainId);
    }
  }

  lemma {:induction false} StepsOf(m: ForkMap, target: ForkInfo, n: nat) returns (k: nat)
    requires !Walks(m, target, n)
    ensures k < n && Walks(m, target, k) && !Walks(m, target, k + 1)
  {
    if Walks(m, target, n - 1) {
      k := n - 1;
    } else {
      k := StepsOf(m, target, n - 1);
    }
  }

  /** A walk that is longer than the map never ends, and every other one ends: what a caller can test. */
  lemma WalksEndSoonOrNever(m: ForkMap, target: ForkInfo)
    ensures Ends(m, target) <==> exists n: nat :: !Walks(m, target, n)
  {
    if n: nat :| !Walks(m, target, n) {
      var k := StepsOf(m, target, n);
      ShorterAreMany(m, target, k);
      assert Shorter(m, k) <= m.Keys;
      SubsetSize(Shorter(m, k), m.Keys);
      assert |m.Keys| == |m|;
      if Walks(m, target, |m| + 1) { FewerSteps(m, target, k + 1, |m| + 1); }
    }
  }

  lemma SubsetSize(a: set<string>, b: set<string>)
    requires a <= b
    ensures |a| <= |b|
  {
    assert b == a + (b - a);
  }

  lemma Smaller(a: set<string>, b: set<string>, x: string)
    requires a + {x} <= b && x !in a
    ensures |a| < |b|
  {
    SubsetSize(a + {x}, b);
  }

  /** The number of steps of a walk that ends. */
  ghost function Steps(m: ForkMap, target: ForkInfo): (k: nat)
    requires Ends(m, target)
    ensures Walks(m, target, k) && !Walks(m, target, k + 1)
  {
    assert exists k: nat :: Walks(m, target, k) && !Walks(m, target, k + 1) by {
      var k := StepsOf(m, target, |m| + 1);
    }
    var k: nat :| Walks(m, target, k) && !Walks(m, target, k + 1);
    k
  }

  lemma ParentIsNearer(m: ForkMap, target: ForkInfo)
    requires Ends(m, target) && target.parentChainId in m
    ensures Ends(m, m[target.parentChainId])
    ensures Steps(m, m[target.parentChainId]) < Steps(m, target)
  {
    var parent := m[target.parentChainId];
    assert !Walks(m, parent, |m|);
    if Walks(m, parent, |m| + 1) { FewerSteps(m, parent, |m|, |m| + 1); }
    var k := Steps(m, parent);
    assert Walks(m, target, k + 1);
    if Steps(m, target) < k + 1 { FewerSteps(m, target, Steps(m, target) + 1, k + 1); }
  }

  /** The chain and its ancestors, the root first. */
  ghost function Ancestry(m: ForkMap, target: ForkInfo): seq<ForkInfo>
    requires Ends(m, target)
    decreases Steps(m, target)
  {
    if target.parentChainId in m then
      ParentIsNearer(m, target);
      Ancestry(m, m[target.parentChainId]) + [target]
    else [target]
  }

  lemma {:induction false} AncestryEndsAt(m: ForkMap, target: ForkInfo)
    requires Ends(m, target)
    ensures var a := Ancestry(m, target);
            0 < |a| && a[|a| - 1] == target && a[0].parentChainId !in m
            && forall i | 0 <= i < |a| - 1 :: a[i] in m.Values
    decreases Steps(m, target)
  {
    if target.parentChainId in m {
      ParentIsNearer(m, target);
      AncestryEndsAt(m, m[target.parentChainId]);
    }
  }

  /** For every walk that ends, and so exactly where the loop does: it stops at the first chain of the ancestry. */
  method RecursiveFindRoot(m: ForkMap, target: ForkInfo) returns (root: ForkInfo)
    requires Ends(m, target)
    ensures Ancestry(m, target) != [] && root == Ancestry(m, target)[0]
  {
    AncestryEndsAt(m, target);
    root := target;
    while root.parentChainId in m
      invariant Ends(m, root) && Ancestry(m, root) != [] && Ancestry(m, root)[0] == Ancestry(m, target)[0]
      decreases Steps(m, root)
    {
      ParentIsNearer(m, root);
      root := m[root.parentChainId];
      AncestryEndsAt(m, root);
    }
  }

  // ---- When all walks end ----

  ghost predicate AllEnd(m: ForkMap) {
    forall id <- m :: Ends(m, m[id])
  }

  /** When a chain has the empty name, every chain has a parent, and no walk ever ends. */
  lemma {:induction false} EmptyIdNeverEnds(m: ForkMap, id: string, n: nat)
    requires Known(m) && "" in m && id in m
    ensures Walks(m, m[id], n)
    decreases n
  {
    if n > 0 {
      EmptyIdNeverEnds(m, m[id].parentChainId, n - 1);
    }
  }

  lemma EmptyIdMeansEndless(m: ForkMap, id: string)
    requires Known(m) && id in m
    ensures "" in m ==> !Ends(m, m[id])
  {
    if "" in m {
      EmptyIdNeverEnds(m, id, |m| + 1);
    }
  }

  /** The chain `id` is `target` or one of its ancestors. */
  ghost predicate Descends(m: ForkMap, target: ForkInfo, id: string)
    requires Ends(m, target)
  {
    exists x <- Ancestry(m, target) :: x.chainId == id
  }

  lemma DescendsStep(m: ForkMap, target: ForkInfo, id: string)
    requires Ends(m, target)
    ensures target.parentChainId in m ==> Ends(m, m[target.parentChainId])
    ensures Descends(m, target, id)
            <==> target.chainId == id
                 || (target.parentChainId in m && Ends(m, m[target.parentChainId])
                     && Descends(m, m[target.parentChainId], id))
  {
    if target.parentChainId in m {
      ParentIsNearer(m, target);
      var a := Ancestry(m, m[target.parentChainId]);
      assert Ancestry(m, target) == a + [target];
      assert forall x <- a :: x in Ancestry(m, target);
      assert target in Ancestry(m, target);
    }
  }

  /** A chain that is added below itself never ends, and neither does any chain below it. */
  lemma {:induction false} OwnAncestorNeverEnds(m: ForkMap, e: ForkInfo, t: string, n: nat)
    requires Known(m) && AllEnd(m)
    requires e.parentChainId in m && Descends(m, m[e.parentChainId], e.chainId)
    requires t == e.chainId || (t in m && Descends(m, m[t], e.chainId))
    ensures var m' := m[e.chainId := e]; t in m' && Walks(m', m'[t], n)
    decreases n
  {
    if n > 0 {
      if t == e.chainId {
        OwnAncestorNeverEnds(m, e, e.parentChainId, n - 1);
      } else {
        DescendsStep(m, m[t], e.chainId);
        OwnAncestorNeverEnds(m, e, m[t].parentChainId, n - 1);
      }
    }
  }

  /** A walk that does not pass the added chain is as before. */
  lemma {:induction false} OtherWalksStay(m: ForkMap, e: ForkInfo, target: ForkInfo)
    requires e.chainId != "" && Known(m) && Ends(m, target)
    requires target.parentChainId == "" || target.parentChainId in m
    requires target.parentChainId in m ==>
               Ends(m, m[target.parentChainId]) && !Descends(m, m[target.parentChainId], e.chainId)
    ensures Ends(m[e.chainId := e], target)
    decreases Steps(m, target)
  {
    var m' := m[e.chainId := e];
    if target.parentChainId in m {
      var parent := m[target.parentChainId];
      ParentIsNearer(m, target);
      DescendsStep(m, parent, e.chainId);
      OtherWalksStay(m, e, parent);
      OneMoreStep(m', target);
    } else {
      if target.parentChainId in m' { EmptyHasNoEntry(m, e); }
      assert !Walks(m', target, 1);
      WalksEndSoonOrNever(m', target);
    }
  }

  lemma EmptyHasNoEntry(m: ForkMap, e: ForkInfo)
    requires e.chainId != "" && "" !in m
    ensures "" !in m[e.chainId := e]
  {
  }

  lemma OneMoreStep(m: ForkMap, target: ForkInfo)
    requires target.parentChainId in m && Ends(m, m[target.parentChainId])
    ensures Ends(m, target)
  {
    assert !Walks(m, target, |m| + 2);
    WalksEndSoonOrNever(m, target);
  }

  /** Nor does a walk that passes it get endless, when the added chain's own walk ends. */
  lemma {:induction false} WalksThroughEnd(m: ForkMap, e: ForkInfo, target: ForkInfo)
    requires e.chainId != "" && Known(m) && Ends(m, target)
    requires target.parentChainId == "" || target.parentChainId in m
    requires Ends(m[e.chainId := e], e)
    ensures Ends(m[e.chainId := e], target)
    decreases Steps(m, target)
  {
    var m' := m[e.chainId := e];
    if target.parentChainId == e.chainId {
      OneMoreStep(m', target);
    } else if target.parentChainId in m {
      ParentIsNearer(m, target);
      WalksThroughEnd(m, e, m[target.parentChainId]);
      OneMoreStep(m', target);
    } else {
      assert !Walks(m', target, 1);
      WalksEndSoonOrNever(m', target);
    }
  }

  /**
   * Entry by entry, the condition under which walks keep ending: the name is not empty, and it is not
   * the name of the parent or of one of the parent's ancestors.
   */
  lemma AddedChainEnds(infos: seq<ForkInfo>, fi: ForkInfo)
    requires Combined(infos).Some? && Combined(infos + [fi]).Some? && AllEnd(Combined(infos).value)
    ensures var m, p := Combined(infos).value, fi.parentChainId;
            AllEnd(Combined(infos + [fi]).value) <==> fi.chainId != "" && !(p in m && Descends(m, m[p], fi.chainId))
  {
    CombinedNext(infos, fi);
    CombinedIsKnown(infos);
    CombinedIsKnown(infos + [fi]);
    var m := Combined(infos).value;
    var e := Checked(m, fi).value;
    hide Combined, Checked, Ends, Descends;
    AddedEntryEnds(m, e);
  }

  lemma AddedEntryEnds(m: ForkMap, e: ForkInfo)
    requires Known(m) && Known(m[e.chainId := e]) && AllEnd(m) && (e.parentChainId == "" || e.parentChainId in m)
    ensures AllEnd(m[e.chainId := e])
            <==> e.chainId != "" && !(e.parentChainId in m && Descends(m, m[e.parentChainId], e.chainId))
  {
    hide Ends, Descends;
    var m' := m[e.chainId := e];
    if e.chainId == "" {
      EmptyIdNeverEnds(m', "", |m'| + 1);
      NotEnding(m', e);
    } else if e.parentChainId in m && Descends(m, m[e.parentChainId], e.chainId) {
      OwnAncestorNeverEnds(m, e, e.chainId, |m'| + 1);
      NotEnding(m', e);
    } else {
      AddedWalkEnds(m, e);
      forall id <- m'
        ensures Ends(m', m'[id])
      {
        if id != e.chainId {
          WalksThroughEnd(m, e, m[id]);
        }
      }
    }
  }

  lemma NotEnding(m: ForkMap, target: ForkInfo)
    requires Walks(m, target, |m| + 1)
    ensures !Ends(m, target)
  {
  }

  lemma AddedWalkEnds(m: ForkMap, e: ForkInfo)
    requires e.chainId != "" && Known(m) && AllEnd(m) && (e.parentChainId == "" || e.parentChainId in m)
    requires e.parentChainId in m ==> !Descends(m, m[e.parentChainId], e.chainId)
    ensures Ends(m[e.chainId := e], e)
  {
    if e.parentChainId in m {
      OneMoreStep(m, e);
      OtherWalksStay(m, e, e);
    } else {
      assert !Walks(m[e.chainId := e], e, 1);
      WalksEndSoonOrNever(m[e.chainId := e], e);
    }
  }

  // ---- Proper names ----

  ghost function Older(m: ForkMap, target: ForkInfo): set<string> {
    set id <- m | m[id].earliestBlockHeight < target.earliestBlockHeight
  }

  lemma ParentIsOlder(m: ForkMap, target: ForkInfo)
    requires Linked(m) && target in m.Values && target.parentChainId in m
    ensures m[target.parentChainId].earliestBlockHeight < target.earliestBlockHeight
    ensures |Older(m, m[target.parentChainId])| < |Older(m, target)|
  {
    var id :| id in m && m[id] == target;
    var parent := m[target.parentChainId];
    assert Continues(parent, target);
    assert Older(m, parent) + {target.parentChainId} <= Older(m, target);
    assert target.parentChainId !in Older(m, parent);
    Smaller(Older(m, parent), Older(m, target), target.parentChainId);
  }

  /** With proper names every walk ends, because each parent begins strictly earlier. */
  lemma {:induction false} LinkedWalkEnds(m: ForkMap, target: ForkInfo)
    requires Linked(m) && target in m.Values
    ensures Ends(m, target)
    decreases |Older(m, target)|
  {
    if target.parentChainId in m {
      ParentIsOlder(m, target);
      LinkedWalkEnds(m, m[target.parentChainId]);
      OneMoreStep(m, target);
    }
  }

  /** The walk ends at a chain without a parent, and each chain continues the one before it. */
  lemma {:induction false} AncestryIsContiguous(m: ForkMap, target: ForkInfo)
    requires Linked(m) && target in m.Values
    ensures Ends(m, target)
    ensures var a := Ancestry(m, target);
            && 0 < |a| && a[0].parentChainId == "" && a[|a| - 1] == target
            && (forall x <- a :: x in m.Values)
            && forall i, j | 0 <= i < j == i + 1 < |a| :: Continues(a[i], a[j]) && a[j].parentChainId == a[i].chainId
    decreases |Older(m, target)|
  {
    LinkedWalkEnds(m, target);
    var id :| id in m && m[id] == target;
    if target.parentChainId in m {
      ParentIsOlder(m, target);
      AncestryIsContiguous(m, m[target.parentChainId]);
      assert Continues(m[target.parentChainId], target);
    }
  }

  predicate InRange(fi: ForkInfo, height: int) {
    fi.earliestBlockHeight <= height <= fi.hardForkHeight
  }

  /** Every height from the start of the root to just before a chain belongs to exactly one of its ancestors. */
  lemma {:induction false} RangesTile(m: ForkMap, target: ForkInfo, height: int)
    requires Linked(m) && target in m.Values
    ensures Ends(m, target)
    ensures var a := Ancestry(m, target);
            && 0 < |a|
            && (a[0].earliestBlockHeight <= height < target.earliestBlockHeight
                <==> exists i | 0 <= i < |a| - 1 :: InRange(a[i], height))
            && forall i, j | 0 <= i < j < |a| - 1 :: !(InRange(a[i], height) && InRange(a[j], height))
    decreases |Older(m, target)|
  {
    LinkedWalkEnds(m, target);
    var id :| id in m && m[id] == target;
    if target.parentChainId in m {
      var parent := m[target.parentChainId];
      ParentIsOlder(m, target);
      RangesTile(m, parent, height);
      var b, a := Ancestry(m, parent), Ancestry(m, target);
      AncestryIsContiguous(m, parent);
      assert Continues(parent, target);
      assert a == b + [target] && b[|b| - 1] == parent;
      hide Ancestry, Linked;
      forall i | 0 <= i < |a| - 1
        ensures InRange(a[i], height) <==> if i < |b| - 1 then InRange(b[i], height) else InRange(parent, height)
      {
      }
      if InRange(parent, height) {
        assert InRange(a[|b| - 1], height);
      }
      if a[0].earliestBlockHeight <= height < parent.earliestBlockHeight {
        var i :| 0 <= i < |b| - 1 && InRange(b[i], height);
        assert InRange(a[i], height);
      }
      RootStartsFirst(m, parent);
    }
  }

  lemma {:induction false} RootStartsFirst(m: ForkMap, target: ForkInfo)
    requires Linked(m) && target in m.Values
    ensures Ends(m, target)
    ensures 0 < |Ancestry(m, target)| && Ancestry(m, target)[0].earliestBlockHeight <= target.earliestBlockHeight
    decreases |Older(m, target)|
  {
    LinkedWalkEnds(m, target);
    if target.parentChainId in m {
      ParentIsOlder(m, target);
      RootStartsFirst(m, m[target.parentChainId]);
    }
  }

  // ---- Using the root ----

  datatype Named = Named(name: string, startHash: string, startHeight: int, hardForkHeight: int)

  /** The chain that a node reports, enriched in place. */
  class FullyQualifiedChainId {
    var name: string
    var startHash: string
    var startHeight: int
    var hardForkHeight: int

    constructor (n: Named)
      ensures Value() == n
    {
      name, startHash, startHeight, hardForkHeight := n.name, n.startHash, n.startHeight, n.hardForkHeight;
    }

    function Value(): Named
      reads this
    {
      Named(name, startHash, startHeight, hardForkHeight)
    }

    method MergeAdditionalInfo(info: ForkInfo)
      modifies this
      ensures Value() == Merged(old(Value()), info) && name == old(name)
      ensures startHash == (if info.earliestBlockHash == "" then old(startHash) else info.earliestBlockHash)
      ensures startHeight == (if info.earliestBlockHeight == 0 then old(startHeight) else info.earliestBlockHeight)
      ensures hardForkHeight == (if info.hardForkHeight == 0 then old(hardForkHeight) else info.hardForkHeight)
    {
      if info.earliestBlockHash != "" {
        startHash := info.earliestBlockHash;
      }
      if info.earliestBlockHeight != 0 {
        startHeight := info.earliestBlockHeight;
      }
      if info.hardForkHeight != 0 {
        hardForkHeight := info.hardForkHeight;
      }
    }

    /**
     * The root of the chain. A chain that is not known is its own root if it begins at the first
     * block; the program stops for other unknown chains, and for heights that contradict each other.
     */
    method EnrichAndGetRoot(m: ForkMap) returns (r: Option<Named>)
      requires Known(m) && (name in m ==> Ends(m, m[name]))
      modifies this
      ensures name == old(name)
      ensures name !in m ==> Value() == old(Value()) && r == if startHeight == 1 then Some(Value()) else None
      ensures name in m ==> Value() == Merged(old(Value()), m[name])
      ensures name in m && hardForkHeight != 0 && hardForkHeight < startHeight ==> r == None
      ensures name in m && !(hardForkHeight != 0 && hardForkHeight < startHeight) ==>
                && Ancestry(m, m[name]) != []
                && r == Some(if m[name].parentChainId == "" then Value() else AsNamed(Ancestry(m, m[name])[0]))
    {
      if name !in m {
        if startHeight != 1 {
          return None;
        }
        return Some(Value());
      }
      var target := m[name];
      MergeAdditionalInfo(target);
      if hardForkHeight != 0 && hardForkHeight < startHeight {
        return None;
      }
      OtherRoot(m, target);
      target := RecursiveFindRoot(m, target);
      if target.chainId == name {
        return Some(Value());
      }
      r := Some(AsNamed(target));
    }
  }

  function Merged(n: Named, info: ForkInfo): Named {
    Named(n.name,
          if info.earliestBlockHash != "" then info.earliestBlockHash else n.startHash,
          if info.earliestBlockHeight != 0 then info.earliestBlockHeight else n.startHeight,
          if info.hardForkHeight != 0 then info.hardForkHeight else n.hardForkHeight)
  }

  /**
   * What is known of a chain wins over what the node reports, which counts only where nothing is known;
   * enriching again changes nothing.
   */
  lemma KnownWins(n: Named, n': Named, info: ForkInfo)
    ensures Merged(n, info).name == n.name && Merged(Merged(n, info), info) == Merged(n, info)
    ensures info.earliestBlockHash != "" && info.earliestBlockHeight != 0 && info.hardForkHeight != 0 ==>
              Merged(n, info) == AsNamed(info).(name := n.name)
    ensures info.earliestBlockHash == "" && info.earliestBlockHeight == 0 && info.hardForkHeight == 0 ==>
              Merged(n, info) == n
  {
  }

  function AsNamed(fi: ForkInfo): Named {
    Named(fi.chainId, fi.earliestBlockHash, fi.earliestBlockHeight, fi.hardForkHeight)
  }

  /** Exactly the chains without a parent are their own roots; the names tell. */
  lemma OtherRoot(m: ForkMap, target: ForkInfo)
    requires Known(m) && target in m.Values && Ends(m, target)
    ensures Ancestry(m, target) != []
    ensures Ancestry(m, target)[0].chainId == target.chainId <==> target.parentChainId == ""
  {
    AncestryEndsAt(m, target);
    var a := Ancestry(m, target);
    var id :| id in m && m[id] == target;
    if |a| > 1 {
      var rid :| rid in m && m[rid] == a[0];
      assert target.parentChainId in m;
    }
    EmptyIdMeansEndless(m, id);
  }

  /** All chains of an ancestry have the same root, and the ancestries that they cut off. */
  lemma {:induction false} SameRoot(m: ForkMap, target: ForkInfo, i: nat)
    requires Ends(m, target) && i < |Ancestry(m, target)|
    ensures Ends(m, Ancestry(m, target)[i]) && Ancestry(m, Ancestry(m, target)[i]) == Ancestry(m, target)[..i + 1]
    decreases Steps(m, target)
  {
    var a := Ancestry(m, target);
    if target.parentChainId in m {
      ParentIsNearer(m, target);
      var b := Ancestry(m, m[target.parentChainId]);
      if i < |b| {
        SameRoot(m, m[target.parentChainId], i);
        assert a[..i + 1] == b[..i + 1];
      } else {
        assert a[..i + 1] == a;
      }
    }
  }

  // ---- Endless walks ----

  /** A list that names a chain with the empty string leaves no walk that ends. */
  lemma EmptyIdLoops(infos: seq<ForkInfo>, id: string, n: nat)
    requires Combined(infos).Some? && "" in Combined(infos).value && id in Combined(infos).value
    ensures Walks(Combined(infos).value, Combined(infos).value[id], n)
  {
    CombinedIsKnown(infos);
    EmptyIdNeverEnds(Combined(infos).value, id, n);
  }

  /** For instance, a chain that is listed again as its own child passes the checks. */
  lemma RepeatedIdLoops(id: string, first: int, last: int, n: nat)
    requires id != "" && 0 < first <= last
    ensures var infos := [ForkInfo(id, "", "", first, last), ForkInfo(id, id, "", 0, 0)];
            && Combined(infos).Some?
            && var m := Combined(infos).value;
               id in m && Walks(m, m[id], n)
  {
    var a, b := ForkInfo(id, "", "", first, last), ForkInfo(id, id, "", 0, 0);
    CombinedNext([], a);
    CombinedNext([a], b);
    assert [] + [a] == [a] && [a] + [b] == [a, b];
    OwnParentNeverEnds(Combined([a, b]).value, id, n);
  }

  lemma {:induction false} OwnParentNeverEnds(m: ForkMap, id: string, n: nat)
    requires id in m && m[id].parentChainId == id
    ensures Walks(m, m[id], n)
  {
    if n > 0 {
      OwnParentNeverEnds(m, id, n - 1);
    }
  }
}
