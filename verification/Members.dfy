// Clustering of liquidity members by rune and asset addresses.
// Source: cmd/membercheck/membercheck.go

module Members {
  import opened Collections

  /** A change of a member's units, under a rune address, an asset address, or both. */
  datatype Change = Change(rune: string, asset: string, units: int)

  /** Under which address units are kept. */
  datatype Owner = ByRune(rune: string) | ByAsset(asset: string)

  type Pairs = map<string, string>
  type Units = map<string, int>

  // ---- The declarative grouping ----

  /** Asset-only changes belong to the rune address that the asset address is paired with. */
  function OwnerOf(pairs: Pairs, c: Change): Owner {
    if c.rune != "" then ByRune(c.rune)
    else if c.asset in pairs then ByRune(pairs[c.asset])
    else ByAsset(c.asset)
  }

  function UnitsOf(pairs: Pairs, cs: seq<Change>, o: Owner): int {
    if cs == [] then 0
    else
      var c := cs[|cs| - 1];
      UnitsOf(pairs, cs[..|cs| - 1], o) + if OwnerOf(pairs, c) == o then c.units else 0
  }

  predicate Owns(pairs: Pairs, cs: seq<Change>, o: Owner) {
    exists c <- cs :: OwnerOf(pairs, c) == o
  }

  predicate Pairing(c: Change) {
    c.rune != "" && c.asset != ""
  }

  /** The pairs of addresses that occur together; see `PairsAre`. */
  function PairsOf(cs: seq<Change>): Pairs {
    if cs == [] then map[]
    else
      var c := cs[|cs| - 1];
      var front := PairsOf(cs[..|cs| - 1]);
      if Pairing(c) && c.asset !in front then front[c.asset := c.rune] else front
  }

  /** Every change has an address, and no asset address is paired with two rune addresses. */
  predicate Consistent(cs: seq<Change>) {
    && (forall c <- cs :: c.rune != "" || c.asset != "")
    && forall c <- cs, d <- cs :: Pairing(c) && Pairing(d) && c.asset == d.asset ==> c.rune == d.rune
  }

  function SumUnits(cs: seq<Change>): int {
    if cs == [] then 0 else SumUnits(cs[..|cs| - 1]) + cs[|cs| - 1].units
  }

  /** An owner has an entry exactly when it has a change; the entry is the sum of its units. */
  ghost predicate Entry(rune: Units, asset: Units, pairs: Pairs, cs: seq<Change>, o: Owner) {
    match o
    case ByRune(r) => (r in rune <==> Owns(pairs, cs, o)) && Get(rune, r) == UnitsOf(pairs, cs, o)
    case ByAsset(a) => (a in asset <==> Owns(pairs, cs, o)) && Get(asset, a) == UnitsOf(pairs, cs, o)
  }

  /** The maps group the changes under the given pairs. */
  ghost predicate Groups(rune: Units, asset: Units, pairs: Pairs, cs: seq<Change>) {
    forall o: Owner :: Entry(rune, asset, pairs, cs, o)
  }

  lemma Append(pairs: Pairs, cs: seq<Change>, c: Change, o: Owner)
    ensures UnitsOf(pairs, cs + [c], o) == UnitsOf(pairs, cs, o) + if OwnerOf(pairs, c) == o then c.units else 0
    ensures Owns(pairs, cs + [c], o) <==> Owns(pairs, cs, o) || OwnerOf(pairs, c) == o
  {
    assert (cs + [c])[..|cs|] == cs;
  }

  lemma NewOwner(pairs: Pairs, c: Change, a: string, r: string)
    requires a !in pairs
    ensures OwnerOf(pairs[a := r], c) == if OwnerOf(pairs, c) == ByAsset(a) then ByRune(r) else OwnerOf(pairs, c)
  {
  }

  /** A new pair moves what was under the asset address to the rune address, and nothing else. */
  lemma {:induction false} NewPair(pairs: Pairs, cs: seq<Change>, a: string, r: string, o: Owner)
    requires a !in pairs
    ensures UnitsOf(pairs[a := r], cs, o)
            == if o == ByAsset(a) then 0
               else UnitsOf(pairs, cs, o) + if o == ByRune(r) then UnitsOf(pairs, cs, ByAsset(a)) else 0
    ensures Owns(pairs[a := r], cs, o)
            <==> o != ByAsset(a) && (Owns(pairs, cs, o) || (o == ByRune(r) && Owns(pairs, cs, ByAsset(a))))
  {
    if cs != [] {
      var front, c := cs[..|cs| - 1], cs[|cs| - 1];
      NewPair(pairs, front, a, r, o);
      assert cs == front + [c];
      Append(pairs, front, c, o);
      Append(pairs, front, c, ByAsset(a));
      Append(pairs[a := r], front, c, o);
      NewOwner(pairs, c, a, r);
      hide UnitsOf, Owns, OwnerOf;
    }
  }

  /** In a consistent list the pairs are those that occur, in whatever order. */
  lemma {:induction false} PairsAre(cs: seq<Change>)
    requires Consistent(cs)
    ensures forall c <- cs :: Pairing(c) ==> c.asset in PairsOf(cs) && PairsOf(cs)[c.asset] == c.rune
    ensures forall a <- PairsOf(cs) :: a != "" && exists c <- cs :: Pairing(c) && c.asset == a
  {
    if cs != [] {
      var front, c := cs[..|cs| - 1], cs[|cs| - 1];
      assert cs == front + [c];
      PairsAre(front);
      forall a <- PairsOf(cs)
        ensures a != "" && exists c <- cs :: Pairing(c) && c.asset == a
      {
        if a in PairsOf(front) {
          var d :| d in front && Pairing(d) && d.asset == a;
          assert d in cs;
        } else {
          assert c in cs;
        }
      }
      if Pairing(c) && c.asset in PairsOf(front) {
        var d :| d in front && Pairing(d) && d.asset == c.asset;
        assert d in cs && c in cs;
      }
    }
  }

  // ---- Sums over maps ----

  ghost function MapSum(m: Units): int
    decreases |m|
  {
    if m == map[] then 0
    else
      var k :| k in m;
      assert |m - {k}| < |m| by { assert m.Keys == (m - {k}).Keys + {k}; Sizes(m, k); }
      m[k] + MapSum(m - {k})
  }

  lemma Sizes(m: Units, k: string)
    requires k in m
    ensures |m - {k}| == |m| - 1
  {
    assert (m - {k}).Keys == m.Keys - {k};
    assert |m.Keys| == |m| && |(m - {k}).Keys| == |m - {k}|;
  }

  lemma {:induction false} MapSumWithout(m: Units, k: string)
    requires k in m
    ensures MapSum(m) == m[k] + MapSum(m - {k})
    decreases |m|
  {
    var j :| j in m && MapSum(m) == m[j] + MapSum(m - {j});
    if j != k {
      Sizes(m, j);
      Sizes(m, k);
      MapSumWithout(m - {j}, k);
      assert m - {j} - {k} == m - {k} - {j};
      MapSumWithout(m - {k}, j);
    }
  }

  lemma MapSumUpdate(m: Units, k: string, v: int)
    ensures MapSum(m[k := v]) == MapSum(m) - Get(m, k) + v
  {
    MapSumWithout(m[k := v], k);
    assert m[k := v] - {k} == m - {k};
    if k in m {
      MapSumWithout(m, k);
    } else {
      assert m - {k} == m;
    }
  }

  // ---- The class ----

  class MemberMap {
    var runeMemberUnits: Units
    var assetMemberUnits: Units
    var assetToRuneMap: Pairs

    constructor ()
      ensures runeMemberUnits == assetMemberUnits == map[] && assetToRuneMap == map[]
      ensures Grouped([]) && GroupedSimply([]) && Sum() == 0
    {
      runeMemberUnits, assetMemberUnits, assetToRuneMap := map[], map[], map[];
    }

    /** The state after adding changes with clustering. */
    ghost predicate Grouped(cs: seq<Change>)
      reads this
    {
      assetToRuneMap == PairsOf(cs) && Groups(runeMemberUnits, assetMemberUnits, assetToRuneMap, cs)
    }

    /** The state after adding changes without clustering. */
    ghost predicate GroupedSimply(cs: seq<Change>)
      reads this
    {
      assetToRuneMap == map[] && Groups(runeMemberUnits, assetMemberUnits, map[], cs)
    }

    ghost function Sum(): int
      reads this
    {
      MapSum(runeMemberUnits) + MapSum(assetMemberUnits)
    }

    method AddRune(rune: string, units: int)
      modifies this`runeMemberUnits
      ensures runeMemberUnits == old(runeMemberUnits)[rune := Get(old(runeMemberUnits), rune) + units]
      ensures Sum() == old(Sum()) + units
    {
      runeMemberUnits := runeMemberUnits[rune := Get(runeMemberUnits, rune) + units];
      MapSumUpdate(old(runeMemberUnits), rune, Get(old(runeMemberUnits), rune) + units);
    }

    method AddAsset(asset: string, units: int)
      modifies this`assetMemberUnits
      ensures assetMemberUnits == old(assetMemberUnits)[asset := Get(old(assetMemberUnits), asset) + units]
      ensures Sum() == old(Sum()) + units
    {
      assetMemberUnits := assetMemberUnits[asset := Get(assetMemberUnits, asset) + units];
      MapSumUpdate(old(assetMemberUnits), asset, Get(old(assetMemberUnits), asset) + units);
    }

    /** What was kept under an asset address alone goes to a rune address. */
    method MoveToRune(asset: string, rune: string)
      requires rune in runeMemberUnits
      modifies this`runeMemberUnits, this`assetMemberUnits
      ensures runeMemberUnits
              == old(runeMemberUnits)[rune := old(runeMemberUnits[rune]) + Get(old(assetMemberUnits), asset)]
      ensures assetMemberUnits == old(assetMemberUnits) - {asset} && Sum() == old(Sum())
    {
      if asset in assetMemberUnits {
        var assetUnits := assetMemberUnits[asset];
        MapSumWithout(assetMemberUnits, asset);
        AddRune(rune, assetUnits);
        assetMemberUnits := assetMemberUnits - {asset};
      }
    }

    /** False when the asset address is paired with another rune address. */
    method Pair(asset: string, rune: string) returns (ok: bool)
      modifies this`assetToRuneMap
      ensures ok <==> (asset in old(assetToRuneMap) ==> old(assetToRuneMap[asset]) == rune)
      ensures assetToRuneMap == if asset in old(assetToRuneMap) then old(assetToRuneMap)
              else old(assetToRuneMap)[asset := rune]
      ensures Sum() == old(Sum())
    {
      if asset in assetToRuneMap {
        return assetToRuneMap[asset] == rune;
      }
      assetToRuneMap := assetToRuneMap[asset := rune];
      ok := true;
    }

    /** False when the program stops, because there is no address. */
    method AddMemberSimple(m: Change, ghost cs: seq<Change>) returns (ok: bool)
      requires GroupedSimply(cs)
      modifies this
      ensures ok <==> m.rune != "" || m.asset != ""
      ensures ok ==> GroupedSimply(cs + [m]) && Sum() == old(Sum()) + m.units
    {
      if m.rune != "" {
        AddRune(m.rune, m.units);
      } else {
        if m.asset == "" {
          return false;
        }
        AddAsset(m.asset, m.units);
      }
      ok := true;
      GroupsAdded(old(runeMemberUnits), old(assetMemberUnits), map[], cs, m);
    }

    /**
     * False when the program stops, because there is no address or the asset address has been paired
     * with another rune address.
     */
    method AddMemberClustered(m: Change, ghost cs: seq<Change>) returns (ok: bool)
      requires Grouped(cs) && Consistent(cs)
      modifies this
      ensures ok <==> Consistent(cs + [m])
      ensures ok ==> Grouped(cs + [m]) && Sum() == old(Sum()) + m.units
    {
      StillConsistent(cs, m);
      hide Groups, Consistent, PairsOf, MapSum, Next, MemberMap.Sum;
      Clustered(runeMemberUnits, assetMemberUnits, assetToRuneMap, cs, m);
      ok := Update(m);
    }

    /** The update itself, in terms of the maps. */
    method Update(m: Change) returns (ok: bool)
      modifies this
      ensures ok <==>
                && (m.rune != "" || m.asset != "")
                && (Pairing(m) && m.asset in old(assetToRuneMap) ==> old(assetToRuneMap[m.asset]) == m.rune)
      ensures ok ==> Maps(runeMemberUnits, assetMemberUnits, assetToRuneMap)
                     == Next(old(Maps(runeMemberUnits, assetMemberUnits, assetToRuneMap)), m)
      ensures ok ==> Sum() == old(Sum()) + m.units
    {
      hide MemberMap.Sum, MapSum;
      if m.rune != "" {
        AddRune(m.rune, m.units);
        if m.asset != "" {
          MoveToRune(m.asset, m.rune);
          ok := Pair(m.asset, m.rune);
          return;
        }
      } else {
        if m.asset == "" {
          return false;
        }
        if m.asset in assetToRuneMap {
          AddRune(assetToRuneMap[m.asset], m.units);
        } else {
          AddAsset(m.asset, m.units);
        }
      }
      ok := true;
    }

    /** Exactly the members without units go; the total stays. */
    method RemoveZero()
      modifies this
      ensures runeMemberUnits == NonZero(old(runeMemberUnits))
      ensures assetMemberUnits == NonZero(old(assetMemberUnits))
      ensures assetToRuneMap == old(assetToRuneMap) && Sum() == old(Sum())
    {
      runeMemberUnits := WithoutZero(runeMemberUnits);
      assetMemberUnits := WithoutZero(assetMemberUnits);
    }

    method TotalUnits() returns (total: int)
      ensures total == Sum()
    {
      var runeSum := SumMap(runeMemberUnits);
      var assetSum := SumMap(assetMemberUnits);
      total := runeSum + assetSum;
    }
  }

  function NonZero(m: Units): Units {
    map k <- m | m[k] != 0 :: m[k]
  }

  method WithoutZero(m: Units) returns (ret: Units)
    ensures ret == NonZero(m) && MapSum(ret) == MapSum(m)
  {
    ret := m;
    var todo := m.Keys;
    while todo != {}
      invariant todo <= ret.Keys <= m.Keys && MapSum(ret) == MapSum(m)
      invariant forall k <- m :: k in ret <==> k in todo || m[k] != 0
      invariant forall k <- ret :: ret[k] == m[k]
    {
      var k :| k in todo;
      todo := todo - {k};
      if ret[k] == 0 {
        MapSumWithout(ret, k);
        ret := ret - {k};
      }
    }
  }

  method SumMap(m: Units) returns (sum: int)
    ensures sum == MapSum(m)
  {
    sum := 0;
    var todo := m;
    while todo != map[]
      invariant sum + MapSum(todo) == MapSum(m) && todo.Keys <= m.Keys && forall k <- todo :: todo[k] == m[k]
      decreases |todo|
    {
      var k :| k in todo;
      MapSumWithout(todo, k);
      Sizes(todo, k);
      sum := sum + todo[k];
      todo := todo - {k};
    }
  }

  lemma StillConsistent(cs: seq<Change>, m: Change)
    requires Consistent(cs)
    ensures Consistent(cs + [m]) <==>
            && (m.rune != "" || m.asset != "")
            && (Pairing(m) && m.asset in PairsOf(cs) ==> PairsOf(cs)[m.asset] == m.rune)
    ensures PairsOf(cs + [m])
            == if Pairing(m) && m.asset !in PairsOf(cs) then PairsOf(cs)[m.asset := m.rune] else PairsOf(cs)
  {
    PairsAre(cs);
    assert (cs + [m])[..|cs|] == cs;
    hide PairsOf;
    if Pairing(m) && m.asset in PairsOf(cs) {
      var d :| d in cs && Pairing(d) && d.asset == m.asset;
      assert d in cs + [m] && m in cs + [m];
    }
  }

  /** The units of a change go to its owner. */
  lemma GroupsAdded(rune: Units, asset: Units, pairs: Pairs, cs: seq<Change>, m: Change)
    requires Groups(rune, asset, pairs, cs)
    ensures match OwnerOf(pairs, m)
            case ByRune(r) => Groups(rune[r := Get(rune, r) + m.units], asset, pairs, cs + [m])
            case ByAsset(a) => Groups(rune, asset[a := Get(asset, a) + m.units], pairs, cs + [m])
  {
    var cs' := cs + [m];
    match OwnerOf(pairs, m)
    case ByRune(r) =>
      var rune' := rune[r := Get(rune, r) + m.units];
      forall p: Owner
        ensures Entry(rune', asset, pairs, cs', p)
      {
        assert Entry(rune, asset, pairs, cs, p);
        Append(pairs, cs, m, p);
      }
    case ByAsset(a) =>
      var asset' := asset[a := Get(asset, a) + m.units];
      forall p: Owner
        ensures Entry(rune, asset', pairs, cs', p)
      {
        assert Entry(rune, asset, pairs, cs, p);
        Append(pairs, cs, m, p);
      }
  }

  /** A new pair takes over what was kept under the asset address. */
  lemma GroupsPaired(rune: Units, asset: Units, pairs: Pairs, cs: seq<Change>, m: Change)
    requires Groups(rune, asset, pairs, cs) && Pairing(m) && m.asset !in pairs
    ensures Groups(rune[m.rune := Get(rune, m.rune) + m.units + Get(asset, m.asset)], asset - {m.asset},
                   pairs[m.asset := m.rune], cs + [m])
  {
    var r, a, pairs', cs' := m.rune, m.asset, pairs[m.asset := m.rune], cs + [m];
    var rune', asset' := rune[r := Get(rune, r) + m.units + Get(asset, a)], asset - {a};
    hide UnitsOf, Owns;
    forall p: Owner
      ensures Entry(rune', asset', pairs', cs', p)
    {
      assert Entry(rune, asset, pairs, cs, p) && Entry(rune, asset, pairs, cs, ByAsset(a));
      Append(pairs', cs, m, p);
      NewPair(pairs, cs, a, r, p);
    }
  }

  datatype Maps = Maps(rune: Units, asset: Units, pairs: Pairs)

  /** The new maps, by the kind of change. */
  function Next(x: Maps, m: Change): Maps {
    if m.rune != "" then
      var added := x.rune[m.rune := Get(x.rune, m.rune) + m.units];
      if m.asset != "" then
        Maps(added[m.rune := added[m.rune] + Get(x.asset, m.asset)], x.asset - {m.asset},
             if m.asset in x.pairs then x.pairs else x.pairs[m.asset := m.rune])
      else x.(rune := added)
    else if m.asset in x.pairs then
      x.(rune := x.rune[x.pairs[m.asset] := Get(x.rune, x.pairs[m.asset]) + m.units])
    else
      x.(asset := x.asset[m.asset := Get(x.asset, m.asset) + m.units])
  }

  lemma Clustered(rune: Units, asset: Units, pairs: Pairs, cs: seq<Change>, m: Change)
    requires Groups(rune, asset, pairs, cs)
    ensures var x := Next(Maps(rune, asset, pairs), m);
            (Pairing(m) && m.asset in pairs ==> pairs[m.asset] == m.rune) ==>
              Groups(x.rune, x.asset, x.pairs, cs + [m])
    ensures Next(Maps(rune, asset, pairs), m).pairs
            == if Pairing(m) && m.asset !in pairs then pairs[m.asset := m.rune] else pairs
  {
    GroupsAdded(rune, asset, pairs, cs, m);
    PairedIsNotAsset(rune, asset, pairs, cs, m.asset);
    if Pairing(m) && m.asset !in pairs {
      GroupsPaired(rune, asset, pairs, cs, m);
    }
    hide Groups;
    var n := Get(rune, m.rune) + m.units;
    assert rune[m.rune := n][m.rune := n + Get(asset, m.asset)] == rune[m.rune := n + Get(asset, m.asset)];
    assert m.asset !in asset ==> asset - {m.asset} == asset;
  }

  /** No address is both kept on its own and paired. */
  lemma PairedIsNotAsset(rune: Units, asset: Units, pairs: Pairs, cs: seq<Change>, a: string)
    requires Groups(rune, asset, pairs, cs)
    ensures a in pairs ==> a !in asset
  {
    assert Entry(rune, asset, pairs, cs, ByAsset(a));
  }

  // ---- Whole lists ----

  /** Adds a list; false when the program stops, which is when the list is not consistent. */
  method AddAllClustered(cs: seq<Change>) returns (x: MemberMap, ok: bool)
    ensures ok <==> Consistent(cs)
    ensures ok ==> x.Grouped(cs) && x.Sum() == SumUnits(cs)
    ensures ok ==> x.assetMemberUnits.Keys !! x.assetToRuneMap.Keys
  {
    x := new MemberMap();
    hide Groups, Consistent, PairsOf, SumUnits;
    assert Consistent([]) by { NothingIsConsistent(); }
    assert SumUnits([]) == 0 by { SumUnitsNext([], Change("", "", 0)); }
    for i := 0 to |cs|
      invariant fresh(x) && Consistent(cs[..i]) && x.Grouped(cs[..i]) && x.Sum() == SumUnits(cs[..i])
    {
      ok := x.AddMemberClustered(cs[i], cs[..i]);
      assert cs[..i] + [cs[i]] == cs[..i + 1];
      SumUnitsNext(cs[..i], cs[i]);
      if !ok {
        ConsistentPrefix(cs, i + 1);
        return;
      }
    }
    ok := true;
    assert cs[..|cs|] == cs;
    forall a: string
      ensures a in x.assetToRuneMap ==> a !in x.assetMemberUnits
    {
      PairedIsNotAsset(x.runeMemberUnits, x.assetMemberUnits, x.assetToRuneMap, cs, a);
    }
  }

  lemma NothingIsConsistent()
    ensures Consistent([])
  {
  }

  lemma SumUnitsNext(cs: seq<Change>, m: Change)
    ensures SumUnits(cs + [m]) == SumUnits(cs) + m.units && SumUnits([]) == 0
  {
    assert (cs + [m])[..|cs|] == cs;
  }

  lemma ConsistentPrefix(cs: seq<Change>, n: nat)
    requires n <= |cs|
    ensures Consistent(cs) ==> Consistent(cs[..n])
  {
    assert forall c <- cs[..n] :: c in cs;
  }

  // ---- Order ----

  lemma SplitAtLast(cs: seq<Change>, ds: seq<Change>) returns (left: seq<Change>, right: seq<Change>)
    requires multiset(cs) == multiset(ds) && cs != []
    ensures ds == left + [cs[|cs| - 1]] + right
    ensures multiset(cs[..|cs| - 1]) == multiset(left + right)
  {
    var front, c := cs[..|cs| - 1], cs[|cs| - 1];
    assert cs == front + [c];
    assert c in multiset(ds);
    var j :| 0 <= j < |ds| && ds[j] == c;
    left, right := ds[..j], ds[j + 1..];
    assert ds == left + [c] + right;
    WithMiddle(left, c, right);
    WithMiddle(front, c, []);
    assert front + [c] + [] == cs && front + [] == front;
    Cancel(multiset(front), multiset(left + right), c);
  }

  lemma WithMiddle(left: seq<Change>, c: Change, right: seq<Change>)
    ensures multiset(left + [c] + right) == multiset(left + right) + multiset{c}
  {
    assert multiset(left + [c] + right) == multiset(left) + multiset([c]) + multiset(right);
  }

  lemma Cancel(a: multiset<Change>, b: multiset<Change>, c: Change)
    requires a + multiset{c} == b + multiset{c}
    ensures a == b
  {
    assert a == (a + multiset{c}) - multiset{c};
    assert b == (b + multiset{c}) - multiset{c};
  }

  lemma {:induction false} SameUnits(pairs: Pairs, cs: seq<Change>, ds: seq<Change>, o: Owner)
    requires multiset(cs) == multiset(ds)
    ensures UnitsOf(pairs, cs, o) == UnitsOf(pairs, ds, o)
    decreases |cs|
  {
    assert |cs| == |multiset(cs)| == |multiset(ds)| == |ds|;
    if cs != [] {
      var left, right := SplitAtLast(cs, ds);
      SameUnits(pairs, cs[..|cs| - 1], left + right, o);
      UnitsWithout(pairs, left, cs[|cs| - 1], right, o);
    }
  }

  lemma SameOwners(pairs: Pairs, cs: seq<Change>, ds: seq<Change>, o: Owner)
    requires multiset(cs) == multiset(ds)
    ensures Owns(pairs, cs, o) ==> Owns(pairs, ds, o)
  {
    if c :| c in cs && OwnerOf(pairs, c) == o {
      assert c in multiset(ds);
    }
  }

  lemma {:induction false} UnitsWithout(pairs: Pairs, left: seq<Change>, c: Change, right: seq<Change>, o: Owner)
    ensures UnitsOf(pairs, left + [c] + right, o)
            == UnitsOf(pairs, left + right, o) + if OwnerOf(pairs, c) == o then c.units else 0
    decreases |right|
  {
    if right == [] {
      assert left + [c] + right == left + [c] && left + right == left;
      Append(pairs, left, c, o);
    } else {
      var front, d := right[..|right| - 1], right[|right| - 1];
      UnitsWithout(pairs, left, c, front, o);
      assert left + [c] + right == left + [c] + front + [d] && left + right == left + front + [d];
      Append(pairs, left + [c] + front, d, o);
      Append(pairs, left + front, d, o);
    }
  }

  lemma SameConsistency(cs: seq<Change>, ds: seq<Change>)
    requires multiset(cs) == multiset(ds)
    ensures Consistent(cs) <==> Consistent(ds)
    ensures Consistent(cs) ==> PairsOf(cs) == PairsOf(ds)
  {
    assert forall c :: c in cs <==> c in multiset(cs);
    assert forall c :: c in ds <==> c in multiset(ds);
    assert forall c :: c in cs <==> c in ds;
    if Consistent(cs) {
      PairsAre(cs);
      PairsAre(ds);
      var p, q := PairsOf(cs), PairsOf(ds);
      hide PairsOf;
      assert forall a <- p :: a in q && p[a] == q[a];
      assert forall a <- q :: a in p;
    }
  }

  /** The order of a list matters neither for whether it is accepted nor for any of the maps. */
  lemma OrderDoesNotMatter(cs: seq<Change>, ds: seq<Change>,
                           rune: Units, asset: Units, pairs: Pairs, rune': Units, asset': Units, pairs': Pairs)
    requires multiset(cs) == multiset(ds) && Consistent(cs)
    requires pairs == PairsOf(cs) && Groups(rune, asset, pairs, cs)
    requires pairs' == PairsOf(ds) && Groups(rune', asset', pairs', ds)
    ensures Consistent(ds) && rune == rune' && asset == asset' && pairs == pairs'
  {
    SameConsistency(cs, ds);
    forall o: Owner
      ensures UnitsOf(pairs, cs, o) == UnitsOf(pairs, ds, o) && (Owns(pairs, cs, o) <==> Owns(pairs, ds, o))
    {
      SameUnits(pairs, cs, ds, o);
      SameOwners(pairs, cs, ds, o);
      SameOwners(pairs, ds, cs, o);
    }
    hide Owns, UnitsOf, PairsOf, Consistent;
    forall r: string
      ensures (r in rune <==> r in rune') && Get(rune, r) == Get(rune', r)
      ensures (r in asset <==> r in asset') && Get(asset, r) == Get(asset', r)
    {
      assert Entry(rune, asset, pairs, cs, ByRune(r)) && Entry(rune', asset', pairs', ds, ByRune(r));
      assert Entry(rune, asset, pairs, cs, ByAsset(r)) && Entry(rune', asset', pairs', ds, ByAsset(r));
    }
    assert rune == rune' && asset == asset';
  }
}
