// Pages of actions, and the tokens that lead from one page to its neighbours.
// Source: internal/timeseries/actions.go

module Paging {
  import opened Tables
  import opened EventIds

  datatype Action = Action(id: int, time: int, content: string)

  /** The parameters that choose a page; zero means that one is not given. */
  datatype Params = Params(
    limit: nat,
    offset: nat,
    nextPageToken: nat,
    prevPageToken: nat,
    timestamp: nat,
    height: nat,
    fromTimestamp: nat,
    fromHeight: nat)
  {
    predicate IsReverseLookup() {
      prevPageToken != 0 || fromHeight != 0 || fromTimestamp != 0
    }

    predicate HasTimeFilter() {
      nextPageToken != 0 || timestamp != 0 || height != 0 || prevPageToken != 0 || fromTimestamp != 0 || fromHeight != 0
    }

    /** Without any of these filters, actions up to the given moment are meant. */
    predicate Keeps(a: Action, momentId: int) {
      && (nextPageToken != 0 ==> a.id < nextPageToken)
      && (timestamp != 0 ==> a.time < timestamp)
      && (height != 0 ==> a.id < HeightToEventId(height))
      && (prevPageToken != 0 ==> prevPageToken < a.id)
      && (fromTimestamp != 0 ==> fromTimestamp < a.time)
      && (fromHeight != 0 ==> HeightToEventId(fromHeight) < a.id)
      && (!HasTimeFilter() ==> a.id <= momentId)
    }
  }

  datatype Page = Page(actions: seq<Action>, nextPageToken: Option<int>, prevPageToken: Option<int>)

  /** The table, in the order of its ids. */
  predicate Ascending(table: seq<Action>) {
    forall i, j | 0 <= i < j < |table| :: table[i].id < table[j].id
  }

  function Selected(table: seq<Action>, keep: Action -> bool): seq<Action> {
    if table == [] then []
    else Selected(table[..|table| - 1], keep) + if keep(table[|table| - 1]) then [table[|table| - 1]] else []
  }

  function Reversed(s: seq<Action>): (r: seq<Action>)
    ensures |r| == |s| && forall i | 0 <= i < |s| :: r[i] == s[|s| - 1 - i]
  {
    seq(|s|, i requires 0 <= i < |s| => s[|s| - 1 - i])
  }

  function Slice(s: seq<Action>, offset: nat, limit: nat): seq<Action> {
    var rest := if offset <= |s| then s[offset..] else [];
    if limit <= |rest| then rest[..limit] else rest
  }

  function Filter(p: Params, momentId: int, matches: Action -> bool): Action -> bool {
    (a: Action) => p.Keeps(a, momentId) && matches(a)
  }

  /** The rows of the query, oldest first for a reverse lookup and newest first otherwise. */
  function Rows(p: Params, momentId: int, matches: Action -> bool, table: seq<Action>): seq<Action> {
    var selected := Selected(table, Filter(p, momentId, matches));
    Slice(if p.IsReverseLookup() then selected else Reversed(selected), p.offset, p.limit)
  }

  /** Assembles the page, always newest first, with tokens for its two ends. */
  method GetActions(p: Params, momentId: int, matches: Action -> bool, table: seq<Action>) returns (page: Page)
    ensures page.actions == PageOf(p, momentId, matches, table)
    ensures page.nextPageToken == if page.actions == [] then None else Some(page.actions[|page.actions| - 1].id)
    ensures page.prevPageToken == if page.actions == [] then None else Some(page.actions[0].id)
  {
    hide Selected, Slice, Rows, Params.Keeps, Filter, Params.IsReverseLookup;
    var actions := Rows(p, momentId, matches, table);
    var n, reverse := |actions|, p.IsReverseLookup();
    ghost var all := if reverse then Reversed(actions) else actions;
    var shown := new Action[n](i => Action(0, 0, ""));
    var next, prev := None, None;
    for k := 0 to n
      invariant forall i | (if reverse then n - k else 0) <= i < (if reverse then n else k) :: shown[i] == all[i]
      invariant next == if 0 < k && (reverse || k == n) then Some(all[n - 1].id) else None
      invariant prev == if 0 < k && (!reverse || k == n) then Some(all[0].id) else None
    {
      var i := k;
      if reverse {
        i := n - 1 - k;
      }
      shown[i] := actions[k];
      if i == n - 1 {
        next := Some(actions[k].id);
      }
      if i == 0 {
        prev := Some(actions[k].id);
      }
    }
    page := Page(shown[..], next, prev);
    assert page.actions == all;
  }

  function PageOf(p: Params, momentId: int, matches: Action -> bool, table: seq<Action>): seq<Action> {
    var rows := Rows(p, momentId, matches, table);
    if p.IsReverseLookup() then Reversed(rows) else rows
  }

  // ---- Selections by id ----

  lemma {:induction false} SelectedAre(table: seq<Action>, keep: Action -> bool)
    requires Ascending(table)
    ensures Ascending(Selected(table, keep))
    ensures forall a <- Selected(table, keep) :: a in table && keep(a)
    ensures forall a <- table :: keep(a) ==> a in Selected(table, keep)
  {
    if table != [] {
      var front := table[..|table| - 1];
      SelectedAre(front, keep);
      assert table == front + [table[|table| - 1]];
      assert forall a <- front :: a.id < table[|table| - 1].id;
    }
  }

  lemma {:induction false} SelectedConcat(a: seq<Action>, b: seq<Action>, keep: Action -> bool)
    ensures Selected(a + b, keep) == Selected(a, keep) + Selected(b, keep)
  {
    if b == [] {
      assert a + b == a;
    } else {
      SelectedConcat(a, b[..|b| - 1], keep);
      assert (a + b)[..|a + b| - 1] == a + b[..|b| - 1];
    }
  }

  lemma {:induction false} SelectedNone(table: seq<Action>, keep: Action -> bool)
    requires forall a <- table :: !keep(a)
    ensures Selected(table, keep) == []
  {
    if table != [] {
      SelectedNone(table[..|table| - 1], keep);
    }
  }

  lemma {:induction false} SelectedSame(table: seq<Action>, f: Action -> bool, g: Action -> bool)
    requires forall a <- table :: f(a) == g(a)
    ensures Selected(table, f) == Selected(table, g)
  {
    if table != [] {
      assert table[|table| - 1] in table;
      SelectedSame(table[..|table| - 1], f, g);
    }
  }

  /** The selected rows before, and after, one of them. */
  lemma {:induction false} SelectedBelow(table: seq<Action>, keep: Action -> bool, j: nat)
    requires Ascending(table) && j < |Selected(table, keep)|
    ensures var s := Selected(table, keep);
            && Selected(table, (a: Action) => keep(a) && a.id < s[j].id) == s[..j]
            && Selected(table, (a: Action) => keep(a) && s[j].id < a.id) == s[j + 1..]
  {
    var front, last := table[..|table| - 1], table[|table| - 1];
    var s := Selected(table, keep);
    SelectedAre(front, keep);
    if keep(last) && j == |s| - 1 {
      SelectedSame(front, keep, (a: Action) => keep(a) && a.id < last.id);
      SelectedNone(front, (a: Action) => keep(a) && last.id < a.id);
    } else {
      SelectedBelow(front, keep, j);
      assert Selected(front, keep)[j] in front;
      assert Selected(front, keep)[j] == s[j];
    }
  }

  // ---- Following the tokens ----

  /** Later, only actions with higher ids have been added. */
  predicate Grown(table: seq<Action>, later: seq<Action>) {
    table <= later && Ascending(later)
  }

  predicate PositiveIds(table: seq<Action>) {
    forall a <- table :: 0 < a.id
  }

  function UpTo(momentId: int, matches: Action -> bool): Action -> bool {
    (a: Action) => a.id <= momentId && matches(a)
  }

  /** All matching actions up to a moment, newest first. */
  function Newest(table: seq<Action>, momentId: int, matches: Action -> bool): seq<Action> {
    Reversed(Selected(table, UpTo(momentId, matches)))
  }

  function First(limit: nat): Params {
    Params(limit, 0, 0, 0, 0, 0, 0, 0)
  }

  function Next(limit: nat, token: nat): Params {
    Params(limit, 0, token, 0, 0, 0, 0, 0)
  }

  function Prev(limit: nat, token: nat): Params {
    Params(limit, 0, 0, token, 0, 0, 0, 0)
  }

  lemma FirstPage(table: seq<Action>, momentId: int, matches: Action -> bool, limit: nat)
    requires Ascending(table)
    ensures PageOf(First(limit), momentId, matches, table) == Slice(Newest(table, momentId, matches), 0, limit)
  {
    SelectedSame(table, Filter(First(limit), momentId, matches), UpTo(momentId, matches));
    var d := Newest(table, momentId, matches);
    assert d[0..] == d;
  }

  /** What is selected up to a moment comes first in what is selected at all, then and later. */
  lemma NewestIsAPrefix(table: seq<Action>, later: seq<Action>, momentId: int, matches: Action -> bool)
    requires Grown(table, later)
    ensures Selected(table, UpTo(momentId, matches)) <= Selected(later, matches)
  {
    var k := PrefixUpTo(table, momentId);
    var old', new' := later[..k], later[k..];
    assert later == old' + new' && table == old' + table[k..];
    SelectedConcat(old', new', matches);
    SelectedConcat(old', table[k..], UpTo(momentId, matches));
    SelectedSame(old', matches, UpTo(momentId, matches));
    SelectedNone(table[k..], UpTo(momentId, matches));
  }

  lemma {:induction false} PrefixUpTo(table: seq<Action>, momentId: int) returns (k: nat)
    requires Ascending(table)
    ensures k <= |table|
    ensures forall i | 0 <= i < k :: table[i].id <= momentId
    ensures forall i | k <= i < |table| :: momentId < table[i].id
  {
    k := |table|;
    while 0 < k && momentId < table[k - 1].id
      invariant k <= |table| && forall i | k <= i < |table| :: momentId < table[i].id
    {
      k := k - 1;
    }
  }

  /** The page that follows after `i` actions have been listed, whatever has been added meanwhile. */
  lemma NextPage(table: seq<Action>, later: seq<Action>, momentId: int, laterMoment: int, matches: Action -> bool,
                 limit: nat, i: nat)
    requires Ascending(table) && PositiveIds(table) && Grown(table, later)
             && 0 < i <= |Newest(table, momentId, matches)|
    ensures var d := Newest(table, momentId, matches);
            0 < d[i - 1].id && PageOf(Next(limit, d[i - 1].id), laterMoment, matches, later) == Slice(d, i, limit)
  {
    var d, s, w := Newest(table, momentId, matches), Selected(table, UpTo(momentId, matches)), Selected(later, matches);
    var j := |s| - i;
    SelectedAre(table, UpTo(momentId, matches));
    assert d[i - 1] == s[j] && s[j] in table;
    NewestIsAPrefix(table, later, momentId, matches);
    SelectedBelow(later, matches, j);
    hide Selected, Grown, PositiveIds, Ascending;
    var p := Next(limit, s[j].id);
    SelectedSame(later, Filter(p, laterMoment, matches), (a: Action) => matches(a) && a.id < w[j].id);
    NextSlice(s, w, limit, i);
    hide Slice, Reversed;
  }

  lemma NextSlice(s: seq<Action>, w: seq<Action>, limit: nat, i: nat)
    requires s <= w && 0 < i <= |s|
    ensures Slice(Reversed(w[..|s| - i]), 0, limit) == Slice(Reversed(s), i, limit)
  {
    var rest := Reversed(w[..|s| - i]);
    assert w[..|s| - i] == s[..|s| - i] && rest == Reversed(s)[i..];
    assert rest[0..] == rest;
  }

  /** From a page that begins after `i` actions, the previous token leads to those that come right before it. */
  lemma PrevPage(table: seq<Action>, later: seq<Action>, momentId: int, laterMoment: int, matches: Action -> bool,
                 limit: nat, i: nat)
    requires Ascending(table) && PositiveIds(table) && Grown(table, later)
    requires 0 < limit <= i < |Newest(table, momentId, matches)|
    ensures var d := Newest(table, momentId, matches);
            0 < d[i].id && PageOf(Prev(limit, d[i].id), laterMoment, matches, later) == d[i - limit..i]
  {
    var d, s, w := Newest(table, momentId, matches), Selected(table, UpTo(momentId, matches)), Selected(later, matches);
    var j := |s| - 1 - i;
    SelectedAre(table, UpTo(momentId, matches));
    assert d[i] == s[j] && s[j] in table;
    NewestIsAPrefix(table, later, momentId, matches);
    SelectedBelow(later, matches, j);
    var p := Prev(limit, s[j].id);
    SelectedSame(later, Filter(p, laterMoment, matches), (a: Action) => matches(a) && w[j].id < a.id);
    hide Selected, Slice, Grown, Ascending, PositiveIds;
    PrevSlice(s, w, limit, i);
  }

  lemma PrevSlice(s: seq<Action>, w: seq<Action>, limit: nat, i: nat)
    requires s <= w && limit <= i < |s|
    ensures Reversed(Slice(w[|s| - i..], 0, limit)) == Reversed(s)[i - limit..i]
  {
    var rest := w[|s| - i..];
    assert rest[0..] == rest;
    var page := Reversed(rest[..limit]);
    forall k | 0 <= k < limit
      ensures page[k] == Reversed(s)[i - limit..i][k]
    {
      assert page[k] == rest[limit - 1 - k] == w[|s| - i + limit - 1 - k];
      assert s[|s| - i + limit - 1 - k] == w[|s| - i + limit - 1 - k];
    }
  }

  /**
   * Follows the next tokens from the newest page until a page is empty, while actions with higher ids
   * keep being added. Every matching action up to the first moment is listed exactly once, newest first.
   */
  method ListAll(tables: nat -> seq<Action>, moments: nat -> int, matches: Action -> bool, limit: nat)
    returns (listed: seq<Action>, requests: nat)
    requires 1 <= limit && Ascending(tables(0)) && PositiveIds(tables(0))
    requires forall n :: Grown(tables(0), tables(n))
    ensures listed == Newest(tables(0), moments(0), matches)
    ensures requests <= |listed| + 1 && |listed| <= Most(limit, requests)
  {
    hide Newest, Grown, PositiveIds, Ascending, PageOf;
    ghost var all := Newest(tables(0), moments(0), matches);
    FirstPage(tables(0), moments(0), matches, limit);
    var page := GetActions(First(limit), moments(0), matches, tables(0));
    listed, requests := page.actions, 1;
    while page.actions != []
      invariant page.actions == [] ==> listed == all
      invariant listed <= all && requests <= |listed| + 1 && |listed| <= Most(limit, requests)
      invariant page.actions != [] ==>
                  listed != [] && page.nextPageToken == Some(listed[|listed| - 1].id) && requests <= |listed|
      decreases |all| - |listed|, if page.actions != [] then 1 else 0
    {
      NextPage(tables(0), tables(requests), moments(0), moments(requests), matches, limit, |listed|);
      page := GetActions(Next(limit, page.nextPageToken.value), moments(requests), matches, tables(requests));
      listed := listed + page.actions;
      requests := requests + 1;
    }
  }

  /** The most that a number of pages can hold. */
  function Most(limit: nat, pages: nat): nat {
    if pages == 0 then 0 else Most(limit, pages - 1) + limit
  }

  /** Where the actions of a page come from. */
  lemma PageIs(p: Params, momentId: int, matches: Action -> bool, table: seq<Action>)
    ensures var selected := Selected(table, Filter(p, momentId, matches));
            var page := PageOf(p, momentId, matches, table);
            && |page| == Least(p.limit, if p.offset <= |selected| then |selected| - p.offset else 0)
            && forall i | 0 <= i < |page| ::
                 var k := p.offset + if p.IsReverseLookup() then |page| - 1 - i else i;
                 k < |selected| && page[i] == selected[if p.IsReverseLookup() then k else |selected| - 1 - k]
  {
    hide Selected, Slice, Params.Keeps, Filter, Params.IsReverseLookup;
    var selected := Selected(table, Filter(p, momentId, matches));
    SliceIs(if p.IsReverseLookup() then selected else Reversed(selected), p.offset, p.limit);
  }

  /** Each page is in descending order of ids, and made of actions that meet the bounds. */
  lemma PagesDescend(p: Params, momentId: int, matches: Action -> bool, table: seq<Action>)
    requires Ascending(table)
    ensures var page := PageOf(p, momentId, matches, table);
            && |page| <= p.limit
            && (forall i, j | 0 <= i < j < |page| :: page[j].id < page[i].id)
            && forall a <- page :: a in table && matches(a) && (IsEventId(a.id) ==> Meets(p, momentId, a))
  {
    hide Selected, PageOf, Ascending, IsEventId, Meets, Params.Keeps, Params.IsReverseLookup;
    var keep := Filter(p, momentId, matches);
    var selected, page := Selected(table, keep), PageOf(p, momentId, matches, table);
    PageIs(p, momentId, matches, table);
    SelectedAre(table, keep);
    AscendingAt(selected);
    forall a <- page
      ensures a in table && matches(a) && (IsEventId(a.id) ==> Meets(p, momentId, a))
    {
      assert a in selected;
      assert keep(a);
      if IsEventId(a.id) {
        FiltersMean(p, momentId, a);
      }
    }
  }

  lemma AscendingAt(s: seq<Action>)
    requires Ascending(s)
    ensures forall i, j | 0 <= i < j < |s| :: s[i].id < s[j].id
  {
  }

  function Least(a: nat, b: nat): nat {
    if a <= b then a else b
  }

  lemma SliceIs(s: seq<Action>, offset: nat, limit: nat)
    ensures |Slice(s, offset, limit)| == Least(limit, if offset <= |s| then |s| - offset else 0)
    ensures forall i | 0 <= i < |Slice(s, offset, limit)| ::
              offset + i < |s| && Slice(s, offset, limit)[i] == s[offset + i]
  {
  }

  // ---- What the filters mean ----

  /** An id that the recorder gives to something it processes. */
  ghost predicate IsEventId(id: int) {
    exists e: EventId :: WellFormed(e) && (e.location == BeginBlockEvents ==> 1 <= e.eventIndex) && id == AsBigint(e)
  }

  /** The bounds that are given: on heights, on times, and on the place in the list of all actions. */
  predicate Meets(p: Params, momentId: int, a: Action) {
    && (p.height != 0 ==> HeightFromEventId(a.id) < p.height)
    && (p.fromHeight != 0 ==> p.fromHeight <= HeightFromEventId(a.id))
    && (p.timestamp != 0 ==> a.time < p.timestamp)
    && (p.fromTimestamp != 0 ==> p.fromTimestamp < a.time)
    && (p.nextPageToken != 0 ==> a.id < p.nextPageToken)
    && (p.prevPageToken != 0 ==> p.prevPageToken < a.id)
    && (a.id <= momentId
        || p.height + p.fromHeight + p.timestamp + p.fromTimestamp + p.nextPageToken + p.prevPageToken != 0)
  }

  lemma FiltersMean(p: Params, momentId: int, a: Action)
    requires IsEventId(a.id)
    ensures p.Keeps(a, momentId) <==> Meets(p, momentId, a)
  {
    var e: EventId :| WellFormed(e) && (e.location == BeginBlockEvents ==> 1 <= e.eventIndex) && a.id == AsBigint(e);
    HeightFilters(e, p.height);
    HeightFilters(e, p.fromHeight);
    ParseAfterEncode(e);
    hide AsBigint, WellFormed, HeightToEventId, HeightFromEventId;
  }

  /**
   * A page, for all parameters: `wanted` has exactly the matching actions that meet the bounds, oldest first.
   * Asked for what comes after something, the page has the oldest ones of them that the offset leaves, and
   * otherwise the newest ones; in both cases newest first, and as many as the limit allows.
   */
  lemma PageHasWhatWasAsked(p: Params, momentId: int, matches: Action -> bool, table: seq<Action>)
    returns (wanted: seq<Action>)
    requires Ascending(table) && forall a <- table :: IsEventId(a.id)
    ensures Ascending(wanted) && forall a :: a in wanted <==> a in table && matches(a) && Meets(p, momentId, a)
    ensures var page := PageOf(p, momentId, matches, table);
            && |page| == Least(p.limit, if p.offset <= |wanted| then |wanted| - p.offset else 0)
            && forall i | 0 <= i < |page| ::
                 if p.prevPageToken + p.fromHeight + p.fromTimestamp != 0 then
                   page[i] == wanted[p.offset + |page| - 1 - i]
                 else
                   page[i] == wanted[|wanted| - 1 - p.offset - i]
  {
    hide Selected, PageOf, Meets, IsEventId, Params.Keeps, Ascending, Least;
    wanted := Selected(table, Filter(p, momentId, matches));
    WantedAre(p, momentId, matches, table);
    PageIs(p, momentId, matches, table);
    PageOrder(p);
  }

  lemma PageOrder(p: Params)
    ensures p.IsReverseLookup() <==> p.prevPageToken + p.fromHeight + p.fromTimestamp != 0
  {
  }

  lemma WantedAre(p: Params, momentId: int, matches: Action -> bool, table: seq<Action>)
    requires Ascending(table) && forall a <- table :: IsEventId(a.id)
    ensures var wanted := Selected(table, Filter(p, momentId, matches));
            Ascending(wanted) && forall a :: a in wanted <==> a in table && matches(a) && Meets(p, momentId, a)
  {
    hide Selected, Meets, IsEventId, Params.Keeps, Ascending;
    var keep := Filter(p, momentId, matches);
    SelectedAre(table, keep);
    forall a <- table
      ensures keep(a) <==> matches(a) && Meets(p, momentId, a)
    {
      FiltersMean(p, momentId, a);
    }
  }
}
