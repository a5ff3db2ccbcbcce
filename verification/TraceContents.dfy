// What is processed for a block, position by position.
// Source: internal/fetch/record/mux.go

module TraceContents {
  import opened EventIds
  import opened Blocks
  import opened Recording
  import opened Mux
  import opened DepthFold

  // ---- Transactions ----

  /** The number of items of the first `k` transactions: a message and its events each. */
  function TxStart(txs: seq<TxResult>, k: nat): nat
    requires k <= |txs|
  {
    if k == 0 then 0 else TxStart(txs, k - 1) + 1 + |txs[k - 1].events|
  }

  /** At `p` the message of a transaction, and then its events, with indexes from one. */
  predicate TxFrom(h: int, tx: TxResult, txIndex: int, t: seq<Stamped>, p: nat) {
    && p + |tx.events| < |t|
    && t[p] == Stamped(EventId(h, TxsResults, txIndex, 1), OfTx(tx.head))
    && forall i | 0 <= i < |tx.events| ::
         t[p + 1 + i] == Stamped(EventId(h, TxsResults, txIndex, i + 1), OfEvent(tx.events[i]))
  }

  /** Transaction `k`, where the first one begins at `first`. */
  predicate IsTxAt(h: int, txs: seq<TxResult>, t: seq<Stamped>, first: nat, k: nat)
    requires k < |txs|
  {
    TxFrom(h, txs[k], k + 1, t, first + TxStart(txs, k))
  }

  ghost predicate HoldsTxs(h: int, txs: seq<TxResult>, t: seq<Stamped>, first: nat) {
    forall k: nat | k < |txs| :: IsTxAt(h, txs, t, first, k)
  }

  predicate StartsTx(txs: seq<TxResult>, first: nat, p: nat, k: nat) {
    k < |txs| && p == first + TxStart(txs, k)
  }

  ghost predicate MessageAt(txs: seq<TxResult>, t: seq<Stamped>, first: nat, p: nat) {
    p < |t| && t[p].item.OfTx? ==> exists k: nat :: StartsTx(txs, first, p, k)
  }

  ghost predicate MessagesOnly(txs: seq<TxResult>, t: seq<Stamped>, first: nat) {
    forall p: nat :: MessageAt(txs, t, first, p)
  }

  predicate NoMessage(t: seq<Stamped>) {
    forall s <- t :: !s.item.OfTx?
  }

  predicate NoMissing(t: seq<Stamped>) {
    forall s <- t :: !s.item.MissingEvents?
  }

  lemma Outside(before: seq<Stamped>, t: seq<Stamped>, after: seq<Stamped>, p: nat)
    requires p < |before| || |before| + |t| <= p < |before| + |t| + |after|
    ensures (before + t + after)[p] in before || (before + t + after)[p] in after
  {
  }

  lemma TxsShift(h: int, txs: seq<TxResult>, before: seq<Stamped>, t: seq<Stamped>, after: seq<Stamped>)
    requires HoldsTxs(h, txs, t, 0) && MessagesOnly(txs, t, 0)
    ensures HoldsTxs(h, txs, before + t + after, |before|)
    ensures NoMessage(before) && NoMessage(after) ==> MessagesOnly(txs, before + t + after, |before|)
  {
    hide TxStart;
    var u := before + t + after;
    forall k: nat | k < |txs|
      ensures IsTxAt(h, txs, u, |before|, k)
    {
      assert IsTxAt(h, txs, t, 0, k);
    }
    if NoMessage(before) && NoMessage(after) {
      forall p: nat
        ensures MessageAt(txs, u, |before|, p)
      {
        if |before| <= p < |before| + |t| {
          assert u[p] == t[p - |before|] && MessageAt(txs, t, 0, p - |before|);
          if u[p].item.OfTx? {
            var k: nat :| StartsTx(txs, 0, p - |before|, k);
            assert StartsTx(txs, |before|, p, k);
          }
        } else if p < |u| {
          Outside(before, t, after, p);
        }
      }
    }
  }

  lemma {:induction false} TxEventsByIndex(h: int, txIndex: int, events: seq<Event>)
    ensures var t := TxEventsTrace(h, txIndex, events);
            && |t| == |events|
            && forall i | 0 <= i < |t| :: t[i] == Stamped(EventId(h, TxsResults, txIndex, i + 1), OfEvent(events[i]))
  {
    if events != [] {
      TxEventsByIndex(h, txIndex, events[..|events| - 1]);
    }
  }

  lemma {:induction false} TxStartPrefix(txs: seq<TxResult>, k: nat)
    requires k < |txs|
    ensures TxStart(txs[..|txs| - 1], k) == TxStart(txs, k)
    ensures TxStart(txs, k) + 1 + |txs[k].events| <= TxStart(txs, |txs|)
  {
    StartsGrow(txs, k + 1, |txs|);
    if k > 0 {
      TxStartPrefix(txs, k - 1);
    }
  }

  lemma {:induction false} StartsGrow(txs: seq<TxResult>, j: nat, k: nat)
    requires j <= k <= |txs|
    ensures TxStart(txs, j) <= TxStart(txs, k)
  {
    if j < k {
      StartsGrow(txs, j, k - 1);
    }
  }

  lemma TxNext(h: int, txs: seq<TxResult>)
    requires txs != []
    ensures var n, t := |txs| - 1, TxsTrace(h, txs);
            var t0 := TxsTrace(h, txs[..n]);
            && t0 <= t && |t| == |t0| + 1 + |txs[n].events| && TxFrom(h, txs[n], n + 1, t, |t0|)
            && forall p | |t0| < p < |t| :: t[p].item.OfEvent?
  {
    TxEventsByIndex(h, |txs|, txs[|txs| - 1].events);
    hide TxEventsTrace;
  }

  lemma {:induction false} TxsByIndex(h: int, txs: seq<TxResult>)
    ensures var t := TxsTrace(h, txs);
            |t| == TxStart(txs, |txs|) && HoldsTxs(h, txs, t, 0) && MessagesOnly(txs, t, 0)
    ensures NoMissing(TxsTrace(h, txs))
  {
    if txs != [] {
      var n := |txs| - 1;
      var front, t := txs[..n], TxsTrace(h, txs);
      var t0 := TxsTrace(h, front);
      TxsByIndex(h, front);
      TxNext(h, txs);
      TxStartPrefix(txs, n);
      assert TxStart(txs, n + 1) == TxStart(txs, n) + 1 + |txs[n].events|;
      hide TxsTrace, TxStart, MessagesOnly;
      forall k: nat | k < |txs|
        ensures IsTxAt(h, txs, t, 0, k)
      {
        TxStartPrefix(txs, k);
        assert k < n ==> IsTxAt(h, front, t0, 0, k);
      }
      hide TxFrom, HoldsTxs;
      MessagesNext(txs, t0, t);
      assert forall s <- t :: s in t0 || !s.item.MissingEvents?;
    }
  }

  lemma MessagesNext(txs: seq<TxResult>, t0: seq<Stamped>, t: seq<Stamped>)
    requires txs != [] && |t0| == TxStart(txs, |txs| - 1) && t0 <= t
    requires MessagesOnly(txs[..|txs| - 1], t0, 0)
    requires forall p | |t0| < p < |t| :: !t[p].item.OfTx?
    ensures MessagesOnly(txs, t, 0)
  {
    var n := |txs| - 1;
    var front := txs[..n];
    hide TxStart;
    forall p: nat
      ensures MessageAt(txs, t, 0, p)
    {
      assert MessageAt(front, t0, 0, p);
      assert StartsTx(txs, 0, |t0|, n);
      if k: nat :| StartsTx(front, 0, p, k) {
        TxStartPrefix(txs, k);
        assert StartsTx(txs, 0, p, k);
      }
    }
  }

  // ---- Begin-block events ----

  /** An event that is marked so, or not marked at all. */
  predicate CountsAsBegin(e: Event) {
    || (exists a <- e.attrs :: a.key == "mode" && a.value == "BeginBlock")
    || !(exists a <- e.attrs :: a.key == "mode")
  }

  function BeginItem(h: int, events: seq<Event>, i: nat): Stamped
    requires i < |events|
  {
    Stamped(EventId(h, BeginBlockEvents, 0, i + 1), OfEvent(events[i]))
  }

  lemma {:induction false} BeginsAreEvents(h: int, events: seq<Event>)
    ensures NoMessage(BeginTrace(h, events)) && NoMissing(BeginTrace(h, events))
  {
    if events != [] {
      BeginsAreEvents(h, events[..|events| - 1]);
    }
  }

  /** The begin-block part: `from` lists the events that count, in order, each once. */
  ghost predicate HoldsBegins(h: int, events: seq<Event>, t: seq<Stamped>, from: seq<nat>) {
    && |from| <= |t|
    && (forall p | 0 <= p < |from| ::
          from[p] < |events| && CountsAsBegin(events[from[p]]) && t[p] == BeginItem(h, events, from[p]))
    && (forall p, q | 0 <= p < q < |from| :: from[p] < from[q])
    && forall i: nat | i < |events| && CountsAsBegin(events[i]) :: i in from
  }

  lemma BeginsStay(h: int, events: seq<Event>, t: seq<Stamped>, from: seq<nat>, more: seq<Stamped>)
    requires HoldsBegins(h, events, t, from)
    ensures HoldsBegins(h, events, t + more, from)
  {
    hide CountsAsBegin;
  }

  lemma {:induction false} BeginByIndex(h: int, events: seq<Event>) returns (from: seq<nat>)
    ensures |from| == |BeginTrace(h, events)| && HoldsBegins(h, events, BeginTrace(h, events), from)
  {
    from := [];
    if events != [] {
      var n := |events| - 1;
      from := BeginByIndex(h, events[..n]);
      assert IsBeginEvent(events[n]) <==> CountsAsBegin(events[n]) by { SameBegin(events[n]); }
      hide IsBeginEvent, CountsAsBegin;
      BeginsNext(h, events, BeginTrace(h, events[..n]), from);
      if CountsAsBegin(events[n]) {
        from := from + [n];
      }
    }
  }

  lemma BeginsNext(h: int, events: seq<Event>, t: seq<Stamped>, from: seq<nat>)
    requires events != [] && |from| == |t| && HoldsBegins(h, events[..|events| - 1], t, from)
    ensures var n := |events| - 1;
            if CountsAsBegin(events[n]) then HoldsBegins(h, events, t + [BeginItem(h, events, n)], from + [n])
            else HoldsBegins(h, events, t, from)
  {
    hide CountsAsBegin;
    var n := |events| - 1;
    assert forall i: nat | i < n :: events[..n][i] == events[i];
  }

  lemma SameBegin(e: Event)
    ensures IsBeginEvent(e) <==> CountsAsBegin(e)
  {
  }

  // ---- End-block events ----

  /** How often an event is marked as an end-block event. */
  function EndMarks(attrs: seq<Attr>): nat {
    if attrs == [] then 0
    else
      var a := attrs[|attrs| - 1];
      EndMarks(attrs[..|attrs| - 1]) + if a.key == "mode" && a.value == "EndBlock" then 1 else 0
  }

  function EndStart(events: seq<Event>, k: nat): nat
    requires k <= |events|
  {
    if k == 0 then 0 else EndStart(events, k - 1) + EndMarks(events[k - 1].attrs)
  }

  function EndItem(h: int, txIndex: int, p: nat, e: Event): Stamped {
    Stamped(EventId(h, EndBlockEvents, txIndex, p + 1), OfEvent(e))
  }

  lemma {:induction false} EndEventByIndex(h: int, txIndex: int, first: nat, e: Event, attrs: seq<Attr>)
    ensures var t := EndEventTrace(h, txIndex, first + 1, e, attrs);
            && |t| == EndMarks(attrs)
            && forall j | 0 <= j < |t| :: t[j] == EndItem(h, txIndex, first + j, e)
  {
    if attrs != [] {
      EndEventByIndex(h, txIndex, first, e, attrs[..|attrs| - 1]);
    }
  }

  lemma {:induction false} EndStartPrefix(events: seq<Event>, k: nat)
    requires k < |events|
    ensures EndStart(events[..|events| - 1], k) == EndStart(events, k)
    ensures EndStart(events, k + 1) <= EndStart(events, |events|)
  {
    EndStartsGrow(events, k + 1, |events|);
    if k > 0 {
      EndStartPrefix(events, k - 1);
    }
  }

  lemma {:induction false} EndStartsGrow(events: seq<Event>, j: nat, k: nat)
    requires j <= k <= |events|
    ensures EndStart(events, j) <= EndStart(events, k)
  {
    if j < k {
      EndStartsGrow(events, j, k - 1);
    }
  }

  /** From `p` on: event `k`, once for each of its marks, with indexes that count what is processed. */
  predicate IsEndAt(h: int, txIndex: int, events: seq<Event>, t: seq<Stamped>, first: nat, k: nat)
    requires k < |events|
  {
    forall p: nat | EndStart(events, k) <= p < EndStart(events, k + 1) ::
      first + p < |t| && t[first + p] == EndItem(h, txIndex, p, events[k])
  }

  ghost predicate HoldsEnds(h: int, txIndex: int, events: seq<Event>, t: seq<Stamped>, first: nat) {
    forall k: nat | k < |events| :: IsEndAt(h, txIndex, events, t, first, k)
  }

  lemma EndsShift(h: int, txIndex: int, events: seq<Event>, before: seq<Stamped>, t: seq<Stamped>, after: seq<Stamped>)
    requires HoldsEnds(h, txIndex, events, t, 0)
    ensures HoldsEnds(h, txIndex, events, before + t + after, |before|)
  {
    hide EndStart;
    forall k: nat | k < |events|
      ensures IsEndAt(h, txIndex, events, before + t + after, |before|, k)
    {
      assert IsEndAt(h, txIndex, events, t, 0, k);
    }
  }

  lemma EndNext(h: int, txIndex: int, events: seq<Event>)
    requires events != []
    ensures var n, t := |events| - 1, EndTrace(h, txIndex, events);
            var t0 := EndTrace(h, txIndex, events[..n]);
            && t0 <= t && |t| == |t0| + EndMarks(events[n].attrs)
            && forall p: nat | |t0| <= p < |t| :: t[p] == EndItem(h, txIndex, p, events[n])
  {
    var n := |events| - 1;
    var t, t0 := EndTrace(h, txIndex, events), EndTrace(h, txIndex, events[..n]);
    EndEventByIndex(h, txIndex, |t0|, events[n], events[n].attrs);
    assert t == t0 + EndEventTrace(h, txIndex, |t0| + 1, events[n], events[n].attrs);
    hide EndTrace, EndEventTrace, EndMarks;
  }

  lemma {:induction false} EndByIndex(h: int, txIndex: int, events: seq<Event>)
    ensures var t := EndTrace(h, txIndex, events);
            |t| == EndStart(events, |events|) && HoldsEnds(h, txIndex, events, t, 0)
    ensures NoMessage(EndTrace(h, txIndex, events)) && NoMissing(EndTrace(h, txIndex, events))
  {
    if events != [] {
      var n := |events| - 1;
      var front, t := events[..n], EndTrace(h, txIndex, events);
      var t0 := EndTrace(h, txIndex, front);
      EndByIndex(h, txIndex, front);
      EndNext(h, txIndex, events);
      EndStartPrefix(events, n);
      assert EndStart(events, n + 1) == EndStart(events, n) + EndMarks(events[n].attrs);
      hide EndTrace, EndStart, EndMarks;
      forall k: nat | k < |events|
        ensures IsEndAt(h, txIndex, events, t, 0, k)
      {
        EndStartPrefix(events, k);
        if k < n {
          EndEnds(events, k);
          assert IsEndAt(h, txIndex, front, t0, 0, k);
        }
      }
    }
  }

  lemma EndEnds(events: seq<Event>, k: nat)
    requires k < |events| - 1
    ensures EndStart(events[..|events| - 1], k + 1) == EndStart(events, k + 1)
  {
    EndStartPrefix(events, k + 1);
  }

  // ---- The whole block ----

  /**
   * A block is processed as follows. First each event that counts as a begin-block event, once, in order,
   * under its place among all of them; then each transaction's message and right after it its events; then
   * each finalize event once for each end mark, numbered from one; and last, once, the missing events.
   */
  lemma BlockByIndex(b: Block) returns (from: seq<nat>)
    ensures var h, t, events, txs := b.height, BlockTrace(b), b.results.finalizeEvents, b.results.txs;
            var ends := EndStart(events, |events|);
            && HoldsBegins(h, events, t, from)
            && HoldsTxs(h, txs, t, |from|)
            && HoldsEnds(h, |txs| + 1, events, t, |from| + TxStart(txs, |txs|))
            && |t| == |from| + TxStart(txs, |txs|) + ends + 1
            && t[|t| - 1] == Stamped(EventId(h, EndBlockEvents, |txs| + 1, ends + 1), MissingEvents)
            && MessagesOnly(txs, t, |from|)
            && NoMissing(t[..|t| - 1])
  {
    var h, events, txs := b.height, b.results.finalizeEvents, b.results.txs;
    from := BeginByIndex(h, events);
    TxsByIndex(h, txs);
    EndByIndex(h, |txs| + 1, events);
    var begin, own, end := BeginTrace(h, events), TxsTrace(h, txs), EndTrace(h, |txs| + 1, events);
    var last := [Stamped(EventId(h, EndBlockEvents, |txs| + 1, 1 + |end|), MissingEvents)];
    var all := begin + own + end;
    hide HoldsBegins, HoldsTxs, HoldsEnds, MessagesOnly, TxStart, EndStart, CountsAsBegin;
    BeginsAreEvents(h, events);
    Joins(begin, own, end, last);
    assert BlockTrace(b) == all + last && all == (all + last)[..|all|];
    hide BlockTrace, BeginTrace, TxsTrace, EndTrace, NoMessage, NoMissing;
    BeginsStay(h, events, begin, from, own + end + last);
    TxsShift(h, txs, begin, own, end + last);
    EndsShift(h, |txs| + 1, events, begin + own, end, last);
  }

  lemma Joins(begin: seq<Stamped>, own: seq<Stamped>, end: seq<Stamped>, last: seq<Stamped>)
    ensures begin + (own + end + last) == begin + own + (end + last) == begin + own + end + last
    ensures NoMissing(begin) && NoMissing(own) && NoMissing(end) ==> NoMissing(begin + own + end)
    ensures NoMessage(end) && NoMessage(last) ==> NoMessage(end + last)
  {
  }

  // ---- What the parsers see ----

  /** Field `k` comes from attribute `from[k]`; these are the ones with a value that carry no mode and no index. */
  ghost predicate HoldsFields(attrs: seq<Attr>, fields: seq<Field>, from: seq<nat>) {
    && |from| == |fields|
    && (forall k | 0 <= k < |fields| ::
          from[k] < |attrs| && fields[k] == Field(attrs[from[k]].key, attrs[from[k]].value))
    && (forall j, k | 0 <= j < k < |from| :: from[j] < from[k])
    && forall i: nat | i < |attrs| :: i in from <==> IsSeen(attrs[i])
  }

  predicate IsSeen(a: Attr) {
    a.value != "" && a.key != "mode" && a.key != "msg_index"
  }

  lemma {:induction false} FilteredByIndex(attrs: seq<Attr>) returns (from: seq<nat>)
    ensures HoldsFields(attrs, Filtered(attrs), from)
  {
    from := [];
    if attrs != [] {
      var n := |attrs| - 1;
      from := FilteredByIndex(attrs[..n]);
      FieldsNext(attrs, Filtered(attrs[..n]), from);
      hide HoldsFields;
      from := from + if IsSeen(attrs[n]) then [n] else [];
    }
  }

  lemma FieldsNext(attrs: seq<Attr>, fields: seq<Field>, from: seq<nat>)
    requires attrs != [] && HoldsFields(attrs[..|attrs| - 1], fields, from)
    ensures var n, a := |attrs| - 1, attrs[|attrs| - 1];
            HoldsFields(attrs, fields + if IsSeen(a) then [Field(a.key, a.value)] else [],
                        from + if IsSeen(a) then [n] else [])
  {
    hide IsSeen;
    var n := |attrs| - 1;
    var front := attrs[..n];
    assert forall i: nat | i < n :: front[i] == attrs[i];
    assert n !in from;
  }

  /** The events that an item is parsed into, under its id and with the height and the time of the block. */
  predicate IsParsed(d: Decoder, b: Block, s: Stamped, es: seq<Parsed>) {
    var m := Meta(b.height, b.time, s.id);
    && (forall e <- es :: e.m == m)
    && match s.item
       case OfEvent(e) => |es| == 1 && es[0].p == d.event(m, e.kind, Filtered(e.attrs))
       case OfTx(head) =>
         |es| == |d.tx(m, head)| && forall k | 0 <= k < |es| :: es[k].p == d.tx(m, head)[k]
       case MissingEvents =>
         |es| == |d.missing(m)| && forall k | 0 <= k < |es| :: es[k].p == d.missing(m)[k]
  }

  /** The events from `starts[p]` on, up to those of the next item, come from item `p`. */
  predicate PartIsParsed(d: Decoder, b: Block, t: seq<Stamped>, es: seq<Parsed>, starts: seq<nat>, p: nat)
    requires |starts| == |t| + 1 && p < |t|
  {
    starts[p] <= starts[p + 1] <= |es| && IsParsed(d, b, t[p], es[starts[p]..starts[p + 1]])
  }

  ghost predicate PartsAreParsed(d: Decoder, b: Block, t: seq<Stamped>, es: seq<Parsed>, starts: seq<nat>) {
    && |starts| == |t| + 1 && starts[0] == 0 && starts[|t|] == |es|
    && forall p: nat | p < |t| :: PartIsParsed(d, b, t, es, starts, p)
  }

  /** The events recorded for a block are those of its items, item by item. */
  lemma {:induction false} EventsOfTheTrace(d: Decoder, b: Block, t: seq<Stamped>) returns (starts: seq<nat>)
    ensures PartsAreParsed(d, b, t, TraceEvents(d, b, t), starts)
  {
    starts := [0];
    if t != [] {
      var front, s := t[..|t| - 1], t[|t| - 1];
      var m := Meta(b.height, b.time, s.id);
      var es, own := TraceEvents(d, b, front), Parse(m, Payloads(d, m, s.item));
      starts := EventsOfTheTrace(d, b, front);
      assert IsParsed(d, b, s, own);
      hide IsParsed, TraceEvents, Payloads, Parse;
      PartsNext(d, b, front, es, starts, s, own);
      assert t == front + [s];
      starts := starts + [|es| + |own|];
    }
  }

  lemma PartsNext(d: Decoder, b: Block, t: seq<Stamped>, es: seq<Parsed>, starts: seq<nat>, s: Stamped,
                  own: seq<Parsed>)
    requires PartsAreParsed(d, b, t, es, starts) && IsParsed(d, b, s, own)
    ensures PartsAreParsed(d, b, t + [s], es + own, starts + [|es| + |own|])
  {
    hide IsParsed;
    var all, starts', t' := es + own, starts + [|es| + |own|], t + [s];
    forall p: nat | p < |t'|
      ensures PartIsParsed(d, b, t', all, starts', p)
    {
      if p < |t| {
        assert PartIsParsed(d, b, t, es, starts, p);
        assert all[starts[p]..starts[p + 1]] == es[starts[p]..starts[p + 1]];
      } else {
        assert starts'[p] == |es| && starts'[p + 1] == |all| && t'[p] == s;
        assert all[|es|..|all|] == own;
      }
    }
  }
}
