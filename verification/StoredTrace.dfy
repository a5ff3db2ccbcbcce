// What storing a block changes for its processing.
// Source: internal/fetch/sync/blockstore/storedblock.go, internal/fetch/record/mux.go

module StoredTraces {
  import opened Blocks
  import opened EventIds
  import opened Recording
  import opened Mux
  import opened StoredBlocks

  /** What the parsers can see of a processed item. */
  datatype View =
    | SeenEvent(id: EventId, kind: string, fields: seq<Field>)
    | SeenTx(id: EventId, head: string)
    | SeenMissing(id: EventId)

  function ViewOf(s: Stamped): View {
    match s.item
    case OfEvent(e) => SeenEvent(s.id, e.kind, Filtered(e.attrs))
    case OfTx(head) => SeenTx(s.id, head)
    case MissingEvents => SeenMissing(s.id)
  }

  function Views(t: seq<Stamped>): seq<View> {
    Map(ViewOf, t)
  }

  // ---- The condition ----

  /** How often an event is processed at the end of the block. */
  function EndCount(attrs: seq<Attr>): nat {
    if attrs == [] then 0
    else EndCount(attrs[..|attrs| - 1]) + if IsMode(attrs[|attrs| - 1], END) then 1 else 0
  }

  /** No attribute with a value is nameless. */
  predicate Named(attrs: seq<Attr>) {
    forall a <- attrs :: a.key == "" ==> a.value == ""
  }

  /** The first mode says all there is: a begin event is stored as one, and end events are processed once. */
  predicate OneMode(e: Event) {
    && (IsBeginEvent(e) ==> Mode(e.attrs) == BEGIN)
    && EndCount(e.attrs) == if Mode(e.attrs) == END then 1 else 0
  }

  /** Begin events come before all others. */
  predicate BeginsFirst(events: seq<Event>) {
    forall i, j | 0 <= i < j < |events| :: IsBeginEvent(events[j]) ==> IsBeginEvent(events[i])
  }

  predicate NamedAll(events: seq<Event>) {
    forall e <- events :: Named(e.attrs)
  }

  predicate Faithful(r: Results) {
    && (forall e <- r.finalizeEvents :: OneMode(e))
    && BeginsFirst(r.finalizeEvents)
    && NamedAll(OfMode(r.finalizeEvents, BEGIN)) && NamedAll(OfMode(r.finalizeEvents, END))
    && forall tx <- r.txs :: NamedAll(tx.events)
  }

  // ---- Traces as stamped lists ----

  function Stamps(h: int, location: Location, txIndex: int, events: seq<Event>): (t: seq<Stamped>)
    ensures |t| == |events|
  {
    seq(|events|, i requires 0 <= i < |events| => Stamped(EventId(h, location, txIndex, i + 1), OfEvent(events[i])))
  }

  lemma {:induction false} FirstBeginIsBegin(attrs: seq<Attr>)
    ensures Mode(attrs) != "" ==> exists a <- attrs :: IsMode(a, Mode(attrs))
    ensures (forall a <- attrs :: a.key != "mode") ==> Mode(attrs) == ""
  {
    if attrs != [] && attrs[0].key != "mode" {
      FirstBeginIsBegin(attrs[1..]);
    } else if attrs != [] {
      assert attrs[0] in attrs;
    }
  }

  lemma {:induction false} EndCounted(attrs: seq<Attr>)
    ensures EndCount(attrs) > 0 <==> exists a <- attrs :: IsMode(a, END)
  {
    if attrs != [] {
      var front := attrs[..|attrs| - 1];
      EndCounted(front);
      assert attrs == front + [attrs[|attrs| - 1]];
    }
  }

  lemma {:induction false} EndEventTraceLength(h: int, txIndex: int, first: int, e: Event, attrs: seq<Attr>)
    ensures |EndEventTrace(h, txIndex, first, e, attrs)| == EndCount(attrs)
    ensures EndCount(attrs) == 1 ==>
              EndEventTrace(h, txIndex, first, e, attrs)
                == [Stamped(EventId(h, EndBlockEvents, txIndex, first), OfEvent(e))]
  {
    if attrs != [] {
      EndEventTraceLength(h, txIndex, first, e, attrs[..|attrs| - 1]);
    }
  }

  /** At least those events are processed at the end that are stored as end events; more unless `OneMode` holds. */
  lemma {:induction false} EndLengths(h: int, txIndex: int, events: seq<Event>)
    ensures |EndTrace(h, txIndex, events)| >= |OfMode(events, END)|
    ensures |EndTrace(h, txIndex, events)| == |OfMode(events, END)| <==>
            forall e <- events :: EndCount(e.attrs) == if Mode(e.attrs) == END then 1 else 0
  {
    if events != [] {
      var front, e := events[..|events| - 1], events[|events| - 1];
      EndLengths(h, txIndex, front);
      EndEventTraceLength(h, txIndex, 1 + |EndTrace(h, txIndex, front)|, e, e.attrs);
      FirstBeginIsBegin(e.attrs);
      EndCounted(e.attrs);
      assert events == front + [e];
      hide IsMode, Mode, EndEventTrace;
    }
  }

  lemma {:induction false} BeginLengths(h: int, events: seq<Event>)
    ensures |OfMode(events, BEGIN)| <= |BeginTrace(h, events)| <= |events|
    ensures |BeginTrace(h, events)| == |OfMode(events, BEGIN)| <==>
            forall e <- events :: IsBeginEvent(e) ==> Mode(e.attrs) == BEGIN
    ensures |BeginTrace(h, events)| == |events| <==> forall e <- events :: IsBeginEvent(e)
  {
    if events != [] {
      var front, e := events[..|events| - 1], events[|events| - 1];
      BeginLengths(h, front);
      FirstBeginIsBegin(e.attrs);
      assert events == front + [e];
      assert Mode(e.attrs) == BEGIN ==> IsBeginEvent(e);
      hide IsBeginEvent, Mode;
    }
  }

  lemma {:induction false} EndIsStamped(h: int, txIndex: int, events: seq<Event>)
    requires forall e <- events :: EndCount(e.attrs) == if Mode(e.attrs) == END then 1 else 0
    ensures EndTrace(h, txIndex, events) == Stamps(h, EndBlockEvents, txIndex, OfMode(events, END))
  {
    if events != [] {
      var front, e := events[..|events| - 1], events[|events| - 1];
      EndIsStamped(h, txIndex, front);
      EndEventTraceLength(h, txIndex, 1 + |EndTrace(h, txIndex, front)|, e, e.attrs);
      assert EndTrace(h, txIndex, events) == EndTrace(h, txIndex, front)
             + EndEventTrace(h, txIndex, 1 + |EndTrace(h, txIndex, front)|, e, e.attrs);
      assert OfMode(events, END) == OfMode(front, END) + if Mode(e.attrs) == END then [e] else [];
      hide Mode, EndCount, EndEventTrace, EndTrace, OfMode;
    }
  }

  /** `BeginsFirst`, one event at a time. */
  lemma BeginsFirstStep(events: seq<Event>)
    requires events != []
    ensures BeginsFirst(events) <==>
            && BeginsFirst(events[..|events| - 1])
            && (IsBeginEvent(events[|events| - 1]) ==> forall e <- events[..|events| - 1] :: IsBeginEvent(e))
  {
    hide IsBeginEvent;
    var front := events[..|events| - 1];
    assert events == front + [events[|events| - 1]];
    assert forall i | 0 <= i < |front| :: front[i] in front;
  }

  /** Begin events keep their ids exactly when they come first. */
  lemma {:induction false} BeginIsStamped(h: int, events: seq<Event>)
    requires forall e <- events :: IsBeginEvent(e) ==> Mode(e.attrs) == BEGIN
    requires BeginsFirst(events)
    ensures BeginTrace(h, events) == Stamps(h, BeginBlockEvents, 0, OfMode(events, BEGIN))
  {
    if events != [] {
      var front, e := events[..|events| - 1], events[|events| - 1];
      BeginsFirstStep(events);
      FirstBeginIsBegin(e.attrs);
      assert Mode(e.attrs) == BEGIN <==> IsBeginEvent(e);
      hide Mode, IsBeginEvent, BeginsFirst;
      BeginIsStamped(h, front);
      BeginLengths(h, front);
    }
  }

  lemma {:induction false} StampedMeansFirst(h: int, events: seq<Event>)
    requires forall i | 0 <= i < |BeginTrace(h, events)| :: BeginTrace(h, events)[i].id.eventIndex == i + 1
    ensures BeginsFirst(events)
  {
    if events != [] {
      var front, e := events[..|events| - 1], events[|events| - 1];
      var t := BeginTrace(h, front);
      BeginsFirstStep(events);
      BeginLengths(h, front);
      hide IsBeginEvent, BeginsFirst;
      assert forall i | 0 <= i < |t| :: t[i] == BeginTrace(h, events)[i];
      StampedMeansFirst(h, front);
      if IsBeginEvent(e) {
        assert BeginTrace(h, events)[|t|].id.eventIndex == |events|;
      }
    }
  }

  // ---- Attributes ----

  function Fields(a: Attr): seq<Field> {
    if a.key == "mode" || a.key == "msg_index" || a.value == "" then [] else [Field(a.key, a.value)]
  }

  lemma FilteredStep(front: seq<Attr>, a: Attr)
    ensures Filtered(front + [a]) == Filtered(front) + Fields(a)
  {
    assert (front + [a])[..|front|] == front;
  }

  lemma FilteredKeptStep(front: seq<Attr>, a: Attr)
    ensures Filtered(Kept(front + [a])) == Filtered(Kept(front)) + if a.key == "" then [] else Fields(a)
  {
    assert (front + [a])[..|front|] == front;
    assert Kept(front + [a]) == Kept(front) + if a.key == "mode" || a.key == "" then [] else [a.(index := false)];
    if a.key == "mode" || a.key == "" {
      assert Kept(front + [a]) == Kept(front);
    } else {
      FilteredStep(Kept(front), a.(index := false));
    }
  }

  /** A round trip loses what is nameless, and nothing else that the parsers see. */
  lemma {:induction false} FilteredKept(attrs: seq<Attr>)
    ensures |Filtered(Kept(attrs))| <= |Filtered(attrs)|
    ensures Filtered(Kept(attrs)) == Filtered(attrs) <==> Named(attrs)
    ensures |Filtered(Kept(attrs))| == |Filtered(attrs)| ==> Named(attrs)
  {
    if attrs != [] {
      var front, a := attrs[..|attrs| - 1], attrs[|attrs| - 1];
      assert attrs == front + [a];
      FilteredKept(front);
      FilteredStep(front, a);
      FilteredKeptStep(front, a);
      assert Named(attrs) <==> Named(front) && (a.key == "" ==> a.value == "");
      hide Filtered, Kept, Named;
    }
  }

  lemma FilteredReload(e: Event, mode: string)
    ensures Filtered(ReloadEvent(mode)(e).attrs) == Filtered(Kept(e.attrs))
  {
    if mode != "" {
      FilteredStep(Kept(e.attrs), Attr("mode", mode, false));
    } else {
      assert ReloadEvent(mode)(e).attrs == Kept(e.attrs);
    }
  }

  /** Events with the same stamps look the same exactly when nothing is nameless. */
  lemma StampsReload(h: int, location: Location, txIndex: int, events: seq<Event>, mode: string)
    ensures Views(Stamps(h, location, txIndex, events))
            == Views(Stamps(h, location, txIndex, Map(ReloadEvent(mode), events)))
            <==> NamedAll(events)
  {
    var u := Views(Stamps(h, location, txIndex, events));
    var v := Views(Stamps(h, location, txIndex, Map(ReloadEvent(mode), events)));
    forall i | 0 <= i < |events|
      ensures u[i] == v[i] <==> Named(events[i].attrs)
    {
      FilteredKept(events[i].attrs);
      FilteredReload(events[i], mode);
    }
    hide Named;
    assert (forall i | 0 <= i < |events| :: u[i] == v[i]) <==> forall i | 0 <= i < |events| :: Named(events[i].attrs);
    assert u == v <==> forall i | 0 <= i < |events| :: u[i] == v[i];
    assert NamedAll(events) <==> forall i | 0 <= i < |events| :: Named(events[i].attrs);
  }

  // ---- Blocks ----

  lemma {:induction false} TxsLength(h: int, txs: seq<TxResult>)
    ensures |TxsTrace(h, txs)| == |TxsTrace(h, Map(ReloadTx, txs))|
    ensures Views(TxsTrace(h, txs)) == Views(TxsTrace(h, Map(ReloadTx, txs)))
            <==> forall tx <- txs :: NamedAll(tx.events)
  {
    if txs != [] {
      var front, tx := txs[..|txs| - 1], txs[|txs| - 1];
      assert txs == front + [tx];
      assert Map(ReloadTx, txs)[..|front|] == Map(ReloadTx, front);
      TxsLength(h, front);
      TxEventsAreStamps(h, |txs|, tx.events);
      TxEventsAreStamps(h, |txs|, ReloadTx(tx).events);
      StampsReload(h, TxsResults, |txs|, tx.events, "");
      hide NamedAll, Stamps;
      var s := [Stamped(EventId(h, TxsResults, |txs|, 1), OfTx(tx.head))];
      var t, t' := TxEventsTrace(h, |txs|, tx.events), TxEventsTrace(h, |txs|, ReloadTx(tx).events);
      ViewsConcat(TxsTrace(h, front) + s, t, TxsTrace(h, Map(ReloadTx, front)) + s, t');
      ViewsConcat(TxsTrace(h, front), s, TxsTrace(h, Map(ReloadTx, front)), s);
    }
  }

  lemma {:induction false} TxEventsAreStamps(h: int, txIndex: int, events: seq<Event>)
    ensures TxEventsTrace(h, txIndex, events) == Stamps(h, TxsResults, txIndex, events)
  {
    if events != [] {
      TxEventsAreStamps(h, txIndex, events[..|events| - 1]);
    }
  }

  lemma ViewsConcat(a: seq<Stamped>, b: seq<Stamped>, c: seq<Stamped>, d: seq<Stamped>)
    requires |a| == |c|
    ensures Views(a + b) == Views(c + d) <==> Views(a) == Views(c) && Views(b) == Views(d)
  {
    hide ViewOf;
    if Views(a + b) == Views(c + d) {
      assert Views(a) == Views(a + b)[..|a|] == Views(c + d)[..|c|] == Views(c);
      assert Views(b) == Views(a + b)[|a|..] == Views(c + d)[|c|..] == Views(d);
    } else {
      assert Views(a + b) == Views(a) + Views(b) && Views(c + d) == Views(c) + Views(d);
    }
  }

  predicate BeginModes(events: seq<Event>) {
    forall e <- events :: IsBeginEvent(e) ==> Mode(e.attrs) == BEGIN
  }

  predicate EndModes(events: seq<Event>) {
    forall e <- events :: EndCount(e.attrs) == if Mode(e.attrs) == END then 1 else 0
  }

  lemma BeginViews(h: int, events: seq<Event>)
    ensures var stored := Stamps(h, BeginBlockEvents, 0, Map(ReloadEvent(BEGIN), OfMode(events, BEGIN)));
            && |BeginTrace(h, events)| >= |stored|
            && (Views(BeginTrace(h, events)) == Views(stored) <==>
                BeginModes(events) && BeginsFirst(events) && NamedAll(OfMode(events, BEGIN)))
  {
    hide Mode, IsBeginEvent, BeginsFirst, NamedAll, BeginTrace, OfMode, ReloadEvent;
    BeginLengths(h, events);
    var stored := Stamps(h, BeginBlockEvents, 0, Map(ReloadEvent(BEGIN), OfMode(events, BEGIN)));
    if Views(BeginTrace(h, events)) == Views(stored) {
      forall i | 0 <= i < |BeginTrace(h, events)|
        ensures BeginTrace(h, events)[i].id.eventIndex == i + 1
      {
        assert Views(BeginTrace(h, events))[i] == Views(stored)[i];
      }
      StampedMeansFirst(h, events);
    }
    if BeginModes(events) && BeginsFirst(events) {
      BeginIsStamped(h, events);
      StampsReload(h, BeginBlockEvents, 0, OfMode(events, BEGIN), BEGIN);
    }
  }

  lemma EndViews(h: int, txIndex: int, events: seq<Event>)
    ensures var stored := Stamps(h, EndBlockEvents, txIndex, Map(ReloadEvent(END), OfMode(events, END)));
            && |EndTrace(h, txIndex, events)| >= |stored|
            && (Views(EndTrace(h, txIndex, events)) == Views(stored) <==>
                EndModes(events) && NamedAll(OfMode(events, END)))
  {
    hide Mode, EndCount, NamedAll, EndTrace, OfMode, ReloadEvent;
    EndLengths(h, txIndex, events);
    if EndModes(events) {
      EndIsStamped(h, txIndex, events);
      StampsReload(h, EndBlockEvents, txIndex, OfMode(events, END), END);
    }
  }

  lemma PlacedHasOneMode(e: Event, mode: string)
    requires Placed(e, mode) && (mode == BEGIN || mode == END)
    ensures OneMode(e) && (IsBeginEvent(e) <==> mode == BEGIN)
  {
    var front, last := e.attrs[..|e.attrs| - 1], e.attrs[|e.attrs| - 1];
    PlacedIsFixed(e, mode);
    EndCounted(front);
    assert e.attrs == front + [last];
    assert last in e.attrs && IsMode(last, mode);
  }

  /** Loaded events are processed in the order and under the ids of storage. */
  lemma LoadedTraces(r: Results, h: int, txIndex: int)
    ensures BeginTrace(h, Reload(r).finalizeEvents) == Stamps(h, BeginBlockEvents, 0, Begins(r))
    ensures EndTrace(h, txIndex, Reload(r).finalizeEvents) == Stamps(h, EndBlockEvents, txIndex, Ends(r))
  {
    hide Placed, OneMode, IsBeginEvent, OfMode, Mode, EndCount, BeginTrace, EndTrace, Begins, Ends, Reload, Stamps;
    var begins, ends := Begins(r), Ends(r);
    ReloadIs(r);
    ReloadedIsPlaced(r);
    OfModePlaced(begins, ends);
    forall e <- begins ensures OneMode(e) && IsBeginEvent(e) { PlacedHasOneMode(e, BEGIN); }
    forall e <- ends ensures OneMode(e) && !IsBeginEvent(e) { PlacedHasOneMode(e, END); }
    forall e | OneMode(e)
      ensures IsBeginEvent(e) ==> Mode(e.attrs) == BEGIN
      ensures EndCount(e.attrs) == if Mode(e.attrs) == END then 1 else 0
    {
      OneModeIs(e);
    }
    assert BeginsFirst(begins + ends);
    BeginIsStamped(h, begins + ends);
    EndIsStamped(h, txIndex, begins + ends);
  }

  lemma OneModeIs(e: Event)
    ensures OneMode(e) <==>
              && (IsBeginEvent(e) ==> Mode(e.attrs) == BEGIN)
              && EndCount(e.attrs) == if Mode(e.attrs) == END then 1 else 0
  {
  }

  /**
   * Processing a block after a round trip sees the same events, under the same ids, in the same order,
   * exactly when the block is faithful.
   */
  lemma ProcessingSurvives(b: Block)
    ensures Views(BlockTrace(ReloadBlock(b))) == Views(BlockTrace(b)) <==> Faithful(b.results)
  {
    hide OneMode, OfMode, BeginTrace, EndTrace, TxsTrace, Stamps, Views, NamedAll, BeginsFirst, Reload;
    var r, h, txIndex := b.results, b.height, |b.results.txs| + 1;
    var begin, txs, end := BeginTrace(h, r.finalizeEvents), TxsTrace(h, r.txs), EndTrace(h, txIndex, r.finalizeEvents);
    ReloadIs(r);
    LoadedTraces(r, h, txIndex);
    BeginViews(h, r.finalizeEvents);
    EndViews(h, txIndex, r.finalizeEvents);
    TxsLength(h, r.txs);
    var begin', txs', end' := Stamps(h, BeginBlockEvents, 0, Begins(r)), TxsTrace(h, Map(ReloadTx, r.txs)),
        Stamps(h, EndBlockEvents, txIndex, Ends(r));
    var last := [Stamped(EventId(h, EndBlockEvents, txIndex, 1 + |end|), MissingEvents)];
    var last' := [Stamped(EventId(h, EndBlockEvents, txIndex, 1 + |end'|), MissingEvents)];
    assert BlockTrace(b) == begin + txs + end + last && BlockTrace(ReloadBlock(b)) == begin' + txs' + end' + last';
    assert Faithful(r) <==> BeginModes(r.finalizeEvents) && BeginsFirst(r.finalizeEvents) && EndModes(r.finalizeEvents)
                            && NamedAll(OfMode(r.finalizeEvents, BEGIN)) && NamedAll(OfMode(r.finalizeEvents, END))
                            && forall tx <- r.txs :: NamedAll(tx.events) by {
      forall e: Event
        ensures OneMode(e) <==>
                  && (IsBeginEvent(e) ==> Mode(e.attrs) == BEGIN)
                  && EndCount(e.attrs) == if Mode(e.attrs) == END then 1 else 0
      {
        OneModeIs(e);
      }
    }
    ViewsLength(BlockTrace(b));
    ViewsLength(BlockTrace(ReloadBlock(b)));
    ViewsLength(begin);
    ViewsLength(begin');
    ViewsLength(end);
    ViewsLength(end');
    if |begin| == |begin'| && |end| == |end'| {
      ViewsConcat(begin + txs + end, last, begin' + txs' + end', last');
      ViewsConcat(begin + txs, end, begin' + txs', end');
      ViewsConcat(begin, txs, begin', txs');
    }
  }

  lemma ViewsLength(t: seq<Stamped>)
    ensures |Views(t)| == |t|
  {
  }

  lemma SameViewSameItem(d: Decoder, rules: Rules, b: Block, c: Block, s: Stamped, u: Stamped, l: Ledger)
    requires b.height == c.height && b.time == c.time && ViewOf(s) == ViewOf(u)
    ensures RunItem(d, rules, b, s, l) == RunItem(d, rules, c, u, l)
  {
    hide Filtered, Record, RecordAll;
    var m := Meta(b.height, b.time, s.id);
    assert Payloads(d, m, s.item) == Payloads(d, m, u.item);
  }

  /** What looks the same to the parsers has the same effect. */
  lemma {:induction false} SameViewsSameLedger(d: Decoder, rules: Rules, b: Block, c: Block, t: seq<Stamped>,
                                               u: seq<Stamped>, l: Ledger)
    requires b.height == c.height && b.time == c.time && Views(t) == Views(u)
    ensures RunTrace(d, rules, b, t, l) == RunTrace(d, rules, c, u, l)
  {
    ViewsLength(t);
    ViewsLength(u);
    hide ViewOf, RunItem;
    if t != [] {
      var n := |t| - 1;
      assert Views(t)[n] == Views(u)[n];
      assert Views(t[..n]) == Views(t)[..n] == Views(u)[..n] == Views(u[..n]);
      hide Views;
      SameViewSameItem(d, rules, b, c, t[n], u[n], RunTrace(d, rules, b, t[..n], l));
      SameViewsSameLedger(d, rules, b, c, t[..n], u[..n], l);
    }
  }

  /** So a faithful block that comes from storage is recorded as one from the chain. */
  lemma StoredBlocksRecordTheSame(d: Decoder, rules: Rules, b: Block, l: Ledger)
    requires Faithful(b.results)
    ensures RunBlock(d, rules, ReloadBlock(b), l) == RunBlock(d, rules, b, l)
  {
    ProcessingSurvives(b);
    hide BlockTrace, RunTrace;
    SameViewsSameLedger(d, rules, b, ReloadBlock(b), BlockTrace(b), BlockTrace(ReloadBlock(b)), l);
  }

  /** Storage loses a finalize event without a mode, although it is processed as a begin event. */
  lemma ModelessEventsAreLost(h: int, time: int, e: Event)
    requires forall a <- e.attrs :: a.key != "mode"
    ensures var b := Block(h, time, Results(h, [], [e]));
            && !Faithful(b.results)
            && ReloadBlock(b).results.finalizeEvents == []
            && BlockTrace(b)[0] == Stamped(EventId(h, BeginBlockEvents, 0, 1), OfEvent(e))
  {
    var r := Results(h, [], [e]);
    ReloadIs(r);
    FirstBeginIsBegin(e.attrs);
    assert [e][..0] == [];
    assert e in r.finalizeEvents;
    assert BeginTrace(h, [e]) == [Stamped(EventId(h, BeginBlockEvents, 0, 1), OfEvent(e))];
    assert OfMode([e], BEGIN) == [] && OfMode([e], END) == [];
  }

  /** What comes back exactly is also processed as before. */
  lemma CanonicalIsFaithful(b: Block)
    requires StoredBlocks.Canonical(b.results)
    ensures Faithful(b.results)
  {
    CanonicalIsFixed(b.results);
    ProcessingSurvives(b);
  }
}
