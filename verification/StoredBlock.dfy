// Storing block results in the older block format and loading them back.
// Source: internal/fetch/sync/blockstore/storedblock.go, internal/fetch/sync/blockstore/gobtext.go

module StoredBlocks {
  import opened Tables
  import opened Blocks

  const BEGIN := "BeginBlock"
  const END := "EndBlock"

  /** An attribute of the older format: a key that was never set is absent. */
  datatype StoredAttr = StoredAttr(key: Option<string>, value: string)

  datatype StoredEvent = StoredEvent(kind: string, attrs: seq<StoredAttr>)

  datatype StoredTx = StoredTx(head: string, events: seq<StoredEvent>)

  datatype StoredResults = StoredResults(
    height: int,
    txs: seq<StoredTx>,
    beginEvents: seq<StoredEvent>,
    endEvents: seq<StoredEvent>)

  function Map<A, B>(f: A -> B, s: seq<A>): (r: seq<B>)
    ensures |r| == |s| && forall i | 0 <= i < |s| :: r[i] == f(s[i])
  {
    seq(|s|, i requires 0 <= i < |s| => f(s[i]))
  }

  // ---- Storing ----

  /** The value of the first mode attribute. */
  function Mode(attrs: seq<Attr>): string {
    if attrs == [] then ""
    else if attrs[0].key == "mode" then attrs[0].value
    else Mode(attrs[1..])
  }

  /** `i` is the first mode attribute. */
  predicate IsFirstMode(attrs: seq<Attr>, i: nat) {
    i < |attrs| && attrs[i].key == "mode" && forall j | 0 <= j < i :: attrs[j].key != "mode"
  }

  lemma {:induction false} FirstModeDecides(attrs: seq<Attr>)
    ensures forall i: nat | IsFirstMode(attrs, i) :: Mode(attrs) == attrs[i].value
    ensures (forall a <- attrs :: a.key != "mode") ==> Mode(attrs) == ""
  {
    if attrs != [] && attrs[0].key != "mode" {
      FirstModeDecides(attrs[1..]);
      forall i: nat | IsFirstMode(attrs, i)
        ensures Mode(attrs) == attrs[i].value
      {
        assert IsFirstMode(attrs[1..], i - 1);
      }
    }
  }

  method GetEventMode(e: Event) returns (mode: string)
    ensures mode == Mode(e.attrs)
    ensures forall i: nat | IsFirstMode(e.attrs, i) :: mode == e.attrs[i].value
    ensures (forall a <- e.attrs :: a.key != "mode") ==> mode == ""
  {
    FirstModeDecides(e.attrs);
    for i := 0 to |e.attrs|
      invariant Mode(e.attrs) == Mode(e.attrs[i..])
    {
      if e.attrs[i].key == "mode" {
        return e.attrs[i].value;
      }
    }
    mode := "";
  }

  function StoreAttr(a: Attr): StoredAttr {
    if a.key == "mode" then StoredAttr(None, "") else StoredAttr(Some(a.key), a.value)
  }

  function StoreEvent(e: Event): StoredEvent {
    StoredEvent(e.kind, Map(StoreAttr, e.attrs))
  }

  function StoreTx(tx: TxResult): StoredTx {
    StoredTx(tx.head, Map(StoreEvent, tx.events))
  }

  /** The events whose first mode is a given one. */
  function OfMode(events: seq<Event>, mode: string): seq<Event> {
    if events == [] then []
    else
      var e := events[|events| - 1];
      OfMode(events[..|events| - 1], mode) + if Mode(e.attrs) == mode then [e] else []
  }

  function Store(r: Results): StoredResults {
    StoredResults(r.height, Map(StoreTx, r.txs),
                  Map(StoreEvent, OfMode(r.finalizeEvents, BEGIN)), Map(StoreEvent, OfMode(r.finalizeEvents, END)))
  }

  /** The slots of mode attributes stay empty. */
  method CometToTendermintEvent(ce: Event) returns (te: StoredEvent)
    ensures te == StoreEvent(ce)
  {
    var attrs := new StoredAttr[|ce.attrs|](i => StoredAttr(None, ""));
    for i := 0 to |ce.attrs|
      invariant forall k | 0 <= k < i :: attrs[k] == StoreAttr(ce.attrs[k])
      invariant forall k | i <= k < |ce.attrs| :: attrs[k] == StoredAttr(None, "")
    {
      if ce.attrs[i].key == "mode" {
        continue;
      }
      attrs[i] := StoredAttr(Some(ce.attrs[i].key), ce.attrs[i].value);
    }
    te := StoredEvent(ce.kind, attrs[..]);
  }

  method CometToTendermintTx(tx: TxResult) returns (stored: StoredTx)
    ensures stored == StoreTx(tx)
  {
    var events := new StoredEvent[|tx.events|](i => StoredEvent("", []));
    for i := 0 to |tx.events|
      invariant forall k | 0 <= k < i :: events[k] == StoreEvent(tx.events[k])
    {
      var te := CometToTendermintEvent(tx.events[i]);
      events[i] := te;
    }
    stored := StoredTx(tx.head, events[..]);
  }

  method CometToTendermintBlockResults(cbr: Results) returns (tbr: StoredResults)
    ensures tbr == Store(cbr)
  {
    hide StoreTx, StoreEvent, Mode;
    var txs: seq<StoredTx> := [];
    for i := 0 to |cbr.txs|
      invariant txs == Map(StoreTx, cbr.txs[..i])
    {
      var tx := CometToTendermintTx(cbr.txs[i]);
      txs := txs + [tx];
    }
    assert cbr.txs[..|cbr.txs|] == cbr.txs;
    var begins: seq<StoredEvent>, ends: seq<StoredEvent> := [], [];
    var events := cbr.finalizeEvents;
    for i := 0 to |events|
      invariant begins == Map(StoreEvent, OfMode(events[..i], BEGIN))
      invariant ends == Map(StoreEvent, OfMode(events[..i], END))
    {
      assert events[..i + 1][..i] == events[..i];
      var mode := GetEventMode(events[i]);
      if mode == BEGIN {
        var te := CometToTendermintEvent(events[i]);
        begins := begins + [te];
      } else if mode == END {
        var te := CometToTendermintEvent(events[i]);
        ends := ends + [te];
      }
    }
    assert events[..|events|] == events;
    tbr := StoredResults(cbr.height, txs, begins, ends);
  }

  // ---- The file format ----

  /** The encoding does not tell an empty slice of bytes from an absent one. */
  function GobAttr(a: StoredAttr): StoredAttr {
    if a.key == Some("") then a.(key := None) else a
  }

  function GobEvent(e: StoredEvent): StoredEvent {
    e.(attrs := Map(GobAttr, e.attrs))
  }

  function GobTx(tx: StoredTx): StoredTx {
    tx.(events := Map(GobEvent, tx.events))
  }

  /** What is read back from a file after writing `t`. */
  function Gob(t: StoredResults): StoredResults {
    t.(txs := Map(GobTx, t.txs), beginEvents := Map(GobEvent, t.beginEvents), endEvents := Map(GobEvent, t.endEvents))
  }

  // ---- Loading ----

  function LoadAttrs(attrs: seq<StoredAttr>): seq<Attr> {
    if attrs == [] then []
    else
      var a := attrs[|attrs| - 1];
      LoadAttrs(attrs[..|attrs| - 1]) + if a.key.Some? then [Attr(a.key.value, a.value, false)] else []
  }

  function ModeAttrs(mode: string): seq<Attr> {
    if mode == "" then [] else [Attr("mode", mode, false)]
  }

  function LoadEvent(mode: string): StoredEvent -> Event {
    (e: StoredEvent) => Event(e.kind, LoadAttrs(e.attrs) + ModeAttrs(mode))
  }

  function LoadTx(tx: StoredTx): TxResult {
    TxResult(tx.head, Map(LoadEvent(""), tx.events))
  }

  function Load(t: StoredResults): Results {
    Results(t.height, Map(LoadTx, t.txs), Map(LoadEvent(BEGIN), t.beginEvents) + Map(LoadEvent(END), t.endEvents))
  }

  method TendermintToCometEvent(te: StoredEvent, mode: string) returns (ce: Event)
    ensures ce == LoadEvent(mode)(te)
  {
    var attrs: seq<Attr> := [];
    for i := 0 to |te.attrs|
      invariant attrs == LoadAttrs(te.attrs[..i])
    {
      assert te.attrs[..i + 1][..i] == te.attrs[..i];
      if te.attrs[i].key.Some? {
        attrs := attrs + [Attr(te.attrs[i].key.value, te.attrs[i].value, false)];
      }
    }
    assert te.attrs[..|te.attrs|] == te.attrs;
    if mode != "" {
      attrs := attrs + [Attr("mode", mode, false)];
    }
    ce := Event(te.kind, attrs);
  }

  method TendermintToCometTx(tx: StoredTx) returns (loaded: TxResult)
    ensures loaded == LoadTx(tx)
  {
    var events := new Event[|tx.events|](i => Event("", []));
    for i := 0 to |tx.events|
      invariant forall k | 0 <= k < i :: events[k] == LoadEvent("")(tx.events[k])
    {
      var ce := TendermintToCometEvent(tx.events[i], "");
      events[i] := ce;
    }
    loaded := TxResult(tx.head, events[..]);
  }

  method TendermintToCometBlockResults(tbr: StoredResults) returns (cbr: Results)
    ensures cbr == Load(tbr)
  {
    hide LoadTx, LoadEvent;
    var txs := new TxResult[|tbr.txs|](i => TxResult("", []));
    for i := 0 to |tbr.txs|
      invariant forall k | 0 <= k < i :: txs[k] == LoadTx(tbr.txs[k])
    {
      var tx := TendermintToCometTx(tbr.txs[i]);
      txs[i] := tx;
    }
    var txsResults := txs[..];
    assert txsResults == Map(LoadTx, tbr.txs);
    var finalizeEvents: seq<Event> := [];
    for i := 0 to |tbr.beginEvents|
      invariant finalizeEvents == Map(LoadEvent(BEGIN), tbr.beginEvents[..i])
    {
      var ce := TendermintToCometEvent(tbr.beginEvents[i], BEGIN);
      finalizeEvents := finalizeEvents + [ce];
    }
    assert tbr.beginEvents[..|tbr.beginEvents|] == tbr.beginEvents;
    for i := 0 to |tbr.endEvents|
      invariant finalizeEvents == Map(LoadEvent(BEGIN), tbr.beginEvents) + Map(LoadEvent(END), tbr.endEvents[..i])
    {
      var ce := TendermintToCometEvent(tbr.endEvents[i], END);
      finalizeEvents := finalizeEvents + [ce];
    }
    assert tbr.endEvents[..|tbr.endEvents|] == tbr.endEvents;
    cbr := Results(tbr.height, txsResults, finalizeEvents);
  }

  // ---- Store, then load ----

  function Reload(r: Results): Results {
    Load(Gob(Store(r)))
  }

  function ReloadBlock(b: Block): Block {
    b.(results := Reload(b.results))
  }

  /** The attributes that survive. */
  function Kept(attrs: seq<Attr>): seq<Attr> {
    if attrs == [] then []
    else
      var a := attrs[|attrs| - 1];
      Kept(attrs[..|attrs| - 1]) + if a.key == "mode" || a.key == "" then [] else [a.(index := false)]
  }

  function ReloadEvent(mode: string): Event -> Event {
    (e: Event) => Event(e.kind, Kept(e.attrs) + ModeAttrs(mode))
  }

  function ReloadTx(tx: TxResult): TxResult {
    tx.(events := Map(ReloadEvent(""), tx.events))
  }

  lemma {:induction false} ReloadAttrs(attrs: seq<Attr>)
    ensures LoadAttrs(Map(GobAttr, Map(StoreAttr, attrs))) == Kept(attrs)
  {
    if attrs != [] {
      var front := attrs[..|attrs| - 1];
      ReloadAttrs(front);
      assert Map(GobAttr, Map(StoreAttr, attrs))[..|front|] == Map(GobAttr, Map(StoreAttr, front));
    }
  }

  lemma ReloadEventIs(e: Event, mode: string)
    ensures LoadEvent(mode)(GobEvent(StoreEvent(e))) == ReloadEvent(mode)(e)
  {
    ReloadAttrs(e.attrs);
  }

  lemma ReloadEventsAre(events: seq<Event>, mode: string)
    ensures Map(LoadEvent(mode), Map(GobEvent, Map(StoreEvent, events))) == Map(ReloadEvent(mode), events)
  {
    forall e: Event
      ensures LoadEvent(mode)(GobEvent(StoreEvent(e))) == ReloadEvent(mode)(e)
    {
      ReloadEventIs(e, mode);
    }
  }

  function Begins(r: Results): seq<Event> {
    Map(ReloadEvent(BEGIN), OfMode(r.finalizeEvents, BEGIN))
  }

  function Ends(r: Results): seq<Event> {
    Map(ReloadEvent(END), OfMode(r.finalizeEvents, END))
  }

  /** What a round trip does, without the detour through the older format. */
  lemma ReloadIs(r: Results)
    ensures Reload(r) == Results(r.height, Map(ReloadTx, r.txs), Begins(r) + Ends(r))
  {
    hide LoadEvent, ReloadEvent, StoreEvent, GobEvent, OfMode;
    ReloadEventsAre(OfMode(r.finalizeEvents, BEGIN), BEGIN);
    ReloadEventsAre(OfMode(r.finalizeEvents, END), END);
    forall tx: TxResult
      ensures LoadTx(GobTx(StoreTx(tx))) == ReloadTx(tx)
    {
      ReloadEventsAre(tx.events, "");
    }
  }

  // ---- When the round trip is exact ----

  predicate Plain(attrs: seq<Attr>) {
    forall a <- attrs :: !a.index && a.key != "" && a.key != "mode"
  }

  /** The only mode attribute is the last one. */
  predicate Placed(e: Event, mode: string) {
    && e.attrs != []
    && e.attrs[|e.attrs| - 1] == Attr("mode", mode, false)
    && Plain(e.attrs[..|e.attrs| - 1])
  }

  ghost predicate PlacedAll(events: seq<Event>, mode: string) {
    forall e <- events :: Placed(e, mode)
  }

  ghost predicate Canonical(r: Results) {
    && (forall tx <- r.txs, e <- tx.events :: Plain(e.attrs))
    && exists n | 0 <= n <= |r.finalizeEvents| ::
         PlacedAll(r.finalizeEvents[..n], BEGIN) && PlacedAll(r.finalizeEvents[n..], END)
  }

  lemma {:induction false} KeptIsPlain(attrs: seq<Attr>)
    ensures Plain(Kept(attrs))
    ensures Plain(attrs) ==> Kept(attrs) == attrs
  {
    if attrs != [] {
      var front, a := attrs[..|attrs| - 1], attrs[|attrs| - 1];
      assert attrs == front + [a];
      KeptIsPlain(front);
      assert Kept(attrs) == Kept(front) + if a.key == "mode" || a.key == "" then [] else [a.(index := false)];
      hide Kept;
      assert Plain(attrs) <==> Plain(front) && Plain([a]);
    }
  }

  lemma {:induction false} ModeIsFirst(attrs: seq<Attr>, mode: string)
    requires Plain(attrs)
    ensures Mode(attrs + [Attr("mode", mode, false)]) == mode
  {
    if attrs != [] {
      assert (attrs + [Attr("mode", mode, false)])[1..] == attrs[1..] + [Attr("mode", mode, false)];
      ModeIsFirst(attrs[1..], mode);
    }
  }

  lemma PlacedIsFixed(e: Event, mode: string)
    requires Placed(e, mode) && mode != ""
    ensures Mode(e.attrs) == mode && ReloadEvent(mode)(e) == e
  {
    var front := e.attrs[..|e.attrs| - 1];
    assert e.attrs == front + [Attr("mode", mode, false)];
    ModeIsFirst(front, mode);
    KeptIsPlain(front);
  }

  lemma ReloadEventIsPlaced(e: Event, mode: string)
    requires mode != ""
    ensures Placed(ReloadEvent(mode)(e), mode)
  {
    KeptIsPlain(e.attrs);
  }

  lemma {:induction false} OfModeConcat(a: seq<Event>, b: seq<Event>, mode: string)
    ensures OfMode(a + b, mode) == OfMode(a, mode) + OfMode(b, mode)
  {
    if b == [] {
      assert a + b == a;
    } else {
      OfModeConcat(a, b[..|b| - 1], mode);
      assert (a + b)[..|a + b| - 1] == a + b[..|b| - 1];
    }
  }

  lemma {:induction false} OfModeUniform(events: seq<Event>, own: string, mode: string)
    requires forall e <- events :: Mode(e.attrs) == own
    ensures OfMode(events, mode) == if own == mode then events else []
  {
    hide Mode;
    if events != [] {
      var front, e := events[..|events| - 1], events[|events| - 1];
      assert events == front + [e];
      assert e in events && forall x <- front :: x in events;
      OfModeUniform(front, own, mode);
      assert OfMode(events, mode) == OfMode(front, mode) + if Mode(e.attrs) == mode then [e] else [];
      hide OfMode;
    }
  }

  lemma OfModePlaced(begins: seq<Event>, ends: seq<Event>)
    requires PlacedAll(begins, BEGIN) && PlacedAll(ends, END)
    ensures OfMode(begins + ends, BEGIN) == begins && OfMode(begins + ends, END) == ends
  {
    forall e <- begins ensures Mode(e.attrs) == BEGIN { PlacedIsFixed(e, BEGIN); }
    forall e <- ends ensures Mode(e.attrs) == END { PlacedIsFixed(e, END); }
    hide OfMode, Mode, PlacedAll;
    forall mode | mode == BEGIN || mode == END
      ensures OfMode(begins + ends, mode) == if mode == BEGIN then begins else ends
    {
      OfModeConcat(begins, ends, mode);
      OfModeUniform(begins, BEGIN, mode);
      OfModeUniform(ends, END, mode);
    }
  }

  lemma ReloadedIsPlaced(r: Results)
    ensures PlacedAll(Begins(r), BEGIN) && PlacedAll(Ends(r), END)
  {
    forall e: Event
      ensures Placed(ReloadEvent(BEGIN)(e), BEGIN) && Placed(ReloadEvent(END)(e), END)
    {
      ReloadEventIsPlaced(e, BEGIN);
      ReloadEventIsPlaced(e, END);
    }
  }

  /** Whatever was stored, loading gives canonical results. */
  lemma ReloadIsCanonical(r: Results)
    ensures Canonical(Reload(r))
  {
    hide Placed, OfMode;
    ReloadIs(r);
    ReloadedIsPlaced(r);
    var n := |Begins(r)|;
    assert Reload(r).finalizeEvents[..n] == Begins(r) && Reload(r).finalizeEvents[n..] == Ends(r);
    forall tx <- r.txs, e <- tx.events
      ensures Plain(ReloadEvent("")(e).attrs)
    {
      KeptIsPlain(e.attrs);
    }
  }

  lemma MapFixed<A>(f: A -> A, s: seq<A>)
    requires forall a <- s :: f(a) == a
    ensures Map(f, s) == s
  {
  }

  lemma PlainTxIsFixed(tx: TxResult)
    requires forall e <- tx.events :: Plain(e.attrs)
    ensures ReloadTx(tx) == tx
  {
    forall e <- tx.events
      ensures ReloadEvent("")(e) == e
    {
      KeptIsPlain(e.attrs);
      assert Kept(e.attrs) + ModeAttrs("") == Kept(e.attrs);
    }
    hide ReloadEvent;
    MapFixed(ReloadEvent(""), tx.events);
  }

  lemma PlacedAreFixed(begins: seq<Event>, ends: seq<Event>)
    requires PlacedAll(begins, BEGIN) && PlacedAll(ends, END)
    ensures Map(ReloadEvent(BEGIN), begins) == begins && Map(ReloadEvent(END), ends) == ends
  {
    forall e <- begins ensures ReloadEvent(BEGIN)(e) == e { PlacedIsFixed(e, BEGIN); }
    forall e <- ends ensures ReloadEvent(END)(e) == e { PlacedIsFixed(e, END); }
    hide ReloadEvent, Placed;
    MapFixed(ReloadEvent(BEGIN), begins);
    MapFixed(ReloadEvent(END), ends);
  }

  lemma CanonicalIsFixed(r: Results)
    requires Canonical(r)
    ensures Reload(r) == r
  {
    hide Placed, OfMode, Reload, ReloadTx, ReloadEvent, Plain, PlacedAll;
    ReloadIs(r);
    var n :| 0 <= n <= |r.finalizeEvents|
             && PlacedAll(r.finalizeEvents[..n], BEGIN) && PlacedAll(r.finalizeEvents[n..], END);
    var begins, ends := r.finalizeEvents[..n], r.finalizeEvents[n..];
    assert begins + ends == r.finalizeEvents;
    OfModePlaced(begins, ends);
    PlacedAreFixed(begins, ends);
    forall tx <- r.txs ensures ReloadTx(tx) == tx {
      PlainTxIsFixed(tx);
    }
    MapFixed(ReloadTx, r.txs);
  }

  /** Loading gives back what was stored exactly when that was canonical. */
  lemma RoundTrip(r: Results)
    ensures Reload(r) == r <==> Canonical(r)
  {
    ReloadIsCanonical(r);
    if Canonical(r) {
      CanonicalIsFixed(r);
    }
  }

  /** A second round trip changes nothing. */
  lemma ReloadIsIdempotent(r: Results)
    ensures Reload(Reload(r)) == Reload(r)
  {
    ReloadIsCanonical(r);
    RoundTrip(Reload(r));
  }
}
