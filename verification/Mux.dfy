// Dispatch of a block's events in order, stamping each with its event id.
// Source: internal/fetch/record/mux.go

module Mux {
  import opened PoolDepths
  import opened EventIds
  import opened GoInt
  import opened Blocks
  import opened Recording
  import opened Recorders
  import BatchKeys

  /** What is processed under one event id: an event, a transaction's message, or a known correction. */
  datatype Item = OfEvent(event: Event) | OfTx(head: string) | MissingEvents

  datatype Stamped = Stamped(id: EventId, item: Item)

  /** The parsers, the message decoder and the tables of missing events. */
  datatype Decoder = Decoder(
    event: (Meta, string, seq<Field>) -> Payload,
    tx: (Meta, string) -> seq<Payload>,
    missing: Meta -> seq<Payload>)

  predicate IsMode(a: Attr, mode: string) {
    a.key == "mode" && a.value == mode
  }

  /** Finalize events without any mode count as begin-block events. */
  predicate IsBeginEvent(e: Event) {
    (exists a <- e.attrs :: IsMode(a, "BeginBlock")) || (forall a <- e.attrs :: a.key != "mode")
  }

  function BeginTrace(h: int, events: seq<Event>): seq<Stamped> {
    if events == [] then []
    else
      var e := events[|events| - 1];
      BeginTrace(h, events[..|events| - 1]) +
      if IsBeginEvent(e) then [Stamped(EventId(h, BeginBlockEvents, 0, |events|), OfEvent(e))] else []
  }

  function TxEventsTrace(h: int, txIndex: int, events: seq<Event>): seq<Stamped> {
    if events == [] then []
    else
      TxEventsTrace(h, txIndex, events[..|events| - 1]) +
      [Stamped(EventId(h, TxsResults, txIndex, |events|), OfEvent(events[|events| - 1]))]
  }

  function TxsTrace(h: int, txs: seq<TxResult>): seq<Stamped> {
    if txs == [] then []
    else
      var tx := txs[|txs| - 1];
      TxsTrace(h, txs[..|txs| - 1]) +
      [Stamped(EventId(h, TxsResults, |txs|, 1), OfTx(tx.head))] + TxEventsTrace(h, |txs|, tx.events)
  }

  /** An event is processed once for each of its attributes that marks it as an end-block event. */
  function EndEventTrace(h: int, txIndex: int, first: int, e: Event, attrs: seq<Attr>): seq<Stamped> {
    if attrs == [] then []
    else
      var front := EndEventTrace(h, txIndex, first, e, attrs[..|attrs| - 1]);
      front +
      if IsMode(attrs[|attrs| - 1], "EndBlock") then
        [Stamped(EventId(h, EndBlockEvents, txIndex, first + |front|), OfEvent(e))]
      else []
  }

  function EndTrace(h: int, txIndex: int, events: seq<Event>): seq<Stamped> {
    if events == [] then []
    else
      var front := EndTrace(h, txIndex, events[..|events| - 1]);
      var e := events[|events| - 1];
      front + EndEventTrace(h, txIndex, 1 + |front|, e, e.attrs)
  }

  /** Everything that is processed for a block, in order. */
  function BlockTrace(b: Block): seq<Stamped> {
    var txIndex := |b.results.txs| + 1;
    var end := EndTrace(b.height, txIndex, b.results.finalizeEvents);
    BeginTrace(b.height, b.results.finalizeEvents)
    + TxsTrace(b.height, b.results.txs)
    + end
    + [Stamped(EventId(b.height, EndBlockEvents, txIndex, 1 + |end|), MissingEvents)]
  }

  datatype Field = Field(key: string, value: string)

  /** Attributes as the parsers see them: no mode, no message index, nothing empty. */
  function Filtered(attrs: seq<Attr>): seq<Field> {
    if attrs == [] then []
    else
      var a := attrs[|attrs| - 1];
      Filtered(attrs[..|attrs| - 1]) +
      if a.key == "mode" || a.key == "msg_index" || a.value == "" then [] else [Field(a.key, a.value)]
  }

  function Payloads(d: Decoder, m: Meta, item: Item): seq<Payload> {
    match item
    case OfEvent(e) => [d.event(m, e.kind, Filtered(e.attrs))]
    case OfTx(head) => d.tx(m, head)
    case MissingEvents => d.missing(m)
  }

  function RecordAll(r: Rules, m: Meta, ps: seq<Payload>, l: Ledger): Ledger {
    if ps == [] then l else Record(r, m, ps[|ps| - 1], RecordAll(r, m, ps[..|ps| - 1], l))
  }

  function RunItem(d: Decoder, r: Rules, b: Block, s: Stamped, l: Ledger): Ledger {
    var m := Meta(b.height, b.time, s.id);
    RecordAll(r, m, Payloads(d, m, s.item), l)
  }

  function RunTrace(d: Decoder, r: Rules, b: Block, t: seq<Stamped>, l: Ledger): Ledger {
    if t == [] then l else RunItem(d, r, b, t[|t| - 1], RunTrace(d, r, b, t[..|t| - 1], l))
  }

  /** What one block does to the ledger. */
  function RunBlock(d: Decoder, r: Rules, b: Block, l: Ledger): Ledger {
    RunTrace(d, r, b, BlockTrace(b), l)
  }

  // ---- Emission order ----

  function Key(s: Stamped): int {
    AsBigint(s.id)
  }

  /** The documented limits on one block. */
  predicate WithinBounds(b: Block) {
    && 0 <= b.height < MAX_INT64 / HEIGHT_SCALE
    && |b.results.finalizeEvents| < TYPE_DIGIT
    && |EndTrace(b.height, |b.results.txs| + 1, b.results.finalizeEvents)| < TYPE_DIGIT - 1
    && |b.results.txs| < 800_000
    && forall tx <- b.results.txs :: |tx.events| < TX_INDEX_SCALE
  }

  /** Ids never decrease; the only repeats are a transaction's message and its first event. */
  ghost predicate Ordered(t: seq<Stamped>) {
    forall i, j | 0 <= i < j < |t| ::
      && Key(t[i]) <= Key(t[j])
      && (Key(t[i]) == Key(t[j]) ==> j == i + 1 && t[i].item.OfTx?)
  }

  ghost predicate KeysIn(t: seq<Stamped>, lo: int, hi: int) {
    forall i | 0 <= i < |t| :: lo <= Key(t[i]) <= hi
  }

  lemma OrderedConcat(t: seq<Stamped>, lo: int, hi: int, u: seq<Stamped>, lo': int, hi': int)
    requires Ordered(t) && KeysIn(t, lo, hi) && Ordered(u) && KeysIn(u, lo', hi')
    requires lo <= lo' && hi < lo' && hi <= hi'
    ensures Ordered(t + u) && KeysIn(t + u, lo, hi')
  {
  }

  lemma BeginNext(h: int, events: seq<Event>)
    requires events != []
    ensures BeginTrace(h, events)
            == BeginTrace(h, events[..|events| - 1])
               + if IsBeginEvent(events[|events| - 1])
                 then [Stamped(EventId(h, BeginBlockEvents, 0, |events|), OfEvent(events[|events| - 1]))]
                 else []
  {
  }

  lemma {:induction false} BeginOrdered(h: int, events: seq<Event>)
    requires |events| < TYPE_DIGIT
    ensures Ordered(BeginTrace(h, events))
    ensures KeysIn(BeginTrace(h, events), h * HEIGHT_SCALE + 1, h * HEIGHT_SCALE + |events|)
  {
    hide IsBeginEvent;
    if events != [] {
      BeginOrdered(h, events[..|events| - 1]);
      hide BeginTrace;
      BeginNext(h, events);
      var t := BeginTrace(h, events[..|events| - 1]);
      var s := Stamped(EventId(h, BeginBlockEvents, 0, |events|), OfEvent(events[|events| - 1]));
      OrderedConcat(t, h * HEIGHT_SCALE + 1, h * HEIGHT_SCALE + |events| - 1, [s], h * HEIGHT_SCALE + |events|,
                    h * HEIGHT_SCALE + |events|);
    }
  }

  lemma {:induction false} TxEventsOrdered(h: int, txIndex: int, events: seq<Event>)
    ensures |TxEventsTrace(h, txIndex, events)| == |events|
    ensures forall i | 0 <= i < |events| ::
              Key(TxEventsTrace(h, txIndex, events)[i])
                == h * HEIGHT_SCALE + TYPE_DIGIT + txIndex * TX_INDEX_SCALE + i + 1
    ensures Ordered(TxEventsTrace(h, txIndex, events))
  {
    if events != [] {
      TxEventsOrdered(h, txIndex, events[..|events| - 1]);
    }
  }

  lemma {:induction false} TxsOrdered(h: int, txs: seq<TxResult>)
    requires forall tx <- txs :: |tx.events| < TX_INDEX_SCALE
    ensures Ordered(TxsTrace(h, txs))
    ensures KeysIn(TxsTrace(h, txs), h * HEIGHT_SCALE + TYPE_DIGIT,
                   h * HEIGHT_SCALE + TYPE_DIGIT + |txs| * TX_INDEX_SCALE + TX_INDEX_SCALE - 1)
  {
    if txs != [] {
      var front, tx := txs[..|txs| - 1], txs[|txs| - 1];
      TxsOrdered(h, front);
      TxEventsOrdered(h, |txs|, tx.events);
      var base := h * HEIGHT_SCALE + TYPE_DIGIT;
      var own := [Stamped(EventId(h, TxsResults, |txs|, 1), OfTx(tx.head))] + TxEventsTrace(h, |txs|, tx.events);
      assert TxsTrace(h, txs) == TxsTrace(h, front) + own;
      assert KeysIn(own, base + |txs| * TX_INDEX_SCALE + 1, base + |txs| * TX_INDEX_SCALE + TX_INDEX_SCALE - 1);
      OrderedConcat(TxsTrace(h, front), base, base + |front| * TX_INDEX_SCALE + TX_INDEX_SCALE - 1,
                    own, base + |txs| * TX_INDEX_SCALE + 1, base + |txs| * TX_INDEX_SCALE + TX_INDEX_SCALE - 1);
    }
  }

  lemma {:induction false} EndEventKeys(h: int, txIndex: int, first: int, e: Event, attrs: seq<Attr>)
    ensures forall i | 0 <= i < |EndEventTrace(h, txIndex, first, e, attrs)| ::
              Key(EndEventTrace(h, txIndex, first, e, attrs)[i]) == h * HEIGHT_SCALE + 9 * TYPE_DIGIT + first + i
  {
    if attrs != [] {
      EndEventKeys(h, txIndex, first, e, attrs[..|attrs| - 1]);
    }
  }

  lemma {:induction false} EndKeys(h: int, txIndex: int, events: seq<Event>)
    ensures forall i | 0 <= i < |EndTrace(h, txIndex, events)| ::
              Key(EndTrace(h, txIndex, events)[i]) == h * HEIGHT_SCALE + 9 * TYPE_DIGIT + 1 + i
  {
    if events != [] {
      var front := EndTrace(h, txIndex, events[..|events| - 1]);
      EndKeys(h, txIndex, events[..|events| - 1]);
      EndEventKeys(h, txIndex, 1 + |front|, events[|events| - 1], events[|events| - 1].attrs);
    }
  }

  /** The end-block part, with the id under which missing events are recorded. */
  function EndPart(b: Block): seq<Stamped> {
    var txIndex := |b.results.txs| + 1;
    var end := EndTrace(b.height, txIndex, b.results.finalizeEvents);
    end + [Stamped(EventId(b.height, EndBlockEvents, txIndex, 1 + |end|), MissingEvents)]
  }

  lemma EndPartOrdered(b: Block)
    requires WithinBounds(b)
    ensures Ordered(EndPart(b))
    ensures KeysIn(EndPart(b), b.height * HEIGHT_SCALE + 9 * TYPE_DIGIT, b.height * HEIGHT_SCALE + HEIGHT_SCALE - 1)
  {
    EndKeys(b.height, |b.results.txs| + 1, b.results.finalizeEvents);
    hide EndTrace;
  }

  lemma FrontOrdered(b: Block)
    requires WithinBounds(b)
    ensures var front := BeginTrace(b.height, b.results.finalizeEvents) + TxsTrace(b.height, b.results.txs);
            && Ordered(front)
            && KeysIn(front, b.height * HEIGHT_SCALE + 1, b.height * HEIGHT_SCALE + 9 * TYPE_DIGIT - 1)
  {
    var base := b.height * HEIGHT_SCALE;
    BeginOrdered(b.height, b.results.finalizeEvents);
    TxsOrdered(b.height, b.results.txs);
    hide BeginTrace, TxsTrace, Ordered;
    OrderedConcat(BeginTrace(b.height, b.results.finalizeEvents), base + 1, base + TYPE_DIGIT - 1,
                  TxsTrace(b.height, b.results.txs), base + TYPE_DIGIT, base + 9 * TYPE_DIGIT - 1);
  }

  /** Along the processing order of a block ids never decrease, and they all carry its height. */
  lemma IdsNeverDecrease(b: Block)
    requires WithinBounds(b)
    ensures Ordered(BlockTrace(b))
    ensures KeysIn(BlockTrace(b), b.height * HEIGHT_SCALE + 1, b.height * HEIGHT_SCALE + HEIGHT_SCALE - 1)
    ensures forall s <- BlockTrace(b) :: HeightFromEventId(Key(s)) == b.height
  {
    var base := b.height * HEIGHT_SCALE;
    var front := BeginTrace(b.height, b.results.finalizeEvents) + TxsTrace(b.height, b.results.txs);
    FrontOrdered(b);
    EndPartOrdered(b);
    assert BlockTrace(b) == front + EndPart(b);
    hide BeginTrace, TxsTrace, EndPart, Ordered, BlockTrace;
    OrderedConcat(front, base + 1, base + 9 * TYPE_DIGIT - 1, EndPart(b), base + 9 * TYPE_DIGIT,
                  base + HEIGHT_SCALE - 1);
    forall s <- BlockTrace(b)
      ensures HeightFromEventId(Key(s)) == b.height
    {
      assert b.height * HEIGHT_SCALE < Key(s) < (b.height + 1) * HEIGHT_SCALE;
    }
  }

  /** Nor do they decrease from one block to a later one. */
  lemma IdsGrowAcrossBlocks(b: Block, c: Block)
    requires WithinBounds(b) && WithinBounds(c) && b.height < c.height
    ensures forall s <- BlockTrace(b), t <- BlockTrace(c) :: Key(s) < Key(t)
  {
    IdsNeverDecrease(b);
    IdsNeverDecrease(c);
    assert (b.height + 1) * HEIGHT_SCALE <= c.height * HEIGHT_SCALE;
  }

  // ---- The ledger of a block ----

  /** The depths are those at the start with all effects applied; the rows are event rows of known blocks. */
  ghost predicate Balanced(d0: Depths, l: Ledger) {
    && l.depths == ApplyAll(d0, l.effects)
    && forall row <- l.rows ::
         && row.values.EventRow? && BatchKeys.Plain(row.target)
         && row.target.columns == ["event_id", "block_timestamp"]
  }

  lemma ChangeKeepsBalance(d0: Depths, l: Ledger, f: Effect)
    requires Balanced(d0, l)
    ensures Balanced(d0, l.Change(f))
  {
    assert (l.effects + [f])[..|l.effects|] == l.effects;
  }

  lemma AddIfKeepsBalance(d0: Depths, l: Ledger, c: bool, q: Quantity, pool: string, e8: int)
    requires Balanced(d0, l)
    ensures Balanced(d0, l.AddIf(c, q, pool, e8)) && Balanced(d0, l.Add(q, pool, e8))
  {
    ChangeKeepsBalance(d0, l, Effect.Add(q, pool, e8));
  }

  /** Quantified forms, for chains of steps. */
  lemma StepsKeepBalance(d0: Depths)
    ensures forall l: Ledger, f {:trigger l.Change(f)} | Balanced(d0, l) :: Balanced(d0, l.Change(f))
    ensures forall l: Ledger, q, pool, e8 {:trigger l.Add(q, pool, e8)} | Balanced(d0, l) ::
              Balanced(d0, l.Add(q, pool, e8))
    ensures forall l: Ledger, c, q, pool, e8 {:trigger l.AddIf(c, q, pool, e8)} | Balanced(d0, l) ::
              Balanced(d0, l.AddIf(c, q, pool, e8))
    ensures forall l: Ledger, table, m, v {:trigger l.Write(table, m, v)} | Balanced(d0, l) ::
              Balanced(d0, l.Write(table, m, v))
  {
    forall l: Ledger, f | Balanced(d0, l)
      ensures Balanced(d0, l.Change(f))
    {
      ChangeKeepsBalance(d0, l, f);
    }
    forall l: Ledger, c, q, pool, e8 | Balanced(d0, l)
      ensures Balanced(d0, l.AddIf(c, q, pool, e8)) && Balanced(d0, l.Add(q, pool, e8))
    {
      AddIfKeepsBalance(d0, l, c, q, pool, e8);
    }
  }

  lemma {:induction false} RewardsKeepBalance(d0: Depths, m: Meta, perPool: seq<(string, int)>, l: Ledger)
    requires Balanced(d0, l)
    ensures Balanced(d0, WriteRewards(m, perPool, l)) && Balanced(d0, AddRewards(perPool, l))
  {
    if perPool != [] {
      RewardsKeepBalance(d0, m, perPool[..|perPool| - 1], l);
      StepsKeepBalance(d0);
    }
  }

  lemma {:induction false} SlashesKeepBalance(d0: Depths, m: Meta, pool: string, amounts: seq<(Coin, int)>, l: Ledger)
    requires Balanced(d0, l)
    ensures Balanced(d0, RecordSlashes(m, pool, amounts, l))
  {
    if amounts != [] {
      SlashesKeepBalance(d0, m, pool, amounts[..|amounts| - 1], l);
      StepsKeepBalance(d0);
    }
  }

  lemma SwapKeepsBalance(d0: Depths, r: Rules, m: Meta, p: Payload, l: Ledger)
    requires Balanced(d0, l) && p.Swap?
    ensures Balanced(d0, RecordSwap(r, m, p, l))
  {
    StepsKeepBalance(d0);
    hide Balanced, Ledger.Change, Ledger.Add, Ledger.AddIf, Ledger.Write;
    var l := l.Write(SWAP_EVENTS, m, Whole(p));
    assert Balanced(d0, ChargeSwapFee(r, m, p, l));
  }

  lemma WithdrawKeepsBalance(d0: Depths, r: Rules, m: Meta, p: Payload, l: Ledger)
    requires Balanced(d0, l) && p.Withdraw?
    ensures Balanced(d0, RecordWithdraw(r, m, p, l))
  {
    StepsKeepBalance(d0);
    hide Balanced, Ledger.Change, Ledger.Add, Ledger.AddIf, Ledger.Write;
    var row := Priced(p, l.depths.At(Asset, p.pool), l.depths.At(Rune, p.pool));
    assert Balanced(d0, PayOut(p, l.Write(WITHDRAW_EVENTS, m, row)));
  }

  lemma MoneyKeepsBalance(d0: Depths, r: Rules, m: Meta, p: Payload, l: Ledger)
    requires Balanced(d0, l) && (p.Donate? || p.Errata? || p.Fee? || p.Gas? || p.PoolStatus? || p.Stake?)
    ensures Balanced(d0, Record(r, m, p, l))
  {
    StepsKeepBalance(d0);
    hide Balanced, Ledger.Change, Ledger.Add, Ledger.AddIf, Ledger.Write;
  }

  lemma ChangeEventKeepsBalance(d0: Depths, r: Rules, m: Meta, p: Payload, l: Ledger)
    requires Balanced(d0, l) && (p.PoolBalanceChange? || p.MintBurn? || p.AccountDeposit? || p.AccountWithdraw?)
    ensures Balanced(d0, Record(r, m, p, l))
  {
    StepsKeepBalance(d0);
    hide Balanced, Ledger.Change, Ledger.Add, Ledger.AddIf, Ledger.Write;
  }

  lemma MintKeepsBalance(d0: Depths, r: Rules, m: Meta, p: Payload, l: Ledger)
    requires Balanced(d0, l) && (p.Coinbase? || p.Burn? || p.AffiliateFee? || p.Other? || p.Skipped?)
    ensures Balanced(d0, Record(r, m, p, l))
  {
    StepsKeepBalance(d0);
    hide Balanced, Ledger.Change, Ledger.Add, Ledger.AddIf, Ledger.Write;
  }

  lemma ListKeepsBalance(d0: Depths, r: Rules, m: Meta, p: Payload, l: Ledger)
    requires Balanced(d0, l) && (p.Rewards? || p.Slash?)
    ensures Balanced(d0, Record(r, m, p, l))
  {
    StepsKeepBalance(d0);
    hide Balanced, Ledger.Change, Ledger.Add, Ledger.AddIf, Ledger.Write;
    if p.Slash? {
      SlashesKeepBalance(d0, m, p.pool, p.amounts, l);
    } else {
      var l := l.Write(REWARDS_EVENTS, m, Whole(p));
      RewardsKeepBalance(d0, m, p.perPool, l);
      RewardsKeepBalance(d0, m, p.perPool, WriteRewards(m, p.perPool, l));
    }
  }

  lemma RecordKeepsBalance(d0: Depths, r: Rules, m: Meta, p: Payload, l: Ledger)
    requires Balanced(d0, l)
    ensures Balanced(d0, Record(r, m, p, l))
  {
    if p.Swap? {
      SwapKeepsBalance(d0, r, m, p, l);
    } else if p.Withdraw? {
      WithdrawKeepsBalance(d0, r, m, p, l);
    } else if p.Rewards? || p.Slash? {
      ListKeepsBalance(d0, r, m, p, l);
    } else if p.PoolBalanceChange? || p.MintBurn? || p.AccountDeposit? || p.AccountWithdraw? {
      ChangeEventKeepsBalance(d0, r, m, p, l);
    } else if p.Coinbase? || p.Burn? || p.AffiliateFee? || p.Other? || p.Skipped? {
      MintKeepsBalance(d0, r, m, p, l);
    } else {
      MoneyKeepsBalance(d0, r, m, p, l);
    }
  }

  lemma {:induction false} RecordAllKeepsBalance(d0: Depths, r: Rules, m: Meta, ps: seq<Payload>, l: Ledger)
    requires Balanced(d0, l)
    ensures Balanced(d0, RecordAll(r, m, ps, l))
  {
    if ps != [] {
      RecordAllKeepsBalance(d0, r, m, ps[..|ps| - 1], l);
      RecordKeepsBalance(d0, r, m, ps[|ps| - 1], RecordAll(r, m, ps[..|ps| - 1], l));
    }
  }

  lemma {:induction false} TraceKeepsBalance(d0: Depths, d: Decoder, r: Rules, b: Block, t: seq<Stamped>, l: Ledger)
    requires Balanced(d0, l)
    ensures Balanced(d0, RunTrace(d, r, b, t, l))
  {
    if t != [] {
      var s, l' := t[|t| - 1], RunTrace(d, r, b, t[..|t| - 1], l);
      TraceKeepsBalance(d0, d, r, b, t[..|t| - 1], l);
      var m := Meta(b.height, b.time, s.id);
      RecordAllKeepsBalance(d0, r, m, Payloads(d, m, s.item), l');
    }
  }

  // ---- The processing loops ----

  method FilterAttrs(attrs: seq<Attr>) returns (kept: seq<Field>)
    ensures kept == Filtered(attrs)
  {
    kept := [];
    for i := 0 to |attrs|
      invariant kept == Filtered(attrs[..i])
    {
      assert attrs[..i + 1][..i] == attrs[..i];
      if attrs[i].key == "mode" || attrs[i].key == "msg_index" {
        continue;
      }
      if attrs[i].value == "" {
        continue;
      }
      kept := kept + [Field(attrs[i].key, attrs[i].value)];
    }
    assert attrs[..|attrs|] == attrs;
  }

  method HandleAll(rec: Recorder, ps: seq<Payload>, m: Meta)
    requires rec.Valid()
    modifies rec`out, rec`effects, rec.totals, rec.totals.owner.Keys
    ensures rec.Valid() && fresh(rec.totals.owner.Keys - old(rec.totals.owner.Keys))
    ensures rec.Book() == RecordAll(rec.rules, m, ps, old(rec.Book()))
  {
    hide Record, Recorder.Valid;
    for i := 0 to |ps|
      invariant rec.Valid() && fresh(rec.totals.owner.Keys - old(rec.totals.owner.Keys))
      invariant rec.Book() == RecordAll(rec.rules, m, ps[..i], old(rec.Book()))
    {
      assert ps[..i + 1][..i] == ps[..i];
      rec.Handle(ps[i], m);
    }
    assert ps[..|ps|] == ps;
  }

  /** The ghost trace `t` lists what was processed since the ledger was `l0`. */
  ghost predicate Done(rec: Recorder, d: Decoder, b: Block, t: seq<Stamped>, l0: Ledger)
    reads rec, rec.totals
  {
    rec.Book() == RunTrace(d, rec.rules, b, t, l0)
  }

  method ProcessItem(rec: Recorder, d: Decoder, b: Block, s: Stamped, ghost t: seq<Stamped>, ghost l0: Ledger)
    requires rec.Valid() && Done(rec, d, b, t, l0)
    modifies rec`out, rec`effects, rec.totals, rec.totals.owner.Keys
    ensures rec.Valid() && fresh(rec.totals.owner.Keys - old(rec.totals.owner.Keys))
    ensures Done(rec, d, b, t + [s], l0)
  {
    hide Recorder.Valid, Record;
    var m := Meta(b.height, b.time, s.id);
    match s.item {
      case OfEvent(e) =>
        var attrs := FilterAttrs(e.attrs);
        HandleAll(rec, [d.event(m, e.kind, attrs)], m);
      case OfTx(head) => HandleAll(rec, d.tx(m, head), m);
      case MissingEvents => HandleAll(rec, d.missing(m), m);
    }
    assert (t + [s])[..|t|] == t;
  }

  method ScanModes(attrs: seq<Attr>) returns (hasMode: bool, isBeginBlock: bool)
    ensures hasMode <==> exists a <- attrs :: a.key == "mode"
    ensures isBeginBlock <==> exists a <- attrs :: IsMode(a, "BeginBlock")
  {
    hasMode, isBeginBlock := false, false;
    for i := 0 to |attrs|
      invariant hasMode <==> exists k | 0 <= k < i :: attrs[k].key == "mode"
      invariant isBeginBlock <==> exists k | 0 <= k < i :: IsMode(attrs[k], "BeginBlock")
    {
      if attrs[i].key == "mode" {
        hasMode := true;
        if attrs[i].value == "BeginBlock" {
          isBeginBlock := true;
        }
      }
    }
  }

  /** The begin-block pass: the event index counts every finalize event, processed or not. */
  method ProcessBegin(rec: Recorder, d: Decoder, b: Block) returns (ghost t: seq<Stamped>)
    requires rec.Valid()
    modifies rec`out, rec`effects, rec.totals, rec.totals.owner.Keys
    ensures rec.Valid() && fresh(rec.totals.owner.Keys - old(rec.totals.owner.Keys))
    ensures t == BeginTrace(b.height, b.results.finalizeEvents) && Done(rec, d, b, t, old(rec.Book()))
  {
    hide Recorder.Valid, RunTrace;
    var events := b.results.finalizeEvents;
    var id := EventId(b.height, BeginBlockEvents, 0, 1);
    t := [];
    assert Done(rec, d, b, t, rec.Book()) by { NothingDone(rec, d, b); }
    for i := 0 to |events|
      invariant rec.Valid() && fresh(rec.totals.owner.Keys - old(rec.totals.owner.Keys))
      invariant id == EventId(b.height, BeginBlockEvents, 0, i + 1)
      invariant t == BeginTrace(b.height, events[..i]) && Done(rec, d, b, t, old(rec.Book()))
    {
      assert events[..i + 1][..i] == events[..i];
      var hasMode, isBeginBlock := ScanModes(events[i].attrs);
      if isBeginBlock || !hasMode {
        ProcessItem(rec, d, b, Stamped(id, OfEvent(events[i])), t, old(rec.Book()));
        t := t + [Stamped(id, OfEvent(events[i]))];
      }
      id := id.(eventIndex := id.eventIndex + 1);
    }
    assert events[..|events|] == events;
  }

  lemma NothingDone(rec: Recorder, d: Decoder, b: Block)
    ensures Done(rec, d, b, [], rec.Book())
  {
  }

  method ProcessTxEvents(rec: Recorder, d: Decoder, b: Block, txIndex: int, events: seq<Event>,
                         ghost t0: seq<Stamped>, ghost l0: Ledger)
    requires rec.Valid() && Done(rec, d, b, t0, l0)
    modifies rec`out, rec`effects, rec.totals, rec.totals.owner.Keys
    ensures rec.Valid() && fresh(rec.totals.owner.Keys - old(rec.totals.owner.Keys))
    ensures Done(rec, d, b, t0 + TxEventsTrace(b.height, txIndex, events), l0)
  {
    hide Recorder.Valid, RunTrace;
    var id := EventId(b.height, TxsResults, txIndex, 1);
    ghost var t := t0;
    for i := 0 to |events|
      invariant rec.Valid() && fresh(rec.totals.owner.Keys - old(rec.totals.owner.Keys))
      invariant id == EventId(b.height, TxsResults, txIndex, i + 1)
      invariant t == t0 + TxEventsTrace(b.height, txIndex, events[..i]) && Done(rec, d, b, t, l0)
    {
      assert events[..i + 1][..i] == events[..i];
      ProcessItem(rec, d, b, Stamped(id, OfEvent(events[i])), t, l0);
      t := t + [Stamped(id, OfEvent(events[i]))];
      id := id.(eventIndex := id.eventIndex + 1);
    }
    assert events[..|events|] == events;
  }

  method ProcessTxs(rec: Recorder, d: Decoder, b: Block, ghost t0: seq<Stamped>, ghost l0: Ledger)
    requires rec.Valid() && Done(rec, d, b, t0, l0)
    modifies rec`out, rec`effects, rec.totals, rec.totals.owner.Keys
    ensures rec.Valid() && fresh(rec.totals.owner.Keys - old(rec.totals.owner.Keys))
    ensures Done(rec, d, b, t0 + TxsTrace(b.height, b.results.txs), l0)
  {
    hide Recorder.Valid, RunTrace, TxEventsTrace;
    var txs := b.results.txs;
    var txIndex := 1;
    ghost var t := t0;
    for i := 0 to |txs|
      invariant rec.Valid() && fresh(rec.totals.owner.Keys - old(rec.totals.owner.Keys))
      invariant txIndex == i + 1
      invariant t == t0 + TxsTrace(b.height, txs[..i]) && Done(rec, d, b, t, l0)
    {
      assert txs[..i + 1][..i] == txs[..i];
      var s := Stamped(EventId(b.height, TxsResults, txIndex, 1), OfTx(txs[i].head));
      ProcessItem(rec, d, b, s, t, l0);
      ProcessTxEvents(rec, d, b, txIndex, txs[i].events, t + [s], l0);
      t := t + [s] + TxEventsTrace(b.height, txIndex, txs[i].events);
      txIndex := txIndex + 1;
    }
    assert txs[..|txs|] == txs;
  }

  method ProcessEndEvent(rec: Recorder, d: Decoder, b: Block, txIndex: int, first: int, e: Event,
                         ghost t0: seq<Stamped>, ghost l0: Ledger) returns (next: int)
    requires rec.Valid() && Done(rec, d, b, t0, l0)
    modifies rec`out, rec`effects, rec.totals, rec.totals.owner.Keys
    ensures rec.Valid() && fresh(rec.totals.owner.Keys - old(rec.totals.owner.Keys))
    ensures Done(rec, d, b, t0 + EndEventTrace(b.height, txIndex, first, e, e.attrs), l0)
    ensures next == first + |EndEventTrace(b.height, txIndex, first, e, e.attrs)|
  {
    hide Recorder.Valid, RunTrace;
    next := first;
    ghost var t := t0;
    for i := 0 to |e.attrs|
      invariant rec.Valid() && fresh(rec.totals.owner.Keys - old(rec.totals.owner.Keys))
      invariant next == first + |EndEventTrace(b.height, txIndex, first, e, e.attrs[..i])|
      invariant t == t0 + EndEventTrace(b.height, txIndex, first, e, e.attrs[..i]) && Done(rec, d, b, t, l0)
    {
      assert e.attrs[..i + 1][..i] == e.attrs[..i];
      if e.attrs[i].key == "mode" {
        if e.attrs[i].value == "EndBlock" {
          var s := Stamped(EventId(b.height, EndBlockEvents, txIndex, next), OfEvent(e));
          ProcessItem(rec, d, b, s, t, l0);
          t := t + [s];
          next := next + 1;
        }
      }
    }
    assert e.attrs[..|e.attrs|] == e.attrs;
  }

  /** The end-block pass: the event index counts only what is processed. */
  method ProcessEnd(rec: Recorder, d: Decoder, b: Block, txIndex: int,
                    ghost t0: seq<Stamped>, ghost l0: Ledger) returns (next: int)
    requires rec.Valid() && Done(rec, d, b, t0, l0)
    modifies rec`out, rec`effects, rec.totals, rec.totals.owner.Keys
    ensures rec.Valid() && fresh(rec.totals.owner.Keys - old(rec.totals.owner.Keys))
    ensures Done(rec, d, b, t0 + EndTrace(b.height, txIndex, b.results.finalizeEvents), l0)
    ensures next == 1 + |EndTrace(b.height, txIndex, b.results.finalizeEvents)|
  {
    hide Recorder.Valid, RunTrace, EndEventTrace;
    var events := b.results.finalizeEvents;
    next := 1;
    ghost var t := t0;
    for i := 0 to |events|
      invariant rec.Valid() && fresh(rec.totals.owner.Keys - old(rec.totals.owner.Keys))
      invariant next == 1 + |EndTrace(b.height, txIndex, events[..i])|
      invariant t == t0 + EndTrace(b.height, txIndex, events[..i]) && Done(rec, d, b, t, l0)
    {
      assert events[..i + 1][..i] == events[..i];
      ghost var more := EndEventTrace(b.height, txIndex, next, events[i], events[i].attrs);
      next := ProcessEndEvent(rec, d, b, txIndex, next, events[i], t, l0);
      t := t + more;
    }
    assert events[..|events|] == events;
  }

  /** All of a block: begin-block events, transactions, end-block events, and then known missing events. */
  method ProcessBlock(rec: Recorder, d: Decoder, b: Block)
    requires rec.Valid()
    modifies rec`out, rec`effects, rec.totals, rec.totals.owner.Keys
    ensures rec.Valid() && fresh(rec.totals.owner.Keys - old(rec.totals.owner.Keys))
    ensures rec.Book() == RunBlock(d, rec.rules, b, old(rec.Book()))
  {
    hide Recorder.Valid, RunTrace, BeginTrace, TxsTrace, EndTrace;
    var txIndex := |b.results.txs| + 1;
    ghost var l0 := rec.Book();
    ghost var t := ProcessBegin(rec, d, b);
    ProcessTxs(rec, d, b, t, l0);
    t := t + TxsTrace(b.height, b.results.txs);
    var next := ProcessEnd(rec, d, b, txIndex, t, l0);
    t := t + EndTrace(b.height, txIndex, b.results.finalizeEvents);
    ProcessItem(rec, d, b, Stamped(EventId(b.height, EndBlockEvents, txIndex, next), MissingEvents), t, l0);
  }
}
