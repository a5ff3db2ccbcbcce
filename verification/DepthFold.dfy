// Every depth of the whole chain as a sum over the events since the pool's last suspension.
// Source: internal/fetch/record/mux.go, internal/fetch/record/record.go, internal/fetch/record/aggregate.go

module DepthFold {
  import opened PoolDepths
  import opened Blocks
  import opened Recording
  import opened Deltas
  import opened Mux
  import opened Ingestion

  // ---- Any list of events ----

  datatype Parsed = Parsed(m: Meta, p: Payload)

  /** An event together with the depths that it met. */
  datatype Handled = Handled(m: Meta, p: Payload, met: Depths)

  function RecordEvents(r: Rules, es: seq<Parsed>, l: Ledger): Ledger {
    if es == [] then l
    else Record(r, es[|es| - 1].m, es[|es| - 1].p, RecordEvents(r, es[..|es| - 1], l))
  }

  function HistoryOf(r: Rules, es: seq<Parsed>, l: Ledger): seq<Handled> {
    if es == [] then []
    else
      var front, e := es[..|es| - 1], es[|es| - 1];
      HistoryOf(r, front, l) + [Handled(e.m, e.p, RecordEvents(r, front, l).depths)]
  }

  predicate Suspends(h: Handled, pool: string) {
    h.p.PoolStatus? && h.p.suspended && h.p.asset.name == pool
  }

  predicate EverSuspended(hs: seq<Handled>, pool: string) {
    exists h <- hs :: Suspends(h, pool)
  }

  /** The events after the last one that suspends the pool. */
  function Since(hs: seq<Handled>, pool: string): seq<Handled> {
    if hs == [] || Suspends(hs[|hs| - 1], pool) then []
    else Since(hs[..|hs| - 1], pool) + [hs[|hs| - 1]]
  }

  function SumOfDeltas(r: Rules, hs: seq<Handled>, q: Quantity, pool: string): int {
    if hs == [] then 0
    else
      var h := hs[|hs| - 1];
      SumOfDeltas(r, hs[..|hs| - 1], q, pool) + Delta(r, h.m, h.p, h.met, q, pool)
  }

  /** A history lists the events in order, each with the depths that all earlier ones leave. */
  lemma {:induction false} HistoryIs(r: Rules, es: seq<Parsed>, l: Ledger, k: nat)
    requires k < |es|
    ensures var hs := HistoryOf(r, es, l);
            |hs| == |es| && hs[k] == Handled(es[k].m, es[k].p, RecordEvents(r, es[..k], l).depths)
  {
    var front := es[..|es| - 1];
    if k < |front| {
      HistoryIs(r, front, l, k);
      assert front[..k] == es[..k];
    } else if front != [] {
      HistoryIs(r, front, l, 0);
    }
  }

  /**
   * After any list of events, each depth is the sum of the deltas of the events since the pool's last
   * suspension, on top of the initial depth when there was none.
   */
  lemma {:induction false} EventsAreSummed(r: Rules, es: seq<Parsed>, l: Ledger, q: Quantity, pool: string)
    ensures var hs := HistoryOf(r, es, l);
            RecordEvents(r, es, l).depths.At(q, pool)
            == (if EverSuspended(hs, pool) then 0 else l.depths.At(q, pool)) + SumOfDeltas(r, Since(hs, pool), q, pool)
  {
    if es != [] {
      var front, e := es[..|es| - 1], es[|es| - 1];
      var l', hs' := RecordEvents(r, front, l), HistoryOf(r, front, l);
      EventsAreSummed(r, front, l, q, pool);
      RecordIsDelta(r, e.m, e.p, l', q, pool);
      NextHandled(r, hs', Handled(e.m, e.p, l'.depths), q, pool);
      hide Record, Delta, Since, SumOfDeltas, EverSuspended;
    }
  }

  lemma NextHandled(r: Rules, hs: seq<Handled>, h: Handled, q: Quantity, pool: string)
    ensures EverSuspended(hs + [h], pool) <==> EverSuspended(hs, pool) || Suspends(h, pool)
    ensures SumOfDeltas(r, Since(hs + [h], pool), q, pool)
            == if Suspends(h, pool) then 0
               else SumOfDeltas(r, Since(hs, pool), q, pool) + Delta(r, h.m, h.p, h.met, q, pool)
    ensures Suspends(h, pool) ==> Delta(r, h.m, h.p, h.met, q, pool) == -h.met.At(q, pool)
  {
    assert (hs + [h])[..|hs|] == hs;
    assert (Since(hs, pool) + [h])[..|Since(hs, pool)|] == Since(hs, pool);
  }

  // ---- The whole chain ----

  function Parse(m: Meta, ps: seq<Payload>): seq<Parsed> {
    seq(|ps|, i requires 0 <= i < |ps| => Parsed(m, ps[i]))
  }

  function TraceEvents(d: Decoder, b: Block, t: seq<Stamped>): seq<Parsed> {
    if t == [] then []
    else
      var s := t[|t| - 1];
      var m := Meta(b.height, b.time, s.id);
      TraceEvents(d, b, t[..|t| - 1]) + Parse(m, Payloads(d, m, s.item))
  }

  function BlockEvents(d: Decoder, b: Block): seq<Parsed> {
    TraceEvents(d, b, BlockTrace(b))
  }

  /** The events of the first `n` blocks, each with the depths that it met. */
  ghost function History(env: Env, n: nat): seq<Handled>
    requires n <= |env.blocks|
  {
    if n == 0 then []
    else
      History(env, n - 1)
      + HistoryOf(env.rules, BlockEvents(env.decoder, env.blocks[n - 1]), Ledger(After(env, n - 1), [], []))
  }

  lemma {:induction false} RecordConcat(r: Rules, es: seq<Parsed>, m: Meta, ps: seq<Payload>, l: Ledger)
    ensures RecordEvents(r, es + Parse(m, ps), l) == RecordAll(r, m, ps, RecordEvents(r, es, l))
    decreases |ps|
  {
    if ps == [] {
      assert es + Parse(m, ps) == es;
    } else {
      var front := ps[..|ps| - 1];
      RecordConcat(r, es, m, front, l);
      assert (es + Parse(m, ps))[..|es + Parse(m, ps)| - 1] == es + Parse(m, front);
      hide Record;
    }
  }

  lemma {:induction false} TraceIsEvents(d: Decoder, r: Rules, b: Block, t: seq<Stamped>, l: Ledger)
    ensures RunTrace(d, r, b, t, l) == RecordEvents(r, TraceEvents(d, b, t), l)
  {
    if t != [] {
      var front, s := t[..|t| - 1], t[|t| - 1];
      var m := Meta(b.height, b.time, s.id);
      TraceIsEvents(d, r, b, front, l);
      RecordConcat(r, TraceEvents(d, b, front), m, Payloads(d, m, s.item), l);
      hide RecordAll, RecordEvents, Payloads, Parse;
    }
  }

  lemma {:induction false} SinceConcat(r: Rules, hs: seq<Handled>, ks: seq<Handled>, q: Quantity, pool: string)
    ensures SumOfDeltas(r, Since(hs + ks, pool), q, pool)
            == (if EverSuspended(ks, pool) then 0 else SumOfDeltas(r, Since(hs, pool), q, pool))
               + SumOfDeltas(r, Since(ks, pool), q, pool)
    decreases |ks|
  {
    if ks == [] {
      assert hs + ks == hs;
    } else {
      var front, k := ks[..|ks| - 1], ks[|ks| - 1];
      SinceConcat(r, hs, front, q, pool);
      assert hs + ks == hs + front + [k] && ks == front + [k];
      NextHandled(r, hs + front, k, q, pool);
      NextHandled(r, front, k, q, pool);
      hide Delta, Since, SumOfDeltas, EverSuspended;
    }
  }

  lemma AfterBlock(env: Env, n: nat)
    requires 0 < n <= |env.blocks|
    ensures var es, l := BlockEvents(env.decoder, env.blocks[n - 1]), Ledger(After(env, n - 1), [], []);
            && After(env, n) == RecordEvents(env.rules, es, l).depths
            && History(env, n) == History(env, n - 1) + HistoryOf(env.rules, es, l)
  {
    var b, l := env.blocks[n - 1], Ledger(After(env, n - 1), [], []);
    TraceIsEvents(env.decoder, env.rules, b, BlockTrace(b), l);
    hide RunTrace, RecordEvents, BlockTrace, TraceEvents, HistoryOf;
  }

  lemma ChainStarts(env: Env, q: Quantity, pool: string)
    ensures History(env, 0) == [] && After(env, 0).At(q, pool) == 0 == SumOfDeltas(env.rules, Since([], pool), q, pool)
  {
  }

  /**
   * After any number of blocks, each depth is the sum of the deltas of all events of the chain since
   * the pool's last suspension.
   */
  lemma {:induction false} DepthsAreAFold(env: Env, n: nat, q: Quantity, pool: string)
    requires n <= |env.blocks|
    ensures After(env, n).At(q, pool) == SumOfDeltas(env.rules, Since(History(env, n), pool), q, pool)
  {
    hide After, History, RecordEvents, BlockEvents, HistoryOf, Since, SumOfDeltas, EverSuspended;
    if n == 0 {
      ChainStarts(env, q, pool);
    } else {
      var es, l := BlockEvents(env.decoder, env.blocks[n - 1]), Ledger(After(env, n - 1), [], []);
      DepthsAreAFold(env, n - 1, q, pool);
      AfterBlock(env, n);
      EventsAreSummed(env.rules, es, l, q, pool);
      SinceConcat(env.rules, History(env, n - 1), HistoryOf(env.rules, es, l), q, pool);
    }
  }

  /** So every event of the chain met depths that are such sums themselves. */
  lemma {:induction false} HistoryMeetsSums(env: Env, n: nat, k: nat, q: Quantity, pool: string)
    requires n <= |env.blocks| && k < |History(env, n)|
    ensures History(env, n)[k].met.At(q, pool) == SumOfDeltas(env.rules, Since(History(env, n)[..k], pool), q, pool)
  {
    hide After, RecordEvents, BlockEvents, HistoryOf, Since, SumOfDeltas, EverSuspended;
    assert n > 0;
    hide History;
    AfterBlock(env, n);
    var hs := History(env, n - 1);
    if k < |hs| {
      HistoryMeetsSums(env, n - 1, k, q, pool);
      assert History(env, n)[..k] == hs[..k];
    } else {
      var es, l := BlockEvents(env.decoder, env.blocks[n - 1]), Ledger(After(env, n - 1), [], []);
      var j := k - |hs|;
      HistoryPrefix(env.rules, es, l, j);
      EventsAreSummed(env.rules, es[..j], l, q, pool);
      DepthsAreAFold(env, n - 1, q, pool);
      SinceConcat(env.rules, hs, HistoryOf(env.rules, es[..j], l), q, pool);
      assert History(env, n)[..k] == hs + HistoryOf(env.rules, es, l)[..j];
    }
  }

  lemma {:induction false} HistoryPrefix(r: Rules, es: seq<Parsed>, l: Ledger, k: nat)
    requires k < |HistoryOf(r, es, l)|
    ensures k < |es| && HistoryOf(r, es, l)[k].met == RecordEvents(r, es[..k], l).depths
    ensures HistoryOf(r, es, l)[..k] == HistoryOf(r, es[..k], l)
    decreases |es|
  {
    var front := es[..|es| - 1];
    var hs := HistoryOf(r, front, l);
    if k < |hs| {
      HistoryPrefix(r, front, l, k);
      assert front[..k] == es[..k] && HistoryOf(r, es, l)[..k] == hs[..k];
    } else {
      HistoryLength(r, front, l);
      assert es[..k] == front && HistoryOf(r, es, l)[..k] == hs;
    }
  }

  lemma {:induction false} HistoryLength(r: Rules, es: seq<Parsed>, l: Ledger)
    ensures |HistoryOf(r, es, l)| == |es|
  {
    if es != [] {
      HistoryLength(r, es[..|es| - 1], l);
    }
  }

  // ---- The same for the changes that the totals have seen ----

  ghost function Effects(env: Env, n: nat): seq<Effect>
    requires n <= |env.blocks|
  {
    if n == 0 then []
    else
      Effects(env, n - 1)
      + RunBlock(env.decoder, env.rules, env.blocks[n - 1], Ledger(After(env, n - 1), [], [])).effects
  }

  lemma {:induction false} EffectsGiveTheDepths(env: Env, n: nat)
    requires n <= |env.blocks|
    ensures After(env, n) == ApplyAll(NO_DEPTHS, Effects(env, n))
  {
    if n > 0 {
      var b, d := env.blocks[n - 1], After(env, n - 1);
      EffectsGiveTheDepths(env, n - 1);
      TraceKeepsBalance(d, env.decoder, env.rules, b, BlockTrace(b), Ledger(d, [], []));
      var l := RunBlock(env.decoder, env.rules, b, Ledger(d, [], []));
      ApplyAllConcat(NO_DEPTHS, Effects(env, n - 1), l.effects);
      hide RunTrace, BlockTrace, ApplyAll;
    }
  }

  /** Over the whole chain the totals are the sums of the changes made to them since the last suspension. */
  lemma TotalsAreSums(env: Env, n: nat, q: Quantity, pool: string)
    requires n <= |env.blocks|
    ensures After(env, n).At(q, pool) == SumOf(SinceSuspension(Effects(env, n), pool).1, q, pool)
  {
    EffectsGiveTheDepths(env, n);
    DepthIsSumSinceSuspension(NO_DEPTHS, Effects(env, n), q, pool);
  }
}
