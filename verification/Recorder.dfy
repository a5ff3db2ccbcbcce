// Event handlers: the depth changes and the rows that one parsed event causes.
// Source: internal/fetch/record/record.go, internal/fetch/record/event.go

/** Blocks as the chain delivers them. */
module Blocks {

  datatype Attr = Attr(key: string, value: string, index: bool)

  datatype Event = Event(kind: string, attrs: seq<Attr>)

  /** A transaction result; `head` stands for its scalar fields (code, data, log, gas, codespace). */
  datatype TxResult = TxResult(head: string, events: seq<Event>)

  datatype Results = Results(height: int, txs: seq<TxResult>, finalizeEvents: seq<Event>)

  datatype Block = Block(height: int, time: int, results: Results)
}

module Recording {
  import opened PoolDepths
  import opened Tables
  import BatchKeys
  import opened EventIds

  datatype CoinType = Switch | AssetNative | AssetSynth | AssetDerived | AssetTrade | AssetSecure | UnknownCoin

  /** An asset name with its classification, its native form and its form with "/" replaced by ".". */
  datatype Coin = Coin(name: string, kind: CoinType, native: string, synthPool: string)

  type TableName = s: string | '(' !in s && s != "block_log" && s != "block_pool_depths"
    witness "events"

  const ADD_EVENTS: TableName := "add_events"
  const AFFILIATE_FEE_EVENTS: TableName := "affiliate_fee_events"
  const ERRATA_EVENTS: TableName := "errata_events"
  const FEE_EVENTS: TableName := "fee_events"
  const GAS_EVENTS: TableName := "gas_events"
  const MINT_BURN_EVENTS: TableName := "mint_burn_events"
  const OUTBOUND_EVENTS: TableName := "outbound_events"
  const POOL_BALANCE_CHANGE_EVENTS: TableName := "pool_balance_change_events"
  const POOL_EVENTS: TableName := "pool_events"
  const REWARDS_EVENT_ENTRIES: TableName := "rewards_event_entries"
  const REWARDS_EVENTS: TableName := "rewards_events"
  const SLASH_EVENTS: TableName := "slash_events"
  const STAKE_EVENTS: TableName := "stake_events"
  const SWAP_EVENTS: TableName := "swap_events"
  const WITHDRAW_EVENTS: TableName := "withdraw_events"

  /** A parsed event. Events without influence on the depths are `Other`, discarded ones `Skipped`. */
  datatype Payload =
    | Donate(donatePool: Coin, memo: string, assetE8: int, runeE8: int)
    | Errata(asset: Coin, assetE8: int, runeE8: int)
    | Fee(asset: Coin, assetE8: int, poolDeduct: int)
    | Gas(asset: Coin, assetE8: int, runeE8: int)
    | PoolStatus(asset: Coin, suspended: bool)
    | Rewards(perPool: seq<(string, int)>)
    | Slash(pool: string, amounts: seq<(Coin, int)>)
    | Stake(pool: string, assetE8: int, runeE8: int)
    | Swap(pool: string, from: Coin, to: Coin, fromE8: int, toE8: int, liqFeeInRuneE8: int)
    | Withdraw(pool: string, asset: Coin, chain: string, poolChain: string,
               assetE8: int, emitAssetE8: int, emitRuneE8: int, impLossProtectionE8: int)
    | PoolBalanceChange(asset: Coin, runeAmt: int, runeAdd: bool, assetAmt: int, assetAdd: bool)
    | MintBurn(asset: Coin, assetE8: int, supply: string, reason: string)
    | AccountDeposit(table: TableName, asset: Coin, amtE8: int)
    | AccountWithdraw(table: TableName, asset: Coin, amtE8: int)
    | Coinbase(asset: Coin, assetE8: int)
    | Burn(asset: Coin, assetE8: int)
    | AffiliateFee(asset: Coin, feeAmt: int)
    | Other(table: TableName)
    | Skipped

  /** Heights at which the chain changed its rules. */
  datatype Rules = Rules(undelayedLiquidityFees: int, withdrawCoinKept: int, withdrawCoinPooled: int)

  datatype Meta = Meta(height: int, time: int, eventId: EventId)

  datatype EventValues =
    | Whole(payload: Payload)
    /** A row with a column computed from the depths at the time of the event. */
    | Priced(payload: Payload, poolAssetE8: int, poolRuneE8: int)
    | RewardEntry(pool: string, runeE8: int, saverE8: int)
    | SlashEntry(pool: string, asset: Coin, e8: int)

  datatype Values =
    | EventRow(eventId: int, timestamp: int, event: EventValues)
    | LogRow(height: int, timestamp: int, aggState: Option<Depths>)
    | DepthRow(pool: string, assetE8: int, runeE8: int, synthE8: int, timestamp: int)

  function EventTarget(table: TableName): (t: Target)
    ensures BatchKeys.Plain(t)
  {
    Target(table, ["event_id", "block_timestamp"])
  }

  function RowWithMeta(table: TableName, m: Meta, v: EventValues): Row<Values> {
    Row(EventTarget(table), EventRow(AsBigint(m.eventId), m.time, v))
  }

  /** A swap has RUNE on exactly one side and a known kind of asset on the other. */
  predicate Swappable(from: CoinType, to: CoinType) {
    || (from == Switch && to != Switch && to != UnknownCoin)
    || (to == Switch && from != Switch && from != UnknownCoin)
  }

  /** The depths, the changes made to them and the rows written, in order. */
  datatype Ledger = Ledger(depths: Depths, effects: seq<Effect>, rows: seq<Row<Values>>) {
    function Change(f: Effect): Ledger {
      Ledger(Apply(depths, f), effects + [f], rows)
    }

    function Add(q: Quantity, pool: string, e8: int): Ledger {
      Change(Effect.Add(q, pool, e8))
    }

    function AddIf(c: bool, q: Quantity, pool: string, e8: int): Ledger {
      if c then Add(q, pool, e8) else this
    }

    function Write(table: TableName, m: Meta, v: EventValues): Ledger {
      this.(rows := rows + [RowWithMeta(table, m, v)])
    }
  }

  function WriteRewards(m: Meta, perPool: seq<(string, int)>, l: Ledger): Ledger {
    if perPool == [] then l
    else
      var (pool, e8) := perPool[|perPool| - 1];
      WriteRewards(m, perPool[..|perPool| - 1], l).Write(REWARDS_EVENT_ENTRIES, m, RewardEntry(pool, e8, 0))
  }

  function AddRewards(perPool: seq<(string, int)>, l: Ledger): Ledger {
    if perPool == [] then l
    else
      var (pool, e8) := perPool[|perPool| - 1];
      AddRewards(perPool[..|perPool| - 1], l).Add(Rune, pool, e8)
  }

  function RecordSlashes(m: Meta, pool: string, amounts: seq<(Coin, int)>, l: Ledger): Ledger {
    if amounts == [] then l
    else
      var (coin, e8) := amounts[|amounts| - 1];
      RecordSlashes(m, pool, amounts[..|amounts| - 1], l)
        .Write(SLASH_EVENTS, m, SlashEntry(pool, coin, e8))
        .AddIf(coin.kind == Switch, Rune, pool, e8)
        .AddIf(coin.kind == AssetNative, Asset, pool, e8)
  }

  /** Since the fees are no longer delayed, a swap hands its fee on at once. */
  function ChargeSwapFee(r: Rules, m: Meta, p: Payload, l: Ledger): Ledger
    requires p.Swap?
  {
    if m.height < r.undelayedLiquidityFees then l
    else
      var l := l.Add(Rune, p.pool, -p.liqFeeInRuneE8);
      if p.pool == "THOR.TCY" then l
      else l.Write(REWARDS_EVENT_ENTRIES, m, RewardEntry(p.pool, -p.liqFeeInRuneE8, 0))
  }

  function MoveSwapDepths(p: Payload, l: Ledger): Ledger
    requires p.Swap?
  {
    if p.to.kind == Switch then
      l.AddIf(p.from.kind == AssetNative, Asset, p.pool, p.fromE8)
       .AddIf(p.from.kind == AssetSynth, Synth, p.pool, -p.fromE8)
       .Add(Rune, p.pool, -p.toE8)
    else
      l.Add(Rune, p.pool, p.fromE8)
       .AddIf(p.to.kind == AssetNative, Asset, p.pool, -p.toE8)
       .AddIf(p.to.kind == AssetSynth, Synth, p.pool, p.toE8)
  }

  function RecordSwap(r: Rules, m: Meta, p: Payload, l: Ledger): Ledger
    requires p.Swap?
  {
    if !Swappable(p.from.kind, p.to.kind) then l
    else MoveSwapDepths(p, ChargeSwapFee(r, m, p, l.Write(SWAP_EVENTS, m, Whole(p))))
  }

  /** The amounts that leave the pool, and the protection that the reserve pays in. */
  function PayOut(p: Payload, l: Ledger): Ledger
    requires p.Withdraw?
  {
    l.Add(Asset, p.pool, -p.emitAssetE8).Add(Rune, p.pool, -p.emitRuneE8).Add(Rune, p.pool, p.impLossProtectionE8)
  }

  /** The coin that came with the request: kept by the pool under the old rule, by its own pool under the new. */
  function KeepCoin(r: Rules, m: Meta, p: Payload, l: Ledger): Ledger
    requires p.Withdraw?
  {
    var l := l.AddIf(m.height < r.withdrawCoinKept && p.assetE8 != 0 && p.pool == p.asset.name,
                     Asset, p.pool, p.assetE8);
    l.AddIf(m.height >= r.withdrawCoinPooled && p.assetE8 != 0
            && (l.depths.At(Asset, p.asset.name) > 0 || l.depths.At(Rune, p.asset.name) > 0)
            && p.chain == p.poolChain,
            Asset, p.asset.name, p.assetE8)
  }

  function RecordWithdraw(r: Rules, m: Meta, p: Payload, l: Ledger): Ledger
    requires p.Withdraw?
  {
    var row := Priced(p, l.depths.At(Asset, p.pool), l.depths.At(Rune, p.pool));
    KeepCoin(r, m, p, PayOut(p, l.Write(WITHDRAW_EVENTS, m, row)))
  }

  /** What one parsed event does to the ledger. */
  function Record(r: Rules, m: Meta, p: Payload, l: Ledger): Ledger {
    match p
    case Donate(pool, memo, assetE8, runeE8) =>
      var saversYield := pool.kind == AssetSynth && memo == "THOR-SAVERS-YIELD";
      (if saversYield then
         l.Add(Synth, pool.synthPool, assetE8)
          .Write(REWARDS_EVENT_ENTRIES, m, RewardEntry(pool.synthPool, 0, assetE8))
       else
         l.Write(ADD_EVENTS, m, Whole(p)))
      .Add(Asset, pool.name, assetE8).Add(Rune, pool.name, runeE8)
    case Errata(asset, assetE8, runeE8) =>
      l.Write(ERRATA_EVENTS, m, Whole(p)).Add(Asset, asset.name, assetE8).Add(Rune, asset.name, runeE8)
    case Fee(asset, assetE8, poolDeduct) =>
      var l := l.Write(FEE_EVENTS, m, Whole(p));
      if asset.kind == Switch then l
      else
        l.AddIf(asset.kind == AssetNative, Asset, asset.native, assetE8)
         .AddIf(asset.kind == AssetSynth, Synth, asset.native, -assetE8)
         .Add(Rune, asset.native, -poolDeduct)
    case Gas(asset, assetE8, runeE8) =>
      l.Write(GAS_EVENTS, m, Whole(p)).Add(Asset, asset.name, -assetE8).Add(Rune, asset.name, runeE8)
    case PoolStatus(asset, suspended) =>
      var l := l.Write(POOL_EVENTS, m, Whole(p));
      if suspended then l.Change(Suspend(asset.name)) else l
    case Rewards(perPool) =>
      AddRewards(perPool, WriteRewards(m, perPool, l.Write(REWARDS_EVENTS, m, Whole(p))))
    case Slash(pool, amounts) =>
      RecordSlashes(m, pool, amounts, l)
    case Stake(pool, assetE8, runeE8) =>
      l.Write(STAKE_EVENTS, m,
              Priced(p, l.depths.At(Asset, pool) + assetE8, l.depths.At(Rune, pool) + runeE8))
       .Add(Asset, pool, assetE8).Add(Rune, pool, runeE8)
    case Swap(_, _, _, _, _, _) => RecordSwap(r, m, p, l)
    case Withdraw(_, _, _, _, _, _, _, _) => RecordWithdraw(r, m, p, l)
    case PoolBalanceChange(asset, runeAmt, runeAdd, assetAmt, assetAdd) =>
      l.Write(POOL_BALANCE_CHANGE_EVENTS, m, Whole(p))
       .AddIf(assetAmt != 0, Asset, asset.name, if assetAdd then assetAmt else -assetAmt)
       .AddIf(runeAmt != 0, Rune, asset.name, if runeAdd then runeAmt else -runeAmt)
    case MintBurn(asset, assetE8, supply, reason) =>
      l.Write(MINT_BURN_EVENTS, m, Whole(p))
       .AddIf(asset.kind == AssetSynth && supply == "burn" && reason == "failed_refund", Synth, asset.synthPool,
              -assetE8)
    case AccountDeposit(table, asset, amtE8) =>
      l.Write(table, m, Whole(p)).AddIf(m.eventId.location == EndBlockEvents, Asset, asset.native, -amtE8)
    case AccountWithdraw(table, asset, amtE8) =>
      l.Write(table, m, Whole(p)).AddIf(m.eventId.location == EndBlockEvents, Asset, asset.native, amtE8)
    case Coinbase(asset, assetE8) => l.Add(Synth, asset.synthPool, assetE8)
    case Burn(asset, assetE8) => l.Add(Synth, asset.synthPool, -assetE8)
    case AffiliateFee(asset, _) =>
      var row := Priced(p, l.depths.At(Asset, asset.name), l.depths.At(Rune, asset.name));
      (if asset.name == "THOR.RUNE" then l.Write(OUTBOUND_EVENTS, m, Whole(p)) else l)
      .Write(AFFILIATE_FEE_EVENTS, m, row)
    case Other(table) => l.Write(table, m, Whole(p))
    case Skipped => l
  }
}

/** The recorder, whose handlers change its totals and hand out rows. */
module Recorders {
  import opened PoolDepths
  import opened Tables
  import opened RT = RunningTotals
  import opened EventIds
  import opened Recording
  import opened Deltas

  class Recorder {
    const totals: RunningTotals
    const rules: Rules
    /** The rows handed to the inserter, in order. */
    var out: seq<Row<Values>>
    /** Every change made to the depths since this recorder was created. */
    ghost var effects: seq<Effect>

    ghost predicate Valid()
      reads this, totals, totals.owner.Keys
    {
      totals.Valid()
    }

    ghost function Book(): Ledger
      reads this, totals
    {
      Ledger(totals.contents, effects, out)
    }

    constructor (totals: RunningTotals, rules: Rules)
      requires totals.Valid()
      ensures Valid() && this.totals == totals && this.rules == rules
      ensures Book() == Ledger(totals.contents, [], [])
    {
      this.totals := totals;
      this.rules := rules;
      this.out := [];
      this.effects := [];
    }

    /** The rows of the previous block have reached the inserter. */
    method StartBlock()
      requires Valid()
      modifies this`out, this`effects
      ensures Valid() && Book() == Ledger(totals.contents, [], [])
    {
      out, effects := [], [];
    }

    method InsertWithMeta(table: TableName, m: Meta, v: EventValues)
      requires Valid()
      modifies this`out
      ensures Valid() && Book() == old(Book()).Write(table, m, v)
    {
      out := out + [RowWithMeta(table, m, v)];
    }

    method AddDepth(q: Quantity, pool: string, e8: int)
      requires Valid()
      modifies this`effects, totals, totals.owner.Keys
      ensures Valid() && fresh(totals.owner.Keys - old(totals.owner.Keys))
      ensures Book() == old(Book()).Add(q, pool, e8)
    {
      match q {
        case Asset => totals.AddPoolAssetE8Depth(pool, e8);
        case Rune => totals.AddPoolRuneE8Depth(pool, e8);
        case Synth => totals.AddPoolSynthE8Depth(pool, e8);
      }
      effects := effects + [Add(q, pool, e8)];
    }

    method OnAdd(p: Payload, m: Meta)
      requires Valid() && p.Donate?
      modifies this`out, this`effects, totals, totals.owner.Keys
      ensures Valid() && fresh(totals.owner.Keys - old(totals.owner.Keys))
      ensures Means(rules, m, p, old(Book()), Book()) && Book() == Record(rules, m, p, old(Book()))
    {
      RecordMeans(rules, m, p, Book());
      hide Means, RunningTotals.Valid, RunningTotals.Holds, Apply, RowWithMeta;
      if p.donatePool.kind == AssetSynth && p.memo == "THOR-SAVERS-YIELD" {
        AddDepth(Synth, p.donatePool.synthPool, p.assetE8);
        InsertWithMeta(REWARDS_EVENT_ENTRIES, m, RewardEntry(p.donatePool.synthPool, 0, p.assetE8));
      } else {
        InsertWithMeta(ADD_EVENTS, m, Whole(p));
      }
      AddDepth(Asset, p.donatePool.name, p.assetE8);
      AddDepth(Rune, p.donatePool.name, p.runeE8);
    }

    method OnErrata(p: Payload, m: Meta)
      requires Valid() && p.Errata?
      modifies this`out, this`effects, totals, totals.owner.Keys
      ensures Valid() && fresh(totals.owner.Keys - old(totals.owner.Keys))
      ensures Means(rules, m, p, old(Book()), Book()) && Book() == Record(rules, m, p, old(Book()))
    {
      RecordMeans(rules, m, p, Book());
      hide Means, RunningTotals.Valid, RunningTotals.Holds, Apply, RowWithMeta;
      InsertWithMeta(ERRATA_EVENTS, m, Whole(p));
      AddDepth(Asset, p.asset.name, p.assetE8);
      AddDepth(Rune, p.asset.name, p.runeE8);
    }

    method OnFee(p: Payload, m: Meta)
      requires Valid() && p.Fee?
      modifies this`out, this`effects, totals, totals.owner.Keys
      ensures Valid() && fresh(totals.owner.Keys - old(totals.owner.Keys))
      ensures Means(rules, m, p, old(Book()), Book()) && Book() == Record(rules, m, p, old(Book()))
    {
      RecordMeans(rules, m, p, Book());
      hide Means, RunningTotals.Valid, RunningTotals.Holds, Apply, RowWithMeta;
      InsertWithMeta(FEE_EVENTS, m, Whole(p));
      var pool := p.asset.native;
      if p.asset.kind != Switch {
        if p.asset.kind == AssetNative {
          AddDepth(Asset, pool, p.assetE8);
        }
        if p.asset.kind == AssetSynth {
          AddDepth(Synth, pool, -p.assetE8);
        }
        AddDepth(Rune, pool, -p.poolDeduct);
      }
    }

    method OnGas(p: Payload, m: Meta)
      requires Valid() && p.Gas?
      modifies this`out, this`effects, totals, totals.owner.Keys
      ensures Valid() && fresh(totals.owner.Keys - old(totals.owner.Keys))
      ensures Means(rules, m, p, old(Book()), Book()) && Book() == Record(rules, m, p, old(Book()))
    {
      RecordMeans(rules, m, p, Book());
      hide Means, RunningTotals.Valid, RunningTotals.Holds, Apply, RowWithMeta;
      InsertWithMeta(GAS_EVENTS, m, Whole(p));
      AddDepth(Asset, p.asset.name, -p.assetE8);
      AddDepth(Rune, p.asset.name, p.runeE8);
    }

    method OnPool(p: Payload, m: Meta)
      requires Valid() && p.PoolStatus?
      modifies this`out, this`effects, totals, totals.owner.Keys
      ensures Valid() && fresh(totals.owner.Keys - old(totals.owner.Keys))
      ensures Means(rules, m, p, old(Book()), Book()) && Book() == Record(rules, m, p, old(Book()))
    {
      RecordMeans(rules, m, p, Book());
      hide Means, RunningTotals.Valid, RunningTotals.Holds, RowWithMeta;
      InsertWithMeta(POOL_EVENTS, m, Whole(p));
      if p.suspended {
        var pool := p.asset.name;
        totals.SetAssetDepth(pool, 0);
        totals.SetRuneDepth(pool, 0);
        totals.SetSynthDepth(pool, 0);
        effects := effects + [Suspend(pool)];
      }
    }

    method OnRewards(p: Payload, m: Meta)
      requires Valid() && p.Rewards?
      modifies this`out, this`effects, totals, totals.owner.Keys
      ensures Valid() && fresh(totals.owner.Keys - old(totals.owner.Keys))
      ensures Means(rules, m, p, old(Book()), Book()) && Book() == Record(rules, m, p, old(Book()))
    {
      RecordMeans(rules, m, p, Book());
      hide Means, RunningTotals.Valid, RunningTotals.Holds, Apply, RowWithMeta;
      InsertWithMeta(REWARDS_EVENTS, m, Whole(p));
      var perPool := p.perPool;
      for i := 0 to |perPool|
        invariant Valid() && totals.owner == old(totals.owner)
        invariant Book() == WriteRewards(m, perPool[..i], old(Book()).Write(REWARDS_EVENTS, m, Whole(p)))
      {
        assert perPool[..i + 1][..i] == perPool[..i];
        InsertWithMeta(REWARDS_EVENT_ENTRIES, m, RewardEntry(perPool[i].0, perPool[i].1, 0));
      }
      assert perPool[..|perPool|] == perPool;
      ghost var written := Book();
      for i := 0 to |perPool|
        invariant Valid() && fresh(totals.owner.Keys - old(totals.owner.Keys))
        invariant Book() == AddRewards(perPool[..i], written)
      {
        assert perPool[..i + 1][..i] == perPool[..i];
        AddDepth(Rune, perPool[i].0, perPool[i].1);
      }
      assert perPool[..|perPool|] == perPool;
    }

    method OnSlash(p: Payload, m: Meta)
      requires Valid() && p.Slash?
      modifies this`out, this`effects, totals, totals.owner.Keys
      ensures Valid() && fresh(totals.owner.Keys - old(totals.owner.Keys))
      ensures Means(rules, m, p, old(Book()), Book()) && Book() == Record(rules, m, p, old(Book()))
    {
      RecordMeans(rules, m, p, Book());
      hide Means, RunningTotals.Valid, RunningTotals.Holds, Apply, RowWithMeta;
      var amounts := p.amounts;
      for i := 0 to |amounts|
        invariant Valid() && fresh(totals.owner.Keys - old(totals.owner.Keys))
        invariant Book() == RecordSlashes(m, p.pool, amounts[..i], old(Book()))
      {
        assert amounts[..i + 1][..i] == amounts[..i];
        InsertWithMeta(SLASH_EVENTS, m, SlashEntry(p.pool, amounts[i].0, amounts[i].1));
        match amounts[i].0.kind {
          case Switch => AddDepth(Rune, p.pool, amounts[i].1);
          case AssetNative => AddDepth(Asset, p.pool, amounts[i].1);
          case _ =>
        }
      }
      assert amounts[..|amounts|] == amounts;
    }

    method OnStake(p: Payload, m: Meta)
      requires Valid() && p.Stake?
      modifies this`out, this`effects, totals, totals.owner.Keys
      ensures Valid() && fresh(totals.owner.Keys - old(totals.owner.Keys))
      ensures Means(rules, m, p, old(Book()), Book()) && Book() == Record(rules, m, p, old(Book()))
    {
      RecordMeans(rules, m, p, Book());
      hide Means, RunningTotals.Valid, RunningTotals.Holds, Apply, RowWithMeta;
      var aE8, rE8, _ := totals.CurrentDepths(p.pool);
      InsertWithMeta(STAKE_EVENTS, m, Priced(p, aE8 + p.assetE8, rE8 + p.runeE8));
      AddDepth(Asset, p.pool, p.assetE8);
      AddDepth(Rune, p.pool, p.runeE8);
    }

    method OnSwap(p: Payload, m: Meta)
      requires Valid() && p.Swap?
      modifies this`out, this`effects, totals, totals.owner.Keys
      ensures Valid() && fresh(totals.owner.Keys - old(totals.owner.Keys))
      ensures Means(rules, m, p, old(Book()), Book()) && Book() == Record(rules, m, p, old(Book()))
    {
      RecordMeans(rules, m, p, Book());
      hide Means, RunningTotals.Valid, RunningTotals.Holds, Apply, RowWithMeta;
      var fromCoin, toCoin := p.from.kind, p.to.kind;
      if fromCoin == UnknownCoin || toCoin == UnknownCoin {
        return;
      }
      match (fromCoin, toCoin) {
        case (Switch, Switch) => return;
        case (Switch, _) =>
        case (_, Switch) =>
        case (_, _) => return;
      }
      InsertWithMeta(SWAP_EVENTS, m, Whole(p));
      ChargeFee(p, m);
      MoveDepths(p);
    }

    method ChargeFee(p: Payload, m: Meta)
      requires Valid() && p.Swap?
      modifies this`out, this`effects, totals, totals.owner.Keys
      ensures Valid() && fresh(totals.owner.Keys - old(totals.owner.Keys))
      ensures Book() == ChargeSwapFee(rules, m, p, old(Book()))
    {
      hide RunningTotals.Valid, RunningTotals.Holds, Apply, RowWithMeta;
      if m.height >= rules.undelayedLiquidityFees {
        AddDepth(Rune, p.pool, -p.liqFeeInRuneE8);
        if p.pool != "THOR.TCY" {
          InsertWithMeta(REWARDS_EVENT_ENTRIES, m, RewardEntry(p.pool, -p.liqFeeInRuneE8, 0));
        }
      }
    }

    method MoveDepths(p: Payload)
      requires Valid() && p.Swap?
      modifies this`out, this`effects, totals, totals.owner.Keys
      ensures Valid() && fresh(totals.owner.Keys - old(totals.owner.Keys))
      ensures Book() == MoveSwapDepths(p, old(Book()))
    {
      hide RunningTotals.Valid, RunningTotals.Holds, Apply, RowWithMeta;
      if p.to.kind == Switch {
        if p.from.kind == AssetNative {
          AddDepth(Asset, p.pool, p.fromE8);
        }
        if p.from.kind == AssetSynth {
          AddDepth(Synth, p.pool, -p.fromE8);
        }
        AddDepth(Rune, p.pool, -p.toE8);
      } else {
        AddDepth(Rune, p.pool, p.fromE8);
        if p.to.kind == AssetNative {
          AddDepth(Asset, p.pool, -p.toE8);
        }
        if p.to.kind == AssetSynth {
          AddDepth(Synth, p.pool, p.toE8);
        }
      }
    }

    method OnWithdraw(p: Payload, m: Meta)
      requires Valid() && p.Withdraw?
      modifies this`out, this`effects, totals, totals.owner.Keys
      ensures Valid() && fresh(totals.owner.Keys - old(totals.owner.Keys))
      ensures Means(rules, m, p, old(Book()), Book()) && Book() == Record(rules, m, p, old(Book()))
    {
      RecordMeans(rules, m, p, Book());
      hide Means, RunningTotals.Valid, RunningTotals.Holds, Apply, RowWithMeta;
      var aE8, rE8, _ := totals.CurrentDepths(p.pool);
      InsertWithMeta(WITHDRAW_EVENTS, m, Priced(p, aE8, rE8));
      AddDepth(Asset, p.pool, -p.emitAssetE8);
      AddDepth(Rune, p.pool, -p.emitRuneE8);
      AddDepth(Rune, p.pool, p.impLossProtectionE8);
      KeepWithdrawCoin(p, m);
    }

    method KeepWithdrawCoin(p: Payload, m: Meta)
      requires Valid() && p.Withdraw?
      modifies this`out, this`effects, totals, totals.owner.Keys
      ensures Valid() && fresh(totals.owner.Keys - old(totals.owner.Keys))
      ensures Book() == KeepCoin(rules, m, p, old(Book()))
    {
      hide RunningTotals.Valid, RunningTotals.Holds, Apply, RowWithMeta;
      if m.height < rules.withdrawCoinKept {
        if p.assetE8 != 0 && p.pool == p.asset.name {
          AddDepth(Asset, p.pool, p.assetE8);
        }
      }
      if m.height >= rules.withdrawCoinPooled && p.assetE8 != 0 {
        var aD, rD, _ := totals.CurrentDepths(p.asset.name);
        if (aD > 0 || rD > 0) && p.chain == p.poolChain {
          AddDepth(Asset, p.asset.name, p.assetE8);
        }
      }
    }

    method OnPoolBalanceChange(p: Payload, m: Meta)
      requires Valid() && p.PoolBalanceChange?
      modifies this`out, this`effects, totals, totals.owner.Keys
      ensures Valid() && fresh(totals.owner.Keys - old(totals.owner.Keys))
      ensures Means(rules, m, p, old(Book()), Book()) && Book() == Record(rules, m, p, old(Book()))
    {
      RecordMeans(rules, m, p, Book());
      hide Means, RunningTotals.Valid, RunningTotals.Holds, Apply, RowWithMeta;
      InsertWithMeta(POOL_BALANCE_CHANGE_EVENTS, m, Whole(p));
      var assetAmount := p.assetAmt;
      if assetAmount != 0 {
        if !p.assetAdd {
          assetAmount := assetAmount * -1;
        }
        AddDepth(Asset, p.asset.name, assetAmount);
      }
      var runeAmount := p.runeAmt;
      if runeAmount != 0 {
        if !p.runeAdd {
          runeAmount := runeAmount * -1;
        }
        AddDepth(Rune, p.asset.name, runeAmount);
      }
    }

    method OnMintBurn(p: Payload, m: Meta)
      requires Valid() && p.MintBurn?
      modifies this`out, this`effects, totals, totals.owner.Keys
      ensures Valid() && fresh(totals.owner.Keys - old(totals.owner.Keys))
      ensures Means(rules, m, p, old(Book()), Book()) && Book() == Record(rules, m, p, old(Book()))
    {
      RecordMeans(rules, m, p, Book());
      hide Means, RunningTotals.Valid, RunningTotals.Holds, Apply, RowWithMeta;
      InsertWithMeta(MINT_BURN_EVENTS, m, Whole(p));
      if p.asset.kind == AssetSynth && p.supply == "burn" && p.reason == "failed_refund" {
        AddDepth(Synth, p.asset.synthPool, -p.assetE8);
      }
    }

    /** Trade and secured account deposits; withdrawals are the mirror image. */
    method OnAccountMove(p: Payload, m: Meta)
      requires Valid() && (p.AccountDeposit? || p.AccountWithdraw?)
      modifies this`out, this`effects, totals, totals.owner.Keys
      ensures Valid() && fresh(totals.owner.Keys - old(totals.owner.Keys))
      ensures Means(rules, m, p, old(Book()), Book()) && Book() == Record(rules, m, p, old(Book()))
    {
      RecordMeans(rules, m, p, Book());
      hide Means, RunningTotals.Valid, RunningTotals.Holds, Apply, RowWithMeta;
      InsertWithMeta(p.table, m, Whole(p));
      if m.eventId.location == EndBlockEvents {
        AddDepth(Asset, p.asset.native, if p.AccountDeposit? then -p.amtE8 else p.amtE8);
      }
    }

    /** The fee in RUNE is computed from the depths of the fee's own pool. */
    method OnAffiliateFee(p: Payload, m: Meta)
      requires Valid() && p.AffiliateFee?
      modifies this`out, this`effects, totals, totals.owner.Keys
      ensures Valid() && fresh(totals.owner.Keys - old(totals.owner.Keys))
      ensures Means(rules, m, p, old(Book()), Book()) && Book() == Record(rules, m, p, old(Book()))
    {
      RecordMeans(rules, m, p, Book());
      hide Means, RunningTotals.Valid, RunningTotals.Holds, Apply, RowWithMeta;
      var aE8, rE8, _ := totals.CurrentDepths(p.asset.name);
      if p.asset.name == "THOR.RUNE" {
        InsertWithMeta(OUTBOUND_EVENTS, m, Whole(p));
      }
      InsertWithMeta(AFFILIATE_FEE_EVENTS, m, Priced(p, aE8, rE8));
    }

    /** The dispatch on the event type. */
    method Handle(p: Payload, m: Meta)
      requires Valid()
      modifies this`out, this`effects, totals, totals.owner.Keys
      ensures Valid() && fresh(totals.owner.Keys - old(totals.owner.Keys))
      ensures Means(rules, m, p, old(Book()), Book()) && Book() == Record(rules, m, p, old(Book()))
    {
      RecordMeans(rules, m, p, Book());
      hide Means, RunningTotals.Valid, RunningTotals.Holds, Apply, RowWithMeta;
      match p
      case Donate(_, _, _, _) => OnAdd(p, m);
      case Errata(_, _, _) => OnErrata(p, m);
      case Fee(_, _, _) => OnFee(p, m);
      case Gas(_, _, _) => OnGas(p, m);
      case PoolStatus(_, _) => OnPool(p, m);
      case Rewards(_) => OnRewards(p, m);
      case Slash(_, _) => OnSlash(p, m);
      case Stake(_, _, _) => OnStake(p, m);
      case Swap(_, _, _, _, _, _) => OnSwap(p, m);
      case Withdraw(_, _, _, _, _, _, _, _) => OnWithdraw(p, m);
      case PoolBalanceChange(_, _, _, _, _) => OnPoolBalanceChange(p, m);
      case MintBurn(_, _, _, _) => OnMintBurn(p, m);
      case AccountDeposit(_, _, _) => OnAccountMove(p, m);
      case AccountWithdraw(_, _, _) => OnAccountMove(p, m);
      case Coinbase(asset, assetE8) => AddDepth(Synth, asset.synthPool, assetE8);
      case Burn(asset, assetE8) => AddDepth(Synth, asset.synthPool, -assetE8);
      case AffiliateFee(_, _) => OnAffiliateFee(p, m);
      case Other(table) => InsertWithMeta(table, m, Whole(p));
      case Skipped =>
    }
  }
}
