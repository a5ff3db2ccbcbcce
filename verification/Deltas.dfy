// What each event means for the depths of each pool, and which events undo each other.
// Source: internal/fetch/record/record.go

module Deltas {
  import opened PoolDepths
  import opened Tables
  import opened EventIds
  import opened Recording

  function If(c: bool, e8: int): int {
    if c then e8 else 0
  }

  function Pick(q: Quantity, asset: int, rune: int): int {
    match q case Asset => asset case Rune => rune case Synth => 0
  }

  function RewardOf(perPool: seq<(string, int)>, pool: string): int {
    if perPool == [] then 0
    else RewardOf(perPool[..|perPool| - 1], pool) + If(perPool[|perPool| - 1].0 == pool, perPool[|perPool| - 1].1)
  }

  function SlashOf(amounts: seq<(Coin, int)>, kind: CoinType): int {
    if amounts == [] then 0
    else SlashOf(amounts[..|amounts| - 1], kind) + If(amounts[|amounts| - 1].0.kind == kind, amounts[|amounts| - 1].1)
  }

  function SlashDelta(amounts: seq<(Coin, int)>, q: Quantity): int {
    match q
    case Asset => SlashOf(amounts, AssetNative)
    case Rune => SlashOf(amounts, Switch)
    case Synth => 0
  }

  /** A pool gets what comes in and gives what goes out; synths count as supply, so the other way round. */
  function SwapDelta(r: Rules, m: Meta, p: Payload, q: Quantity): int
    requires p.Swap?
  {
    match q
    case Rune =>
      (if p.from.kind == Switch then p.fromE8 else -p.toE8) - If(r.undelayedLiquidityFees <= m.height, p.liqFeeInRuneE8)
    case Asset => If(p.from.kind == AssetNative, p.fromE8) - If(p.to.kind == AssetNative, p.toE8)
    case Synth => If(p.to.kind == AssetSynth, p.toE8) - If(p.from.kind == AssetSynth, p.fromE8)
  }

  /** The depths that decide on a withdraw request's coin: those after the withdrawal itself. */
  function Paid(r: Rules, m: Meta, p: Payload, d: Depths, pool: string, q: Quantity): int
    requires p.Withdraw? && q != Synth
  {
    d.At(q, pool)
    + If(pool == p.pool, if q == Asset then -p.emitAssetE8 else p.impLossProtectionE8 - p.emitRuneE8)
    + If(q == Asset && pool == p.pool == p.asset.name && m.height < r.withdrawCoinKept, p.assetE8)
  }

  function WithdrawDelta(r: Rules, m: Meta, p: Payload, d: Depths, q: Quantity, pool: string): int
    requires p.Withdraw?
  {
    var pooled := r.withdrawCoinPooled <= m.height && p.chain == p.poolChain
                  && (Paid(r, m, p, d, p.asset.name, Asset) > 0 || Paid(r, m, p, d, p.asset.name, Rune) > 0);
    match q
    case Asset =>
      If(pool == p.pool, -p.emitAssetE8)
      + If(m.height < r.withdrawCoinKept && pool == p.pool == p.asset.name, p.assetE8)
      + If(pooled && pool == p.asset.name, p.assetE8)
    case Rune => If(pool == p.pool, p.impLossProtectionE8 - p.emitRuneE8)
    case Synth => 0
  }

  /** The change of one quantity of one pool by one event, as one number. */
  function Delta(r: Rules, m: Meta, p: Payload, d: Depths, q: Quantity, pool: string): int {
    match p
    case Donate(coin, memo, assetE8, runeE8) =>
      If(q == Asset && pool == coin.name, assetE8) + If(q == Rune && pool == coin.name, runeE8)
      + If(q == Synth && pool == coin.synthPool && coin.kind == AssetSynth && memo == "THOR-SAVERS-YIELD", assetE8)
    case Errata(asset, assetE8, runeE8) => If(pool == asset.name, Pick(q, assetE8, runeE8))
    case Fee(asset, assetE8, poolDeduct) =>
      If(asset.kind != Switch && pool == asset.native,
         match q
         case Asset => If(asset.kind == AssetNative, assetE8)
         case Rune => -poolDeduct
         case Synth => If(asset.kind == AssetSynth, -assetE8))
    case Gas(asset, assetE8, runeE8) => If(pool == asset.name, Pick(q, -assetE8, runeE8))
    case PoolStatus(asset, suspended) => If(suspended && pool == asset.name, -d.At(q, pool))
    case Rewards(perPool) => If(q == Rune, RewardOf(perPool, pool))
    case Slash(slashed, amounts) =>
      If(pool == slashed, SlashDelta(amounts, q))
    case Stake(staked, assetE8, runeE8) => If(pool == staked, Pick(q, assetE8, runeE8))
    case Swap(_, _, _, _, _, _) => If(pool == p.pool && Swappable(p.from.kind, p.to.kind), SwapDelta(r, m, p, q))
    case Withdraw(_, _, _, _, _, _, _, _) => WithdrawDelta(r, m, p, d, q, pool)
    case PoolBalanceChange(asset, runeAmt, runeAdd, assetAmt, assetAdd) =>
      If(pool == asset.name,
         Pick(q, if assetAdd then assetAmt else -assetAmt, if runeAdd then runeAmt else -runeAmt))
    case MintBurn(asset, assetE8, supply, reason) =>
      If(q == Synth && pool == asset.synthPool && asset.kind == AssetSynth && supply == "burn"
         && reason == "failed_refund", -assetE8)
    case AccountDeposit(_, asset, amtE8) =>
      If(q == Asset && pool == asset.native && m.eventId.location == EndBlockEvents, -amtE8)
    case AccountWithdraw(_, asset, amtE8) =>
      If(q == Asset && pool == asset.native && m.eventId.location == EndBlockEvents, amtE8)
    case Coinbase(asset, assetE8) => If(q == Synth && pool == asset.synthPool, assetE8)
    case Burn(asset, assetE8) => If(q == Synth && pool == asset.synthPool, -assetE8)
    case AffiliateFee(_, _) => 0
    case Other(_) => 0
    case Skipped => 0
  }

  function One(table: TableName, m: Meta, v: EventValues): seq<Row<Values>> {
    [RowWithMeta(table, m, v)]
  }

  function RewardRows(m: Meta, perPool: seq<(string, int)>): seq<Row<Values>> {
    seq(|perPool|, i requires 0 <= i < |perPool| =>
      RowWithMeta(REWARDS_EVENT_ENTRIES, m, RewardEntry(perPool[i].0, perPool[i].1, 0)))
  }

  function SlashRows(m: Meta, pool: string, amounts: seq<(Coin, int)>): seq<Row<Values>> {
    seq(|amounts|, i requires 0 <= i < |amounts| =>
      RowWithMeta(SLASH_EVENTS, m, SlashEntry(pool, amounts[i].0, amounts[i].1)))
  }

  /** The rows of an event that meets the depths `d`. */
  function RowsOf(r: Rules, m: Meta, p: Payload, d: Depths): seq<Row<Values>> {
    match p
    case Donate(coin, memo, assetE8, _) =>
      if coin.kind == AssetSynth && memo == "THOR-SAVERS-YIELD" then
        One(REWARDS_EVENT_ENTRIES, m, RewardEntry(coin.synthPool, 0, assetE8))
      else One(ADD_EVENTS, m, Whole(p))
    case Errata(_, _, _) => One(ERRATA_EVENTS, m, Whole(p))
    case Fee(_, _, _) => One(FEE_EVENTS, m, Whole(p))
    case Gas(_, _, _) => One(GAS_EVENTS, m, Whole(p))
    case PoolStatus(_, _) => One(POOL_EVENTS, m, Whole(p))
    case Rewards(perPool) => One(REWARDS_EVENTS, m, Whole(p)) + RewardRows(m, perPool)
    case Slash(pool, amounts) => SlashRows(m, pool, amounts)
    // A stake shows the depths after it, a withdrawal those before.
    case Stake(pool, _, _) =>
      One(STAKE_EVENTS, m, Priced(p, d.At(Asset, pool) + Delta(r, m, p, d, Asset, pool),
                                    d.At(Rune, pool) + Delta(r, m, p, d, Rune, pool)))
    case Swap(pool, from, to, _, _, fee) =>
      if !Swappable(from.kind, to.kind) then []
      else if m.height < r.undelayedLiquidityFees || pool == "THOR.TCY" then One(SWAP_EVENTS, m, Whole(p))
      else One(SWAP_EVENTS, m, Whole(p)) + One(REWARDS_EVENT_ENTRIES, m, RewardEntry(pool, -fee, 0))
    case Withdraw(pool, _, _, _, _, _, _, _) =>
      One(WITHDRAW_EVENTS, m, Priced(p, d.At(Asset, pool), d.At(Rune, pool)))
    case PoolBalanceChange(_, _, _, _, _) => One(POOL_BALANCE_CHANGE_EVENTS, m, Whole(p))
    case MintBurn(_, _, _, _) => One(MINT_BURN_EVENTS, m, Whole(p))
    case AccountDeposit(table, _, _) => One(table, m, Whole(p))
    case AccountWithdraw(table, _, _) => One(table, m, Whole(p))
    case Coinbase(_, _) => []
    case Burn(_, _) => []
    case AffiliateFee(asset, _) =>
      (if asset.name == "THOR.RUNE" then One(OUTBOUND_EVENTS, m, Whole(p)) else [])
      + One(AFFILIATE_FEE_EVENTS, m, Priced(p, d.At(Asset, asset.name), d.At(Rune, asset.name)))
    case Other(table) => One(table, m, Whole(p))
    case Skipped => []
  }

  /** What an event means: its rows, and one signed amount for each quantity of each pool. */
  ghost predicate Means(r: Rules, m: Meta, p: Payload, before: Ledger, after: Ledger) {
    && after.rows == before.rows + RowsOf(r, m, p, before.depths)
    && forall q, pool: string ::
         after.depths.At(q, pool) == before.depths.At(q, pool) + Delta(r, m, p, before.depths, q, pool)
  }

  /** Single steps, in quantified form. */
  lemma StepsAt(q: Quantity, pool: string)
    ensures forall l: Ledger, q', pool', e8 {:trigger l.Add(q', pool', e8)} ::
              l.Add(q', pool', e8).depths.At(q, pool) == l.depths.At(q, pool) + If(q' == q && pool' == pool, e8)
    ensures forall l: Ledger, c, q', pool', e8 {:trigger l.AddIf(c, q', pool', e8)} ::
              l.AddIf(c, q', pool', e8).depths.At(q, pool)
                == l.depths.At(q, pool) + If(c && q' == q && pool' == pool, e8)
    ensures forall l: Ledger, table, m, v {:trigger l.Write(table, m, v)} :: l.Write(table, m, v).depths == l.depths
  {
    forall l: Ledger, q', pool', e8
      ensures l.Add(q', pool', e8).depths.At(q, pool) == l.depths.At(q, pool) + If(q' == q && pool' == pool, e8)
    {
      AddAt(l, q', pool', e8, q, pool);
    }
  }

  lemma AddAt(l: Ledger, q': Quantity, pool': string, e8: int, q: Quantity, pool: string)
    ensures l.Add(q', pool', e8).depths.At(q, pool) == l.depths.At(q, pool) + If(q' == q && pool' == pool, e8)
  {
  }

  lemma {:induction false} RewardsAt(perPool: seq<(string, int)>, m: Meta, l: Ledger, q: Quantity, pool: string)
    ensures AddRewards(perPool, l).depths.At(q, pool) == l.depths.At(q, pool) + If(q == Rune, RewardOf(perPool, pool))
    ensures WriteRewards(m, perPool, l).depths == l.depths
  {
    if perPool != [] {
      RewardsAt(perPool[..|perPool| - 1], m, l, q, pool);
      StepsAt(q, pool);
      hide Ledger.Add, Ledger.Write;
    }
  }

  lemma {:induction false} SlashesAt(amounts: seq<(Coin, int)>, m: Meta, slashed: string, l: Ledger, q: Quantity,
                                     pool: string)
    ensures RecordSlashes(m, slashed, amounts, l).depths.At(q, pool)
            == l.depths.At(q, pool)
               + If(pool == slashed, SlashDelta(amounts, q))
  {
    if amounts != [] {
      SlashesAt(amounts[..|amounts| - 1], m, slashed, l, q, pool);
      StepsAt(q, pool);
      hide Ledger.AddIf, Ledger.Write;
    }
  }

  lemma SwapFeeAt(r: Rules, m: Meta, p: Payload, l: Ledger, q: Quantity, pool: string)
    requires p.Swap?
    ensures ChargeSwapFee(r, m, p, l).depths.At(q, pool)
            == l.depths.At(q, pool) - If(q == Rune && pool == p.pool && r.undelayedLiquidityFees <= m.height,
                                         p.liqFeeInRuneE8)
  {
    StepsAt(q, pool);
    hide Ledger.Add, Ledger.AddIf, Ledger.Write, Depths.At;
  }

  lemma SwapMoveAt(p: Payload, l: Ledger, q: Quantity, pool: string)
    requires p.Swap? && Swappable(p.from.kind, p.to.kind)
    ensures MoveSwapDepths(p, l).depths.At(q, pool)
            == l.depths.At(q, pool)
               + If(pool == p.pool,
                    match q
                    case Rune => if p.from.kind == Switch then p.fromE8 else -p.toE8
                    case Asset => If(p.from.kind == AssetNative, p.fromE8) - If(p.to.kind == AssetNative, p.toE8)
                    case Synth => If(p.to.kind == AssetSynth, p.toE8) - If(p.from.kind == AssetSynth, p.fromE8))
  {
    StepsAt(q, pool);
    hide Ledger.Add, Ledger.AddIf, Depths.At;
  }

  lemma SwapAt(r: Rules, m: Meta, p: Payload, l: Ledger, q: Quantity, pool: string)
    requires p.Swap?
    ensures RecordSwap(r, m, p, l).depths.At(q, pool) == l.depths.At(q, pool) + Delta(r, m, p, l.depths, q, pool)
  {
    if Swappable(p.from.kind, p.to.kind) {
      var written := l.Write(SWAP_EVENTS, m, Whole(p));
      SwapFeeAt(r, m, p, written, q, pool);
      SwapMoveAt(p, ChargeSwapFee(r, m, p, written), q, pool);
      hide ChargeSwapFee, MoveSwapDepths, Swappable;
    }
  }

  /** A swap is recorded exactly when one side is RUNE and the other another known asset. */
  lemma SwapsInvolveRune(r: Rules, m: Meta, p: Payload, l: Ledger)
    requires p.Swap?
    ensures var recorded := (p.from.kind == Switch) != (p.to.kind == Switch)
                            && p.from.kind != UnknownCoin && p.to.kind != UnknownCoin;
            if recorded then |l.rows| < |Record(r, m, p, l).rows| else Record(r, m, p, l) == l
  {
    RecordWrites(r, m, p, l);
    hide Ledger.Add, Ledger.AddIf, RowWithMeta;
  }

  lemma PayOutAt(p: Payload, l: Ledger, q: Quantity, pool: string)
    requires p.Withdraw?
    ensures PayOut(p, l).depths.At(q, pool)
            == l.depths.At(q, pool)
               + If(pool == p.pool, Pick(q, -p.emitAssetE8, p.impLossProtectionE8 - p.emitRuneE8))
  {
    StepsAt(q, pool);
    hide Ledger.Add, Depths.At;
  }

  lemma KeepCoinAt(r: Rules, m: Meta, p: Payload, l: Ledger, q: Quantity, pool: string)
    requires p.Withdraw?
    ensures var kept := If(m.height < r.withdrawCoinKept && p.pool == p.asset.name, p.assetE8);
            var pooled := r.withdrawCoinPooled <= m.height && p.chain == p.poolChain
                          && (l.depths.At(Asset, p.asset.name) + kept > 0 || l.depths.At(Rune, p.asset.name) > 0);
            KeepCoin(r, m, p, l).depths.At(q, pool)
            == l.depths.At(q, pool) + If(q == Asset && pool == p.asset.name, kept + If(pooled, p.assetE8))
  {
    StepsAt(q, pool);
    StepsAt(Asset, p.asset.name);
    StepsAt(Rune, p.asset.name);
    hide Ledger.Add, Ledger.AddIf, Depths.At;
  }

  lemma WithdrawAt(r: Rules, m: Meta, p: Payload, l: Ledger, q: Quantity, pool: string)
    requires p.Withdraw?
    ensures RecordWithdraw(r, m, p, l).depths.At(q, pool) == l.depths.At(q, pool) + Delta(r, m, p, l.depths, q, pool)
  {
    var row := Priced(p, l.depths.At(Asset, p.pool), l.depths.At(Rune, p.pool));
    var written := l.Write(WITHDRAW_EVENTS, m, row);
    PayOutAt(p, written, q, pool);
    PayOutAt(p, written, Asset, p.asset.name);
    PayOutAt(p, written, Rune, p.asset.name);
    KeepCoinAt(r, m, p, PayOut(p, written), q, pool);
    hide PayOut, KeepCoin, Depths.At;
  }

  lemma SuspensionAt(d: Depths, suspended: string, q: Quantity, pool: string)
    ensures Apply(d, Suspend(suspended)).At(q, pool) == if pool == suspended then 0 else d.At(q, pool)
  {
  }

  /** Recording an event changes each quantity of each pool by its delta, and nothing else. */
  lemma RecordIsDelta(r: Rules, m: Meta, p: Payload, l: Ledger, q: Quantity, pool: string)
    ensures Record(r, m, p, l).depths.At(q, pool) == l.depths.At(q, pool) + Delta(r, m, p, l.depths, q, pool)
  {
    match p
    case Swap(_, _, _, _, _, _) => SwapAt(r, m, p, l, q, pool);
    case Withdraw(_, _, _, _, _, _, _, _) => WithdrawAt(r, m, p, l, q, pool);
    case Rewards(perPool) =>
      var written := l.Write(REWARDS_EVENTS, m, Whole(p));
      RewardsAt(perPool, m, written, q, pool);
      RewardsAt(perPool, m, WriteRewards(m, perPool, written), q, pool);
    case Slash(slashed, amounts) => SlashesAt(amounts, m, slashed, l, q, pool);
    case PoolStatus(asset, suspended) => SuspensionAt(l.depths, asset.name, q, pool);
    case _ => SimpleAt(r, m, p, l, q, pool);
  }

  lemma SimpleAt(r: Rules, m: Meta, p: Payload, l: Ledger, q: Quantity, pool: string)
    requires !p.Swap? && !p.Withdraw? && !p.Rewards? && !p.Slash? && !p.PoolStatus?
    ensures Record(r, m, p, l).depths.At(q, pool) == l.depths.At(q, pool) + Delta(r, m, p, l.depths, q, pool)
  {
    if p.Donate? {
      DonateAt(r, m, p, l, q, pool);
    } else if p.Errata? || p.Gas? || p.Stake? {
      MoneyAt(r, m, p, l, q, pool);
    } else if p.Fee? || p.PoolBalanceChange? {
      ChangeAt(r, m, p, l, q, pool);
    } else {
      AccountAt(r, m, p, l, q, pool);
    }
  }

  lemma DonateAt(r: Rules, m: Meta, p: Payload, l: Ledger, q: Quantity, pool: string)
    requires p.Donate?
    ensures Record(r, m, p, l).depths.At(q, pool) == l.depths.At(q, pool) + Delta(r, m, p, l.depths, q, pool)
  {
    StepsAt(q, pool);
    hide Ledger.Add, Ledger.Write, Depths.At;
  }

  lemma MoneyAt(r: Rules, m: Meta, p: Payload, l: Ledger, q: Quantity, pool: string)
    requires p.Errata? || p.Gas? || p.Stake?
    ensures Record(r, m, p, l).depths.At(q, pool) == l.depths.At(q, pool) + Delta(r, m, p, l.depths, q, pool)
  {
    StepsAt(q, pool);
    hide Ledger.Add, Ledger.Write, Depths.At;
  }

  lemma ChangeAt(r: Rules, m: Meta, p: Payload, l: Ledger, q: Quantity, pool: string)
    requires p.Fee? || p.PoolBalanceChange?
    ensures Record(r, m, p, l).depths.At(q, pool) == l.depths.At(q, pool) + Delta(r, m, p, l.depths, q, pool)
  {
    StepsAt(q, pool);
    hide Ledger.Add, Ledger.AddIf, Ledger.Write, Depths.At;
  }

  lemma AccountAt(r: Rules, m: Meta, p: Payload, l: Ledger, q: Quantity, pool: string)
    requires p.MintBurn? || p.AccountDeposit? || p.AccountWithdraw? || p.Coinbase? || p.Burn?
             || p.AffiliateFee? || p.Other? || p.Skipped?
    ensures Record(r, m, p, l).depths.At(q, pool) == l.depths.At(q, pool) + Delta(r, m, p, l.depths, q, pool)
  {
    StepsAt(q, pool);
    hide Ledger.Add, Ledger.AddIf, Ledger.Write, Depths.At;
  }

  lemma {:induction false} RewardsWrite(perPool: seq<(string, int)>, m: Meta, l: Ledger)
    ensures WriteRewards(m, perPool, l).rows == l.rows + RewardRows(m, perPool)
    ensures AddRewards(perPool, l).rows == l.rows
  {
    if perPool != [] {
      var front, last := perPool[..|perPool| - 1], perPool[|perPool| - 1];
      RewardsWrite(front, m, l);
      assert RewardRows(m, perPool)
             == RewardRows(m, front) + One(REWARDS_EVENT_ENTRIES, m, RewardEntry(last.0, last.1, 0));
      hide RewardRows, RowWithMeta, Apply;
    }
  }

  lemma {:induction false} SlashesWrite(amounts: seq<(Coin, int)>, m: Meta, pool: string, l: Ledger)
    ensures RecordSlashes(m, pool, amounts, l).rows == l.rows + SlashRows(m, pool, amounts)
  {
    if amounts != [] {
      var front, last := amounts[..|amounts| - 1], amounts[|amounts| - 1];
      SlashesWrite(front, m, pool, l);
      assert SlashRows(m, pool, amounts)
             == SlashRows(m, pool, front) + One(SLASH_EVENTS, m, SlashEntry(pool, last.0, last.1));
      hide SlashRows, RowWithMeta, Apply;
    }
  }

  lemma RecordWrites(r: Rules, m: Meta, p: Payload, l: Ledger)
    ensures Record(r, m, p, l).rows == l.rows + RowsOf(r, m, p, l.depths)
  {
    hide RowWithMeta, Apply, Depths.At;
    match p
    case Rewards(perPool) =>
      var written := l.Write(REWARDS_EVENTS, m, Whole(p));
      RewardsWrite(perPool, m, written);
      RewardsWrite(perPool, m, WriteRewards(m, perPool, written));
    case Slash(pool, amounts) => SlashesWrite(amounts, m, pool, l);
    case _ =>
  }

  /** Recording an event means what `RowsOf` and `Delta` say, whatever the ledger holds. */
  lemma RecordMeans(r: Rules, m: Meta, p: Payload, l: Ledger)
    ensures Means(r, m, p, l, Record(r, m, p, l))
  {
    RecordWrites(r, m, p, l);
    forall q, pool: string
      ensures Record(r, m, p, l).depths.At(q, pool) == l.depths.At(q, pool) + Delta(r, m, p, l.depths, q, pool)
    {
      RecordIsDelta(r, m, p, l, q, pool);
    }
    hide Record, Delta, RowsOf;
  }

  // ---- Events that undo each other ----

  function Reverse(p: Payload): Payload
    requires p.Swap?
  {
    p.(from := p.to, to := p.from, fromE8 := p.toE8, toE8 := p.fromE8)
  }

  /** Swapping back the same amounts restores every depth but for the fees. */
  lemma SwapBack(r: Rules, m: Meta, m': Meta, p: Payload, l: Ledger, q: Quantity, pool: string)
    requires p.Swap?
    ensures Record(r, m', Reverse(p), Record(r, m, p, l)).depths.At(q, pool)
            == l.depths.At(q, pool)
               - If(q == Rune && pool == p.pool && Swappable(p.from.kind, p.to.kind),
                    If(r.undelayedLiquidityFees <= m.height, p.liqFeeInRuneE8)
                      + If(r.undelayedLiquidityFees <= m'.height, p.liqFeeInRuneE8))
  {
    SwapAt(r, m, p, l, q, pool);
    SwapAt(r, m', Reverse(p), RecordSwap(r, m, p, l), q, pool);
    hide RecordSwap;
  }

  /** Withdrawing what was staked, without coin or protection, restores every depth. */
  lemma WithdrawWhatWasStaked(r: Rules, m: Meta, m': Meta, s: Payload, w: Payload, l: Ledger, q: Quantity, pool: string)
    requires s.Stake? && w.Withdraw? && w.pool == s.pool && w.emitAssetE8 == s.assetE8 && w.emitRuneE8 == s.runeE8
    requires w.assetE8 == 0 && w.impLossProtectionE8 == 0
    ensures Record(r, m', w, Record(r, m, s, l)).depths.At(q, pool) == l.depths.At(q, pool)
  {
    RecordIsDelta(r, m, s, l, q, pool);
    RecordIsDelta(r, m', w, Record(r, m, s, l), q, pool);
    hide Record;
  }
}
