/** What every run of the money market keeps. */
module MarketSafety {
  import opened Common
  import opened Token
  import opened MoneyMarket

  // ---- accrual ----

  /** Within range no cast or product wraps, and interest only ever adds. */
  lemma AccrualAdds(m: Market, now: u64)
    requires BorrowsInRange(m, now)
    ensures AccrueMarket(m, now).totalBorrows >= m.totalBorrows
    ensures InterestDue(m, now) ==>
              AccrueMarket(m, now).totalBorrows == MulDiv(m.totalBorrows, GrowthNum(m, now), RATE_DEN)
    ensures InterestDue(m, now) && IndexInRange(m, now) ==>
              && AccrueMarket(m, now).borrowIndex == MulDiv(m.borrowIndex, GrowthNum(m, now), RATE_DEN)
              && AccrueMarket(m, now).borrowIndex >= m.borrowIndex
  {
    if InterestDue(m, now) {
      var g := GrowthNum(m, now);
      var grown := m.totalBorrows * g;
      FloorBounds(grown, RATE_DEN);
      MulMono(1, m.totalBorrows, g);
      assert grown < U128_SPAN;
      assert g < U128_SPAN;
      MulMono(RATE_DEN, g, m.totalBorrows);
      FloorIsGreatest(grown, RATE_DEN, m.totalBorrows);
      MulMono(RATE_DEN, g, m.borrowIndex);
      FloorIsGreatest(m.borrowIndex * g, RATE_DEN, m.borrowIndex);
    }
  }

  /** Accrued borrows are the grown ones exactly when those still fit 64 bits. */
  lemma AccrualExactIff(m: Market, now: u64)
    requires InterestDue(m, now)
    ensures AccrueMarket(m, now).totalBorrows == MulDiv(m.totalBorrows, GrowthNum(m, now), RATE_DEN)
            <==> BorrowsInRange(m, now)
  {
    if BorrowsInRange(m, now) {
      AccrualAdds(m, now);
    }
  }

  /** 2^63 of borrows doubled over a year wrap to nothing, and the share price with them. */
  lemma AccrualWraps(m: Market)
    requires m.totalBorrows == 0x8000_0000_0000_0000 && m.totalCash == 0 && m.totalLenderShares == 1
    requires m.params.baseRateBps == 10_000 && m.params.slopeBps == 0 && m.params.jumpSlopeBps == 0
    requires m.lastAccrualTs == 0
    ensures Backed(m)
    ensures AccrueMarket(m, SECONDS_PER_YEAR).totalBorrows == 0
    ensures !PriceLe(m, AccrueMarket(m, SECONDS_PER_YEAR))
  {
    assert BorrowRateBps(m) == 10_000;
    assert GrowthNum(m, SECONDS_PER_YEAR) == 2 * RATE_DEN;
  }

  /** `a` differs from `m` at most in the clock, the index and the borrows. */
  predicate AccruedFrom(m: Market, a: Market) {
    a == m.(lastAccrualTs := a.lastAccrualTs, borrowIndex := a.borrowIndex, totalBorrows := a.totalBorrows)
  }

  lemma AccrualFrame(m: Market, now: u64)
    ensures AccruedFrom(m, AccrueMarket(m, now))
  {
  }

  // ---- lender share price ----

  predicate Backed(m: Market) {
    m.totalLenderShares <= PoolValue(m)
  }

  /** Pool value per share in `a` is at most that in `b`. */
  ghost predicate PriceLe(a: Market, b: Market) {
    FractionLe(PoolValue(a), a.totalLenderShares, PoolValue(b), b.totalLenderShares)
  }

  /** In a backed market a deposit's floor is exact and never dilutes. */
  lemma MintRoundsDown(m: Market, amount: u64)
    requires Backed(m) && m.totalLenderShares > 0
    ensures SharesForDeposit(m, amount) == MulDiv(amount, m.totalLenderShares, PoolValue(m))
    ensures SharesForDeposit(m, amount) <= amount
    ensures SharesForDeposit(m, amount) * PoolValue(m) <= amount * m.totalLenderShares
    ensures amount * m.totalLenderShares < (SharesForDeposit(m, amount) + 1) * PoolValue(m)
  {
    var p, s := PoolValue(m), m.totalLenderShares;
    MulMono(s, p, amount);
    FloorBounds(amount * s, p);
    FloorAtMost(amount * s, p, amount);
    assert (amount * s / p + 1) * p == amount * s / p * p + p;
  }

  /** In a backed market a withdrawal's ceiling is exact and never underburns. */
  lemma BurnRoundsUp(m: Market, amount: u64)
    requires Backed(m) && PoolValue(m) > 0
    ensures SharesForWithdraw(m, amount) == CeilDiv(amount * m.totalLenderShares, PoolValue(m))
    ensures SharesForWithdraw(m, amount) <= amount
    ensures amount * m.totalLenderShares <= SharesForWithdraw(m, amount) * PoolValue(m)
    ensures SharesForWithdraw(m, amount) * PoolValue(m) < amount * m.totalLenderShares + PoolValue(m)
    ensures amount <= PoolValue(m) ==> SharesForWithdraw(m, amount) <= m.totalLenderShares
  {
    var p, s := PoolValue(m), m.totalLenderShares;
    MulMono(s, p, amount);
    CeilBounds(amount * s, p);
    CeilIsLeast(amount * s, p, amount);
    if amount <= p {
      MulMono(amount, p, s);
      CeilIsLeast(amount * s, p, s);
    }
  }

  /** A holding is priced exactly as long as its share of the pool fits 64 bits. */
  lemma ShareValueExactIff(m: Market, shares: u64)
    requires m.totalLenderShares > 0
    ensures LenderShareValue(m, shares) == MulDiv(shares, PoolValue(m), m.totalLenderShares)
            <==> shares * PoolValue(m) < U64_SPAN * m.totalLenderShares
  {
    var x, s := shares * PoolValue(m), m.totalLenderShares;
    if x < U64_SPAN * s {
      FloorAtMost(x, s, U64_SPAN - 1);
    } else {
      FloorIsGreatest(x, s, U64_SPAN);
    }
  }

  /** Such a holding, no larger than the total, is worth at most the pool. */
  lemma ShareValueExact(m: Market, shares: u64)
    requires 0 < m.totalLenderShares && shares <= m.totalLenderShares
    requires shares * PoolValue(m) < U64_SPAN * m.totalLenderShares
    ensures LenderShareValue(m, shares) == MulDiv(shares, PoolValue(m), m.totalLenderShares)
    ensures LenderShareValue(m, shares) <= PoolValue(m)
  {
    ShareValueExactIff(m, shares);
    MulMono(shares, m.totalLenderShares, PoolValue(m));
    FloorAtMost(shares * PoolValue(m), m.totalLenderShares, PoolValue(m));
  }

  /** Cash plus borrows can pass 2^64, and then the cast loses the high bits. */
  lemma ShareValueTruncates(m: Market)
    requires m.totalCash == U64_MAX && m.totalBorrows == 1 && m.totalLenderShares == 1
    ensures LenderShareValue(m, 1) == 0
  {
  }

  lemma MintKeepsPrice(p: nat, s: nat, amount: nat, minted: nat)
    requires minted * p <= amount * s
    ensures FractionLe(p, s, p + amount, s + minted)
  {
    assert p * (s + minted) == p * s + minted * p;
    assert (p + amount) * s == p * s + amount * s;
  }

  lemma BurnKeepsPrice(p: nat, s: nat, amount: nat, burned: nat)
    requires amount <= p && burned <= s && amount * s <= burned * p
    ensures FractionLe(p, s, p - amount, s - burned)
  {
    assert p * (s - burned) == p * s - burned * p;
    assert (p - amount) * s == p * s - amount * s;
  }

  /** With the shares fixed, a larger pool is a larger price. */
  lemma PoolGrowthKeepsPrice(p: nat, q: nat, s: nat)
    requires p <= q
    ensures FractionLe(p, s, q, s)
  {
    MulMono(p, q, s);
  }

  predicate AccrualInRange(l: Ledger, c: Call) {
    BorrowsInRange(l.market, c.now)
  }

  /** Accrual that only adds: what in-range accrual does to a market. */
  predicate Grown(m: Market, a: Market) {
    AccruedFrom(m, a) && m.totalBorrows <= a.totalBorrows
  }

  lemma AddLiquidityPrice(l: Ledger, m: Market, c: Call, key: Pubkey, amount: u64)
    requires Backed(l.market) && Grown(l.market, m)
    requires ApplyAddLiquidity(l, m, c, key, amount).Ok?
    ensures var m' := ApplyAddLiquidity(l, m, c, key, amount).value.market;
            Backed(m') && (l.market.totalLenderShares > 0 ==> PriceLe(l.market, m'))
  {
    if m.totalLenderShares > 0 {
      MintRoundsDown(m, amount);
      var minted := SharesForDeposit(m, amount);
      PoolGrowthKeepsPrice(PoolValue(l.market), PoolValue(m), m.totalLenderShares);
      MintKeepsPrice(PoolValue(m), m.totalLenderShares, amount, minted);
      FractionLeTrans(PoolValue(l.market), l.market.totalLenderShares, PoolValue(m), m.totalLenderShares,
                      PoolValue(m) + amount, m.totalLenderShares + minted);
    }
  }

  lemma RemoveLiquidityPrice(l: Ledger, m: Market, c: Call, key: Pubkey, amount: u64)
    requires Backed(l.market) && Grown(l.market, m)
    requires ApplyRemoveLiquidity(l, m, c, key, amount).Ok?
    ensures var m' := ApplyRemoveLiquidity(l, m, c, key, amount).value.market;
            Backed(m') && (l.market.totalLenderShares > 0 ==> PriceLe(l.market, m'))
  {
    var p, s := PoolValue(m), m.totalLenderShares;
    BurnRoundsUp(m, amount);
    var burned := SharesForWithdraw(m, amount);
    BurnKeepsPrice(p, s, amount, burned);
    PoolGrowthKeepsPrice(PoolValue(l.market), p, s);
    if s > 0 {
      FractionLeTrans(PoolValue(l.market), s, p, s, p - amount, s - burned);
    }
    BurnKeepsBacking(p, s, amount, burned);
  }

  lemma BurnKeepsBacking(p: nat, s: nat, amount: nat, burned: nat)
    requires s <= p && 0 < p && amount <= p && burned <= s && amount * s <= burned * p
    ensures s - burned <= p - amount
  {
    BurnKeepsPrice(p, s, amount, burned);
    MulMono(s, p, p - amount);
    assert p * (s - burned) <= (p - amount) * p;
    CancelLe(s - burned, p - amount, p);
  }

  lemma ApplyKeepsPrice(l: Ledger, m: Market, c: Call)
    requires Backed(l.market) && Grown(l.market, m) && ApplyAt(l, m, c).Ok?
    ensures var m' := ApplyAt(l, m, c).value.market;
            Backed(m') && (l.market.totalLenderShares > 0 ==> PriceLe(l.market, m'))
  {
    match c.op
    case AddLiquidity(key, amount) => AddLiquidityPrice(l, m, c, key, amount);
    case RemoveLiquidity(key, amount) => RemoveLiquidityPrice(l, m, c, key, amount);
    case _ =>
      var m' := ApplyAt(l, m, c).value.market;
      PoolGrowthKeepsPrice(PoolValue(l.market), PoolValue(m'), l.market.totalLenderShares);
  }

  /** No instruction lowers the pool value per outstanding share. */
  lemma StepKeepsPrice(l: Ledger, c: Call)
    requires Backed(l.market) && AccrualInRange(l, c)
    ensures Backed(Step(l, c).market)
    ensures l.market.totalLenderShares > 0 ==> PriceLe(l.market, Step(l, c).market)
  {
    AccrualAdds(l.market, c.now);
    AccrualFrame(l.market, c.now);
    if Apply(l, c).Ok? {
      ApplyKeepsPrice(l, AccrueMarket(l.market, c.now), c);
    }
  }

  /** Every accrual met by the run stays within the machine's range. */
  ghost predicate RunInRange(l: Ledger, calls: seq<Call>)
    decreases |calls|
  {
    calls != [] ==> AccrualInRange(l, calls[0]) && RunInRange(Step(l, calls[0]), calls[1..])
  }

  /** Lender shares exist in every state the run passes through, the last excepted. */
  ghost predicate SharesOutstanding(l: Ledger, calls: seq<Call>)
    decreases |calls|
  {
    calls != [] ==> l.market.totalLenderShares > 0 && SharesOutstanding(Step(l, calls[0]), calls[1..])
  }

  /** Pool value covers the shares over every run from a fresh market. */
  lemma {:induction false} RunKeepsBacking(l: Ledger, calls: seq<Call>)
    requires Backed(l.market) && RunInRange(l, calls)
    ensures Backed(Run(l, calls).market)
    decreases |calls|
  {
    if calls != [] {
      StepKeepsPrice(l, calls[0]);
      RunKeepsBacking(Step(l, calls[0]), calls[1..]);
    }
  }

  /** Over any run, while shares are outstanding, the share price never falls. */
  lemma {:induction false} SharePriceNeverFalls(l: Ledger, calls: seq<Call>)
    requires Backed(l.market) && RunInRange(l, calls) && SharesOutstanding(l, calls)
    ensures PriceLe(l.market, Run(l, calls).market)
    decreases |calls|
  {
    if calls != [] {
      var next := Step(l, calls[0]);
      StepKeepsPrice(l, calls[0]);
      SharePriceNeverFalls(next, calls[1..]);
      if |calls| > 1 {
        var a, b, z := l.market, next.market, Run(l, calls).market;
        FractionLeTrans(PoolValue(a), a.totalLenderShares, PoolValue(b), b.totalLenderShares,
                        PoolValue(z), z.totalLenderShares);
      }
    }
  }

  /** In every reachable market the minting and burning casts lose nothing. */
  lemma ConversionsNeverTruncate(m0: Market, calls: seq<Call>, amount: u64)
    requires exists p, price, now :: InitMarket(true, p, price, now) == Ok(m0)
    requires RunInRange(Fresh(m0), calls)
    ensures var m := Run(Fresh(m0), calls).market;
            && (m.totalLenderShares > 0 && PoolValue(m) > 0 ==>
                  SharesForDeposit(m, amount) == MulDiv(amount, m.totalLenderShares, PoolValue(m)))
            && (PoolValue(m) > 0 ==>
                  SharesForWithdraw(m, amount) == CeilDiv(amount * m.totalLenderShares, PoolValue(m)))
  {
    RunKeepsBacking(Fresh(m0), calls);
    var m := Run(Fresh(m0), calls).market;
    if m.totalLenderShares > 0 {
      MintRoundsDown(m, amount);
    }
    if PoolValue(m) > 0 {
      BurnRoundsUp(m, amount);
    }
  }

  // ---- accounting ----

  function SharesOf(lender: Lender): nat {
    lender.shares
  }

  function CollateralOf(pos: Position): nat {
    pos.collateral
  }

  ghost predicate Balanced(l: Ledger) {
    && l.market.totalLenderShares == SumBy(l.lenders, SharesOf)
    && l.market.totalCollateral == SumBy(l.positions, CollateralOf)
  }

  lemma LenderUpdate(l: Ledger, key: Pubkey, lender: Lender)
    ensures SumBy(l.lenders[key := lender], SharesOf)
            == SumBy(l.lenders, SharesOf) + lender.shares
               - (if key in l.lenders then l.lenders[key].shares else 0)
  {
    SumUpdate(l.lenders, SharesOf, key, lender);
  }

  lemma PositionUpdate(l: Ledger, key: Pubkey, pos: Position)
    ensures SumBy(l.positions[key := pos], CollateralOf)
            == SumBy(l.positions, CollateralOf) + pos.collateral
               - (if key in l.positions then l.positions[key].collateral else 0)
    ensures key in l.positions ==> l.positions[key].collateral <= SumBy(l.positions, CollateralOf)
  {
    SumUpdate(l.positions, CollateralOf, key, pos);
    if key in l.positions {
      SumBounds(l.positions, CollateralOf, key);
    }
  }

  /** `l'` is balanced and moved each vault with the matching total. */
  ghost predicate AccountedFor(l: Ledger, l': Ledger) {
    && Balanced(l')
    && l'.borrowVault - l'.market.totalCash == l.borrowVault - l.market.totalCash
    && l'.collateralVault - l'.market.totalCollateral == l.collateralVault - l.market.totalCollateral
  }

  lemma AddLiquidityAccounted(l: Ledger, m: Market, c: Call, key: Pubkey, amount: u64)
    requires Balanced(l) && AccruedFrom(l.market, m)
    requires ApplyAddLiquidity(l, m, c, key, amount).Ok?
    ensures AccountedFor(l, ApplyAddLiquidity(l, m, c, key, amount).value)
  {
    hide SharesForDeposit, SumBy;
    LenderUpdate(l, key, ApplyAddLiquidity(l, m, c, key, amount).value.lenders[key]);
  }

  lemma RemoveLiquidityAccounted(l: Ledger, m: Market, c: Call, key: Pubkey, amount: u64)
    requires Balanced(l) && AccruedFrom(l.market, m)
    requires ApplyRemoveLiquidity(l, m, c, key, amount).Ok?
    ensures AccountedFor(l, ApplyRemoveLiquidity(l, m, c, key, amount).value)
  {
    hide SharesForWithdraw, SumBy;
    LenderUpdate(l, key, ApplyRemoveLiquidity(l, m, c, key, amount).value.lenders[key]);
  }

  lemma SupplyAccounted(l: Ledger, m: Market, c: Call, key: Pubkey, amount: u64)
    requires Balanced(l) && AccruedFrom(l.market, m)
    requires ApplySupply(l, m, c, key, amount).Ok?
    ensures AccountedFor(l, ApplySupply(l, m, c, key, amount).value)
  {
    hide AccruePosition, SumBy;
    PositionUpdate(l, key, ApplySupply(l, m, c, key, amount).value.positions[key]);
  }

  lemma WithdrawAccounted(l: Ledger, m: Market, c: Call, key: Pubkey, amount: u64)
    requires Balanced(l) && AccruedFrom(l.market, m)
    requires ApplyWithdraw(l, m, c, key, amount).Ok?
    ensures AccountedFor(l, ApplyWithdraw(l, m, c, key, amount).value)
  {
    hide AccruePosition, IsHealthy, SumBy;
    PositionUpdate(l, key, ApplyWithdraw(l, m, c, key, amount).value.positions[key]);
  }

  lemma BorrowAccounted(l: Ledger, m: Market, c: Call, key: Pubkey, amount: u64)
    requires Balanced(l) && AccruedFrom(l.market, m)
    requires ApplyBorrow(l, m, c, key, amount).Ok?
    ensures AccountedFor(l, ApplyBorrow(l, m, c, key, amount).value)
  {
    hide AccruePosition, IsHealthy, SumBy;
    PositionUpdate(l, key, ApplyBorrow(l, m, c, key, amount).value.positions[key]);
  }

  lemma RepayAccounted(l: Ledger, m: Market, c: Call, key: Pubkey, amount: u64)
    requires Balanced(l) && AccruedFrom(l.market, m)
    requires ApplyRepay(l, m, c, key, amount).Ok?
    ensures AccountedFor(l, ApplyRepay(l, m, c, key, amount).value)
  {
    hide AccruePosition, SumBy;
    PositionUpdate(l, key, ApplyRepay(l, m, c, key, amount).value.positions[key]);
  }

  /** A liquidation's saturating subtraction of collateral is exact. */
  lemma LiquidateAccounted(l: Ledger, m: Market, c: Call)
    requires Balanced(l) && AccruedFrom(l.market, m) && ApplyAt(l, m, c).Ok?
    requires c.op.Liquidate?
    ensures AccountedFor(l, ApplyAt(l, m, c).value)
    ensures l.market.totalCollateral - ApplyAt(l, m, c).value.market.totalCollateral
            == l.positions[c.op.position].collateral
               - ApplyAt(l, m, c).value.positions[c.op.position].collateral
  {
    hide AccruePosition, SeizeCollateral, MaxLiquidationRepay, IsLiquidatable, SumBy;
    PositionUpdate(l, c.op.position, ApplyAt(l, m, c).value.positions[c.op.position]);
  }

  lemma ApplyKeepsAccounting(l: Ledger, m: Market, c: Call)
    requires Balanced(l) && AccruedFrom(l.market, m) && ApplyAt(l, m, c).Ok?
    ensures AccountedFor(l, ApplyAt(l, m, c).value)
  {
    match c.op
    case AddLiquidity(key, amount) => AddLiquidityAccounted(l, m, c, key, amount);
    case RemoveLiquidity(key, amount) => RemoveLiquidityAccounted(l, m, c, key, amount);
    case Supply(key, amount) => SupplyAccounted(l, m, c, key, amount);
    case Withdraw(key, amount) => WithdrawAccounted(l, m, c, key, amount);
    case Borrow(key, amount) => BorrowAccounted(l, m, c, key, amount);
    case Repay(key, amount) => RepayAccounted(l, m, c, key, amount);
    case Liquidate(key, amount) => LiquidateAccounted(l, m, c);
    case SyncPrice(_, _, _, _) =>
  }

  /**
   Every instruction keeps the totals equal to the sums of the parts, and moves
   each vault exactly as it moves the matching total.
   */
  lemma StepKeepsAccounting(l: Ledger, c: Call)
    requires Balanced(l)
    ensures Balanced(Step(l, c))
    ensures Step(l, c).borrowVault - Step(l, c).market.totalCash == l.borrowVault - l.market.totalCash
    ensures Step(l, c).collateralVault - Step(l, c).market.totalCollateral
            == l.collateralVault - l.market.totalCollateral
  {
    AccrualFrame(l.market, c.now);
    if Apply(l, c).Ok? {
      ApplyKeepsAccounting(l, AccrueMarket(l.market, c.now), c);
    }
  }

  lemma {:induction false} RunKeepsAccounting(l: Ledger, calls: seq<Call>)
    requires Balanced(l)
    ensures Balanced(Run(l, calls))
    ensures Run(l, calls).borrowVault - Run(l, calls).market.totalCash
            == l.borrowVault - l.market.totalCash
    ensures Run(l, calls).collateralVault - Run(l, calls).market.totalCollateral
            == l.collateralVault - l.market.totalCollateral
    decreases |calls|
  {
    if calls != [] {
      StepKeepsAccounting(l, calls[0]);
      RunKeepsAccounting(Step(l, calls[0]), calls[1..]);
    }
  }

  /** A withdrawal is never refused because the market's total is short. */
  lemma WithdrawTotalSuffices(l: Ledger, m: Market, c: Call)
    requires Balanced(l) && AccruedFrom(l.market, m) && c.op.Withdraw?
    ensures ApplyAt(l, m, c) == Err(Overflow) ==> c.wallet + c.op.amount > U64_MAX
  {
    if c.op.position in l.positions {
      SumBounds(l.positions, CollateralOf, c.op.position);
    }
  }

  /** A redemption is never refused because the market's share total is short. */
  lemma RedeemTotalSuffices(l: Ledger, m: Market, c: Call)
    requires Balanced(l) && AccruedFrom(l.market, m) && c.op.RemoveLiquidity?
    ensures ApplyAt(l, m, c) == Err(Overflow) ==> c.wallet + c.op.amount > U64_MAX
  {
    if c.op.lender in l.lenders {
      SumBounds(l.lenders, SharesOf, c.op.lender);
    }
  }

  /**
   In a balanced ledger the market-level subtractions are never short: a
   withdrawal or redemption overflows only in the receiving token account, and
   a liquidation's saturating subtraction takes off exactly what was seized.
   */
  lemma SubtractionsNeverShort(l: Ledger, c: Call)
    requires Balanced(l)
    ensures (c.op.Withdraw? || c.op.RemoveLiquidity?) && Apply(l, c) == Err(Overflow)
            ==> c.wallet + c.op.amount > U64_MAX
    ensures c.op.Liquidate? && Apply(l, c).Ok?
            ==> l.market.totalCollateral - Apply(l, c).value.market.totalCollateral
                == l.positions[c.op.position].collateral - Apply(l, c).value.positions[c.op.position].collateral
  {
    var m := AccrueMarket(l.market, c.now);
    AccrualFrame(l.market, c.now);
    if c.op.Withdraw? {
      WithdrawTotalSuffices(l, m, c);
    } else if c.op.RemoveLiquidity? {
      RedeemTotalSuffices(l, m, c);
    } else if c.op.Liquidate? && Apply(l, c).Ok? {
      LiquidateAccounted(l, m, c);
    }
  }

  // ---- health ----

  /** A position's debt brought up to the market's index. */
  function DebtNow(l: Ledger, key: Pubkey): u64
    requires key in l.positions
  {
    AccruePosition(l.positions[key], l.market.borrowIndex).debt
  }

  predicate LiquidatableNow(l: Ledger, key: Pubkey) {
    key in l.positions && IsLiquidatable(l.market, l.positions[key].collateral, DebtNow(l, key))
  }

  /** More collateral never lowers the debt a position may carry. */
  lemma MaxDebtMono(m: Market, c0: u64, c1: u64)
    requires c0 <= c1
    ensures MaxDebt(m, c0) <= MaxDebt(m, c1)
  {
    MulMono(c0, c1, m.price);
    FloorMono(c0 * m.price, c1 * m.price, PRICE_SCALE);
    var v0, v1 := CollateralValue(m, c0), CollateralValue(m, c1);
    MulMono(v0, v1, m.params.liquidationThresholdBps);
    FloorMono(v0 * m.params.liquidationThresholdBps, v1 * m.params.liquidationThresholdBps, BPS);
  }

  /** The collateral factor keeps borrowers inside the liquidation threshold. */
  lemma HealthyIsNotLiquidatable(m: Market, collateral: u64, debt: u64)
    requires ValidParams(m.params) && IsHealthy(m, collateral, debt)
    ensures !IsLiquidatable(m, collateral, debt)
  {
    var v := CollateralValue(m, collateral);
    MulMono(m.params.collateralFactorBps, m.params.liquidationThresholdBps, v);
    FloorMono(v * m.params.collateralFactorBps, v * m.params.liquidationThresholdBps, BPS);
  }

  predicate SamePriceAndIndex(a: Market, b: Market) {
    a.price == b.price && a.borrowIndex == b.borrowIndex
  }

  /** Health reads only the price and the parameters. */
  lemma HealthFrame(a: Market, b: Market, collateral: u64)
    requires a.price == b.price && a.params == b.params
    ensures MaxDebt(a, collateral) == MaxDebt(b, collateral)
    ensures MaxBorrow(a, collateral) == MaxBorrow(b, collateral)
  {
  }

  lemma ParamsNeverChange(l: Ledger, c: Call)
    ensures Step(l, c).market.params == l.market.params
  {
    AccrualFrame(l.market, c.now);
    ParamsNeverChangeAt(l, AccrueMarket(l.market, c.now), c);
  }

  lemma ParamsNeverChangeAt(l: Ledger, m: Market, c: Call)
    requires AccruedFrom(l.market, m)
    ensures ApplyAt(l, m, c).Ok? ==> ApplyAt(l, m, c).value.market.params == l.market.params
  {
  }

  /** A withdrawal or a loan is granted only to a position it leaves healthy. */
  lemma GrantedIsHealthy(l: Ledger, m: Market, c: Call, key: Pubkey)
    requires ValidParams(m.params) && ApplyAt(l, m, c).Ok?
    requires (c.op.Withdraw? || c.op.Borrow?) && c.op.position == key
    ensures !LiquidatableNow(ApplyAt(l, m, c).value, key)
  {
    hide MaxDebt, MaxBorrow, ValidParams;
    var l' := ApplyAt(l, m, c).value;
    var pos' := l'.positions[key];
    HealthyIsNotLiquidatable(m, pos'.collateral, pos'.debt);
    HealthFrame(m, l'.market, pos'.collateral);
  }

  /** Only a liquidatable position is liquidated. */
  lemma LiquidatedWasLiquidatable(l: Ledger, m: Market, c: Call)
    requires AccruedFrom(l.market, m) && c.op.Liquidate? && ApplyAt(l, m, c).Ok?
    requires SamePriceAndIndex(l.market, ApplyAt(l, m, c).value.market)
    ensures LiquidatableNow(l, c.op.position)
  {
    hide MaxDebt, MaxLiquidationRepay, SeizeCollateral;
    var pos := l.positions[c.op.position];
    HealthFrame(l.market, m, pos.collateral);
  }

  /** An instruction touches the position it names and no other. */
  predicate Names(op: Op, key: Pubkey) {
    (op.Supply? || op.Withdraw? || op.Borrow? || op.Repay? || op.Liquidate?) && op.position == key
  }

  lemma OthersUntouched(l: Ledger, m: Market, c: Call, key: Pubkey)
    requires ApplyAt(l, m, c).Ok? && !Names(c.op, key)
    ensures var l' := ApplyAt(l, m, c).value;
            (key in l'.positions <==> key in l.positions) && (key in l.positions ==> l'.positions[key] == l.positions[key])
  {
    hide MaxDebt, MaxBorrow, MaxLiquidationRepay, SeizeCollateral, SharesForDeposit, SharesForWithdraw, AccruePosition,
      Transfer, PlanLiquidation, IsHealthy, IsLiquidatable, PriceFresh;
  }

  /** Supplying and repaying neither take collateral nor add debt at a fixed index. */
  lemma NamedNeverWorsens(l: Ledger, m: Market, c: Call, key: Pubkey)
    requires AccruedFrom(l.market, m) && ApplyAt(l, m, c).Ok?
    requires SamePriceAndIndex(l.market, ApplyAt(l, m, c).value.market)
    requires (c.op.Supply? || c.op.Repay?) && c.op.position == key
    ensures var l' := ApplyAt(l, m, c).value;
            && key in l'.positions
            && if key in l.positions
               then l.positions[key].collateral <= l'.positions[key].collateral && DebtNow(l', key) <= DebtNow(l, key)
               else DebtNow(l', key) == 0
  {
  }

  lemma ApplyKeepsHealth(l: Ledger, m: Market, c: Call, key: Pubkey)
    requires ValidParams(l.market.params)
    requires AccruedFrom(l.market, m) && ApplyAt(l, m, c).Ok?
    requires SamePriceAndIndex(l.market, ApplyAt(l, m, c).value.market)
    requires !LiquidatableNow(l, key)
    ensures !LiquidatableNow(ApplyAt(l, m, c).value, key)
  {
    hide MaxDebt, ValidParams, ApplyAt, AccruePosition;
    var l' := ApplyAt(l, m, c).value;
    if (c.op.Withdraw? || c.op.Borrow?) && c.op.position == key {
      GrantedIsHealthy(l, m, c, key);
    } else if c.op.Liquidate? && c.op.position == key {
      LiquidatedWasLiquidatable(l, m, c);
    } else if key in l'.positions {
      if Names(c.op, key) {
        NamedNeverWorsens(l, m, c, key);
      } else {
        OthersUntouched(l, m, c, key);
        assert key in l.positions && DebtNow(l', key) == DebtNow(l, key);
      }
      ParamsNeverChangeAt(l, m, c);
      HealthFrame(l.market, l'.market, l'.positions[key].collateral);
      if key in l.positions {
        MaxDebtMono(l.market, l.positions[key].collateral, l'.positions[key].collateral);
      }
    }
  }

  /** At a fixed price and index no instruction makes a safe position liquidatable. */
  lemma StepKeepsHealth(l: Ledger, c: Call, key: Pubkey)
    requires ValidParams(l.market.params)
    requires SamePriceAndIndex(l.market, Step(l, c).market)
    requires !LiquidatableNow(l, key)
    ensures !LiquidatableNow(Step(l, c), key)
  {
    AccrualFrame(l.market, c.now);
    if Apply(l, c).Ok? {
      ApplyKeepsHealth(l, AccrueMarket(l.market, c.now), c, key);
    }
  }

  /** The run never moves the price or the index. */
  ghost predicate RunAtFixedPrice(l: Ledger, calls: seq<Call>)
    decreases |calls|
  {
    calls != [] ==>
      && SamePriceAndIndex(l.market, Step(l, calls[0]).market)
      && RunAtFixedPrice(Step(l, calls[0]), calls[1..])
  }

  /** Health safety: until price or index moves, safe positions stay safe. */
  lemma {:induction false} RunKeepsHealth(l: Ledger, calls: seq<Call>, key: Pubkey)
    requires ValidParams(l.market.params)
    requires RunAtFixedPrice(l, calls) && !LiquidatableNow(l, key)
    ensures !LiquidatableNow(Run(l, calls), key)
    decreases |calls|
  {
    if calls != [] {
      StepKeepsHealth(l, calls[0], key);
      ParamsNeverChange(l, calls[0]);
      RunKeepsHealth(Step(l, calls[0]), calls[1..], key);
    }
  }

  /** Every initialised market has the parameters health safety rests on. */
  lemma {:induction false} ReachableParams(m0: Market, p: Params, price: u64, now: u64, calls: seq<Call>)
    requires InitMarket(true, p, price, now) == Ok(m0)
    ensures Run(Fresh(m0), calls).market.params == p && ValidParams(p)
  {
    RunKeepsParams(Fresh(m0), calls);
  }

  lemma {:induction false} RunKeepsParams(l: Ledger, calls: seq<Call>)
    ensures Run(l, calls).market.params == l.market.params
    decreases |calls|
  {
    if calls != [] {
      ParamsNeverChange(l, calls[0]);
      RunKeepsParams(Step(l, calls[0]), calls[1..]);
    }
  }

  // ---- liquidation ----

  /** Dividing by the price, adding the bonus and wrapping only ever round down. */
  lemma SeizeRoundsDown(m: Market, repaid: u64)
    requires m.price != 0
    ensures SeizeCollateral(m, repaid) * m.price * BPS
            <= repaid * PRICE_SCALE * (BPS + m.params.liquidationBonusBps)
  {
    var base, k := repaid * PRICE_SCALE / m.price, BPS + m.params.liquidationBonusBps;
    FloorBounds(repaid * PRICE_SCALE, m.price);
    ChainedFloors(SeizeCollateral(m, repaid), Wrap128(base * k), base, k, m.price, BPS, repaid * PRICE_SCALE);
  }

  lemma ChainedFloors(x: nat, w: nat, base: nat, k: nat, price: nat, bps: nat, value: nat)
    requires x * bps <= w <= base * k && base * price <= value
    ensures x * price * bps <= value * k
  {
    MulMono(x * bps, base * k, price);
    MulMono(base * price, value, k);
    assert x * bps * price == x * price * bps;
    assert base * k * price == base * price * k;
  }

  /** The seized collateral is worth at most the repayment plus the bonus. */
  lemma SeizureWorth(m: Market, pos: Position, repayAmount: u64, now: u64)
    requires PlanLiquidation(m, pos, repayAmount, now).Ok?
    ensures var plan := PlanLiquidation(m, pos, repayAmount, now).value;
            && 1 <= plan.repaid <= MaxLiquidationRepay(m, pos.debt) <= pos.debt
            && plan.seized <= pos.collateral
            && plan.seized * m.price * BPS
               <= plan.repaid * PRICE_SCALE * (BPS + m.params.liquidationBonusBps)
  {
    var plan := PlanLiquidation(m, pos, repayAmount, now).value;
    SeizeRoundsDown(m, plan.repaid);
    MulMono(plan.seized, SeizeCollateral(m, plan.repaid), m.price);
    MulMono(plan.seized * m.price, SeizeCollateral(m, plan.repaid) * m.price, BPS);
  }

  /** Every call is a successful liquidation of `key` at the same price and index. */
  ghost predicate Liquidations(l: Ledger, calls: seq<Call>, key: Pubkey)
    decreases |calls|
  {
    calls != [] ==>
      && calls[0].op.Liquidate? && calls[0].op.position == key
      && Apply(l, calls[0]).Ok?
      && SamePriceAndIndex(l.market, Step(l, calls[0]).market)
      && Liquidations(Step(l, calls[0]), calls[1..], key)
  }

  lemma LiquidationStep(l: Ledger, c: Call, key: Pubkey)
    requires Liquidations(l, [c], key)
    ensures key in l.positions && key in Step(l, c).positions
    ensures DebtNow(Step(l, c), key) < DebtNow(l, key)
    ensures Step(l, c).positions[key].collateral <= l.positions[key].collateral
    ensures (l.positions[key].collateral - Step(l, c).positions[key].collateral) * l.market.price * BPS
            <= (DebtNow(l, key) - DebtNow(Step(l, c), key)) * PRICE_SCALE
               * (BPS + l.market.params.liquidationBonusBps)
  {
    var m := AccrueMarket(l.market, c.now);
    AccrualFrame(l.market, c.now);
    var pos := AccruePosition(l.positions[key], m.borrowIndex);
    SeizureWorth(m, pos, c.op.repayAmount, c.now);
  }

  /**
   Wind-down: a run of liquidations has at most as many calls as units of debt,
   never takes more than the collateral held, and in total takes no more value
   than it repays plus the bonus.
   */
  lemma {:induction false} LiquidationsWindDown(l: Ledger, calls: seq<Call>, key: Pubkey)
    requires key in l.positions
    requires Liquidations(l, calls, key)
    ensures key in Run(l, calls).positions
    ensures |calls| + DebtNow(Run(l, calls), key) <= DebtNow(l, key)
    ensures Run(l, calls).positions[key].collateral <= l.positions[key].collateral
    ensures (l.positions[key].collateral - Run(l, calls).positions[key].collateral) * l.market.price * BPS
            <= (DebtNow(l, key) - DebtNow(Run(l, calls), key)) * PRICE_SCALE
               * (BPS + l.market.params.liquidationBonusBps)
    decreases |calls|
  {
    hide Apply, Step, DebtNow;
    if calls != [] {
      var next, end := Step(l, calls[0]), Run(l, calls);
      LiquidationStep(l, calls[0], key);
      ParamsNeverChange(l, calls[0]);
      LiquidationsWindDown(next, calls[1..], key);
      var k := BPS + l.market.params.liquidationBonusBps;
      var s0, s1 := l.positions[key].collateral - next.positions[key].collateral,
                    next.positions[key].collateral - end.positions[key].collateral;
      var r0, r1 := DebtNow(l, key) - DebtNow(next, key), DebtNow(next, key) - DebtNow(end, key);
      SplitScaled(s0, s1, l.market.price, BPS);
      SplitScaled(r0, r1, PRICE_SCALE, k);
    }
  }

  lemma SplitScaled(x: int, y: int, a: int, b: int)
    ensures (x + y) * a * b == x * a * b + y * a * b
  {
  }
}
