/**
 What the market's formulas amount to, multiplied out, and what every
 instruction does to the accounts it names.
 */
module MarketLaws {
  import opened Common
  import opened Token
  import opened MoneyMarket
  import opened MarketSafety

  // ---- the rate ----

  /** Utilisation is borrows over pool value in basis points, rounded down. */
  lemma UtilizationLaw(m: Market)
    ensures var u := UtilizationBps(m);
            && u <= BPS
            && (PoolValue(m) == 0 ==> u == 0)
            && u * PoolValue(m) <= m.totalBorrows * BPS
            && (PoolValue(m) > 0 ==> m.totalBorrows * BPS < (u + 1) * PoolValue(m))
  {
    var p, u := PoolValue(m), UtilizationBps(m);
    if p > 0 {
      FloorBounds(m.totalBorrows * BPS, p);
      assert (u + 1) * p == u * p + p;
      MulMono(m.totalBorrows, p, BPS);
      FloorAtMost(m.totalBorrows * BPS, p, BPS);
    }
  }

  /** How far utilisation is past the kink; a kink of 0 means there is none. */
  function PastKink(m: Market): nat {
    if m.params.kinkUtilizationBps == 0 then 0 else SaturatingSub(UtilizationBps(m), m.params.kinkUtilizationBps)
  }

  /** Base, plus slope over utilisation, plus jump slope over what is past the kink, less two floors. */
  lemma RateLaw(m: Market)
    ensures var exact := m.params.baseRateBps * BPS + m.params.slopeBps * UtilizationBps(m)
                         + m.params.jumpSlopeBps * PastKink(m);
            BorrowRateBps(m) * BPS <= exact < (BorrowRateBps(m) + 2) * BPS
  {
    hide UtilizationBps;
    FloorBounds(m.params.slopeBps * UtilizationBps(m), BPS);
    FloorBounds(m.params.jumpSlopeBps * PastKink(m), BPS);
  }

  /** Up to and at the kink the jump slope plays no part. */
  lemma RateAtKink(m: Market, jump: u64)
    requires UtilizationBps(m) <= m.params.kinkUtilizationBps
    ensures BorrowRateBps(m) == BorrowRateBps(m.(params := m.params.(jumpSlopeBps := jump)))
  {
  }

  lemma UtilizationNeverFalls(m: Market, borrows: u64)
    requires m.totalBorrows <= borrows
    ensures UtilizationBps(m) <= UtilizationBps(m.(totalBorrows := borrows))
  {
    var n, u := m.(totalBorrows := borrows), UtilizationBps(m);
    UtilizationLaw(m);
    if PoolValue(n) > 0 {
      assert u * PoolValue(n) == u * PoolValue(m) + u * (borrows - m.totalBorrows);
      MulMono(u, BPS, borrows - m.totalBorrows);
      FloorIsGreatest(borrows * BPS, PoolValue(n), u);
    }
  }

  /** Utilisation and with it the rate never fall as borrows rise at fixed cash. */
  lemma RateNeverFalls(m: Market, borrows: u64)
    requires m.totalBorrows <= borrows
    ensures BorrowRateBps(m) <= BorrowRateBps(m.(totalBorrows := borrows))
  {
    hide UtilizationBps;
    UtilizationNeverFalls(m, borrows);
    var u, v, kink := UtilizationBps(m), UtilizationBps(m.(totalBorrows := borrows)), m.params.kinkUtilizationBps;
    MulMono(u, v, m.params.slopeBps);
    FloorMono(m.params.slopeBps * u, m.params.slopeBps * v, BPS);
    if kink != 0 && u > kink {
      MulMono(u - kink, v - kink, m.params.jumpSlopeBps);
      FloorMono(m.params.jumpSlopeBps * (u - kink), m.params.jumpSlopeBps * (v - kink), BPS);
    }
  }

  // ---- accrual ----

  /** `y` is `x` grown at a yearly rate in basis points over some seconds, rounded down. */
  predicate GrownBy(x: nat, y: nat, rateBps: nat, seconds: nat) {
    y * (BPS * SECONDS_PER_YEAR) <= x * (BPS * SECONDS_PER_YEAR + rateBps * seconds) < (y + 1) * (BPS * SECONDS_PER_YEAR)
  }

  /** Simple interest for the time since the last accrual, on borrows and index alike; the clock never goes back. */
  lemma AccrualLaw(m: Market, now: u64)
    ensures var a := AccrueMarket(m, now);
            && AccruedFrom(m, a)
            && a.lastAccrualTs == Max(now, m.lastAccrualTs)
            && (!InterestDue(m, now) ==> a.totalBorrows == m.totalBorrows && a.borrowIndex == m.borrowIndex)
            && (InterestDue(m, now) && BorrowsInRange(m, now) ==>
                  GrownBy(m.totalBorrows, a.totalBorrows, BorrowRateBps(m), now - m.lastAccrualTs))
            && (InterestDue(m, now) && BorrowsInRange(m, now) && IndexInRange(m, now) ==>
                  GrownBy(m.borrowIndex, a.borrowIndex, BorrowRateBps(m), now - m.lastAccrualTs))
            && (InterestDue(m, now) && BorrowsInRange(m, now) && !IndexInRange(m, now) ==>
                  a.borrowIndex == (U128_SPAN - 1) / RATE_DEN)
  {
    hide BorrowRateBps;
    AccrualFrame(m, now);
    if InterestDue(m, now) && BorrowsInRange(m, now) {
      AccrualAdds(m, now);
      var g := GrowthNum(m, now);
      FloorBounds(m.totalBorrows * g, RATE_DEN);
      MulMono(1, m.totalBorrows, g);
      assert g < U128_SPAN;
      GrownFloor(m.totalBorrows, g);
      GrownFloor(m.borrowIndex, g);
    }
  }

  lemma GrownFloor(x: nat, g: nat)
    ensures var y := MulDiv(x, g, RATE_DEN);
            y * (BPS * SECONDS_PER_YEAR) <= x * g < (y + 1) * (BPS * SECONDS_PER_YEAR)
  {
    FloorBounds(x * g, RATE_DEN);
  }

  /** A position's debt follows the index from its snapshot, rounded down. */
  lemma DebtFollowsIndex(pos: Position, index: u128)
    requires pos.debt * index < U128_SPAN && pos.debt * index < U64_SPAN * pos.snapshot
    ensures var debt := AccruePosition(pos, index).debt;
            && pos.debt <= debt
            && (index <= pos.snapshot ==> debt == pos.debt)
            && (index >= pos.snapshot ==>
                  debt * pos.snapshot <= pos.debt * index < (debt + 1) * pos.snapshot)
  {
    var d, k := pos.debt, pos.snapshot;
    FloorGrowth(d, index, k);
    if d > 0 && index > k {
      assert AccruePosition(pos, index).debt == d * index / k;
    } else {
      assert AccruePosition(pos, index).debt == d;
    }
    hide AccruePosition;
  }

  /** Growing `d` by `i` over `k`, at least one, never shrinks it. */
  lemma FloorGrowth(d: nat, i: nat, k: nat)
    requires d * i < U64_SPAN * k
    ensures k > 0 && d * i / k < U64_SPAN
    ensures (d * i / k) * k <= d * i < (d * i / k + 1) * k
    ensures i >= k ==> d <= d * i / k
    ensures d == 0 || i == k ==> d * k <= d * i < (d + 1) * k
  {
    CastFloor(d * i, k);
    if i >= k {
      MulMono(k, i, d);
      FloorIsGreatest(d * i, k, d);
    }
    assert (d + 1) * k == d * k + k;
  }

  /** Settling at an index in between never costs the borrower more. */
  lemma SettlingEarlyNeverCosts(pos: Position, mid: u128, index: u128)
    requires 0 < pos.snapshot <= mid <= index
    requires pos.debt * index < U128_SPAN && pos.debt * index < U64_SPAN * pos.snapshot
    requires pos.debt * mid < U128_SPAN && pos.debt * mid < U64_SPAN * pos.snapshot
    requires var d := AccruePosition(pos, mid).debt; d * index < U128_SPAN && d * index < U64_SPAN * mid
    ensures AccruePosition(AccruePosition(pos, mid), index).debt <= AccruePosition(pos, index).debt
  {
    var half := AccruePosition(pos, mid);
    var via, direct := AccruePosition(half, index).debt, AccruePosition(pos, index).debt;
    DebtFollowsIndex(pos, mid);
    DebtFollowsIndex(half, index);
    DebtFollowsIndex(pos, index);
    hide AccruePosition;
    TwoFloors(pos.debt, pos.snapshot, mid, index, half.debt, via);
    assert via * pos.snapshot < (direct + 1) * pos.snapshot;
    if via > direct {
      MulMono(direct + 1, via, pos.snapshot);
    }
  }

  lemma TwoFloors(d: nat, s: nat, mid: nat, index: nat, e: nat, f: nat)
    requires 0 < s && 0 < mid && e * s <= d * mid && f * mid <= e * index
    ensures f * s <= d * index
  {
    MulMono(f * mid, e * index, s);
    MulMono(e * s, d * mid, index);
    assert (f * mid) * s == (f * s) * mid;
    assert (e * index) * s == (e * s) * index;
    assert (d * mid) * index == (d * index) * mid;
    CancelLe(f * s, d * index, mid);
  }

  // ---- value and health ----

  /** Collateral is worth its amount times the price, rounded down to one unit. */
  lemma ValueLaw(m: Market, collateral: u64)
    ensures var v := CollateralValue(m, collateral);
            v * PRICE_SCALE <= collateral * m.price < (v + 1) * PRICE_SCALE
  {
    FloorBounds(collateral * m.price, PRICE_SCALE);
  }

  /** Healthy and liquidatable, each as one comparison of debt with a fraction of the value. */
  lemma HealthIff(m: Market, collateral: u64, debt: u64)
    ensures var v := CollateralValue(m, collateral);
            && (IsHealthy(m, collateral, debt) <==> debt * BPS <= v * m.params.collateralFactorBps)
            && (IsLiquidatable(m, collateral, debt) <==> v * m.params.liquidationThresholdBps < debt * BPS)
  {
    hide CollateralValue;
    AtMostFloorIff(debt, CollateralValue(m, collateral) * m.params.collateralFactorBps, BPS);
    AtMostFloorIff(debt, CollateralValue(m, collateral) * m.params.liquidationThresholdBps, BPS);
  }

  lemma AtMostFloorIff(d: nat, x: nat, b: nat)
    requires b > 0
    ensures d <= x / b <==> d * b <= x
  {
    FloorBounds(x, b);
    if d * b <= x {
      FloorIsGreatest(x, b, d);
    } else if d <= x / b {
      MulMono(d, x / b, b);
    }
  }

  /** Without a close factor, or with all of it, a liquidation may repay everything; else that part, rounded up, and at least 1. */
  lemma CloseFactorLaw(m: Market, debt: u64)
    requires debt > 0
    ensures var f, r := m.params.closeFactorBps, MaxLiquidationRepay(m, debt);
            && (f == 0 || f >= BPS ==> r == debt)
            && (0 < f < BPS ==> debt * f <= r * BPS < debt * f + BPS)
  {
    var f := m.params.closeFactorBps;
    if 0 < f < BPS {
      CeilBounds(debt * f, BPS);
      MulMono(1, debt, f);
    }
  }

  /** Within machine range the seized collateral is short of repayment plus bonus by less than its two floors. */
  lemma SeizeLaw(m: Market, repaid: u64)
    requires m.price != 0
    requires MulDiv(repaid, PRICE_SCALE, m.price) * (BPS + m.params.liquidationBonusBps) < U128_SPAN
    ensures var s, k := SeizeCollateral(m, repaid), BPS + m.params.liquidationBonusBps;
            && s * m.price * BPS <= repaid * PRICE_SCALE * k
            && repaid * PRICE_SCALE * k < (s + 1) * m.price * BPS + m.price * k
  {
    var k, base := BPS + m.params.liquidationBonusBps, MulDiv(repaid, PRICE_SCALE, m.price);
    var s := SeizeCollateral(m, repaid);
    SeizeRoundsDown(m, repaid);
    FloorBounds(repaid * PRICE_SCALE, m.price);
    FloorBounds(base * k, BPS);
    TwoFloorsBelow(repaid * PRICE_SCALE, m.price, base, k, BPS, s);
  }

  lemma TwoFloorsBelow(x: nat, price: nat, base: nat, k: nat, b: nat, s: nat)
    requires x <= base * price + price - 1 && base * k <= s * b + b - 1 && price > 0 && k > 0
    ensures x * k < (s + 1) * price * b + price * k
  {
    MulMono(x, base * price + price - 1, k);
    MulMono(base * k, s * b + b - 1, price);
    Spread(base * price, price, k);
    Spread(s * b, b, price);
    Swapped(base, price, k);
    Swapped(s, b, price);
    Swapped(1, b, price);
    assert (s + 1) * price * b == s * price * b + price * b by {
      assert (s + 1) * price == s * price + price;
    }
  }

  lemma Spread(a: int, b: int, k: int)
    ensures (a + b - 1) * k == a * k + b * k - k
  {
  }

  lemma Swapped(x: int, y: int, z: int)
    ensures x * y * z == x * z * y
  {
  }

  /** A liquidation seizes everything held or, in range, that worth. */
  lemma SeizureIsFull(m: Market, pos: Position, repayAmount: u64, now: u64)
    requires PlanLiquidation(m, pos, repayAmount, now).Ok?
    requires var plan := PlanLiquidation(m, pos, repayAmount, now).value;
             && MulDiv(plan.repaid, PRICE_SCALE, m.price) * (BPS + m.params.liquidationBonusBps) < U128_SPAN
             && SeizeCollateral(m, plan.repaid) < U64_SPAN
    ensures var plan, k := PlanLiquidation(m, pos, repayAmount, now).value, BPS + m.params.liquidationBonusBps;
            && (plan.repaid == repayAmount || plan.repaid == MaxLiquidationRepay(m, pos.debt))
            && (plan.seized == pos.collateral
                || plan.repaid * PRICE_SCALE * k < (plan.seized + 1) * m.price * BPS + m.price * k)
  {
    hide MaxLiquidationRepay;
    SeizeLaw(m, PlanLiquidation(m, pos, repayAmount, now).value.repaid);
    hide SeizeCollateral, MulDiv;
  }

  // ---- what an instruction moves ----

  /** Debt accrued to `index`, or none. */
  function OwedAt(l: Ledger, key: Pubkey, index: u128): u64 {
    if key in l.positions then AccruePosition(l.positions[key], index).debt else 0
  }

  function Owed(l: Ledger, key: Pubkey): u64 {
    OwedAt(l, key, l.market.borrowIndex)
  }

  function Pledged(l: Ledger, key: Pubkey): u64 {
    if key in l.positions then l.positions[key].collateral else 0
  }

  function LenderShares(l: Ledger, key: Pubkey): u64 {
    if key in l.lenders then l.lenders[key].shares else 0
  }

  /** Tokens the borrow vault paid out (took in, if negative) for `key`'s position. */
  function PaidOut(l: Ledger, c: Call, key: Pubkey): int {
    if Names(c.op, key) then l.borrowVault - Step(l, c).borrowVault else 0
  }

  /** Tokens the collateral vault took in (paid out, if negative) for `key`'s position. */
  function TakenIn(l: Ledger, c: Call, key: Pubkey): int {
    if Names(c.op, key) then Step(l, c).collateralVault - l.collateralVault else 0
  }

  /** Lender shares that came into being (went, if negative) for `key`. */
  function Issued(l: Ledger, c: Call, key: Pubkey): int {
    if (c.op.AddLiquidity? || c.op.RemoveLiquidity?) && c.op.lender == key
    then Step(l, c).market.totalLenderShares - l.market.totalLenderShares else 0
  }

  /** The owner and the snapshot a touched position has: its own and the current index. */
  predicate Touched(l: Ledger, m: Market, c: Call, l': Ledger, key: Pubkey) {
    && key in l'.positions
    && l'.positions[key].owner == (if key in l.positions then l.positions[key].owner else c.caller)
    && l'.positions[key].snapshot == m.borrowIndex == l'.market.borrowIndex
  }

  /** A position settled to the index owes its recorded debt. */
  lemma SettledOwes(pos: Position, index: u128)
    requires pos.snapshot == index
    ensures AccruePosition(pos, index).debt == pos.debt
  {
  }

  /** A loan adds to what is owed, and leaves vault, cash and books by its amount. */
  lemma BorrowEffect(l: Ledger, c: Call)
    requires c.op.Borrow? && Apply(l, c).Ok?
    ensures var m, l', key, amount := AccrueMarket(l.market, c.now), Apply(l, c).value, c.op.position, c.op.amount;
            && Touched(l, m, c, l', key)
            && l'.positions[key].debt == OwedAt(l, key, m.borrowIndex) + amount
            && Pledged(l', key) == Pledged(l, key)
            && l'.borrowVault == l.borrowVault - amount && l'.collateralVault == l.collateralVault
            && l'.market == m.(totalCash := m.totalCash - amount, totalBorrows := m.totalBorrows + amount)
            && l'.lenders == l.lenders
  {
    hide AccrueMarket, MaxBorrow;
  }

  /** A repayment takes what is owed, or the amount if less. */
  lemma RepayEffect(l: Ledger, c: Call)
    requires c.op.Repay? && Apply(l, c).Ok?
    ensures var m, l', key := AccrueMarket(l.market, c.now), Apply(l, c).value, c.op.position;
            var owed := OwedAt(l, key, m.borrowIndex);
            var repaid := if c.op.amount <= owed then c.op.amount else owed;
            && Touched(l, m, c, l', key)
            && l'.positions[key].debt == owed - repaid
            && Pledged(l', key) == Pledged(l, key)
            && l'.borrowVault == l.borrowVault + repaid && l'.collateralVault == l.collateralVault
            && l'.market.totalCash == m.totalCash + repaid
            && (repaid <= m.totalBorrows ==> l'.market.totalBorrows == m.totalBorrows - repaid)
            && (repaid > m.totalBorrows ==> l'.market.totalBorrows == 0)
            && l'.lenders == l.lenders
  {
    hide AccrueMarket;
  }

  /** Supplying and withdrawing move collateral by the amount, and settle the debt to the index. */
  lemma CollateralEffect(l: Ledger, c: Call)
    requires (c.op.Supply? || c.op.Withdraw?) && Apply(l, c).Ok?
    ensures var m, l', key := AccrueMarket(l.market, c.now), Apply(l, c).value, c.op.position;
            var amount := if c.op.Supply? then c.op.amount else 0 - c.op.amount;
            && Touched(l, m, c, l', key)
            && l'.positions[key].debt == OwedAt(l, key, m.borrowIndex)
            && Pledged(l', key) == Pledged(l, key) + amount
            && l'.collateralVault == l.collateralVault + amount && l'.borrowVault == l.borrowVault
            && l'.market == m.(totalCollateral := m.totalCollateral + amount)
            && l'.lenders == l.lenders
  {
    hide AccrueMarket, MaxBorrow;
  }

  /** A liquidation takes repayment in and collateral out, both from the position it names. */
  lemma LiquidateEffect(l: Ledger, c: Call)
    requires c.op.Liquidate? && Apply(l, c).Ok?
    ensures var m, l', key := AccrueMarket(l.market, c.now), Apply(l, c).value, c.op.position;
            && key in l.positions && PlanLiquidation(m, AccruePosition(l.positions[key], m.borrowIndex), c.op.repayAmount, c.now).Ok?
            && var plan := PlanLiquidation(m, AccruePosition(l.positions[key], m.borrowIndex), c.op.repayAmount, c.now).value;
               && Touched(l, m, c, l', key)
               && l'.positions[key].debt == OwedAt(l, key, m.borrowIndex) - plan.repaid
               && Pledged(l', key) == Pledged(l, key) - plan.seized
               && l'.borrowVault == l.borrowVault + plan.repaid
               && l'.collateralVault == l.collateralVault - plan.seized
               && l'.market.totalCash == m.totalCash + plan.repaid
               && (plan.repaid <= m.totalBorrows ==> l'.market.totalBorrows == m.totalBorrows - plan.repaid)
               && l'.lenders == l.lenders
  {
    hide AccrueMarket, MaxLiquidationRepay, SeizeCollateral, MaxDebt;
  }

  /** Adding and removing liquidity move cash by the amount, for the shares the conversions give. */
  lemma LiquidityEffect(l: Ledger, c: Call)
    requires (c.op.AddLiquidity? || c.op.RemoveLiquidity?) && Apply(l, c).Ok?
    ensures var m, l', key := AccrueMarket(l.market, c.now), Apply(l, c).value, c.op.lender;
            var amount := if c.op.AddLiquidity? then c.op.amount else 0 - c.op.amount;
            var shares := if c.op.AddLiquidity? then SharesForDeposit(m, c.op.amount) else 0 - SharesForWithdraw(m, c.op.amount);
            && c.op.amount > 0
            && key in l'.lenders && l'.lenders[key].owner == c.caller
            && l'.lenders == l.lenders[key := l'.lenders[key]]
            && LenderShares(l', key) == LenderShares(l, key) + shares
            && l'.borrowVault == l.borrowVault + amount && l'.collateralVault == l.collateralVault
            && l'.market == m.(totalCash := m.totalCash + amount, totalLenderShares := m.totalLenderShares + shares)
            && l'.positions == l.positions
  {
    hide AccrueMarket, SharesForDeposit, SharesForWithdraw;
  }

  /** Who may do what: every instruction on an account is signed, and price-dependent ones see a fresh price. */
  lemma SuccessNeeds(l: Ledger, c: Call)
    requires Apply(l, c).Ok?
    ensures !c.op.SyncPrice? ==> c.signed
    ensures (c.op.Withdraw? || c.op.Borrow?) && c.op.position in l.positions
            ==> l.positions[c.op.position].owner == c.caller
    ensures (c.op.AddLiquidity? || c.op.RemoveLiquidity?) && c.op.lender in l.lenders
            ==> l.lenders[c.op.lender].owner == c.caller
    ensures c.op.Withdraw? || c.op.Borrow? || c.op.Liquidate?
            ==> 0 < l.market.price && c.now <= l.market.priceUpdatedAt + l.market.params.maxPriceStaleness
    ensures c.op.SyncPrice? ==>
              && c.op.feed == l.market.params.oracleFeed && c.op.feedInitialized && c.op.feedPrice > 0
              && Apply(l, c).value == l.(market := l.market.(price := c.op.feedPrice, priceUpdatedAt := c.op.publishTs))
  {
    hide AccrueMarket, MaxDebt, MaxBorrow, SeizeCollateral, MaxLiquidationRepay, SharesForDeposit, SharesForWithdraw;
    AccrualFrame(l.market, c.now);
  }

  /** A market is set up by a signature, fractions that are fractions, and a price. */
  lemma InitLaw(signed: bool, p: Params, price: u64, now: u64)
    ensures var r := InitMarket(signed, p, price, now);
            && (r.Ok? <==> && signed && price > 0 && p.collateralFactorBps <= p.liquidationThresholdBps <= 10_000
                           && p.kinkUtilizationBps <= 10_000 && p.closeFactorBps <= 10_000)
            && (r.Ok? ==> r.value == Market(p, price, now, 0, 0, 0, 0, 1_000_000_000_000, now))
  {
  }

  /** Anyone who can pay may liquidate a position past its threshold while the price is fresh. */
  lemma LiquidationAvailable(l: Ledger, c: Call)
    requires c.op.Liquidate? && c.signed && c.op.position in l.positions && c.op.repayAmount > 0
    requires var m := AccrueMarket(l.market, c.now);
             var pos := AccruePosition(l.positions[c.op.position], m.borrowIndex);
             && 0 < m.price && c.now <= m.priceUpdatedAt + m.params.maxPriceStaleness
             && IsLiquidatable(m, pos.collateral, pos.debt)
             && c.op.repayAmount <= c.wallet && l.borrowVault + c.op.repayAmount <= U64_MAX
             && m.totalCash + c.op.repayAmount <= U64_MAX
             && pos.collateral <= l.collateralVault && c.payout + pos.collateral <= U64_MAX
    ensures Apply(l, c).Ok?
  {
    hide AccrueMarket, AccruePosition, MaxDebt, SeizeCollateral;
  }

  /** An owner may take out collateral that leaves the position healthy while the price is fresh. */
  lemma WithdrawAvailable(l: Ledger, c: Call)
    requires c.op.Withdraw? && c.signed && c.op.position in l.positions
    requires l.positions[c.op.position].owner == c.caller
    requires var m := AccrueMarket(l.market, c.now);
             var pos, amount := AccruePosition(l.positions[c.op.position], m.borrowIndex), c.op.amount;
             && 0 < m.price && c.now <= m.priceUpdatedAt + m.params.maxPriceStaleness
             && amount <= pos.collateral && IsHealthy(m, pos.collateral - amount, pos.debt)
             && amount <= l.collateralVault && c.wallet + amount <= U64_MAX && amount <= m.totalCollateral
    ensures Apply(l, c).Ok?
  {
    hide AccrueMarket, MaxBorrow;
  }

  // ---- positions are what flowed ----

  /** Named by an instruction at an unmoved index, a position changes by what the vaults moved for it. */
  lemma NamedFlows(l: Ledger, c: Call, key: Pubkey)
    requires Apply(l, c).Ok? && Names(c.op, key)
    ensures Pledged(Step(l, c), key) == Pledged(l, key) + TakenIn(l, c, key)
    ensures Step(l, c).market.borrowIndex == l.market.borrowIndex ==>
              Owed(Step(l, c), key) == Owed(l, key) + PaidOut(l, c, key)
  {
    hide Apply, AccrueMarket, AccruePosition, PlanLiquidation;
    match c.op {
      case Borrow(_, _) => BorrowEffect(l, c);
      case Repay(_, _) => RepayEffect(l, c);
      case Liquidate(_, _) => LiquidateEffect(l, c);
      case _ => CollateralEffect(l, c);
    }
    SettledOwes(Step(l, c).positions[key], Step(l, c).market.borrowIndex);
  }

  lemma StepFlows(l: Ledger, c: Call, key: Pubkey)
    ensures Pledged(Step(l, c), key) == Pledged(l, key) + TakenIn(l, c, key)
    ensures Step(l, c).market.borrowIndex == l.market.borrowIndex ==>
              Owed(Step(l, c), key) == Owed(l, key) + PaidOut(l, c, key)
  {
    hide ApplyAt, AccrueMarket, AccruePosition;
    if Apply(l, c).Ok? {
      if Names(c.op, key) {
        NamedFlows(l, c, key);
      } else {
        OthersUntouched(l, AccrueMarket(l.market, c.now), c, key);
      }
    }
  }

  ghost function TotalPaidOut(l: Ledger, calls: seq<Call>, key: Pubkey): int
    decreases |calls|
  {
    if calls == [] then 0 else PaidOut(l, calls[0], key) + TotalPaidOut(Step(l, calls[0]), calls[1..], key)
  }

  ghost function TotalTakenIn(l: Ledger, calls: seq<Call>, key: Pubkey): int
    decreases |calls|
  {
    if calls == [] then 0 else TakenIn(l, calls[0], key) + TotalTakenIn(Step(l, calls[0]), calls[1..], key)
  }

  ghost function TotalIssued(l: Ledger, calls: seq<Call>, key: Pubkey): int
    decreases |calls|
  {
    if calls == [] then 0 else Issued(l, calls[0], key) + TotalIssued(Step(l, calls[0]), calls[1..], key)
  }

  ghost predicate IndexHolds(l: Ledger, calls: seq<Call>)
    decreases |calls|
  {
    calls != [] ==>
      Step(l, calls[0]).market.borrowIndex == l.market.borrowIndex && IndexHolds(Step(l, calls[0]), calls[1..])
  }

  /** Over every run at a fixed index, a position owes what it owed plus what it was lent less what was repaid for it. */
  lemma {:induction false} DebtIsLentLessRepaid(l: Ledger, calls: seq<Call>, key: Pubkey)
    requires IndexHolds(l, calls)
    ensures Owed(Run(l, calls), key) == Owed(l, key) + TotalPaidOut(l, calls, key)
    decreases |calls|
  {
    hide Step, Owed, PaidOut;
    if calls != [] {
      StepFlows(l, calls[0], key);
      DebtIsLentLessRepaid(Step(l, calls[0]), calls[1..], key);
    }
  }

  /** Over every run, collateral is what was supplied less what was withdrawn and seized. */
  lemma {:induction false} CollateralIsWhatFlowed(l: Ledger, calls: seq<Call>, key: Pubkey)
    ensures Pledged(Run(l, calls), key) == Pledged(l, key) + TotalTakenIn(l, calls, key)
    decreases |calls|
  {
    hide Step, Pledged, TakenIn;
    if calls != [] {
      StepFlows(l, calls[0], key);
      CollateralIsWhatFlowed(Step(l, calls[0]), calls[1..], key);
    }
  }

  lemma StepIssues(l: Ledger, c: Call, key: Pubkey)
    ensures LenderShares(Step(l, c), key) == LenderShares(l, key) + Issued(l, c, key)
  {
    hide Apply, AccrueMarket, PlanLiquidation, SharesForDeposit, SharesForWithdraw, AccruePosition;
    AccrualFrame(l.market, c.now);
    if Apply(l, c).Ok? {
      match c.op
      case Borrow(_, _) => BorrowEffect(l, c);
      case Repay(_, _) => RepayEffect(l, c);
      case Liquidate(_, _) => LiquidateEffect(l, c);
      case Supply(_, _) => CollateralEffect(l, c);
      case Withdraw(_, _) => CollateralEffect(l, c);
      case SyncPrice(_, _, _, _) => SuccessNeeds(l, c);
      case _ => LiquidityEffect(l, c);
    }
  }

  /** Over every run, a lender holds the shares issued to it less those it gave up. */
  lemma {:induction false} SharesAreWhatWasIssued(l: Ledger, calls: seq<Call>, key: Pubkey)
    ensures LenderShares(Run(l, calls), key) == LenderShares(l, key) + TotalIssued(l, calls, key)
    decreases |calls|
  {
    hide Step, LenderShares, Issued;
    if calls != [] {
      StepIssues(l, calls[0], key);
      SharesAreWhatWasIssued(Step(l, calls[0]), calls[1..], key);
    }
  }
}
