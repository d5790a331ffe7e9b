/** The money-market program as it runs: account state updated in place. */
module MarketProgram {
  import opened Common
  import opened Token
  import opened MoneyMarket

  /** `accrue_market`: grows a working copy of the market up to `now`. */
  method Accrue(market: Market, now: u64) returns (m: Market)
    ensures m == AccrueMarket(market, now)
  {
    m := market;
    if now <= m.lastAccrualTs {
      if m.lastAccrualTs == 0 {
        m := m.(lastAccrualTs := now);
      }
      return;
    }
    var elapsed := now - m.lastAccrualTs;
    m := m.(lastAccrualTs := now);
    if m.totalBorrows == 0 {
      return;
    }
    var annualBps := BorrowRateBps(market);
    if annualBps == 0 {
      return;
    }
    assert RATE_DEN + annualBps * elapsed == GrowthNum(market, now);
    var num := Wrap128(GrowthNum(market, now));
    m := m.(borrowIndex := SaturatingMul128(m.borrowIndex, num) / RATE_DEN);
    m := m.(totalBorrows := Trunc64(Wrap128(m.totalBorrows * num) / RATE_DEN));
  }

  /** The accounts one market owns. */
  class MarketAccounts {
    var market: Market
    var positions: map<Pubkey, Position>
    var lenders: map<Pubkey, Lender>
    var borrowVault: u64
    var collateralVault: u64

    function View(): Ledger
      reads this
    {
      Ledger(market, positions, lenders, borrowVault, collateralVault)
    }

    constructor (m: Market)
      ensures View() == Fresh(m)
    {
      market := m;
      positions, lenders := map[], map[];
      borrowVault, collateralVault := 0, 0;
    }

    method AddLiquidity(c: Call) returns (r: Result<()>)
      requires c.op.AddLiquidity?
      modifies this
      ensures View() == Step(old(View()), c)
      ensures r.Ok? == Apply(old(View()), c).Ok?
      ensures r.Err? ==> Apply(old(View()), c) == Err(r.error)
    {
      hide AccrueMarket, SharesForDeposit;
      var amount, key := c.op.amount, c.op.lender;
      :- Need(c.signed, MissingSigner);
      :- Need(amount != 0, InvalidInstruction);
      var m := Accrue(market, c.now);
      var lender :- LoadLender(View(), key, c.caller);
      var shares := SharesForDeposit(m, amount);
      var moved :- Transfer(c.wallet, borrowVault, amount);
      var cash :- CheckedAdd(m.totalCash, amount);
      m := m.(totalCash := cash);
      var total :- CheckedAdd(m.totalLenderShares, shares);
      m := m.(totalLenderShares := total);
      var held :- CheckedAdd(lender.shares, shares);
      lender := lender.(shares := held);
      market, lenders, borrowVault := m, lenders[key := lender], moved.dest;
      r := Ok(());
    }

    method RemoveLiquidity(c: Call) returns (r: Result<()>)
      requires c.op.RemoveLiquidity?
      modifies this
      ensures View() == Step(old(View()), c)
      ensures r.Ok? == Apply(old(View()), c).Ok?
      ensures r.Err? ==> Apply(old(View()), c) == Err(r.error)
    {
      hide AccrueMarket, SharesForWithdraw;
      var amount, key := c.op.amount, c.op.lender;
      :- Need(c.signed, MissingSigner);
      :- Need(amount != 0, InvalidInstruction);
      var m := Accrue(market, c.now);
      var lender :- LoadLender(View(), key, c.caller);
      var burn := SharesForWithdraw(m, amount);
      :- Need(burn <= lender.shares, InsufficientFunds);
      :- Need(amount <= m.totalCash, InsufficientLiquidity);
      var moved :- Transfer(borrowVault, c.wallet, amount);
      // The checks above make the cash and holding subtractions exact.
      m := m.(totalCash := m.totalCash - amount);
      var total :- CheckedSub(m.totalLenderShares, burn, Overflow);
      m := m.(totalLenderShares := total);
      lender := lender.(shares := lender.shares - burn);
      market, lenders, borrowVault := m, lenders[key := lender], moved.source;
      r := Ok(());
    }

    method Supply(c: Call) returns (r: Result<()>)
      requires c.op.Supply?
      modifies this
      ensures View() == Step(old(View()), c)
      ensures r.Ok? == Apply(old(View()), c).Ok?
      ensures r.Err? ==> Apply(old(View()), c) == Err(r.error)
    {
      hide AccrueMarket, AccruePosition;
      var amount, key := c.op.amount, c.op.position;
      :- Need(c.signed, MissingSigner);
      var m := Accrue(market, c.now);
      var pos := AccruePosition(LoadPosition(View(), key, c.caller), m.borrowIndex);
      var moved :- Transfer(c.wallet, collateralVault, amount);
      var collateral :- CheckedAdd(pos.collateral, amount);
      pos := pos.(collateral := collateral);
      var total :- CheckedAdd(m.totalCollateral, amount);
      m := m.(totalCollateral := total);
      market, positions, collateralVault := m, positions[key := pos], moved.dest;
      r := Ok(());
    }

    method Withdraw(c: Call) returns (r: Result<()>)
      requires c.op.Withdraw?
      modifies this
      ensures View() == Step(old(View()), c)
      ensures r.Ok? == Apply(old(View()), c).Ok?
      ensures r.Err? ==> Apply(old(View()), c) == Err(r.error)
    {
      hide AccrueMarket, AccruePosition, IsHealthy, PriceFresh;
      var amount, key := c.op.amount, c.op.position;
      :- Need(c.signed, MissingSigner);
      var m := Accrue(market, c.now);
      var pos := LoadPosition(View(), key, c.caller);
      :- Need(pos.owner == c.caller, Unauthorized);
      pos := AccruePosition(pos, m.borrowIndex);
      :- Need(PriceFresh(m, c.now), StalePrice);
      var remaining :- CheckedSub(pos.collateral, amount, InsufficientFunds);
      :- Need(IsHealthy(m, remaining, pos.debt), Undercollateralized);
      var moved :- Transfer(collateralVault, c.wallet, amount);
      pos := pos.(collateral := remaining);
      var total :- CheckedSub(m.totalCollateral, amount, Overflow);
      m := m.(totalCollateral := total);
      market, positions, collateralVault := m, positions[key := pos], moved.source;
      r := Ok(());
    }

    method Borrow(c: Call) returns (r: Result<()>)
      requires c.op.Borrow?
      modifies this
      ensures View() == Step(old(View()), c)
      ensures r.Ok? == Apply(old(View()), c).Ok?
      ensures r.Err? ==> Apply(old(View()), c) == Err(r.error)
    {
      hide AccrueMarket, AccruePosition, IsHealthy, PriceFresh;
      var amount, key := c.op.amount, c.op.position;
      :- Need(c.signed, MissingSigner);
      var m := Accrue(market, c.now);
      var pos := LoadPosition(View(), key, c.caller);
      :- Need(pos.owner == c.caller, Unauthorized);
      pos := AccruePosition(pos, m.borrowIndex);
      :- Need(PriceFresh(m, c.now), StalePrice);
      var debt :- CheckedAdd(pos.debt, amount);
      :- Need(IsHealthy(m, pos.collateral, debt), Undercollateralized);
      var cash :- CheckedSub(m.totalCash, amount, InsufficientLiquidity);
      :- Need(amount <= borrowVault, InsufficientLiquidity);
      var moved :- Transfer(borrowVault, c.wallet, amount);
      pos := pos.(debt := debt);
      m := m.(totalCash := cash);
      var borrows :- CheckedAdd(m.totalBorrows, amount);
      m := m.(totalBorrows := borrows);
      market, positions, borrowVault := m, positions[key := pos], moved.source;
      r := Ok(());
    }

    method Repay(c: Call) returns (r: Result<()>)
      requires c.op.Repay?
      modifies this
      ensures View() == Step(old(View()), c)
      ensures r.Ok? == Apply(old(View()), c).Ok?
      ensures r.Err? ==> Apply(old(View()), c) == Err(r.error)
    {
      hide AccrueMarket, AccruePosition;
      var amount, key := c.op.amount, c.op.position;
      :- Need(c.signed, MissingSigner);
      var m := Accrue(market, c.now);
      var pos := AccruePosition(LoadPosition(View(), key, c.caller), m.borrowIndex);
      var repaid := Min(amount, pos.debt);
      var moved :- Transfer(c.wallet, borrowVault, repaid);
      pos := pos.(debt := pos.debt - repaid);
      var cash :- CheckedAdd(m.totalCash, repaid);
      m := m.(totalCash := cash, totalBorrows := SaturatingSub(m.totalBorrows, repaid));
      market, positions, borrowVault := m, positions[key := pos], moved.dest;
      r := Ok(());
    }

    method Liquidate(c: Call) returns (r: Result<()>)
      requires c.op.Liquidate?
      modifies this
      ensures View() == Step(old(View()), c)
      ensures r.Ok? == Apply(old(View()), c).Ok?
      ensures r.Err? ==> Apply(old(View()), c) == Err(r.error)
    {
      hide AccrueMarket, AccruePosition, SeizeCollateral, MaxLiquidationRepay, MaxDebt, PriceFresh;
      var key := c.op.position;
      :- Need(c.signed, MissingSigner);
      var m := Accrue(market, c.now);
      :- Need(key in positions, InvalidAccountData);
      var pos := AccruePosition(positions[key], m.borrowIndex);
      var plan :- PlanLiquidation(m, pos, c.op.repayAmount, c.now);
      var paid :- Transfer(c.wallet, borrowVault, plan.repaid);
      var released :- Transfer(collateralVault, c.payout, plan.seized);
      pos := pos.(debt := pos.debt - plan.repaid, collateral := pos.collateral - plan.seized);
      m := m.(totalBorrows := SaturatingSub(m.totalBorrows, plan.repaid));
      var cash :- CheckedAdd(m.totalCash, plan.repaid);
      m := m.(totalCash := cash, totalCollateral := SaturatingSub(m.totalCollateral, plan.seized));
      market, positions := m, positions[key := pos];
      borrowVault, collateralVault := paid.dest, released.source;
      r := Ok(());
    }

    method SyncPrice(c: Call) returns (r: Result<()>)
      requires c.op.SyncPrice?
      modifies this
      ensures View() == Step(old(View()), c)
      ensures r.Ok? == Apply(old(View()), c).Ok?
      ensures r.Err? ==> Apply(old(View()), c) == Err(r.error)
    {
      hide AccrueMarket;
      :- Need(c.op.feed == market.params.oracleFeed, InvalidAccountData);
      :- Need(c.op.feedInitialized && c.op.feedPrice != 0, StalePrice);
      market := market.(price := c.op.feedPrice);
      market := market.(priceUpdatedAt := c.op.publishTs);
      r := Ok(());
    }

    /** `process`: one instruction, refined by the ledger transition. */
    method Process(c: Call) returns (r: Result<()>)
      modifies this
      ensures View() == Step(old(View()), c)
      ensures r.Ok? == Apply(old(View()), c).Ok?
      ensures r.Err? ==> View() == old(View()) && Apply(old(View()), c) == Err(r.error)
    {
      hide AccrueMarket;
      match c.op
      case AddLiquidity(_, _) => r := AddLiquidity(c);
      case RemoveLiquidity(_, _) => r := RemoveLiquidity(c);
      case Supply(_, _) => r := Supply(c);
      case Withdraw(_, _) => r := Withdraw(c);
      case Borrow(_, _) => r := Borrow(c);
      case Repay(_, _) => r := Repay(c);
      case Liquidate(_, _) => r := Liquidate(c);
      case SyncPrice(_, _, _, _) => r := SyncPrice(c);
    }
  }
}
