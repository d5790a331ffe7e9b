/**
 The over-collateralised money market: interest index, lender shares, health
 and liquidation arithmetic, and the ledger transition of every instruction.

 Token accounts other than the market's two vaults enter as the balances the
 caller presents (`wallet`, `payout`); all vault accounts are the recorded ones.
 */
module MoneyMarket {
  import opened Common
  import opened Token

  const PRICE_SCALE: nat := 1_000_000
  const BPS: nat := 10_000
  const INDEX_SCALE: nat := 1_000_000_000_000
  const SECONDS_PER_YEAR: nat := 31_536_000
  const RATE_DEN: nat := 315_360_000_000 // BPS * SECONDS_PER_YEAR

  datatype Params = Params(
    collateralFactorBps: u64,
    liquidationThresholdBps: u64,
    liquidationBonusBps: u64,
    closeFactorBps: u64,
    baseRateBps: u64,
    slopeBps: u64,
    kinkUtilizationBps: u64,
    jumpSlopeBps: u64,
    maxPriceStaleness: u64,
    oracleFeed: Pubkey)

  datatype Market = Market(
    params: Params,
    price: u64,
    priceUpdatedAt: u64,
    totalCollateral: u64,
    totalBorrows: u64,
    totalCash: u64,
    totalLenderShares: u64,
    borrowIndex: u128,
    lastAccrualTs: u64)

  datatype Position = Position(owner: Pubkey, collateral: u64, debt: u64, snapshot: u128)

  datatype Lender = Lender(owner: Pubkey, shares: u64)

  /** One market with every position, lender and vault balance that belongs to it. */
  datatype Ledger = Ledger(
    market: Market,
    positions: map<Pubkey, Position>,
    lenders: map<Pubkey, Lender>,
    borrowVault: u64,
    collateralVault: u64)

  // ---- interest ----

  function PoolValue(m: Market): nat {
    m.totalCash + m.totalBorrows
  }

  function UtilizationBps(m: Market): nat {
    if PoolValue(m) == 0 then 0 else MulDiv(m.totalBorrows, BPS, PoolValue(m))
  }

  function BorrowRateBps(m: Market): nat {
    var util := UtilizationBps(m);
    var kink := m.params.kinkUtilizationBps;
    var jump := if kink != 0 && util > kink then MulDiv(m.params.jumpSlopeBps, util - kink, BPS) else 0;
    m.params.baseRateBps + MulDiv(m.params.slopeBps, util, BPS) + jump
  }

  /** Numerator of the growth factor over `RATE_DEN`, before any wrapping. */
  function GrowthNum(m: Market, now: u64): nat
    requires m.lastAccrualTs <= now
  {
    RATE_DEN + BorrowRateBps(m) * (now - m.lastAccrualTs)
  }

  predicate InterestDue(m: Market, now: u64) {
    m.lastAccrualTs < now && m.totalBorrows > 0 && BorrowRateBps(m) > 0
  }

  function SaturatingMul128(a: u128, b: u128): u128 {
    if a * b < U128_SPAN then a * b else U128_SPAN - 1
  }

  function AccrueMarket(m: Market, now: u64): Market {
    if now <= m.lastAccrualTs then
      if m.lastAccrualTs == 0 then m.(lastAccrualTs := now) else m
    else if !InterestDue(m, now) then
      m.(lastAccrualTs := now)
    else
      var num := Wrap128(GrowthNum(m, now));
      m.(lastAccrualTs := now,
         borrowIndex := SaturatingMul128(m.borrowIndex, num) / RATE_DEN,
         totalBorrows := Trunc64(Wrap128(m.totalBorrows * num) / RATE_DEN))
  }

  /** The grown `total_borrows` still fits its 64 bits. */
  predicate BorrowsInRange(m: Market, now: u64) {
    InterestDue(m, now) ==> MulDiv(m.totalBorrows, GrowthNum(m, now), RATE_DEN) < U64_SPAN
  }

  /** The index product still fits its 128 bits. */
  predicate IndexInRange(m: Market, now: u64) {
    InterestDue(m, now) ==> m.borrowIndex * GrowthNum(m, now) < U128_SPAN
  }

  // ---- lender shares ----

  function LenderShareValue(m: Market, shares: u64): u64 {
    if m.totalLenderShares == 0 then 0
    else Trunc64(MulDiv(shares, PoolValue(m), m.totalLenderShares))
  }

  function SharesForDeposit(m: Market, amount: u64): u64 {
    if m.totalLenderShares == 0 || PoolValue(m) == 0 then amount
    else Trunc64(MulDiv(amount, m.totalLenderShares, PoolValue(m)))
  }

  function SharesForWithdraw(m: Market, amount: u64): u64 {
    if PoolValue(m) == 0 then 0
    else Trunc64(CeilDiv(amount * m.totalLenderShares, PoolValue(m)))
  }

  // ---- positions, health, liquidation ----

  function AccruePosition(pos: Position, index: u128): (r: Position)
    ensures r.owner == pos.owner && r.collateral == pos.collateral && r.snapshot == index
  {
    if pos.snapshot == 0 then pos.(snapshot := index)
    else if pos.debt > 0 && index > pos.snapshot then
      pos.(debt := Trunc64(Wrap128(pos.debt * index) / pos.snapshot), snapshot := index)
    else pos.(snapshot := index)
  }

  function CollateralValue(m: Market, collateral: u64): nat {
    MulDiv(collateral, m.price, PRICE_SCALE)
  }

  function MaxBorrow(m: Market, collateral: u64): nat {
    MulDiv(CollateralValue(m, collateral), m.params.collateralFactorBps, BPS)
  }

  predicate IsHealthy(m: Market, collateral: u64, debt: u64) {
    debt <= MaxBorrow(m, collateral)
  }

  function MaxDebt(m: Market, collateral: u64): nat {
    MulDiv(CollateralValue(m, collateral), m.params.liquidationThresholdBps, BPS)
  }

  predicate IsLiquidatable(m: Market, collateral: u64, debt: u64) {
    debt > MaxDebt(m, collateral)
  }

  function SeizeCollateral(m: Market, repaid: u64): u128
    requires m.price != 0
  {
    Wrap128(MulDiv(repaid, PRICE_SCALE, m.price) * (BPS + m.params.liquidationBonusBps)) / BPS
  }

  predicate CloseFactorOff(m: Market) {
    m.params.closeFactorBps == 0 || m.params.closeFactorBps >= BPS
  }

  /** `clamp(1, debt)` needs `1 <= debt`, so a limiting close factor needs debt. */
  function MaxLiquidationRepay(m: Market, debt: u64): (r: u64)
    requires CloseFactorOff(m) || debt > 0
    ensures r <= debt
    ensures debt > 0 ==> r > 0
    ensures !CloseFactorOff(m) ==> (r - 1) * BPS < debt * m.params.closeFactorBps || r == 1
    ensures !CloseFactorOff(m) ==> debt * m.params.closeFactorBps <= r * BPS
  {
    if CloseFactorOff(m) then debt
    else
      var cf := m.params.closeFactorBps;
      var capped := CeilDiv(debt * cf, BPS);
      CeilBounds(debt * cf, BPS);
      MulMono(cf, BPS, debt);
      CeilIsLeast(debt * cf, BPS, debt);
      Min(Max(capped, 1), debt)
  }

  predicate PriceFresh(m: Market, now: u64) {
    m.price != 0 && SaturatingSub(now, m.priceUpdatedAt) <= m.params.maxPriceStaleness
  }

  // ---- instructions ----

  datatype Op =
    | AddLiquidity(lender: Pubkey, amount: u64)
    | RemoveLiquidity(lender: Pubkey, amount: u64)
    | Supply(position: Pubkey, amount: u64)
    | Withdraw(position: Pubkey, amount: u64)
    | Borrow(position: Pubkey, amount: u64)
    | Repay(position: Pubkey, amount: u64)
    | Liquidate(position: Pubkey, repayAmount: u64)
    | SyncPrice(feed: Pubkey, feedInitialized: bool, feedPrice: u64, publishTs: u64)

  /**
   An instruction as submitted: who calls, whether the caller signed, the
   submitter's timestamp, and the balances of the caller's token accounts (for
   `Liquidate`, `wallet` pays the debt and `payout` receives the collateral).
   */
  datatype Call = Call(caller: Pubkey, signed: bool, now: u64, wallet: u64, payout: u64, op: Op)

  predicate ValidParams(p: Params) {
    && p.collateralFactorBps <= p.liquidationThresholdBps <= BPS
    && p.kinkUtilizationBps <= BPS
    && p.closeFactorBps <= BPS
  }

  /** `InitMarket` on a blank account. */
  function InitMarket(signed: bool, p: Params, price: u64, now: u64): Result<Market> {
    if !signed then Err(MissingSigner) else
    :- Need(p.collateralFactorBps <= BPS && p.liquidationThresholdBps <= BPS, InvalidInstruction);
    :- Need(p.kinkUtilizationBps <= BPS && p.closeFactorBps <= BPS, InvalidInstruction);
    :- Need(p.collateralFactorBps <= p.liquidationThresholdBps, InvalidInstruction);
    :- Need(price != 0, InvalidInstruction);
    Ok(Market(p, price, now, 0, 0, 0, 0, INDEX_SCALE, now))
  }

  function LoadLender(l: Ledger, key: Pubkey, owner: Pubkey): Result<Lender> {
    if key !in l.lenders then Ok(Lender(owner, 0))
    else if l.lenders[key].owner != owner then Err(InvalidAccountData)
    else Ok(l.lenders[key])
  }

  function LoadPosition(l: Ledger, key: Pubkey, owner: Pubkey): Position {
    if key in l.positions then l.positions[key] else Position(owner, 0, 0, 0)
  }

  function ApplyAddLiquidity(l: Ledger, m: Market, c: Call, key: Pubkey, amount: u64): Result<Ledger> {
    if !c.signed then Err(MissingSigner) else
    :- Need(amount != 0, InvalidInstruction);
    var lender :- LoadLender(l, key, c.caller);
    var shares := SharesForDeposit(m, amount);
    var moved :- Transfer(c.wallet, l.borrowVault, amount);
    var cash :- CheckedAdd(m.totalCash, amount);
    var total :- CheckedAdd(m.totalLenderShares, shares);
    var held :- CheckedAdd(lender.shares, shares);
    Ok(l.(market := m.(totalCash := cash, totalLenderShares := total),
          lenders := l.lenders[key := lender.(shares := held)],
          borrowVault := moved.dest))
  }

  function ApplyRemoveLiquidity(l: Ledger, m: Market, c: Call, key: Pubkey, amount: u64): Result<Ledger> {
    if !c.signed then Err(MissingSigner) else
    :- Need(amount != 0, InvalidInstruction);
    var lender :- LoadLender(l, key, c.caller);
    var burn := SharesForWithdraw(m, amount);
    :- Need(burn <= lender.shares, InsufficientFunds);
    :- Need(amount <= m.totalCash, InsufficientLiquidity);
    var moved :- Transfer(l.borrowVault, c.wallet, amount);
    var cash :- CheckedSub(m.totalCash, amount, InsufficientLiquidity);
    var total :- CheckedSub(m.totalLenderShares, burn, Overflow);
    var held :- CheckedSub(lender.shares, burn, InsufficientFunds);
    Ok(l.(market := m.(totalCash := cash, totalLenderShares := total),
          lenders := l.lenders[key := lender.(shares := held)],
          borrowVault := moved.source))
  }

  function ApplySupply(l: Ledger, m: Market, c: Call, key: Pubkey, amount: u64): Result<Ledger> {
    if !c.signed then Err(MissingSigner) else
    var pos := AccruePosition(LoadPosition(l, key, c.caller), m.borrowIndex);
    var moved :- Transfer(c.wallet, l.collateralVault, amount);
    var collateral :- CheckedAdd(pos.collateral, amount);
    var total :- CheckedAdd(m.totalCollateral, amount);
    Ok(l.(market := m.(totalCollateral := total),
          positions := l.positions[key := pos.(collateral := collateral)],
          collateralVault := moved.dest))
  }

  function ApplyWithdraw(l: Ledger, m: Market, c: Call, key: Pubkey, amount: u64): Result<Ledger> {
    if !c.signed then Err(MissingSigner) else
    var loaded := LoadPosition(l, key, c.caller);
    :- Need(loaded.owner == c.caller, Unauthorized);
    var pos := AccruePosition(loaded, m.borrowIndex);
    :- Need(PriceFresh(m, c.now), StalePrice);
    var remaining :- CheckedSub(pos.collateral, amount, InsufficientFunds);
    :- Need(IsHealthy(m, remaining, pos.debt), Undercollateralized);
    var moved :- Transfer(l.collateralVault, c.wallet, amount);
    var total :- CheckedSub(m.totalCollateral, amount, Overflow);
    Ok(l.(market := m.(totalCollateral := total),
          positions := l.positions[key := pos.(collateral := remaining)],
          collateralVault := moved.source))
  }

  function ApplyBorrow(l: Ledger, m: Market, c: Call, key: Pubkey, amount: u64): Result<Ledger> {
    if !c.signed then Err(MissingSigner) else
    var loaded := LoadPosition(l, key, c.caller);
    :- Need(loaded.owner == c.caller, Unauthorized);
    var pos := AccruePosition(loaded, m.borrowIndex);
    :- Need(PriceFresh(m, c.now), StalePrice);
    var debt :- CheckedAdd(pos.debt, amount);
    :- Need(IsHealthy(m, pos.collateral, debt), Undercollateralized);
    var cash :- CheckedSub(m.totalCash, amount, InsufficientLiquidity);
    :- Need(amount <= l.borrowVault, InsufficientLiquidity);
    var moved :- Transfer(l.borrowVault, c.wallet, amount);
    var borrows :- CheckedAdd(m.totalBorrows, amount);
    Ok(l.(market := m.(totalCash := cash, totalBorrows := borrows),
          positions := l.positions[key := pos.(debt := debt)],
          borrowVault := moved.source))
  }

  function ApplyRepay(l: Ledger, m: Market, c: Call, key: Pubkey, amount: u64): Result<Ledger> {
    if !c.signed then Err(MissingSigner) else
    var pos := AccruePosition(LoadPosition(l, key, c.caller), m.borrowIndex);
    var repaid := Min(amount, pos.debt);
    var moved :- Transfer(c.wallet, l.borrowVault, repaid);
    var cash :- CheckedAdd(m.totalCash, repaid);
    Ok(l.(market := m.(totalCash := cash, totalBorrows := SaturatingSub(m.totalBorrows, repaid)),
          positions := l.positions[key := pos.(debt := pos.debt - repaid)],
          borrowVault := moved.dest))
  }

  /** How much debt a liquidation call repays and how much collateral it takes. */
  datatype Seizure = Seizure(repaid: u64, seized: u64)

  function PlanLiquidation(m: Market, pos: Position, repayAmount: u64, now: u64): Result<Seizure> {
    if !PriceFresh(m, now) then Err(StalePrice) else
    :- Need(IsLiquidatable(m, pos.collateral, pos.debt), Unauthorized);
    var repaid := Min(repayAmount, MaxLiquidationRepay(m, pos.debt));
    :- Need(repaid != 0, InvalidInstruction);
    Ok(Seizure(repaid, Min(Trunc64(SeizeCollateral(m, repaid)), pos.collateral)))
  }

  function ApplyLiquidate(l: Ledger, m: Market, c: Call, key: Pubkey, repayAmount: u64): Result<Ledger> {
    if !c.signed then Err(MissingSigner) else
    :- Need(key in l.positions, InvalidAccountData);
    var pos := AccruePosition(l.positions[key], m.borrowIndex);
    var plan :- PlanLiquidation(m, pos, repayAmount, c.now);
    var paid :- Transfer(c.wallet, l.borrowVault, plan.repaid);
    var released :- Transfer(l.collateralVault, c.payout, plan.seized);
    var cash :- CheckedAdd(m.totalCash, plan.repaid);
    Ok(l.(market := m.(totalCash := cash,
                       totalBorrows := SaturatingSub(m.totalBorrows, plan.repaid),
                       totalCollateral := SaturatingSub(m.totalCollateral, plan.seized)),
          positions := l.positions[key := pos.(debt := pos.debt - plan.repaid,
                                               collateral := pos.collateral - plan.seized)],
          borrowVault := paid.dest,
          collateralVault := released.source))
  }

  function ApplySyncPrice(l: Ledger, feed: Pubkey, feedInitialized: bool, feedPrice: u64, publishTs: u64)
    : Result<Ledger>
  {
    if feed != l.market.params.oracleFeed then Err(InvalidAccountData) else
    :- Need(feedInitialized && feedPrice != 0, StalePrice);
    Ok(l.(market := l.market.(price := feedPrice, priceUpdatedAt := publishTs)))
  }

  /** The transition of `c` on a market `m` already accrued to the call's time. */
  function ApplyAt(l: Ledger, m: Market, c: Call): Result<Ledger> {
    match c.op
    case AddLiquidity(key, amount) => ApplyAddLiquidity(l, m, c, key, amount)
    case RemoveLiquidity(key, amount) => ApplyRemoveLiquidity(l, m, c, key, amount)
    case Supply(key, amount) => ApplySupply(l, m, c, key, amount)
    case Withdraw(key, amount) => ApplyWithdraw(l, m, c, key, amount)
    case Borrow(key, amount) => ApplyBorrow(l, m, c, key, amount)
    case Repay(key, amount) => ApplyRepay(l, m, c, key, amount)
    case Liquidate(key, amount) => ApplyLiquidate(l, m, c, key, amount)
    case SyncPrice(feed, initialized, price, ts) => ApplySyncPrice(l, feed, initialized, price, ts)
  }

  function Apply(l: Ledger, c: Call): Result<Ledger> {
    ApplyAt(l, AccrueMarket(l.market, c.now), c)
  }

  // ---- runs ----

  /** A failing instruction persists nothing. */
  function Step(l: Ledger, c: Call): Ledger {
    var r := Apply(l, c);
    if r.Ok? then r.value else l
  }

  function Run(l: Ledger, calls: seq<Call>): Ledger
    decreases |calls|
  {
    if calls == [] then l else Run(Step(l, calls[0]), calls[1..])
  }

  function Fresh(m: Market): Ledger {
    Ledger(m, map[], map[], 0, 0)
  }
}
