/**
 The yield vault: shares over an asset, priced off cached or live net asset
 value, with idle assets lent into the money market.
 */
module Vault {
  import opened Common
  import opened Token
  import MM = MoneyMarket

  const BPS: nat := 10_000
  const MIN_SHARES: u64 := 1000

  datatype VaultState = VaultState(
    totalAssets: u64,
    lenderShares: u64,
    totalShares: u64,
    performanceFeeBps: u64,
    manager: Pubkey)

  /** Which optional market accounts an instruction carries. */
  datatype Supplied = Basic | WithMarket | WithRedeem

  /**
   The vault with its idle asset balance, its share mint, the market it lends
   to, and the keys of the vault account and of its lender position there.
   */
  datatype World = World(
    vault: VaultState,
    idle: u64,
    shareSupply: u64,
    ledger: MM.Ledger,
    vaultKey: Pubkey,
    lenderKey: Pubkey)

  function DeployedValue(w: World): u64 {
    MM.LenderShareValue(w.ledger.market, w.vault.lenderShares)
  }

  /** Idle balance plus the redeemable value of the lender shares. */
  function Nav(w: World): nat {
    w.idle + DeployedValue(w)
  }

  /** The value shares are priced off. */
  function Basis(w: World, supplied: Supplied): nat {
    if w.vault.lenderShares > 0 && !supplied.Basic? then Nav(w) else w.vault.totalAssets
  }

  function LiveNav(w: World, supplied: Supplied): Result<u64> {
    if Basis(w, supplied) <= U64_MAX then Ok(Basis(w, supplied)) else Err(Overflow)
  }

  /** A user instruction's outcome: the vault's world and the user's share balance. */
  datatype Served = Served(world: World, held: u64, assets: u64)

  datatype Issue = Issue(userShares: u64, supplyDelta: u64)

  /** Shares for a deposit; the first one locks `MIN_SHARES`. */
  function IssueFor(v: VaultState, nav: u64, amount: u64): Result<Issue> {
    if v.totalShares == 0 then
      var u :- CheckedSub(amount, MIN_SHARES, InsufficientFunds);
      Ok(Issue(u, amount))
    else
      var s := Trunc64(MulDiv(amount, v.totalShares, Max(nav, 1)));
      Ok(Issue(s, s))
  }

  function Deposit(w: World, supplied: Supplied, signed: bool, wallet: u64, held: u64, amount: u64, minShares: u64)
    : Result<Served>
  {
    if !signed then Err(MissingSigner) else
    :- Need(amount != 0, InvalidInstruction);
    var nav :- LiveNav(w, supplied);
    var issue :- IssueFor(w.vault, nav, amount);
    :- Need(issue.userShares >= minShares, SlippageExceeded);
    var moved :- Transfer(wallet, w.idle, amount);
    var minted :- MintTo(Holding(w.shareSupply, held), issue.userShares);
    var assets :- CheckedAdd(w.vault.totalAssets, amount);
    var shares :- CheckedAdd(w.vault.totalShares, issue.supplyDelta);
    Ok(Served(
         w.(vault := w.vault.(totalAssets := assets, totalShares := shares),
            idle := moved.dest, shareSupply := minted.supply),
         minted.balance, amount))
  }

  function MarketCall(w: World, now: u64, op: MM.Op): MM.Call {
    MM.Call(w.vaultKey, true, now, w.idle, 0, op)
  }

  /** Lender shares recorded in the vault's position account. */
  function RecordedShares(l: MM.Ledger, key: Pubkey): u64 {
    if key in l.lenders then l.lenders[key].shares else 0
  }

  /** Lends `amount` of idle assets to the market. */
  function Lend(w: World, now: u64, amount: u64): Result<World> {
    var l :- MM.Apply(w.ledger, MarketCall(w, now, MM.AddLiquidity(w.lenderKey, amount)));
    var idle :- CheckedSub(w.idle, amount, InsufficientFunds);
    Ok(w.(ledger := l, idle := idle,
          vault := w.vault.(lenderShares := RecordedShares(l, w.lenderKey))))
  }

  /** Redeems `amount` from the market into the idle balance. */
  function Redeem(w: World, now: u64, amount: u64): Result<World> {
    var l :- MM.Apply(w.ledger, MarketCall(w, now, MM.RemoveLiquidity(w.lenderKey, amount)));
    var idle :- CheckedAdd(w.idle, amount);
    Ok(w.(ledger := l, idle := idle,
          vault := w.vault.(lenderShares := RecordedShares(l, w.lenderKey))))
  }

  function AssetsOut(v: VaultState, nav: u64, shares: u64): u64
    requires v.totalShares != 0
  {
    Trunc64(MulDiv(shares, nav, v.totalShares))
  }

  /** The world with enough idle assets, if the market can be asked for the shortfall. */
  function Cover(w: World, supplied: Supplied, now: u64, needed: u64): Result<World> {
    if w.idle < needed && supplied.WithRedeem? then Redeem(w, now, needed - w.idle) else Ok(w)
  }

  function Withdraw(w: World, supplied: Supplied, signed: bool, now: u64, wallet: u64, held: u64,
                    shares: u64, minAssets: u64)
    : Result<Served>
  {
    if !signed then Err(MissingSigner) else
    :- Need(w.vault.totalShares != 0, NotInitialized);
    var nav :- LiveNav(w, supplied);
    var out := AssetsOut(w.vault, nav, shares);
    :- Need(out >= minAssets, SlippageExceeded);
    var covered :- Cover(w, supplied, now, out);
    var burned :- Burn(Holding(covered.shareSupply, held), shares);
    var moved :- Transfer(covered.idle, wallet, out);
    var assets :- CheckedSub(nav, out, InsufficientFunds);
    var left :- CheckedSub(w.vault.totalShares, shares, InsufficientFunds);
    Ok(Served(
         covered.(vault := covered.vault.(totalAssets := assets, totalShares := left),
                  idle := moved.source, shareSupply := burned.supply),
         burned.balance, out))
  }

  /** Performance-fee shares on the profit since the last report. */
  function FeeShares(v: VaultState, nav: u64): u64 {
    var fee := MulDiv(SaturatingSub(nav, v.totalAssets), v.performanceFeeBps, BPS);
    if 0 < fee < nav then Trunc64(MulDiv(fee, v.totalShares, nav - fee)) else 0
  }

  function Report(w: World, caller: Pubkey, signed: bool, hasMarket: bool, managerShares: u64): Result<World> {
    if !signed then Err(MissingSigner) else
    :- Need(caller == w.vault.manager, Unauthorized);
    :- Need(w.vault.lenderShares == 0 || hasMarket, NotEnoughAccounts);
    var deployed := if w.vault.lenderShares > 0 then DeployedValue(w) else 0;
    var nav :- CheckedAdd(w.idle, deployed);
    var fee := FeeShares(w.vault, nav);
    var minted :- if fee > 0 then MintTo(Holding(w.shareSupply, managerShares), fee)
                  else Ok(Holding(w.shareSupply, managerShares));
    var shares :- CheckedAdd(w.vault.totalShares, fee);
    Ok(w.(vault := w.vault.(totalAssets := nav, totalShares := shares), shareSupply := minted.supply))
  }

  function Deploy(w: World, caller: Pubkey, signed: bool, now: u64, amount: u64): Result<World> {
    if !signed then Err(MissingSigner) else
    :- Need(amount != 0, InvalidInstruction);
    :- Need(caller == w.vault.manager, Unauthorized);
    Lend(w, now, amount)
  }

  function Undeploy(w: World, caller: Pubkey, signed: bool, now: u64, amount: u64): Result<World> {
    if !signed then Err(MissingSigner) else
    :- Need(amount != 0, InvalidInstruction);
    :- Need(caller == w.vault.manager, Unauthorized);
    Redeem(w, now, amount)
  }
}
