/**
 The vault program as it runs: its own fields and the money market it calls,
 updated in place. A failed call changes nothing, except that a withdrawal may
 fail after its redemption from the market; the node then discards the accounts.
 */
module VaultProgram {
  import opened Common
  import opened Token
  import opened Vault
  import opened MarketProgram
  import MM = MoneyMarket

  class VaultAccounts {
    var totalAssets: u64
    var lenderShares: u64
    var totalShares: u64
    var idle: u64
    var shareSupply: u64
    const performanceFeeBps: u64
    const manager: Pubkey
    const vaultKey: Pubkey
    const lenderKey: Pubkey
    const market: MarketAccounts

    function View(): World
      reads this, market
    {
      World(VaultState(totalAssets, lenderShares, totalShares, performanceFeeBps, manager),
            idle, shareSupply, market.View(), vaultKey, lenderKey)
    }

    constructor (feeBps: u64, manager: Pubkey, vaultKey: Pubkey, lenderKey: Pubkey, market: MarketAccounts)
      requires feeBps <= BPS
      ensures this.market == market
      ensures View() == World(VaultState(0, 0, 0, feeBps, manager), 0, 0, market.View(), vaultKey, lenderKey)
    {
      totalAssets, lenderShares, totalShares := 0, 0, 0;
      idle, shareSupply := 0, 0;
      performanceFeeBps := feeBps;
      this.manager, this.vaultKey, this.lenderKey := manager, vaultKey, lenderKey;
      this.market := market;
    }

    method Deposit(supplied: Supplied, signed: bool, wallet: u64, held: u64, amount: u64, minShares: u64)
      returns (r: Result<u64>)
      modifies this
      ensures var spec := Vault.Deposit(old(View()), supplied, signed, wallet, held, amount, minShares);
              && r.Ok? == spec.Ok?
              && (r.Ok? ==> View() == spec.value.world && r.value == spec.value.held)
              && (r.Err? ==> View() == old(View()) && spec == Err(r.error))
    {
      hide IssueFor, DeployedValue;
      var v := View().vault;
      :- Need(signed, MissingSigner);
      :- Need(amount != 0, InvalidInstruction);
      var nav :- LiveNav(View(), supplied);
      var issue :- IssueFor(v, nav, amount);
      :- Need(issue.userShares >= minShares, SlippageExceeded);
      var moved :- Transfer(wallet, idle, amount);
      var minted :- MintTo(Holding(shareSupply, held), issue.userShares);
      var assets :- CheckedAdd(totalAssets, amount);
      var shares :- CheckedAdd(totalShares, issue.supplyDelta);
      idle := moved.dest;
      shareSupply := minted.supply;
      totalAssets, totalShares := assets, shares;
      r := Ok(minted.balance);
    }

    /** `mm_liquidity` with `RemoveLiquidity`: the market pays into the idle balance. */
    method RedeemFromMarket(now: u64, amount: u64) returns (r: Result<()>)
      modifies this, market
      ensures var spec := Redeem(old(View()), now, amount);
              && r.Ok? == spec.Ok?
              && (r.Ok? ==> View() == spec.value)
              && (r.Err? ==> View() == old(View()) && spec == Err(r.error))
    {
      hide MM.AccrueMarket, MM.SharesForWithdraw;
      ghost var l0 := market.View();
      var call := MM.Call(vaultKey, true, now, idle, 0, MM.RemoveLiquidity(lenderKey, amount));
      var _ :- market.RemoveLiquidity(call);
      assert MM.Apply(l0, call) == Ok(market.View());
      idle := idle + amount;
      lenderShares := RecordedShares(market.View(), lenderKey);
      r := Ok(());
    }

    /** `mm_liquidity` with `AddLiquidity`: the idle balance pays into the market. */
    method LendToMarket(now: u64, amount: u64) returns (r: Result<()>)
      modifies this, market
      ensures var spec := Lend(old(View()), now, amount);
              && r.Ok? == spec.Ok?
              && (r.Ok? ==> View() == spec.value)
              && (r.Err? ==> View() == old(View()) && spec == Err(r.error))
    {
      hide MM.AccrueMarket, MM.SharesForDeposit;
      ghost var l0 := market.View();
      var call := MM.Call(vaultKey, true, now, idle, 0, MM.AddLiquidity(lenderKey, amount));
      var _ :- market.AddLiquidity(call);
      assert MM.Apply(l0, call) == Ok(market.View());
      idle := idle - amount;
      lenderShares := RecordedShares(market.View(), lenderKey);
      r := Ok(());
    }

    method Withdraw(supplied: Supplied, signed: bool, now: u64, wallet: u64, held: u64, shares: u64, minAssets: u64)
      returns (r: Result<Served>)
      modifies this, market
      ensures var spec := Vault.Withdraw(old(View()), supplied, signed, now, wallet, held, shares, minAssets);
              && r.Ok? == spec.Ok?
              && (r.Ok? ==> View() == spec.value.world && r.value == spec.value)
              && (r.Err? ==> spec == Err(r.error))
      ensures r.Err? && !supplied.WithRedeem? ==> View() == old(View())
      ensures r.Err? ==> View() == old(View()) || exists needed :: Redeem(old(View()), now, needed) == Ok(View())
    {
      hide AssetsOut, DeployedValue, Redeem;
      :- Need(signed, MissingSigner);
      :- Need(totalShares != 0, NotInitialized);
      var nav :- LiveNav(View(), supplied);
      var out := AssetsOut(View().vault, nav, shares);
      :- Need(out >= minAssets, SlippageExceeded);
      var before := totalShares;
      if idle < out && supplied.WithRedeem? {
        var _ :- RedeemFromMarket(now, out - idle);
      }
      assert Cover(old(View()), supplied, now, out) == Ok(View());
      var burned :- Burn(Holding(shareSupply, held), shares);
      var moved :- Transfer(idle, wallet, out);
      var assets :- CheckedSub(nav, out, InsufficientFunds);
      var left :- CheckedSub(before, shares, InsufficientFunds);
      shareSupply := burned.supply;
      idle := moved.source;
      totalAssets, totalShares := assets, left;
      r := Ok(Served(View(), burned.balance, out));
    }

    method Report(caller: Pubkey, signed: bool, hasMarket: bool, managerShares: u64) returns (r: Result<()>)
      modifies this
      ensures var spec := Vault.Report(old(View()), caller, signed, hasMarket, managerShares);
              && r.Ok? == spec.Ok?
              && (r.Ok? ==> View() == spec.value)
              && (r.Err? ==> View() == old(View()) && spec == Err(r.error))
    {
      hide FeeShares, DeployedValue;
      :- Need(signed, MissingSigner);
      :- Need(caller == manager, Unauthorized);
      var deployed: u64 := 0;
      if lenderShares > 0 {
        :- Need(hasMarket, NotEnoughAccounts);
        deployed := DeployedValue(View());
      }
      var nav :- CheckedAdd(idle, deployed);
      var fee := FeeShares(View().vault, nav);
      if fee > 0 {
        var minted :- MintTo(Holding(shareSupply, managerShares), fee);
        var shares :- CheckedAdd(totalShares, fee);
        shareSupply := minted.supply;
        totalShares := shares;
      }
      totalAssets := nav;
      r := Ok(());
    }

    method Deploy(caller: Pubkey, signed: bool, now: u64, amount: u64) returns (r: Result<()>)
      modifies this, market
      ensures var spec := Vault.Deploy(old(View()), caller, signed, now, amount);
              && r.Ok? == spec.Ok?
              && (r.Ok? ==> View() == spec.value)
              && (r.Err? ==> View() == old(View()) && spec == Err(r.error))
    {
      hide Lend;
      :- Need(signed, MissingSigner);
      :- Need(amount != 0, InvalidInstruction);
      :- Need(caller == manager, Unauthorized);
      r := LendToMarket(now, amount);
    }

    method Undeploy(caller: Pubkey, signed: bool, now: u64, amount: u64) returns (r: Result<()>)
      modifies this, market
      ensures var spec := Vault.Undeploy(old(View()), caller, signed, now, amount);
              && r.Ok? == spec.Ok?
              && (r.Ok? ==> View() == spec.value)
              && (r.Err? ==> View() == old(View()) && spec == Err(r.error))
    {
      hide Redeem;
      :- Need(signed, MissingSigner);
      :- Need(amount != 0, InvalidInstruction);
      :- Need(caller == manager, Unauthorized);
      r := RedeemFromMarket(now, amount);
    }
  }
}
