/** How closely the vault's prices follow their formulas, and what its books record. */
module VaultLaws {
  import opened Common
  import opened Token
  import opened Vault
  import opened VaultSafety
  import MM = MoneyMarket

  // ---- prices, from both sides ----

  /** A payout is the shares' part of the basis, rounded down and no further. */
  lemma PayoutLaw(v: VaultState, nav: u64, shares: u64)
    requires 0 < v.totalShares && shares <= v.totalShares
    ensures var out := AssetsOut(v, nav, shares);
            out * v.totalShares <= shares * nav < (out + 1) * v.totalShares
  {
    var s := v.totalShares;
    FloorBounds(shares * nav, s);
    MulMono(shares, s, nav);
    FloorAtMost(shares * nav, s, nav);
    assert (MulDiv(shares, nav, s) + 1) * s == MulDiv(shares, nav, s) * s + s;
  }

  /** After the bootstrap a deposit gets its part of the shares, rounded down and no further, while that fits. */
  lemma IssueLaw(v: VaultState, nav: u64, amount: u64)
    requires 0 < v.totalShares && amount * v.totalShares < U64_SPAN * Max(nav, 1)
    ensures IssueFor(v, nav, amount).Ok?
    ensures var i := IssueFor(v, nav, amount).value;
            && i.userShares == i.supplyDelta
            && i.userShares * Max(nav, 1) <= amount * v.totalShares < (i.userShares + 1) * Max(nav, 1)
  {
    CastFloor(amount * v.totalShares, Max(nav, 1));
    hide Trunc64;
  }

  /** The first deposit gets one share a unit, less the thousand locked; too small a one fails. */
  lemma BootstrapIssue(v: VaultState, nav: u64, amount: u64)
    requires v.totalShares == 0
    ensures IssueFor(v, nav, amount).Ok? <==> amount >= 1_000
    ensures amount >= 1_000 ==> IssueFor(v, nav, amount).value == Issue(amount - 1_000, amount)
  {
  }

  /** The fee is its part of the profit, and its shares are worth it at the new price, each rounded down and no further. */
  lemma FeeLaw(v: VaultState, nav: u64, fee: nat)
    requires v.totalAssets <= nav && v.performanceFeeBps <= BPS
    requires fee * BPS <= (nav - v.totalAssets) * v.performanceFeeBps < (fee + 1) * BPS
    requires fee * v.totalShares < U64_SPAN * (nav - fee)
    ensures var minted := FeeShares(v, nav);
            minted * (nav - fee) <= fee * v.totalShares < (minted + 1) * (nav - fee)
  {
    var profit := nav - v.totalAssets;
    FloorIsGreatest(profit * v.performanceFeeBps, BPS, fee);
    FloorAtMost(profit * v.performanceFeeBps, BPS, fee);
    assert MulDiv(profit, v.performanceFeeBps, BPS) == fee;
    var d := nav - fee;
    assert d > 0;
    CastFloor(fee * v.totalShares, d);
    hide Trunc64;
  }

  // ---- in and out again ----

  lemma RoundTripLoss(n: nat, s: nat, a: nat, k: nat, out: nat)
    requires a * s < (k + 1) * n && k * (n + a) < (out + 1) * (s + k)
    ensures (a - out - 1) * (s + k) < n
  {
    assert (a - out - 1) * (s + k) == a * s + a * k - (out + 1) * (s + k);
    assert k * (n + a) == k * n + k * a;
    assert (k + 1) * n == k * n + n;
  }

  /** What a deposit leaves: assets in, shares out, basis up by the amount. */
  lemma DepositParts(w: World, supplied: Supplied, wallet: u64, held: u64, amount: u64, minShares: u64)
    requires Vault.Deposit(w, supplied, true, wallet, held, amount, minShares).Ok?
    ensures Basis(w, supplied) <= U64_MAX && IssueFor(w.vault, Basis(w, supplied), amount).Ok?
    ensures var served, i := Vault.Deposit(w, supplied, true, wallet, held, amount, minShares).value,
                             IssueFor(w.vault, Basis(w, supplied), amount).value;
            var w' := served.world;
            && 0 < amount <= wallet && minShares <= i.userShares
            && w'.idle == w.idle + amount && w'.ledger == w.ledger
            && w'.vault == w.vault.(totalAssets := w.vault.totalAssets + amount,
                                    totalShares := w.vault.totalShares + i.supplyDelta)
            && w'.shareSupply == w.shareSupply + i.userShares
            && served.held == held + i.userShares && served.assets == amount
            && Basis(w', supplied) == Basis(w, supplied) + amount
  {
    hide IssueFor, DeployedValue;
    NavFrame(w, Vault.Deposit(w, supplied, true, wallet, held, amount, minShares).value.world);
  }

  /**
   Depositing into a bootstrapped vault and redeeming the shares at the basis
   they left loses less than one share's worth plus one unit.
   */
  lemma DepositThenRedeem(w: World, supplied: Supplied, wallet: u64, amount: u64, minShares: u64,
                          now: u64, wallet': u64, minAssets: u64)
    requires w.vault.totalShares > 0 && Basis(w, supplied) > 0
    requires amount * w.vault.totalShares < U64_SPAN * Basis(w, supplied)
    requires Vault.Deposit(w, supplied, true, wallet, 0, amount, minShares).Ok?
    requires var d := Vault.Deposit(w, supplied, true, wallet, 0, amount, minShares).value;
             Vault.Withdraw(d.world, supplied, true, now, wallet', d.held, d.held, minAssets).Ok?
    ensures var d := Vault.Deposit(w, supplied, true, wallet, 0, amount, minShares).value;
            var out := Vault.Withdraw(d.world, supplied, true, now, wallet', d.held, d.held, minAssets).value.assets;
            (amount - out - 1) * d.world.vault.totalShares < Basis(w, supplied)
  {
    hide Vault.Deposit, Vault.Withdraw, Basis, IssueFor, AssetsOut;
    DepositParts(w, supplied, wallet, 0, amount, minShares);
    var n, s := Basis(w, supplied), w.vault.totalShares;
    IssueLaw(w.vault, n, amount);
    var d := Vault.Deposit(w, supplied, true, wallet, 0, amount, minShares).value;
    WithdrawParts(d.world, supplied, now, wallet', d.held, d.held, minAssets);
    var out := AssetsOut(d.world.vault, Basis(d.world, supplied), d.held);
    PayoutLaw(d.world.vault, n + amount, d.held);
    RoundTripLoss(n, s, amount, d.held, out);
  }

  // ---- books ----

  /** With the market's accounts at hand and lender shares held, both sides trade at live NAV. */
  lemma TradesAtNav(w: World, supplied: Supplied)
    requires !supplied.Basic? && w.vault.lenderShares > 0
    ensures Basis(w, supplied) == w.idle + MM.LenderShareValue(w.ledger.market, w.vault.lenderShares)
  {
  }

  /** A report books idle plus the value of the lender shares, and mints the fee shares to supply and manager alike. */
  lemma ReportBooks(w: World, caller: Pubkey, signed: bool, hasMarket: bool, managerShares: u64)
    requires Vault.Report(w, caller, signed, hasMarket, managerShares).Ok?
    ensures var w' := Vault.Report(w, caller, signed, hasMarket, managerShares).value;
            var value := MM.LenderShareValue(w.ledger.market, w.vault.lenderShares);
            && signed && caller == w.vault.manager && (w.vault.lenderShares > 0 ==> hasMarket)
            && w'.vault.totalAssets == w.idle + (if w.vault.lenderShares > 0 then value else 0)
            && w'.vault.totalShares - w.vault.totalShares == w'.shareSupply - w.shareSupply
               == FeeShares(w.vault, w'.vault.totalAssets)
            && w' == w.(vault := w'.vault, shareSupply := w'.shareSupply)
            && w'.vault == w.vault.(totalAssets := w'.vault.totalAssets, totalShares := w'.vault.totalShares)
  {
    hide FeeShares, MM.LenderShareValue;
  }

  /** Who may do what: trading takes a signature and something to trade, moving funds the manager's. */
  lemma SuccessNeeds(w: World, caller: Pubkey, signed: bool, now: u64, amount: u64)
    ensures Vault.Deploy(w, caller, signed, now, amount).Ok? || Vault.Undeploy(w, caller, signed, now, amount).Ok?
            ==> signed && amount > 0 && caller == w.vault.manager
    ensures forall supplied, wallet, held, min ::
              Vault.Deposit(w, supplied, signed, wallet, held, amount, min).Ok? ==> signed && amount > 0
    ensures forall supplied, wallet, held, min ::
              Vault.Withdraw(w, supplied, signed, now, wallet, held, amount, min).Ok? ==> signed
  {
    hide Lend, Redeem, IssueFor, AssetsOut, Cover, Basis;
  }

  /** A withdrawal never pays less than its minimum, nor burns shares its holder lacks. */
  lemma WithdrawNeeds(w: World, supplied: Supplied, signed: bool, now: u64, wallet: u64, held: u64, shares: u64, minAssets: u64)
    requires Vault.Withdraw(w, supplied, signed, now, wallet, held, shares, minAssets).Ok?
    ensures signed && minAssets <= Vault.Withdraw(w, supplied, signed, now, wallet, held, shares, minAssets).value.assets
    ensures shares <= held && shares <= w.vault.totalShares
  {
    hide AssetsOut, Basis, Cover;
  }

  /** Shares held are redeemed whenever idle funds cover them and the minimum is met. */
  lemma WithdrawAvailable(w: World, supplied: Supplied, now: u64, wallet: u64, held: u64, shares: u64, minAssets: u64)
    requires 0 < w.vault.totalShares && shares <= w.vault.totalShares && shares <= held && shares <= w.shareSupply
    requires Basis(w, supplied) <= U64_MAX
    requires var out := AssetsOut(w.vault, Basis(w, supplied), shares);
             minAssets <= out <= w.idle && wallet + out <= U64_MAX
    ensures Vault.Withdraw(w, supplied, true, now, wallet, held, shares, minAssets).Ok?
  {
    var nav: u64 := Basis(w, supplied);
    PayoutLaw(w.vault, nav, shares);
    var out, s := AssetsOut(w.vault, nav, shares), w.vault.totalShares;
    hide AssetsOut, Basis;
    MulMono(shares, s, nav);
    CancelLe(out, nav, s);
  }

  /** The manager can always report what fits. */
  lemma ReportAvailable(w: World, managerShares: u64)
    requires Nav(w) <= U64_MAX
    requires var fee := FeeShares(w.vault, if w.vault.lenderShares > 0 then Nav(w) else w.idle);
             && w.shareSupply + fee <= U64_MAX && managerShares + fee <= U64_MAX && w.vault.totalShares + fee <= U64_MAX
    ensures Vault.Report(w, w.vault.manager, true, true, managerShares).Ok?
  {
    hide FeeShares, DeployedValue;
  }

  /** Nothing is minted before the first deposit; afterwards the supply is short of the books by the locked shares. */
  predicate ShareBooks(w: World) {
    if w.vault.totalShares == 0 then w.shareSupply == 0 else w.vault.totalShares == w.shareSupply + 1_000
  }

  lemma DepositShares(w: World, op: Op)
    requires op.Deposit? && ShareBooks(w) && Apply(w, op).Ok?
    ensures ShareBooks(Apply(w, op).value)
  {
    hide Vault.Deposit, Basis, IssueFor, DeployedValue;
    DepositParts(w, op.supplied, op.wallet, op.held, op.amount, op.minShares);
    if w.vault.totalShares == 0 {
      BootstrapIssue(w.vault, Basis(w, op.supplied), op.amount);
    } else {
      IssueRoundsDown(w.vault, Basis(w, op.supplied), op.amount);
    }
  }

  lemma WithdrawShares(w: World, op: Op)
    requires op.Withdraw? && ShareBooks(w) && Apply(w, op).Ok?
    ensures ShareBooks(Apply(w, op).value)
  {
    hide AssetsOut, Basis, MM.Apply;
  }

  lemma StepKeepsShareBooks(w: World, op: Op)
    requires ShareBooks(w)
    ensures ShareBooks(Step(w, op))
  {
    hide Vault.Deposit, Vault.Withdraw, Vault.Report, MM.Apply;
    if Apply(w, op).Ok? {
      match op
      case Deposit(_, _, _, _, _) => DepositShares(w, op);
      case Withdraw(_, _, _, _, _, _) => WithdrawShares(w, op);
      case Report(hasMarket, managerShares) => ReportShares(w, hasMarket, managerShares);
      case _ =>
    }
  }

  lemma ReportShares(w: World, hasMarket: bool, managerShares: u64)
    requires ShareBooks(w) && Vault.Report(w, w.vault.manager, true, hasMarket, managerShares).Ok?
    ensures ShareBooks(Vault.Report(w, w.vault.manager, true, hasMarket, managerShares).value)
  {
    ReportBooks(w, w.vault.manager, true, hasMarket, managerShares);
    if w.vault.totalShares == 0 {
      NoSharesNoFee(w.vault, Vault.Report(w, w.vault.manager, true, hasMarket, managerShares).value.vault.totalAssets);
    }
    hide Vault.Report, FeeShares, MM.LenderShareValue;
  }

  lemma NoSharesNoFee(v: VaultState, nav: u64)
    requires v.totalShares == 0
    ensures FeeShares(v, nav) == 0
  {
  }

  /** Over every run, shares on the books are the shares minted plus the thousand locked. */
  lemma {:induction false} SharesMatchSupply(w: World, ops: seq<Op>)
    requires ShareBooks(w)
    ensures ShareBooks(Run(w, ops))
    decreases |ops|
  {
    hide ShareBooks, Step;
    if ops != [] {
      StepKeepsShareBooks(w, ops[0]);
      SharesMatchSupply(Step(w, ops[0]), ops[1..]);
    }
  }
}
