/**
 Worlds in which moving funds through the market does not keep NAV: a holding
 that crosses 2^64, and a pool whose shares are all redeemed but whose value is not.
 */
module VaultWitness {
  import opened Common
  import opened Vault
  import VS = VaultSafety
  import MM = MoneyMarket
  import MS = MarketSafety

  const YEAR: u64 := 31_536_000

  function Key(b: Byte): Pubkey {
    seq(32, _ => b)
  }

  const VAULT := Key(1)
  const LENDER := Key(2)
  const POSITION := Key(3)
  const BORROWER := Key(4)
  const MANAGER := Key(5)

  /** Everything may be borrowed against, at 100% a year. */
  const PARAMS := MM.Params(10_000, 10_000, 0, 0, 10_000, 0, 0, 0, 0, Key(6))

  function MarketWith(cash: u64, borrows: u64, shares: u64, collateral: u64, index: u128, ts: u64): MM.Market {
    MM.Market(PARAMS, 1_000_000, 1, collateral, borrows, cash, shares, index, ts)
  }

  const INDEX: u128 := 1_000_000_000_000

  /** The deposited vault holding every lender share, with one borrower. */
  function Stage(idle: u64, held: u64, cash: u64, borrows: u64, index: u128, ts: u64, pos: MM.Position): World {
    World(VaultState(2_000, held, 2_000, 0, MANAGER), idle, 1_000,
          MM.Ledger(MarketWith(cash, borrows, held, pos.collateral, index, ts), map[POSITION := pos],
                    map[LENDER := MM.Lender(VAULT, held)], cash, pos.collateral),
          VAULT, LENDER)
  }

  lemma StageSums(idle: u64, held: u64, cash: u64, borrows: u64, index: u128, ts: u64, pos: MM.Position)
    ensures MS.Balanced(Stage(idle, held, cash, borrows, index, ts, pos).ledger)
  {
    SoleSum(MM.Lender(VAULT, held), LENDER, MS.SharesOf);
    SoleSum(pos, POSITION, MS.CollateralOf);
  }

  lemma SoleSum<V>(v: V, key: Pubkey, f: V -> nat)
    ensures SumBy(map[key := v], f) == f(v)
  {
    var none: map<Pubkey, V> := map[];
    SumUpdate(none, f, key, v);
    assert none[key := v] == map[key := v];
  }

  // ---- a holding that crosses 2^64 ----

  /** Such a stage before any collateral is supplied. */
  function Sole(cash: u64, borrows: u64, shares: u64, idle: u64): World {
    Stage(idle, shares, cash, borrows, INDEX, 1, MM.Position(BORROWER, 0, 0, INDEX))
  }

  lemma SoleIsSound(cash: u64, borrows: u64, shares: u64, idle: u64)
    requires shares <= cash + borrows
    ensures var w := Sole(cash, borrows, shares, idle);
            VS.SoundMarket(w) && VS.NoInterest(w.ledger.market, 1)
  {
    StageSums(idle, shares, cash, borrows, INDEX, 1, MM.Position(BORROWER, 0, 0, INDEX));
  }

  /** Lending 5 takes a holding of 2^64 - 2 past 2^64: NAV drops to almost nothing. */
  lemma DeployCrossesSpan()
    ensures var w := Sole(U64_MAX - 10, 9, 0x8000_0000_0000_0000, 10);
            && VS.SoundMarket(w) && VS.NoInterest(w.ledger.market, 1) && w.ledger.market.totalLenderShares > 0
            && Lend(w, 1, 5).Ok? && !VS.KeepsNav(w, Lend(w, 1, 5).value)
  {
    var w := Sole(U64_MAX - 10, 9, 0x8000_0000_0000_0000, 10);
    SoleIsSound(U64_MAX - 10, 9, 0x8000_0000_0000_0000, 10);
    VS.DeployKeepsNavIff(w, 1, 5);
  }

  /** Redeeming 100 takes a holding of 2^64 + 4 back below 2^64: NAV jumps by 2^64. */
  lemma UndeployCrossesSpan()
    ensures var w := Sole(U64_MAX - 4, 9, 0x8000_0000_0000_0000, 0);
            && VS.SoundMarket(w) && VS.NoInterest(w.ledger.market, 1) && w.ledger.market.totalLenderShares > 0
            && Redeem(w, 1, 100).Ok? && !VS.KeepsNav(w, Redeem(w, 1, 100).value)
  {
    var w := Sole(U64_MAX - 4, 9, 0x8000_0000_0000_0000, 0);
    SoleIsSound(U64_MAX - 4, 9, 0x8000_0000_0000_0000, 0);
    VS.UndeployKeepsNavIff(w, 1, 100);
  }

  // ---- a pool without shares ----

  const BLANK := World(VaultState(0, 0, 0, 0, MANAGER), 0, 0, MM.Fresh(MarketWith(0, 0, 0, 0, 1_000_000_000_000, 1)),
                       VAULT, LENDER)

  /** After a deposit of 2,000. */
  const FUNDED := BLANK.(vault := VaultState(2_000, 0, 2_000, 0, MANAGER), idle := 2_000, shareSupply := 1_000)

  /** After 10 are deployed, the only liquidity in the market. */
  const LENT := FUNDED.(vault := VaultState(2_000, 10, 2_000, 0, MANAGER), idle := 1_990,
                        ledger := MM.Ledger(MarketWith(10, 0, 10, 0, INDEX, 1), map[],
                                            map[LENDER := MM.Lender(VAULT, 10)], 10, 0))

  /** After every lender share is redeemed for less than the pool. */
  const SHARELESS := Stage(2_004, 0, 1, 0, 2 * INDEX, 1 + YEAR, MM.Position(BORROWER, 100, 0, 2 * INDEX))

  const DEPOSIT := VS.Deposit(Basic, 2_000, 0, 2_000, 0)
  const DEPLOY := VS.Deploy(1, 10)
  const SUPPLY := VS.Market(MM.Call(BORROWER, true, 1, 100, 0, MM.Supply(POSITION, 100)))
  const BORROW := VS.Market(MM.Call(BORROWER, true, 1, 0, 0, MM.Borrow(POSITION, 5)))
  const REPAY := VS.Market(MM.Call(BORROWER, true, 1 + YEAR, 10, 0, MM.Repay(POSITION, 10)))
  const UNDEPLOY := VS.Undeploy(1 + YEAR, 14)

  lemma BlankMarket()
    ensures MM.InitMarket(true, PARAMS, 1_000_000, 1) == Ok(BLANK.ledger.market)
  {
  }

  lemma Deposited()
    ensures VS.Step(BLANK, DEPOSIT) == FUNDED
  {
  }

  lemma Deployed()
    ensures VS.Step(FUNDED, DEPLOY) == LENT
  {
  }

  lemma Supplies()
    ensures VS.Step(LENT, SUPPLY) == Stage(1_990, 10, 10, 0, INDEX, 1, MM.Position(BORROWER, 100, 0, INDEX))
  {
  }

  lemma Borrows()
    ensures VS.Step(Stage(1_990, 10, 10, 0, INDEX, 1, MM.Position(BORROWER, 100, 0, INDEX)), BORROW)
            == Stage(1_990, 10, 5, 5, INDEX, 1, MM.Position(BORROWER, 100, 5, INDEX))
  {
  }

  lemma Repays()
    ensures VS.Step(Stage(1_990, 10, 5, 5, INDEX, 1, MM.Position(BORROWER, 100, 5, INDEX)), REPAY)
            == Stage(1_990, 10, 15, 0, 2 * INDEX, 1 + YEAR, MM.Position(BORROWER, 100, 0, 2 * INDEX))
  {
  }

  lemma Undeployed()
    ensures VS.Step(Stage(1_990, 10, 15, 0, 2 * INDEX, 1 + YEAR, MM.Position(BORROWER, 100, 0, 2 * INDEX)), UNDEPLOY)
            == SHARELESS
  {
  }

  /** A blank vault and a fresh market reach a pool with value and no shares. */
  lemma SharelessIsReached()
    ensures VS.Run(BLANK, [DEPOSIT, DEPLOY, SUPPLY, BORROW, REPAY, UNDEPLOY]) == SHARELESS
  {
    hide VS.Step;
    Deposited();
    Deployed();
    Supplies();
    Borrows();
    Repays();
    Undeployed();
    var supplied, owing := VS.Step(LENT, SUPPLY), VS.Step(VS.Step(LENT, SUPPLY), BORROW);
    Starts(BLANK, DEPOSIT, [DEPLOY, SUPPLY, BORROW, REPAY, UNDEPLOY]);
    Starts(FUNDED, DEPLOY, [SUPPLY, BORROW, REPAY, UNDEPLOY]);
    Starts(LENT, SUPPLY, [BORROW, REPAY, UNDEPLOY]);
    Starts(supplied, BORROW, [REPAY, UNDEPLOY]);
    Starts(owing, REPAY, [UNDEPLOY]);
    Starts(VS.Step(owing, REPAY), UNDEPLOY, []);
  }

  lemma Starts(w: World, op: VS.Op, rest: seq<VS.Op>)
    ensures VS.Run(w, [op] + rest) == VS.Run(VS.Step(w, op), rest)
  {
    hide VS.Step;
    assert ([op] + rest)[1..] == rest;
  }

  lemma SharelessIsSound()
    ensures VS.SoundMarket(SHARELESS) && VS.NoInterest(SHARELESS.ledger.market, 1 + YEAR)
  {
    StageSums(2_004, 0, 1, 0, 2 * INDEX, 1 + YEAR, MM.Position(BORROWER, 100, 0, 2 * INDEX));
  }

  /** There, deploying 5 captures the unit left in the pool, and redeeming 1 is a gift. */
  lemma SharelessGains()
    ensures SHARELESS.ledger.market.totalLenderShares == 0
    ensures var now := 1 + YEAR;
            && Lend(SHARELESS, now, 5).Ok? && VS.NavLoss(SHARELESS, Lend(SHARELESS, now, 5).value) == -1
            && Redeem(SHARELESS, now, 1).Ok? && VS.NavLoss(SHARELESS, Redeem(SHARELESS, now, 1).value) == -1
  {
    SharelessIsSound();
    VS.DeployIntoShareless(SHARELESS, 1 + YEAR, 5);
    VS.UndeployFromShareless(SHARELESS, 1 + YEAR, 1);
  }
}
