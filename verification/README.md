# Himsha: a verified model

A Dafny model of the parts of Himsha whose correctness is an argument about
whole runs: the money market and the vault lending into it, leader election, the
Merkle state root, transaction execution and replication, cross-program
invocation, and the smaller state machines and codecs around them.
`dafny verify dfyconfig.toml` checks everything.

Each component has a specification on values and theorems about its runs. Code
that the original writes as updates of objects, tables or loops is modelled a
second time as classes and methods that update in place, and every such method
is proved to take the specified step.

| files | component |
|---|---|
| `Common`, `Token` | 64- and 128-bit arithmetic with its casts and wrap-around, rounding lemmas, token balances |
| `MoneyMarket`, `MarketSafety`, `MarketLaws`, `MarketProgram` | rates, lender shares, health and liquidation; the run results; the formulas multiplied out and what each instruction moves; the in-place program |
| `Vault`, `VaultSafety`, `VaultLaws`, `VaultWitness`, `VaultProgram` | the vault on top of the market; NAV, share price and extraction results; prices from both sides and the share books; worlds where NAV is not kept; the in-place program |
| `Election`, `ElectionProtocol`, `ElectionHistory`, `SplitTerm` | one node's election state and counting loops; the message-level step system; what granted polls and named leaders mean; a counterexample run |
| `Accounts`, `KeyOrder`, `Merkle`, `StateRoot` | account records, key order, the tree and its proofs, the table commitment |
| `Database`, `Execution`, `ExecutionLaws` | tables and secondary index; overlay, commit, blocks and followers; what programs are given and what is kept |
| `Cpi`, `CpiLaws`, `CpiRuntime` | call trees with depth guard, meter, windows and owner gate; who may write what; the in-place runtime |
| `Swap`, `SwapSafety`, `SwapLaws`, `SwapProgram` | constant-product pool |
| `Lending`, `LendingLaws`, `LendingProgram` | ordinals lending |
| `Oracle`, `OracleLaws`, `OracleProgram` | the price feed |
| `Radix`, `Base58` | base conversion and the key codec |

## Where the code and its documents differ

The model follows the code. Where a documented promise does not hold as written,
the failing input is a lemma and the exact condition is proved beside it.

- `docs/decentralization.md` line 127 promises at most one leader per term. The
  code promises one *quorum* per term (`ElectionProtocol.ElectionSafety`). A
  node that wins and is promoted after its term has moved on leads a term it did
  not win (`SplitTerm.TwoLeadersOneTerm`); promotion is safe exactly in the term
  of the candidacy (`PromotionBackedIff`, `AtMostOneLeader`).
- The vault says NAV is unchanged by Deploy (vault/src/lib.rs line 110). It is
  kept up to the pool's rounding, and that exactly under `DeployIsNeutral`: a
  pool with shares in which the vault's holding crosses no multiple of 2^64, or
  a pool without shares that is empty (modulo 2^64). Undeploy likewise, but never
  from a pool without shares (`DeployKeepsNavIff`, `UndeployKeepsNavIff`; worlds
  where it fails in `VaultWitness`).
- The vault calls NAV invariant under the undeploy inside Withdraw
  (vault/src/lib.rs line 563). The books it leaves can exceed live NAV by the
  rounding of that call (`UndeployingWithdrawBooks`).
- `lender_share_value` truncates a value of 2^64 or more (`ShareValueExactIff`),
  and `accrue_market` truncates borrows of 2^64 or more (`AccrualExactIff`,
  `AccrualWraps`).
- An LP token's claim falls on a deposit whose amounts are floored, and only then
  (`DepositLowersClaim`, `DepositKeepsClaimIff`, `DepositDip`).
- Tokens already in a reserve before the first deposit are shared out with it, so
  depositing and withdrawing can pay out more than went in
  (`BootstrapPaysOut`, `BootstrapRoundTripIff`).
- A follower does not compare a zero state root, so it misses a divergence from
  an empty primary, and only that one (`DivergenceDetectedIff`).
- `repayment_due` saturates or wraps when principal and interest do not fit
  (`DueExactIff`).
- `base58Encode` throws on an empty input: the literal `0x` is not a number.

## Premises

- Arithmetic is that of the release profile: unchecked 64- and 128-bit sums and
  products wrap, casts truncate. The share price results are for runs whose
  accruals are exact in the sense of `AccrualExactIff`. The NAV bounds and the
  extraction result through the market are for a vault holding worth less than
  2^64; the two NAV equivalences need no such premise.
- Programs do not compare the vault, reserve and mint accounts they are passed
  with the recorded ones, so the accounting and price results are for runs that
  pass the recorded ones. Wallets enter as the balances a caller presents.
- Timestamps come from submitters and need not rise.
- The hash is ideal: leaf and node hashes are free constructors, and the zero
  hash is neither. Serialisation is the identity on typed records.
- Election members are distinct and include the node itself. Terms stay below
  2^64 - 1.
- A program is any deterministic function of its accounts, data and timestamp.

## Model

| member | source | states |
|---|---|---|
| `Token.Transfer` | himsha-programs/token/src/lib.rs:214-239 | Succeeds exactly when the source holds the amount and the destination has room; the two balances together are conserved |
| `Token.MintTo` | himsha-programs/token/src/lib.rs:185-212 | Supply and balance rise together by the amount, or neither moves on overflow |
| `Token.Burn` | himsha-programs/token/src/lib.rs:241-263 | Undone by minting the same amount; fails exactly when the balance or the supply is short |
| `MoneyMarket.MaxLiquidationRepay` | himsha-programs/money-market/src/lib.rs:154-161 | The close-factor share rounded up, at least 1 and at most the debt |
| `MarketSafety.AccrualAdds` | himsha-programs/money-market/src/lib.rs:196-219 | Where the grown borrows fit 64 bits, accrual multiplies borrows and index by the same growth factor (rounded down) and never lowers either |
| `MarketSafety.AccrualExactIff` | himsha-programs/money-market/src/lib.rs:196-219 | When interest is due, accrued borrows are the grown ones if and only if those fit 64 bits |
| `MarketSafety.AccrualWraps` | himsha-programs/money-market/src/lib.rs:196-219 | A backed market whose borrows of 2^63 double to 0, and its share price with them |
| `MarketLaws.UtilizationLaw` | himsha-programs/money-market/src/lib.rs:174-181 | Utilisation is borrows over pool value in basis points, between that and one below, and at most 100% |
| `MarketLaws.RateLaw` | himsha-programs/money-market/src/lib.rs:184-193 | The rate times 10,000 lies less than two floors below base, plus slope times utilisation, plus jump slope times what is past the kink |
| `MarketLaws.RateAtKink` | himsha-programs/money-market/src/lib.rs:184-193 | Up to and at the kink the jump slope makes no difference |
| `MarketLaws.RateNeverFalls` | himsha-programs/money-market/src/lib.rs:174-193 | The rate never falls as borrows rise at fixed cash |
| `MarketLaws.AccrualLaw` | himsha-programs/money-market/src/lib.rs:196-219 | Borrows and index grow by simple interest over the seconds elapsed, from both sides; without interest due neither moves; the clock never goes back |
| `MarketLaws.DebtFollowsIndex` | himsha-programs/money-market/src/lib.rs:256-265 | In range, a position's debt times its snapshot is debt times index, less than one unit below, and never falls |
| `MarketLaws.SettlingEarlyNeverCosts` | himsha-programs/money-market/src/lib.rs:256-265 | Settling at an intermediate index never leaves more debt than settling once |
| `MarketSafety.MintRoundsDown` | himsha-programs/money-market/src/lib.rs:236-244 | In a backed market the 64-bit cast is harmless and a deposit gets the floor of its proportional shares |
| `MarketSafety.BurnRoundsUp` | himsha-programs/money-market/src/lib.rs:247-253 | In a backed market the cast is harmless, a redemption burns the ceiling, and a redemption within the pool never burns more shares than exist |
| `MarketSafety.ShareValueExactIff` | himsha-programs/money-market/src/lib.rs:228-233 | A holding is valued exactly if and only if shares times pool is below 2^64 times total shares |
| `MarketSafety.ShareValueExact` | himsha-programs/money-market/src/lib.rs:228-233 | Such a holding, no larger than the total, is worth at most the pool |
| `MarketSafety.ShareValueTruncates` | himsha-programs/money-market/src/lib.rs:228-233 | A concrete pool of 2^64 units whose single share is valued at 0 |
| `MarketSafety.StepKeepsPrice` | himsha-programs/money-market/src/lib.rs:731-1018 | Every instruction keeps pool value at least total shares and, while shares exist, never lowers pool value per share |
| `MarketSafety.RunKeepsBacking` | himsha-programs/money-market/src/lib.rs:731-1018 | Pool value stays at least total shares over every run with accrual in range |
| `MarketSafety.SharePriceNeverFalls` | himsha-programs/money-market/src/lib.rs:222-253 | Over every run of all instructions and accruals, pool value per lender share never falls while shares are outstanding |
| `MarketSafety.ConversionsNeverTruncate` | himsha-programs/money-market/src/lib.rs:236-253 | In every market reachable from `InitMarket`, both share conversions equal their unbounded formulas |
| `MarketSafety.StepKeepsAccounting` | himsha-programs/money-market/src/lib.rs:731-1018 | Every instruction keeps the share and collateral totals equal to the sums over accounts and both vault balances at a constant distance from the books |
| `MarketSafety.RunKeepsAccounting` | himsha-programs/money-market/src/lib.rs:731-1018 | The same over every run: totals are sums; vault balance minus `total_cash` (and minus `total_collateral`) is constant |
| `MarketSafety.SubtractionsNeverShort` | himsha-programs/money-market/src/lib.rs:771-1018 | With balanced books, withdraw and redeem report overflow only when the receiving wallet overflows, and the liquidation total falls by exactly the collateral seized |
| `MarketSafety.HealthyIsNotLiquidatable` | himsha-programs/money-market/src/lib.rs:124-140 | A collateral factor within the liquidation threshold keeps every healthy position out of liquidation |
| `MarketLaws.ValueLaw` | himsha-programs/money-market/src/lib.rs:124-127 | Collateral is valued at amount times price, less than one unit below |
| `MarketLaws.HealthIff` | himsha-programs/money-market/src/lib.rs:124-140 | Healthy and liquidatable are each one comparison of debt with a fraction of the value |
| `MarketSafety.LiquidatedWasLiquidatable` | himsha-programs/money-market/src/lib.rs:968-992 | A liquidation succeeds only on a position already past the threshold on accrued debt |
| `MarketSafety.OthersUntouched` | himsha-programs/money-market/src/lib.rs:819-1018 | An instruction changes no position but the one it names |
| `MarketLaws.BorrowEffect` | himsha-programs/money-market/src/lib.rs:889-935 | A loan adds its amount to the debt accrued to the index, keeps owner and collateral, and leaves vault, cash and books by the amount |
| `MarketLaws.RepayEffect` | himsha-programs/money-market/src/lib.rs:937-966 | A repayment takes what is owed, or the amount if less, off the accrued debt and into the vault |
| `MarketLaws.CollateralEffect` | himsha-programs/money-market/src/lib.rs:819-887 | Supplying and withdrawing move collateral, vault and total by the amount and settle the debt to the index |
| `MarketLaws.LiquidateEffect` | himsha-programs/money-market/src/lib.rs:968-1018 | Repayment comes off the debt and into the vault, collateral off the position and out of its vault |
| `MarketLaws.LiquidityEffect` | himsha-programs/money-market/src/lib.rs:731-817 | Cash moves by the amount for the shares the conversions give, to or from the caller's own lender account |
| `MarketLaws.SuccessNeeds` | himsha-programs/money-market/src/lib.rs:668-1018 | Success needs a signature, the owner where the source asks for it, a price within its staleness window, and the configured feed |
| `MarketLaws.InitLaw` | himsha-programs/money-market/src/lib.rs:652-708 | A market is set up exactly on a signature, fractions within bounds and in order, and a price; it starts blank at the unit index |
| `MarketLaws.LiquidationAvailable` | himsha-programs/money-market/src/lib.rs:968-1018 | Whoever can pay may liquidate a position past its threshold while the price is fresh |
| `MarketLaws.WithdrawAvailable` | himsha-programs/money-market/src/lib.rs:849-887 | An owner may take out collateral that leaves the position healthy while the price is fresh |
| `MarketLaws.DebtIsLentLessRepaid` | himsha-programs/money-market/src/lib.rs:819-1018 | Over every run at a fixed index a position owes what it owed, plus what the vault paid out for it, less what was paid in for it |
| `MarketLaws.CollateralIsWhatFlowed` | himsha-programs/money-market/src/lib.rs:819-1018 | Over every run a position's collateral changes by exactly what the collateral vault took in or paid out for it |
| `MarketLaws.SharesAreWhatWasIssued` | himsha-programs/money-market/src/lib.rs:731-817 | Over every run a lender holds the shares issued to it less those it gave up |
| `MarketSafety.StepKeepsHealth` | himsha-programs/money-market/src/lib.rs:819-1018 | At a fixed price and index no instruction, by anyone, makes a safe position liquidatable |
| `MarketSafety.RunKeepsHealth` | himsha-programs/money-market/src/lib.rs:124-140 | The same over whole runs at a fixed price and index, debt accrued to the current index |
| `MarketSafety.ReachableParams` | himsha-programs/money-market/src/lib.rs:652-708 | Every reachable market carries the parameters `InitMarket` accepted, which satisfy the premises of the health results |
| `MarketSafety.SeizeRoundsDown` | himsha-programs/money-market/src/lib.rs:144-150 | Seized collateral is worth at most the repayment plus the bonus |
| `MarketSafety.SeizureWorth` | himsha-programs/money-market/src/lib.rs:968-1018 | One liquidation repays between 1 and the close-factor share, seizes no more than is held and no more value than repaid times one plus bonus |
| `MarketLaws.CloseFactorLaw` | himsha-programs/money-market/src/lib.rs:154-161 | All of the debt without a close factor; otherwise its part rounded up and no further |
| `MarketLaws.SeizeLaw` | himsha-programs/money-market/src/lib.rs:144-150 | In range, seized collateral is within its two floors of repayment plus bonus, from both sides |
| `MarketLaws.SeizureIsFull` | himsha-programs/money-market/src/lib.rs:968-1018 | A liquidation repays what was asked or the cap, and seizes everything held or that worth |
| `MarketSafety.LiquidationStep` | himsha-programs/money-market/src/lib.rs:968-1018 | Each successful liquidation strictly lowers the accrued debt and pays for the collateral it takes |
| `MarketSafety.LiquidationsWindDown` | himsha-programs/money-market/src/lib.rs:968-1018 | A sequence of liquidations at a fixed price and index has at most `debt` calls, and in total takes no more collateral than held and no more value than repaid times one plus bonus |
| `MarketProgram.Accrue` | himsha-programs/money-market/src/lib.rs:196-219 | The in-place accrual computes the specified accrual |
| `MarketProgram.MarketAccounts.AddLiquidity` | himsha-programs/money-market/src/lib.rs:731-769 | The new accounts are the specified step of the old ones, with the specified error and no change on failure |
| `MarketProgram.MarketAccounts.RemoveLiquidity` | himsha-programs/money-market/src/lib.rs:771-817 | The new accounts are the specified step of the old ones, with the specified error and no change on failure |
| `MarketProgram.MarketAccounts.Supply` | himsha-programs/money-market/src/lib.rs:819-847 | The new accounts are the specified step of the old ones, with the specified error and no change on failure |
| `MarketProgram.MarketAccounts.Withdraw` | himsha-programs/money-market/src/lib.rs:849-887 | The new accounts are the specified step of the old ones, with the specified error and no change on failure |
| `MarketProgram.MarketAccounts.Borrow` | himsha-programs/money-market/src/lib.rs:889-935 | The new accounts are the specified step of the old ones, with the specified error and no change on failure |
| `MarketProgram.MarketAccounts.Repay` | himsha-programs/money-market/src/lib.rs:937-966 | The new accounts are the specified step of the old ones, with the specified error and no change on failure |
| `MarketProgram.MarketAccounts.Liquidate` | himsha-programs/money-market/src/lib.rs:968-1018 | The new accounts are the specified step of the old ones, with the specified error and no change on failure |
| `MarketProgram.MarketAccounts.SyncPrice` | himsha-programs/money-market/src/lib.rs:710-729 | The new accounts are the specified step of the old ones, with the specified error and no change on failure |
| `MarketProgram.MarketAccounts.Process` | himsha-programs/money-market/src/lib.rs:710-1018 | Dispatch over all instructions on an initialised market takes the step the run results speak of; a failure changes nothing |
| `VaultSafety.LendEffect` | himsha-programs/vault/src/lib.rs:420-436 | The market call of a deploy moves the amount from idle to the pool and mints exactly the floor shares to the vault |
| `VaultSafety.RedeemEffect` | himsha-programs/vault/src/lib.rs:420-436 | The market call of an undeploy moves the amount back and burns exactly the ceiling shares |
| `VaultSafety.RebalanceBounds` | himsha-programs/vault/src/lib.rs:454-463 | Any move through the pool rounded against the holder never raises the holder's value plus cash and loses less than one share's worth plus one unit |
| `VaultSafety.DeployKeepsNav` | himsha-programs/vault/src/lib.rs:657-686 | Deploying into a pool with shares, the vault's own holding staying below 2^64, never raises NAV and loses less than one lender share's worth plus one unit |
| `VaultSafety.DeployIntoShareless` | himsha-programs/vault/src/lib.rs:657-686 | Deploying into a pool with value but no shares raises NAV by that whole value, up to the 64-bit cast |
| `VaultSafety.DeployKeepsNavIff` | himsha-programs/vault/src/lib.rs:657-686 | NAV is kept up to rounding if and only if: without shares, the pool is empty modulo 2^64; with shares, the holding stays in its multiple of 2^64 (or a lone share was past 2^64 already) |
| `VaultSafety.UndeployKeepsNav` | himsha-programs/vault/src/lib.rs:688-715 | Undeploying from a pool with shares, the vault's own holding below 2^64, never raises NAV and loses less than one lender share's worth plus one unit |
| `VaultSafety.UndeployFromShareless` | himsha-programs/vault/src/lib.rs:688-715 | Undeploying from a pool without shares burns nothing and raises NAV by the amount |
| `VaultSafety.UndeployKeepsNavIff` | himsha-programs/vault/src/lib.rs:688-715 | NAV is kept up to rounding if and only if the pool has shares and the holding stays in its multiple of 2^64 (or a lone share leaves a pool past 2^64) |
| `VaultWitness.DeployCrossesSpan` | himsha-programs/money-market/src/lib.rs:228-233 | A sound market with shares in which lending 5 drops NAV by almost 2^64 |
| `VaultWitness.UndeployCrossesSpan` | himsha-programs/money-market/src/lib.rs:228-233 | A sound market with shares in which redeeming 100 raises NAV by almost 2^64 |
| `VaultWitness.SharelessIsReached` | himsha-programs/vault/src/lib.rs:500-715 | A run from a blank vault and a fresh market that redeems every lender share and leaves value in the pool |
| `VaultWitness.SharelessGains` | himsha-programs/vault/src/lib.rs:657-715 | There, deploying 5 raises NAV by the unit left and redeeming 1 raises it by 1 |
| `VaultSafety.IssueRoundsDown` | himsha-programs/vault/src/lib.rs:513-535 | Shares issued never exceed the deposit's proportional part |
| `VaultSafety.PayoutRoundsDown` | himsha-programs/vault/src/lib.rs:560-580 | Assets paid never exceed the shares' proportional part |
| `VaultLaws.PayoutLaw` | himsha-programs/vault/src/lib.rs:566-567 | A payout is the shares' part of the basis, less than one unit below |
| `VaultLaws.IssueLaw` | himsha-programs/vault/src/lib.rs:520-532 | After the bootstrap a deposit gets its part of the shares, less than one share below |
| `VaultLaws.BootstrapIssue` | himsha-programs/vault/src/lib.rs:521-526 | The first deposit gets one share a unit less the thousand locked, and fails if smaller |
| `VaultLaws.DepositParts` | himsha-programs/vault/src/lib.rs:500-548 | A deposit moves its amount into the vault and the books, mints its shares, and raises the basis by the amount |
| `VaultLaws.DepositThenRedeem` | himsha-programs/vault/src/lib.rs:500-604 | A deposit into a bootstrapped vault redeemed at the basis it left loses less than one share's worth plus one unit |
| `VaultLaws.TradesAtNav` | himsha-programs/vault/src/lib.rs:454-463 | With the market at hand and lender shares held, both sides trade at idle plus the shares' value |
| `VaultSafety.FeeDilutes` | himsha-programs/vault/src/lib.rs:619-650 | Fee shares minted on a profitable report never push the share price below the previous books |
| `VaultLaws.FeeLaw` | himsha-programs/vault/src/lib.rs:635-645 | Fee shares are worth the fee at the diluted price, less than one share below |
| `VaultLaws.ReportBooks` | himsha-programs/vault/src/lib.rs:606-655 | A manager's signed report books live NAV and mints the fee shares to supply and books alike |
| `VaultLaws.SuccessNeeds` | himsha-programs/vault/src/lib.rs:500-715 | Trading takes a signature, moving funds the manager's and a non-zero amount |
| `VaultLaws.WithdrawNeeds` | himsha-programs/vault/src/lib.rs:550-604 | A withdrawal never pays less than its minimum nor burns shares its holder lacks |
| `VaultLaws.WithdrawAvailable` | himsha-programs/vault/src/lib.rs:550-604 | Shares held are redeemed whenever idle funds cover them and the minimum is met |
| `VaultLaws.ReportAvailable` | himsha-programs/vault/src/lib.rs:606-655 | The manager can report whenever the sums fit |
| `VaultLaws.SharesMatchSupply` | himsha-programs/vault/src/lib.rs:500-655 | Over every run the shares on the books are the shares minted plus the thousand locked |
| `VaultSafety.StepKeepsPrice` | himsha-programs/vault/src/lib.rs:500-715 | No instruction priced at or above the cached books lowers assets per share |
| `VaultSafety.VaultPriceNeverFalls` | himsha-programs/vault/src/lib.rs:500-715 | Over every run without a loss, deposits, withdrawals, fee reports and market activity never lower assets per share |
| `VaultSafety.DealsKeepBooks` | himsha-programs/vault/src/lib.rs:500-604 | Where idle funds cover the redemptions, any sequence of one user's trades moves the basis by exactly what went in and out and keeps the other holders' part whole |
| `VaultSafety.DealsKeepStake` | himsha-programs/vault/src/lib.rs:500-604 | Every sequence of one user's deposits and withdrawals, redemptions from the market included, keeps the user's shares worth at most what the user has left in |
| `VaultSafety.NoExtraction` | himsha-programs/vault/src/lib.rs:500-604 | A user starting without shares never takes out more than was put in, even counting the shares still held, whether or not redemptions call on the market |
| `VaultSafety.UndeployingWithdrawBooks` | himsha-programs/vault/src/lib.rs:560-600 | A withdrawal that undeploys leaves the cached assets at or above live NAV, by less than one lender share's worth plus one unit |
| `VaultProgram.VaultAccounts.Deposit` | himsha-programs/vault/src/lib.rs:500-548 | On success the vault, its token balances and the market are the specified ones; fails exactly when specified, with that error; a failure changes nothing |
| `VaultProgram.VaultAccounts.Withdraw` | himsha-programs/vault/src/lib.rs:550-604 | On success the vault, its token balances and the market are the specified ones; fails exactly when specified, with that error; a failure changes nothing but a completed market redemption |
| `VaultProgram.VaultAccounts.Report` | himsha-programs/vault/src/lib.rs:606-655 | On success the vault, its token balances and the market are the specified ones; fails exactly when specified, with that error; a failure changes nothing |
| `VaultProgram.VaultAccounts.Deploy` | himsha-programs/vault/src/lib.rs:657-686 | On success the vault, its token balances and the market are the specified ones; fails exactly when specified, with that error; a failure changes nothing |
| `VaultProgram.VaultAccounts.Undeploy` | himsha-programs/vault/src/lib.rs:688-715 | On success the vault, its token balances and the market are the specified ones; fails exactly when specified, with that error; a failure changes nothing |
| `VaultProgram.VaultAccounts.LendToMarket` | himsha-programs/vault/src/lib.rs:420-436 | The deposit side of the market call, changing the market object in place |
| `VaultProgram.VaultAccounts.RedeemFromMarket` | himsha-programs/vault/src/lib.rs:420-436 | The redemption side of the market call, changing the market object in place |
| `Election.ElectionState.HandleVote` | himsha-node/src/election.rs:56-82 | In-place vote rule: new state and reply are those of the protocol's vote step |
| `Election.ElectionState.HandlePreVote` | himsha-node/src/election.rs:89-94 | The poll reads the state and changes nothing |
| `Election.ElectionState.BeginCandidacy` | himsha-node/src/election.rs:98-104 | Raises the term by one and votes for itself |
| `Election.ElectionState.SeeTerm` | himsha-node/src/election.rs:107-114 | Adopts only a higher term, with a cleared vote |
| `Election.ElectionState.Promote` | himsha-node/src/election.rs:117-120 | Leads whatever term is current |
| `Election.ElectionState.SeeLeader` | himsha-node/src/election.rs:123-129 | Adopts a leader of a term at least its own and keeps the recorded vote |
| `Election.HighestRefusal` | himsha-node/src/follower.rs:200-202 | The largest refusing term: attained, and an upper bound |
| `Election.ElectionState.Tally` | himsha-node/src/follower.rs:186-204 | The counting loop returns one plus the number of distinct granting peers and leaves the state at the largest refusing term |
| `Election.ElectionState.Elect` | himsha-node/src/follower.rs:167-241 | An undisturbed round wins if and only if both the poll and the vote reach a quorum; without a pre-vote quorum no candidacy is opened |
| `ElectionProtocol.StepInv` | himsha-node/src/follower.rs:167-241 | Every protocol step (poll, ask, answer, hear, lose a reply, close, promote, discover) keeps the invariant on votes, counts and wins |
| `ElectionProtocol.RunInv` | himsha-node/src/follower.rs:167-241 | The invariant holds after every interleaving |
| `ElectionProtocol.QuorumsMeet` | himsha-node/src/election.rs:140-147 | Two quorums of one member list share a member |
| `ElectionProtocol.ElectionSafety` | himsha-node/src/election.rs:56-147 | Over every interleaving, at most one member ever collects a quorum for a given term |
| `ElectionProtocol.OnlyCandidacyRaisesMaxTerm` | himsha-node/src/follower.rs:182-210 | Unless a step opens a candidacy, every term after it had been reached by some member before it |
| `ElectionProtocol.CandidacyHasMajority` | himsha-node/src/follower.rs:186-210 | A candidacy opens only with a pre-vote quorum of distinct members |
| `ElectionHistory.RunKeepsPolls` | himsha-node/src/election.rs:89-94 | Over every interleaving, each granted poll came from a member that led nothing and was not past the polled term |
| `ElectionHistory.BackersWereFree` | himsha-node/src/follower.rs:186-210 | Whoever backs a candidacy, the candidate aside, answered its poll as a non-leader at or below the polled term |
| `ElectionHistory.LeadersEndorseNobody` | himsha-node/src/election.rs:89-94 | A member that leads throughout a run grants no poll in it |
| `ElectionHistory.PrimaryOfTwoIsSafe` | himsha-node/src/follower.rs:164-210 | In a cluster of two the other member opens no candidacy while the primary has led from the start |
| `ElectionHistory.QuorumIsLeast` | himsha-node/src/election.rs:140-147 | A quorum is the least majority |
| `ElectionHistory.NamedLeadersLed` | himsha-node/src/election.rs:117-129 | Over every run a leader takes itself for leader, and whoever is taken for leader has led |
| `ElectionHistory.HigherTermDemotes` | himsha-node/src/election.rs:107-129 | Whatever raises a node's term ends its leadership |
| `ElectionHistory.DiscoveryRepoints` | himsha-node/src/election.rs:123-129 | News of a leader at least as recent repoints a member and keeps its vote; older news is ignored |
| `ElectionProtocol.PartitionedMinority` | himsha-node/src/follower.rs:164-210 | Members cut off without a quorum never raise their largest term and never win |
| `ElectionProtocol.OneLeaderPerTerm` | himsha-node/src/election.rs:117-120 | Leaders whose current term is one they won are alone in that term |
| `ElectionProtocol.PromotionBackedIff` | himsha-node/src/follower.rs:151-154 | A promotion keeps that property if and only if the current term is still the term of the candidacy |
| `ElectionProtocol.AtMostOneLeader` | himsha-node/src/follower.rs:151-241 | If every promotion happens in the won term, every run has at most one leader per term |
| `SplitTerm.TwoLeadersOneTerm` | himsha-node/src/follower.rs:151-154 | A legal run of three members that ends with two leaders of term 2, because one promoted after its term had moved |
| `Merkle.ParentLevel` | himsha-runtime/src/merkle.rs:41-51 | The pairing loop computes the parent level, duplicating an odd last node |
| `Merkle.MerkleRoot` | himsha-runtime/src/merkle.rs:54-63 | The reduction loop computes the root; the empty list has the zero root |
| `Merkle.BuildProof` | himsha-runtime/src/merkle.rs:93-117 | Returns the siblings on the path for every index in range, and nothing out of range |
| `Merkle.Verify` | himsha-runtime/src/merkle.rs:76-87 | Accepts exactly the proofs whose fold is the root |
| `Merkle.VerifyAccount` | himsha-sdk-python/himsha_sdk/state_proof.py:42-77 | The client accepts exactly when the leaf is that key and those bytes and the fold is the root |
| `Merkle.BuiltProofAccepted` | himsha-runtime/src/merkle.rs:76-117 | Completeness: the proof built for any index of any leaf list is accepted |
| `Merkle.AcceptedIsMember` | himsha-runtime/src/merkle.rs:76-87 | Soundness: a proof of any length and index accepted against a list's root has a leaf of that list |
| `Merkle.AcceptedIffBuilt` | himsha-runtime/src/merkle.rs:76-117 | For an index in range the accepted proof is the built one and no other |
| `Merkle.DuplicateIndexAccepted` | himsha-runtime/src/merkle.rs:41-51 | An index past the end can be accepted, for a leaf that is present, because of the duplicate-last rule |
| `Merkle.RootBindsLeaves` | himsha-runtime/src/merkle.rs:41-63 | Lists of distinct leaves of any two lengths with equal roots are equal |
| `Merkle.RepeatedLeavesCollide` | himsha-runtime/src/merkle.rs:41-51 | Without distinctness the duplicate-last rule does let two lists collide |
| `StateRoot.LeavesAreEntries` | himsha-node/src/state.rs:260-271 | The leaves are exactly the table's entries, pairwise distinct |
| `StateRoot.StateRootBinds` | himsha-node/src/state.rs:260-277 | Account tables of any two sizes with equal state roots are equal |
| `StateRoot.AcceptedAccountIsStored` | himsha-sdk-python/himsha_sdk/state_proof.py:61-77 | An accepted account proof shows that exactly those bytes are stored under exactly that key |
| `StateRoot.StoredAccountHasProof` | himsha-node/src/state.rs:281-290 | Every stored account has an accepted proof |
| `Accounts.StoreUndoesInto` | himsha-runtime/src/account.rs:185-215 | Storing a loaded account gives it back if and only if its UTXO fields are both present or both absent |
| `Accounts.IntoUndoesStore` | himsha-runtime/src/account.rs:185-215 | Loading a stored account gives it back as writable and unsigned |
| `Accounts.RejectDuplicateWritable` | himsha-runtime/src/account.rs:160-172 | The pairwise loop fails exactly when two writable slots share a key |
| `Database.ReindexedIsIndex` | himsha-node/src/state.rs:152-190 | One save's delete-and-insert turns the owner index of the old table into that of the new one |
| `Database.BatchOrderIrrelevant` | himsha-node/src/state.rs:456-497 | Saving a batch in any two orders gives the same database, whose accounts are the old ones overridden by the batch |
| `Database.RunKeepsIndex` | himsha-node/src/state.rs:152-190 | After any run of single and batch saves the owner index and the account count match the table |
| `Database.OwnerInRange` | himsha-node/src/state.rs:207-234 | The byte range scanned for an owner holds every key of that owner |
| `Database.NodeState.Backfill` | himsha-node/src/state.rs:87-119 | On an unindexed database builds the index and the count; leaves an indexed one alone |
| `Database.NodeState.SaveAccount` | himsha-node/src/state.rs:152-190 | One save in place, keeping the index in step |
| `Database.NodeState.SaveAccountsAtomic` | himsha-node/src/state.rs:456-497 | The table becomes the old one overridden by the batch, the index and the count in step |
| `Database.MergeBatch` | himsha-node/src/state.rs:456-497 | The batch loop, in whatever order: merged table, its index, and the number of keys added |
| `Database.NodeState.OwnerKeys` | himsha-node/src/state.rs:207-234 | The range walk lists exactly the owner's keys, ascending |
| `Database.NodeState.AccountsByOwner` | himsha-node/src/state.rs:207-234 | The indexed query returns exactly what a full scan filtered by owner returns |
| `Database.NodeState.ScanByOwner` | himsha-node/src/state.rs:239-256 | The full scan filtered by owner, the reference for the indexed query |
| `Database.NodeState.ComputeStateRoot` | himsha-node/src/state.rs:274-277 | The leaf loop and the reduction compute the root the binding results speak of |
| `Execution.OverlayIsReplay` | himsha-node/src/execution.rs:79-145 | Executing over an overlay on a table equals executing with writes through to the table, errors included |
| `Execution.CommitIsReplay` | himsha-node/src/follower.rs:316-372 | Overlay and one atomic commit on the primary equals the follower's write-through |
| `Execution.PreflightPredicts` | himsha-node/src/execution.rs:79-145 | Preflight and commit agree for transactions without lending instructions |
| `Execution.FollowerRefinesPrimary` | himsha-node/src/block_producer.rs:99-125 | For any deterministic programs and any batch, the follower re-executing the included transactions never errors and ends with the primary's table |
| `Execution.ChainReplicates` | himsha-node/src/follower.rs:256-314 | The same over any chain of blocks |
| `Execution.DivergenceDetectedIff` | himsha-node/src/follower.rs:278-314 | The comparison on a produced block flags a replica if and only if its table differs from the primary's and the primary's is not empty |
| `Execution.DrainLending` | himsha-node/src/settlement.rs:17-58 | The in-place loop empties exactly the settlement queues of collection accounts |
| `Execution.Materialize` | himsha-node/src/execution.rs:88-118 | The loading loop reads each account through the overlay |
| `ExecutionLaws.WindowLaw` | himsha-node/src/execution.rs:86-97 | Slot by slot: key and flags as declared; the rest from the overlay, else the table, else a blank account of the program |
| `ExecutionLaws.ProgramsSeeWhatIsDeclared` | himsha-node/src/execution.rs:79-145 | Over every batch, programs that agree on windows as declared cannot be told apart: no instruction sees a signer, key or writable account it did not declare |
| `ExecutionLaws.FollowersSeeWhatIsDeclared` | himsha-node/src/follower.rs:316-372 | The same on a follower |
| `ExecutionLaws.ExecuteLaw` | himsha-node/src/execution.rs:99-137 | An instruction succeeds exactly when no writable key is doubled and its program succeeds; only lending queues are emptied |
| `ExecutionLaws.LastWriteStands` | himsha-node/src/execution.rs:135-137 | The last account returned under a key is the one stored |
| `ExecutionLaws.OthersStand` | himsha-node/src/execution.rs:135-137 | Keys not returned keep their entry |
| `ExecutionLaws.LastInstruction` | himsha-node/src/follower.rs:316-372 | A transaction's last instruction runs on the table the others left, or not at all |
| `ExecutionLaws.IncludedIffCommitted` | himsha-node/src/block_producer.rs:99-125 | The last transaction of a batch is included, last, exactly when it commits on the table the others left |
| `Execution.RunInstruction` | himsha-node/src/execution.rs:118-145 | One instruction: duplicate check, program, queue clearing, with the specified error |
| `Execution.Node.Apply` | himsha-node/src/execution.rs:79-145 | A failed or preflight transaction changes nothing; a committed one gives the specified table and keeps the index in step |
| `Execution.Node.ApplyTransaction` | himsha-node/src/follower.rs:316-372 | The follower's loop ends with the replayed table, or on failure with the writes of the instructions before the failing one and its error; the index stays in step |
| `Execution.Node.ProduceBlock` | himsha-node/src/block_producer.rs:99-125 | The batch loop includes exactly the committed transactions, with the root of the final table |
| `Execution.Node.ApplyBlock` | himsha-node/src/follower.rs:278-314 | Re-executes the block, stopping at the first failing transaction, and on success flags divergence exactly when a non-zero root differs |
| `Cpi.RunBounds` | himsha-runtime/src/cpi.rs:40-146 | Over every call tree below a program, depth stays within 4, the meter within budget, and depth is restored on every exit |
| `Cpi.InvokeBounds` | himsha-runtime/src/cpi.rs:93-146 | The same for one nested invocation, failing or not |
| `Cpi.DispatchBounds` | himsha-runtime/src/compute.rs:40-53 | A top-level execution never nests deeper than 4 nor runs more than 1,000 callees |
| `Cpi.InvocationIsContained` | himsha-runtime/src/cpi.rs:93-146 | A failed invocation leaves the caller's accounts unchanged; none changes a signer flag or an account outside its window |
| `Cpi.GateSound` | himsha-runtime/src/owner.rs:81-118 | A write passes the owner gate only unchanged or as a state some program was entitled to record |
| `Cpi.RunSound` | himsha-runtime/src/owner.rs:81-135 | Every state on the approval trail after any call tree was recorded by an entitled program |
| `Cpi.InvokeSound` | himsha-runtime/src/cpi.rs:93-146 | The same for one nested invocation |
| `Cpi.ChangesAreAuthored` | himsha-runtime/src/owner.rs:81-135 | Every account a successful top-level execution changes ends in a state recorded by a program entitled to write it |
| `CpiLaws.GateOfOthers` | himsha-runtime/src/owner.rs:81-118 | For a program that does not own an account in use, and without a record, the gate passes exactly a gain of lamports |
| `CpiLaws.OthersOnlyCredit` | himsha-runtime/src/owner.rs:81-133 | Over any call tree, a top-level program that does not own an account in use can only add to its lamports unless an invocation below left a write on record |
| `CpiLaws.LoneProgramOnlyCredits` | himsha-runtime/src/owner.rs:81-133 | In particular a program that calls nobody |
| `CpiLaws.BlankIsClaimed` | himsha-runtime/src/owner.rs:92-104 | A blank account goes to its first writer unless assigned elsewhere |
| `CpiLaws.RecordedIsAccepted` | himsha-runtime/src/owner.rs:106-116 | A state on record for an account is accepted from whoever presents it |
| `CpiLaws.CalleeSees` | himsha-runtime/src/cpi.rs:119-130 | The callee sees the named accounts with the granted signers added |
| `CpiLaws.IdleCall` | himsha-runtime/src/cpi.rs:104-146 | An idle callee succeeds exactly when bounds, depth, budget and duplicate checks pass, costs 1,000 plus 100 an account, and changes nothing |
| `CpiLaws.OwnersCallLands` | himsha-runtime/src/cpi.rs:104-146 | An admitted callee that owns what it is given has its window land in the caller's slots |
| `CpiRuntime.Runtime.Charge` | himsha-runtime/src/compute.rs:46-53 | Charges exactly when the budget allows, else leaves the meter alone |
| `CpiRuntime.Runtime.ValidateWrite` | himsha-runtime/src/owner.rs:81-118 | The gate with its approval map updated in place |
| `CpiRuntime.Runtime.ValidateWindow` | himsha-runtime/src/owner.rs:121-133 | The gate over a whole window, stopping at the first refusal |
| `CpiRuntime.Runtime.RunProgram` | himsha-runtime/src/cpi.rs:93-146 | A program of nested invocations, failures caught or propagated, on mutable windows equals the tree semantics |
| `CpiRuntime.Runtime.CloneWindow` | himsha-runtime/src/cpi.rs:119-130 | A fresh window holding the indexed accounts, with the signer flags granted |
| `CpiRuntime.Runtime.CopyBack` | himsha-runtime/src/cpi.rs:139-144 | Writes the window back, keeping the caller's signer flags |
| `CpiRuntime.Runtime.Admit` | himsha-runtime/src/cpi.rs:104-117 | Bounds, depth and budget checked in that order, nothing changed on refusal |
| `CpiRuntime.Runtime.InvokeSigned` | himsha-runtime/src/cpi.rs:93-146 | Guard, clone, run, gate and copy-back in place equal the specified invocation |
| `Swap.IntegerSqrt` | himsha-programs/swap/src/lib.rs:428-439 | Newton's loop terminates with the exact floor root for every 64-bit input, its sums within 64 bits |
| `SwapSafety.SwapKeepsProduct` | himsha-programs/swap/src/lib.rs:193-256 | A swap in either direction never lowers the reserve product, empties no reserve and conserves each token |
| `SwapSafety.RunKeepsProduct` | himsha-programs/swap/src/lib.rs:193-256 | The same over every run of swaps |
| `SwapSafety.NoFreeTokens` | himsha-programs/swap/src/lib.rs:193-256 | After any run of swaps a trader with no less of one token has no more of the other |
| `SwapLaws.SwapIsTight` | himsha-programs/swap/src/lib.rs:193-256 | A swap takes the whole input, keeps exactly the floored fee out of the quote, and pays the most that keeps the product on the rest |
| `SwapLaws.SwapAvailable` | himsha-programs/swap/src/lib.rs:193-256 | A live pool swaps whenever the fee fits, the quote meets the minimum and the balances have room |
| `SwapLaws.DepositIsTight` | himsha-programs/swap/src/lib.rs:284-336 | A deposit mints the most LP both maxima afford and takes no more than either |
| `SwapLaws.BootstrapLaw` | himsha-programs/swap/src/lib.rs:274-282 | The first deposit mints the floor root of the product, a thousand of it locked, for both maxima |
| `SwapLaws.WithdrawIsTight` | himsha-programs/swap/src/lib.rs:338-393 | A withdrawal pays each reserve's part of the LP burned, less than one unit below |
| `SwapSafety.DepositThenWithdraw` | himsha-programs/swap/src/lib.rs:258-393 | Withdrawing the LP a deposit minted returns at most what went in, on each side |
| `SwapSafety.BootstrapRoundTripIff` | himsha-programs/swap/src/lib.rs:274-393 | First deposit then withdrawal of its LP, whatever the reserves held: a side returns at most what went in if and only if the balance found there times the LP is below an explicit bound |
| `SwapSafety.BootstrapPaysOut` | himsha-programs/swap/src/lib.rs:274-393 | A pool with 10,000 tokens in reserve A before the first deposit: 2,000 go in on that side and 6,000 come out |
| `SwapSafety.WithdrawKeepsClaim` | himsha-programs/swap/src/lib.rs:338-393 | A withdrawal never lowers the claim of a remaining LP token |
| `SwapSafety.DepositKeepsClaimIff` | himsha-programs/swap/src/lib.rs:284-316 | A deposit keeps the claim of an LP token if and only if neither side's amount is floored |
| `SwapSafety.DepositDip` | himsha-programs/swap/src/lib.rs:299-308 | A floored deposit costs under one unit a side: with one more unit on each the claim would not have fallen |
| `SwapSafety.DepositLowersClaim` | himsha-programs/swap/src/lib.rs:299-308 | A deposit of 2 tokens a side that lowers the claim |
| `SwapSafety.ClaimNeverFalls` | himsha-programs/swap/src/lib.rs:177-393 | Over every run of swaps, deposits and withdrawals the pool stays live, and the claim of an LP token never falls if no deposit is floored |
| `SwapProgram.PoolAccounts.Swap` | himsha-programs/swap/src/lib.rs:177-256 | In place: the new pool and wallet are the specified ones; a failure changes nothing and gives the specified error |
| `SwapProgram.PoolAccounts.Deposit` | himsha-programs/swap/src/lib.rs:258-336 | In place: the new pool and wallet are the specified ones; a failure changes nothing and gives the specified error |
| `SwapProgram.PoolAccounts.Withdraw` | himsha-programs/swap/src/lib.rs:338-393 | In place: the new pool and wallet are the specified ones; a failure changes nothing and gives the specified error |
| `Lending.DueExactIff` | himsha-programs/lending/src/lib.rs:115-117 | The repayment due is principal plus interest if and only if the interest and the sum fit; otherwise it is less |
| `Lending.DueCanWrap` | himsha-programs/lending/src/lib.rs:115-117 | A concrete loan whose due amount is under a hundredth of its principal |
| `Lending.BestBidDeterministic` | himsha-programs/lending/src/lib.rs:367-372 | A unique highest bid is accepted whatever the map order |
| `Lending.StepInv` | himsha-programs/lending/src/lib.rs:292-473 | Every instruction on a named collection keeps the loan log invariant |
| `Lending.RunInv` | himsha-programs/lending/src/lib.rs:292-473 | The same over every run, for any choice among tied bids |
| `Lending.SettledExactlyOnce` | himsha-programs/lending/src/lib.rs:292-473 | For every inscription over every run, bids accepted equal active loans plus returns and seizures emitted, and every return followed full repayment of that loan |
| `Lending.ReturnsCoverPrincipal` | himsha-programs/lending/src/lib.rs:395-447 | Repayments between acceptance and return reach the amount due, hence principal plus interest whenever that fits |
| `LendingLaws.SettlementsFollowTerms` | himsha-programs/lending/src/lib.rs:349-473 | Over every run each settlement goes to the party its loan names, for the pledged output, on the right side of the deadline, and each loan carries its bid's terms |
| `LendingLaws.BidsAreConserved` | himsha-programs/lending/src/lib.rs:307-393 | Over every run each bid placed is open, cancelled or lent, exactly once |
| `LendingLaws.AcceptLaw` | himsha-programs/lending/src/lib.rs:349-393 | Accepting succeeds exactly with a bid open and the inscription free, and pledges it from now against a bid of the highest value |
| `LendingLaws.RepayLaw` | himsha-programs/lending/src/lib.rs:395-447 | A repayment is taken exactly when non-zero and in time, forwards itself, and closes the loan exactly when the due amount is reached |
| `LendingLaws.ClaimLaw` | himsha-programs/lending/src/lib.rs:449-473 | A claim succeeds exactly once the period has run out |
| `LendingLaws.BidLaw` | himsha-programs/lending/src/lib.rs:307-347 | A bid is stored as given, once, and cancelling undoes placing |
| `LendingLaws.InitLaw` | himsha-programs/lending/src/lib.rs:292-305 | A collection is set up blank, exactly while it has no name |
| `Lending.UnnamedReinitDropsLoan` | himsha-programs/lending/src/lib.rs:292-305 | Re-initialising a collection with an empty name loses its loans |
| `LendingProgram.PickBest` | himsha-programs/lending/src/lib.rs:367-372 | The walk over bids in arbitrary order returns a highest bid |
| `LendingProgram.CollectionAccount.PlaceBid` | himsha-programs/lending/src/lib.rs:307-334 | The maps and queue changed in place as the specified step, failing exactly when specified and with that error |
| `LendingProgram.CollectionAccount.CancelBid` | himsha-programs/lending/src/lib.rs:336-347 | The maps and queue changed in place as the specified step, failing exactly when specified and with that error |
| `LendingProgram.CollectionAccount.AcceptBid` | himsha-programs/lending/src/lib.rs:349-393 | The maps and queue changed in place as the specified step, failing exactly when specified and with that error |
| `LendingProgram.CollectionAccount.RepayLoan` | himsha-programs/lending/src/lib.rs:395-447 | The maps and queue changed in place as the specified step, failing exactly when specified and with that error |
| `LendingProgram.CollectionAccount.ClaimDefault` | himsha-programs/lending/src/lib.rs:449-473 | The maps and queue changed in place as the specified step, failing exactly when specified and with that error |
| `LendingProgram.CollectionAccount.TakeSettlements` | himsha-programs/lending/src/lib.rs:70-72 | Returns the whole queue and leaves it empty |
| `Oracle.AscendingSorts` | himsha-programs/oracle/src/lib.rs:105-117 | The sort orders and permutes |
| `Oracle.SortedUnique` | himsha-programs/oracle/src/lib.rs:115 | Any ascending rearrangement is the same sequence, so an unstable sort gives the same median |
| `Oracle.MedianRanks` | himsha-programs/oracle/src/lib.rs:105-117 | At least half of the prices are at most the lower median and more than half at least it |
| `Oracle.MedianBetweenHonest` | himsha-programs/oracle/src/lib.rs:105-117 | With fewer than half of the fresh submissions dishonest, the aggregate lies between two honest prices |
| `Oracle.StepKeepsFeed` | himsha-programs/oracle/src/lib.rs:201-332 | Every instruction keeps publishers distinct, at most 16, the authority among them |
| `Oracle.RunKeepsFeed` | himsha-programs/oracle/src/lib.rs:201-332 | The same over every run from a blank or set-up feed |
| `Oracle.StepMovesSoundly` | himsha-programs/oracle/src/lib.rs:251-295 | The aggregate moves only by a registered publisher's signed update, to the non-zero fresh median, with a fresh quorum and within the deviation bound |
| `Oracle.RunMovesSoundly` | himsha-programs/oracle/src/lib.rs:201-332 | The same at every step of every run |
| `Oracle.PriceStaysSet` | himsha-programs/oracle/src/lib.rs:251-295 | Once set, the aggregate never returns to zero |
| `OracleLaws.FreshLaw` | himsha-programs/oracle/src/lib.rs:75-80 | The median is over exactly the non-zero submissions within the age window, each publisher once |
| `OracleLaws.TwoPublishersMoveIt` | himsha-programs/oracle/src/lib.rs:95-101 | In a feed of two or more the aggregate moves only on two publishers' good prices |
| `OracleLaws.UpdateLaw` | himsha-programs/oracle/src/lib.rs:251-295 | Exactly which updates are taken, which refused, and when the aggregate becomes the median or is held |
| `OracleLaws.AddLaw` | himsha-programs/oracle/src/lib.rs:297-315 | Only the authority adds, only a newcomer, only up to sixteen, and exactly that publisher |
| `OracleLaws.RemoveLaw` | himsha-programs/oracle/src/lib.rs:317-332 | Only the authority removes, never itself, and exactly that publisher |
| `OracleLaws.InitLaw` | himsha-programs/oracle/src/lib.rs:229-249 | A feed is set up once, by its signing authority |
| `OracleProgram.FreshCount` | himsha-programs/oracle/src/lib.rs:82-87 | The counting loop counts the fresh submissions |
| `OracleProgram.ComputeMedian` | himsha-programs/oracle/src/lib.rs:105-117 | Filter, sort and pick compute the specified lower median, or nothing when none is fresh |
| `OracleProgram.Retain` | himsha-programs/oracle/src/lib.rs:327 | The retain loop keeps everyone else, in order |
| `OracleProgram.FeedAccount.Init` | himsha-programs/oracle/src/lib.rs:229-249 | The account is written exactly on success and as specified, with the specified error otherwise |
| `OracleProgram.FeedAccount.Update` | himsha-programs/oracle/src/lib.rs:251-295 | The account is written exactly on success and as specified, with the specified error otherwise |
| `OracleProgram.FeedAccount.Add` | himsha-programs/oracle/src/lib.rs:297-315 | The account is written exactly on success and as specified, with the specified error otherwise |
| `OracleProgram.FeedAccount.Remove` | himsha-programs/oracle/src/lib.rs:317-332 | The account is written exactly on success and as specified, with the specified error otherwise |
| `Radix.ConvertBack` | himsha-sdk/src/pubkey.ts:5-38 | Converting any numeral to another base and back returns it, leading zeros included |
| `Radix.ConvertEmptyIff` | himsha-sdk/src/pubkey.ts:5-38 | A conversion is empty only for the empty numeral |
| `Base58.DecodeUndoesEncode` | himsha-sdk/src/pubkey.ts:5-38 | Decoding undoes encoding for every non-empty byte string |
| `Base58.EncodeUndoesDecode` | himsha-sdk/src/pubkey.ts:5-38 | Encoding undoes decoding for every non-empty string over the alphabet |
| `Base58.RoundTripIff` | himsha-sdk/src/pubkey.ts:5-19 | The round trip holds if and only if the input is not empty, where encoding throws |
| `Base58.KeyTexts` | himsha-sdk/src/pubkey.ts:41-58 | A text is read as a key if and only if it is that key's text |
| `Base58.SampleText` | himsha-sdk/src/pubkey.ts:3-18 | The bytes 0, 0, 58 are the text 1121 |
| `Base58.Encode` | himsha-sdk/src/pubkey.ts:5-19 | The digit and leading-zero loops compute the specified text, or the error on empty input |
| `Base58.Decode` | himsha-sdk/src/pubkey.ts:21-38 | The value, byte and leading-one loops compute the specified bytes, or name the first invalid character |

## Left out

- VaultProgram.VaultAccounts.Withdraw: a failure after the market redemption leaves that redemption in place; the executor discarding the instruction's accounts is modelled in `Execution`, not here.
- Election.ElectionState.Elect: one undisturbed round; interleaved requests are the step system's subject.
- MarketSafety.SharePriceNeverFalls: for runs whose accruals are exact (`AccrualExactIff`); past that the cast drops the high bits and the price can fall to nothing (`AccrualWraps`).
- MarketSafety.StepKeepsPrice: for exact accruals, as above.
- MarketSafety.RunKeepsBacking: for exact accruals, as above.
- MarketSafety.ConversionsNeverTruncate: for exact accruals, as above.
- MarketSafety.AccrualAdds: for exact accruals, as above.
- VaultSafety.VaultPriceNeverFalls: for runs in which nothing is priced below the cached books; a realised loss lowers the price by design.
- VaultSafety.NoExtraction: where redemptions call on the market, for a sound market, a holding worth less than 2^64, and calls at which no interest falls due (interest falling due is yield, which holders share).
- VaultSafety.DealsKeepBooks: for redemptions that idle funds cover; one that calls on the market costs the holders its rounding, bounded by `UndeployingWithdrawBooks`.
- SwapSafety.ClaimNeverFalls: after a floored deposit the claim may have fallen, by the bound of `DepositDip`.
- Restarts of a node: election state is not persisted, so a restart forgets a vote.
- Token.Transfer: signer, mint match and frozen checks are left out; the accounting results rest on balances only.
- Token.MintTo: signer, mint match and frozen checks are left out.
- Token.Burn: signer and frozen checks are left out.
- The remaining token instructions.
- Transaction admission, signatures, blockhash expiry, status records and slot counters.
- Building and broadcasting settlement transactions; only the clearing of the queue is modelled.
- The owner gate's approval of an outer change equal to the last recorded state is modelled as it is: the results say that an entitled program recorded that state, not that it made the last change.
- JSON-RPC, CLI, web pages, SDK connections and instruction builders.
- Bitcoin indexer, Lightning client, custody, FROST, Schnorr, SHA-256, borsh and RISC Zero proving.
- redb and tokio themselves: tables are maps and sets, and a write transaction or a held lock is one step.
- Faucet RPCs, which write accounts outside blocks.
- System, associated-token, runes and NFT-metadata programs, which would only add easy members.
