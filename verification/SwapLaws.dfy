/** How closely the pool's prices follow their formulas. */
module SwapLaws {
  import opened Common
  import opened Token
  import opened Swap
  import opened SwapSafety

  /** The fee is its part of the input, rounded down and no further. */
  lemma FeeLaw(p: Pool, amountIn: u64)
    requires p.feeDenominator > 0 && FeeOn(p, amountIn).Ok?
    ensures var fee := FeeOn(p, amountIn).value;
            fee * p.feeDenominator <= amountIn * p.feeNumerator < (fee + 1) * p.feeDenominator
  {
    FloorBounds(amountIn * p.feeNumerator, p.feeDenominator);
  }

  /** The quote keeps the product on the net input, and one unit more would not. */
  lemma QuoteIsTight(x: u64, y: u64, net: u64)
    requires x > 0
    ensures var out := Quote(x, y, net);
            (x + net) * (y - out - 1) < x * y <= (x + net) * (y - out)
  {
    var out, d := Quote(x, y, net), x + net;
    FloorBounds(y * net, d);
    assert d * (y - out) == x * y + (y * net - out * d);
    assert d * (y - out - 1) == d * (y - out) - d;
  }

  /**
   A swap takes the whole input, keeps the fee's part of it out of the quote,
   and pays the most that keeps the product on the rest; at least the minimum.
   */
  lemma SwapIsTight(p: Pool, aToB: bool, amountIn: u64, minOut: u64, walletIn: u64, walletOut: u64)
    requires p.feeDenominator > 0
    requires Swap.Swap(p, aToB, amountIn, minOut, walletIn, walletOut).Ok?
    ensures FeeOn(p, amountIn).Ok?
    ensures var s, fee := Swap.Swap(p, aToB, amountIn, minOut, walletIn, walletOut).value, FeeOn(p, amountIn).value;
            var x, y := if aToB then p.reserveA else p.reserveB, if aToB then p.reserveB else p.reserveA;
            var net, out := amountIn - fee, s.walletOut - walletOut;
            && s.walletIn == walletIn - amountIn
            && minOut <= out <= y
            && (x + net) * (y - out - 1) < x * y <= (x + net) * (y - out)
            && fee * p.feeDenominator <= amountIn * p.feeNumerator < (fee + 1) * p.feeDenominator
  {
    var fee := FeeOn(p, amountIn).value;
    FeeLaw(p, amountIn);
    if aToB {
      QuoteIsTight(p.reserveA, p.reserveB, amountIn - fee);
    } else {
      QuoteIsTight(p.reserveB, p.reserveA, amountIn - fee);
    }
    hide Quote, FeeOn;
  }

  /** A live pool swaps whenever the fee fits, the quote meets the minimum, and the balances have room. */
  lemma SwapAvailable(p: Pool, aToB: bool, amountIn: u64, minOut: u64, walletIn: u64, walletOut: u64, fee: u64)
    requires Live(p) && amountIn * p.feeNumerator <= U64_MAX && fee <= amountIn
    requires fee * p.feeDenominator <= amountIn * p.feeNumerator < (fee + 1) * p.feeDenominator
    requires var x, y := if aToB then p.reserveA else p.reserveB, if aToB then p.reserveB else p.reserveA;
             && amountIn <= walletIn && x + amountIn <= U64_MAX && y + walletOut <= U64_MAX
             && minOut <= Quote(x, y, amountIn - fee)
    ensures Swap.Swap(p, aToB, amountIn, minOut, walletIn, walletOut).Ok?
  {
    FloorIsGreatest(amountIn * p.feeNumerator, p.feeDenominator, fee);
    FloorAtMost(amountIn * p.feeNumerator, p.feeDenominator, fee);
    hide Quote;
  }

  // ---- deposits and withdrawals ----

  lemma LpForLaw(max: u64, supply: u64, reserve: u64)
    requires reserve > 0 && LpFor(max, supply, reserve).Ok?
    ensures var lp := LpFor(max, supply, reserve).value;
            lp * reserve <= max * supply < (lp + 1) * reserve
  {
    FloorBounds(max * supply, reserve);
  }

  /** The LP minted is the most both maxima afford, and what is taken is within them. */
  lemma DepositIsTight(p: Pool, who: Provider, maxA: u64, maxB: u64, minLp: u64)
    requires Live(p) && p.lpSupply > 0 && Deposit(p, who, maxA, maxB, minLp).Ok?
    ensures var d := Deposit(p, who, maxA, maxB, minLp).value;
            var lp, a, b := d.provider.lp - who.lp, who.a - d.provider.a, who.b - d.provider.b;
            && minLp <= lp && 0 <= a <= maxA && 0 <= b <= maxB
            && lp * p.reserveA <= maxA * p.lpSupply && lp * p.reserveB <= maxB * p.lpSupply
            && (maxA * p.lpSupply < (lp + 1) * p.reserveA || maxB * p.lpSupply < (lp + 1) * p.reserveB)
            && d.pool.reserveA == p.reserveA + a && d.pool.reserveB == p.reserveB + b
            && d.pool.lpSupply == p.lpSupply + lp && d.pool.lpMinted == p.lpMinted + lp
            && d.pool.cachedA == d.pool.reserveA && d.pool.cachedB == d.pool.reserveB
  {
    LpForLaw(maxA, p.lpSupply, p.reserveA);
    LpForLaw(maxB, p.lpSupply, p.reserveB);
    var lp := ProportionalTerms(p, maxA, maxB).value.userLp;
    var lpA, lpB := LpFor(maxA, p.lpSupply, p.reserveA).value, LpFor(maxB, p.lpSupply, p.reserveB).value;
    hide LpFor;
    assert lp == Min(lpA, lpB);
    MulMono(lp, lpA, p.reserveA);
    MulMono(lp, lpB, p.reserveB);
    TermsAreShares(p, maxA, maxB);
    hide ProportionalTerms;
    ShareWithin(lp, p.reserveA, p.lpSupply, maxA);
    ShareWithin(lp, p.reserveB, p.lpSupply, maxB);
  }

  lemma ShareWithin(lp: nat, reserve: nat, supply: nat, max: nat)
    requires supply > 0 && lp * reserve <= max * supply
    ensures (lp * reserve) / supply <= max
  {
    FloorAtMost(lp * reserve, supply, max);
  }

  /** The first deposit takes both maxima for the root of their product in LP, a thousand of it locked. */
  lemma BootstrapLaw(p: Pool, who: Provider, maxA: u64, maxB: u64, minLp: u64)
    requires p.lpSupply == 0 && Deposit(p, who, maxA, maxB, minLp).Ok?
    ensures var d := Deposit(p, who, maxA, maxB, minLp).value;
            var lp := d.provider.lp - who.lp;
            && minLp <= lp && d.pool.lpSupply == lp + 1_000 && d.pool.lpMinted == p.lpMinted + lp
            && d.pool.lpSupply * d.pool.lpSupply <= maxA * maxB < (d.pool.lpSupply + 1) * (d.pool.lpSupply + 1)
            && d.pool.reserveA == p.reserveA + maxA && d.pool.reserveB == p.reserveB + maxB
            && d.provider.a == who.a - maxA && d.provider.b == who.b - maxB
            && d.pool.cachedA == d.pool.reserveA && d.pool.cachedB == d.pool.reserveB
  {
  }

  /** A withdrawal pays each reserve's part of the LP burned, rounded down and no further, and at least the minima. */
  lemma WithdrawIsTight(p: Pool, who: Provider, lp: u64, minA: u64, minB: u64)
    requires Withdraw(p, who, lp, minA, minB).Ok?
    ensures var w := Withdraw(p, who, lp, minA, minB).value;
            var a, b := w.provider.a - who.a, w.provider.b - who.b;
            && minA <= a && minB <= b && w.provider.lp == who.lp - lp
            && a * p.lpSupply <= p.reserveA * lp < (a + 1) * p.lpSupply
            && b * p.lpSupply <= p.reserveB * lp < (b + 1) * p.lpSupply
            && w.pool.reserveA == p.reserveA - a && w.pool.reserveB == p.reserveB - b
            && w.pool.lpSupply == p.lpSupply - lp && w.pool.lpMinted == p.lpMinted - lp
            && w.pool.cachedA == w.pool.reserveA && w.pool.cachedB == w.pool.reserveB
  {
    assert 0 < p.lpSupply && lp <= p.lpSupply;
    PayoutExact(p.reserveA, lp, p.lpSupply);
    PayoutExact(p.reserveB, lp, p.lpSupply);
    PartLaw(p.reserveA, lp, p.lpSupply);
    PartLaw(p.reserveB, lp, p.lpSupply);
    hide Payout, MulDiv;
  }

  lemma PartLaw(reserve: nat, lp: nat, supply: nat)
    requires supply > 0
    ensures var q := MulDiv(reserve, lp, supply);
            q * supply <= reserve * lp < (q + 1) * supply
  {
    FloorBounds(reserve * lp, supply);
  }
}
