/** The constant-product pool: swaps, proportional liquidity, and the bootstrap root. */
module Swap {
  import opened Common
  import opened Token

  const MINIMUM_LIQUIDITY: u64 := 1000

  /** Pool state with the live balances of its two reserve accounts and its LP mint. */
  datatype Pool = Pool(
    feeNumerator: u64,
    feeDenominator: u64,
    reserveA: u64,
    reserveB: u64,
    cachedA: u64,
    cachedB: u64,
    lpSupply: u64,
    lpMinted: u64)

  // ---- integer square root ----

  /** The floor root, by the simplest recursion. */
  function Sqrt(n: nat): (r: nat)
    ensures r * r <= n < (r + 1) * (r + 1)
  {
    if n == 0 then 0
    else
      var r := Sqrt(n - 1);
      assert (r + 2) * (r + 2) == (r + 1) * (r + 1) + 2 * r + 3;
      if (r + 1) * (r + 1) <= n then r + 1 else r
  }

  lemma SqrtUnique(n: nat, r: nat)
    requires r * r <= n < (r + 1) * (r + 1)
    ensures r == Sqrt(n)
  {
    var s := Sqrt(n);
    if r < s {
      SquareMono(r + 1, s);
    } else if s < r {
      SquareMono(s + 1, r);
    }
  }

  lemma SquareMono(x: nat, y: nat)
    requires x <= y
    ensures x * x <= y * y
  {
    MulMono(x, y, x);
    MulMono(x, y, y);
  }

  /** One Newton step from above never undershoots the root, nor leaves 64 bits. */
  lemma NewtonStep(n: nat, x: nat)
    requires 0 < x <= n && n < (x + 1) * (x + 1)
    ensures var y := (x + n / x) / 2;
            n < (y + 1) * (y + 1) && (x <= y ==> x * x <= n)
    ensures n / x <= n
  {
    var q := n / x;
    FloorBounds(n, x);
    var y := (x + q) / 2;
    FloorAtMost(n, x, n);
    MeanBound(x, q);
    assert x * (q + 1) == q * x + x;
    if x <= y {
      MulMono(x, q, x);
    }
  }

  /** `4 * x * (q + 1) <= (x + q + 1)^2`, whose root bounds the rounded mean. */
  lemma MeanBound(x: nat, q: nat)
    ensures var y := (x + q) / 2; x * (q + 1) <= (y + 1) * (y + 1)
  {
    var s, y := x + q + 1, (x + q) / 2;
    var d := x - (q + 1);
    assert s * s - 4 * (x * (q + 1)) == d * d;
    NonNegativeSquare(d);
    assert s <= 2 * (y + 1);
    SquareMono(s, 2 * (y + 1));
    assert (2 * (y + 1)) * (2 * (y + 1)) == 4 * ((y + 1) * (y + 1));
  }

  lemma NonNegativeSquare(d: int)
    ensures d * d >= 0
  {
  }

  /** `integer_sqrt`: Newton's iteration from above stops at the exact floor root. */
  method IntegerSqrt(n: u64) returns (r: u64)
    ensures r == Sqrt(n)
    ensures r * r <= n < (r + 1) * (r + 1)
  {
    if n == 0 {
      return 0;
    }
    var x: u64 := n;
    var y: u64 := (n + 1) / 2;
    assert n / n == 1 by { FloorIsGreatest(n, n, 1); FloorAtMost(n, n, 1); }
    SquareGrows(n);
    NewtonStep(n, n);
    while y < x
      invariant 0 < x <= n && 0 < y && y == (x + n / x) / 2
      invariant n < (x + 1) * (x + 1) && y <= (n + 1) / 2
      decreases x
    {
      NewtonStep(n, x);
      x := y;
      PositiveQuotient(n, x);
      SumFits(n, x);
      var sum: u64 := x + n / x;
      y := sum / 2;
    }
    NewtonStep(n, x);
    r := x;
    SqrtUnique(n, r);
  }

  lemma SquareGrows(n: nat)
    requires n > 0
    ensures n < (n + 1) * (n + 1)
  {
    MulMono(1, n + 1, n + 1);
  }

  /** Past the first guess the Newton sum stays within 64 bits. */
  lemma SumFits(n: u64, x: u64)
    requires 0 < x <= (n + 1) / 2 && n < (x + 1) * (x + 1)
    ensures x + n / x <= U64_MAX && (x + n / x) / 2 <= (n + 1) / 2
  {
    if x >= 2 {
      FloorBounds(n, x);
      MulMono(2, x, n / x);
    }
  }

  lemma PositiveQuotient(n: nat, x: nat)
    requires 0 < x <= n
    ensures 1 <= n / x <= n
  {
    FloorIsGreatest(n, x, 1);
    MulMono(1, x, n);
    FloorAtMost(n, x, n);
  }

  // ---- instructions ----

  /** Balances of a token pair on one side of a swap. */
  datatype Swapped = Swapped(pool: Pool, walletIn: u64, walletOut: u64)

  function CheckedMul(a: u64, b: u64): Result<u64> {
    if a * b <= U64_MAX then Ok(a * b) else Err(Overflow)
  }

  function FeeOn(p: Pool, amountIn: u64): Result<u64>
    requires p.feeDenominator > 0
  {
    var scaled :- CheckedMul(amountIn, p.feeNumerator);
    Ok(scaled / p.feeDenominator)
  }

  /** The constant-product quote for an input after the fee. */
  function Quote(reserveIn: u64, reserveOut: u64, net: u64): (out: u64)
    requires reserveIn > 0
    ensures out <= reserveOut
  {
    MulMono(net, reserveIn + net, reserveOut);
    FloorAtMost(reserveOut * net, reserveIn + net, reserveOut);
    MulDiv(reserveOut, net, reserveIn + net)
  }

  function Swap(p: Pool, aToB: bool, amountIn: u64, minOut: u64, walletIn: u64, walletOut: u64): Result<Swapped>
    requires p.feeDenominator > 0
  {
    var reserveIn, reserveOut := if aToB then p.reserveA else p.reserveB, if aToB then p.reserveB else p.reserveA;
    if reserveIn == 0 || reserveOut == 0 then Err(PoolEmpty) else
    var fee :- FeeOn(p, amountIn);
    var net :- CheckedSub(amountIn, fee, Overflow);
    var out := Quote(reserveIn, reserveOut, net);
    :- Need(out >= minOut, SlippageExceeded);
    var taken :- Transfer(walletIn, reserveIn, amountIn);
    var paid :- Transfer(reserveOut, walletOut, out);
    var a, b := if aToB then taken.dest else paid.source, if aToB then paid.source else taken.dest;
    Ok(Swapped(p.(reserveA := a, reserveB := b, cachedA := a, cachedB := b), taken.source, paid.dest))
  }

  /** What a deposit takes on each side and credits in LP. */
  datatype Terms = Terms(a: u64, b: u64, userLp: u64, supplyDelta: u64)

  function BootstrapTerms(maxA: u64, maxB: u64): Result<Terms> {
    var product :- CheckedMul(maxA, maxB);
    var lp := Sqrt(product);
    SqrtSmall(product);
    var userLp :- CheckedSub(lp, MINIMUM_LIQUIDITY, InsufficientFunds);
    Ok(Terms(maxA, maxB, userLp, lp))
  }

  lemma SqrtSmall(n: nat)
    ensures Sqrt(n) <= n
  {
    var r := Sqrt(n);
    if r > 0 {
      MulMono(1, r, r);
    }
  }

  function LpFor(max: u64, lpSupply: u64, reserve: u64): Result<u64> {
    var scaled :- CheckedMul(max, lpSupply);
    Ok(scaled / Max(reserve, 1))
  }

  function ShareOf(lp: u64, reserve: u64, lpSupply: u64): Result<u64>
    requires lpSupply > 0
  {
    var scaled :- CheckedMul(lp, reserve);
    Ok(scaled / lpSupply)
  }

  function ProportionalTerms(p: Pool, maxA: u64, maxB: u64): Result<Terms>
    requires p.lpSupply > 0
  {
    var lpA :- LpFor(maxA, p.lpSupply, p.reserveA);
    var lpB :- LpFor(maxB, p.lpSupply, p.reserveB);
    var lp := Min(lpA, lpB);
    var a :- ShareOf(lp, p.reserveA, p.lpSupply);
    var b :- ShareOf(lp, p.reserveB, p.lpSupply);
    Ok(Terms(a, b, lp, lp))
  }

  function TermsFor(p: Pool, maxA: u64, maxB: u64): Result<Terms> {
    if p.lpSupply == 0 then BootstrapTerms(maxA, maxB) else ProportionalTerms(p, maxA, maxB)
  }

  /** A liquidity provider's three token balances. */
  datatype Provider = Provider(a: u64, b: u64, lp: u64)

  datatype Provided = Provided(pool: Pool, provider: Provider)

  function Deposit(p: Pool, who: Provider, maxA: u64, maxB: u64, minLp: u64): Result<Provided> {
    var t :- TermsFor(p, maxA, maxB);
    :- Need(t.userLp >= minLp, SlippageExceeded);
    var inA :- Transfer(who.a, p.reserveA, t.a);
    var inB :- Transfer(who.b, p.reserveB, t.b);
    var minted :- MintTo(Holding(p.lpMinted, who.lp), t.userLp);
    var supply :- CheckedAdd(p.lpSupply, t.supplyDelta);
    Ok(Provided(
         p.(reserveA := inA.dest, reserveB := inB.dest, cachedA := inA.dest, cachedB := inB.dest,
            lpSupply := supply, lpMinted := minted.supply),
         Provider(inA.source, inB.source, minted.balance)))
  }

  function Payout(reserve: u64, lp: u64, lpSupply: u64): u64
    requires lpSupply > 0
  {
    Trunc64(MulDiv(reserve, lp, lpSupply))
  }

  function Withdraw(p: Pool, who: Provider, lp: u64, minA: u64, minB: u64): Result<Provided> {
    if p.lpSupply == 0 then Err(PoolEmpty) else
    var outA, outB := Payout(p.reserveA, lp, p.lpSupply), Payout(p.reserveB, lp, p.lpSupply);
    :- Need(outA >= minA && outB >= minB, SlippageExceeded);
    var burned :- Burn(Holding(p.lpMinted, who.lp), lp);
    var paidA :- Transfer(p.reserveA, who.a, outA);
    var paidB :- Transfer(p.reserveB, who.b, outB);
    var supply :- CheckedSub(p.lpSupply, lp, InsufficientFunds);
    Ok(Provided(
         p.(reserveA := paidA.source, reserveB := paidB.source, cachedA := paidA.source, cachedB := paidB.source,
            lpSupply := supply, lpMinted := burned.supply),
         Provider(paidA.dest, paidB.dest, burned.balance)))
  }
}
