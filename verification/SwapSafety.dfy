/** What every run of the pool keeps. */
module SwapSafety {
  import opened Common
  import opened Token
  import opened Swap

  function Product(p: Pool): nat {
    p.reserveA * p.reserveB
  }

  predicate Live(p: Pool) {
    p.feeDenominator > 0 && p.reserveA > 0 && p.reserveB > 0
  }

  /** The quote leaves the pool at least as much product as it found, and something to quote. */
  lemma QuoteKeepsProduct(x: u64, y: u64, net: u64, gross: nat)
    requires x > 0 && y > 0 && net <= gross
    ensures var out := Quote(x, y, net);
            out < y && x * y <= (x + gross) * (y - out)
  {
    var out, d := Quote(x, y, net), x + net;
    FloorBounds(y * net, d);
    assert d * (y - out) == x * y + (y * net - out * d);
    assert y * d == y * net + x * y;
    MulMono(1, x, y);
    if out >= y {
      MulMono(y, out, d);
    }
    MulMono(d, x + gross, y - out);
  }

  /** No swap, in either direction, lowers the product or empties a side. */
  lemma SwapKeepsProduct(p: Pool, aToB: bool, amountIn: u64, minOut: u64, walletIn: u64, walletOut: u64)
    requires p.feeDenominator > 0
    requires Swap.Swap(p, aToB, amountIn, minOut, walletIn, walletOut).Ok?
    ensures var s := Swap.Swap(p, aToB, amountIn, minOut, walletIn, walletOut).value;
            && Live(s.pool) && Product(p) <= Product(s.pool)
            && s.pool.cachedA == s.pool.reserveA && s.pool.cachedB == s.pool.reserveB
            && s.pool.lpSupply == p.lpSupply
            && (if aToB then s.pool.reserveA + s.walletIn == p.reserveA + walletIn
                             && s.pool.reserveB + s.walletOut == p.reserveB + walletOut
                else s.pool.reserveB + s.walletIn == p.reserveB + walletIn
                     && s.pool.reserveA + s.walletOut == p.reserveA + walletOut)
  {
    var fee := FeeOn(p, amountIn).value;
    if aToB {
      QuoteKeepsProduct(p.reserveA, p.reserveB, amountIn - fee, amountIn);
    } else {
      QuoteKeepsProduct(p.reserveB, p.reserveA, amountIn - fee, amountIn);
    }
    hide Quote, FeeOn;
  }

  // ---- a trader's run ----

  /** One trader against the pool. */
  datatype Desk = Desk(pool: Pool, a: u64, b: u64)

  datatype Order = Order(aToB: bool, amountIn: u64, minOut: u64)

  function Fill(d: Desk, o: Order): (e: Desk)
    requires d.pool.feeDenominator > 0
    ensures e.pool.feeDenominator == d.pool.feeDenominator
  {
    if o.aToB then
      var r := Swap.Swap(d.pool, true, o.amountIn, o.minOut, d.a, d.b);
      if r.Ok? then Desk(r.value.pool, r.value.walletIn, r.value.walletOut) else d
    else
      var r := Swap.Swap(d.pool, false, o.amountIn, o.minOut, d.b, d.a);
      if r.Ok? then Desk(r.value.pool, r.value.walletOut, r.value.walletIn) else d
  }

  function FillAll(d: Desk, orders: seq<Order>): Desk
    requires d.pool.feeDenominator > 0
    decreases |orders|
  {
    if orders == [] then d else FillAll(Fill(d, orders[0]), orders[1..])
  }

  lemma FillKeeps(d: Desk, o: Order)
    requires Live(d.pool)
    ensures var e := Fill(d, o);
            && Live(e.pool) && Product(d.pool) <= Product(e.pool)
            && e.pool.reserveA + e.a == d.pool.reserveA + d.a
            && e.pool.reserveB + e.b == d.pool.reserveB + d.b
  {
    hide Swap.Swap;
    if o.aToB {
      if Swap.Swap(d.pool, true, o.amountIn, o.minOut, d.a, d.b).Ok? {
        SwapKeepsProduct(d.pool, true, o.amountIn, o.minOut, d.a, d.b);
      }
    } else if Swap.Swap(d.pool, false, o.amountIn, o.minOut, d.b, d.a).Ok? {
      SwapKeepsProduct(d.pool, false, o.amountIn, o.minOut, d.b, d.a);
    }
  }

  /** Over any run of swaps in both directions: product up, no side empty, tokens conserved. */
  lemma {:induction false} RunKeepsProduct(d: Desk, orders: seq<Order>)
    requires Live(d.pool)
    ensures var e := FillAll(d, orders);
            && Live(e.pool) && Product(d.pool) <= Product(e.pool)
            && e.pool.reserveA + e.a == d.pool.reserveA + d.a
            && e.pool.reserveB + e.b == d.pool.reserveB + d.b
    decreases |orders|
  {
    hide Fill, Product;
    if orders != [] {
      FillKeeps(d, orders[0]);
      RunKeepsProduct(Fill(d, orders[0]), orders[1..]);
    }
  }

  /** A trader who ends with no less of one token ends with no more of the other. */
  lemma NoFreeTokens(d: Desk, orders: seq<Order>)
    requires Live(d.pool)
    ensures var e := FillAll(d, orders);
            && (e.a >= d.a ==> e.b <= d.b)
            && (e.b >= d.b ==> e.a <= d.a)
  {
    RunKeepsProduct(d, orders);
    var p, q := d.pool, FillAll(d, orders).pool;
    hide FillAll;
    if q.reserveA <= p.reserveA {
      MulMono(q.reserveA, p.reserveA, q.reserveB);
      CancelLe(p.reserveB, q.reserveB, p.reserveA);
    }
    if q.reserveB <= p.reserveB {
      MulMono(q.reserveB, p.reserveB, q.reserveA);
      CancelLe(p.reserveA, q.reserveA, p.reserveB);
    }
  }

  // ---- liquidity ----

  /** A share of `reserve` taken in and paid back out of the grown pool never grows. */
  lemma RoundTripSide(reserve: nat, supply: nat, lp: nat)
    requires supply > 0
    ensures var taken := (lp * reserve) / supply;
            (reserve + taken) * lp / (supply + lp) <= taken
  {
    var taken := (lp * reserve) / supply;
    FloorBounds(lp * reserve, supply);
    var x := (reserve + taken) * lp;
    assert x == lp * reserve + taken * lp;
    assert (taken + 1) * (supply + lp) == taken * supply + taken * lp + supply + lp;
    if lp == 0 {
      assert x == 0;
      FloorAtMost(0, supply, 0);
    } else {
      FloorAtMost(x, supply + lp, taken);
    }
  }

  /** Depositing and then withdrawing the minted LP returns at most what went in, per side. */
  lemma DepositThenWithdraw(p: Pool, who: Provider, maxA: u64, maxB: u64, minLp: u64, minA: u64, minB: u64)
    requires p.lpSupply > 0
    requires Deposit(p, who, maxA, maxB, minLp).Ok?
    requires var d := Deposit(p, who, maxA, maxB, minLp).value;
             Withdraw(d.pool, d.provider, d.provider.lp - who.lp, minA, minB).Ok?
    ensures var d := Deposit(p, who, maxA, maxB, minLp).value;
            var w := Withdraw(d.pool, d.provider, d.provider.lp - who.lp, minA, minB).value;
            w.provider.a <= who.a && w.provider.b <= who.b
  {
    var t := ProportionalTerms(p, maxA, maxB).value;
    RoundTripSide(p.reserveA, p.lpSupply, t.userLp);
    RoundTripSide(p.reserveB, p.lpSupply, t.userLp);
    TermsAreShares(p, maxA, maxB);
    hide ProportionalTerms;
  }

  lemma TermsAreShares(p: Pool, maxA: u64, maxB: u64)
    requires p.lpSupply > 0 && ProportionalTerms(p, maxA, maxB).Ok?
    ensures var t := ProportionalTerms(p, maxA, maxB).value;
            && t.userLp == t.supplyDelta
            && t.a == (t.userLp * p.reserveA) / p.lpSupply
            && t.b == (t.userLp * p.reserveB) / p.lpSupply
  {
    hide LpFor;
  }

  /**
   Depositing first and then withdrawing the minted LP, whatever the reserves
   already held: a side returns at most what went in exactly when the balance
   found there, scaled to the user's LP, is below the locked part of the deposit.
   */
  lemma BootstrapRoundTripIff(p: Pool, who: Provider, maxA: u64, maxB: u64, minLp: u64, minA: u64, minB: u64)
    requires p.lpSupply == 0
    requires Deposit(p, who, maxA, maxB, minLp).Ok?
    requires var d := Deposit(p, who, maxA, maxB, minLp).value;
             Withdraw(d.pool, d.provider, d.provider.lp - who.lp, minA, minB).Ok?
    ensures var d := Deposit(p, who, maxA, maxB, minLp).value;
            var lp := d.provider.lp - who.lp;
            var w := Withdraw(d.pool, d.provider, lp, minA, minB).value;
            && (w.provider.a <= who.a <==> p.reserveA * lp < MINIMUM_LIQUIDITY * maxA + lp + MINIMUM_LIQUIDITY)
            && (w.provider.b <= who.b <==> p.reserveB * lp < MINIMUM_LIQUIDITY * maxB + lp + MINIMUM_LIQUIDITY)
  {
    var t := BootstrapTerms(maxA, maxB).value;
    hide BootstrapTerms, Payout;
    FoundBalanceSideIff(p.reserveA, maxA, t.userLp);
    FoundBalanceSideIff(p.reserveB, maxB, t.userLp);
  }

  /** Into empty reserves the round trip always loses: the locked liquidity. */
  lemma BootstrapThenWithdraw(p: Pool, who: Provider, maxA: u64, maxB: u64, minLp: u64, minA: u64, minB: u64)
    requires p.lpSupply == 0 && p.reserveA == 0 && p.reserveB == 0
    requires Deposit(p, who, maxA, maxB, minLp).Ok?
    requires var d := Deposit(p, who, maxA, maxB, minLp).value;
             Withdraw(d.pool, d.provider, d.provider.lp - who.lp, minA, minB).Ok?
    ensures var d := Deposit(p, who, maxA, maxB, minLp).value;
            var w := Withdraw(d.pool, d.provider, d.provider.lp - who.lp, minA, minB).value;
            w.provider.a <= who.a && w.provider.b <= who.b
  {
    BootstrapRoundTripIff(p, who, maxA, maxB, minLp, minA, minB);
    hide Deposit, Withdraw;
  }

  /** 10,000 tokens sent to reserve A beforehand: 2,000 go in on that side and 6,000 come out. */
  lemma BootstrapPaysOut(p: Pool)
    requires p.lpSupply == 0 && p.lpMinted == 0 && p.reserveA == 10_000 && p.reserveB == 0
    ensures var who := Provider(2_000, 2_000, 0);
            && Deposit(p, who, 2_000, 2_000, 0).Ok?
            && var d := Deposit(p, who, 2_000, 2_000, 0).value;
               && Withdraw(d.pool, d.provider, d.provider.lp, 0, 0).Ok?
               && Withdraw(d.pool, d.provider, d.provider.lp, 0, 0).value.provider.a == 6_000
  {
    SqrtUnique(4_000_000, 2_000);
  }

  lemma BootstrapSide(amount: u64, lp: u64, supply: u64)
    requires 0 < supply && lp <= supply
    ensures Payout(amount, lp, supply) <= amount
  {
    MulMono(lp, supply, amount);
    FloorAtMost(amount * lp, supply, amount);
  }

  /**
   Tokens already sitting in a reserve before the bootstrap are shared out with
   it: a side of the round trip stays within what went in exactly when the
   found balance, scaled to the user's LP, is below the locked part of the deposit.
   */
  lemma FoundBalanceSideIff(found: u64, amount: u64, userLp: u64)
    requires found + amount <= U64_MAX && userLp + MINIMUM_LIQUIDITY <= U64_MAX
    ensures Payout(found + amount, userLp, userLp + MINIMUM_LIQUIDITY) <= amount
            <==> found * userLp < MINIMUM_LIQUIDITY * amount + userLp + MINIMUM_LIQUIDITY
  {
    var s, x := userLp + MINIMUM_LIQUIDITY, (found + amount) * userLp;
    assert x == found * userLp + amount * userLp;
    assert (amount + 1) * s == amount * userLp + MINIMUM_LIQUIDITY * amount + userLp + MINIMUM_LIQUIDITY;
    BootstrapSide(found + amount, userLp, s);
    PayoutExact(found + amount, userLp, s);
    if x < (amount + 1) * s {
      FloorAtMost(x, s, amount);
    } else {
      FloorIsGreatest(x, s, amount + 1);
    }
  }

  lemma PayoutExact(reserve: u64, lp: u64, supply: u64)
    requires 0 < supply && lp <= supply
    ensures Payout(reserve, lp, supply) == MulDiv(reserve, lp, supply) <= reserve
  {
    MulMono(lp, supply, reserve);
    FloorAtMost(reserve * lp, supply, reserve);
  }

  // ---- value per LP token ----

  /** After the bootstrap the supply is what is minted plus what is locked forever. */
  predicate Bootstrapped(p: Pool) {
    p.lpSupply == p.lpMinted + MINIMUM_LIQUIDITY
  }

  /** Product per squared LP supply: the square of one LP token's claim. */
  ghost predicate ClaimLe(p: Pool, q: Pool) {
    FractionLe(Product(p), p.lpSupply * p.lpSupply, Product(q), q.lpSupply * q.lpSupply)
  }

  lemma WithdrawSide(reserve: u64, lp: u64, supply: u64)
    requires 0 < reserve && lp < supply
    ensures var left := reserve - Payout(reserve, lp, supply);
            0 < left && reserve * (supply - lp) <= left * supply
  {
    var out := Payout(reserve, lp, supply);
    PayoutExact(reserve, lp, supply);
    FloorBounds(reserve * lp, supply);
    assert (reserve - out) * supply == reserve * supply - out * supply;
    assert reserve * (supply - lp) == reserve * supply - reserve * lp;
    MulMono(1, reserve, supply - lp);
  }

  lemma SidesMultiply(a: nat, b: nat, a': nat, b': nat, s: nat, s': nat)
    requires a * s' <= a' * s && b * s' <= b' * s
    ensures FractionLe(a * b, s * s, a' * b', s' * s')
  {
    MulMono(a * s', a' * s, b * s');
    MulMono(b * s', b' * s, a' * s);
    Regroup(a, s', b, s');
    Regroup(a', s, b', s);
  }

  lemma Regroup(a: int, s: int, b: int, t: int)
    ensures (a * s) * (b * t) == (a * b) * (s * t)
  {
    assert (a * s) * (b * t) == a * (s * (b * t));
    assert s * (b * t) == b * (s * t);
    assert a * (b * (s * t)) == (a * b) * (s * t);
  }

  /** A withdrawal rounds for the pool: the claim of the LP left behind never falls. */
  lemma WithdrawKeepsClaim(p: Pool, who: Provider, lp: u64, minA: u64, minB: u64)
    requires Live(p) && Bootstrapped(p) && Withdraw(p, who, lp, minA, minB).Ok?
    ensures var q := Withdraw(p, who, lp, minA, minB).value.pool;
            Live(q) && Bootstrapped(q) && ClaimLe(p, q)
  {
    WithdrawSide(p.reserveA, lp, p.lpSupply);
    WithdrawSide(p.reserveB, lp, p.lpSupply);
    hide Payout;
    var q := Withdraw(p, who, lp, minA, minB).value.pool;
    SidesMultiply(p.reserveA, p.reserveB, q.reserveA, q.reserveB, p.lpSupply, q.lpSupply);
  }

  /** A floored deposit side: never more than its share, short by less than one unit, exact iff divisible. */
  lemma DepositSide(reserve: nat, supply: nat, lp: nat)
    requires supply > 0
    ensures var r' := reserve + (lp * reserve) / supply;
            && r' * supply <= reserve * (supply + lp) < (r' + 1) * supply
            && (r' * supply == reserve * (supply + lp) <==> (lp * reserve) % supply == 0)
  {
    var x := lp * reserve;
    var t := x / supply;
    FloorBounds(x, supply);
    assert x == t * supply + x % supply;
    assert (reserve + t) * supply == reserve * supply + t * supply;
    assert reserve * (supply + lp) == reserve * supply + x;
    assert (reserve + t + 1) * supply == (reserve + t) * supply + supply;
  }

  /** Two products of smaller factors reach the larger ones only by equality on both sides. */
  lemma ProductsMeet(x: nat, y: nat, x1: nat, y1: nat)
    requires x <= x1 && y <= y1 && 0 < x1 && 0 < y1
    ensures x1 * y1 <= x * y <==> x == x1 && y == y1
  {
    MulMono(x, x1, y);
    MulMono(y, y1, x1);
    if x < x1 {
      MulMono(x, x1 - 1, y);
      MulMono(y, y1, x1 - 1);
      assert (x1 - 1) * y1 == x1 * y1 - y1;
    } else if y < y1 {
      MulMono(y, y1 - 1, x1);
      assert x1 * (y1 - 1) == x1 * y1 - x1;
    }
  }

  /** The deposit takes its exact share of both reserves, with nothing floored away. */
  predicate ExactTerms(p: Pool, maxA: u64, maxB: u64) {
    p.lpSupply > 0 && ProportionalTerms(p, maxA, maxB).Ok? ==>
      var lp := ProportionalTerms(p, maxA, maxB).value.userLp;
      (lp * p.reserveA) % p.lpSupply == 0 && (lp * p.reserveB) % p.lpSupply == 0
  }

  lemma DepositReserves(p: Pool, who: Provider, maxA: u64, maxB: u64, minLp: u64)
    requires p.lpSupply > 0 && Deposit(p, who, maxA, maxB, minLp).Ok?
    ensures ProportionalTerms(p, maxA, maxB).Ok?
    ensures var q, lp := Deposit(p, who, maxA, maxB, minLp).value.pool, ProportionalTerms(p, maxA, maxB).value.userLp;
            && q.reserveA == p.reserveA + (lp * p.reserveA) / p.lpSupply
            && q.reserveB == p.reserveB + (lp * p.reserveB) / p.lpSupply
            && q.lpSupply == p.lpSupply + lp && q.lpMinted == p.lpMinted + lp
            && q.feeDenominator == p.feeDenominator
  {
    TermsAreShares(p, maxA, maxB);
    hide ProportionalTerms;
  }

  /** A deposit keeps the claim of an LP token exactly when neither side is floored. */
  lemma DepositKeepsClaimIff(p: Pool, who: Provider, maxA: u64, maxB: u64, minLp: u64)
    requires Live(p) && p.lpSupply > 0 && Deposit(p, who, maxA, maxB, minLp).Ok?
    ensures var q := Deposit(p, who, maxA, maxB, minLp).value.pool;
            ClaimLe(p, q) <==> ExactTerms(p, maxA, maxB)
  {
    DepositReserves(p, who, maxA, maxB, minLp);
    var q, lp := Deposit(p, who, maxA, maxB, minLp).value.pool, ProportionalTerms(p, maxA, maxB).value.userLp;
    hide Deposit, ProportionalTerms;
    var s, s' := p.lpSupply, q.lpSupply;
    DepositSide(p.reserveA, s, lp);
    DepositSide(p.reserveB, s, lp);
    MulMono(1, p.reserveA, s');
    MulMono(1, p.reserveB, s');
    ProductsMeet(q.reserveA * s, q.reserveB * s, p.reserveA * s', p.reserveB * s');
    Regroup(p.reserveA, s', p.reserveB, s');
    Regroup(q.reserveA, s, q.reserveB, s);
  }

  /** The dip is under one unit a side: with one more unit on each the claim would not have fallen. */
  lemma DepositDip(p: Pool, who: Provider, maxA: u64, maxB: u64, minLp: u64)
    requires p.lpSupply > 0 && Deposit(p, who, maxA, maxB, minLp).Ok?
    ensures var q := Deposit(p, who, maxA, maxB, minLp).value.pool;
            FractionLe(Product(p), p.lpSupply * p.lpSupply,
                       (q.reserveA + 1) * (q.reserveB + 1), q.lpSupply * q.lpSupply)
  {
    DepositReserves(p, who, maxA, maxB, minLp);
    var q, lp := Deposit(p, who, maxA, maxB, minLp).value.pool, ProportionalTerms(p, maxA, maxB).value.userLp;
    hide Deposit, ProportionalTerms;
    DepositSide(p.reserveA, p.lpSupply, lp);
    DepositSide(p.reserveB, p.lpSupply, lp);
    SidesMultiply(p.reserveA, p.reserveB, q.reserveA + 1, q.reserveB + 1, p.lpSupply, q.lpSupply);
  }

  /** Against 2,003 a side over 2,000 LP, one LP token is minted for one token a side: less than it claims. */
  lemma DepositLowersClaim(p: Pool, who: Provider)
    requires p.reserveA == 2_003 && p.reserveB == 2_003 && p.lpSupply == 2_000 && p.lpMinted == 1_000
    requires who.a >= 2 && who.b >= 2 && who.lp == 0
    ensures Deposit(p, who, 2, 2, 0).Ok? && !ClaimLe(p, Deposit(p, who, 2, 2, 0).value.pool)
  {
  }

  datatype Move =
    | Trade(order: Order, walletIn: u64, walletOut: u64)
    | Enter(who: Provider, maxA: u64, maxB: u64, minLp: u64)
    | Exit(who: Provider, lp: u64, minA: u64, minB: u64)

  function Play(p: Pool, mv: Move): (q: Pool)
    requires p.feeDenominator > 0
    ensures q.feeDenominator > 0
  {
    match mv
    case Trade(o, walletIn, walletOut) =>
      var r := Swap.Swap(p, o.aToB, o.amountIn, o.minOut, walletIn, walletOut);
      if r.Ok? then r.value.pool else p
    case Enter(who, maxA, maxB, minLp) =>
      var r := Deposit(p, who, maxA, maxB, minLp);
      if r.Ok? then r.value.pool else p
    case Exit(who, lp, minA, minB) =>
      var r := Withdraw(p, who, lp, minA, minB);
      if r.Ok? then r.value.pool else p
  }

  function PlayAll(p: Pool, moves: seq<Move>): Pool
    requires p.feeDenominator > 0
    decreases |moves|
  {
    if moves == [] then p else PlayAll(Play(p, moves[0]), moves[1..])
  }

  /** A deposit that goes through and floors at least one side. */
  predicate Floored(p: Pool, mv: Move) {
    mv.Enter? && Deposit(p, mv.who, mv.maxA, mv.maxB, mv.minLp).Ok? && !ExactTerms(p, mv.maxA, mv.maxB)
  }

  lemma EnterKeepsPool(p: Pool, mv: Move)
    requires Live(p) && Bootstrapped(p) && mv.Enter?
    ensures Live(Play(p, mv)) && Bootstrapped(Play(p, mv))
    ensures ClaimLe(p, Play(p, mv)) <==> !Floored(p, mv)
  {
    if Deposit(p, mv.who, mv.maxA, mv.maxB, mv.minLp).Ok? {
      DepositReserves(p, mv.who, mv.maxA, mv.maxB, mv.minLp);
      DepositKeepsClaimIff(p, mv.who, mv.maxA, mv.maxB, mv.minLp);
      hide ProportionalTerms, ExactTerms, TermsFor;
      var lp := ProportionalTerms(p, mv.maxA, mv.maxB).value.userLp;
      DepositSide(p.reserveA, p.lpSupply, lp);
      DepositSide(p.reserveB, p.lpSupply, lp);
    }
  }

  lemma PlayKeepsClaim(p: Pool, mv: Move)
    requires Live(p) && Bootstrapped(p)
    ensures Live(Play(p, mv)) && Bootstrapped(Play(p, mv))
    ensures ClaimLe(p, Play(p, mv)) <==> !Floored(p, mv)
  {
    hide ExactTerms;
    match mv
    case Trade(o, walletIn, walletOut) =>
      if Swap.Swap(p, o.aToB, o.amountIn, o.minOut, walletIn, walletOut).Ok? {
        SwapKeepsProduct(p, o.aToB, o.amountIn, o.minOut, walletIn, walletOut);
        hide Swap.Swap, Product;
        MulMono(Product(p), Product(Play(p, mv)), p.lpSupply * p.lpSupply);
      }
    case Enter(_, _, _, _) =>
      EnterKeepsPool(p, mv);
    case Exit(who, lp, minA, minB) =>
      if Withdraw(p, who, lp, minA, minB).Ok? {
        WithdrawKeepsClaim(p, who, lp, minA, minB);
      }
  }

  /** No deposit in the run is floored. */
  predicate NoneFloored(p: Pool, moves: seq<Move>)
    requires p.feeDenominator > 0
    decreases |moves|
  {
    moves != [] ==> !Floored(p, moves[0]) && NoneFloored(Play(p, moves[0]), moves[1..])
  }

  /**
   Over any run of swaps, deposits and withdrawals by anyone, an LP token's claim
   never falls if no deposit is floored; the pool stays live in any case.
   */
  lemma {:induction false} ClaimNeverFalls(p: Pool, moves: seq<Move>)
    requires Live(p) && Bootstrapped(p)
    ensures var q := PlayAll(p, moves);
            Live(q) && Bootstrapped(q) && (NoneFloored(p, moves) ==> ClaimLe(p, q))
    decreases |moves|
  {
    hide Play, Product, Floored;
    if moves != [] {
      var next := Play(p, moves[0]);
      PlayKeepsClaim(p, moves[0]);
      ClaimNeverFalls(next, moves[1..]);
      var end := PlayAll(p, moves);
      if NoneFloored(p, moves) {
        PositiveSquare(p.lpSupply);
        PositiveSquare(next.lpSupply);
        PositiveSquare(end.lpSupply);
        FractionLeTrans(Product(p), p.lpSupply * p.lpSupply, Product(next), next.lpSupply * next.lpSupply,
                        Product(end), end.lpSupply * end.lpSupply);
      }
    }
  }

  lemma PositiveSquare(x: nat)
    requires x > 0
    ensures x * x > 0
  {
  }
}
