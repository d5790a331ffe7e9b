/** The swap program as it runs: reserve accounts, LP mint and cached state updated in place. */
module SwapProgram {
  import opened Common
  import opened Token
  import S = Swap

  class PoolAccounts {
    const feeNumerator: u64
    const feeDenominator: u64
    var reserveA: u64
    var reserveB: u64
    var cachedA: u64
    var cachedB: u64
    var lpSupply: u64
    var lpMinted: u64

    function View(): S.Pool
      reads this
    {
      S.Pool(feeNumerator, feeDenominator, reserveA, reserveB, cachedA, cachedB, lpSupply, lpMinted)
    }

    constructor (feeNumerator: u64, feeDenominator: u64)
      requires feeDenominator > 0
      ensures View() == S.Pool(feeNumerator, feeDenominator, 0, 0, 0, 0, 0, 0)
    {
      this.feeNumerator, this.feeDenominator := feeNumerator, feeDenominator;
      reserveA, reserveB, cachedA, cachedB, lpSupply, lpMinted := 0, 0, 0, 0, 0, 0;
    }

    /** `Swap`, in the direction given by which reserve is passed first. */
    method Swap(aToB: bool, amountIn: u64, minOut: u64, walletIn: u64, walletOut: u64)
      returns (r: Result<S.Swapped>)
      requires feeDenominator > 0
      modifies this
      ensures r.Ok? == S.Swap(old(View()), aToB, amountIn, minOut, walletIn, walletOut).Ok?
      ensures r.Ok? ==> r == S.Swap(old(View()), aToB, amountIn, minOut, walletIn, walletOut) && View() == r.value.pool
      ensures r.Err? ==> View() == old(View()) && r == S.Swap(old(View()), aToB, amountIn, minOut, walletIn, walletOut)
    {
      hide S.Quote, S.FeeOn;
      var reserveIn, reserveOut := reserveA, reserveB;
      if !aToB {
        reserveIn, reserveOut := reserveB, reserveA;
      }
      :- Need(reserveIn != 0 && reserveOut != 0, PoolEmpty);
      var fee :- S.FeeOn(View(), amountIn);
      var net :- CheckedSub(amountIn, fee, Overflow);
      var out := S.Quote(reserveIn, reserveOut, net);
      :- Need(out >= minOut, SlippageExceeded);
      var taken :- Transfer(walletIn, reserveIn, amountIn);
      var paid :- Transfer(reserveOut, walletOut, out);
      if aToB {
        reserveA, reserveB := taken.dest, paid.source;
      } else {
        reserveB, reserveA := taken.dest, paid.source;
      }
      cachedA, cachedB := reserveA, reserveB;
      r := Ok(S.Swapped(View(), taken.source, paid.dest));
    }

    /** `Deposit`: the bootstrap root, or the smaller proportional side. */
    method Deposit(who: S.Provider, maxA: u64, maxB: u64, minLp: u64) returns (r: Result<S.Provider>)
      modifies this
      ensures var spec := S.Deposit(old(View()), who, maxA, maxB, minLp);
              && r.Ok? == spec.Ok?
              && (r.Ok? ==> View() == spec.value.pool && r.value == spec.value.provider)
              && (r.Err? ==> View() == old(View()) && spec == Err(r.error))
    {
      hide S.LpFor, S.ShareOf;
      var t: S.Terms;
      if lpSupply == 0 {
        var product :- S.CheckedMul(maxA, maxB);
        var lp := S.IntegerSqrt(product);
        var userLp :- CheckedSub(lp, S.MINIMUM_LIQUIDITY, InsufficientFunds);
        t := S.Terms(maxA, maxB, userLp, lp);
      } else {
        var lpA :- S.LpFor(maxA, lpSupply, reserveA);
        var lpB :- S.LpFor(maxB, lpSupply, reserveB);
        var lp: u64 := if lpA <= lpB then lpA else lpB;
        var a :- S.ShareOf(lp, reserveA, lpSupply);
        var b :- S.ShareOf(lp, reserveB, lpSupply);
        t := S.Terms(a, b, lp, lp);
      }
      assert S.TermsFor(View(), maxA, maxB) == Ok(t);
      :- Need(t.userLp >= minLp, SlippageExceeded);
      var inA :- Transfer(who.a, reserveA, t.a);
      var inB :- Transfer(who.b, reserveB, t.b);
      var minted :- MintTo(Holding(lpMinted, who.lp), t.userLp);
      var supply :- CheckedAdd(lpSupply, t.supplyDelta);
      reserveA, reserveB, lpMinted := inA.dest, inB.dest, minted.supply;
      lpSupply := supply;
      cachedA, cachedB := reserveA, reserveB;
      r := Ok(S.Provider(inA.source, inB.source, minted.balance));
    }

    /** `Withdraw`: LP burned first, then both sides paid, rounded for the pool. */
    method Withdraw(who: S.Provider, lp: u64, minA: u64, minB: u64) returns (r: Result<S.Provider>)
      modifies this
      ensures var spec := S.Withdraw(old(View()), who, lp, minA, minB);
              && r.Ok? == spec.Ok?
              && (r.Ok? ==> View() == spec.value.pool && r.value == spec.value.provider)
              && (r.Err? ==> View() == old(View()) && spec == Err(r.error))
    {
      hide S.Payout;
      :- Need(lpSupply != 0, PoolEmpty);
      var outA, outB := S.Payout(reserveA, lp, lpSupply), S.Payout(reserveB, lp, lpSupply);
      :- Need(outA >= minA && outB >= minB, SlippageExceeded);
      var burned :- Burn(Holding(lpMinted, who.lp), lp);
      var paidA :- Transfer(reserveA, who.a, outA);
      var paidB :- Transfer(reserveB, who.b, outB);
      var supply :- CheckedSub(lpSupply, lp, InsufficientFunds);
      reserveA, reserveB, lpMinted := paidA.source, paidB.source, burned.supply;
      lpSupply := supply;
      cachedA, cachedB := reserveA, reserveB;
      r := Ok(S.Provider(paidA.dest, paidB.dest, burned.balance));
    }
  }
}
