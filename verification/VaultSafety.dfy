/** What every run of the vault keeps, and what moving funds through the market costs. */
module VaultSafety {
  import opened Common
  import opened Token
  import opened Vault
  import MM = MoneyMarket
  import MS = MarketSafety

  // ---- moving funds through the market ----

  /**
   Adding `a` to a pool of `p` over `s` shares while minting `m` (both negative
   to take out), with the rounding against the mover by less than one share:
   a holding of `h` moves with it, never gains, and loses less than one share's
   worth plus one unit.
   */
  lemma RebalanceBounds(p: nat, s: nat, h: nat, a: int, m: int)
    requires 0 < s && h <= s && 0 < s + m && 0 <= h + m && 0 <= p + a
    requires 0 <= a * s - m * p < p
    ensures (h + m) * (p + a) >= 0
    ensures var v, v' := (h * p) / s, ((h + m) * (p + a)) / (s + m);
            v' <= v + a && (v + a - v' - 1) * s < p
  {
    var x, t, d := (h + m) * (p + a), s + m, a * s - m * p;
    MulMono(0, h + m, p + a);
    RebalanceIdentity(p, s, h, a, m);
    FloorBounds(h * p, s);
    FloorBounds(x, t);
    NoGain(p, s, h, a, t, d, x, x / t);
    BoundedLoss(p, s, h, a, t, d, x, (h * p) / s, x / t);
  }

  lemma NoGain(p: nat, s: nat, h: nat, a: int, t: nat, d: nat, x: nat, v': nat)
    requires 0 < s && h <= s && 0 < t
    requires s * x + (s - h) * d == (a * s + h * p) * t
    requires v' * t <= x
    ensures v' <= (h * p) / s + a
  {
    MulMono(0, s - h, d);
    MulMono(v' * t, x, s);
    ScaleSwap(v', t, s);
    CancelLe(v' * s, a * s + h * p, t);
    assert (v' - a) * s == v' * s - a * s;
    FloorIsGreatest(h * p, s, v' - a);
  }

  lemma BoundedLoss(p: nat, s: nat, h: nat, a: int, t: nat, d: nat, x: nat, v: nat, v': nat)
    requires 0 < s && h <= s && 0 < t && s - h <= t && d < p
    requires s * x + (s - h) * d == (a * s + h * p) * t
    requires v * s <= h * p && x < v' * t + t
    ensures (v + a - v' - 1) * s < p
  {
    MulMono(s - h, t, d);
    MulMono(d, p, t);
    assert (v + a) * s == v * s + a * s;
    MulMono((v + a) * s, a * s + h * p, t);
    MulMono(x, v' * t + t - 1, s);
    LossCancels(v + a, v', s, t, p, x);
  }

  lemma RebalanceIdentity(p: int, s: int, h: int, a: int, m: int)
    ensures s * ((h + m) * (p + a)) + (s - h) * (a * s - m * p) == (a * s + h * p) * (s + m)
  {
    assert (h + m) * (p + a) == h * p + h * a + m * p + m * a;
    assert s * (h * p + h * a + m * p + m * a) == s * (h * p) + s * (h * a) + s * (m * p) + s * (m * a);
    assert (s - h) * (a * s - m * p) == s * (a * s) - s * (m * p) - h * (a * s) + h * (m * p);
    assert (a * s + h * p) * (s + m) == (a * s) * s + (a * s) * m + (h * p) * s + (h * p) * m;
    assert s * (h * a) == h * (a * s);
    assert s * (m * a) == (a * s) * m;
    assert h * (m * p) == (h * p) * m;
  }

  lemma ScaleSwap(x: int, y: int, z: int)
    ensures x * y * z == x * z * y
  {
  }

  lemma LossCancels(u: int, v': int, s: int, t: int, p: int, x: int)
    requires s > 0 && t > 0
    requires u * s * t <= s * x + t * p
    requires x * s <= (v' * t + t - 1) * s
    ensures (u - v' - 1) * s < p
  {
    assert (v' * t + t - 1) * s == (v' + 1) * s * t - s;
    assert s * x == x * s;
    assert u * s * t <= (v' + 1) * s * t - s + t * p;
    assert ((u - v' - 1) * s) * t == u * s * t - (v' + 1) * s * t;
    if p <= (u - v' - 1) * s {
      MulMono(p, (u - v' - 1) * s, t);
    }
  }

  /** The vault's cached lender shares are the ones its position records. */
  predicate InStep(w: World) {
    w.vault.lenderShares == RecordedShares(w.ledger, w.lenderKey)
  }

  /** Accrual at `now` adds nothing to the borrows; the clock and the index may move. */
  predicate NoInterest(m: MM.Market, now: u64) {
    MM.AccrueMarket(m, now).totalBorrows == m.totalBorrows
  }

  lemma HoldingWithinTotal(w: World)
    requires InStep(w) && MS.Balanced(w.ledger)
    ensures w.vault.lenderShares <= w.ledger.market.totalLenderShares
  {
    if w.lenderKey in w.ledger.lenders {
      SumBounds(w.ledger.lenders, MS.SharesOf, w.lenderKey);
    }
  }

  /** NAV lost by a move, from `a` to `b`. */
  function NavLoss(a: World, b: World): int {
    Nav(a) - Nav(b)
  }

  /** Never a gain, and less than one lender share's worth plus one unit lost. */
  predicate KeepsNav(w: World, w': World) {
    var m := w.ledger.market;
    && 0 <= NavLoss(w, w')
    && (NavLoss(w, w') > 0 ==>
          m.totalLenderShares > 0 && (NavLoss(w, w') - 1) * m.totalLenderShares < MM.PoolValue(m))
  }

  /** The market the CPI leaves behind, in terms of the one it found. */
  lemma LendEffect(w: World, now: u64, amount: u64)
    requires Lend(w, now, amount).Ok? && NoInterest(w.ledger.market, now) && InStep(w)
    ensures var m, w' := w.ledger.market, Lend(w, now, amount).value;
            var minted := MM.SharesForDeposit(m, amount);
            && amount <= w.idle && w'.idle == w.idle - amount
            && MM.PoolValue(w'.ledger.market) == MM.PoolValue(m) + amount
            && w'.ledger.market.totalLenderShares == m.totalLenderShares + minted
            && w'.vault == w.vault.(lenderShares := w.vault.lenderShares + minted)
            && InStep(w')
  {
    hide MM.AccrueMarket, MM.SharesForDeposit;
    MS.AccrualFrame(w.ledger.market, now);
    SameConversions(w.ledger.market, MM.AccrueMarket(w.ledger.market, now), amount);
  }

  lemma RedeemEffect(w: World, now: u64, amount: u64)
    requires Redeem(w, now, amount).Ok? && NoInterest(w.ledger.market, now) && InStep(w)
    ensures var m, w' := w.ledger.market, Redeem(w, now, amount).value;
            var burned := MM.SharesForWithdraw(m, amount);
            && burned <= w.vault.lenderShares && burned <= m.totalLenderShares
            && amount <= m.totalCash && w'.idle == w.idle + amount
            && MM.PoolValue(w'.ledger.market) == MM.PoolValue(m) - amount
            && w'.ledger.market.totalLenderShares == m.totalLenderShares - burned
            && w'.vault == w.vault.(lenderShares := w.vault.lenderShares - burned)
            && InStep(w')
  {
    hide MM.AccrueMarket, MM.SharesForWithdraw;
    MS.AccrualFrame(w.ledger.market, now);
    SameConversions(w.ledger.market, MM.AccrueMarket(w.ledger.market, now), amount);
  }

  /** Conversions read only the pool value and the share total. */
  lemma SameConversions(a: MM.Market, b: MM.Market, amount: u64)
    requires MM.PoolValue(a) == MM.PoolValue(b) && a.totalLenderShares == b.totalLenderShares
    ensures MM.SharesForDeposit(a, amount) == MM.SharesForDeposit(b, amount)
    ensures MM.SharesForWithdraw(a, amount) == MM.SharesForWithdraw(b, amount)
  {
  }

  /** What both directions need of the market: totals that are sums, and a pool that covers its shares. */
  ghost predicate SoundMarket(w: World) {
    InStep(w) && MS.Balanced(w.ledger) && MS.Backed(w.ledger.market)
  }

  /** The vault's part of a pool, before the cast to 64 bits. */
  function PartOf(h: nat, p: nat, s: nat): nat {
    if s == 0 then 0 else MulDiv(h, p, s)
  }

  /** What the vault's lender shares are worth, before the cast to 64 bits. */
  function Worth(w: World): nat {
    PartOf(w.vault.lenderShares, MM.PoolValue(w.ledger.market), w.ledger.market.totalLenderShares)
  }

  function WorthAfterDeploy(w: World, amount: u64): nat {
    var m := w.ledger.market;
    var minted := MM.SharesForDeposit(m, amount);
    PartOf(w.vault.lenderShares + minted, MM.PoolValue(m) + amount, m.totalLenderShares + minted)
  }

  function WorthAfterUndeploy(w: World, amount: u64): nat {
    var m := w.ledger.market;
    var burned := MM.SharesForWithdraw(m, amount);
    PartOf(SaturatingSub(w.vault.lenderShares, burned), SaturatingSub(MM.PoolValue(m), amount),
           SaturatingSub(m.totalLenderShares, burned))
  }

  lemma NavIsCast(w: World)
    ensures Nav(w) == w.idle + Trunc64(Worth(w))
  {
  }

  /** Moving `a` into the pool (out, if negative), NAV keeps its rounding if both values cast alike. */
  lemma SameSpanKeeps(v: nat, v': nat, a: int, s: nat, p: nat)
    requires v' <= v + a && (v + a - v' - 1) * s < p && v / U64_SPAN == v' / U64_SPAN
    ensures var loss := Trunc64(v) - Trunc64(v') + a;
            0 <= loss && (loss > 0 ==> (loss - 1) * s < p)
  {
    assert Trunc64(v) - Trunc64(v') + a == v - v' + a;
  }

  /** With two or more shares a change of span shows: it is more than any share is worth. */
  lemma OtherSpanShows(v: nat, v': nat, a: int, s: nat, p: nat)
    requires v' <= v + a && (v + a - v' - 1) * s < p && v / U64_SPAN != v' / U64_SPAN
    requires 2 <= s && p <= 2 * U64_MAX && v <= p
    ensures var loss := Trunc64(v) - Trunc64(v') + a;
            !(0 <= loss && (loss > 0 ==> (loss - 1) * s < p))
  {
    var d, loss := v + a - v', Trunc64(v) - Trunc64(v') + a;
    var k := v' / U64_SPAN - v / U64_SPAN;
    assert loss == d + k * U64_SPAN;
    if k >= 1 {
      MulMono(U64_MAX, loss - 1, s);
      MulMono(2, s, U64_MAX);
    } else if d > U64_MAX {
      MulMono(U64_MAX, d - 1, s);
      MulMono(2, s, U64_MAX);
    }
  }

  /** Deploying into a pool with shares, before any cast. */
  lemma DeployMovesWorth(w: World, now: u64, amount: u64)
    requires SoundMarket(w) && NoInterest(w.ledger.market, now)
    requires w.ledger.market.totalLenderShares > 0 && Lend(w, now, amount).Ok?
    ensures var m, w' := w.ledger.market, Lend(w, now, amount).value;
            var v, v' := Worth(w), WorthAfterDeploy(w, amount);
            && v <= MM.PoolValue(m) && v' <= v + amount
            && (v + amount - v' - 1) * m.totalLenderShares < MM.PoolValue(m)
            && NavLoss(w, w') == Trunc64(v) - Trunc64(v') + amount
  {
    hide Lend, MM.AccrueMarket, MM.SharesForDeposit;
    var m, w' := w.ledger.market, Lend(w, now, amount).value;
    var minted := MM.SharesForDeposit(m, amount);
    HoldingWithinTotal(w);
    LendEffect(w, now, amount);
    MS.MintRoundsDown(m, amount);
    var p, s, h := MM.PoolValue(m), m.totalLenderShares, w.vault.lenderShares;
    assert (minted + 1) * p == minted * p + p;
    RebalanceBounds(p, s, h, amount, minted);
    PartAtMost(h, p, s);
    NavIsCast(w);
    NavIsCast(w');
  }

  lemma PartAtMost(h: nat, p: nat, s: nat)
    requires h <= s
    ensures PartOf(h, p, s) <= p
  {
    if s > 0 {
      MulMono(h, s, p);
      FloorAtMost(h * p, s, p);
    }
  }

  /** Deploying into a pool with shares never raises NAV and loses at most rounding, if the holding stays below 2^64. */
  lemma DeployKeepsNav(w: World, now: u64, amount: u64)
    requires SoundMarket(w) && NoInterest(w.ledger.market, now)
    requires w.ledger.market.totalLenderShares > 0
    requires Worth(w) + amount < U64_SPAN
    requires Lend(w, now, amount).Ok?
    ensures KeepsNav(w, Lend(w, now, amount).value)
  {
    hide Lend, MM.AccrueMarket, Worth, WorthAfterDeploy, Nav;
    DeployMovesWorth(w, now, amount);
    SameSpanKeeps(Worth(w), WorthAfterDeploy(w, amount), amount,
                  w.ledger.market.totalLenderShares, MM.PoolValue(w.ledger.market));
  }

  /** With no shares outstanding the mint is 1:1 and captures whatever the pool held. */
  lemma DeployIntoShareless(w: World, now: u64, amount: u64)
    requires SoundMarket(w) && NoInterest(w.ledger.market, now)
    requires w.ledger.market.totalLenderShares == 0
    requires Lend(w, now, amount).Ok?
    ensures var p := MM.PoolValue(w.ledger.market);
            && NavLoss(w, Lend(w, now, amount).value) == amount - Trunc64(p + amount)
            && (p + amount < U64_SPAN ==> NavLoss(w, Lend(w, now, amount).value) == 0 - p)
  {
    hide MM.AccrueMarket;
    assert amount > 0;
    var m, w' := w.ledger.market, Lend(w, now, amount).value;
    HoldingWithinTotal(w);
    LendEffect(w, now, amount);
    hide Lend;
    NavIsCast(w);
    NavIsCast(w');
    ExactQuotient(amount, MM.PoolValue(w'.ledger.market));
  }

  lemma ExactQuotient(d: nat, q: nat)
    requires d > 0
    ensures MulDiv(d, q, d) == q
  {
    FloorIsGreatest(d * q, d, q);
    assert d * q < (q + 1) * d;
    FloorAtMost(d * q, d, q);
  }

  /**
   Exactly when deploying keeps NAV up to rounding. Without shares the pool must
   be empty, up to the cast. With shares the holding must not cross a multiple
   of 2^64, unless the one share there is already worth more than that.
   */
  predicate DeployIsNeutral(w: World, amount: u64) {
    var s, p := w.ledger.market.totalLenderShares, MM.PoolValue(w.ledger.market);
    if s == 0 then p % U64_SPAN == 0
    else Worth(w) / U64_SPAN == WorthAfterDeploy(w, amount) / U64_SPAN || (s == 1 && p >= U64_SPAN)
  }

  lemma LoneShareDeploy(w: World, amount: u64)
    requires w.ledger.market.totalLenderShares == 1 && w.vault.lenderShares <= 1
    ensures w.vault.lenderShares == 0 ==> Worth(w) == 0
    ensures w.vault.lenderShares == 1 ==>
              && Worth(w) == MM.PoolValue(w.ledger.market)
              && WorthAfterDeploy(w, amount) == MM.PoolValue(w.ledger.market) + amount
  {
    hide MM.SharesForDeposit;
    var p: nat, minted: nat := MM.PoolValue(w.ledger.market), MM.SharesForDeposit(w.ledger.market, amount);
    ExactQuotient(1, p);
    ExactQuotient(1 + minted, p + amount);
  }

  lemma DeployKeepsNavIff(w: World, now: u64, amount: u64)
    requires SoundMarket(w) && NoInterest(w.ledger.market, now)
    requires Lend(w, now, amount).Ok?
    ensures KeepsNav(w, Lend(w, now, amount).value) <==> DeployIsNeutral(w, amount)
  {
    hide Lend, MM.AccrueMarket, Worth, WorthAfterDeploy, Nav;
    var s, p := w.ledger.market.totalLenderShares, MM.PoolValue(w.ledger.market);
    if s == 0 {
      DeployIntoShareless(w, now, amount);
      CastOfSum(p, amount);
    } else {
      var v, v' := Worth(w), WorthAfterDeploy(w, amount);
      DeployMovesWorth(w, now, amount);
      if v / U64_SPAN == v' / U64_SPAN {
        SameSpanKeeps(v, v', amount, s, p);
      } else if s >= 2 {
        OtherSpanShows(v, v', amount, s, p);
      } else {
        HoldingWithinTotal(w);
        LoneShareDeploy(w, amount);
        assert v' / U64_SPAN == v / U64_SPAN + 1;
        assert Trunc64(v) - Trunc64(v') + amount == U64_SPAN;
      }
    }
  }

  lemma CastOfSum(p: nat, a: u64)
    ensures Trunc64(p + a) == a <==> p % U64_SPAN == 0
  {
  }

  /** Redeeming from a pool with shares, before any cast. */
  lemma UndeployMovesWorth(w: World, now: u64, amount: u64)
    requires SoundMarket(w) && NoInterest(w.ledger.market, now)
    requires w.ledger.market.totalLenderShares > 0 && Redeem(w, now, amount).Ok?
    ensures var m, w' := w.ledger.market, Redeem(w, now, amount).value;
            var v, v' := Worth(w), WorthAfterUndeploy(w, amount);
            && v <= MM.PoolValue(m) && v' + amount <= v
            && (v - amount - v' - 1) * m.totalLenderShares < MM.PoolValue(m)
            && v' == Worth(w')
            && NavLoss(w, w') == Trunc64(v) - Trunc64(v') - amount
  {
    hide Redeem, MM.AccrueMarket, MM.SharesForWithdraw, MulDiv, CeilDiv;
    var m, w' := w.ledger.market, Redeem(w, now, amount).value;
    var burned := MM.SharesForWithdraw(m, amount);
    HoldingWithinTotal(w);
    RedeemEffect(w, now, amount);
    MS.BurnRoundsUp(m, amount);
    var p, s, h := MM.PoolValue(m), m.totalLenderShares, w.vault.lenderShares;
    if burned < s {
      PartRedeemed(p, s, h, amount, burned);
    } else {
      WholePoolRedeemed(p, s, amount);
    }
    PartAtMost(h, p, s);
    NavIsCast(w);
    NavIsCast(w');
  }

  /** Redeeming from a pool with shares never raises NAV and loses at most rounding, if the holding is below 2^64. */
  lemma UndeployKeepsNav(w: World, now: u64, amount: u64)
    requires SoundMarket(w) && NoInterest(w.ledger.market, now)
    requires w.ledger.market.totalLenderShares > 0
    requires Worth(w) < U64_SPAN
    requires Redeem(w, now, amount).Ok?
    ensures KeepsNav(w, Redeem(w, now, amount).value)
  {
    hide Redeem, MM.AccrueMarket, Worth, WorthAfterUndeploy, Nav;
    UndeployMovesWorth(w, now, amount);
    SameSpanKeeps(Worth(w), WorthAfterUndeploy(w, amount), 0 - amount,
                  w.ledger.market.totalLenderShares, MM.PoolValue(w.ledger.market));
  }

  lemma PartRedeemed(p: nat, s: nat, h: nat, amount: nat, burned: nat)
    requires burned < s && burned <= h <= s && amount <= p
    requires amount * s <= burned * p < amount * s + p
    ensures var v, v' := MulDiv(h, p, s), MulDiv(h - burned, p - amount, s - burned);
            v' + amount <= v && (v - amount - v' - 1) * s < p
  {
    SignedSlack(p, s, amount, burned);
    RebalanceBounds(p, s, h, 0 - amount, 0 - burned);
  }

  lemma SignedSlack(p: int, s: int, a: int, b: int)
    ensures (0 - a) * s - (0 - b) * p == b * p - a * s
  {
  }

  lemma WholePoolRedeemed(p: nat, s: nat, a: nat)
    requires 0 < s && a <= p && s * p < a * s + p
    ensures MulDiv(s, p, s) == p && (p - a - 1) * s < p
  {
    ExactQuotient(s, p);
    assert (p - a - 1) * s == s * p - a * s - s;
  }

  /** With no shares outstanding nothing is burned, so a redemption is pure gain. */
  lemma UndeployFromShareless(w: World, now: u64, amount: u64)
    requires SoundMarket(w) && NoInterest(w.ledger.market, now)
    requires w.ledger.market.totalLenderShares == 0
    requires Redeem(w, now, amount).Ok?
    ensures amount > 0 && NavLoss(w, Redeem(w, now, amount).value) == 0 - amount
  {
    assert amount > 0;
    hide Redeem, MM.AccrueMarket, MM.SharesForWithdraw;
    HoldingWithinTotal(w);
    RedeemEffect(w, now, amount);
  }

  /** Exactly when redeeming keeps NAV up to rounding: as for deploying, but never without shares. */
  predicate UndeployIsNeutral(w: World, amount: u64) {
    var s, p := w.ledger.market.totalLenderShares, MM.PoolValue(w.ledger.market);
    && s > 0
    && (Worth(w) / U64_SPAN == WorthAfterUndeploy(w, amount) / U64_SPAN || (s == 1 && p - amount >= U64_SPAN))
  }

  /** Redeeming anything from a pool of one share takes the share. */
  lemma LoneShareUndeploy(w: World, now: u64, amount: u64)
    requires SoundMarket(w) && NoInterest(w.ledger.market, now)
    requires w.ledger.market.totalLenderShares == 1 && Redeem(w, now, amount).Ok?
    ensures amount > 0 && Worth(w) == MM.PoolValue(w.ledger.market) && WorthAfterUndeploy(w, amount) == 0
  {
    assert amount > 0;
    hide Redeem, MM.AccrueMarket, MM.SharesForWithdraw;
    var m := w.ledger.market;
    HoldingWithinTotal(w);
    RedeemEffect(w, now, amount);
    MS.BurnRoundsUp(m, amount);
    ExactQuotient(1, MM.PoolValue(m));
  }

  lemma UndeployKeepsNavIff(w: World, now: u64, amount: u64)
    requires SoundMarket(w) && NoInterest(w.ledger.market, now)
    requires Redeem(w, now, amount).Ok?
    ensures KeepsNav(w, Redeem(w, now, amount).value) <==> UndeployIsNeutral(w, amount)
  {
    hide Redeem, MM.AccrueMarket, Worth, WorthAfterUndeploy, Nav;
    var s, p := w.ledger.market.totalLenderShares, MM.PoolValue(w.ledger.market);
    if s == 0 {
      UndeployFromShareless(w, now, amount);
    } else {
      var v, v' := Worth(w), WorthAfterUndeploy(w, amount);
      UndeployMovesWorth(w, now, amount);
      if v / U64_SPAN == v' / U64_SPAN {
        SameSpanKeeps(v, v', 0 - amount, s, p);
      } else if s >= 2 {
        OtherSpanShows(v, v', 0 - amount, s, p);
      } else {
        LoneShareUndeploy(w, now, amount);
        assert v / U64_SPAN == 1;
      }
    }
  }

  // ---- share price ----

  /** Cached assets per vault share in `a` is at most that in `b`. */
  ghost predicate PriceLe(a: VaultState, b: VaultState) {
    FractionLe(a.totalAssets, a.totalShares, b.totalAssets, b.totalShares)
  }

  /** Issued shares are worth at most the deposit, at the basis they were priced off. */
  lemma IssueRoundsDown(v: VaultState, nav: u64, amount: u64)
    requires v.totalShares > 0
    ensures IssueFor(v, nav, amount).Ok?
    ensures var i := IssueFor(v, nav, amount).value;
            i.userShares == i.supplyDelta && i.supplyDelta * nav <= amount * v.totalShares
  {
    var d := Max(nav, 1);
    var exact := MulDiv(amount, v.totalShares, d);
    FloorBounds(amount * v.totalShares, d);
    MulMono(Trunc64(exact), exact, d);
    MulMono(nav, d, Trunc64(exact));
  }

  /** A payout is worth at most the shares given up, at the basis it was priced off. */
  lemma PayoutRoundsDown(v: VaultState, nav: u64, shares: u64)
    requires v.totalShares > 0
    ensures AssetsOut(v, nav, shares) * v.totalShares <= shares * nav
  {
    var exact := MulDiv(shares, nav, v.totalShares);
    FloorBounds(shares * nav, v.totalShares);
    MulMono(Trunc64(exact), exact, v.totalShares);
  }

  /** Fee shares never cost holders more than the profit. */
  lemma FeeDilutes(v: VaultState, nav: u64)
    requires v.totalAssets <= nav && v.performanceFeeBps <= BPS
    ensures FractionLe(v.totalAssets, v.totalShares, nav, v.totalShares + FeeShares(v, nav))
  {
    var profit := nav - v.totalAssets;
    var fee := MulDiv(profit, v.performanceFeeBps, BPS);
    MulMono(v.performanceFeeBps, BPS, profit);
    FloorAtMost(profit * v.performanceFeeBps, BPS, profit);
    var minted := FeeShares(v, nav);
    if minted > 0 {
      var exact := MulDiv(fee, v.totalShares, nav - fee);
      FloorBounds(fee * v.totalShares, nav - fee);
      MulMono(minted, exact, nav - fee);
      FeeCost(nav, fee, v.totalShares, minted);
      MulMono(v.totalAssets, nav - fee, v.totalShares + minted);
    } else {
      MulMono(v.totalAssets, nav, v.totalShares);
    }
  }

  lemma FeeCost(nav: nat, fee: nat, s: nat, minted: nat)
    requires fee <= nav && minted * (nav - fee) <= fee * s
    ensures (nav - fee) * (s + minted) <= nav * s
  {
    assert (nav - fee) * (s + minted) == nav * s - fee * s + minted * (nav - fee);
  }

  datatype Op =
    | Deposit(supplied: Supplied, wallet: u64, held: u64, amount: u64, minShares: u64)
    | Withdraw(supplied: Supplied, now: u64, wallet: u64, held: u64, shares: u64, minAssets: u64)
    | Report(hasMarket: bool, managerShares: u64)
    | Deploy(now: u64, amount: u64)
    | Undeploy(now: u64, amount: u64)
    | Market(call: MM.Call)

  /** One signed instruction, by any user, the manager, or another market user. */
  function Apply(w: World, op: Op): Result<World> {
    match op
    case Deposit(supplied, wallet, held, amount, minShares) =>
      var served :- Vault.Deposit(w, supplied, true, wallet, held, amount, minShares);
      Ok(served.world)
    case Withdraw(supplied, now, wallet, held, shares, minAssets) =>
      var served :- Vault.Withdraw(w, supplied, true, now, wallet, held, shares, minAssets);
      Ok(served.world)
    case Report(hasMarket, managerShares) =>
      Vault.Report(w, w.vault.manager, true, hasMarket, managerShares)
    case Deploy(now, amount) => Vault.Deploy(w, w.vault.manager, true, now, amount)
    case Undeploy(now, amount) => Vault.Undeploy(w, w.vault.manager, true, now, amount)
    case Market(call) =>
      var l :- MM.Apply(w.ledger, call);
      Ok(w.(ledger := l))
  }

  function Step(w: World, op: Op): World {
    var r := Apply(w, op);
    if r.Ok? then r.value else w
  }

  function Run(w: World, ops: seq<Op>): World
    decreases |ops|
  {
    if ops == [] then w else Run(Step(w, ops[0]), ops[1..])
  }

  /** The value `op` prices or books shares at. */
  function PricedAt(w: World, op: Op): nat {
    match op
    case Deposit(supplied, _, _, _, _) => Basis(w, supplied)
    case Withdraw(supplied, _, _, _, _, _) => Basis(w, supplied)
    case Report(_, _) => if w.vault.lenderShares > 0 then Nav(w) else w.idle
    case _ => w.vault.totalAssets
  }

  lemma DepositPrice(w: World, op: Op)
    requires op.Deposit? && Apply(w, op).Ok?
    requires w.vault.totalShares > 0 && w.vault.totalAssets <= PricedAt(w, op)
    ensures PriceLe(w.vault, Apply(w, op).value.vault)
  {
    var nav: u64 := Basis(w, op.supplied);
    IssueRoundsDown(w.vault, nav, op.amount);
    var minted := IssueFor(w.vault, nav, op.amount).value.supplyDelta;
    hide IssueFor, Basis;
    MulMono(w.vault.totalAssets, nav, minted);
    MS.MintKeepsPrice(w.vault.totalAssets, w.vault.totalShares, op.amount, minted);
  }

  lemma WithdrawPrice(w: World, op: Op)
    requires op.Withdraw? && Apply(w, op).Ok?
    requires w.vault.totalShares > 0 && w.vault.totalAssets <= PricedAt(w, op)
    ensures PriceLe(w.vault, Apply(w, op).value.vault)
  {
    var nav: u64 := Basis(w, op.supplied);
    var out := AssetsOut(w.vault, nav, op.shares);
    PayoutRoundsDown(w.vault, nav, op.shares);
    hide AssetsOut, Basis, Cover;
    var s := w.vault.totalShares;
    MS.BurnKeepsPrice(nav, s, out, op.shares);
    MulMono(w.vault.totalAssets, nav, s - op.shares);
  }

  lemma ReportPrice(w: World, op: Op)
    requires op.Report? && Apply(w, op).Ok? && w.vault.performanceFeeBps <= BPS
    requires w.vault.totalAssets <= PricedAt(w, op)
    ensures PriceLe(w.vault, Apply(w, op).value.vault)
  {
    FeeDilutes(w.vault, PricedAt(w, op));
    hide FeeShares, DeployedValue;
  }

  /** Lending, redeeming and other market traffic leave the cached books alone. */
  lemma QuietOps(w: World, op: Op)
    requires op.Deploy? || op.Undeploy? || op.Market?
    ensures Step(w, op).vault.totalAssets == w.vault.totalAssets
    ensures Step(w, op).vault.totalShares == w.vault.totalShares
  {
    hide MM.Apply;
  }

  lemma FeeNeverChanges(w: World, op: Op)
    ensures Step(w, op).vault.performanceFeeBps == w.vault.performanceFeeBps
  {
    hide MM.Apply, IssueFor, AssetsOut, FeeShares;
  }

  /** No instruction lowers the share price unless it prices at a loss not yet booked. */
  lemma StepKeepsPrice(w: World, op: Op)
    requires w.vault.totalShares > 0 && w.vault.performanceFeeBps <= BPS
    requires w.vault.totalAssets <= PricedAt(w, op)
    ensures PriceLe(w.vault, Step(w, op).vault)
  {
    hide MM.Apply, IssueFor, AssetsOut, FeeShares, Basis;
    if Apply(w, op).Ok? {
      match op
      case Deposit(_, _, _, _, _) => DepositPrice(w, op);
      case Withdraw(_, _, _, _, _, _) => WithdrawPrice(w, op);
      case Report(_, _) => ReportPrice(w, op);
      case _ => QuietOps(w, op);
    }
  }

  /** Shares stay outstanding and nothing is priced below the cached books. */
  ghost predicate NoLossRun(w: World, ops: seq<Op>)
    decreases |ops|
  {
    ops != [] ==>
      && w.vault.totalShares > 0
      && w.vault.totalAssets <= PricedAt(w, ops[0])
      && NoLossRun(Step(w, ops[0]), ops[1..])
  }

  /**
   Between any two reports, and across every profitable one, the share price
   never falls: fee dilution, deposits and withdrawals included.
   */
  lemma {:induction false} VaultPriceNeverFalls(w: World, ops: seq<Op>)
    requires w.vault.performanceFeeBps <= BPS && NoLossRun(w, ops)
    ensures PriceLe(w.vault, Run(w, ops).vault)
    decreases |ops|
  {
    hide Apply;
    if ops != [] {
      var next, end := Step(w, ops[0]), Run(w, ops);
      StepKeepsPrice(w, ops[0]);
      FeeNeverChanges(w, ops[0]);
      VaultPriceNeverFalls(next, ops[1..]);
      if |ops| > 1 {
        FractionLeTrans(w.vault.totalAssets, w.vault.totalShares,
                        next.vault.totalAssets, next.vault.totalShares,
                        end.vault.totalAssets, end.vault.totalShares);
      }
    }
  }

  // ---- no extraction ----

  /** One user's dealings: shares held, and assets put in and taken out so far. */
  datatype Account = Account(world: World, held: u64, put: nat, taken: nat)

  datatype Trade =
    | Put(wallet: u64, amount: u64, minShares: u64)
    | Take(now: u64, wallet: u64, shares: u64, minAssets: u64)

  function Deal(a: Account, supplied: Supplied, t: Trade): Account {
    match t
    case Put(wallet, amount, minShares) =>
      var r := Vault.Deposit(a.world, supplied, true, wallet, a.held, amount, minShares);
      if r.Ok? then Account(r.value.world, r.value.held, a.put + r.value.assets, a.taken) else a
    case Take(now, wallet, shares, minAssets) =>
      var r := Vault.Withdraw(a.world, supplied, true, now, wallet, a.held, shares, minAssets);
      if r.Ok? then Account(r.value.world, r.value.held, a.put, a.taken + r.value.assets) else a
  }

  function Deals(a: Account, supplied: Supplied, trades: seq<Trade>): Account
    decreases |trades|
  {
    if trades == [] then a else Deals(Deal(a, supplied, trades[0]), supplied, trades[1..])
  }

  /** A redemption that may call on the market does not need to. */
  predicate Covered(w: World, supplied: Supplied, t: Trade) {
    t.Take? && supplied.WithRedeem? && w.vault.totalShares > 0 && Basis(w, supplied) <= U64_MAX
    ==> AssetsOut(w.vault, Basis(w, supplied), t.shares) <= w.idle
  }

  ghost predicate AllCovered(a: Account, supplied: Supplied, trades: seq<Trade>)
    decreases |trades|
  {
    trades != [] ==>
      && Covered(a.world, supplied, trades[0])
      && AllCovered(Deal(a, supplied, trades[0]), supplied, trades[1..])
  }

  /** Others' shares and the assets they came with, against which a user trades. */
  datatype Baseline = Baseline(shares: nat, assets: nat)

  /**
   The books of a run against a baseline: the user's shares are the rest of the
   supply, the basis moved by what went in and out, and the price never fell.
   */
  ghost predicate Books(a: Account, supplied: Supplied, b: Baseline) {
    var s, n := a.world.vault.totalShares, Basis(a.world, supplied);
    && b.shares > 0
    && s == b.shares + a.held
    && n + a.taken == b.assets + a.put
    && FractionLe(b.assets, b.shares, n, s)
  }

  lemma PutKeepsBooks(a: Account, supplied: Supplied, t: Trade, b: Baseline)
    requires t.Put? && Books(a, supplied, b)
    ensures Books(Deal(a, supplied, t), supplied, b)
  {
    var a' := Deal(a, supplied, t);
    var v := a.world.vault;
    if a' != a {
      var nav: u64 := Basis(a.world, supplied);
      IssueRoundsDown(v, nav, t.amount);
      var minted := IssueFor(v, nav, t.amount).value.supplyDelta;
      hide IssueFor, DeployedValue;
      MS.MintKeepsPrice(nav, v.totalShares, t.amount, minted);
      FractionLeTrans(b.assets, b.shares, nav, v.totalShares, nav + t.amount, v.totalShares + minted);
    }
  }

  lemma TakeKeepsBooks(a: Account, supplied: Supplied, t: Trade, b: Baseline)
    requires t.Take? && Books(a, supplied, b) && Covered(a.world, supplied, t)
    ensures Books(Deal(a, supplied, t), supplied, b)
  {
    var a' := Deal(a, supplied, t);
    var v := a.world.vault;
    if a' != a {
      var nav: u64 := Basis(a.world, supplied);
      var out := AssetsOut(v, nav, t.shares);
      PayoutRoundsDown(v, nav, t.shares);
      hide AssetsOut, DeployedValue, Redeem;
      MS.BurnKeepsPrice(nav, v.totalShares, out, t.shares);
      FractionLeTrans(b.assets, b.shares, nav, v.totalShares, nav - out, v.totalShares - t.shares);
    }
  }

  lemma {:induction false} DealsKeepBooks(a: Account, supplied: Supplied, trades: seq<Trade>, b: Baseline)
    requires Books(a, supplied, b) && AllCovered(a, supplied, trades)
    ensures Books(Deals(a, supplied, trades), supplied, b)
    decreases |trades|
  {
    hide Books, Deal, Covered;
    if trades != [] {
      if trades[0].Put? {
        PutKeepsBooks(a, supplied, trades[0], b);
      } else {
        TakeKeepsBooks(a, supplied, trades[0], b);
      }
      DealsKeepBooks(Deal(a, supplied, trades[0]), supplied, trades[1..], b);
    }
  }

  // ---- no extraction, the market called on or not ----

  /** A redemption that must call on the market for what is not idle. */
  predicate CallsMarket(w: World, supplied: Supplied, t: Trade) {
    && t.Take? && supplied.WithRedeem? && w.vault.totalShares > 0 && Basis(w, supplied) <= U64_MAX
    && w.idle < AssetsOut(w.vault, Basis(w, supplied), t.shares)
  }

  /** No interest falls due in the calls on the market. */
  ghost predicate QuietCalls(a: Account, supplied: Supplied, trades: seq<Trade>)
    decreases |trades|
  {
    trades != [] ==>
      && (CallsMarket(a.world, supplied, trades[0]) ==> NoInterest(a.world.ledger.market, trades[0].now))
      && QuietCalls(Deal(a, supplied, trades[0]), supplied, trades[1..])
  }

  /** The user's shares are not all of them, and are worth at most what the user has left in. */
  ghost predicate FairStake(a: Account, supplied: Supplied) {
    var s, n := a.world.vault.totalShares, Basis(a.world, supplied);
    a.held < s && a.held * n <= (a.put - a.taken) * s
  }

  /** What a call on the market needs and leaves behind. */
  ghost predicate Callable(w: World, supplied: Supplied) {
    supplied.WithRedeem? ==> SoundMarket(w) && Worth(w) < U64_SPAN
  }

  /**
   Moving `a` in for `k` shares (out, if negative), with the rounding against the
   mover, keeps a stake of `h` in `n` over `s` within `d`.
   */
  lemma StakeMoves(h: nat, n: nat, s: nat, d: int, a: int, k: int)
    requires h <= s && 0 < s && 0 < s + k && h * n <= d * s && k * n <= a * s
    ensures (h + k) * (n + a) <= (d + a) * (s + k)
  {
    var f, g := a * s - k * n, d * s - h * n;
    StakeIdentity(h, n, s, d, a, k);
    MulMono(0, g, s + k);
    MulMono(0, f, s - h);
    CancelLe((h + k) * (n + a), (d + a) * (s + k), s);
  }

  lemma StakeIdentity(h: int, n: int, s: int, d: int, a: int, k: int)
    ensures ((d + a) * (s + k)) * s - ((h + k) * (n + a)) * s
            == (d * s - h * n) * (s + k) + (a * s - k * n) * (s - h)
  {
    assert ((d + a) * (s + k)) * s == d * s * s + d * k * s + a * s * s + a * k * s;
    assert ((h + k) * (n + a)) * s == h * n * s + h * a * s + k * n * s + k * a * s;
    assert (d * s - h * n) * (s + k) == d * s * s + d * s * k - h * n * s - h * n * k;
    assert (a * s - k * n) * (s - h) == a * s * s - a * s * h - k * n * s + k * n * h;
  }

  lemma PutKeepsStake(a: Account, supplied: Supplied, t: Trade)
    requires t.Put? && FairStake(a, supplied)
    ensures FairStake(Deal(a, supplied, t), supplied)
  {
    var a' := Deal(a, supplied, t);
    var v := a.world.vault;
    if a' != a {
      var nav: u64 := Basis(a.world, supplied);
      IssueRoundsDown(v, nav, t.amount);
      var minted := IssueFor(v, nav, t.amount).value.supplyDelta;
      hide IssueFor, DeployedValue;
      StakeMoves(a.held, nav, v.totalShares, a.put - a.taken, t.amount, minted);
    }
  }

  /** A withdrawal's world: the covered one, less what is paid, with the books reconciled. */
  lemma WithdrawParts(w: World, supplied: Supplied, now: u64, wallet: u64, held: u64, shares: u64, minAssets: u64)
    requires Vault.Withdraw(w, supplied, true, now, wallet, held, shares, minAssets).Ok?
    ensures w.vault.totalShares > 0 && Basis(w, supplied) <= U64_MAX
    ensures var nav, served := Basis(w, supplied), Vault.Withdraw(w, supplied, true, now, wallet, held, shares, minAssets).value;
            var out := AssetsOut(w.vault, nav, shares);
            && Cover(w, supplied, now, out).Ok?
            && var r, w' := Cover(w, supplied, now, out).value, served.world;
               && out <= r.idle && w'.idle == r.idle - out
               && w'.ledger == r.ledger && w'.lenderKey == r.lenderKey
               && w'.vault.lenderShares == r.vault.lenderShares
               && w'.vault.totalAssets == nav - out
               && shares <= held && w'.vault.totalShares == w.vault.totalShares - shares
               && served.held == held - shares && served.assets == out
  {
    hide AssetsOut, Basis, Cover;
  }

  /** Live NAV reads the ledger, the lender shares and the idle balance. */
  lemma NavFrame(w: World, w': World)
    requires w'.ledger == w.ledger && w'.vault.lenderShares == w.vault.lenderShares
    ensures Nav(w') - w'.idle == Nav(w) - w.idle
  {
  }

  /** Covering a withdrawal never raises live NAV. */
  lemma CoverKeepsNav(w: World, supplied: Supplied, now: u64, needed: u64)
    requires Callable(w, supplied) && Cover(w, supplied, now, needed).Ok? && w.vault.lenderShares > 0
    requires supplied.WithRedeem? && w.idle < needed ==> NoInterest(w.ledger.market, now)
    ensures Nav(Cover(w, supplied, now, needed).value) <= Nav(w)
  {
    hide Redeem, SoundMarket, Worth, Nav;
    if supplied.WithRedeem? && w.idle < needed {
      UndeployKeepsNavHeld(w, now, needed - w.idle);
    }
  }

  lemma CoverOfNothing(w: World, supplied: Supplied, now: u64, needed: u64)
    requires Callable(w, supplied) && Cover(w, supplied, now, needed).Ok? && w.vault.lenderShares == 0
    requires supplied.WithRedeem? && w.idle < needed ==> NoInterest(w.ledger.market, now)
    ensures Cover(w, supplied, now, needed).value.vault.lenderShares == 0
  {
    hide Redeem, Worth;
    if supplied.WithRedeem? && w.idle < needed {
      RedeemEffect(w, now, needed - w.idle);
    }
  }

  /** Whatever a withdrawal calls in, the basis falls by at least what it pays. */
  lemma TakeLowersBasis(w: World, supplied: Supplied, now: u64, wallet: u64, held: u64, shares: u64, minAssets: u64)
    requires Vault.Withdraw(w, supplied, true, now, wallet, held, shares, minAssets).Ok?
    requires Callable(w, supplied)
    requires w.vault.totalShares > 0 && Basis(w, supplied) <= U64_MAX
    requires supplied.WithRedeem? && w.idle < AssetsOut(w.vault, Basis(w, supplied), shares)
             ==> NoInterest(w.ledger.market, now)
    ensures var served := Vault.Withdraw(w, supplied, true, now, wallet, held, shares, minAssets).value;
            Basis(served.world, supplied) <= Basis(w, supplied) - AssetsOut(w.vault, Basis(w, supplied), shares)
  {
    var out := AssetsOut(w.vault, Basis(w, supplied), shares);
    WithdrawParts(w, supplied, now, wallet, held, shares, minAssets);
    hide AssetsOut, Vault.Withdraw, Cover, Nav, Callable, NoInterest;
    var r := Cover(w, supplied, now, out).value;
    var w' := Vault.Withdraw(w, supplied, true, now, wallet, held, shares, minAssets).value.world;
    NavFrame(r, w');
    if w.vault.lenderShares > 0 {
      CoverKeepsNav(w, supplied, now, out);
    } else {
      CoverOfNothing(w, supplied, now, out);
    }
  }

  /** Lender shares held are lender shares outstanding. */
  lemma UndeployKeepsNavHeld(w: World, now: u64, amount: u64)
    requires SoundMarket(w) && NoInterest(w.ledger.market, now)
    requires w.vault.lenderShares > 0 && Worth(w) < U64_SPAN && Redeem(w, now, amount).Ok?
    ensures KeepsNav(w, Redeem(w, now, amount).value)
  {
    hide Redeem, Worth, KeepsNav;
    HoldingWithinTotal(w);
    UndeployKeepsNav(w, now, amount);
  }

  lemma TakeKeepsStake(a: Account, supplied: Supplied, t: Trade)
    requires t.Take? && FairStake(a, supplied) && Callable(a.world, supplied)
    requires CallsMarket(a.world, supplied, t) ==> NoInterest(a.world.ledger.market, t.now)
    ensures FairStake(Deal(a, supplied, t), supplied)
  {
    hide Vault.Withdraw, Basis, Callable, NoInterest;
    var a', v := Deal(a, supplied, t), a.world.vault;
    if Vault.Withdraw(a.world, supplied, true, t.now, t.wallet, a.held, t.shares, t.minAssets).Ok? {
      WithdrawParts(a.world, supplied, t.now, t.wallet, a.held, t.shares, t.minAssets);
      TakeLowersBasis(a.world, supplied, t.now, t.wallet, a.held, t.shares, t.minAssets);
      var nav: u64 := Basis(a.world, supplied);
      var out := AssetsOut(v, nav, t.shares);
      PayoutRoundsDown(v, nav, t.shares);
      StakeLeaves(a.held, nav, v.totalShares, a.put - a.taken, out, t.shares);
      MulMono(Basis(a'.world, supplied), nav - out, a'.held);
    }
  }

  lemma StakeLeaves(h: nat, n: nat, s: nat, d: int, out: nat, k: nat)
    requires k <= h < s && h * n <= d * s && out * s <= k * n
    ensures (h - k) * (n - out) <= (d - out) * (s - k)
  {
    assert (0 - k) * n == 0 - k * n && (0 - out) * s == 0 - out * s;
    StakeMoves(h, n, s, d, 0 - out, 0 - k);
  }

  /** A redemption leaves the market as sound as it found it, and the holding no larger. */
  lemma RedeemKeepsCallable(w: World, now: u64, amount: u64)
    requires SoundMarket(w) && Worth(w) < U64_SPAN && NoInterest(w.ledger.market, now)
    requires Redeem(w, now, amount).Ok?
    ensures SoundMarket(Redeem(w, now, amount).value) && Worth(Redeem(w, now, amount).value) < U64_SPAN
  {
    hide MM.AccrueMarket, MM.ApplyAt, MulDiv, MM.LenderShareValue;
    var l := w.ledger;
    var call := MarketCall(w, now, MM.RemoveLiquidity(w.lenderKey, amount));
    var w' := Redeem(w, now, amount).value;
    MS.AccrualFrame(l.market, now);
    MS.ApplyKeepsPrice(l, MM.AccrueMarket(l.market, now), call);
    MS.StepKeepsAccounting(l, call);
    RedeemEffect(w, now, amount);
    if l.market.totalLenderShares > 0 {
      UndeployMovesWorth(w, now, amount);
    }
  }

  lemma CoverKeepsCallable(w: World, supplied: Supplied, now: u64, needed: u64)
    requires Callable(w, supplied) && Cover(w, supplied, now, needed).Ok?
    requires supplied.WithRedeem? && w.idle < needed ==> NoInterest(w.ledger.market, now)
    ensures Callable(Cover(w, supplied, now, needed).value, supplied)
  {
    hide Redeem, SoundMarket, Worth;
    if supplied.WithRedeem? && w.idle < needed {
      RedeemKeepsCallable(w, now, needed - w.idle);
    }
  }

  lemma TakeKeepsCallable(a: Account, supplied: Supplied, t: Trade)
    requires t.Take? && Callable(a.world, supplied)
    requires CallsMarket(a.world, supplied, t) ==> NoInterest(a.world.ledger.market, t.now)
    ensures Callable(Deal(a, supplied, t).world, supplied)
  {
    hide Vault.Withdraw, Basis, AssetsOut, Cover, NoInterest, SoundMarket, Worth;
    var w := a.world;
    if Vault.Withdraw(w, supplied, true, t.now, t.wallet, a.held, t.shares, t.minAssets).Ok? {
      WithdrawParts(w, supplied, t.now, t.wallet, a.held, t.shares, t.minAssets);
      var out := AssetsOut(w.vault, Basis(w, supplied), t.shares);
      CoverKeepsCallable(w, supplied, t.now, out);
      CallableFrame(Cover(w, supplied, t.now, out).value, Deal(a, supplied, t).world);
    }
  }

  lemma PutKeepsCallable(a: Account, supplied: Supplied, t: Trade)
    requires t.Put? && Callable(a.world, supplied)
    ensures Callable(Deal(a, supplied, t).world, supplied)
  {
    hide IssueFor, Basis, SoundMarket, Worth;
    CallableFrame(a.world, Deal(a, supplied, t).world);
  }

  /** Soundness reads the ledger and the lender shares only. */
  lemma CallableFrame(w: World, w': World)
    requires w'.ledger == w.ledger && w'.lenderKey == w.lenderKey && w'.vault.lenderShares == w.vault.lenderShares
    ensures SoundMarket(w') == SoundMarket(w) && Worth(w') == Worth(w)
  {
  }

  lemma {:induction false} DealsKeepStake(a: Account, supplied: Supplied, trades: seq<Trade>)
    requires FairStake(a, supplied) && Callable(a.world, supplied) && QuietCalls(a, supplied, trades)
    ensures FairStake(Deals(a, supplied, trades), supplied)
    decreases |trades|
  {
    hide FairStake, Deal, Callable, CallsMarket, NoInterest;
    if trades != [] {
      if trades[0].Put? {
        PutKeepsStake(a, supplied, trades[0]);
        PutKeepsCallable(a, supplied, trades[0]);
      } else {
        TakeKeepsStake(a, supplied, trades[0]);
        TakeKeepsCallable(a, supplied, trades[0]);
      }
      DealsKeepStake(Deal(a, supplied, trades[0]), supplied, trades[1..]);
    }
  }

  /**
   No extraction: in a bootstrapped vault a user who starts with no shares never
   takes out more than was put in, even counting what is still redeemable, and
   also when redemptions call on the market for what is not idle.
   */
  lemma NoExtraction(w: World, supplied: Supplied, trades: seq<Trade>)
    requires w.vault.totalShares > 0 && Callable(w, supplied)
    requires QuietCalls(Account(w, 0, 0, 0), supplied, trades)
    ensures var a := Deals(Account(w, 0, 0, 0), supplied, trades);
            && a.taken <= a.put
            && a.world.vault.totalShares > 0
            && a.taken + MulDiv(a.held, Basis(a.world, supplied), a.world.vault.totalShares) <= a.put
  {
    hide Deals, QuietCalls, Callable, MulDiv, Basis;
    var a0 := Account(w, 0, 0, 0);
    DealsKeepStake(a0, supplied, trades);
    var a := Deals(a0, supplied, trades);
    var s, n := a.world.vault.totalShares, Basis(a.world, supplied);
    StakeIsWorth(a.held, n, s, a.put - a.taken);
  }

  lemma StakeIsWorth(held: nat, n: nat, s: nat, d: int)
    requires 0 < s && held * n <= d * s
    ensures MulDiv(held, n, s) <= d
  {
    FloorBounds(held * n, s);
    CancelLe(MulDiv(held, n, s), d, s);
  }

  /** A withdrawal that undeploys leaves the books above live NAV by the rounding of the call, and no more. */
  lemma UndeployingWithdrawBooks(w: World, now: u64, wallet: u64, held: u64, shares: u64, minAssets: u64)
    requires SoundMarket(w) && NoInterest(w.ledger.market, now)
    requires w.vault.lenderShares > 0 && Worth(w) < U64_SPAN
    requires Vault.Withdraw(w, WithRedeem, true, now, wallet, held, shares, minAssets).Ok?
    ensures var w' := Vault.Withdraw(w, WithRedeem, true, now, wallet, held, shares, minAssets).value.world;
            var m, gap := w.ledger.market, w'.vault.totalAssets - Nav(w');
            0 <= gap && (gap > 0 ==> (gap - 1) * m.totalLenderShares < MM.PoolValue(m))
  {
    WithdrawParts(w, WithRedeem, now, wallet, held, shares, minAssets);
    hide Vault.Withdraw, AssetsOut, Redeem, SoundMarket, Worth, DeployedValue;
    var w' := Vault.Withdraw(w, WithRedeem, true, now, wallet, held, shares, minAssets).value.world;
    var out := AssetsOut(w.vault, Nav(w), shares);
    NavFrame(Cover(w, WithRedeem, now, out).value, w');
    if w.idle < out {
      UndeployKeepsNavHeld(w, now, out - w.idle);
    }
  }
}
