/** The price oracle: publishers, fresh lower medians, quorum and deviation bound. */
module Oracle {
  import opened Common

  const MAX_PUBLISHERS: nat := 16
  const BPS: nat := 10_000

  datatype Submission = Submission(publisher: Pubkey, price: u64, publishTs: u64)

  datatype PriceFeed = PriceFeed(
    authority: Pubkey,
    price: u64,
    publishTs: u64,
    isInitialized: bool,
    maxDeviationBps: u64,
    maxSubmissionAge: u64,
    submissions: seq<Submission>)

  // ---- fresh submissions ----

  predicate SubmissionFresh(f: PriceFeed, s: Submission, now: u64) {
    s.price != 0 && (f.maxSubmissionAge == 0 || SaturatingSub(now, s.publishTs) <= f.maxSubmissionAge)
  }

  function Fresh(f: PriceFeed, subs: seq<Submission>, now: u64): seq<Submission> {
    if subs == [] then []
    else (if SubmissionFresh(f, subs[0], now) then [subs[0]] else []) + Fresh(f, subs[1..], now)
  }

  function FreshSubmissions(f: PriceFeed, now: u64): seq<Submission> {
    Fresh(f, f.submissions, now)
  }

  function FreshQuorum(f: PriceFeed): nat {
    if |f.submissions| <= 1 then 1 else 2
  }

  // ---- the median ----

  function Prices(subs: seq<Submission>): (p: seq<u64>)
    ensures |p| == |subs|
  {
    seq(|subs|, i requires 0 <= i < |subs| => subs[i].price)
  }

  function Insert(x: u64, s: seq<u64>): seq<u64> {
    if s == [] || x <= s[0] then [x] + s else [s[0]] + Insert(x, s[1..])
  }

  /** The prices in ascending order. */
  function Ascending(s: seq<u64>): seq<u64> {
    if s == [] then [] else Insert(s[0], Ascending(s[1..]))
  }

  predicate Sorted(s: seq<u64>) {
    forall i, j :: 0 <= i < j < |s| ==> s[i] <= s[j]
  }

  lemma {:induction false} InsertPermutes(x: u64, s: seq<u64>)
    ensures multiset(Insert(x, s)) == multiset([x] + s)
  {
    if s != [] && x > s[0] {
      InsertPermutes(x, s[1..]);
      assert s == [s[0]] + s[1..];
    }
  }

  lemma {:induction false} InsertBelow(low: u64, x: u64, s: seq<u64>)
    requires low <= x && forall i :: 0 <= i < |s| ==> low <= s[i]
    ensures forall i :: 0 <= i < |Insert(x, s)| ==> low <= Insert(x, s)[i]
  {
    if s != [] && x > s[0] {
      InsertBelow(low, x, s[1..]);
    }
  }

  lemma {:induction false} InsertSorted(x: u64, s: seq<u64>)
    requires Sorted(s)
    ensures Sorted(Insert(x, s)) && |Insert(x, s)| == |s| + 1
  {
    if s != [] && x > s[0] {
      InsertSorted(x, s[1..]);
      InsertBelow(s[0], x, s[1..]);
    }
  }

  /** Sorting orders and permutes. */
  lemma {:induction false} AscendingSorts(s: seq<u64>)
    ensures Sorted(Ascending(s)) && |Ascending(s)| == |s| && multiset(Ascending(s)) == multiset(s)
  {
    if s != [] {
      AscendingSorts(s[1..]);
      InsertSorted(s[0], Ascending(s[1..]));
      InsertPermutes(s[0], Ascending(s[1..]));
      assert s == [s[0]] + s[1..];
    }
  }

  lemma {:induction false} SortedHead(s: seq<u64>, t: seq<u64>)
    requires s != [] && t != [] && Sorted(s) && Sorted(t) && multiset(s) == multiset(t)
    ensures s[0] == t[0]
  {
    assert s[0] in multiset(s) && t[0] in multiset(t);
    var i :| 0 <= i < |t| && t[i] == s[0];
    var j :| 0 <= j < |s| && s[j] == t[0];
  }

  lemma TailMultiset(s: seq<u64>)
    requires s != []
    ensures multiset(s[1..]) == multiset(s) - multiset{s[0]}
  {
    assert s == [s[0]] + s[1..];
  }

  /** Any ascending rearrangement is this one, so an unstable sort gives the same result. */
  lemma {:induction false} SortedUnique(s: seq<u64>, t: seq<u64>)
    requires Sorted(s) && Sorted(t) && multiset(s) == multiset(t)
    ensures s == t
  {
    assert |s| == |multiset(s)| == |multiset(t)| == |t|;
    if s != [] {
      SortedHead(s, t);
      assert s == [s[0]] + s[1..] && t == [t[0]] + t[1..];
      TailMultiset(s);
      TailMultiset(t);
      SortedUnique(s[1..], t[1..]);
    }
  }

  function LowerMedian(prices: seq<u64>): u64
    requires prices != []
  {
    AscendingSorts(prices);
    Ascending(prices)[(|prices| - 1) / 2]
  }

  function FreshMedian(f: PriceFeed, now: u64): Option<u64> {
    var prices := Prices(FreshSubmissions(f, now));
    if prices == [] then None else Some(LowerMedian(prices))
  }

  /** Entries of `s` meeting a bound from below or above. */
  function CountIn(s: seq<u64>, low: int, high: int): nat {
    if s == [] then 0 else (if low <= s[0] <= high then 1 else 0) + CountIn(s[1..], low, high)
  }

  lemma {:induction false} InsertCount(x: u64, s: seq<u64>, low: int, high: int)
    ensures CountIn(Insert(x, s), low, high) == CountIn([x] + s, low, high)
  {
    assert ([x] + s)[1..] == s;
    if s == [] || x <= s[0] {
    } else {
      InsertCount(x, s[1..], low, high);
      assert ([s[0]] + Insert(x, s[1..]))[1..] == Insert(x, s[1..]);
      assert ([x] + s[1..])[1..] == s[1..];
    }
  }

  lemma {:induction false} AscendingCount(s: seq<u64>, low: int, high: int)
    ensures CountIn(Ascending(s), low, high) == CountIn(s, low, high)
  {
    if s != [] {
      AscendingCount(s[1..], low, high);
      InsertCount(s[0], Ascending(s[1..]), low, high);
      assert ([s[0]] + Ascending(s[1..]))[1..] == Ascending(s[1..]);
    }
  }

  lemma {:induction false} CountConcat(a: seq<u64>, b: seq<u64>, low: int, high: int)
    ensures CountIn(a + b, low, high) == CountIn(a, low, high) + CountIn(b, low, high)
  {
    if a == [] {
      assert a + b == b;
    } else {
      assert (a + b)[1..] == a[1..] + b;
      CountConcat(a[1..], b, low, high);
    }
  }

  lemma {:induction false} CountAll(s: seq<u64>, low: int, high: int)
    requires forall i :: 0 <= i < |s| ==> low <= s[i] <= high
    ensures CountIn(s, low, high) == |s|
  {
    if s != [] {
      CountAll(s[1..], low, high);
    }
  }

  lemma LowerRank(s: seq<u64>, k: nat)
    requires Sorted(s) && k < |s|
    ensures CountIn(s, 0, s[k]) >= k + 1
  {
    hide CountIn;
    assert s == s[..k + 1] + s[k + 1..];
    CountConcat(s[..k + 1], s[k + 1..], 0, s[k]);
    CountAll(s[..k + 1], 0, s[k]);
  }

  lemma UpperRank(s: seq<u64>, k: nat)
    requires Sorted(s) && k < |s|
    ensures CountIn(s, s[k], U64_MAX) >= |s| - k
  {
    hide CountIn;
    assert s == s[..k] + s[k..];
    CountConcat(s[..k], s[k..], s[k], U64_MAX);
    CountAll(s[k..], s[k], U64_MAX);
  }

  /** Half the prices are at most the lower median, and more than half at least it. */
  lemma MedianRanks(prices: seq<u64>)
    requires prices != []
    ensures var m := LowerMedian(prices);
            && 2 * CountIn(prices, 0, m) >= |prices|
            && 2 * CountIn(prices, m, U64_MAX) > |prices|
  {
    hide CountIn, Ascending;
    var k, m := (|prices| - 1) / 2, LowerMedian(prices);
    AscendingSorts(prices);
    AscendingCount(prices, 0, m);
    AscendingCount(prices, m, U64_MAX);
    LowerRank(Ascending(prices), k);
    UpperRank(Ascending(prices), k);
  }

  /** How many of the submissions come from publishers outside `honest`. */
  function Dishonest(subs: seq<Submission>, honest: set<Pubkey>): nat {
    if subs == [] then 0
    else (if subs[0].publisher in honest then 0 else 1) + Dishonest(subs[1..], honest)
  }

  /** More prices in a range than dishonest publishers: an honest one is among them. */
  lemma {:induction false} HonestInRange(subs: seq<Submission>, honest: set<Pubkey>, low: int, high: int)
    requires CountIn(Prices(subs), low, high) > Dishonest(subs, honest)
    ensures exists i :: 0 <= i < |subs| && subs[i].publisher in honest && low <= subs[i].price <= high
  {
    if subs != [] {
      assert Prices(subs)[1..] == Prices(subs[1..]);
      if subs[0].publisher in honest && low <= subs[0].price <= high {
      } else {
        HonestInRange(subs[1..], honest, low, high);
        var i :| 0 <= i < |subs[1..]| && subs[1..][i].publisher in honest && low <= subs[1..][i].price <= high;
        assert subs[i + 1] == subs[1..][i];
      }
    }
  }

  /**
   Robustness: with fewer than half of the fresh submissions dishonest, the
   aggregate lies between two honest prices.
   */
  lemma MedianBetweenHonest(f: PriceFeed, now: u64, honest: set<Pubkey>)
    requires var subs := FreshSubmissions(f, now); subs != [] && 2 * Dishonest(subs, honest) < |subs|
    ensures var subs, m := FreshSubmissions(f, now), FreshMedian(f, now);
            && m.Some?
            && (exists i :: 0 <= i < |subs| && subs[i].publisher in honest && 0 <= subs[i].price <= m.value)
            && (exists i :: 0 <= i < |subs| && subs[i].publisher in honest && m.value <= subs[i].price <= U64_MAX)
  {
    var subs := FreshSubmissions(f, now);
    var prices := Prices(subs);
    MedianRanks(prices);
    var m := LowerMedian(prices);
    HonestInRange(subs, honest, 0, m);
    HonestInRange(subs, honest, m, U64_MAX);
  }

  // ---- instructions ----

  function DeviationBps(old': u64, new': u64): nat
    requires old' > 0
  {
    MulDiv(if old' <= new' then new' - old' else old' - new', BPS, old')
  }

  function FindSlot(subs: seq<Submission>, publisher: Pubkey): (k: nat)
    ensures k <= |subs|
    ensures k < |subs| ==> subs[k].publisher == publisher
    ensures forall i :: 0 <= i < k ==> subs[i].publisher != publisher
  {
    if subs == [] || subs[0].publisher == publisher then 0 else 1 + FindSlot(subs[1..], publisher)
  }

  predicate WithinDeviation(f: PriceFeed, median: u64) {
    f.price != 0 && f.maxDeviationBps != 0 ==> DeviationBps(f.price, median) <= f.maxDeviationBps
  }

  function UpdatePrice(f: PriceFeed, publisher: Pubkey, signed: bool, price: u64, now: u64): Result<PriceFeed> {
    if !signed then Err(MissingSigner) else
    :- Need(f.isInitialized, NotInitialized);
    :- Need(price != 0, InvalidInstruction);
    var k := FindSlot(f.submissions, publisher);
    :- Need(k < |f.submissions|, Unauthorized);
    var g := f.(submissions := f.submissions[k := Submission(publisher, price, now)]);
    if |FreshSubmissions(g, now)| < FreshQuorum(g) then Ok(g)
    else
      var median := FreshMedian(g, now);
      :- Need(median.Some?, StalePrice);
      :- Need(WithinDeviation(g, median.value), PriceOutOfBounds);
      Ok(g.(price := median.value, publishTs := now))
  }

  predicate Registered(f: PriceFeed, publisher: Pubkey) {
    exists i :: 0 <= i < |f.submissions| && f.submissions[i].publisher == publisher
  }

  function AddPublisher(f: PriceFeed, caller: Pubkey, signed: bool, publisher: Pubkey): Result<PriceFeed> {
    if !f.isInitialized then Err(NotInitialized) else
    :- Need(signed, MissingSigner);
    :- Need(caller == f.authority, Unauthorized);
    :- Need(!Registered(f, publisher), AlreadyInitialized);
    :- Need(|f.submissions| < MAX_PUBLISHERS, InvalidInstruction);
    Ok(f.(submissions := f.submissions + [Submission(publisher, 0, 0)]))
  }

  /** The submissions of everyone but `publisher`, in order. */
  function Without(subs: seq<Submission>, publisher: Pubkey): (r: seq<Submission>)
    ensures |r| <= |subs|
  {
    if subs == [] then []
    else (if subs[0].publisher != publisher then [subs[0]] else []) + Without(subs[1..], publisher)
  }

  function RemovePublisher(f: PriceFeed, caller: Pubkey, signed: bool, publisher: Pubkey): Result<PriceFeed> {
    if !f.isInitialized then Err(NotInitialized) else
    :- Need(signed, MissingSigner);
    :- Need(caller == f.authority, Unauthorized);
    :- Need(publisher != f.authority, InvalidInstruction);
    var kept := Without(f.submissions, publisher);
    :- Need(|kept| != |f.submissions|, InvalidAccountData);
    Ok(f.(submissions := kept))
  }

  function InitFeed(
    f: PriceFeed, authority: Pubkey, signed: bool, maxDeviationBps: u64, maxSubmissionAge: u64): Result<PriceFeed>
  {
    if !signed then Err(MissingSigner)
    else if f.isInitialized then Err(AlreadyInitialized)
    else
      Ok(f.(authority := authority,
            maxDeviationBps := maxDeviationBps,
            maxSubmissionAge := maxSubmissionAge,
            submissions := [Submission(authority, 0, 0)],
            isInitialized := true))
  }

  // ---- runs ----

  datatype Op =
    | Init(authority: Pubkey, signed: bool, maxDeviationBps: u64, maxSubmissionAge: u64)
    | Update(publisher: Pubkey, signed: bool, price: u64, now: u64)
    | Add(caller: Pubkey, signed: bool, publisher: Pubkey)
    | Remove(caller: Pubkey, signed: bool, publisher: Pubkey)

  function Apply(f: PriceFeed, op: Op): Result<PriceFeed> {
    match op
    case Init(authority, signed, maxDeviationBps, maxSubmissionAge) =>
      InitFeed(f, authority, signed, maxDeviationBps, maxSubmissionAge)
    case Update(publisher, signed, price, now) => UpdatePrice(f, publisher, signed, price, now)
    case Add(caller, signed, publisher) => AddPublisher(f, caller, signed, publisher)
    case Remove(caller, signed, publisher) => RemovePublisher(f, caller, signed, publisher)
  }

  function Step(f: PriceFeed, op: Op): PriceFeed {
    var r := Apply(f, op);
    if r.Ok? then r.value else f
  }

  function Run(f: PriceFeed, ops: seq<Op>): PriceFeed
    decreases |ops|
  {
    if ops == [] then f else Run(Step(f, ops[0]), ops[1..])
  }

  predicate DistinctPublishers(subs: seq<Submission>) {
    forall i, j :: 0 <= i < j < |subs| ==> subs[i].publisher != subs[j].publisher
  }

  /** Once set up: publishers distinct, at most 16, the authority among them. */
  predicate FeedOk(f: PriceFeed) {
    f.isInitialized ==>
      DistinctPublishers(f.submissions) && |f.submissions| <= MAX_PUBLISHERS && Registered(f, f.authority)
  }

  lemma {:induction false} WithoutKeepsOthers(subs: seq<Submission>, publisher: Pubkey)
    ensures forall s :: s in Without(subs, publisher) <==> s in subs && s.publisher != publisher
  {
    if subs != [] {
      WithoutKeepsOthers(subs[1..], publisher);
      assert subs == [subs[0]] + subs[1..];
    }
  }

  lemma {:induction false} WithoutDistinct(subs: seq<Submission>, publisher: Pubkey)
    requires DistinctPublishers(subs)
    ensures DistinctPublishers(Without(subs, publisher))
  {
    if subs != [] {
      WithoutDistinct(subs[1..], publisher);
      WithoutKeepsOthers(subs[1..], publisher);
      var rest := Without(subs[1..], publisher);
      forall s | s in rest
        ensures s.publisher != subs[0].publisher
      {
        assert s in subs[1..];
      }
    }
  }

  lemma RegisteredKept(f: PriceFeed, g: PriceFeed)
    requires Registered(f, f.authority) && g.authority == f.authority
    requires |f.submissions| <= |g.submissions|
    requires forall i :: 0 <= i < |f.submissions| ==> g.submissions[i].publisher == f.submissions[i].publisher
    ensures Registered(g, g.authority)
  {
    var k :| 0 <= k < |f.submissions| && f.submissions[k].publisher == f.authority;
    assert g.submissions[k].publisher == f.authority;
  }

  lemma RemoveKeepsFeed(f: PriceFeed, publisher: Pubkey)
    requires f.isInitialized && FeedOk(f) && publisher != f.authority
    ensures FeedOk(f.(submissions := Without(f.submissions, publisher)))
  {
    hide Without;
    var g := f.(submissions := Without(f.submissions, publisher));
    var k :| 0 <= k < |f.submissions| && f.submissions[k].publisher == f.authority;
    WithoutDistinct(f.submissions, publisher);
    WithoutKeepsOthers(f.submissions, publisher);
    assert f.submissions[k] in g.submissions;
  }

  lemma UpdateKeepsFeed(f: PriceFeed, op: Op)
    requires FeedOk(f) && f.isInitialized && op.Update?
    ensures FeedOk(Step(f, op))
  {
    hide Fresh, FreshMedian, WithinDeviation, Registered;
    RegisteredKept(f, Step(f, op));
  }

  lemma AddKeepsFeed(f: PriceFeed, op: Op)
    requires FeedOk(f) && f.isInitialized && op.Add?
    ensures FeedOk(Step(f, op))
  {
    RegisteredKept(f, Step(f, op));
  }

  lemma StepKeepsFeed(f: PriceFeed, op: Op)
    requires FeedOk(f)
    ensures FeedOk(Step(f, op))
  {
    hide UpdatePrice, Without, DistinctPublishers;
    match op {
      case Init(_, _, _, _) =>
        InitKeepsFeed(f, op);
      case Update(_, _, _, _) =>
        if f.isInitialized {
          UpdateKeepsFeed(f, op);
        } else {
          UninitializedHolds(f, op);
        }
      case Add(_, _, _) =>
        if f.isInitialized {
          AddKeepsFeed(f, op);
        }
      case Remove(_, _, publisher) =>
        if f.isInitialized && publisher != f.authority {
          RemoveKeepsFeed(f, publisher);
        }
    }
  }

  lemma UninitializedHolds(f: PriceFeed, op: Op)
    requires !f.isInitialized && !op.Init?
    ensures Step(f, op) == f
  {
  }

  lemma InitKeepsFeed(f: PriceFeed, op: Op)
    requires FeedOk(f) && op.Init?
    ensures FeedOk(Step(f, op))
  {
    var g := Step(f, op);
    if !f.isInitialized && op.signed {
      assert g.submissions[0].publisher == g.authority;
    }
  }

  /** Over every run publishers stay distinct, at most 16, the authority among them. */
  lemma {:induction false} RunKeepsFeed(f: PriceFeed, ops: seq<Op>)
    requires FeedOk(f)
    ensures FeedOk(Run(f, ops))
    decreases |ops|
  {
    hide FeedOk, Step;
    if ops != [] {
      StepKeepsFeed(f, ops[0]);
      RunKeepsFeed(Step(f, ops[0]), ops[1..]);
    }
  }

  /** A move of the aggregate: by a publisher's update, to the fresh median, with a quorum, in bounds. */
  ghost predicate SoundMove(f: PriceFeed, g: PriceFeed, op: Op) {
    && op.Update? && op.signed && Registered(f, op.publisher)
    && |FreshSubmissions(g, op.now)| >= FreshQuorum(g)
    && FreshMedian(g, op.now) == Some(g.price)
    && g.price != 0
    && (f.price != 0 && f.maxDeviationBps != 0 ==>
          var diff := if f.price <= g.price then g.price - f.price else f.price - g.price;
          diff * BPS < (f.maxDeviationBps + 1) * f.price)
  }

  lemma {:induction false} FreshIsPositive(f: PriceFeed, subs: seq<Submission>, now: u64)
    ensures forall s :: s in Fresh(f, subs, now) ==> s.price != 0
  {
    if subs != [] {
      FreshIsPositive(f, subs[1..], now);
    }
  }

  lemma {:induction false} FreshReadsWindow(f: PriceFeed, g: PriceFeed, subs: seq<Submission>, now: u64)
    requires f.maxSubmissionAge == g.maxSubmissionAge
    ensures Fresh(f, subs, now) == Fresh(g, subs, now)
  {
    if subs != [] {
      FreshReadsWindow(f, g, subs[1..], now);
    }
  }

  /** The median and the quorum read only the submissions and the freshness window. */
  lemma MedianFrame(f: PriceFeed, g: PriceFeed, now: u64)
    requires f.maxSubmissionAge == g.maxSubmissionAge && f.submissions == g.submissions
    ensures FreshSubmissions(f, now) == FreshSubmissions(g, now)
    ensures FreshMedian(f, now) == FreshMedian(g, now) && FreshQuorum(f) == FreshQuorum(g)
  {
    FreshReadsWindow(f, g, f.submissions, now);
  }

  lemma MedianIsSubmitted(f: PriceFeed, now: u64)
    requires FreshSubmissions(f, now) != []
    ensures FreshMedian(f, now).Some? && FreshMedian(f, now).value != 0
  {
    var subs := FreshSubmissions(f, now);
    var prices := Prices(subs);
    FreshIsPositive(f, f.submissions, now);
    AscendingSorts(prices);
    var m := LowerMedian(prices);
    assert m in multiset(Ascending(prices));
    assert m in prices;
    var i :| 0 <= i < |prices| && prices[i] == m;
    assert subs[i] in subs;
  }

  /** The aggregate moves only soundly; any other instruction holds it. */
  lemma StepMovesSoundly(f: PriceFeed, op: Op)
    ensures Step(f, op).price == f.price || SoundMove(f, Step(f, op), op)
  {
    hide DeviationBps, FreshMedian, Fresh;
    var g := Step(f, op);
    if g.price != f.price {
      var k := FindSlot(f.submissions, op.publisher);
      var mid := f.(submissions := f.submissions[k := Submission(op.publisher, op.price, op.now)]);
      MedianFrame(mid, g, op.now);
      MedianIsSubmitted(mid, op.now);
      if f.price != 0 && f.maxDeviationBps != 0 {
        DeviationBound(f.price, g.price, f.maxDeviationBps);
      }
    }
  }

  lemma DeviationBound(old': u64, new': u64, bound: u64)
    requires old' > 0 && DeviationBps(old', new') <= bound
    ensures (if old' <= new' then new' - old' else old' - new') * BPS < (bound + 1) * old'
  {
    var diff: nat := if old' <= new' then new' - old' else old' - new';
    FloorBounds(diff * BPS, old');
    MulMono(DeviationBps(old', new'), bound, old');
    assert (bound + 1) * old' == bound * old' + old';
  }

  /** Every move in the run is sound. */
  ghost predicate MovesSoundly(f: PriceFeed, ops: seq<Op>)
    decreases |ops|
  {
    ops != [] ==>
      && (Step(f, ops[0]).price == f.price || SoundMove(f, Step(f, ops[0]), ops[0]))
      && MovesSoundly(Step(f, ops[0]), ops[1..])
  }

  lemma {:induction false} RunMovesSoundly(f: PriceFeed, ops: seq<Op>)
    ensures MovesSoundly(f, ops)
    decreases |ops|
  {
    hide Step, SoundMove;
    if ops != [] {
      StepMovesSoundly(f, ops[0]);
      RunMovesSoundly(Step(f, ops[0]), ops[1..]);
    }
  }

  /** Once non-zero, the aggregate never returns to zero. */
  lemma {:induction false} PriceStaysSet(f: PriceFeed, ops: seq<Op>)
    requires f.price != 0
    ensures Run(f, ops).price != 0
    decreases |ops|
  {
    hide Step;
    if ops != [] {
      StepMovesSoundly(f, ops[0]);
      PriceStaysSet(Step(f, ops[0]), ops[1..]);
    }
  }
}
