/** What counts as fresh, when an update is taken, and what each instruction changes. */
module OracleLaws {
  import opened Common
  import opened Oracle

  /** A price was posted, and not longer ago than the feed allows (0 allows any age). */
  predicate StillGood(f: PriceFeed, s: Submission, now: u64) {
    s.price > 0 && (f.maxSubmissionAge == 0 || now <= s.publishTs + f.maxSubmissionAge)
  }

  lemma {:induction false} FreshMembers(f: PriceFeed, subs: seq<Submission>, now: u64, s: Submission)
    ensures s in Fresh(f, subs, now) <==> s in subs && StillGood(f, s, now)
    decreases |subs|
  {
    if subs != [] {
      FreshMembers(f, subs[1..], now, s);
      assert subs == [subs[0]] + subs[1..];
    }
  }

  lemma {:induction false} FreshDistinct(f: PriceFeed, subs: seq<Submission>, now: u64)
    requires DistinctPublishers(subs)
    ensures DistinctPublishers(Fresh(f, subs, now))
    decreases |subs|
  {
    if subs != [] {
      FreshDistinct(f, subs[1..], now);
      var rest := Fresh(f, subs[1..], now);
      forall i | 0 <= i < |rest|
        ensures rest[i].publisher != subs[0].publisher
      {
        FreshMembers(f, subs[1..], now, rest[i]);
        assert rest[i] in subs[1..];
      }
    }
  }

  /** The median is taken over exactly the good submissions, each publisher's once. */
  lemma FreshLaw(f: PriceFeed, now: u64)
    requires DistinctPublishers(f.submissions)
    ensures DistinctPublishers(FreshSubmissions(f, now))
    ensures forall s :: s in FreshSubmissions(f, now) <==> s in f.submissions && StillGood(f, s, now)
  {
    FreshDistinct(f, f.submissions, now);
    forall s
      ensures s in FreshSubmissions(f, now) <==> s in f.submissions && StillGood(f, s, now)
    {
      FreshMembers(f, f.submissions, now, s);
    }
  }

  /** In a feed of two or more, the aggregate moves only on two publishers' good prices. */
  lemma TwoPublishersMoveIt(f: PriceFeed, op: Op) returns (a: Submission, b: Submission)
    requires FeedOk(f) && f.isInitialized && |f.submissions| >= 2 && Step(f, op).price != f.price
    ensures var g := Step(f, op);
            && op.Update? && a in g.submissions && b in g.submissions && a.publisher != b.publisher
            && StillGood(g, a, op.now) && StillGood(g, b, op.now)
  {
    var g := Step(f, op);
    StepMovesSoundly(f, op);
    StepKeepsFeed(f, op);
    MoveIsUpdate(f, op);
    hide Step, FreshMedian, Fresh;
    FreshLaw(g, op.now);
    var good := FreshSubmissions(g, op.now);
    a, b := good[0], good[1];
    assert a in good && b in good;
  }

  lemma MoveIsUpdate(f: PriceFeed, op: Op)
    requires Step(f, op).price != f.price
    ensures op.Update? && |Step(f, op).submissions| == |f.submissions| && Step(f, op).isInitialized == f.isInitialized
  {
    hide FreshMedian, Fresh, WithinDeviation;
  }

  /** The feed with the publisher's slot rewritten. */
  function Posted(f: PriceFeed, publisher: Pubkey, price: u64, now: u64): PriceFeed {
    f.(submissions := seq(|f.submissions|, i requires 0 <= i < |f.submissions| =>
         if f.submissions[i].publisher == publisher then Submission(publisher, price, now) else f.submissions[i]))
  }

  /** Enough good prices to move: one for a lone publisher, else two. */
  predicate Enough(f: PriceFeed, now: u64) {
    |FreshSubmissions(f, now)| >= if |f.submissions| <= 1 then 1 else 2
  }

  /** The step from the old aggregate to a new one is within the feed's bound, if it has either. */
  predicate InBounds(f: PriceFeed, median: u64) {
    f.price > 0 && f.maxDeviationBps > 0 ==>
      (if f.price <= median then median - f.price else f.price - median) * BPS < (f.maxDeviationBps + 1) * f.price
  }

  lemma WithinIsInBounds(f: PriceFeed, median: u64)
    ensures WithinDeviation(f, median) <==> InBounds(f, median)
  {
    if f.price > 0 {
      var diff: nat := if f.price <= median then median - f.price else f.price - median;
      FloorBounds(diff * BPS, f.price);
      if diff * BPS < (f.maxDeviationBps + 1) * f.price {
        FloorAtMost(diff * BPS, f.price, f.maxDeviationBps);
      } else {
        FloorIsGreatest(diff * BPS, f.price, f.maxDeviationBps + 1);
      }
    }
  }

  lemma PostedIs(f: PriceFeed, publisher: Pubkey, price: u64, now: u64)
    requires DistinctPublishers(f.submissions) && Registered(f, publisher)
    ensures var k := FindSlot(f.submissions, publisher);
            && k < |f.submissions|
            && f.(submissions := f.submissions[k := Submission(publisher, price, now)]) == Posted(f, publisher, price, now)
  {
    var k := FindSlot(f.submissions, publisher);
    var i :| 0 <= i < |f.submissions| && f.submissions[i].publisher == publisher;
    assert k <= i;
    var g, h := f.submissions[k := Submission(publisher, price, now)], Posted(f, publisher, price, now).submissions;
    forall j | 0 <= j < |g|
      ensures g[j] == h[j]
    {
    }
    assert g == h;
  }

  /**
   A signed, non-zero price from a registered publisher is taken, and rewrites
   that publisher's slot alone. With enough good prices the aggregate becomes
   their lower median, or the update is refused if that is out of bounds; with
   fewer it is held.
   */
  lemma UpdateLaw(f: PriceFeed, publisher: Pubkey, signed: bool, price: u64, now: u64)
    requires DistinctPublishers(f.submissions)
    ensures var r, g := UpdatePrice(f, publisher, signed, price, now), Posted(f, publisher, price, now);
            && (!signed || !f.isInitialized || price == 0 || !Registered(f, publisher) ==> r.Err?)
            && (signed && f.isInitialized && price > 0 && Registered(f, publisher) ==>
                  if !Enough(g, now) then r == Ok(g)
                  else
                    var m := LowerMedian(Prices(FreshSubmissions(g, now)));
                    r == if InBounds(f, m) then Ok(g.(price := m, publishTs := now)) else Err(PriceOutOfBounds))
  {
    hide Fresh, LowerMedian, WithinDeviation, InBounds;
    if Registered(f, publisher) {
      PostedIs(f, publisher, price, now);
      var g := Posted(f, publisher, price, now);
      if Enough(g, now) {
        var m := LowerMedian(Prices(FreshSubmissions(g, now)));
        WithinIsInBounds(g, m);
        BoundsFrame(f, g, m);
      }
    }
  }

  lemma BoundsFrame(f: PriceFeed, g: PriceFeed, m: u64)
    requires f.price == g.price && f.maxDeviationBps == g.maxDeviationBps
    ensures InBounds(f, m) == InBounds(g, m)
  {
  }

  /** Only the authority adds, only a newcomer, only up to sixteen; the newcomer starts with no price. */
  lemma AddLaw(f: PriceFeed, caller: Pubkey, signed: bool, publisher: Pubkey)
    ensures var r := AddPublisher(f, caller, signed, publisher);
            && (r.Ok? <==> && f.isInitialized && signed && caller == f.authority
                           && !Registered(f, publisher) && |f.submissions| < 16)
            && (r.Ok? ==>
                  && r.value == f.(submissions := f.submissions + [Submission(publisher, 0, 0)])
                  && forall p :: Registered(r.value, p) <==> Registered(f, p) || p == publisher)
  {
    var r := AddPublisher(f, caller, signed, publisher);
    if r.Ok? {
      var old', new' := f.submissions, r.value.submissions;
      assert new'[|old'|].publisher == publisher;
      forall p
        ensures Registered(r.value, p) <==> Registered(f, p) || p == publisher
      {
        if Registered(f, p) {
          var i :| 0 <= i < |old'| && old'[i].publisher == p;
          assert new'[i].publisher == p;
        }
      }
    }
  }

  /** Only the authority removes, never itself, and exactly the named publisher goes. */
  lemma RemoveLaw(f: PriceFeed, caller: Pubkey, signed: bool, publisher: Pubkey)
    ensures var r := RemovePublisher(f, caller, signed, publisher);
            && (r.Ok? <==> && f.isInitialized && signed && caller == f.authority
                           && publisher != f.authority && Registered(f, publisher))
            && (r.Ok? ==>
                  && r.value == f.(submissions := r.value.submissions)
                  && forall s :: s in r.value.submissions <==> s in f.submissions && s.publisher != publisher)
  {
    WithoutKeepsOthers(f.submissions, publisher);
    WithoutShorterIff(f.submissions, publisher);
    hide Without;
    if Registered(f, publisher) {
      var i :| 0 <= i < |f.submissions| && f.submissions[i].publisher == publisher;
      assert f.submissions[i] in f.submissions;
    }
  }

  lemma {:induction false} WithoutShorterIff(subs: seq<Submission>, publisher: Pubkey)
    ensures |Without(subs, publisher)| < |subs| <==> exists s :: s in subs && s.publisher == publisher
    decreases |subs|
  {
    if subs != [] {
      WithoutShorterIff(subs[1..], publisher);
      assert subs == [subs[0]] + subs[1..];
    }
  }

  /** A feed is set up once, by its signing authority, its first publisher; the aggregate is left alone. */
  lemma InitLaw(f: PriceFeed, authority: Pubkey, signed: bool, maxDeviationBps: u64, maxSubmissionAge: u64)
    ensures var r := InitFeed(f, authority, signed, maxDeviationBps, maxSubmissionAge);
            && (r.Ok? <==> signed && !f.isInitialized)
            && (r.Ok? ==> r.value == PriceFeed(authority, f.price, f.publishTs, true, maxDeviationBps, maxSubmissionAge,
                                               [Submission(authority, 0, 0)]))
  {
  }
}
