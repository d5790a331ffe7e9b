/** The oracle program as it runs: a feed account read, changed and written back. */
module OracleProgram {
  import opened Common
  import opened Oracle

  lemma {:induction false} FreshAppend(f: PriceFeed, subs: seq<Submission>, s: Submission, now: u64)
    ensures Fresh(f, subs + [s], now) ==
            if SubmissionFresh(f, s, now) then Fresh(f, subs, now) + [s] else Fresh(f, subs, now)
  {
    if subs == [] {
      assert subs + [s] == [s];
    } else {
      assert (subs + [s])[1..] == subs[1..] + [s];
      FreshAppend(f, subs[1..], s, now);
    }
  }

  lemma {:induction false} WithoutAppend(subs: seq<Submission>, s: Submission, publisher: Pubkey)
    ensures Without(subs + [s], publisher) == Without(subs, publisher) + (if s.publisher != publisher then [s] else [])
  {
    if subs == [] {
      assert subs + [s] == [s];
      assert (subs + [s])[1..] == [];
    } else {
      assert (subs + [s])[1..] == subs[1..] + [s];
      WithoutAppend(subs[1..], s, publisher);
    }
  }

  method FreshCount(f: PriceFeed, now: u64) returns (n: nat)
    ensures n == |FreshSubmissions(f, now)|
  {
    hide SubmissionFresh;
    ghost var subs := f.submissions;
    n := 0;
    for i := 0 to |f.submissions|
      invariant n == |Fresh(f, subs[..i], now)|
    {
      CountNext(f, subs, i, now);
      if SubmissionFresh(f, f.submissions[i], now) {
        n := n + 1;
      }
    }
    assert subs[..|subs|] == subs;
  }

  lemma CountNext(f: PriceFeed, subs: seq<Submission>, i: nat, now: u64)
    requires i < |subs|
    ensures |Fresh(f, subs[..i + 1], now)|
            == |Fresh(f, subs[..i], now)| + if SubmissionFresh(f, subs[i], now) then 1 else 0
  {
    hide SubmissionFresh;
    FreshAppend(f, subs[..i], subs[i], now);
    assert subs[..i + 1] == subs[..i] + [subs[i]];
  }

  lemma PricesAppend(subs: seq<Submission>, s: Submission)
    ensures Prices(subs + [s]) == Prices(subs) + [s.price]
  {
    assert |Prices(subs + [s])| == |subs| + 1;
  }

  /** The prices still fresh, in order of submission. */
  method CollectFresh(f: PriceFeed, now: u64) returns (prices: seq<u64>)
    ensures prices == Prices(FreshSubmissions(f, now))
  {
    hide Prices, SubmissionFresh;
    ghost var subs := f.submissions;
    prices := [];
    for i := 0 to |f.submissions|
      invariant prices == Prices(Fresh(f, subs[..i], now))
    {
      var s := f.submissions[i];
      NextFresh(f, subs, i, now);
      if SubmissionFresh(f, s, now) {
        prices := prices + [s.price];
      }
    }
    assert subs[..|subs|] == subs;
  }

  /** One more submission looked at. */
  lemma NextFresh(f: PriceFeed, subs: seq<Submission>, i: nat, now: u64)
    requires i < |subs|
    ensures var before, after := Prices(Fresh(f, subs[..i], now)), Prices(Fresh(f, subs[..i + 1], now));
            after == if SubmissionFresh(f, subs[i], now) then before + [subs[i].price] else before
  {
    hide SubmissionFresh;
    FreshAppend(f, subs[..i], subs[i], now);
    assert subs[..i + 1] == subs[..i] + [subs[i]];
    hide Fresh;
    PricesAppend(Fresh(f, subs[..i], now), subs[i]);
  }

  /** Sorted, the lower middle one. */
  method ComputeMedian(f: PriceFeed, now: u64) returns (m: Option<u64>)
    ensures m == FreshMedian(f, now)
  {
    hide Prices, Ascending, FreshSubmissions;
    var prices := CollectFresh(f, now);
    if |prices| == 0 {
      return None;
    }
    AscendingSorts(prices);
    var sorted := Ascending(prices);
    m := Some(sorted[(|sorted| - 1) / 2]);
  }

  method FindPublisher(subs: seq<Submission>, publisher: Pubkey) returns (k: nat)
    ensures k == FindSlot(subs, publisher)
  {
    k := 0;
    while k < |subs| && subs[k].publisher != publisher
      invariant k <= |subs|
      invariant forall i :: 0 <= i < k ==> subs[i].publisher != publisher
    {
      k := k + 1;
    }
  }

  /** `Vec::retain`: everyone but the publisher, in order. */
  method Retain(subs: seq<Submission>, publisher: Pubkey) returns (kept: seq<Submission>)
    ensures kept == Without(subs, publisher)
  {
    kept := [];
    for i := 0 to |subs|
      invariant kept == Without(subs[..i], publisher)
    {
      WithoutAppend(subs[..i], subs[i], publisher);
      assert subs[..i + 1] == subs[..i] + [subs[i]];
      if subs[i].publisher != publisher {
        kept := kept + [subs[i]];
      }
    }
    assert subs[..|subs|] == subs;
  }

  /** The call returned what the specification says and wrote the account only on success. */
  ghost predicate Tracks(r: Result<()>, spec: Result<PriceFeed>, before: PriceFeed, after: PriceFeed) {
    match spec
    case Ok(feed) => r.Ok? && after == feed
    case Err(e) => r == Err(e) && after == before
  }

  class FeedAccount {
    var data: PriceFeed

    constructor (f: PriceFeed)
      ensures data == f
    {
      data := f;
    }

    method Init(authority: Pubkey, signed: bool, maxDeviationBps: u64, maxSubmissionAge: u64)
      returns (r: Result<()>)
      modifies this
      ensures Tracks(r, Oracle.Apply(old(data), Op.Init(authority, signed, maxDeviationBps, maxSubmissionAge)), old(data), data)
    {
      if !signed {
        return Err(MissingSigner);
      }
      var feed := data;
      :- Need(!feed.isInitialized, AlreadyInitialized);
      feed := feed.(authority := authority);
      feed := feed.(maxDeviationBps := maxDeviationBps, maxSubmissionAge := maxSubmissionAge);
      feed := feed.(submissions := [Submission(authority, 0, 0)], isInitialized := true);
      data := feed;
      r := Ok(());
    }

    method Update(publisher: Pubkey, signed: bool, price: u64, now: u64) returns (r: Result<()>)
      modifies this
      ensures Tracks(r, Oracle.Apply(old(data), Op.Update(publisher, signed, price, now)), old(data), data)
    {
      hide FreshMedian, Fresh, DeviationBps;
      :- Need(signed, MissingSigner);
      var feed := data;
      :- Need(feed.isInitialized, NotInitialized);
      :- Need(price != 0, InvalidInstruction);
      var k := FindPublisher(feed.submissions, publisher);
      :- Need(k < |feed.submissions|, Unauthorized);
      feed := feed.(submissions := feed.submissions[k := Submission(publisher, price, now)]);
      var count := FreshCount(feed, now);
      if count < FreshQuorum(feed) {
        data := feed;
        return Ok(());
      }
      var median := ComputeMedian(feed, now);
      :- Need(median.Some?, StalePrice);
      if feed.price != 0 && feed.maxDeviationBps != 0 && DeviationBps(feed.price, median.value) > feed.maxDeviationBps {
        return Err(PriceOutOfBounds);
      }
      feed := feed.(price := median.value);
      feed := feed.(publishTs := now);
      data := feed;
      r := Ok(());
    }

    method Add(caller: Pubkey, signed: bool, publisher: Pubkey) returns (r: Result<()>)
      modifies this
      ensures Tracks(r, Oracle.Apply(old(data), Op.Add(caller, signed, publisher)), old(data), data)
    {
      var feed := data;
      :- Need(feed.isInitialized, NotInitialized);
      :- Need(signed, MissingSigner);
      :- Need(caller == feed.authority, Unauthorized);
      var k := FindPublisher(feed.submissions, publisher);
      :- Need(k == |feed.submissions|, AlreadyInitialized);
      :- Need(|feed.submissions| < MAX_PUBLISHERS, InvalidInstruction);
      feed := feed.(submissions := feed.submissions + [Submission(publisher, 0, 0)]);
      data := feed;
      r := Ok(());
    }

    method Remove(caller: Pubkey, signed: bool, publisher: Pubkey) returns (r: Result<()>)
      modifies this
      ensures Tracks(r, Oracle.Apply(old(data), Op.Remove(caller, signed, publisher)), old(data), data)
    {
      var feed := data;
      :- Need(feed.isInitialized, NotInitialized);
      :- Need(signed, MissingSigner);
      :- Need(caller == feed.authority, Unauthorized);
      :- Need(publisher != feed.authority, InvalidInstruction);
      var before := |feed.submissions|;
      var kept := Retain(feed.submissions, publisher);
      :- Need(|kept| != before, InvalidAccountData);
      feed := feed.(submissions := kept);
      data := feed;
      r := Ok(());
    }
  }
}
