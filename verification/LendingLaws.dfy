/** Whom settlements pay and when, and where every bid goes. */
module LendingLaws {
  import opened Common
  import opened Accounts
  import opened Lending

  // ---- settlements follow the loan's terms ----

  /** The loan carries the terms of the bid it took, and nothing repaid. */
  predicate TermsOfBid(l: Loan, b: Bid) {
    && l.loanValue == b.loanValue && l.loanPeriod == b.loanPeriod && l.interestRateBps == b.interestRateBps
    && l.lenderOrdinals == b.lenderOrdinals && l.lenderPayments == b.lenderPayments && l.repaid == 0
  }

  /**
   Payments go to the lender in time, the inscription back to the borrower in
   time, or to the lender once the period has run out.
   */
  predicate SettlesLoan(s: Settlement, at: u64, l: Loan) {
    match s.kind
    case Repayment => s.recipient == l.lenderPayments && s.amount > 0 && at <= l.startedAt + l.loanPeriod
    case ReturnInscription =>
      s.recipient == l.borrowerOrdinals && s.utxo == l.inscriptionUtxo && s.amount == 0
      && at <= l.startedAt + l.loanPeriod
    case SeizeInscription =>
      s.recipient == l.lenderOrdinals && s.utxo == l.inscriptionUtxo && s.amount == 0
      && l.startedAt + l.loanPeriod < at
  }

  ghost predicate EventOk(before: seq<Event>, e: Event) {
    match e
    case Accepted(_, loan, bid) => TermsOfBid(loan, bid)
    case Emitted(s, at) =>
      LatestLoan(before, s.inscription).Some? && SettlesLoan(s, at, LatestLoan(before, s.inscription).value)
    case _ => true
  }

  /** Every event of the history agrees with what went before it. */
  ghost predicate HistoryOk(log: seq<Event>)
    decreases |log|
  {
    log != [] ==> HistoryOk(log[..|log| - 1]) && EventOk(log[..|log| - 1], log[|log| - 1])
  }

  lemma HistorySnoc(log: seq<Event>, e: Event)
    requires HistoryOk(log) && EventOk(log, e)
    ensures HistoryOk(log + [e])
  {
    assert (log + [e])[..|log|] == log;
  }

  lemma ClaimFollowsTerms(w: World, op: Op)
    requires Inv(w) && HistoryOk(w.log) && op.ClaimDefault? && Apply(w.coll, op).Ok?
    ensures HistoryOk(Step(w, op).log)
  {
    hide RepaymentDue, ReturnsPaid;
    var w', l := Step(w, op), w.coll.loans[op.inscription];
    assert LoanOk(w, op.inscription);
    var e := Emitted(Settlement(SeizeInscription, op.inscription, l.inscriptionUtxo, l.lenderOrdinals, 0), op.now);
    assert Queued(w.coll, w'.coll) == [e.settlement];
    assert w'.log == w.log + [e];
    HistorySnoc(w.log, e);
  }

  lemma RepayFollowsTerms(w: World, op: Op)
    requires Inv(w) && HistoryOk(w.log) && op.RepayLoan? && Apply(w.coll, op).Ok?
    ensures HistoryOk(Step(w, op).log)
  {
    hide RepaymentDue, ReturnsPaid;
    var w', id, l := Step(w, op), op.inscription, w.coll.loans[op.inscription];
    assert LoanOk(w, id);
    var s := RepaySettlements(id, l, op.utxo, op.amount);
    var paid := Emitted(s[0], op.now);
    var mid := w.log + [paid];
    assert Queued(w.coll, w'.coll) == s;
    HistorySnoc(w.log, paid);
    Snoc(w.log, paid, id);
    if |s| == 1 {
      assert w'.log == mid;
    } else {
      var freed := Emitted(s[1], op.now);
      assert w'.log == mid + [freed];
      HistorySnoc(mid, freed);
    }
  }

  lemma BidsFollowTerms(w: World, op: Op)
    requires HistoryOk(w.log) && Possible(w.coll, op) && !op.RepayLoan? && !op.ClaimDefault?
    ensures HistoryOk(Step(w, op).log)
  {
    var w' := Step(w, op);
    if Apply(w.coll, op).Ok? {
      var events := Events(w.coll, op);
      if events == [] {
        assert w'.log == w.log;
      } else {
        assert events == [events[0]];
        HistorySnoc(w.log, events[0]);
      }
    }
  }

  lemma StepFollowsTerms(w: World, op: Op)
    requires Inv(w) && HistoryOk(w.log) && Possible(w.coll, op)
    ensures HistoryOk(Step(w, op).log)
  {
    hide Inv, HistoryOk;
    if op.RepayLoan? && Apply(w.coll, op).Ok? {
      RepayFollowsTerms(w, op);
    } else if op.ClaimDefault? && Apply(w.coll, op).Ok? {
      ClaimFollowsTerms(w, op);
    } else if !op.RepayLoan? && !op.ClaimDefault? {
      BidsFollowTerms(w, op);
    }
  }

  /**
   Over every run of a named collection, each settlement is the one its loan's
   terms call for: right recipient, right output, right side of the deadline.
   */
  lemma {:induction false} SettlementsFollowTerms(w: World, ops: seq<Op>)
    requires Inv(w) && HistoryOk(w.log) && PossibleRun(w, ops)
    ensures HistoryOk(Run(w, ops).log)
    decreases |ops|
  {
    hide Inv, Step, HistoryOk;
    if ops != [] {
      StepFollowsTerms(w, ops[0]);
      StepInv(w, ops[0]);
      SettlementsFollowTerms(Step(w, ops[0]), ops[1..]);
    }
  }

  // ---- every bid is open, cancelled or lent ----

  function CountPlaced(log: seq<Event>, u: Utxo): nat
    decreases |log|
  {
    if log == [] then 0
    else CountPlaced(log[..|log| - 1], u) + if log[|log| - 1] == Placed(u) then 1 else 0
  }

  function CountCancelled(log: seq<Event>, u: Utxo): nat
    decreases |log|
  {
    if log == [] then 0
    else CountCancelled(log[..|log| - 1], u) + if log[|log| - 1] == Cancelled(u) then 1 else 0
  }

  predicate Lends(e: Event, u: Utxo) {
    e.Accepted? && e.bid.utxo == u
  }

  function CountLent(log: seq<Event>, u: Utxo): nat
    decreases |log|
  {
    if log == [] then 0
    else CountLent(log[..|log| - 1], u) + if Lends(log[|log| - 1], u) then 1 else 0
  }

  ghost predicate BidsOk(w: World) {
    && (forall u :: u in w.coll.bids ==> w.coll.bids[u].utxo == u)
    && (forall u :: CountPlaced(w.log, u)
                    == CountCancelled(w.log, u) + CountLent(w.log, u) + if u in w.coll.bids then 1 else 0)
  }

  lemma BidSnoc(log: seq<Event>, e: Event, u: Utxo)
    ensures CountPlaced(log + [e], u) == CountPlaced(log, u) + if e == Placed(u) then 1 else 0
    ensures CountCancelled(log + [e], u) == CountCancelled(log, u) + if e == Cancelled(u) then 1 else 0
    ensures CountLent(log + [e], u) == CountLent(log, u) + if Lends(e, u) then 1 else 0
  {
    assert (log + [e])[..|log|] == log;
  }

  lemma {:induction false} EmissionsMoveNoBids(log: seq<Event>, s: seq<Settlement>, at: u64, u: Utxo)
    ensures CountPlaced(log + Emissions(s, at), u) == CountPlaced(log, u)
    ensures CountCancelled(log + Emissions(s, at), u) == CountCancelled(log, u)
    ensures CountLent(log + Emissions(s, at), u) == CountLent(log, u)
    decreases |s|
  {
    if s == [] {
      assert log + Emissions(s, at) == log;
    } else {
      var init, last := s[..|s| - 1], s[|s| - 1];
      assert log + Emissions(s, at) == (log + Emissions(init, at)) + [Emitted(last, at)];
      BidSnoc(log + Emissions(init, at), Emitted(last, at), u);
      EmissionsMoveNoBids(log, init, at, u);
    }
  }

  lemma BiddingKeepsBids(w: World, op: Op)
    requires w.coll.name != "" && BidsOk(w) && Possible(w.coll, op) && Apply(w.coll, op).Ok?
    requires !op.RepayLoan? && !op.ClaimDefault?
    ensures BidsOk(Step(w, op))
  {
    var w', events := Step(w, op), Events(w.coll, op);
    if op.Drain? {
      assert w'.log == w.log;
    } else {
      assert events == [events[0]];
      forall u
        ensures CountPlaced(w'.log, u)
                == CountCancelled(w'.log, u) + CountLent(w'.log, u) + if u in w'.coll.bids then 1 else 0
      {
        BidSnoc(w.log, events[0], u);
      }
    }
  }

  lemma SettlingKeepsBids(w: World, op: Op)
    requires BidsOk(w) && (op.RepayLoan? || op.ClaimDefault?) && Apply(w.coll, op).Ok?
    ensures BidsOk(Step(w, op))
  {
    hide RepaymentDue;
    var w' := Step(w, op);
    forall u
      ensures CountPlaced(w'.log, u)
              == CountCancelled(w'.log, u) + CountLent(w'.log, u) + if u in w'.coll.bids then 1 else 0
    {
      EmissionsMoveNoBids(w.log, Queued(w.coll, w'.coll), op.now, u);
    }
  }

  /** Over every run of a named collection, each bid ever placed is open, cancelled or lent, exactly once. */
  lemma {:induction false} BidsAreConserved(w: World, ops: seq<Op>)
    requires Inv(w) && BidsOk(w) && PossibleRun(w, ops)
    ensures BidsOk(Run(w, ops))
    decreases |ops|
  {
    hide Step, BidsOk, ReturnsPaid, LoanOk;
    if ops != [] {
      StepInv(w, ops[0]);
      if Apply(w.coll, ops[0]).Err? {
        FailureChangesNothing(w, ops[0]);
      } else if ops[0].RepayLoan? || ops[0].ClaimDefault? {
        SettlingKeepsBids(w, ops[0]);
      } else {
        BiddingKeepsBids(w, ops[0]);
      }
      BidsAreConserved(Step(w, ops[0]), ops[1..]);
    }
  }

  lemma FailureChangesNothing(w: World, op: Op)
    requires Possible(w.coll, op) && Apply(w.coll, op).Err?
    ensures Step(w, op) == w
  {
  }

  // ---- one instruction ----

  /** A collection is set up blank, and only while it has no name. */
  lemma InitLaw(c: Collection, name: string)
    ensures var r := Apply(c, InitCollection(name));
            (r.Ok? <==> c.name == "") && (r.Ok? ==> r.value == Collection(name, map[], map[], []))
  {
  }

  /** A bid is stored as given under an unused output, and can be taken back; the node takes the queue and nothing else. */
  lemma BidLaw(c: Collection, bid: Bid)
    requires bid.utxo !in c.bids
    ensures var placed := Apply(c, PlaceBid(bid));
            && placed.Ok? && bid.utxo in placed.value.bids && placed.value.bids[bid.utxo] == bid
            && Apply(placed.value, PlaceBid(bid)) == Err(AlreadyInitialized)
            && Apply(placed.value, CancelBid(bid.utxo)) == Ok(c)
            && Apply(c, CancelBid(bid.utxo)) == Err(NotInitialized)
            && Apply(c, Drain) == Ok(Collection(c.name, c.bids, c.loans, []))
  {
    assert c.bids[bid.utxo := bid] - {bid.utxo} == c.bids;
  }

  /** Accepting pledges the inscription and output offered, from now, against a best bid. */
  lemma AcceptLaw(c: Collection, op: Op)
    requires op.AcceptBid? && Possible(c, op)
    ensures Apply(c, op).Ok? <==> c.bids != map[] && op.inscription !in c.loans
    ensures Apply(c, op).Ok? ==>
            var c', id := Apply(c, op).value, op.inscription;
            && id !in c.loans && id in c'.loans && op.choice in c.bids
            && (forall u :: u in c.bids ==> c.bids[u].loanValue <= c'.loans[id].loanValue)
            && c'.loans[id].inscriptionUtxo == op.inscriptionUtxo
            && c'.loans[id].borrowerOrdinals == op.borrowerOrdinals
            && c'.loans[id].borrowerPayments == op.borrowerPayments
            && c'.loans[id].startedAt == op.now
            && c'.loans - {id} == c.loans && c'.pending == c.pending
  {
    if Apply(c, op).Ok? {
      assert (c.loans[op.inscription := Apply(c, op).value.loans[op.inscription]]) - {op.inscription} == c.loans;
    }
  }

  /** A repayment in time is taken, forwards itself and touches no other loan; what it makes due closes the loan. */
  lemma RepayLaw(c: Collection, id: string, utxo: Utxo, amount: u64, now: u64)
    requires id in c.loans
    ensures var l, r := c.loans[id], Apply(c, RepayLoan(id, utxo, amount, now));
            && (r.Ok? <==> amount > 0 && now <= l.startedAt + l.loanPeriod)
            && (r.Ok? ==>
                  && |c.pending| < |r.value.pending| && r.value.pending[..|c.pending|] == c.pending
                  && r.value.pending[|c.pending|] == Settlement(Repayment, id, utxo, l.lenderPayments, amount)
                  && (id !in r.value.loans <==> Min(l.repaid + amount, U64_MAX) >= RepaymentDue(l))
                  && r.value.loans - {id} == c.loans - {id} && r.value.bids == c.bids)
  {
    hide RepaymentDue;
  }

  /** A claim succeeds exactly once the period has run out. */
  lemma ClaimLaw(c: Collection, id: string, now: u64)
    requires id in c.loans
    ensures var l, r := c.loans[id], Apply(c, ClaimDefault(id, now));
            && (r.Ok? <==> l.startedAt + l.loanPeriod < now)
            && (r.Ok? ==> r.value.loans == c.loans - {id} && r.value.bids == c.bids)
  {
  }
}
