/** Ordinals lending: bids, loans and the settlement queue of one named collection. */
module Lending {
  import opened Common
  import opened Accounts

  const BPS: nat := 10_000

  datatype SettlementKind = ReturnInscription | SeizeInscription | Repayment

  datatype Settlement = Settlement(
    kind: SettlementKind, inscription: string, utxo: Utxo, recipient: string, amount: u64)

  datatype Bid = Bid(
    utxo: Utxo,
    loanValue: u64,
    loanPeriod: u64,
    interestRateBps: u64,
    lenderOrdinals: string,
    lenderPayments: string)

  datatype Loan = Loan(
    inscriptionUtxo: Utxo,
    loanValue: u64,
    loanPeriod: u64,
    interestRateBps: u64,
    lenderOrdinals: string,
    lenderPayments: string,
    borrowerOrdinals: string,
    borrowerPayments: string,
    startedAt: u64,
    repaid: u64)

  /** Bids are keyed by the lender's UTXO, loans by inscription. */
  datatype Collection = Collection(
    name: string,
    bids: map<Utxo, Bid>,
    loans: map<string, Loan>,
    pending: seq<Settlement>)

  // ---- amounts ----

  function SaturatingMul(a: u64, b: u64): u64 {
    if a * b <= U64_MAX then a * b else U64_MAX
  }

  function SaturatingAdd(a: u64, b: u64): u64 {
    if a + b <= U64_MAX then a + b else U64_MAX
  }

  /** `repayment_due`: a saturating product, and a sum that wraps. */
  function RepaymentDue(l: Loan): u64 {
    Trunc64(l.loanValue + SaturatingMul(l.loanValue, l.interestRateBps) / BPS)
  }

  /** Principal plus the flat term interest, rounded down. */
  function PrincipalPlusInterest(l: Loan): nat {
    l.loanValue + MulDiv(l.loanValue, l.interestRateBps, BPS)
  }

  /** The code asks for principal plus interest exactly when the terms fit the machine. */
  lemma DueExactIff(l: Loan)
    ensures RepaymentDue(l) == PrincipalPlusInterest(l)
            <==> MulDiv(l.loanValue, l.interestRateBps, BPS) <= U64_MAX / BPS
                 && PrincipalPlusInterest(l) <= U64_MAX
    ensures RepaymentDue(l) <= PrincipalPlusInterest(l)
  {
    var exact := l.loanValue * l.interestRateBps;
    FloorBounds(exact, BPS);
    if exact <= U64_MAX {
      FloorMono(exact, U64_MAX, BPS);
    } else {
      FloorMono(U64_MAX, exact, BPS);
    }
  }

  /** A loan of almost 2^64 sats at 1% is due back for less than 1% of its principal. */
  lemma DueCanWrap(l: Loan)
    requires l.loanValue == U64_MAX && l.interestRateBps == 100
    ensures RepaymentDue(l) * 100 < l.loanValue
  {
  }

  // ---- instructions ----

  /**
   `choice` is the bid that hash-map order happens to offer among the best ones;
   `now` is the submitter's timestamp. `Drain` is the node taking the queue.
   */
  datatype Op =
    | InitCollection(name: string)
    | PlaceBid(bid: Bid)
    | CancelBid(utxo: Utxo)
    | AcceptBid(inscription: string, inscriptionUtxo: Utxo, borrowerOrdinals: string, borrowerPayments: string,
                now: u64, choice: Utxo)
    | RepayLoan(inscription: string, utxo: Utxo, amount: u64, now: u64)
    | ClaimDefault(inscription: string, now: u64)
    | Drain

  predicate IsBest(bids: map<Utxo, Bid>, choice: Utxo) {
    choice in bids && forall u :: u in bids ==> bids[u].loanValue <= bids[choice].loanValue
  }

  /** With no tie at the top, hash order cannot change the outcome. */
  lemma BestBidDeterministic(bids: map<Utxo, Bid>, x: Utxo, y: Utxo)
    requires IsBest(bids, x) && IsBest(bids, y)
    requires forall u :: u in bids && u != x ==> bids[u].loanValue != bids[x].loanValue
    ensures x == y
  {
  }

  function NewLoan(b: Bid, inscriptionUtxo: Utxo, borrowerOrdinals: string, borrowerPayments: string, now: u64): Loan {
    Loan(inscriptionUtxo, b.loanValue, b.loanPeriod, b.interestRateBps, b.lenderOrdinals, b.lenderPayments,
         borrowerOrdinals, borrowerPayments, now, 0)
  }

  function Elapsed(l: Loan, now: u64): nat {
    SaturatingSub(now, l.startedAt)
  }

  /** The settlements a repayment queues: the payment, and the return once fully repaid. */
  function RepaySettlements(id: string, l: Loan, utxo: Utxo, amount: u64): seq<Settlement> {
    var paid := SaturatingAdd(l.repaid, amount);
    [Settlement(Repayment, id, utxo, l.lenderPayments, amount)]
    + if paid >= RepaymentDue(l) then [Settlement(ReturnInscription, id, l.inscriptionUtxo, l.borrowerOrdinals, 0)] else []
  }

  function ApplyAccept(c: Collection, op: Op): Result<Collection>
    requires op.AcceptBid? && (c.bids != map[] ==> IsBest(c.bids, op.choice))
  {
    if |c.bids| == 0 then Err(NotInitialized) else
    :- Need(op.inscription !in c.loans, AlreadyInitialized);
    var bid := c.bids[op.choice];
    Ok(c.(bids := c.bids - {op.choice},
          loans := c.loans[op.inscription :=
            NewLoan(bid, op.inscriptionUtxo, op.borrowerOrdinals, op.borrowerPayments, op.now)]))
  }

  function ApplyRepay(c: Collection, id: string, utxo: Utxo, amount: u64, now: u64): Result<Collection> {
    if id !in c.loans then Err(NotInitialized) else
    var l := c.loans[id];
    :- Need(Elapsed(l, now) <= l.loanPeriod, LoanExpired);
    :- Need(amount != 0, InvalidInstruction);
    var paid := SaturatingAdd(l.repaid, amount);
    Ok(c.(pending := c.pending + RepaySettlements(id, l, utxo, amount),
          loans := if paid >= RepaymentDue(l) then c.loans - {id} else c.loans[id := l.(repaid := paid)]))
  }

  function ApplyClaim(c: Collection, id: string, now: u64): Result<Collection> {
    if id !in c.loans then Err(NotInitialized) else
    var l := c.loans[id];
    :- Need(Elapsed(l, now) > l.loanPeriod, LoanNotExpired);
    Ok(c.(pending := c.pending + [Settlement(SeizeInscription, id, l.inscriptionUtxo, l.lenderOrdinals, 0)],
          loans := c.loans - {id}))
  }

  /** The choice, if one is made, is among the best bids. */
  predicate Possible(c: Collection, op: Op) {
    op.AcceptBid? && c.bids != map[] ==> IsBest(c.bids, op.choice)
  }

  function Apply(c: Collection, op: Op): Result<Collection>
    requires Possible(c, op)
  {
    match op
    case InitCollection(name) => if c.name != "" then Err(AlreadyInitialized) else Ok(Collection(name, map[], map[], []))
    case PlaceBid(bid) =>
      if bid.utxo in c.bids then Err(AlreadyInitialized) else Ok(c.(bids := c.bids[bid.utxo := bid]))
    case CancelBid(utxo) => if utxo !in c.bids then Err(NotInitialized) else Ok(c.(bids := c.bids - {utxo}))
    case AcceptBid(_, _, _, _, _, _) => ApplyAccept(c, op)
    case RepayLoan(id, utxo, amount, now) => ApplyRepay(c, id, utxo, amount, now)
    case ClaimDefault(id, now) => ApplyClaim(c, id, now)
    case Drain => Ok(c.(pending := []))
  }

  // ---- history ----

  /** Loans with the bid they took, settlements with the time they were queued, and bids coming and going. */
  datatype Event =
    | Accepted(inscription: string, loan: Loan, bid: Bid)
    | Emitted(settlement: Settlement, at: u64)
    | Placed(utxo: Utxo)
    | Cancelled(utxo: Utxo)

  function Emissions(s: seq<Settlement>, at: u64): (e: seq<Event>)
    ensures |e| == |s|
  {
    seq(|s|, i requires 0 <= i < |s| => Emitted(s[i], at))
  }

  /** What an instruction appended to the queue. */
  function Queued(before: Collection, after: Collection): seq<Settlement> {
    if |before.pending| <= |after.pending| then after.pending[|before.pending|..] else []
  }

  /** What a successful instruction adds to the history. */
  function Events(c: Collection, op: Op): seq<Event>
    requires Possible(c, op) && Apply(c, op).Ok?
  {
    var after := Apply(c, op).value;
    match op
    case InitCollection(_) => []
    case PlaceBid(bid) => [Placed(bid.utxo)]
    case CancelBid(utxo) => [Cancelled(utxo)]
    case AcceptBid(id, _, _, _, _, choice) =>
      if id in after.loans && choice in c.bids then [Accepted(id, after.loans[id], c.bids[choice])] else []
    case RepayLoan(_, _, _, now) => Emissions(Queued(c, after), now)
    case ClaimDefault(_, now) => Emissions(Queued(c, after), now)
    case Drain => []
  }

  /** A collection with everything ever accepted or emitted. */
  datatype World = World(coll: Collection, log: seq<Event>)

  function Step(w: World, op: Op): World
    requires Possible(w.coll, op)
  {
    var r := Apply(w.coll, op);
    if r.Ok? then World(r.value, w.log + Events(w.coll, op)) else w
  }

  predicate PossibleRun(w: World, ops: seq<Op>)
    decreases |ops|
  {
    ops != [] ==> Possible(w.coll, ops[0]) && PossibleRun(Step(w, ops[0]), ops[1..])
  }

  function Run(w: World, ops: seq<Op>): World
    requires PossibleRun(w, ops)
    decreases |ops|
  {
    if ops == [] then w else Run(Step(w, ops[0]), ops[1..])
  }

  predicate IsAccept(e: Event, id: string) {
    e.Accepted? && e.inscription == id
  }

  /** The inscription leaves custody: returned or seized. */
  predicate IsRelease(e: Event, id: string) {
    e.Emitted? && e.settlement.inscription == id && !e.settlement.kind.Repayment?
  }

  function Accepts(log: seq<Event>, id: string): nat
    decreases |log|
  {
    if log == [] then 0
    else Accepts(log[..|log| - 1], id) + if IsAccept(log[|log| - 1], id) then 1 else 0
  }

  function Releases(log: seq<Event>, id: string): nat
    decreases |log|
  {
    if log == [] then 0
    else Releases(log[..|log| - 1], id) + if IsRelease(log[|log| - 1], id) then 1 else 0
  }

  /** The terms of the inscription's latest loan. */
  function LatestLoan(log: seq<Event>, id: string): Option<Loan>
    decreases |log|
  {
    if log == [] then None
    else if IsAccept(log[|log| - 1], id) then Some(log[|log| - 1].loan)
    else LatestLoan(log[..|log| - 1], id)
  }

  /** Sats forwarded for the inscription since its latest loan began. */
  function RepaidSince(log: seq<Event>, id: string): nat
    decreases |log|
  {
    if log == [] then 0 else
    var e := log[|log| - 1];
    if IsAccept(e, id) then 0
    else RepaidSince(log[..|log| - 1], id)
         + if e.Emitted? && e.settlement.inscription == id && e.settlement.kind.Repayment? then e.settlement.amount else 0
  }

  /** Every return in the history had its loan's due amount forwarded before it. */
  ghost predicate ReturnsPaid(log: seq<Event>)
    decreases |log|
  {
    log != [] ==>
      var init, e := log[..|log| - 1], log[|log| - 1];
      && ReturnsPaid(init)
      && (e.Emitted? && e.settlement.kind.ReturnInscription? ==>
            var l := LatestLoan(init, e.settlement.inscription);
            l.Some? && RepaymentDue(l.value) <= RepaidSince(init, e.settlement.inscription))
  }

  // ---- settlement exactly once ----

  ghost predicate LoanOk(w: World, id: string) {
    && Accepts(w.log, id) == Releases(w.log, id) + (if id in w.coll.loans then 1 else 0)
    && (id in w.coll.loans ==>
          && LatestLoan(w.log, id) == Some(w.coll.loans[id].(repaid := 0))
          && w.coll.loans[id].repaid == RepaidSince(w.log, id)
          && (w.coll.loans[id].repaid > 0 ==> w.coll.loans[id].repaid < RepaymentDue(w.coll.loans[id])))
  }

  ghost predicate Inv(w: World) {
    && w.coll.name != ""
    && (forall id :: LoanOk(w, id))
    && ReturnsPaid(w.log)
  }

  /** One more event, seen by each of the counting functions. */
  lemma Snoc(log: seq<Event>, e: Event, id: string)
    ensures Accepts(log + [e], id) == Accepts(log, id) + if IsAccept(e, id) then 1 else 0
    ensures Releases(log + [e], id) == Releases(log, id) + if IsRelease(e, id) then 1 else 0
    ensures LatestLoan(log + [e], id) == if IsAccept(e, id) then Some(e.loan) else LatestLoan(log, id)
    ensures RepaidSince(log + [e], id)
            == if IsAccept(e, id) then 0
               else RepaidSince(log, id)
                    + if e.Emitted? && e.settlement.inscription == id && e.settlement.kind.Repayment?
                      then e.settlement.amount else 0
  {
    assert (log + [e])[..|log|] == log;
  }

  lemma SnocPaid(log: seq<Event>, e: Event)
    requires ReturnsPaid(log)
    requires e.Emitted? && e.settlement.kind.ReturnInscription? ==>
               var l := LatestLoan(log, e.settlement.inscription);
               l.Some? && RepaymentDue(l.value) <= RepaidSince(log, e.settlement.inscription)
    ensures ReturnsPaid(log + [e])
  {
    assert (log + [e])[..|log|] == log;
  }

  lemma AcceptInv(w: World, op: Op)
    requires Inv(w) && op.AcceptBid? && Possible(w.coll, op) && Apply(w.coll, op).Ok?
    ensures Inv(Step(w, op))
  {
    var w' := Step(w, op);
    var e := Accepted(op.inscription, w'.coll.loans[op.inscription], w.coll.bids[op.choice]);
    assert w'.log == w.log + [e];
    SnocPaid(w.log, e);
    forall id
      ensures LoanOk(w', id)
    {
      assert LoanOk(w, id);
      Snoc(w.log, e, id);
    }
  }

  lemma ClaimInv(w: World, op: Op)
    requires Inv(w) && op.ClaimDefault? && Apply(w.coll, op).Ok?
    ensures Inv(Step(w, op))
  {
    var w', l := Step(w, op), w.coll.loans[op.inscription];
    var e := Emitted(Settlement(SeizeInscription, op.inscription, l.inscriptionUtxo, l.lenderOrdinals, 0), op.now);
    assert Queued(w.coll, w'.coll) == [e.settlement];
    assert w'.log == w.log + [e];
    SnocPaid(w.log, e);
    forall id
      ensures LoanOk(w', id)
    {
      assert LoanOk(w, id);
      Snoc(w.log, e, id);
    }
  }

  /** A repayment that leaves the loan open. */
  lemma PartRepayInv(w: World, op: Op)
    requires Inv(w) && op.RepayLoan? && Apply(w.coll, op).Ok?
    requires op.inscription in Apply(w.coll, op).value.loans
    ensures Inv(Step(w, op))
  {
    hide RepaymentDue, ReturnsPaid;
    var w' := Step(w, op);
    var s := RepaySettlements(op.inscription, w.coll.loans[op.inscription], op.utxo, op.amount);
    var e := Emitted(s[0], op.now);
    assert Queued(w.coll, w'.coll) == s;
    assert w'.log == w.log + [e];
    SnocPaid(w.log, e);
    DueIgnoresRepaid(w.coll.loans[op.inscription]);
    DueIgnoresRepaid(w'.coll.loans[op.inscription]);
    forall id
      ensures LoanOk(w', id)
    {
      assert LoanOk(w, id);
      Snoc(w.log, e, id);
    }
  }

  /** A repayment that closes the loan. */
  lemma FullRepayInv(w: World, op: Op)
    requires Inv(w) && op.RepayLoan? && Apply(w.coll, op).Ok?
    requires op.inscription !in Apply(w.coll, op).value.loans
    ensures Inv(Step(w, op))
  {
    hide RepaymentDue, ReturnsPaid;
    var w' := Step(w, op);
    var l := w.coll.loans[op.inscription];
    var s := RepaySettlements(op.inscription, l, op.utxo, op.amount);
    var paid, freed := Emitted(s[0], op.now), Emitted(s[1], op.now);
    var mid := w.log + [paid];
    assert Queued(w.coll, w'.coll) == s;
    assert Emissions(s, op.now) == [paid, freed];
    assert w'.log == mid + [freed];
    SnocPaid(w.log, paid);
    assert LoanOk(w, op.inscription);
    Snoc(w.log, paid, op.inscription);
    DueIgnoresRepaid(l);
    SnocPaid(mid, freed);
    forall id
      ensures LoanOk(w', id)
    {
      assert LoanOk(w, id);
      Snoc(w.log, paid, id);
      Snoc(mid, freed, id);
    }
  }

  lemma DueIgnoresRepaid(l: Loan)
    ensures RepaymentDue(l.(repaid := 0)) == RepaymentDue(l)
  {
  }

  /** Bidding and cancelling touch neither loans nor settlements, draining not even the history. */
  lemma QuietInv(w: World, op: Op)
    requires Inv(w) && (op.PlaceBid? || op.CancelBid? || op.Drain?)
    ensures Inv(Step(w, op))
  {
    var w' := Step(w, op);
    if op.Drain? || Apply(w.coll, op).Err? {
      assert w.log + [] == w.log;
    } else {
      var e := Events(w.coll, op)[0];
      assert w'.log == w.log + [e];
      SnocPaid(w.log, e);
    }
    forall id
      ensures LoanOk(w', id)
    {
      assert LoanOk(w, id);
      if w'.log != w.log {
        Snoc(w.log, Events(w.coll, op)[0], id);
      }
    }
  }

  lemma StepInv(w: World, op: Op)
    requires Inv(w) && Possible(w.coll, op)
    ensures Inv(Step(w, op))
  {
    if op.PlaceBid? || op.CancelBid? || op.Drain? {
      QuietInv(w, op);
    } else if Apply(w.coll, op).Ok? {
      if op.AcceptBid? {
        AcceptInv(w, op);
      } else if op.ClaimDefault? {
        ClaimInv(w, op);
      } else if op.inscription in Apply(w.coll, op).value.loans {
        PartRepayInv(w, op);
      } else {
        FullRepayInv(w, op);
      }
    }
  }

  lemma {:induction false} RunInv(w: World, ops: seq<Op>)
    requires Inv(w) && PossibleRun(w, ops)
    ensures Inv(Run(w, ops))
    decreases |ops|
  {
    hide Inv, Step;
    if ops != [] {
      StepInv(w, ops[0]);
      RunInv(Step(w, ops[0]), ops[1..]);
    }
  }

  /**
   Exactly once: over every run of a named collection, an inscription's accepted
   bids are its active loan plus the returns and seizures ever emitted, and each
   return had the loan's due amount forwarded to the lender first.
   */
  lemma SettledExactlyOnce(name: string, ops: seq<Op>, id: string)
    requires name != "" && PossibleRun(World(Collection(name, map[], map[], []), []), ops)
    ensures var w := Run(World(Collection(name, map[], map[], []), []), ops);
            && Accepts(w.log, id) == Releases(w.log, id) + (if id in w.coll.loans then 1 else 0)
            && ReturnsPaid(w.log)
  {
    var w := World(Collection(name, map[], map[], []), []);
    assert Inv(w);
    RunInv(w, ops);
    assert LoanOk(Run(w, ops), id);
  }

  /** At any moment before a return, what was forwarded covers principal plus interest, if it fits. */
  lemma {:induction false} ReturnsCoverPrincipal(log: seq<Event>, i: nat)
    requires ReturnsPaid(log) && i < |log|
    requires log[i].Emitted? && log[i].settlement.kind.ReturnInscription?
    ensures var id := log[i].settlement.inscription;
            var l := LatestLoan(log[..i], id);
            && l.Some?
            && RepaymentDue(l.value) <= RepaidSince(log[..i], id)
            && (MulDiv(l.value.loanValue, l.value.interestRateBps, BPS) <= U64_MAX / BPS
                && PrincipalPlusInterest(l.value) <= U64_MAX
                ==> PrincipalPlusInterest(l.value) <= RepaidSince(log[..i], id))
    decreases |log|
  {
    hide RepaymentDue, PrincipalPlusInterest;
    var init := log[..|log| - 1];
    if i == |log| - 1 {
      assert log[..i] == init;
      DueExactIff(LatestLoan(init, log[i].settlement.inscription).value);
    } else {
      assert init[..i] == log[..i] && init[i] == log[i];
      ReturnsCoverPrincipal(init, i);
    }
  }

  /** The collection has to be named: re-initialising an unnamed one drops an open loan unsettled. */
  lemma UnnamedReinitDropsLoan(w: World, name: string, id: string)
    requires w.coll.name == "" && id in w.coll.loans && LoanOk(w, id)
    ensures !LoanOk(Step(w, InitCollection(name)), id)
  {
    assert w.log + [] == w.log;
  }
}
