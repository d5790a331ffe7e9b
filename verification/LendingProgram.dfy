/** The lending program as it runs: the collection's maps and queue changed in place. */
module LendingProgram {
  import opened Common
  import opened Accounts
  import opened Lending

  /** `max_by_key` over the bids, walked in no particular order. */
  method PickBest(bids: map<Utxo, Bid>) returns (best: Utxo)
    requires bids != map[]
    ensures IsBest(bids, best)
  {
    var rest := bids.Keys;
    assert rest != {};
    best :| best in rest;
    rest := rest - {best};
    while rest != {}
      invariant rest <= bids.Keys && best in bids
      invariant forall u :: u in bids && u !in rest ==> bids[u].loanValue <= bids[best].loanValue
      decreases |rest|
    {
      var u :| u in rest;
      if bids[u].loanValue >= bids[best].loanValue {
        best := u;
      }
      rest := rest - {u};
    }
  }

  class CollectionAccount {
    var name: string
    var bids: map<Utxo, Bid>
    var activeLoans: map<string, Loan>
    var pending: seq<Settlement>

    function View(): Collection
      reads this
    {
      Collection(name, bids, activeLoans, pending)
    }

    constructor (name: string)
      ensures View() == Collection(name, map[], map[], [])
    {
      this.name, bids, activeLoans, pending := name, map[], map[], [];
    }

    method PlaceBid(bid: Bid) returns (r: Result<()>)
      modifies this
      ensures View() == Step(World(old(View()), []), Op.PlaceBid(bid)).coll
      ensures r.Ok? == Apply(old(View()), Op.PlaceBid(bid)).Ok?
      ensures r.Err? ==> Apply(old(View()), Op.PlaceBid(bid)) == Err(r.error)
    {
      if bid.utxo in bids {
        return Err(AlreadyInitialized);
      }
      bids := bids[bid.utxo := bid];
      r := Ok(());
    }

    method CancelBid(utxo: Utxo) returns (r: Result<()>)
      modifies this
      ensures View() == Step(World(old(View()), []), Op.CancelBid(utxo)).coll
      ensures r.Ok? == Apply(old(View()), Op.CancelBid(utxo)).Ok?
      ensures r.Err? ==> Apply(old(View()), Op.CancelBid(utxo)) == Err(r.error)
    {
      if utxo !in bids {
        return Err(NotInitialized);
      }
      bids := bids - {utxo};
      r := Ok(());
    }

    /** The accepted bid is one of the best; which one is not promised. */
    method AcceptBid(id: string, utxo: Utxo, borrowerOrdinals: string, borrowerPayments: string, now: u64)
      returns (r: Result<()>, ghost choice: Utxo)
      modifies this
      ensures var op := Op.AcceptBid(id, utxo, borrowerOrdinals, borrowerPayments, now, choice);
              && Possible(old(View()), op)
              && View() == Step(World(old(View()), []), op).coll
              && r.Ok? == Apply(old(View()), op).Ok?
              && (r.Err? ==> Apply(old(View()), op) == Err(r.error))
    {
      choice := utxo;
      if |bids| == 0 {
        return Err(NotInitialized), choice;
      }
      var best := PickBest(bids);
      choice := best;
      if id in activeLoans {
        return Err(AlreadyInitialized), choice;
      }
      var bid := bids[best];
      bids := bids - {best};
      activeLoans := activeLoans[id := NewLoan(bid, utxo, borrowerOrdinals, borrowerPayments, now)];
      r := Ok(());
    }

    method RepayLoan(id: string, utxo: Utxo, amount: u64, now: u64) returns (r: Result<()>)
      modifies this
      ensures View() == Step(World(old(View()), []), Op.RepayLoan(id, utxo, amount, now)).coll
      ensures r.Ok? == Apply(old(View()), Op.RepayLoan(id, utxo, amount, now)).Ok?
      ensures r.Err? ==> Apply(old(View()), Op.RepayLoan(id, utxo, amount, now)) == Err(r.error)
    {
      hide RepaymentDue;
      :- Need(id in activeLoans, NotInitialized);
      var loan := activeLoans[id];
      // A late or empty repayment leaves the loan in place.
      :- Need(Elapsed(loan, now) <= loan.loanPeriod, LoanExpired);
      :- Need(amount != 0, InvalidInstruction);
      ghost var loans0 := activeLoans;
      activeLoans := activeLoans - {id};
      loan := loan.(repaid := SaturatingAdd(loan.repaid, amount));
      DueIgnoresRepaid(loan);
      DueIgnoresRepaid(loans0[id]);
      pending := pending + [Settlement(Repayment, id, utxo, loan.lenderPayments, amount)];
      if loan.repaid >= RepaymentDue(loan) {
        pending := pending + [Settlement(ReturnInscription, id, loan.inscriptionUtxo, loan.borrowerOrdinals, 0)];
      } else {
        activeLoans := activeLoans[id := loan];
        assert activeLoans == loans0[id := loan];
      }
      assert pending == old(pending) + RepaySettlements(id, loans0[id], utxo, amount);
      r := Ok(());
    }

    method ClaimDefault(id: string, now: u64) returns (r: Result<()>)
      modifies this
      ensures View() == Step(World(old(View()), []), Op.ClaimDefault(id, now)).coll
      ensures r.Ok? == Apply(old(View()), Op.ClaimDefault(id, now)).Ok?
      ensures r.Err? ==> Apply(old(View()), Op.ClaimDefault(id, now)) == Err(r.error)
    {
      if id !in activeLoans {
        return Err(NotInitialized);
      }
      var loan := activeLoans[id];
      :- Need(Elapsed(loan, now) > loan.loanPeriod, LoanNotExpired);
      activeLoans := activeLoans - {id};
      pending := pending + [Settlement(SeizeInscription, id, loan.inscriptionUtxo, loan.lenderOrdinals, 0)];
      r := Ok(());
    }

    /** `take_settlements`: hands over the queue and leaves it empty. */
    method TakeSettlements() returns (taken: seq<Settlement>)
      modifies this
      ensures taken == old(pending)
      ensures View() == Step(World(old(View()), []), Drain).coll
    {
      taken := pending;
      pending := [];
    }
  }
}
