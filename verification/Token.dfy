/** The token program's balance moves, as the market, vault and pool call them. */
module Token {
  import opened Common

  /** The two balances after a transfer out of `source` into `dest`. */
  datatype Moved = Moved(source: u64, dest: u64)

  /** `Transfer`: the source must cover the amount and the destination must not overflow. */
  function Transfer(source: u64, dest: u64, amount: u64): (r: Result<Moved>)
    ensures r.Ok? <==> amount <= source && dest + amount <= U64_MAX
    ensures r.Ok? ==> r.value.source + r.value.dest == source + dest
    ensures r.Ok? ==> r.value.dest - dest == amount
  {
    var s :- CheckedSub(source, amount, InsufficientFunds);
    var d :- CheckedAdd(dest, amount);
    Ok(Moved(s, d))
  }

  /** A mint's supply and one holder's balance. */
  datatype Holding = Holding(supply: u64, balance: u64)

  /** `MintTo`: supply and balance grow together. */
  function MintTo(h: Holding, amount: u64): (r: Result<Holding>)
    ensures r.Ok? <==> h.supply + amount <= U64_MAX && h.balance + amount <= U64_MAX
    ensures r.Ok? ==> r.value.supply - r.value.balance == h.supply - h.balance
    ensures r.Ok? ==> r.value.balance - h.balance == amount
  {
    var s :- CheckedAdd(h.supply, amount);
    var b :- CheckedAdd(h.balance, amount);
    Ok(Holding(s, b))
  }

  /** `Burn`: undoes a mint of the same amount. */
  function Burn(h: Holding, amount: u64): (r: Result<Holding>)
    ensures r.Ok? <==> amount <= h.balance && amount <= h.supply
    ensures r.Ok? ==> MintTo(r.value, amount) == Ok(h)
  {
    var b :- CheckedSub(h.balance, amount, InsufficientFunds);
    var s :- CheckedSub(h.supply, amount, InsufficientFunds);
    Ok(Holding(s, b))
  }
}
