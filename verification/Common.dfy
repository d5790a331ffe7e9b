/** Results, machine integers, rounding and sums, shared by every component. */
module Common {

  datatype Option<+T> = None | Some(value: T)

  datatype Result<+T> = Ok(value: T) | Err(error: ProgramError) {

    predicate IsFailure() {
      Err?
    }

    function PropagateFailure<U>(): Result<U>
      requires Err?
    {
      Err(error)
    }

    function Extract(): T
      requires Ok?
    {
      value
    }
  }

  /** A check that either passes or fails the instruction. */
  datatype Check = Pass | Fail(error: ProgramError) {

    predicate IsFailure() {
      Fail?
    }

    function PropagateFailure<U>(): Result<U>
      requires Fail?
    {
      Err(error)
    }
  }

  function Need(condition: bool, error: ProgramError): Check {
    if condition then Pass else Fail(error)
  }

  datatype ProgramError =
    | InvalidInstruction
    | InvalidAccountData
    | InsufficientFunds
    | AlreadyInitialized
    | NotInitialized
    | NotEnoughAccounts
    | NotWritable
    | MissingSigner
    | Overflow
    | Unauthorized
    | CpiDepthExceeded
    | LoanNotExpired
    | LoanExpired
    | SlippageExceeded
    | PoolEmpty
    | Undercollateralized
    | InsufficientLiquidity
    | StalePrice
    | IllegalOwnerWrite
    | PriceOutOfBounds
    | ComputeExhausted
    | DuplicateWritableAccount
    | ProgramFailed(code: int)

  const U64_MAX: int := 0xFFFF_FFFF_FFFF_FFFF
  const U64_SPAN: int := 0x1_0000_0000_0000_0000
  const U128_SPAN: int := 0x1_0000_0000_0000_0000_0000_0000_0000_0000

  type u64 = x: int | 0 <= x < 0x1_0000_0000_0000_0000
  type u128 = x: int | 0 <= x < 0x1_0000_0000_0000_0000_0000_0000_0000_0000

  type Byte = x: int | 0 <= x < 256

  /** A 32-byte account key. */
  type Pubkey = s: seq<Byte> | |s| == 32 witness seq(32, _ => 0)

  /** The `as u64` cast: keeps the low 64 bits. */
  function Trunc64(x: nat): (r: u64)
    ensures r <= x
    ensures x < U64_SPAN ==> r == x
  {
    x % U64_SPAN
  }

  /** Unchecked `u128` arithmetic, which wraps in the release profile. */
  function Wrap128(x: nat): (r: u128)
    ensures r <= x
    ensures x < U128_SPAN ==> r == x
  {
    x % U128_SPAN
  }

  function CheckedAdd(a: u64, b: u64): Result<u64> {
    if a + b <= U64_MAX then Ok(a + b) else Err(Overflow)
  }

  function CheckedSub(a: u64, b: u64, error: ProgramError): Result<u64> {
    if b <= a then Ok(a - b) else Err(error)
  }

  function SaturatingSub(a: nat, b: nat): nat {
    if a < b then 0 else a - b
  }

  function Min(a: int, b: int): int {
    if a <= b then a else b
  }

  function Max(a: int, b: int): int {
    if a >= b then a else b
  }

  /** `a * b / d`, rounded down. */
  function MulDiv(a: nat, b: nat, d: nat): (q: nat)
    requires d > 0
  {
    FloorBounds(a * b, d);
    a * b / d
  }

  function CeilDiv(a: nat, b: nat): (q: nat)
    requires b > 0
  {
    (a + b - 1) / b
  }

  // ---- rounding ----

  /** Floor division in multiplied-out form. */
  lemma FloorBounds(a: nat, b: nat)
    requires b > 0
    ensures (a / b) * b <= a < (a / b) * b + b
  {
  }

  /** Ceiling division in multiplied-out form. */
  lemma CeilBounds(a: nat, b: nat)
    requires b > 0
    ensures a <= CeilDiv(a, b) * b < a + b
  {
    FloorBounds(a + b - 1, b);
  }

  /** An integer at most a quotient is at most its floor. */
  lemma FloorIsGreatest(a: nat, b: nat, q: int)
    requires b > 0 && q * b <= a
    ensures q <= a / b
  {
    FloorBounds(a, b);
    assert (a / b + 1) * b == (a / b) * b + b;
    if a / b < q {
      MulMono(a / b + 1, q, b);
    }
  }

  /** A quotient below an integer bound rounds down to at most that bound. */
  lemma FloorAtMost(a: nat, b: nat, q: int)
    requires b > 0 && a < (q + 1) * b
    ensures a / b <= q
  {
    FloorBounds(a, b);
    if a / b > q {
      MulMono(q + 1, a / b, b);
    }
  }

  /** A quotient that fits 64 bits survives the cast, within one of the exact value. */
  lemma CastFloor(x: nat, d: nat)
    requires x < U64_SPAN * d
    ensures d > 0 && Trunc64(x / d) == x / d && (x / d) * d <= x < (x / d + 1) * d
  {
    FloorBounds(x, d);
    FloorAtMost(x, d, U64_SPAN - 1);
    assert (x / d + 1) * d == (x / d) * d + d;
  }

  lemma FloorMono(a: nat, b: nat, d: nat)
    requires d > 0 && a <= b
    ensures a / d <= b / d
  {
    FloorBounds(a, d);
    FloorIsGreatest(b, d, a / d);
  }

  lemma CeilIsLeast(a: nat, b: nat, q: int)
    requires b > 0 && a <= q * b
    ensures CeilDiv(a, b) <= q
  {
    CeilBounds(a, b);
    assert (q + 1) * b == q * b + b;
    if CeilDiv(a, b) > q {
      MulMono(q + 1, CeilDiv(a, b), b);
    }
  }

  lemma MulMono(x: int, y: int, k: int)
    requires x <= y && 0 <= k
    ensures x * k <= y * k
    ensures k * x <= k * y
  {
  }

  /** A common positive factor cancels from an inequality. */
  lemma CancelLe(x: int, y: int, k: int)
    requires k > 0 && x * k <= y * k
    ensures x <= y
  {
    assert (y + 1) * k == y * k + k;
    if x > y {
      MulMono(y + 1, x, k);
    }
  }

  // ---- fractions compared by cross multiplication ----

  /** `p0/s0 <= p1/s1` for positive denominators. */
  ghost predicate FractionLe(p0: int, s0: int, p1: int, s1: int) {
    p0 * s1 <= p1 * s0
  }

  lemma FractionLeTrans(p0: int, s0: int, p1: int, s1: int, p2: int, s2: int)
    requires s0 >= 0 && s1 > 0 && s2 >= 0
    requires FractionLe(p0, s0, p1, s1)
    requires FractionLe(p1, s1, p2, s2)
    ensures FractionLe(p0, s0, p2, s2)
  {
    MulMono(p0 * s1, p1 * s0, s2);
    MulMono(p1 * s2, p2 * s1, s0);
    assert (p0 * s1) * s2 == (p0 * s2) * s1;
    assert (p1 * s0) * s2 == (p1 * s2) * s0;
    assert (p2 * s1) * s0 == (p2 * s0) * s1;
    CancelLe(p0 * s2, p2 * s0, s1);
  }

  // ---- sums over finite maps ----

  ghost function AnyKey<K, V>(m: map<K, V>): (k: K)
    requires |m| != 0
    ensures k in m
  {
    var k :| k in m;
    k
  }

  ghost function SumBy<K, V>(m: map<K, V>, f: V -> nat): nat
    decreases |m|
  {
    if |m| == 0 then 0 else
    var k := AnyKey(m);
    assert (m - {k}).Keys == m.Keys - {k};
    f(m[k]) + SumBy(m - {k}, f)
  }

  lemma {:induction false} SumRemove<K, V>(m: map<K, V>, f: V -> nat, k: K)
    requires k in m
    ensures SumBy(m, f) == f(m[k]) + SumBy(m - {k}, f)
    decreases |m|
  {
    assert |m| != 0;
    var j := AnyKey(m);
    if j != k {
      assert (m - {j}).Keys == m.Keys - {j};
      assert (m - {k}).Keys == m.Keys - {k};
      SumRemove(m - {j}, f, k);
      SumRemove(m - {k}, f, j);
      assert m - {j} - {k} == m - {k} - {j};
    }
  }

  lemma SumUpdate<K, V>(m: map<K, V>, f: V -> nat, k: K, v: V)
    ensures SumBy(m[k := v], f) + (if k in m then f(m[k]) else 0) == SumBy(m, f) + f(v)
  {
    hide SumBy;
    SumRemove(m[k := v], f, k);
    if k in m {
      SumRemove(m, f, k);
      assert m[k := v] - {k} == m - {k};
    } else {
      assert m[k := v] - {k} == m;
    }
  }

  /** No single entry exceeds the sum. */
  lemma SumBounds<K, V>(m: map<K, V>, f: V -> nat, k: K)
    requires k in m
    ensures f(m[k]) <= SumBy(m, f)
  {
    SumRemove(m, f, k);
  }
}
