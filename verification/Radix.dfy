/** Positional numerals, most significant digit first, with leading zeros kept across a change of base. */
module Radix {
  predicate Numeral(s: seq<nat>, base: nat) {
    forall i :: 0 <= i < |s| ==> s[i] < base
  }

  function Value(s: seq<nat>, base: nat): nat {
    if s == [] then 0 else Value(s[..|s| - 1], base) * base + s[|s| - 1]
  }

  /** The shortest numeral of `n`; none at all for zero. */
  function Digits(n: nat, base: nat): (s: seq<nat>)
    requires base >= 2
    ensures Numeral(s, base)
    ensures n > 0 ==> s != [] && s[0] != 0
    ensures n == 0 ==> s == []
  {
    if n == 0 then []
    else
      assert n / base < n by { QuotientShrinks(n, base); }
      Digits(n / base, base) + [n % base]
  }

  lemma QuotientShrinks(n: nat, base: nat)
    requires n > 0 && base >= 2
    ensures 0 <= n / base < n && n == n / base * base + n % base
  {
  }

  function Zeros(k: nat): (z: seq<nat>)
    ensures |z| == k && forall i :: 0 <= i < k ==> z[i] == 0
  {
    seq(k, _ => 0)
  }

  function LeadingZeros(s: seq<nat>): (k: nat)
    ensures k <= |s| && (forall i :: 0 <= i < k ==> s[i] == 0) && (k < |s| ==> s[k] != 0)
  {
    if s == [] || s[0] != 0 then 0 else 1 + LeadingZeros(s[1..])
  }

  /** The value rewritten in another base behind one zero digit per leading zero. */
  function Convert(s: seq<nat>, from: nat, to: nat): seq<nat>
    requires to >= 2
  {
    Zeros(LeadingZeros(s)) + Digits(Value(s, from), to)
  }

  lemma {:induction false} ValueOfDigits(n: nat, base: nat)
    requires base >= 2
    ensures Value(Digits(n, base), base) == n
  {
    if n > 0 {
      QuotientShrinks(n, base);
      ValueOfDigits(n / base, base);
      var s := Digits(n, base);
      assert s[..|s| - 1] == Digits(n / base, base);
    }
  }

  lemma SplitLast(high: nat, low: nat, base: nat)
    requires low < base
    ensures (high * base + low) / base == high && (high * base + low) % base == low
  {
    var n := high * base + low;
    var q, r := n / base, n % base;
    assert n == q * base + r && 0 <= r < base;
    QuotientUnique(q, r, high, low, base);
  }

  lemma QuotientUnique(q: int, r: nat, p: int, s: nat, base: nat)
    requires r < base && s < base && q * base + r == p * base + s
    ensures q == p && r == s
  {
    if q > p {
      AtLeastOnce(q - p, base);
      assert false;
    }
    if p > q {
      AtLeastOnce(p - q, base);
      assert false;
    }
  }

  lemma AtLeastOnce(d: int, base: nat)
    requires d >= 1
    ensures d * base >= base
  {
  }

  lemma {:induction false} DigitsOfValue(s: seq<nat>, base: nat)
    requires base >= 2 && Numeral(s, base) && (s != [] ==> s[0] != 0)
    ensures Digits(Value(s, base), base) == s
    ensures s != [] ==> Value(s, base) > 0
  {
    if s != [] {
      var init, last := s[..|s| - 1], s[|s| - 1];
      DigitsOfValue(init, base);
      SplitLast(Value(init, base), last, base);
      assert init == [] ==> s == [last];
      ProductPositive(Value(init, base), base);
      assert s == init + [last];
    }
  }

  lemma ProductPositive(a: nat, b: nat)
    requires b > 0
    ensures a > 0 ==> a * b > 0
  {
  }

  lemma {:induction false} ZerosAddNothing(k: nat, s: seq<nat>, base: nat)
    ensures Value(Zeros(k) + s, base) == Value(s, base)
  {
    var t := Zeros(k) + s;
    if s != [] {
      assert t[..|t| - 1] == Zeros(k) + s[..|s| - 1];
      ZerosAddNothing(k, s[..|s| - 1], base);
    } else if k > 0 {
      assert t[..|t| - 1] == Zeros(k - 1) + [];
      ZerosAddNothing(k - 1, [], base);
      assert Value(t, base) == Value(Zeros(k - 1) + [], base) * base;
    }
  }

  lemma {:induction false} LeadingZerosOf(k: nat, s: seq<nat>)
    requires s != [] ==> s[0] != 0
    ensures LeadingZeros(Zeros(k) + s) == k
  {
    var t := Zeros(k) + s;
    if k > 0 {
      assert t[1..] == Zeros(k - 1) + s;
      LeadingZerosOf(k - 1, s);
    }
  }

  /** Converting there and back returns every numeral, leading zeros included. */
  lemma ConvertBack(s: seq<nat>, from: nat, to: nat)
    requires from >= 2 && to >= 2 && Numeral(s, from)
    ensures Numeral(Convert(s, from, to), to)
    ensures Convert(Convert(s, from, to), to, from) == s
  {
    hide Value, Digits, LeadingZeros;
    var k := LeadingZeros(s);
    var rest := s[k..];
    assert s == Zeros(k) + rest;
    var v := Value(s, from);
    ZerosAddNothing(k, rest, from);
    DigitsOfValue(rest, from);
    LeadingZerosOf(k, Digits(v, to));
    ZerosAddNothing(k, Digits(v, to), to);
    ValueOfDigits(v, to);
  }

  /** A numeral is empty exactly when its conversion is. */
  lemma ConvertEmptyIff(s: seq<nat>, from: nat, to: nat)
    requires from >= 2 && to >= 2 && Numeral(s, from)
    ensures Convert(s, from, to) == [] <==> s == []
  {
    ConvertBack(s, from, to);
  }
}
