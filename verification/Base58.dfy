/** Base58 text of byte strings and of 32-byte public keys. */
module Base58 {
  import Common
  import opened Radix

  type Byte = Common.Byte
  type Pubkey = Common.Pubkey

  const NUMERALS: string := "123456789"
  const CAPITALS: string := "ABCDEFGHJKLMNPQRSTUVWXYZ"
  const SMALLS: string := "abcdefghijkmnopqrstuvwxyz"
  const ALPHABET: string := NUMERALS + CAPITALS + SMALLS
  const KEY_BYTES: nat := 32

  datatype CodecError = EmptyHexLiteral | InvalidCharacter(c: char) | WrongLength(n: nat)

  datatype Outcome<+T> = Ok(value: T) | Err(error: CodecError)

  // ---- the alphabet ----

  lemma NumeralRuns()
    ensures |NUMERALS| == 9
    ensures forall i :: 0 <= i < 9 ==> NUMERALS[i] as int == 49 + i
  {
  }

  lemma CapitalRuns()
    ensures |CAPITALS| == 24
    ensures forall i :: 0 <= i < 8 ==> CAPITALS[i] as int == 65 + i
    ensures forall i :: 8 <= i < 13 ==> CAPITALS[i] as int == 66 + i
    ensures forall i :: 13 <= i < 24 ==> CAPITALS[i] as int == 67 + i
  {
  }

  lemma SmallRuns()
    ensures |SMALLS| == 25
    ensures forall i :: 0 <= i < 11 ==> SMALLS[i] as int == 97 + i
    ensures forall i :: 11 <= i < 25 ==> SMALLS[i] as int == 98 + i
  {
  }

  lemma AlphabetAscends()
    ensures |ALPHABET| == 58 && ALPHABET[0] == '1'
    ensures forall i, j :: 0 <= i < j < 58 ==> ALPHABET[i] < ALPHABET[j]
  {
    hide NUMERALS, CAPITALS, SMALLS;
    NumeralRuns();
    CapitalRuns();
    SmallRuns();
    forall i, j | 0 <= i < j < 58
      ensures ALPHABET[i] < ALPHABET[j]
    {
      assert ALPHABET[i] as int < ALPHABET[j] as int;
    }
  }

  /** The first position of `c`, or -1. */
  function IndexOf(s: string, c: char): (k: int)
    ensures -1 <= k < |s|
    ensures k >= 0 ==> s[k] == c
    ensures k < 0 <==> c !in s
  {
    if s == "" then -1
    else if s[0] == c then 0
    else
      var k := IndexOf(s[1..], c);
      if k < 0 then -1 else k + 1
  }

  lemma IndexOfSymbol(d: nat)
    requires d < 58
    ensures |ALPHABET| == 58 && IndexOf(ALPHABET, ALPHABET[d]) == d
  {
    hide ALPHABET, IndexOf;
    AlphabetAscends();
    var k := IndexOf(ALPHABET, ALPHABET[d]);
    assert ALPHABET[d] in ALPHABET;
    assert ALPHABET[k] == ALPHABET[d];
  }

  // ---- the codec ----

  predicate IsText(s: string) {
    forall i :: 0 <= i < |s| ==> s[i] in ALPHABET
  }

  function Text(digits: seq<nat>): (s: string)
    requires Numeral(digits, 58)
    ensures |s| == |digits| && IsText(s)
  {
    AlphabetAscends();
    seq(|digits|, i requires 0 <= i < |digits| => ALPHABET[digits[i]])
  }

  function Indices(s: string): (digits: seq<nat>)
    requires IsText(s)
    ensures |digits| == |s| && Numeral(digits, 58)
  {
    AlphabetAscends();
    seq(|s|, i requires 0 <= i < |s| => IndexOf(ALPHABET, s[i]))
  }

  lemma IndicesOfText(digits: seq<nat>)
    requires Numeral(digits, 58)
    ensures Indices(Text(digits)) == digits
  {
    hide ALPHABET, IndexOf;
    AlphabetAscends();
    forall i | 0 <= i < |digits|
      ensures Indices(Text(digits))[i] == digits[i]
    {
      IndexOfSymbol(digits[i]);
    }
  }

  lemma TextOfIndices(s: string)
    requires IsText(s)
    ensures Text(Indices(s)) == s
  {
    hide ALPHABET, IndexOf;
    AlphabetAscends();
  }

  /** Base58 text; an empty input gives the malformed hexadecimal literal `0x`. */
  function Encoded(bytes: seq<Byte>): Outcome<string> {
    if bytes == [] then Err(EmptyHexLiteral)
    else
      ConvertBack(bytes, 256, 58);
      Ok(Text(Convert(bytes, 256, 58)))
  }

  /** The first position whose character is not among `symbols`. */
  function FirstOutside(s: string, symbols: string): (k: nat)
    ensures k <= |s| && (k < |s| ==> s[k] !in symbols)
    ensures forall i :: 0 <= i < k ==> s[i] in symbols
  {
    if s == "" || s[0] !in symbols then 0 else 1 + FirstOutside(s[1..], symbols)
  }

  function Decoded(s: string): Outcome<seq<Byte>> {
    if !IsText(s) then Err(InvalidCharacter(s[FirstOutside(s, ALPHABET)]))
    else
      var digits := Convert(Indices(s), 58, 256);
      ConvertBack(Indices(s), 58, 256);
      Ok(digits)
  }

  /** Decoding undoes encoding for every non-empty byte string. */
  lemma DecodeUndoesEncode(bytes: seq<Byte>)
    requires bytes != []
    ensures Encoded(bytes).Ok? && Decoded(Encoded(bytes).value) == Ok(bytes)
  {
    hide Convert, Text, Indices, IsText;
    ConvertBack(bytes, 256, 58);
    IndicesOfText(Convert(bytes, 256, 58));
  }

  /** Encoding undoes decoding for every non-empty text: each byte string has one text. */
  lemma EncodeUndoesDecode(s: string)
    requires s != "" && IsText(s)
    ensures Decoded(s).Ok? && Encoded(Decoded(s).value) == Ok(s)
  {
    hide Convert, Text, Indices, IsText;
    ConvertBack(Indices(s), 58, 256);
    ConvertEmptyIff(Indices(s), 58, 256);
    TextOfIndices(s);
  }

  /** Both directions hold exactly away from the empty input. */
  lemma RoundTripIff(bytes: seq<Byte>)
    ensures (Encoded(bytes).Ok? && Decoded(Encoded(bytes).value) == Ok(bytes)) <==> bytes != []
  {
    if bytes != [] {
      DecodeUndoesEncode(bytes);
    }
  }

  lemma SampleDigits()
    ensures Convert([0, 0, 58], 256, 58) == [0, 0, 1, 0]
  {
    var s: seq<nat> := [0, 0, 58];
    LeadingZerosAre(s, 2);
    ZerosAddNothing(2, [58], 256);
    assert Zeros(2) + [58] == s;
    assert Value([58], 256) == 58;
    assert Digits(1, 58) == [1] by {
      assert Digits(0, 58) == [];
    }
    assert Digits(58, 58) == [1, 0];
  }

  lemma FirstSymbols()
    ensures |ALPHABET| == 58 && ALPHABET[0] == '1' && ALPHABET[1] == '2'
  {
    AlphabetAscends();
    NumeralRuns();
    hide CAPITALS, SMALLS, NUMERALS;
  }

  /** Two leading zeros, then 58, which is "21" in base 58. */
  lemma SampleText()
    ensures Encoded([0, 0, 58]) == Ok("1121")
  {
    hide ALPHABET, Convert;
    SampleDigits();
    FirstSymbols();
    var t := Text([0, 0, 1, 0]);
    assert t[0] == '1' && t[1] == '1' && t[2] == '2' && t[3] == '1';
    assert t == "1121";
  }

  // ---- public keys ----

  function KeyFromBytes(bytes: seq<Byte>): Outcome<Pubkey> {
    if |bytes| != KEY_BYTES then Err(WrongLength(|bytes|)) else Outcome<Pubkey>.Ok(bytes)
  }

  function KeyFromText(s: string): Outcome<Pubkey> {
    var d := Decoded(s);
    if d.Err? then Err(d.error) else KeyFromBytes(d.value)
  }

  /** Every key is read back from its text, and an accepted text is the text of the key it gives. */
  lemma KeyTexts(key: Pubkey, s: string)
    ensures KeyFromText(s) == Ok(key) <==> Encoded(key) == Ok(s)
  {
    DecodeUndoesEncode(key);
    if KeyFromText(s).Ok? {
      EmptyText(s);
      EncodeUndoesDecode(s);
    }
  }

  lemma EmptyText(s: string)
    requires IsText(s)
    ensures Decoded(s).Ok? && (Decoded(s).value == [] <==> s == "")
  {
    hide Convert, Text, Indices, IsText;
    ConvertEmptyIff(Indices(s), 58, 256);
  }

  // ---- the loops ----

  lemma TextAppend(a: seq<nat>, b: seq<nat>)
    requires Numeral(a, 58) && Numeral(b, 58)
    ensures Numeral(a + b, 58) && Text(a + b) == Text(a) + Text(b)
  {
    hide ALPHABET;
    AlphabetAscends();
  }

  lemma LeadingZerosAre(s: seq<nat>, k: nat)
    requires k <= |s| && (forall i :: 0 <= i < k ==> s[i] == 0) && (k < |s| ==> s[k] != 0)
    ensures LeadingZeros(s) == k
  {
    hide LeadingZeros;
    var n := LeadingZeros(s);
    assert n < |s| ==> s[n] != 0;
    assert forall i :: 0 <= i < n ==> s[i] == 0;
  }

  lemma PrependSymbol(d: nat, digits: seq<nat>)
    requires d < 58 && Numeral(digits, 58)
    ensures |ALPHABET| == 58 && Numeral([d] + digits, 58)
    ensures Text([d] + digits) == [ALPHABET[d]] + Text(digits)
  {
    hide ALPHABET, Text;
    OneSymbol(d);
    TextAppend([d], digits);
  }

  /** The symbols of `value`, least significant first prepended. */
  method ToSymbols(value: nat) returns (result: string)
    ensures result == Text(Digits(value, 58))
  {
    hide ALPHABET, Text;
    var num := value;
    result := "";
    ghost var done: seq<nat> := [];
    while num > 0
      invariant Numeral(done, 58) && Digits(num, 58) + done == Digits(value, 58)
      invariant result == Text(done)
    {
      QuotientShrinks(num, 58);
      PrependSymbol(num % 58, done);
      done := [num % 58] + done;
      result := [ALPHABET[num % 58]] + result;
      num := num / 58;
    }
    assert done == Digits(value, 58);
  }

  /** One '1' for each leading zero byte. */
  method PrependOnes(bytes: seq<Byte>, body: string, ghost digits: seq<nat>) returns (result: string)
    requires Numeral(digits, 58) && body == Text(digits)
    ensures Numeral(Zeros(LeadingZeros(bytes)) + digits, 58)
    ensures result == Text(Zeros(LeadingZeros(bytes)) + digits)
  {
    hide ALPHABET, LeadingZeros, Text;
    result := body;
    assert Zeros(0) + digits == digits;
    var i := 0;
    while i < |bytes| && bytes[i] == 0
      invariant i <= |bytes| && forall j :: 0 <= j < i ==> bytes[j] == 0
      invariant Numeral(Zeros(i) + digits, 58) && result == Text(Zeros(i) + digits)
    {
      AlphabetAscends();
      PrependSymbol(0, Zeros(i) + digits);
      assert [0] + (Zeros(i) + digits) == Zeros(i + 1) + digits;
      result := "1" + result;
      i := i + 1;
    }
    LeadingZerosAre(bytes, i);
  }

  method Encode(bytes: seq<Byte>) returns (r: Outcome<string>)
    ensures r == Encoded(bytes)
  {
    hide ALPHABET, Value, Digits, LeadingZeros, Text;
    if |bytes| == 0 {
      return Err(EmptyHexLiteral);
    }
    var num := Value(bytes, 256);
    var body := ToSymbols(num);
    var result := PrependOnes(bytes, body, Digits(num, 58));
    r := Ok(result);
  }

  lemma OneSymbol(d: nat)
    requires d < 58
    ensures |ALPHABET| == 58 && Text([d]) == [ALPHABET[d]]
  {
    hide ALPHABET;
    AlphabetAscends();
  }

  lemma ValueStep(s: string, k: nat)
    requires k < |s| && IsText(s[..k + 1])
    ensures IsText(s[..k]) && IndexOf(ALPHABET, s[k]) >= 0
    ensures Value(Indices(s[..k + 1]), 58) == Value(Indices(s[..k]), 58) * 58 + IndexOf(ALPHABET, s[k])
  {
    hide ALPHABET, IndexOf;
    AlphabetAscends();
    assert s[..k + 1][k] in ALPHABET;
    forall i | 0 <= i < k
      ensures s[i] in ALPHABET
    {
      assert s[..k + 1][i] in ALPHABET;
    }
    var d := Indices(s[..k + 1]);
    assert d[..k] == Indices(s[..k]);
  }

  lemma EmptyValue()
    ensures IsText("") && Value(Indices(""), 58) == 0
  {
  }

  lemma FirstInvalidIs(s: string, k: nat)
    requires k < |s| && IsText(s[..k]) && s[k] !in ALPHABET
    ensures !IsText(s) && FirstOutside(s, ALPHABET) == k
  {
    hide ALPHABET, FirstOutside;
    forall i | 0 <= i < k
      ensures s[i] in ALPHABET
    {
      assert s[..k][i] in ALPHABET;
    }
    var n := FirstOutside(s, ALPHABET);
    assert n < |s| ==> s[n] !in ALPHABET;
  }

  lemma OnesAreZeros(s: string, k: nat)
    requires IsText(s) && k < |s|
    ensures Indices(s)[k] == 0 <==> s[k] == '1'
  {
    hide ALPHABET, IndexOf;
    AlphabetAscends();
    assert s[k] in ALPHABET;
    IndexOfSymbol(0);
    assert ALPHABET[Indices(s)[k]] == s[k];
  }

  /** The bytes of `num`, most significant first. */
  method ToBytes(num: nat) returns (bytes: seq<nat>)
    ensures bytes == Digits(num, 256)
  {
    var n := num;
    bytes := [];
    while n > 0
      invariant Digits(n, 256) + bytes == Digits(num, 256)
    {
      QuotientShrinks(n, 256);
      bytes := [n % 256] + bytes;
      n := n / 256;
    }
  }

  /** A zero byte for each leading '1'. */
  method PrependZeros(s: string, body: seq<nat>) returns (bytes: seq<nat>)
    requires IsText(s)
    ensures bytes == Zeros(LeadingZeros(Indices(s))) + body
  {
    hide ALPHABET, Indices, LeadingZeros, IsText;
    bytes := body;
    var i := 0;
    while i < |s| && s[i] == '1'
      invariant i <= |s| && forall j :: 0 <= j < i ==> Indices(s)[j] == 0
      invariant bytes == Zeros(i) + body
    {
      OnesAreZeros(s, i);
      bytes := [0] + bytes;
      i := i + 1;
    }
    if i < |s| {
      OnesAreZeros(s, i);
    }
    LeadingZerosAre(Indices(s), i);
  }

  method Decode(s: string) returns (r: Outcome<seq<Byte>>)
    ensures r == Decoded(s)
  {
    hide ALPHABET, IndexOf, Indices, FirstOutside, Value;
    var num: nat := 0;
    EmptyValue();
    for k := 0 to |s|
      invariant IsText(s[..k]) && num == Value(Indices(s[..k]), 58)
    {
      var idx := IndexOf(ALPHABET, s[k]);
      if idx < 0 {
        FirstInvalidIs(s, k);
        return Err(InvalidCharacter(s[k]));
      }
      assert s[..k + 1] == s[..k] + [s[k]];
      ValueStep(s, k);
      num := num * 58 + idx;
    }
    assert s[..|s|] == s;
    var body := ToBytes(num);
    var bytes := PrependZeros(s, body);
    ConvertBack(Indices(s), 58, 256);
    r := Ok(bytes);
  }
}
