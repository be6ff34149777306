/** base58btc as the invite token uses it (internal/rendezvous/token.go).
    Encode and Decode are the specification; the methods are the loops. */
module Base58 {
  import opened Numerals
  import opened Text

  const DIGITS: string := "123456789"
  const UPPER: string := "ABCDEFGHJKLMNPQRSTUVWXYZ"
  const LOWER: string := "abcdefghijkmnopqrstuvwxyz"
  const ALPHABET: string := DIGITS + UPPER + LOWER

  /** strings.IndexRune over the alphabet, searching from position i. */
  function IndexFrom(c: char, i: nat): (r: int)
    requires i <= |ALPHABET|
    ensures r == -1 || (i <= r < |ALPHABET| && ALPHABET[r] == c)
    ensures r == -1 ==> forall k :: i <= k < |ALPHABET| ==> ALPHABET[k] != c
    decreases |ALPHABET| - i
  {
    if i == |ALPHABET| then -1 else if ALPHABET[i] == c then i else IndexFrom(c, i + 1)
  }

  function IndexOf(c: char): (r: int)
    ensures -1 <= r < 58
    ensures r >= 0 ==> ALPHABET[r] == c
  {
    AlphabetSize();
    IndexFrom(c, 0)
  }

  lemma AlphabetSize()
    ensures |ALPHABET| == 58
  {
  }

  predicate Encodable(s: string) {
    forall i :: 0 <= i < |s| ==> IndexOf(s[i]) >= 0
  }

  function Chars(ds: seq<nat>): (s: string)
    requires IsDigits(ds, 58)
    ensures |s| == |ds|
  {
    AlphabetSize();
    seq(|ds|, i requires 0 <= i < |ds| => ALPHABET[ds[i]])
  }

  function Indices(s: string): (ds: seq<nat>)
    requires Encodable(s)
    ensures |ds| == |s| && IsDigits(ds, 58)
  {
    seq(|s|, i requires 0 <= i < |s| => IndexOf(s[i]))
  }

  function Encode(bs: seq<byte>): string {
    RecodeRoundTrip(bs, 256, 58);
    Chars(Recode(bs, 256, 58))
  }

  function Decode(s: string): (r: Option<seq<byte>>)
    ensures r.Some? <==> Encodable(s)
  {
    if Encodable(s) then
      RecodeRoundTrip(Indices(s), 58, 256);
      Some(Recode(Indices(s), 58, 256))
    else None
  }

  // --- the alphabet is a bijection ---

  /** The alphabet is listed in increasing code-point order, so no character repeats. */
  lemma AlphabetIncreasing(i: nat, j: nat)
    requires i < j < 58
    ensures |ALPHABET| == 58 && ALPHABET[i] < ALPHABET[j]
    decreases j - i
  {
    AlphabetStep(j - 1);
    if i < j - 1 { AlphabetIncreasing(i, j - 1); }
  }

  ghost predicate Increasing(s: string) {
    forall k, m :: 0 <= k < m < |s| && m == k + 1 ==> s[k] < s[m]
  }

  lemma IncreasingConcat(a: string, b: string)
    requires Increasing(a) && Increasing(b) && a != [] && b != [] && a[|a| - 1] < b[0]
    ensures Increasing(a + b)
  {
  }

  lemma AlphabetStep(i: nat)
    requires i < 57
    ensures |ALPHABET| == 58 && ALPHABET[i] < ALPHABET[i + 1]
  {
    DigitsIncrease();
    UpperIncrease();
    LowerIncrease();
    IncreasingConcat(DIGITS, UPPER);
    IncreasingConcat(DIGITS + UPPER, LOWER);
  }

  lemma DigitsIncrease()
    ensures Increasing(DIGITS)
  {
  }

  lemma UpperIncrease()
    ensures Increasing(UPPER)
  {
  }

  lemma LowerIncrease()
    ensures Increasing(LOWER)
  {
  }

  /** Every letter of the alphabet is an ASCII digit or letter. */
  lemma LetterRanges(i: nat)
    requires i < 58
    ensures |ALPHABET| == 58
    ensures '1' <= ALPHABET[i] <= '9' || 'A' <= ALPHABET[i] <= 'Z' || 'a' <= ALPHABET[i] <= 'z'
  {
    assert ALPHABET[0] == '1' && ALPHABET[8] == '9' && ALPHABET[9] == 'A' && ALPHABET[32] == 'Z'
      && ALPHABET[33] == 'a' && ALPHABET[57] == 'z';
    if i != 0 && i < 9 { AlphabetIncreasing(0, i); }
    if i < 8 { AlphabetIncreasing(i, 8); }
    if 9 < i < 33 { AlphabetIncreasing(9, i); }
    if 9 <= i < 32 { AlphabetIncreasing(i, 32); }
    if 33 < i { AlphabetIncreasing(33, i); }
    if 33 <= i < 57 { AlphabetIncreasing(i, 57); }
  }

  lemma IndexOfAlphabet(i: nat)
    requires i < 58
    ensures |ALPHABET| == 58 && IndexOf(ALPHABET[i]) == i
  {
    AlphabetSize();
    var r := IndexOf(ALPHABET[i]);
    if 0 <= r < i { AlphabetIncreasing(r, i); }
    if i < r { AlphabetIncreasing(i, r); }
  }

  lemma IndicesOfChars(ds: seq<nat>)
    requires IsDigits(ds, 58)
    ensures Encodable(Chars(ds)) && Indices(Chars(ds)) == ds
  {
    var s := Chars(ds);
    forall i | 0 <= i < |s| ensures IndexOf(s[i]) == ds[i] { IndexOfAlphabet(ds[i]); }
  }

  // --- the two round trips ---

  lemma DecodeEncode(bs: seq<byte>)
    ensures Encodable(Encode(bs)) && Decode(Encode(bs)) == Some(bs)
  {
    RecodeRoundTrip(bs, 256, 58);
    IndicesOfChars(Recode(bs, 256, 58));
  }

  lemma EncodeDecode(s: string)
    requires Encodable(s)
    ensures Decode(s).Some? && Encode(Decode(s).value) == s
  {
    var ds := Indices(s);
    RecodeRoundTrip(ds, 58, 256);
    assert Recode(Decode(s).value, 256, 58) == ds;
    assert Chars(ds) == s;
  }

  /** Encode is a bijection from byte strings onto the strings over the alphabet. */
  lemma Bijection(x: seq<byte>, y: seq<byte>, s: string)
    ensures Encode(x) == Encode(y) <==> x == y
    ensures Encodable(s) <==> exists bs: seq<byte> :: Encode(bs) == s
  {
    DecodeEncode(x);
    DecodeEncode(y);
    if Encodable(s) { EncodeDecode(s); }
    forall bs: seq<byte> | Encode(bs) == s ensures Encodable(s) { DecodeEncode(bs); }
  }

  /** Eleven characters carry eight bytes, because 256^8 < 58^11. */
  lemma EncodedLength(bs: seq<byte>)
    ensures |bs| <= |Encode(bs)|
    ensures 8 * |Encode(bs)| <= 11 * |bs| + 7
  {
    RecodedLength(bs);
  }

  // --- the loops ---

  method EncodeBytes(input: seq<byte>) returns (s: string)
    ensures s == Encode(input)
  {
    var n := Value(input, 256);
    var result := LowDigitsFirst(n);
    ghost var body := Reversed(result);
    var i := 0;
    while i < |input| && input[i] == 0
      invariant i <= |input| && forall k :: 0 <= k < i ==> input[k] == 0
      invariant Reversed(result) == Repeat('1', i) + body
    {
      ReversedSnoc(result, '1');
      result := result + ['1'];
      i := i + 1;
    }
    EncodeParts(input, i);
    s := ReverseInPlace(result);
  }

  lemma EncodeParts(input: seq<byte>, z: nat)
    requires z <= |input| && (forall k :: 0 <= k < z ==> input[k] == 0) && (z < |input| ==> input[z] != 0)
    ensures IsDigits(Digits(Value(input, 256), 58), 58)
    ensures Encode(input) == Repeat('1', z) + Chars(Digits(Value(input, 256), 58))
  {
    LeadingIs<nat>(input, 0, z);
    CharsOfParts(z, Value(input, 256));
  }

  lemma CharsOfParts(z: nat, n: nat)
    ensures IsDigits(Digits(n, 58), 58) && IsDigits(Repeat(0, z) + Digits(n, 58), 58)
    ensures Chars(Repeat(0, z) + Digits(n, 58)) == Repeat('1', z) + Chars(Digits(n, 58))
  {
    ValueOfDigits(n, 58);
    CharsConcat(Repeat(0, z), Digits(n, 58));
  }

  lemma CharsConcat(x: seq<nat>, y: seq<nat>)
    requires IsDigits(x, 58) && IsDigits(y, 58)
    ensures IsDigits(x + y, 58) && Chars(x + y) == Chars(x) + Chars(y)
    ensures (forall i :: 0 <= i < |x| ==> x[i] == 0) ==> Chars(x) == Repeat('1', |x|)
  {
  }

  /** The DivMod loop: digits come out least significant first. */
  method LowDigitsFirst(number: nat) returns (result: string)
    ensures IsDigits(Digits(number, 58), 58) && Reversed(result) == Chars(Digits(number, 58))
  {
    var n := number;
    ValueOfDigits(n, 58);
    result := [];
    while n > 0
      invariant IsDigits(Digits(n, 58), 58)
      invariant Chars(Digits(number, 58)) == Chars(Digits(n, 58)) + Reversed(result)
    {
      ValueOfDigits(n / 58, 58);
      AlphabetSize();
      ReversedSnoc(result, ALPHABET[n % 58]);
      assert Chars(Digits(n, 58)) == Chars(Digits(n / 58, 58)) + [ALPHABET[n % 58]];
      result := result + [ALPHABET[n % 58]];
      n := n / 58;
    }
  }

  /** The Mul/Add loop; it stops at the first character outside the alphabet. */
  method Accumulate(input: string) returns (n: Option<nat>)
    ensures n == if Encodable(input) then Some(Value(Indices(input), 58)) else None
  {
    var acc: nat := 0;
    for k := 0 to |input|
      invariant Encodable(input[..k]) && acc == Value(Indices(input[..k]), 58)
    {
      var idx := IndexOf(input[k]);
      if idx < 0 {
        return None;
      }
      IndicesSnoc(input[..k], input[k]);
      assert input[..k + 1] == input[..k] + [input[k]];
      acc := acc * 58 + idx;
    }
    assert input[..|input|] == input;
    n := Some(acc);
  }

  method DecodeString(input: string) returns (r: Option<seq<byte>>)
    ensures r == Decode(input)
  {
    var n := Accumulate(input);
    if n == None {
      return None;
    }
    var leading := 0;
    while leading < |input| && input[leading] == '1'
      invariant leading <= |input| && forall k :: 0 <= k < leading ==> input[k] == '1'
    {
      leading := leading + 1;
    }
    LeadingOnes(input, leading);
    ByteDigits(n.value);
    var result: seq<byte> := Repeat(0, leading) + Digits(n.value, 256);
    assert result == Recode(Indices(input), 58, 256);
    r := Some(result);
  }

  lemma ByteDigits(n: nat)
    ensures IsDigits(Digits(n, 256), 256)
  {
    ValueOfDigits(n, 256);
  }

  lemma IndicesSnoc(s: string, c: char)
    requires Encodable(s) && IndexOf(c) >= 0
    ensures Encodable(s + [c])
    ensures Value(Indices(s + [c]), 58) == Value(Indices(s), 58) * 58 + IndexOf(c)
  {
    var t := s + [c];
    assert forall i :: 0 <= i < |t| ==> t[i] == if i < |s| then s[i] else c;
    assert Indices(t)[..|s|] == Indices(s);
  }

  lemma LeadingOnes(s: string, k: nat)
    requires Encodable(s) && k <= |s|
    requires (forall i :: 0 <= i < k ==> s[i] == '1') && (k < |s| ==> s[k] != '1')
    ensures Leading(Indices(s), 0) == k
  {
    IndexOfAlphabet(0);
    LeadingIs(Indices(s), 0, k);
  }

  /** The alphabet: the digits and letters without the four that are easily confused. */
  lemma AlphabetIs(c: char)
    ensures IndexOf(c) >= 0 <==>
      (('1' <= c <= '9') || ('A' <= c <= 'Z') || ('a' <= c <= 'z')) && c != 'I' && c != 'O' && c != 'l'
  {
    if IndexOf(c) >= 0 {
      assert c == ALPHABET[IndexOf(c)];
      AlphabetHas(IndexOf(c));
    } else {
      AlphabetLists(c);
    }
  }

  lemma AlphabetHas(i: nat)
    requires i < 58
    ensures |ALPHABET| == 58
    ensures var c := ALPHABET[i];
      (('1' <= c <= '9') || ('A' <= c <= 'Z') || ('a' <= c <= 'z')) && c != 'I' && c != 'O' && c != 'l'
  {
    AlphabetSize();
    assert i < 9 ==> ALPHABET[i] == DIGITS[i];
    assert 9 <= i < 33 ==> ALPHABET[i] == UPPER[i - 9];
    assert 33 <= i ==> ALPHABET[i] == LOWER[i - 33];
  }

  lemma AlphabetLists(c: char)
    requires IndexOf(c) < 0
    ensures !('1' <= c <= '9')
    ensures 'A' <= c <= 'Z' ==> c == 'I' || c == 'O'
    ensures 'a' <= c <= 'z' ==> c == 'l'
  {
    AlphabetSize();
    assert forall k :: 0 <= k < 58 ==> ALPHABET[k] != c;
    forall k | 0 <= k < 9 ensures DIGITS[k] != c { assert ALPHABET[k] == DIGITS[k]; }
    forall k | 0 <= k < 24 ensures UPPER[k] != c { assert ALPHABET[k + 9] == UPPER[k]; }
    forall k | 0 <= k < 25 ensures LOWER[k] != c { assert ALPHABET[k + 33] == LOWER[k]; }
    DigitsList(c);
    UpperList(c);
    LowerList(c);
  }

  lemma DigitsList(c: char)
    ensures '1' <= c <= '9' ==> |DIGITS| == 9 && DIGITS[c as int - '1' as int] == c
  {
  }

  lemma UpperList(c: char)
    ensures |UPPER| == 24
    ensures 'A' <= c <= 'H' ==> UPPER[c as int - 'A' as int] == c
    ensures 'J' <= c <= 'N' ==> UPPER[c as int - 'B' as int] == c
    ensures 'P' <= c <= 'Z' ==> UPPER[c as int - 'C' as int] == c
  {
  }

  lemma LowerList(c: char)
    ensures |LOWER| == 25
    ensures 'a' <= c <= 'k' ==> LOWER[c as int - 'a' as int] == c
    ensures 'm' <= c <= 'z' ==> LOWER[c as int - 'b' as int] == c
  {
  }
}
