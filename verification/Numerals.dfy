/** Positional numerals: what math/big and java.math.BigInteger compute for the
    token codecs.  Digit sequences are big-endian. */
module Numerals {

  type byte = x: int | 0 <= x < 256

  ghost predicate IsDigits(ds: seq<int>, b: nat) {
    forall i :: 0 <= i < |ds| ==> 0 <= ds[i] < b
  }

  function Pow(b: nat, e: nat): (p: nat) {
    if e == 0 then 1 else b * Pow(b, e - 1)
  }

  /** big.Int.SetBytes for b = 256: the number a digit sequence denotes. */
  function Value(ds: seq<nat>, b: nat): nat {
    if |ds| == 0 then 0 else Value(ds[..|ds| - 1], b) * b + ds[|ds| - 1]
  }

  /** big.Int.Bytes for b = 256: the shortest digit sequence of a number ([] for 0). */
  function Digits(n: nat, b: nat): seq<nat>
    requires b >= 2
  {
    if n == 0 then [] else Digits(n / b, b) + [n % b]
  }

  function Repeat<T>(x: T, n: nat): (s: seq<T>)
    ensures |s| == n && forall i :: 0 <= i < n ==> s[i] == x
  {
    seq(n, i => x)
  }

  /** How many elements equal to x the sequence starts with. */
  function Leading<T(==)>(s: seq<T>, x: T): (k: nat)
    ensures k <= |s|
    ensures forall i :: 0 <= i < k ==> s[i] == x
    ensures k < |s| ==> s[k] != x
  {
    if |s| > 0 && s[0] == x then 1 + Leading(s[1..], x) else 0
  }

  /** Change of base that keeps every leading zero digit as one leading zero digit. */
  function Recode(ds: seq<nat>, b: nat, c: nat): seq<nat>
    requires c >= 2
  {
    Repeat(0, Leading(ds, 0)) + Digits(Value(ds, b), c)
  }

  lemma LeadingIs<T>(s: seq<T>, x: T, k: nat)
    requires k <= |s| && (forall i :: 0 <= i < k ==> s[i] == x)
    requires k < |s| ==> s[k] != x
    ensures Leading(s, x) == k
  {
    var m := Leading(s, x);
    assert !(m < k) && !(k < m);
  }

  lemma MulMonotone(x: int, y: int, b: nat)
    requires x <= y
    ensures x * b <= y * b
  {
  }

  lemma MulAssociative(x: int, y: int, z: int)
    ensures x * (y * z) == (x * y) * z
  {
  }

  lemma DivModStep(q: nat, d: nat, b: nat)
    requires d < b
    ensures (q * b + d) / b == q && (q * b + d) % b == d
  {
    var n := q * b + d;
    var e := n / b - q;
    assert e * b == d - n % b;
    assert e >= 1 ==> e * b >= b;
    assert e <= -1 ==> e * b <= -(b as int);
  }

  lemma {:induction false} ValueOfDigits(n: nat, b: nat)
    requires b >= 2
    ensures Value(Digits(n, b), b) == n
    ensures IsDigits(Digits(n, b), b)
    ensures n > 0 ==> Digits(n, b) != [] && Digits(n, b)[0] != 0
  {
    if n > 0 {
      var q, d := n / b, n % b;
      DivModParts(n, b);
      ValueOfDigits(q, b);
      assert Digits(n, b) == Digits(q, b) + [d];
      assert Digits(n, b)[..|Digits(n, b)| - 1] == Digits(q, b);
    }
  }

  lemma DivModParts(n: nat, b: nat)
    requires n > 0 && b >= 2
    ensures n == (n / b) * b + n % b && n / b < n && (n / b == 0 ==> n % b == n)
  {
    assert (n / b) * b >= (n / b) * 2;
  }

  lemma {:induction false} DigitsOfValue(ds: seq<nat>, b: nat)
    requires b >= 2 && IsDigits(ds, b) && (ds == [] || ds[0] != 0)
    ensures Digits(Value(ds, b), b) == ds
  {
    if ds != [] {
      var front, d := ds[..|ds| - 1], ds[|ds| - 1];
      DigitsOfValue(front, b);
      DivModStep(Value(front, b), d, b);
      assert Value(front, b) > 0 ==> Value(front, b) * b > 0;
      assert front == [] ==> ds[0] == d;
      assert Value(ds, b) > 0;
      assert ds == front + [d];
    }
  }

  lemma {:induction false} ValueSkipsZeros(ds: seq<nat>, b: nat, k: nat)
    requires k <= |ds| && forall i :: 0 <= i < k ==> ds[i] == 0
    ensures Value(ds, b) == Value(ds[k..], b)
    decreases |ds|
  {
    if k == |ds| {
      if k > 0 {
        ValueSkipsZeros(ds[..k - 1], b, k - 1);
        assert ds[..k - 1][k - 1..] == [];
      }
    } else {
      var front := ds[..|ds| - 1];
      ValueSkipsZeros(front, b, k);
      assert ds[k..][..|ds| - k - 1] == front[k..];
    }
  }

  /** Recoding to another base and back is the identity, leading zeros included. */
  lemma {:induction false} RecodeRoundTrip(ds: seq<nat>, b: nat, c: nat)
    requires b >= 2 && c >= 2 && IsDigits(ds, b)
    ensures IsDigits(Recode(ds, b, c), c)
    ensures Leading(Recode(ds, b, c), 0) == Leading(ds, 0)
    ensures Recode(Recode(ds, b, c), c, b) == ds
  {
    var z := Leading(ds, 0);
    var n := Value(ds, b);
    var mid := Recode(ds, b, c);
    ValueSkipsZeros(ds, b, z);
    ValueOfDigits(n, c);
    assert n == 0 ==> Digits(n, c) == [];
    LeadingIs(mid, 0, z);
    ValueSkipsZeros(mid, c, z);
    assert mid[z..] == Digits(n, c);
    assert Value(mid, c) == n;
    DigitsOfValue(ds[z..], b);
    assert ds == Repeat(0, z) + ds[z..];
  }

  // --- fixed-width big-endian integers ---

  /** binary.BigEndian.PutUintN with k bytes. */
  function BigEndian(n: nat, k: nat): (bs: seq<byte>)
    ensures |bs| == k
  {
    if k == 0 then [] else BigEndian(n / 256, k - 1) + [n % 256]
  }

  lemma {:induction false} ValueOfBigEndian(n: nat, k: nat)
    requires n < Pow(256, k)
    ensures Value(BigEndian(n, k), 256) == n
  {
    if k > 0 {
      ValueOfBigEndian(n / 256, k - 1);
      assert BigEndian(n, k)[..k - 1] == BigEndian(n / 256, k - 1);
    }
  }

  lemma {:induction false} BigEndianOfValue(bs: seq<byte>)
    ensures BigEndian(Value(bs, 256), |bs|) == bs
  {
    if bs != [] {
      BigEndianOfValue(bs[..|bs| - 1]);
      assert bs == bs[..|bs| - 1] + [bs[|bs| - 1]];
    }
  }

  // --- how long a numeral is ---

  lemma {:induction false} ValueBound(ds: seq<nat>, b: nat)
    requires b >= 2 && IsDigits(ds, b)
    ensures Value(ds, b) < Pow(b, |ds|)
  {
    if ds != [] {
      var front := ds[..|ds| - 1];
      ValueBound(front, b);
      NextBelow(Value(front, b), Pow(b, |front|), b, ds[|ds| - 1]);
    }
  }

  lemma NextBelow(v: nat, p: nat, b: nat, d: nat)
    requires v < p && d < b
    ensures v * b + d < b * p
  {
    MulMonotone(v + 1, p, b);
    assert (v + 1) * b == v * b + b;
  }

  lemma {:induction false} ValueLowerBound(ds: seq<nat>, b: nat)
    requires b >= 2 && ds != [] && ds[0] != 0
    ensures Pow(b, |ds| - 1) <= Value(ds, b)
  {
    var front := ds[..|ds| - 1];
    if front != [] {
      ValueLowerBound(front, b);
      MulMonotone(Pow(b, |front| - 1), Value(front, b), b);
    }
  }

  lemma {:induction false} PowAdd(b: nat, x: nat, y: nat)
    ensures Pow(b, x + y) == Pow(b, x) * Pow(b, y)
  {
    if x > 0 {
      PowAdd(b, x - 1, y);
      MulAssociative(b, Pow(b, x - 1), Pow(b, y));
    }
  }

  lemma {:induction false} PowMul(b: nat, x: nat, y: nat)
    ensures Pow(b, x * y) == Pow(Pow(b, x), y)
  {
    if y == 0 {
      assert x * y == 0;
    } else {
      PowMul(b, x, y - 1);
      PowAdd(b, x, x * (y - 1));
      assert x * y == x + x * (y - 1);
    }
  }

  lemma {:induction false} PowPositive(b: nat, e: nat)
    requires b >= 1
    ensures Pow(b, e) >= 1
  {
    if e > 0 { PowPositive(b, e - 1); MulMonotone(1, b, Pow(b, e - 1)); }
  }

  lemma {:induction false} PowExponentMonotone(b: nat, x: nat, y: nat)
    requires b >= 1 && x <= y
    ensures Pow(b, x) <= Pow(b, y)
  {
    if x < y {
      PowExponentMonotone(b, x, y - 1);
      MulMonotone(1, b, Pow(b, y - 1));
    }
  }

  lemma {:induction false} PowBaseMonotone(a: nat, b: nat, e: nat)
    requires a <= b
    ensures Pow(a, e) <= Pow(b, e)
  {
    if e > 0 {
      PowBaseMonotone(a, b, e - 1);
      MulMonotone(a, b, Pow(a, e - 1));
      MulMonotone(Pow(a, e - 1), Pow(b, e - 1), b);
    }
  }

  lemma {:induction false} PowBaseStrict(a: nat, b: nat, e: nat)
    requires a < b && e > 0
    ensures Pow(a, e) < Pow(b, e)
  {
    PowBaseMonotone(a, b, e - 1);
    PowPositive(b, e - 1);
    MulMonotone(Pow(a, e - 1), Pow(b, e - 1), a);
    MulMonotone(a + 1, b, Pow(b, e - 1));
    var p := Pow(b, e - 1);
    assert (a + 1) * p == a * p + p;
  }

  /** Eleven base-58 digits carry eight bytes, because 256^8 < 58^11. */
  lemma RecodedLength(bs: seq<byte>)
    ensures |bs| <= |Recode(bs, 256, 58)|
    ensures 8 * |Recode(bs, 256, 58)| <= 11 * |bs| + 7
  {
    var z := Leading(bs, 0);
    ValueSkipsZeros(bs, 256, z);
    BodyLength(bs[z..]);
  }

  lemma BodyLength(body: seq<byte>)
    requires body == [] || body[0] != 0
    ensures |body| <= |Digits(Value(body, 256), 58)|
    ensures 8 * |Digits(Value(body, 256), 58)| <= 11 * |body| + 7
  {
    if body != [] {
      var n := Value(body, 256);
      ValueLowerBound(body, 256);
      ValueBound(body, 256);
      PowPositive(256, |body| - 1);
      ValueOfDigits(n, 58);
      ValueLowerBound(Digits(n, 58), 58);
      ValueBound(Digits(n, 58), 58);
      LongerInSmallerBase(|body|, |Digits(n, 58)|, n);
    }
  }

  lemma LongerInSmallerBase(m: nat, l: nat, n: nat)
    requires m > 0 && l > 0
    requires Pow(256, m - 1) <= n < Pow(256, m)
    requires Pow(58, l - 1) <= n < Pow(58, l)
    ensures m <= l && 8 * l <= 11 * m + 7
  {
    if l < m {
      PowExponentMonotone(58, l, m - 1);
      PowBaseMonotone(58, 256, m - 1);
      assert false;
    }
    if 8 * (l - 1) >= 11 * m {
      PowExponentMonotone(58, 11 * m, (l - 1) * 8);
      PowMul(58, 11, m);
      PowMul(58, l - 1, 8);
      PowMul(256, m, 8);
      PowMul(256, 8, m);
      EightBytesFit();
      PowBaseStrict(Pow(256, 8), Pow(58, 11), m);
      PowBaseMonotone(Pow(58, l - 1), Pow(256, m), 8);
      assert false;
    }
  }

  lemma EightBytesFit()
    ensures Pow(256, 8) < Pow(58, 11)
  {
    assert Pow(256, 8) == 18446744073709551616 by {
      assert Pow(256, 4) == 4294967296;
      PowAdd(256, 4, 4);
    }
    assert Pow(58, 11) == 24986644000165537792 by {
      assert Pow(58, 5) == 656356768;
      PowAdd(58, 5, 5);
      assert Pow(58, 11) == 58 * Pow(58, 10);
    }
  }

  lemma TwoBytes(h: seq<byte>)
    requires |h| == 2
    ensures Value(h, 256) == h[0] as int * 256 + h[1] as int
  {
    assert h[..1] == [h[0]] && h[..1][..0] == [];
    assert Value(h[..1], 256) == h[0] as int;
  }

  lemma FourBytes(h: seq<byte>)
    requires |h| == 4
    ensures Value(h, 256) == h[0] as int * 0x100_0000 + h[1] as int * 0x1_0000 + h[2] as int * 0x100 + h[3] as int
  {
    var front := h[..3];
    assert front[..2] == h[..2] && front[2] == h[2];
    TwoBytes(h[..2]);
    assert Value(front, 256) == Value(h[..2], 256) * 256 + h[2] as int;
  }
}
