/** The string operations of Go's strings package (and Kotlin's) that the code relies on. */
module Text {

  datatype Option<+T> = None | Some(value: T)

  lemma Assoc<T>(a: seq<T>, b: seq<T>, c: seq<T>)
    ensures (a + b) + c == a + (b + c)
  {
  }

  function Reversed<T>(s: seq<T>): (r: seq<T>)
    ensures |r| == |s| && forall i :: 0 <= i < |s| ==> r[i] == s[|s| - 1 - i]
  {
    seq(|s|, i requires 0 <= i < |s| => s[|s| - 1 - i])
  }

  lemma ReversedSnoc<T>(s: seq<T>, x: T)
    ensures Reversed(s + [x]) == [x] + Reversed(s)
  {
  }

  /** The two-index swap loop. */
  method ReverseInPlace(s: string) returns (r: string)
    ensures r == Reversed(s)
  {
    r := s;
    var i, j := 0, |r| - 1;
    while i < j
      invariant |r| == |s| && 0 <= i && -1 <= j && j == |s| - 1 - i
      invariant forall k :: i <= k <= j ==> r[k] == s[k]
      invariant forall k :: 0 <= k < i || j < k < |s| ==> r[k] == Reversed(s)[k]
    {
      r := r[i := r[j]][j := r[i]];
      i, j := i + 1, j - 1;
    }
  }

  /** unicode.IsSpace. */
  predicate IsSpace(c: char) {
    var n := c as int;
    9 <= n <= 13 || n == 32 || n == 0x85 || n == 0xA0 || n == 0x1680 || 0x2000 <= n <= 0x200A
    || n == 0x2028 || n == 0x2029 || n == 0x202F || n == 0x205F || n == 0x3000
  }

  predicate IsSlash(c: char) { c == '/' }

  ghost predicate All(s: string, p: char -> bool) {
    forall i :: 0 <= i < |s| ==> p(s[i])
  }

  function TrimLeft(s: string, p: char -> bool): string {
    if s != [] && p(s[0]) then TrimLeft(s[1..], p) else s
  }

  function TrimRight(s: string, p: char -> bool): string {
    if s != [] && p(s[|s| - 1]) then TrimRight(s[..|s| - 1], p) else s
  }

  function Trim(s: string, p: char -> bool): string {
    TrimRight(TrimLeft(s, p), p)
  }

  function TrimSpace(s: string): string {
    Trim(s, IsSpace)
  }

  /** The part of s before the first c; all of s when c does not occur (strings.Cut, substringBefore). */
  function Before(s: string, c: char): (r: string)
    ensures r <= s && c !in r
    ensures r == s || s[|r|] == c
  {
    if s == [] || s[0] == c then [] else [s[0]] + Before(s[1..], c)
  }

  /** ASCII lower-casing. */
  function Lower(c: char): char {
    if 'A' <= c <= 'Z' then c + 32 as char else c
  }

  function ToLower(s: string): (r: string)
    ensures |r| == |s|
    ensures forall i :: 0 <= i < |s| ==> r[i] == Lower(s[i])
  {
    seq(|s|, i requires 0 <= i < |s| => Lower(s[i]))
  }

  predicate EqualFold(a: string, b: string) {
    ToLower(a) == ToLower(b)
  }

  lemma {:induction false} TrimLeftAll(a: string, b: string, p: char -> bool)
    requires All(a, p) && (b == [] || !p(b[0]))
    ensures TrimLeft(a + b, p) == b
  {
    if a == [] {
      assert a + b == b;
    } else {
      TrimLeftAll(a[1..], b, p);
      assert (a + b)[1..] == a[1..] + b;
    }
  }

  lemma {:induction false} TrimRightConcat(a: string, b: string, p: char -> bool)
    requires a == [] || !p(a[|a| - 1])
    ensures TrimRight(a + b, p) == a + TrimRight(b, p)
  {
    if b == [] {
      assert a + b == a;
    } else if p(b[|b| - 1]) {
      TrimRightConcat(a, b[..|b| - 1], p);
      assert (a + b)[..|a + b| - 1] == a + b[..|b| - 1];
    }
  }

  lemma {:induction false} TrimRightAll(a: string, p: char -> bool)
    requires All(a, p)
    ensures TrimRight(a, p) == []
  {
    if a != [] { TrimRightAll(a[..|a| - 1], p); }
  }

  /** What TrimRight keeps is a prefix that does not end in a trimmed character. */
  lemma {:induction false} TrimRightKeeps(s: string, p: char -> bool)
    ensures TrimRight(s, p) <= s
    ensures All(s[|TrimRight(s, p)|..], p)
    ensures TrimRight(s, p) == [] || !p(TrimRight(s, p)[|TrimRight(s, p)| - 1])
  {
    if s != [] && p(s[|s| - 1]) {
      TrimRightKeeps(s[..|s| - 1], p);
    }
  }

  lemma {:induction false} TrimLeftKeeps(s: string, p: char -> bool)
    ensures |TrimLeft(s, p)| <= |s| && TrimLeft(s, p) == s[|s| - |TrimLeft(s, p)|..]
    ensures All(s[..|s| - |TrimLeft(s, p)|], p)
    ensures TrimLeft(s, p) == [] || !p(TrimLeft(s, p)[0])
  {
    if s != [] && p(s[0]) { TrimLeftKeeps(s[1..], p); }
  }

  lemma TrimTwice(s: string)
    ensures TrimSpace(TrimSpace(s)) == TrimSpace(s)
  {
    TrimEnds(s);
    if TrimSpace(s) != [] { PlainTrim(TrimSpace(s)); }
  }

  lemma TrimEnds(s: string)
    ensures var t := TrimSpace(s); t != [] ==> !IsSpace(t[0]) && !IsSpace(t[|t| - 1])
  {
    TrimLeftKeeps(s, IsSpace);
    TrimRightKeeps(TrimLeft(s, IsSpace), IsSpace);
  }

  lemma PlainTrim(s: string)
    requires s != [] && !IsSpace(s[0]) && !IsSpace(s[|s| - 1])
    ensures TrimSpace(s) == s
  {
  }

  /** s is m with characters that p strips before and after it, and m cannot be stripped further. */
  ghost predicate StripsTo(s: string, m: string, p: char -> bool) {
    && (m == [] || (!p(m[0]) && !p(m[|m| - 1])))
    && exists a, b :: s == a + m + b && All(a, p) && All(b, p)
  }

  /** Exactly what strings.Trim leaves. */
  lemma TrimIff(s: string, m: string, p: char -> bool)
    ensures Trim(s, p) == m <==> StripsTo(s, m, p)
  {
    TrimStrips(s, p);
    if StripsTo(s, m, p) {
      var a, b :| s == a + m + b && All(a, p) && All(b, p);
      TrimAround(a, m, b, p);
    }
  }

  lemma TrimStrips(s: string, p: char -> bool)
    ensures StripsTo(s, Trim(s, p), p)
  {
    TrimLeftKeeps(s, p);
    var l := TrimLeft(s, p);
    TrimRightKeeps(l, p);
    var m := TrimRight(l, p);
    StrippedParts(s, s[..|s| - |l|], l, m, p);
  }

  lemma StrippedParts(s: string, a: string, l: string, m: string, p: char -> bool)
    requires s == a + l && m <= l && All(a, p) && All(l[|m|..], p)
    requires (l == [] || !p(l[0])) && (m == [] || !p(m[|m| - 1]))
    ensures StripsTo(s, m, p)
  {
    var b := l[|m|..];
    assert l == m + b;
    Assoc(a, m, b);
    assert s == a + m + b;
  }

  lemma TrimAround(a: string, m: string, b: string, p: char -> bool)
    requires All(a, p) && All(b, p) && (m == [] || (!p(m[0]) && !p(m[|m| - 1])))
    ensures Trim(a + m + b, p) == m
  {
    assert a + m + b == a + (m + b);
    if m == [] {
      assert All(a + b, p) && a + (m + b) == (a + b) + [];
      TrimLeftAll(a + b, [], p);
    } else {
      TrimLeftAll(a, m + b, p);
      TrimRightConcat(m, b, p);
      TrimRightAll(b, p);
      assert m + [] == m;
    }
  }

  /** Two characters are the same letter, or one is the capital of the other. */
  predicate SameLetter(c: char, d: char) {
    || c == d
    || ('A' <= c <= 'Z' && 'a' <= d <= 'z' && (d as int) - (c as int) == 32)
    || ('A' <= d <= 'Z' && 'a' <= c <= 'z' && (c as int) - (d as int) == 32)
  }

  /** Exactly which texts fold to each other. */
  lemma EqualFoldIff(a: string, b: string)
    ensures EqualFold(a, b) <==> |a| == |b| && forall i :: 0 <= i < |a| ==> SameLetter(a[i], b[i])
  {
    if EqualFold(a, b) {
      assert |ToLower(a)| == |ToLower(b)|;
      forall i | 0 <= i < |a| ensures SameLetter(a[i], b[i]) {
        assert ToLower(a)[i] == ToLower(b)[i];
      }
    } else if |a| == |b| {
      var i :| 0 <= i < |a| && ToLower(a)[i] != ToLower(b)[i];
      assert !SameLetter(a[i], b[i]);
    }
  }

  lemma FoldKeepsSpace(c: char, d: char)
    requires Lower(c) == Lower(d)
    ensures IsSpace(c) <==> IsSpace(d)
  {
  }

  /** What folds to a text without white space around it has none either. */
  lemma FoldKeepsPlain(a: string, b: string)
    requires EqualFold(a, b) && TrimSpace(a) == a
    ensures TrimSpace(b) == b && (a == "" <==> b == "")
  {
    assert |ToLower(a)| == |ToLower(b)|;
    TrimEnds(a);
    if a != "" {
      var n := |a| - 1;
      assert ToLower(a)[0] == ToLower(b)[0] && ToLower(a)[n] == ToLower(b)[n];
      FoldKeepsSpace(a[0], b[0]);
      FoldKeepsSpace(a[n], b[n]);
      PlainTrim(b);
    }
  }

  lemma {:induction false} BeforeConcat(a: string, b: string, c: char)
    requires c !in a
    ensures Before(a + b, c) == a + Before(b, c)
  {
    if a == [] {
      assert a + b == b;
    } else {
      assert a == [a[0]] + a[1..];
      BeforeConcat(a[1..], b, c);
      assert (a + b)[0] == a[0] && (a + b)[1..] == a[1..] + b;
      Assoc([a[0]], a[1..], Before(b, c));
    }
  }

  lemma {:induction false} BeforeFirst(a: string, c: char, b: string)
    requires c !in a && b != [] && b[0] == c
    ensures Before(a + b, c) == a
  {
    BeforeConcat(a, b, c);
    assert Before(b, c) == [];
  }

  /** The sequence without its first element that hits. */
  function RemoveFirst<T>(s: seq<T>, hit: T -> bool): seq<T> {
    if s == [] then [] else if hit(s[0]) then s[1..] else [s[0]] + RemoveFirst(s[1..], hit)
  }

  lemma {:induction false} RemoveFirstIs<T>(s: seq<T>, hit: T -> bool, i: nat)
    requires i <= |s| && (i < |s| ==> hit(s[i])) && forall k :: 0 <= k < i ==> !hit(s[k])
    ensures RemoveFirst(s, hit) == if i == |s| then s else s[..i] + s[i + 1..]
  {
    if i > 0 {
      RemoveFirstIs(s[1..], hit, i - 1);
      assert s == [s[0]] + s[1..];
      if i < |s| { CutOneLater(s, i); }
    }
  }

  lemma CutOneLater<T>(s: seq<T>, i: nat)
    requires 0 < i < |s|
    ensures [s[0]] + (s[1..][..i - 1] + s[1..][i..]) == s[..i] + s[i + 1..]
  {
    assert s[1..][i..] == s[i + 1..];
    assert [s[0]] + s[1..][..i - 1] == s[..i];
  }

  lemma {:induction false} RemoveFirstAt<T>(s: seq<T>, hit: T -> bool) returns (i: nat)
    ensures i <= |s| && (i < |s| ==> hit(s[i])) && forall k :: 0 <= k < i ==> !hit(s[k])
    ensures RemoveFirst(s, hit) == if i == |s| then s else s[..i] + s[i + 1..]
  {
    i := 0;
    while i < |s| && !hit(s[i])
      invariant i <= |s| && forall k :: 0 <= k < i ==> !hit(s[k])
    {
      i := i + 1;
    }
    RemoveFirstIs(s, hit, i);
  }

  // --- decimal numbers ---

  function Digit(d: nat): char
    requires d < 10
  {
    '0' + d as char
  }

  /** fmt.Sprintf("%d", n). */
  function Decimal(n: nat): (s: string)
    ensures s != []
  {
    if n < 10 then [Digit(n)] else Decimal(n / 10) + [Digit(n % 10)]
  }

  predicate IsDigit(c: char) { '0' <= c <= '9' }

  function Number(s: string): nat {
    if s == [] then 0
    else Number(s[..|s| - 1]) * 10 + if IsDigit(s[|s| - 1]) then (s[|s| - 1] - '0') as nat else 0
  }

  lemma {:induction false} DecimalNumber(n: nat)
    ensures Number(Decimal(n)) == n
    ensures forall i :: 0 <= i < |Decimal(n)| ==> IsDigit(Decimal(n)[i])
  {
    if n < 10 {
      assert [Digit(n)][..0] == [];
    } else {
      DecimalNumber(n / 10);
      assert Decimal(n)[..|Decimal(n)| - 1] == Decimal(n / 10);
    }
  }

  /** Which characters count as white space, by their code points. */
  lemma SpacesAre(c: char)
    ensures IsSpace(c) <==> c as int in {
      9, 10, 11, 12, 13, 32, 0x85, 0xA0, 0x1680, 0x2000, 0x2001, 0x2002, 0x2003, 0x2004, 0x2005, 0x2006, 0x2007,
      0x2008, 0x2009, 0x200A, 0x2028, 0x2029, 0x202F, 0x205F, 0x3000}
  {
  }
}
