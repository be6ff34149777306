/** Which local address a granted port stands for (internal/tunnel/tunnel.go). */
module Targets {
  import opened Text

  const LOOPBACK: string := "127.0.0.1"
  const DEFAULT_TARGET: string := "127.0.0.1:3389"
  const MAX_PORT := 65535

  predicate AllDigits(s: string) { forall i :: 0 <= i < |s| ==> IsDigit(s[i]) }

  /** strconv.Atoi, as far as results in 1..65535 go. */
  function ParsePort(s: string): (p: Option<nat>)
    ensures p.Some? ==> 1 <= p.value <= MAX_PORT
  {
    var digits := if s != [] && s[0] == '+' then s[1..] else s;
    if digits != [] && AllDigits(digits) && 1 <= Number(digits) <= MAX_PORT
    then Some(Number(digits)) else None
  }

  /** What follows the last colon; None without one. */
  function AfterLastColon(s: string): Option<string> {
    if s == [] then None
    else if s[|s| - 1] == ':' then Some("")
    else
      match AfterLastColon(s[..|s| - 1])
      case None => None
      case Some(rest) => Some(rest + [s[|s| - 1]])
  }

  /** The port of an address, or the fallback (configuredTargetPort). */
  function ConfiguredPort(addr: string, fallback: nat): (p: nat)
    ensures fallback > 0 ==> p > 0
  {
    match AfterLastColon(TrimSpace(addr))
    case None => fallback
    case Some(rest) =>
      match ParsePort(rest)
      case None => fallback
      case Some(p) => p
  }

  function Loopback(port: nat): string {
    LOOPBACK + [':'] + Decimal(port)
  }

  /** targetAddrForPort. */
  function TargetAddr(port: int, configured: string): string {
    if 0 < port <= MAX_PORT then Loopback(port)
    else if TrimSpace(configured) != "" then configured
    else DEFAULT_TARGET
  }

  function ConnectTargetHost(host: string): string {
    var h := TrimSpace(Trim(host, IsBracket));
    if h == "" then LOOPBACK else h
  }

  /** isLoopbackHost, given which strings parse as a loopback IP address. */
  predicate IsLoopbackHost(host: string, loopbackIP: string -> bool) {
    EqualFold(ConnectTargetHost(host), "localhost") || loopbackIP(ConnectTargetHost(host))
  }

  lemma {:induction false} AfterLastColonIs(a: string, b: string)
    requires ':' !in b
    ensures AfterLastColon(a + [':'] + b) == Some(b)
  {
    var s := a + [':'] + b;
    if b != [] {
      AfterLastColonIs(a, b[..|b| - 1]);
      assert s[..|s| - 1] == a + [':'] + b[..|b| - 1];
      assert b == b[..|b| - 1] + [b[|b| - 1]];
    }
  }

  /** The dialled address names the granted port and no other. */
  lemma LoopbackNamesPort(port: nat)
    requires 1 <= port <= MAX_PORT
    ensures AfterLastColon(Loopback(port)) == Some(Decimal(port)) && ParsePort(Decimal(port)) == Some(port)
  {
    DecimalNumber(port);
    AfterLastColonIs(LOOPBACK, Decimal(port));
  }

  lemma LoopbackInjective(p: nat, q: nat)
    requires Loopback(p) == Loopback(q)
    ensures p == q
  {
    DecimalNumber(p);
    DecimalNumber(q);
    AfterLastColonIs(LOOPBACK, Decimal(p));
    AfterLastColonIs(LOOPBACK, Decimal(q));
  }

  lemma DefaultTarget()
    ensures DEFAULT_TARGET == Loopback(3389)
  {
    assert Decimal(3) == "3" && Decimal(33) == "33" && Decimal(338) == "338" && Decimal(3389) == "3389";
  }

  /** The granted port is dialled on the loopback address exactly when it is a port number (or
      the configured address happens to be spelled that way). */
  lemma TargetIsLoopbackIff(port: nat, configured: string)
    requires port > 0
    ensures TargetAddr(port, configured) == Loopback(port) <==>
      port <= MAX_PORT || (TrimSpace(configured) != "" && configured == Loopback(port))
  {
    DefaultTarget();
    if port > MAX_PORT && DEFAULT_TARGET == Loopback(port) {
      LoopbackInjective(port, 3389);
    }
  }

  // --- which hosts a CONNECT request may name ---

  predicate IsBracket(c: char) { c == '[' || c == ']' }

  /** The host without brackets around it and then without white space around it. */
  ghost predicate NamesHost(host: string, name: string) {
    exists inner :: StripsTo(host, inner, IsBracket) && StripsTo(inner, name, IsSpace)
  }

  lemma NamesHostIff(host: string, name: string)
    ensures NamesHost(host, name) <==> name == TrimSpace(Trim(host, IsBracket))
  {
    var inner := Trim(host, IsBracket);
    TrimIff(host, inner, IsBracket);
    TrimIff(inner, TrimSpace(inner), IsSpace);
    if NamesHost(host, name) {
      var j :| StripsTo(host, j, IsBracket) && StripsTo(j, name, IsSpace);
      TrimIff(host, j, IsBracket);
      TrimIff(j, name, IsSpace);
    }
  }

  /** The name is "localhost", however capitalised, or a loopback address. */
  ghost predicate LoopbackName(name: string, loopbackIP: string -> bool) {
    (|name| == 9 && forall i :: 0 <= i < 9 ==> SameLetter(name[i], "localhost"[i])) || loopbackIP(name)
  }

  lemma LoopbackNameIff(name: string, loopbackIP: string -> bool)
    ensures LoopbackName(name, loopbackIP) <==> EqualFold(name, "localhost") || loopbackIP(name)
  {
    EqualFoldIff(name, "localhost");
  }

  /** Exactly which hosts are loopback hosts; no name at all stands for 127.0.0.1. */
  lemma IsLoopbackHostIff(host: string, loopbackIP: string -> bool)
    ensures IsLoopbackHost(host, loopbackIP) <==> LoopbackHost(host, loopbackIP)
  {
    var n := TrimSpace(Trim(host, IsBracket));
    NamesHostIff(host, n);
    NamesHostIff(host, "");
    LoopbackNameIff(n, loopbackIP);
    LoopbackNameIff("127.0.0.1", loopbackIP);
    EqualFoldIff("127.0.0.1", "localhost");
    forall m | NamesHost(host, m) ensures m == n {
      NamesHostIff(host, m);
    }
  }

  ghost predicate LoopbackHost(host: string, loopbackIP: string -> bool) {
    || (NamesHost(host, "") && loopbackIP("127.0.0.1"))
    || (exists name :: name != "" && NamesHost(host, name) && LoopbackName(name, loopbackIP))
  }

  /** The host that the repository's own clients send. */
  lemma OwnHost(loopbackIP: string -> bool)
    ensures IsLoopbackHost("127.0.0.1", loopbackIP) <==> loopbackIP("127.0.0.1")
    ensures TrimSpace("127.0.0.1") == "127.0.0.1"
  {
    assert Trim("127.0.0.1", IsBracket) == "127.0.0.1";
    EqualFoldIff("127.0.0.1", "localhost");
  }

  // --- the configured port ---

  ghost predicate Zeros(z: string) { forall i :: 0 <= i < |z| ==> z[i] == '0' }

  /** The text is a positive number in decimal, possibly with zeros and a plus sign before it. */
  ghost predicate Spells(s: string, n: nat) {
    exists z :: Zeros(z) && (s == z + Decimal(n) || s == ['+'] + (z + Decimal(n)))
  }

  lemma {:induction false} NumberOfZeros(z: string, s: string)
    requires Zeros(z)
    ensures Number(z + s) == Number(s)
  {
    if s == [] {
      assert z + s == z;
      if z != [] {
        NumberOfZeros(z[..|z| - 1], []);
        assert z[..|z| - 1] + [] == z[..|z| - 1];
      }
    } else {
      NumberOfZeros(z, s[..|s| - 1]);
      assert (z + s)[..|z + s| - 1] == z + s[..|s| - 1];
    }
  }

  lemma {:induction false} ZeroIsZeros(s: string)
    requires AllDigits(s) && Number(s) == 0
    ensures Zeros(s)
  {
    if s != [] { ZeroIsZeros(s[..|s| - 1]); }
  }

  lemma {:induction false} DigitsSpell(s: string) returns (z: string)
    requires AllDigits(s) && Number(s) > 0
    ensures Zeros(z) && s == z + Decimal(Number(s))
  {
    var f, d := s[..|s| - 1], s[|s| - 1];
    assert s == f + [d];
    if Number(f) == 0 {
      ZeroIsZeros(f);
      z := f;
      assert Decimal(Number(s)) == [d];
    } else {
      z := DigitsSpell(f);
      assert Decimal(Number(s)) == Decimal(Number(f)) + [d];
    }
  }

  function AfterPlus(s: string): string {
    if s != [] && s[0] == '+' then s[1..] else s
  }

  lemma ParsedIsSpelled(s: string, p: nat)
    requires ParsePort(s) == Some(p)
    ensures Spells(s, p)
  {
    var z := DigitsSpell(AfterPlus(s));
    assert s == z + Decimal(p) || s == ['+'] + (z + Decimal(p));
  }

  lemma SpelledIsParsed(z: string, p: nat)
    requires 1 <= p <= 65535 && Zeros(z)
    ensures ParsePort(z + Decimal(p)) == Some(p) && ParsePort(['+'] + (z + Decimal(p))) == Some(p)
  {
    var d := z + Decimal(p);
    DecimalNumber(p);
    NumberOfZeros(z, Decimal(p));
    assert AllDigits(d) && d[0] != '+';
    assert AfterPlus(['+'] + d) == d;
  }

  /** Exactly which texts are read as which port. */
  lemma ParsePortIff(s: string, p: nat)
    ensures ParsePort(s) == Some(p) <==> 1 <= p <= 65535 && Spells(s, p)
  {
    if ParsePort(s) == Some(p) {
      ParsedIsSpelled(s, p);
    }
    if 1 <= p <= 65535 && Spells(s, p) {
      var z :| Zeros(z) && (s == z + Decimal(p) || s == ['+'] + (z + Decimal(p)));
      SpelledIsParsed(z, p);
    }
  }

  lemma {:induction false} AfterLastColonSplits(s: string) returns (a: string, b: string)
    requires AfterLastColon(s).Some?
    ensures s == a + [':'] + b && ':' !in b && AfterLastColon(s) == Some(b)
  {
    if s[|s| - 1] == ':' {
      a, b := s[..|s| - 1], [];
    } else {
      a, b := AfterLastColonSplits(s[..|s| - 1]);
      b := b + [s[|s| - 1]];
      assert s == s[..|s| - 1] + [s[|s| - 1]];
    }
  }

  /** After the last colon of the address the port is spelled. */
  ghost predicate NamesPort(addr: string, p: nat) {
    exists a, b :: TrimSpace(addr) == a + [':'] + b && ':' !in b && Spells(b, p)
  }

  /** Exactly which port an address stands for: the one it names, if that is a port number, and else
      the fallback. */
  lemma ConfiguredPortIff(addr: string, fallback: nat, p: nat)
    ensures ConfiguredPort(addr, fallback) == p <==>
      if exists q :: 1 <= q <= 65535 && NamesPort(addr, q) then 1 <= p <= 65535 && NamesPort(addr, p) else p == fallback
  {
    var t := TrimSpace(addr);
    forall q | 1 <= q <= 65535 && NamesPort(addr, q) ensures ConfiguredPort(addr, fallback) == q {
      var a, b :| t == a + [':'] + b && ':' !in b && Spells(b, q);
      AfterLastColonIs(a, b);
      ParsePortIff(b, q);
    }
    if AfterLastColon(t).Some? {
      var a, b := AfterLastColonSplits(t);
      if ParsePort(b).Some? {
        ParsePortIff(b, ParsePort(b).value);
        assert NamesPort(addr, ParsePort(b).value);
      }
    }
  }

  /** The loopback address of a port, and which numbers are ports. */
  lemma LoopbackIs(port: nat)
    ensures Loopback(port) == "127.0.0.1" + ":" + Decimal(port)
    ensures TargetAddr(port, "") == if 1 <= port <= 65535 then "127.0.0.1" + ":" + Decimal(port) else "127.0.0.1:3389"
  {
  }
}
