/** The second decoder of the invite URL, in the Android client
    (android/.../MainActivity.kt), and its agreement with the Go one.  android.net.Uri is
    modelled as the split at the first ':' and the first '#' after it; its percent-decoding
    is a parameter. */
module AndroidInvite {
  import opened Numerals
  import opened Text
  import opened Tokens
  import Base58

  datatype Invite = Invite(relayMask: byte, expiresAtMillis: nat, mode: byte, protocol: byte, targetPort: nat)

  /** Percent-decoding may rewrite a string only from its first '%' on. */
  ghost predicate KeepsPlain(decode: string -> string) {
    forall s: string :: KeepsPlainPart(decode, s)
  }

  ghost predicate KeepsPlainPart(decode: string -> string, s: string) {
    Before(s, '%') <= decode(s) && ('%' !in s ==> decode(s) == s)
  }

  /** BigInteger.toByteArray: two's complement, so a sign byte may come first. */
  function ToByteArray(n: nat): (bs: seq<byte>) {
    ValueOfDigits(n, 256);
    if n == 0 then [0] else if Digits(n, 256)[0] >= 128 then [0] + Digits(n, 256) else Digits(n, 256)
  }

  lemma DropSignByte(n: nat)
    ensures ToByteArray(n)[Leading(ToByteArray(n), 0)..] == Digits(n, 256)
  {
    ValueOfDigits(n, 256);
    LeadingIs(ToByteArray(n), 0, if n == 0 || Digits(n, 256)[0] >= 128 then 1 else 0);
  }

  /** decodeBase58: blank input is refused before any digit is read. */
  function Base58OrNull(input: string): (r: Option<seq<byte>>) {
    if input == [] then None else Base58.Decode(input)
  }

  method DecodeBase58(input: string) returns (r: Option<seq<byte>>)
    ensures r == Base58OrNull(input)
  {
    if forall i :: 0 <= i < |input| ==> IsSpace(input[i]) {
      BlankIsNull(input);
      return None;
    }
    var number := Base58Number(input);
    if number == None {
      return None;
    }
    var raw := ToByteArray(number.value);
    raw := raw[Leading(raw, 0)..];
    DropSignByte(number.value);
    var leadingZeros := Leading(input, '1');
    Base58.LeadingOnes(input, leadingZeros);
    var out: seq<byte> := Repeat(0, leadingZeros) + raw;
    assert out == Recode(Base58.Indices(input), 58, 256);
    r := Some(out);
  }

  lemma BlankIsNull(input: string)
    requires forall i :: 0 <= i < |input| ==> IsSpace(input[i])
    ensures Base58OrNull(input) == None
  {
    if input != [] && Base58.Encodable(input) { EncodableIsPlain(input); }
  }

  method Base58Number(input: string) returns (n: Option<nat>)
    ensures n == if Base58.Encodable(input) then Some(Value(Base58.Indices(input), 58)) else None
  {
    var number: nat := 0;
    for k := 0 to |input|
      invariant Base58.Encodable(input[..k]) && number == Value(Base58.Indices(input[..k]), 58)
    {
      var index := Base58.IndexOf(input[k]);
      if index < 0 {
        return None;
      }
      Base58.IndicesSnoc(input[..k], input[k]);
      assert input[..k + 1] == input[..k] + [input[k]];
      number := number * 58 + index;
    }
    assert input[..|input|] == input;
    n := Some(number);
  }

  function Uint32(bs: seq<byte>, offset: nat): nat
    requires offset + 4 <= |bs|
  {
    (bs[offset] as int) * 0x100_0000 + (bs[offset + 1] as int) * 0x1_0000
    + (bs[offset + 2] as int) * 0x100 + bs[offset + 3] as int
  }

  function Fields(bs: seq<byte>): Invite
    requires |bs| == TOKEN_BYTES
  {
    Invite(bs[32], Uint32(bs, 81) * 1000, bs[85] % 16, (bs[85] / 16) % 16, (bs[86] as int) * 256 + bs[87] as int)
  }

  function RemovePrefix(s: string, p: string): string {
    if p <= s then s[|p|..] else s
  }

  /** The base58 text that parse cuts out of the scheme-specific part. */
  function Encoded(ssp: string): string {
    Before(Before(RemovePrefix(ssp, "//"), '?'), '#')
  }

  function Decoded(encoded: string): Option<Invite> {
    match Base58OrNull(encoded)
    case None => None
    case Some(bs) => if |bs| != TOKEN_BYTES then None else Some(Fields(bs))
  }

  /** Only of a hierarchical Uri can query parameters be read: '/' follows the scheme. */
  predicate Hierarchical(rest: string) { rest != [] && rest[0] == '/' }

  /** parse; None when it returns null or throws, as it does on an opaque Uri. */
  function Parse(raw: string, decode: string -> string): (r: Option<Invite>) {
    var scheme := Before(raw, ':');
    if scheme == raw || !EqualFold(scheme, "deskaccess") then None
    else
      var rest := raw[|scheme| + 1..];
      if !Hierarchical(rest) then None else Decoded(Encoded(decode(Before(rest, '#'))))
  }

  function EffectivePort(i: Invite): nat {
    if i.targetPort > 0 then i.targetPort
    else if i.protocol == 1 then 5900 else if i.protocol == 2 then 22 else 3389
  }

  /** Both decoders read the same invite. */
  ghost predicate Agrees(i: Invite, t: Token) {
    && i.relayMask == t.relayMask
    && i.expiresAtMillis * 1_000_000 == t.expiresAt
    && i.mode == t.mode && i.protocol == t.protocol && i.targetPort == t.targetPort
    && EffectivePort(i) == Port(t)
  }

  lemma Uint32IsValue(bs: seq<byte>, offset: nat)
    requires offset + 4 <= |bs|
    ensures Uint32(bs, offset) == Value(bs[offset..offset + 4], 256)
  {
    var w: seq<nat> := bs[offset..offset + 4];
    var w3, w2, w1 := w[..3], w[..2], w[..1];
    assert w1[..0] == [] && w2[..1] == w1 && w3[..2] == w2;
    assert Value(w1, 256) == w[0];
    assert Value(w2, 256) == w[0] * 256 + w[1];
    assert Value(w3, 256) == (w[0] * 256 + w[1]) * 256 + w[2];
  }

  lemma PortIsValue(bs: seq<byte>)
    requires |bs| == TOKEN_BYTES
    ensures Fields(bs).targetPort == Value(bs[86..88], 256)
  {
    var w: seq<nat> := bs[86..88];
    assert Value(w[..1], 256) == w[0];
  }

  lemma SameBytesAgree(bs: seq<byte>)
    requires |bs| == TOKEN_BYTES
    ensures Agrees(Fields(bs), Unpack(bs))
  {
    Uint32IsValue(bs, 81);
    PortIsValue(bs);
  }

  // --- cutting the URL ---

  /** What both parsers cut out of scheme "://" rest. */
  function Head(rest: string): string {
    Before(Before(rest, '#'), '?')
  }

  lemma HeadAndTail(rest: string)
    ensures Head(rest) <= rest
    ensures rest == Head(rest) || rest[|Head(rest)|] == '?' || rest[|Head(rest)|] == '#'
    ensures '?' !in Head(rest) && '#' !in Head(rest)
  {
    var a := Before(rest, '#');
    var h := Before(a, '?');
    assert forall k :: 0 <= k < |h| ==> h[k] == a[k];
  }

  lemma EncodedIs(h: string, more: string)
    requires '?' !in h && '#' !in h && (more == [] || more[0] == '?')
    ensures Encoded("//" + (h + more)) == h
  {
    assert ("//" + (h + more))[2..] == h + more;
    BeforeConcat(h, more, '?');
    assert Before(more, '?') == [];
    assert h + [] == h;
    BeforeConcat(h, [], '#');
  }

  lemma CutWhole(h: string, decode: string -> string)
    requires KeepsPlain(decode) && '%' !in h && '#' !in h && '?' !in h
    ensures Encoded(decode("//" + h)) == h
  {
    assert KeepsPlainPart(decode, "//" + h);
    assert "//" + h == "//" + (h + []);
    EncodedIs(h, []);
  }

  lemma CutAtQuery(a: string, h: string, decode: string -> string)
    requires KeepsPlain(decode) && '%' !in h && '#' !in h && '?' !in h && h < a && a[|h|] == '?'
    ensures Encoded(decode("//" + a)) == h
  {
    assert h + "?" <= a;
    KeptPrefix("//" + (h + "?"), "//" + a, decode);
    EncodedFromPrefix(h, decode("//" + a));
  }

  /** Percent-decoding does not reach the cut-out text. */
  lemma CutOut(rest: string, decode: string -> string)
    requires KeepsPlain(decode) && '%' !in Head(rest)
    ensures Encoded(decode("//" + Before(rest, '#'))) == Head(rest)
  {
    HeadAndTail(rest);
    if Before(rest, '#') == Head(rest) {
      CutWhole(Head(rest), decode);
    } else {
      CutAtQuery(Before(rest, '#'), Head(rest), decode);
    }
  }

  lemma EncodedFromPrefix(h: string, d: string)
    requires "//" + (h + "?") <= d && '?' !in h && '#' !in h
    ensures Encoded(d) == h
  {
    var p := "//" + (h + "?");
    var more := d[|h| + 2..];
    assert d == p + d[|p|..];
    assert d == "//" + (h + more) && more[0] == '?';
    EncodedIs(h, more);
  }

  lemma KeptPrefix(p: string, s: string, decode: string -> string)
    requires KeepsPlain(decode) && p <= s && '%' !in p
    ensures p <= decode(s)
  {
    assert s == p + s[|p|..];
    BeforeConcat(p, s[|p|..], '%');
    assert KeepsPlainPart(decode, s);
  }

  lemma TailIsTail(tail: string)
    requires tail == [] || tail[0] == '?' || tail[0] == '#'
    ensures IsTail(tail)
  {
    if tail != [] {
      TrimRightConcat([tail[0]], tail[1..], IsSpace);
      assert tail == [tail[0]] + tail[1..];
    }
  }

  lemma GoBody(rest: string)
    requires Head(rest) != [] && Base58.Encodable(Head(rest))
    ensures Body(rest) == Head(rest)
  {
    HeadAndTail(rest);
    var h := Head(rest);
    var tail := rest[|h|..];
    assert rest == h + tail;
    TailIsTail(tail);
    BodyWithTail(h, tail);
  }

  /** How Uri splits the URL. */
  lemma SchemeCut(scheme: string, rest: string)
    requires ToLower(scheme) == "deskaccess"
    ensures Before(scheme + "://" + rest, ':') == scheme
    ensures (scheme + "://" + rest)[|scheme| + 1..] == "//" + rest
  {
    NoColon(scheme);
    SplitAtColon(scheme, "//" + rest);
    ColonSlashes(scheme, rest);
  }

  lemma ColonSlashes(a: string, d: string)
    ensures a + "://" + d == a + (":" + ("//" + d))
  {
    assert "://" == ":" + "//";
  }

  lemma NoColon(scheme: string)
    requires ToLower(scheme) == "deskaccess"
    ensures ':' !in scheme
  {
    assert ':' !in ToLower(scheme);
    assert forall i :: 0 <= i < |scheme| ==> ToLower(scheme)[i] == Lower(scheme[i]);
  }

  lemma SplitAtColon(a: string, b: string)
    requires ':' !in a
    ensures Before(a + (":" + b), ':') == a && (a + (":" + b))[|a| + 1..] == b
  {
    BeforeFirst(a, ':', ":" + b);
  }

  /** Parse, for a URL with "://", is decided by the cut-out text alone. */
  lemma ParseByHead(scheme: string, rest: string, decode: string -> string)
    requires KeepsPlain(decode) && '%' !in Head(rest) && ToLower(scheme) == "deskaccess"
    ensures Parse(scheme + "://" + rest, decode) == Decoded(Head(rest))
  {
    SchemeCut(scheme, rest);
    assert ToLower("deskaccess") == "deskaccess";
    BeforeConcat("//", rest, '#');
    CutOut(rest, decode);
  }

  lemma GoByHead(scheme: string, rest: string)
    requires ToLower(scheme) == "deskaccess"
    ensures HasPrefix(scheme + "://" + rest) && (scheme + "://" + rest)[|PREFIX|..] == rest
  {
    var full := scheme + "://";
    assert ToLower(full) == "deskaccess" + "://";
    SchemeSpelling(full, rest);
  }

  // --- the decoders agree ---

  /** What the Android client accepts in a URL with "://" and nothing escaped in the cut-out text,
      the Go client accepts and reads alike. */
  lemma AndroidImpliesGo(scheme: string, rest: string, decode: string -> string)
    requires KeepsPlain(decode) && '%' !in Head(rest) && ToLower(scheme) == "deskaccess"
    requires Parse(scheme + "://" + rest, decode).Some?
    ensures DecodeURL(scheme + "://" + rest).Ok?
    ensures Agrees(Parse(scheme + "://" + rest, decode).value, DecodeURL(scheme + "://" + rest).token)
  {
    ParseByHead(scheme, rest, decode);
    GoByHead(scheme, rest);
    GoBody(rest);
    SameBytesAgree(Base58.Decode(Head(rest)).value);
  }

  const SCHEME_SIZE := 10

  lemma SchemeSize()
    ensures |ToLower("deskaccess")| == SCHEME_SIZE && ToLower("deskaccess") == "deskaccess"
  {
  }

  /** An accepted URL is a spelling of the scheme, a colon and the rest. */
  lemma AcceptedScheme(raw: string, decode: string -> string) returns (scheme: string)
    requires Parse(raw, decode).Some?
    ensures |scheme| == SCHEME_SIZE < |raw| && ToLower(scheme) == "deskaccess" && raw[..SCHEME_SIZE] == scheme
    ensures raw[SCHEME_SIZE] == ':'
  {
    SchemeSize();
    scheme := Before(raw, ':');
    assert |ToLower(scheme)| == |scheme|;
  }

  /** Two slashes follow the scheme. */
  predicate HasSlashes(raw: string) {
    |raw| > SCHEME_SIZE && "//" <= raw[SCHEME_SIZE + 1..]
  }

  lemma SplitURL(raw: string)
    requires HasSlashes(raw) && raw[SCHEME_SIZE] == ':'
    ensures raw == raw[..SCHEME_SIZE] + "://" + raw[SCHEME_SIZE + 3..]
  {
    var tail := raw[SCHEME_SIZE + 1..];
    assert tail == "//" + tail[2..];
    assert raw == raw[..SCHEME_SIZE] + [raw[SCHEME_SIZE]] + tail;
  }

  lemma PrefixParts()
    ensures |PREFIX| == SCHEME_SIZE + 3 && PREFIX[SCHEME_SIZE + 1] == '/' && PREFIX[SCHEME_SIZE + 2] == '/'
  {
  }

  lemma PrefixHasSlashes(raw: string)
    requires HasPrefix(raw)
    ensures HasSlashes(raw)
  {
    PrefixParts();
    var l := ToLower(raw)[..|PREFIX|];
    assert l[SCHEME_SIZE + 1] == '/' && l[SCHEME_SIZE + 2] == '/';
    SlashIsSlash(raw[SCHEME_SIZE + 1]);
    SlashIsSlash(raw[SCHEME_SIZE + 2]);
    assert raw[SCHEME_SIZE + 1..][..2] == "//";
  }

  /** Without the two slashes the Go client does not know the scheme. */
  lemma GoNeedsSlashes(raw: string)
    requires !HasSlashes(raw)
    ensures !HasPrefix(raw)
  {
    if HasPrefix(raw) { PrefixHasSlashes(raw); }
  }

  lemma SlashIsSlash(c: char)
    requires Lower(c) == '/'
    ensures c == '/'
  {
  }

  // a '%' that neither parser cuts off stays in what Go hands to base58

  lemma {:induction false} TrimLeftMark(x: string, y: string, p: char -> bool) returns (z: string)
    requires !p('%')
    ensures TrimLeft((x + ['%']) + y, p) == (z + ['%']) + y && forall c :: c in z ==> c in x
  {
    var s := (x + ['%']) + y;
    if x != [] && p(x[0]) {
      assert s[1..] == (x[1..] + ['%']) + y;
      z := TrimLeftMark(x[1..], y, p);
    } else {
      z := x;
    }
  }

  lemma TrimMark(x: string, y: string, p: char -> bool) returns (z: string, w: string)
    requires !p('%')
    ensures Trim((x + ['%']) + y, p) == (z + ['%']) + w && forall c :: c in z ==> c in x
  {
    z := TrimLeftMark(x, y, p);
    w := TrimRight(y, p);
    TrimRightConcat(z + ['%'], y, p);
  }

  lemma MarkedBody(x: string, y: string)
    requires '?' !in x && '#' !in x
    ensures '%' in Body((x + ['%']) + y)
  {
    var x1, y1 := TrimMark(x, y, IsSpace);
    var x2 := TrimLeftMark(x1, y1, IsSlash);
    BeforeConcat(x2 + ['%'], y1, '?');
    var y2 := Before(y1, '?');
    BeforeConcat(x2 + ['%'], y2, '#');
    var x3, y3 := TrimMark(x2, Before(y2, '#'), IsSlash);
    var out := (x3 + ['%']) + y3;
    assert out[|x3|] == '%';
  }

  lemma PercentStays(rest: string)
    requires '%' in Head(rest)
    ensures '%' in Body(rest)
  {
    HeadAndTail(rest);
    var k :| 0 <= k < |Head(rest)| && Head(rest)[k] == '%';
    assert rest == (rest[..k] + ['%']) + rest[k + 1..];
    assert forall i :: 0 <= i < k ==> rest[..k][i] == Head(rest)[i];
    MarkedBody(rest[..k], rest[k + 1..]);
  }

  /** Exactly which URLs the Android client accepts are accepted by the Go client as well: those
      with two slashes after the scheme and nothing escaped in the text that both cut out. */
  lemma AndroidAcceptedIsGoAcceptedIff(raw: string, decode: string -> string)
    requires KeepsPlain(decode) && Parse(raw, decode).Some?
    ensures DecodeURL(raw).Ok? <==> HasSlashes(raw) && '%' !in Head(raw[SCHEME_SIZE + 3..])
    ensures DecodeURL(raw).Ok? ==> Agrees(Parse(raw, decode).value, DecodeURL(raw).token)
  {
    var scheme := AcceptedScheme(raw, decode);
    if !HasSlashes(raw) {
      GoNeedsSlashes(raw);
    } else {
      var rest := raw[SCHEME_SIZE + 3..];
      SplitURL(raw);
      if '%' in Head(rest) {
        PercentStays(rest);
        GoByHead(scheme, rest);
        PercentIsRefused(Body(rest));
      } else {
        AndroidImpliesGo(scheme, rest, decode);
      }
    }
  }

  lemma PercentIsRefused(s: string)
    requires '%' in s
    ensures Base58.Decode(s) == None
  {
    if Base58.Encodable(s) { EncodableIsPlain(s); }
  }

  /** With the second slash escaped they differ on every token. */
  lemma OnlyAndroidAccepts(t: Token, decode: string -> string)
    requires KeepsPlain(decode) && decode("/%2F" + Base58.Encode(Pack(t))) == "//" + Base58.Encode(Pack(t))
    ensures Parse("deskaccess" + (":" + ("/%2F" + Base58.Encode(Pack(t)))), decode) == Some(Fields(Pack(t)))
    ensures DecodeURL("deskaccess" + (":" + ("/%2F" + Base58.Encode(Pack(t))))).Err?
  {
    var body := Base58.Encode(Pack(t));
    var rest := "/%2F" + body;
    SchemeSize();
    NoColon("deskaccess");
    SplitAtColon("deskaccess", rest);
    EscapedBody(t, body, decode);
    var raw := "deskaccess" + (":" + rest);
    assert raw[SCHEME_SIZE + 1..] == rest && rest[1] == '%';
    GoNeedsSlashes(raw);
  }

  lemma EscapedBody(t: Token, body: string, decode: string -> string)
    requires body == Base58.Encode(Pack(t)) && decode("/%2F" + body) == "//" + body
    ensures Encoded(decode(Before("/%2F" + body, '#'))) == body && Base58OrNull(body) == Some(Pack(t))
  {
    HostHead(t, []);
    EncodableIsPlain(body);
    BeforeConcat("/%2F" + body, [], '#');
    assert ("/%2F" + body) + [] == "/%2F" + body && body + [] == body;
    EncodedIs(body, []);
  }

  /** Every URL the host produces, with any query or fragment after it, is read by both alike. */
  lemma BothReadHostURLs(t: Token, tail: string, decode: string -> string)
    requires KeepsPlain(decode) && (tail == [] || tail[0] == '?' || tail[0] == '#')
    ensures Parse(Encode(t) + tail, decode).Some?
    ensures DecodeURL(Encode(t) + tail) == Ok(Normalized(t))
    ensures Agrees(Parse(Encode(t) + tail, decode).value, Normalized(t))
  {
    PrefixSplits(Base58.Encode(Pack(t)), tail);
    HostHead(t, tail);
    ReadAtHead(t, Base58.Encode(Pack(t)) + tail, decode);
  }

  lemma ReadAtHead(t: Token, rest: string, decode: string -> string)
    requires KeepsPlain(decode) && '%' !in Head(rest) && Head(rest) != []
    requires Base58.Encodable(Head(rest)) && Base58.Decode(Head(rest)) == Some(Pack(t))
    ensures Parse("deskaccess" + "://" + rest, decode) == Some(Fields(Pack(t)))
    ensures DecodeURL("deskaccess" + "://" + rest) == Ok(Normalized(t))
    ensures Agrees(Fields(Pack(t)), Normalized(t))
  {
    assert ToLower("deskaccess") == "deskaccess";
    ParseByHead("deskaccess", rest, decode);
    GoByHead("deskaccess", rest);
    GoBody(rest);
    UnpackPack(t);
    SameBytesAgree(Pack(t));
  }

  lemma PrefixSplits(body: string, tail: string)
    ensures PREFIX + body + tail == "deskaccess" + "://" + (body + tail)
  {
    assert PREFIX == "deskaccess" + "://";
  }

  lemma HostHead(t: Token, tail: string)
    requires tail == [] || tail[0] == '?' || tail[0] == '#'
    ensures var h := Head(Base58.Encode(Pack(t)) + tail);
      h == Base58.Encode(Pack(t)) && h != [] && '%' !in h && Base58.Encodable(h)
      && Base58.Decode(h) == Some(Pack(t))
  {
    var body := Base58.Encode(Pack(t));
    Base58.DecodeEncode(Pack(t));
    Base58.EncodedLength(Pack(t));
    EncodableIsPlain(body);
    BeforeConcat(body, tail, '#');
    var u := Before(tail, '#');
    BeforeConcat(body, u, '?');
    assert Before(u, '?') == [];
  }
}
