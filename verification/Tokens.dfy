/** The invite token and its deskaccess:// URL (internal/rendezvous/token.go). */
module Tokens {
  import opened Numerals
  import opened Text
  import Base58

  const TOKEN_BYTES := 88
  const MAX_UNIX32 := 0xFFFF_FFFF
  /** Points in time are nanoseconds since the Unix epoch. */
  const SECOND := 1_000_000_000
  const YEAR := 365 * 24 * 3600 * SECOND
  const PREFIX: string := "deskaccess://"

  datatype TokenFields = Token(
    pubKey: seq<byte>,
    relayMask: byte,
    inviteID: seq<byte>,
    secret: seq<byte>,
    expiresAt: int,
    mode: byte,
    protocol: byte,
    targetPort: nat)

  /** The fixed-size Go arrays and the uint16 port. */
  type Token = t: TokenFields |
      |t.pubKey| == 32 && |t.inviteID| == 16 && |t.secret| == 32 && t.targetPort < 65536
    witness Token(Repeat(0, 32), 0, Repeat(0, 16), Repeat(0, 32), 0, 0, 0, 0)

  datatype DecodeError = NotDeskAccessURL | InvalidCharacter | InvalidLength
  datatype Result = Ok(token: Token) | Err(error: DecodeError)

  /** time.Time.Unix: whole seconds, rounded down. */
  function Unix(t: int): int { t / SECOND }

  function ClampUnix32(s: int): (r: nat)
    ensures r <= MAX_UNIX32
  {
    if s < 0 then 0 else if s > MAX_UNIX32 then MAX_UNIX32 else s
  }

  function DefaultPort(protocol: byte): nat {
    if protocol == 1 then 5900 else if protocol == 2 then 22 else 3389
  }

  function Port(t: Token): (p: nat)
    ensures 1 <= p <= 65535
  {
    if t.targetPort == 0 then DefaultPort(t.protocol) else t.targetPort
  }

  function ModeString(t: Token): string {
    if t.mode == 1 then "pairing" else "onetime"
  }

  predicate IsExpired(t: Token, now: int) {
    if t.mode == 1 then false
    else if t.expiresAt > now + 50 * YEAR then false
    else now > t.expiresAt
  }

  /** protocol in the high nibble, mode in the low one. */
  function Flags(t: Token): byte {
    (t.protocol * 16) % 256 + t.mode % 16
  }

  function Pack(t: Token): (bs: seq<byte>)
    ensures |bs| == TOKEN_BYTES
  {
    t.pubKey + [t.relayMask] + t.inviteID + t.secret
    + BigEndian(ClampUnix32(Unix(t.expiresAt)), 4) + [Flags(t)] + BigEndian(t.targetPort, 2)
  }

  function Unpack(bs: seq<byte>): Token
    requires |bs| == TOKEN_BYTES
  {
    PortBound(bs[86..88]);
    Token(bs[0..32], bs[32], bs[33..49], bs[49..81], Value(bs[81..85], 256) * SECOND,
          bs[85] % 16, bs[85] / 16, Value(bs[86..88], 256))
  }

  function Encode(t: Token): string {
    PREFIX + Base58.Encode(Pack(t))
  }

  /** What DecodeURL hands to the base58 decoder. */
  function Body(rest: string): string {
    Trim(Before(Before(TrimLeft(TrimSpace(rest), IsSlash), '?'), '#'), IsSlash)
  }

  predicate HasPrefix(url: string) {
    |url| >= |PREFIX| && ToLower(url)[..|PREFIX|] == PREFIX
  }

  function DecodeURL(url: string): (r: Result)
    ensures r.Ok? ==> HasPrefix(url)
  {
    if !HasPrefix(url) then Err(NotDeskAccessURL)
    else
      match Base58.Decode(Body(url[|PREFIX|..]))
      case None => Err(InvalidCharacter)
      case Some(bs) => if |bs| != TOKEN_BYTES then Err(InvalidLength) else Ok(Unpack(bs))
  }

  /** What survives one trip through the 88 bytes. */
  function Normalized(t: Token): Token {
    t.(expiresAt := ClampUnix32(Unix(t.expiresAt)) * SECOND, mode := t.mode % 16, protocol := t.protocol % 16)
  }

  // --- the 88 bytes ---

  lemma PortBound(bs: seq<byte>)
    requires |bs| == 2
    ensures Value(bs, 256) < 65536
  {
    ValueBound(bs, 256);
    assert Pow(256, 2) == 65536;
  }

  lemma PackedParts(t: Token)
    ensures Pack(t)[0..32] == t.pubKey && Pack(t)[32] == t.relayMask
    ensures Pack(t)[33..49] == t.inviteID && Pack(t)[49..81] == t.secret
    ensures Pack(t)[81..85] == BigEndian(ClampUnix32(Unix(t.expiresAt)), 4)
    ensures Pack(t)[85] == Flags(t) && Pack(t)[86..88] == BigEndian(t.targetPort, 2)
  {
  }

  /** Where everything stands in the 88 bytes, most significant byte first; the time in whole seconds
      from 1970 to 2106, the service in the upper half of its byte and the mode in the lower. */
  lemma TokenLayout(t: Token)
    ensures var b := Pack(t);
      && |b| == 88
      && b[..32] == t.pubKey && b[32] == t.relayMask && b[33..49] == t.inviteID && b[49..81] == t.secret
      && b[81] as int * 0x100_0000 + b[82] as int * 0x1_0000 + b[83] as int * 0x100 + b[84] as int
           == (if t.expiresAt < 0 then 0
               else if t.expiresAt / 1_000_000_000 > 0xFFFF_FFFF then 0xFFFF_FFFF else t.expiresAt / 1_000_000_000)
      && b[85] as int == t.protocol as int % 16 * 16 + t.mode as int % 16
      && b[86] as int * 256 + b[87] as int == t.targetPort
    ensures Encode(t) == "deskaccess://" + Base58.Encode(Pack(t))
  {
    PackedParts(t);
    FlagNibbles(t);
    var b := Pack(t);
    assert Pow(256, 4) == 0x1_0000_0000 && Pow(256, 2) == 65536;
    ValueOfBigEndian(ClampUnix32(Unix(t.expiresAt)), 4);
    ValueOfBigEndian(t.targetPort, 2);
    FourBytes(b[81..85]);
    TwoBytes(b[86..88]);
  }

  lemma FlagNibbles(t: Token)
    ensures Flags(t) / 16 == t.protocol % 16 && Flags(t) % 16 == t.mode % 16
  {
    assert (t.protocol * 16) % 256 == (t.protocol % 16) * 16;
  }

  lemma UnpackPack(t: Token)
    ensures Unpack(Pack(t)) == Normalized(t)
  {
    PackedParts(t);
    FlagNibbles(t);
    assert Pow(256, 4) == 0x1_0000_0000 && Pow(256, 2) == 65536;
    ValueOfBigEndian(ClampUnix32(Unix(t.expiresAt)), 4);
    ValueOfBigEndian(t.targetPort, 2);
  }

  lemma PackUnpack(bs: seq<byte>)
    requires |bs| == TOKEN_BYTES
    ensures Pack(Unpack(bs)) == bs
  {
    var t := Unpack(bs);
    ExpiryBound(bs[81..85]);
    BigEndianOfValue(bs[81..85]);
    BigEndianOfValue(bs[86..88]);
    NibbleFlags(bs[85]);
    SlicesOfToken(bs);
  }

  lemma NibbleFlags(f: byte)
    ensures ((f / 16) * 16) % 256 + (f % 16) % 16 == f
  {
  }

  lemma SlicesOfToken(bs: seq<byte>)
    requires |bs| == TOKEN_BYTES
    ensures bs[0..32] + [bs[32]] + bs[33..49] + bs[49..81] + bs[81..85] + [bs[85]] + bs[86..88] == bs
  {
  }

  lemma ExpiryBound(bs: seq<byte>)
    requires |bs| == 4
    ensures ClampUnix32(Unix(Value(bs, 256) * SECOND)) == Value(bs, 256)
  {
    ValueBound(bs, 256);
    assert Pow(256, 4) == 0x1_0000_0000;
  }

  /** Exactly which tokens survive unchanged. */
  lemma NormalizedIff(t: Token)
    ensures Normalized(t) == t <==>
      t.mode < 16 && t.protocol < 16 && t.expiresAt % SECOND == 0 && 0 <= Unix(t.expiresAt) <= MAX_UNIX32
  {
  }

  // --- the URL ---

  lemma EncodableIsPlain(s: string)
    requires Base58.Encodable(s)
    ensures All(s, c => !IsSpace(c) && c != '/' && c != '?' && c != '#' && c != '%' && c != ':')
  {
    forall i | 0 <= i < |s|
      ensures !IsSpace(s[i]) && s[i] != '/' && s[i] != '?' && s[i] != '#' && s[i] != '%' && s[i] != ':'
    {
      Base58.LetterRanges(Base58.IndexOf(s[i]));
    }
  }

  /** A query, a fragment, or trailing white space. */
  ghost predicate IsTail(s: string) {
    var t := TrimRight(s, IsSpace);
    t == [] || t[0] == '?' || t[0] == '#'
  }

  lemma SpaceTrimmed(ws: string, mid: string, tail: string)
    requires All(ws, IsSpace) && mid != [] && !IsSpace(mid[0]) && !IsSpace(mid[|mid| - 1])
    ensures TrimSpace(ws + (mid + tail)) == mid + TrimRight(tail, IsSpace)
  {
    TrimLeftAll(ws, mid + tail, IsSpace);
    TrimRightConcat(mid, tail, IsSpace);
  }

  lemma TrimmedRest(ws: string, left: string, br: string, tail: string)
    requires All(ws, IsSpace) && All(left, IsSlash)
    requires br != [] && !IsSpace(br[0]) && !IsSlash(br[0]) && !IsSpace(br[|br| - 1])
    ensures TrimLeft(TrimSpace(ws + (left + (br + tail))), IsSlash) == br + TrimRight(tail, IsSpace)
  {
    var t := TrimRight(tail, IsSpace);
    assert left + (br + tail) == (left + br) + tail;
    SpaceTrimmed(ws, left + br, tail);
    assert (left + br) + t == left + (br + t);
    TrimLeftAll(left, br + t, IsSlash);
  }

  lemma CutTail(br: string, t: string)
    requires '?' !in br && '#' !in br
    requires t == [] || t[0] == '?' || t[0] == '#'
    ensures Before(Before(br + t, '?'), '#') == br
  {
    BeforeConcat(br, t, '?');
    var t1 := Before(t, '?');
    BeforeConcat(br, t1, '#');
    assert Before(t1, '#') == [];
  }

  lemma BodyIgnoresDecoration(ws: string, left: string, body: string, right: string, tail: string)
    requires All(ws, IsSpace) && All(left, IsSlash) && All(right, IsSlash) && IsTail(tail)
    requires Base58.Encodable(body) && body != []
    ensures Body(ws + (left + ((body + right) + tail))) == body
  {
    EncodableIsPlain(body);
    var br := body + right;
    TrimmedRest(ws, left, br, tail);
    CutTail(br, TrimRight(tail, IsSpace));
    TrimRightConcat(body, right, IsSlash);
    TrimRightAll(right, IsSlash);
    assert body + [] == body;
  }

  lemma BodyWithTail(body: string, tail: string)
    requires Base58.Encodable(body) && body != [] && IsTail(tail)
    ensures Body(body + tail) == body
  {
    BodyIgnoresDecoration("", "", body, "", tail);
    EmptyParts(body, tail);
  }

  lemma EmptyParts(a: string, b: string)
    ensures "" + ("" + ((a + "") + b)) == a + b
  {
  }

  /** Any spelling of the scheme, extra slashes, a trailing slash, a query, a fragment and
      surrounding white space change nothing. */
  lemma DecorationIrrelevant(t: Token, scheme: string, ws: string, left: string, right: string, tail: string)
    requires |scheme| == |PREFIX| && ToLower(scheme) == PREFIX
    requires All(ws, IsSpace) && All(left, IsSlash) && All(right, IsSlash) && IsTail(tail)
    ensures DecodeURL(scheme + (ws + (left + ((Base58.Encode(Pack(t)) + right) + tail)))) == Ok(Normalized(t))
  {
    var body := Base58.Encode(Pack(t));
    Base58.DecodeEncode(Pack(t));
    Base58.EncodedLength(Pack(t));
    BodyIgnoresDecoration(ws, left, body, right, tail);
    UnpackPack(t);
    SchemeSpelling(scheme, ws + (left + ((body + right) + tail)));
  }

  lemma SchemeSpelling(scheme: string, rest: string)
    requires |scheme| == |PREFIX| && ToLower(scheme) == PREFIX
    ensures HasPrefix(scheme + rest) && (scheme + rest)[|PREFIX|..] == rest
  {
    assert ToLower(scheme + rest)[..|PREFIX|] == ToLower(scheme);
  }

  lemma DecodedWithTail(t: Token, scheme: string, body: string, tail: string)
    requires |scheme| == |PREFIX| && ToLower(scheme) == PREFIX
    requires body == Base58.Encode(Pack(t)) && IsTail(tail)
    ensures DecodeURL((scheme + body) + tail) == Ok(Normalized(t))
  {
    DecorationIrrelevant(t, scheme, "", "", "", tail);
    EmptyParts(body, tail);
    Assoc(scheme, body, tail);
  }

  lemma PrefixIsLower()
    ensures ToLower(PREFIX) == PREFIX
  {
  }

  /** Every query or fragment after the host's own URL is ignored. */
  lemma EncodedWithTail(t: Token, tail: string)
    requires IsTail(tail)
    ensures DecodeURL(Encode(t) + tail) == Ok(Normalized(t))
  {
    PrefixIsLower();
    DecodedWithTail(t, PREFIX, Base58.Encode(Pack(t)), tail);
  }

  lemma RoundTrip(t: Token)
    ensures DecodeURL(Encode(t)) == Ok(Normalized(t))
  {
    assert TrimRight("", IsSpace) == "";
    EncodedWithTail(t, "");
    assert Encode(t) + "" == Encode(t);
  }

  /** Every URL that decodes carries exactly the canonical base58 text of the token it yields. */
  lemma DecodedIsCanonical(url: string)
    requires DecodeURL(url).Ok?
    ensures Encode(DecodeURL(url).token) == PREFIX + Body(url[|PREFIX|..])
    ensures Normalized(DecodeURL(url).token) == DecodeURL(url).token
  {
    var body := Body(url[|PREFIX|..]);
    Base58.EncodeDecode(body);
    PackUnpack(Base58.Decode(body).value);
    UnpackPack(DecodeURL(url).token);
  }

  lemma URLLength(t: Token)
    ensures 101 <= |Encode(t)| <= 134
  {
    Base58.EncodedLength(Pack(t));
  }

  // --- the buffer writes ---

  method EncodeToken(t: Token) returns (url: string)
    ensures url == Encode(t)
  {
    var buf := new byte[TOKEN_BYTES](i => 0);
    forall i | 0 <= i < 32 { buf[i] := t.pubKey[i]; }
    buf[32] := t.relayMask;
    forall i | 33 <= i < 49 { buf[i] := t.inviteID[i - 33]; }
    forall i | 49 <= i < 81 { buf[i] := t.secret[i - 49]; }
    var expires := Unix(t.expiresAt);
    if expires < 0 {
      expires := 0;
    }
    if expires > MAX_UNIX32 {
      expires := MAX_UNIX32;
    }
    var be := BigEndian(expires, 4);
    forall i | 81 <= i < 85 { buf[i] := be[i - 81]; }
    buf[85] := Flags(t);
    var port := BigEndian(t.targetPort, 2);
    forall i | 86 <= i < 88 { buf[i] := port[i - 86]; }
    assert buf[..] == Pack(t);
    var text := Base58.EncodeBytes(buf[..]);
    url := PREFIX + text;
  }
}
