/** An invite from the moment it is generated until an honest client uses it: what the link
    carries, when its proof is accepted, and when both sides take it to be expired
    (internal/pairing/pairing.go, internal/rendezvous/token.go). */
module HonestPeers {
  import opened Numerals
  import opened Text
  import opened Tokens
  import opened Transcripts
  import opened Identities
  import opened TrustedPeers
  import opened Invites

  /** What generateURL is asked for and what it draws at random. */
  datatype Order = Order(mode: string, protocol: string, targetPort: int, id: seq<byte>, secret: seq<byte>,
    expiresAt: int)

  ghost predicate ValidOrder(o: Order) { |o.id| == INVITE_ID_SIZE && |o.secret| == 32 }

  /** uint16(targetPort). */
  function Port16(port: int): nat { port % 65536 }

  function MadeToken(o: Order, pubKey: seq<byte>, relayMask: byte): Token
    requires ValidOrder(o) && |pubKey| == 32
  {
    Token(pubKey, relayMask, o.id, o.secret, o.expiresAt,
      if o.mode == "pairing" then 1 else 0, ParseProtocol(o.protocol), Port16(o.targetPort))
  }

  /** The stored invite is the one generated for the order, whatever has happened to it since. */
  predicate IsMade(o: Order, inv: Invite) {
    && inv.inviteID == Cells(o.id) && inv.secret == Cells(o.secret) && inv.mode == o.mode
    && inv.protocol == Or(o.protocol, "rdp") && inv.targetPort == Port16(o.targetPort) && inv.expiresAt == o.expiresAt
    && !inv.revoked
  }

  /** The link with its query parameters. */
  function Link(o: Order, pubKey: seq<byte>, relayMask: byte, query: string): string
    requires ValidOrder(o) && |pubKey| == 32
  {
    Encode(MadeToken(o, pubKey, relayMask)) + query
  }

  /** What the client reads from the link. */
  function Read(o: Order, pubKey: seq<byte>, relayMask: byte): Token
    requires ValidOrder(o) && |pubKey| == 32
  {
    MadeToken(o, pubKey, relayMask).(expiresAt := LinkExpiry(o.expiresAt))
  }

  /** The expiry in the link: whole seconds in 32 bits. */
  function LinkExpiry(expiresAt: int): int { ClampUnix32(Unix(expiresAt)) * SECOND }

  lemma ReadIsNormalized(o: Order, pubKey: seq<byte>, relayMask: byte)
    requires ValidOrder(o) && |pubKey| == 32
    ensures Normalized(MadeToken(o, pubKey, relayMask)) == Read(o, pubKey, relayMask)
  {
  }

  /** The link decodes to what the order put in, whatever its query. */
  lemma LinkDecodes(o: Order, pubKey: seq<byte>, relayMask: byte, query: string)
    requires ValidOrder(o) && |pubKey| == 32 && IsTail(query)
    ensures DecodeURL(Link(o, pubKey, relayMask, query)) == Ok(Read(o, pubKey, relayMask))
    ensures Carries(Read(o, pubKey, relayMask), o)
  {
    ReadIsNormalized(o, pubKey, relayMask);
    DecodedTail(MadeToken(o, pubKey, relayMask), query, Read(o, pubKey, relayMask));
  }

  lemma DecodedTail(t: Token, query: string, c: Token)
    requires Normalized(t) == c && IsTail(query)
    ensures DecodeURL(Encode(t) + query) == Ok(c)
  {
    EncodedWithTail(t, query);
  }

  /** The port the client asks for is the port the host grants, for every order. */
  lemma PortsAgree(o: Order, c: Token, inv: Invite)
    requires ValidOrder(o) && c.protocol == ParseProtocol(o.protocol) && c.targetPort == Port16(o.targetPort)
    requires IsMade(o, inv)
    ensures Port(c) == EffectiveTargetPort(inv)
  {
    assert ToLower("rdp") == "rdp" && ToLower("") == "";
  }

  // --- the invite proof ---

  /** What ConnectByURL sends for the decoded token c. */
  function ClientProof(c: Token, host: string, client: string, at: int): (p: Bytes)
    ensures |p| == PROOF_SIZE
  {
    InviteProof(Cells(c.secret), Cells(c.inviteID), host, client, ModeString(c), TimeWindow(at))
  }

  ghost predicate EndsIn(m: Bytes, w: Bytes) {
    |w| <= |m| && m[|m| - |w|..] == w
  }

  lemma EndsStep(a: Bytes, m: Bytes, w: Bytes)
    requires EndsIn(m, w)
    ensures EndsIn(a + m, w)
  {
  }

  lemma MessageEndsInWindow(id: Bytes, host: string, client: string, mode: string, window: int)
    ensures EndsIn(InviteProofMessage(id, host, client, mode, window), Window(window))
  {
    var w := Window(window);
    var m0 := w;
    EndsStep([NUL], m0, w);
    var m1 := [NUL] + m0;
    EndsStep(Str(mode), m1, w);
    var m2 := Str(mode) + m1;
    EndsStep([NUL], m2, w);
    var m3 := [NUL] + m2;
    EndsStep(Str(client), m3, w);
    var m4 := Str(client) + m3;
    EndsStep([NUL], m4, w);
    var m5 := [NUL] + m4;
    EndsStep(Str(host), m5, w);
    var m6 := Str(host) + m5;
    EndsStep([NUL], m6, w);
    var m7 := [NUL] + m6;
    EndsStep(id, m7, w);
    var m8 := id + m7;
    EndsStep([NUL], m8, w);
    EndsStep(Str(INVITE_LABEL), [NUL] + m8, w);
  }

  lemma ProofFixesWindow(secret: Bytes, id: Bytes, host: string, client: string, mode: string, v: int, w: int)
    requires IsInt64(v) && IsInt64(w)
    requires InviteProof(secret, id, host, client, mode, v) == InviteProof(secret, id, host, client, mode, w)
    ensures v == w
  {
    MacInjective(secret, InviteProofMessage(id, host, client, mode, v), secret,
      InviteProofMessage(id, host, client, mode, w));
    MessageEndsInWindow(id, host, client, mode, v);
    MessageEndsInWindow(id, host, client, mode, w);
    WindowInjective(v, w);
  }

  ghost predicate Near(v: int, w: int) { -1 <= v - w <= 1 }

  ghost predicate Representable(at: int) { IsInt64(TimeWindow(at) - 1) && IsInt64(TimeWindow(at) + 1) }

  lemma HonestProofValidIff(inv: Invite, host: string, client: string, mode: string, made: int, now: int)
    requires Representable(made) && Representable(now)
    ensures ValidInviteProof(inv, InviteProof(inv.secret, inv.inviteID, host, client, mode, TimeWindow(made)), host,
      client, mode, now)
      <==> Near(TimeWindow(made), TimeWindow(now))
  {
    var v, w := TimeWindow(made), TimeWindow(now);
    var p := InviteProof(inv.secret, inv.inviteID, host, client, mode, v);
    if p == InviteProof(inv.secret, inv.inviteID, host, client, mode, w - 1) {
      ProofFixesWindow(inv.secret, inv.inviteID, host, client, mode, v, w - 1);
    }
    if p == InviteProof(inv.secret, inv.inviteID, host, client, mode, w) {
      ProofFixesWindow(inv.secret, inv.inviteID, host, client, mode, v, w);
    }
    if p == InviteProof(inv.secret, inv.inviteID, host, client, mode, w + 1) {
      ProofFixesWindow(inv.secret, inv.inviteID, host, client, mode, v, w + 1);
    }
  }

  /** The decoded token says about the invite what the order said. */
  predicate Carries(c: Token, o: Order) {
    && c.inviteID == o.id && c.secret == o.secret && c.mode == (if o.mode == "pairing" then 1 else 0)
    && c.protocol == ParseProtocol(o.protocol) && c.targetPort == Port16(o.targetPort)
  }

  /** The host accepts the honest client's proof exactly when the invite has one of the two known
      modes, is not used up or expired, and the clocks are in the same or adjacent windows. */
  lemma HonestClientAcceptedIff<H>(
      reg: Registry<H>, h: H, o: Order, c: Token, host: string, client: string, made: int, now: int)
    requires Agrees(reg) && Indexed(reg, h) && IsMade(o, reg.objects[h]) && Carries(c, o) && ValidOrder(o)
    requires Representable(made) && Representable(now)
    ensures
      VerifyAndConsume(reg, host, Cells(c.inviteID), ClientProof(c, host, client, made), client, ModeString(c), now).1
        == Accepted(h)
      <==>
      && (o.mode == "pairing" || (o.mode == "onetime" && !reg.objects[h].used && !PastExpiry(reg.objects[h], now)))
      && Near(TimeWindow(made), TimeWindow(now))
  {
    var inv := reg.objects[h];
    HonestProofValidIff(inv, host, client, ModeString(c), made, now);
  }

  /** Clocks at most 30 s apart are always good enough ... */
  lemma AcceptedWithin30<H>(
      reg: Registry<H>, h: H, o: Order, c: Token, host: string, client: string, made: int, now: int)
    requires Agrees(reg) && Indexed(reg, h) && IsMade(o, reg.objects[h]) && Carries(c, o) && ValidOrder(o)
    requires Representable(made) && Representable(now) && -30 * SECOND <= made - now <= 30 * SECOND
    requires o.mode == "pairing" || (o.mode == "onetime" && !reg.objects[h].used && !PastExpiry(reg.objects[h], now))
    ensures
      VerifyAndConsume(reg, host, Cells(c.inviteID), ClientProof(c, host, client, made), client, ModeString(c), now).1
        == Accepted(h)
  {
    NearClocksNearWindows(made, now);
    HonestClientAcceptedIff(reg, h, o, c, host, client, made, now);
  }

  /** ... and clocks a minute apart never are, unless they stand on both sides of 1970: then the
      long window 0 allows up to 89 s. */
  lemma AcceptedMeansBelow60<H>(
      reg: Registry<H>, h: H, o: Order, c: Token, host: string, client: string, made: int, now: int)
    requires Agrees(reg) && Indexed(reg, h) && IsMade(o, reg.objects[h]) && Carries(c, o) && ValidOrder(o)
    requires Representable(made) && Representable(now)
    requires
      VerifyAndConsume(reg, host, Cells(c.inviteID), ClientProof(c, host, client, made), client, ModeString(c), now).1
      == Accepted(h)
    ensures -89 * SECOND < made - now < 89 * SECOND
    ensures (made >= 0 <==> now >= 0) ==> -60 * SECOND < made - now < 60 * SECOND
  {
    HonestClientAcceptedIff(reg, h, o, c, host, client, made, now);
    if made >= 0 <==> now >= 0 { NearWindowsBoundSkew(made, now); }
  }

  // --- expiry on both sides ---

  /** When the client does not take a one-time link to be expired, neither does the host -
      except exactly before 1970, which the link cannot express. */
  lemma ClientExpiryConservative(c: Token, inv: Invite, now: int)
    requires inv.mode == "onetime" && c.mode == 0 && c.expiresAt == LinkExpiry(inv.expiresAt)
    requires !IsExpired(c, now)
    ensures PastExpiry(inv, now) <==> inv.expiresAt != ZERO_TIME && inv.expiresAt < now <= 0
  {
  }

  /** The client is stricter only in the last partial second, beyond what 32 bits can express,
      or when there is no expiry time at all. */
  lemma ClientExpiryClose(c: Token, inv: Invite, now: int)
    requires inv.mode == "onetime" && c.mode == 0 && c.expiresAt == LinkExpiry(inv.expiresAt)
    requires IsExpired(c, now) && !PastExpiry(inv, now)
    ensures || inv.expiresAt == ZERO_TIME
            || Unix(inv.expiresAt) > MAX_UNIX32
            || (c.expiresAt < now <= inv.expiresAt && inv.expiresAt - c.expiresAt < SECOND)
  {
  }

  lemma ExpiryBefore1970(c: Token, inv: Invite)
    requires inv.mode == "onetime" && c.mode == 0 && inv.expiresAt == -5 * SECOND
    requires c.expiresAt == LinkExpiry(inv.expiresAt)
    ensures !IsExpired(c, -3 * SECOND) && PastExpiry(inv, -3 * SECOND)
  {
  }

  /** The expiry in the link: 0 before 1970, 2^32 - 1 s beyond that, and whole seconds in between. */
  lemma LinkExpiryIs(expiresAt: int)
    ensures expiresAt < 0 ==> LinkExpiry(expiresAt) == 0
    ensures expiresAt >= 4294967295 * SECOND ==> LinkExpiry(expiresAt) == 4294967295 * SECOND
    ensures 0 <= expiresAt < 4294967295 * SECOND ==>
      LinkExpiry(expiresAt) <= expiresAt < LinkExpiry(expiresAt) + SECOND && LinkExpiry(expiresAt) % SECOND == 0
  {
  }

  /** Exactly which links the client takes to be expired: never a pairing link, otherwise those whose
      expiry has passed. */
  lemma IsExpiredIff(c: Token, now: int)
    ensures IsExpired(c, now) <==> c.mode != 1 && now > c.expiresAt
  {
  }
}
