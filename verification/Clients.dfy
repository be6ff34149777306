/** The client's side of pairing (internal/pairing/pairing.go): what it asks for with a link or
    as a trusted peer, and which response it accepts. */
module Clients {
  import Numerals
  import opened Text
  import opened Tokens
  import opened Transcripts
  import opened Identities
  import opened HostProtocol
  import opened HonestPeers

  /** The client: its machine identity, its node key and its clock. */
  datatype Client = Client(
    id: LocalIdentity, nodeKey: Bytes, attestation: Option<Attestation>, clock: int, labelText: string,
      info: AttestationInfo)

  /** What the client reads from the link's query: whether it supports the format version, and
      whether the link leads to the host of its key - no explicit addresses of another peer, and
      a valid ticket where its backend needs one. */
  datatype Routes = Routes(versionOk: string -> bool, leadsToKey: string -> bool)

  datatype ConnectError = BadVersion | BadLink(error: DecodeError) | LinkExpired | BadHostKey | NoRoute | NoIdentity

  /** A request on its way to the host, or the reason why there is none. */
  datatype Attempt = Asked(host: string, req: Request) | GaveUp(error: ConnectError)

  function Signed(keys: Keys, cl: Client, host: string, req: Request): Attempt {
    match LocalProof(keys, cl.id, cl.nodeKey, RequestClaim(host, req, TimeWindow(cl.clock)))
    case None => GaveUp(NoIdentity)
    case Some(p) => Asked(host, req.(identity := Some(p)))
  }

  /** The PairRequest for the decoded token c. */
  function LinkRequest(keys: Keys, cl: Client, host: string, c: Token): Request {
    var node := keys.peerID(cl.nodeKey);
    Request(node, ModeString(c), Cells(c.inviteID), ClientProof(c, host, node, cl.clock),
      cl.labelText, "", 0, None, cl.attestation, cl.info)
  }

  /** ConnectByURL, up to sending the request. */
  function ConnectByURL(keys: Keys, routes: Routes, cl: Client, url: string): Attempt {
    if !routes.versionOk(url) then GaveUp(BadVersion)
    else
      match DecodeURL(url)
      case Err(e) => GaveUp(BadLink(e))
      case Ok(c) =>
        if IsExpired(c, cl.clock) then GaveUp(LinkExpired)
        else if !keys.isKey(Cells(c.pubKey)) then GaveUp(BadHostKey)
        else if !routes.leadsToKey(url) then GaveUp(NoRoute)
        else
          var host := keys.peerID(Cells(c.pubKey));
          Signed(keys, cl, host, LinkRequest(keys, cl, host, c))
  }

  /** The request of a paired peer that comes back (reauthOverStream). */
  function Reauth(keys: Keys, cl: Client, host: string, protocol: string, port: int): Attempt {
    Signed(keys, cl, host,
      Request(keys.peerID(cl.nodeKey), "trusted", [], [], cl.labelText, protocol, port, None, cl.attestation, cl.info))
  }

  /** The CONNECT request that opens a data stream, for the port of the session. */
  function ClientHello(node: string, token: Bytes, port: int): Hello {
    Hello(node, token, port, "127.0.0.1")
  }

  // --- the response ---

  datatype Response = Response(token: Bytes, identity: Option<IdentityProof>, attestation: Option<Attestation>)

  function ResponseClaim(host: string, req: Request, token: Bytes, window: int): Claim {
    Claim("response", host, req.node, req.mode, req.inviteID, req.proof, token, window)
  }

  /** The client takes the token of this response. */
  predicate Accepts(keys: Keys, host: string, req: Request, r: Response, now: int) {
    r.token != []
      && VerifyIdentityProof(keys, r.identity, r.attestation, ResponseClaim(host, req, r.token, 0), now) == None
  }

  /** What a host signs for the token it has issued. */
  function HostProof(
      keys: Keys, id: LocalIdentity, hostKey: Bytes, host: string, req: Request, token: Bytes, at: int):
    Option<IdentityProof>
  {
    LocalProof(keys, id, hostKey, ResponseClaim(host, req, token, TimeWindow(at)))
  }

  // --- honest proofs ---

  lemma WindowComesFromProof(
      keys: Keys, proof: Option<IdentityProof>, att: Option<Attestation>, claim: Claim, w: int, now: int)
    ensures VerifyIdentityProof(keys, proof, att, claim, now)
      == VerifyIdentityProof(keys, proof, att, claim.(window := w), now)
  {
    if proof.Some? {
      assert claim.(window := w).(window := proof.value.window) == claim.(window := proof.value.window);
    }
  }

  /** The other side accepts a proof made on a clock within 30 s of its own. */
  lemma FreshProofAccepted(
      keys: Keys, id: LocalIdentity, nodeKey: Bytes, att: Option<Attestation>, claim: Claim, made: int, now: int)
    requires Genuine(keys, id, nodeKey, att) && claim.signer == keys.peerID(nodeKey)
    requires -30 * Tokens.SECOND <= made - now <= 30 * Tokens.SECOND
    ensures var p := LocalProof(keys, id, nodeKey, claim.(window := TimeWindow(made)));
      p.Some? && VerifyIdentityProof(keys, p, att, claim, now) == None
  {
    var w := TimeWindow(made);
    NearClocksNearWindows(made, now);
    HonestProofAccepted(keys, id, nodeKey, att, claim.(window := w), now);
    WindowComesFromProof(keys, LocalProof(keys, id, nodeKey, claim.(window := w)), att, claim, w, now);
  }

  /** A request that was signed is the request itself, with a proof the host accepts. */
  lemma SignedAccepted(keys: Keys, cl: Client, host: string, req: Request, now: int)
    requires Genuine(keys, cl.id, cl.nodeKey, cl.attestation)
    requires -30 * Tokens.SECOND <= cl.clock - now <= 30 * Tokens.SECOND
    requires req.node == keys.peerID(cl.nodeKey) && req.attestation == cl.attestation
    ensures Signed(keys, cl, host, req).Asked?
    ensures var a := Signed(keys, cl, host, req);
      && a.host == host && a.req.identity.Some? && a.req == req.(identity := a.req.identity)
      && VerifyIdentityProof(keys, a.req.identity, a.req.attestation, RequestClaim(host, a.req, 0), now) == None
  {
    FreshProofAccepted(keys, cl.id, cl.nodeKey, cl.attestation, RequestClaim(host, req, 0), cl.clock, now);
  }

  /** The client accepts the response of an honest host whose clock is within 30 s of its own. */
  lemma HonestResponseAccepted(
      keys: Keys, id: LocalIdentity, hostKey: Bytes, att: Option<Attestation>, host: string, req: Request,
      token: Bytes, made: int, now: int)
    requires Genuine(keys, id, hostKey, att) && host == keys.peerID(hostKey) && token != []
    requires -30 * Tokens.SECOND <= made - now <= 30 * Tokens.SECOND
    ensures Accepts(keys, host, req, Response(token, HostProof(keys, id, hostKey, host, req, token, made), att), now)
  {
    FreshProofAccepted(keys, id, hostKey, att, ResponseClaim(host, req, token, 0), made, now);
  }

  /** The link can be followed: supported, to a well-formed key, not yet expired for the client. */
  ghost predicate Followable(
      keys: Keys, routes: Routes, cl: Client, o: Order, pubKey: seq<Numerals.byte>, relayMask: Numerals.byte,
      query: string)
  {
    && ValidOrder(o) && |pubKey| == 32 && IsTail(query) && keys.isKey(Cells(pubKey))
    && routes.versionOk(Link(o, pubKey, relayMask, query)) && routes.leadsToKey(Link(o, pubKey, relayMask, query))
    && !IsExpired(Read(o, pubKey, relayMask), cl.clock)
  }

  /** The client sends a request for every such link, to the host that the key in it names. */
  lemma LinkIsFollowed(
      keys: Keys, routes: Routes, cl: Client, o: Order, pubKey: seq<Numerals.byte>, relayMask: Numerals.byte,
      query: string, now: int)
    requires Followable(keys, routes, cl, o, pubKey, relayMask, query)
    requires Genuine(keys, cl.id, cl.nodeKey, cl.attestation)
    requires -30 * Tokens.SECOND <= cl.clock - now <= 30 * Tokens.SECOND
    ensures var a := ConnectByURL(keys, routes, cl, Link(o, pubKey, relayMask, query));
      var c := Read(o, pubKey, relayMask);
      && a.Asked? && a.host == keys.peerID(Cells(pubKey)) && a.req.identity.Some? && Carries(c, o)
      && a.req == LinkRequest(keys, cl, a.host, c).(identity := a.req.identity)
      && VerifyIdentityProof(keys, a.req.identity, a.req.attestation, RequestClaim(a.host, a.req, 0), now) == None
  {
    LinkDecodes(o, pubKey, relayMask, query);
    var c := Read(o, pubKey, relayMask);
    var host := keys.peerID(Cells(pubKey));
    SignedAccepted(keys, cl, host, LinkRequest(keys, cl, host, c), now);
  }

  /** Exactly which links lead to a request: supported ones that decode, that are pairing links or not
      past their expiry, to a well-formed key by a known route, from a machine with an identity. */
  lemma AsksIff(keys: Keys, routes: Routes, cl: Client, url: string)
    ensures ConnectByURL(keys, routes, cl, url).Asked? <==>
      && routes.versionOk(url) && routes.leadsToKey(url) && DecodeURL(url).Ok?
      && var c := DecodeURL(url).token;
         && (c.mode == 1 || cl.clock <= c.expiresAt) && keys.isKey(Cells(c.pubKey)) && cl.id.machineID != ""
  {
    if DecodeURL(url).Ok? { IsExpiredIff(DecodeURL(url).token, cl.clock); }
  }

  // --- what is asked ---

  lemma SignedKeeps(keys: Keys, cl: Client, host: string, req: Request)
    requires req.node == keys.peerID(cl.nodeKey)
    ensures Signed(keys, cl, host, req).Asked? <==> cl.id.machineID != ""
    ensures var a := Signed(keys, cl, host, req);
      a.Asked? ==> a.host == host && a.req.identity.Some? && a.req == req.(identity := a.req.identity)
  {
  }

  /** The request for a link says who asks, in the link's mode, with the link's invite ID and its MAC
      for the client's window; service and port are left to the invite. */
  lemma LinkAsks(keys: Keys, routes: Routes, cl: Client, url: string)
    requires ConnectByURL(keys, routes, cl, url).Asked?
    ensures DecodeURL(url).Ok?
    ensures var a := ConnectByURL(keys, routes, cl, url); var c := DecodeURL(url).token;
      var node, mode := keys.peerID(cl.nodeKey), if c.mode == 1 then "pairing" else "onetime";
      && a.host == keys.peerID(Cells(c.pubKey))
      && a.req.node == node && a.req.mode == mode && a.req.inviteID == Cells(c.inviteID)
      && a.req.proof
           == InviteProof(Cells(c.secret), Cells(c.inviteID), a.host, node, mode, TimeWindow(cl.clock))
      && a.req.labelText == cl.labelText && a.req.protocol == "" && a.req.targetPort == 0
      && a.req.identity.Some? && a.req.attestation == cl.attestation && a.req.info == cl.info
  {
    var c := DecodeURL(url).token;
    var host := keys.peerID(Cells(c.pubKey));
    SignedKeeps(keys, cl, host, LinkRequest(keys, cl, host, c));
  }

  /** A paired peer with an identity asks without an invite, for the service and port it wants. */
  lemma ReauthAsks(keys: Keys, cl: Client, host: string, protocol: string, port: int)
    ensures Reauth(keys, cl, host, protocol, port).Asked? <==> cl.id.machineID != ""
    ensures var a := Reauth(keys, cl, host, protocol, port);
      a.Asked? ==>
        && a.host == host && a.req.node == keys.peerID(cl.nodeKey) && a.req.mode == "trusted"
        && a.req.inviteID == [] && a.req.proof == [] && a.req.labelText == cl.labelText
        && a.req.protocol == protocol && a.req.targetPort == port
        && a.req.identity.Some? && a.req.attestation == cl.attestation && a.req.info == cl.info
  {
  }

  /** Exactly which responses the client takes: with a token, and with an authentic proof of the host
      it asked that names the client, the request's invite and proof, and this token. */
  lemma AcceptsIff(keys: Keys, host: string, req: Request, r: Response, now: int)
    ensures Accepts(keys, host, req, r, now) <==>
      && r.token != [] && r.identity.Some?
      && Authentic(keys, r.identity.value, r.attestation,
           Claim("response", host, req.node, req.mode, req.inviteID, req.proof, r.token, 0), now)
  {
    AcceptedIffAuthentic(keys, r.identity, r.attestation, ResponseClaim(host, req, r.token, 0), now);
  }

  // --- the host a paired client comes back to ---

  /** canRepairStoredSoftwarePublicKey. */
  predicate CanRepair(reason: StoredMismatch, machineID: string, p: IdentityProof) {
    && reason == OtherKey
    && TrimSpace(machineID) != "" && p.machineID != "" && EqualFold(TrimSpace(machineID), p.machineID)
  }

  /** The client takes the token of this response to its reauthentication. */
  predicate TakesBack(
      keys: Keys, hex: Bytes -> string, host: string, req: Request, r: Response, publicKey: string, machineID: string,
      now: int)
  {
    && Accepts(keys, host, req, r, now) && r.identity.Some?
    && match CompareStored(publicKey, machineID, r.identity.value, hex)
       case None => true
       case Some(reason) => CanRepair(reason, machineID, r.identity.value)
  }

  /** Unlike a host, a client compares the stored key only when it has stored no machine ID. */
  lemma TakesBackIff(
      keys: Keys, hex: Bytes -> string, host: string, req: Request, r: Response, publicKey: string, machineID: string,
      now: int)
    ensures TakesBack(keys, hex, host, req, r, publicKey, machineID, now) <==>
      && Accepts(keys, host, req, r, now)
      && var p := r.identity.value;
         if TrimSpace(machineID) != "" then EqualFold(TrimSpace(machineID), p.machineID)
         else TrimSpace(publicKey) != "" && (p.publicKey == [] || EqualFold(TrimSpace(publicKey), hex(p.publicKey)))
  {
    AcceptsIff(keys, host, req, r, now);
    if r.identity.Some? {
      EqualFoldIff(TrimSpace(machineID), r.identity.value.machineID);
    }
  }

  /** An honest host is taken back exactly when its machine ID is the stored one, whatever key is
      stored. */
  lemma HonestHostComesBack(
      keys: Keys, hex: Bytes -> string, id: LocalIdentity, hostKey: Bytes, att: Option<Attestation>, host: string,
      req: Request, token: Bytes, made: int, now: int, publicKey: string, machineID: string)
    requires Genuine(keys, id, hostKey, att) && host == keys.peerID(hostKey) && token != []
    requires -30 * Tokens.SECOND <= made - now <= 30 * Tokens.SECOND
    requires TrimSpace(machineID) != ""
    ensures var r := Response(token, HostProof(keys, id, hostKey, host, req, token, made), att);
      TakesBack(keys, hex, host, req, r, publicKey, machineID, now) <==> EqualFold(TrimSpace(machineID), id.machineID)
  {
    var r := Response(token, HostProof(keys, id, hostKey, host, req, token, made), att);
    HonestResponseAccepted(keys, id, hostKey, att, host, req, token, made, now);
    TakesBackIff(keys, hex, host, req, r, publicKey, machineID, now);
  }
}
