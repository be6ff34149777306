/** The host as a step system: any number of pairing handlers and tunnel handlers run
    concurrently with invite management (internal/pairing/pairing.go,
    internal/protocol/protocol.go, internal/tunnel/tunnel.go).  Every mutex section is one
    step.  The log and the two position maps are history: no step reads them except to
    demand that random values are new. */
module HostProtocol {
  import opened Text
  import opened Transcripts
  import opened Identities
  import opened TrustedPeers
  import opened Tokens
  import opened Invites
  import Sessions
  import opened Targets
  import Runs

  /** What does not change: the host's node ID and the functions that stay abstract. */
  datatype Env = Env(host: string, keys: Keys, hex: Bytes -> string, loopbackIP: string -> bool)

  datatype AttestationInfo = AttestationInfo(backend: string, hardware: bool, vendor: string, version: string,
    root: string)

  /** A pairing request with a supported version, from the node it names or came from. */
  datatype Request = Request(
    node: string, mode: string, inviteID: Bytes, proof: Bytes, labelText: string, protocol: string, targetPort: int,
    identity: Option<IdentityProof>, attestation: Option<Attestation>, info: AttestationInfo)

  datatype Phase = Waiting | Proved | Consumed(h: nat) | Noted(h: nat) | Matched(peer: TrustedPeer) | Ready | Done

  /** cause is the log position of the handler's latest event. */
  datatype Handler = Handler(req: Request, protocol: string, port: int, phase: Phase, cause: nat)

  /** A CONNECT request with a supported version and method. */
  datatype Hello = Hello(node: string, token: Bytes, port: int, host: string)

  datatype Tunnel = Greeted(hello: Hello) | Spent(hello: Hello, grant: Sessions.Grant, cause: nat) | Open | Refused

  datatype Event =
    | ProofAccepted(i: nat, claim: Claim, proof: IdentityProof, attestation: Option<Attestation>, at: int)
    | InviteAccepted(i: nat, h: nat, node: string, at: int, cause: nat)
    | TrustMatched(i: nat, peer: TrustedPeer, node: string, port: int, root: Option<nat>, at: int, cause: nat)
    | TokenIssued(i: nat, token: Bytes, node: string, port: int, at: int, cause: nat)
    | GrantVerified(j: nat, token: Bytes, at: int, cause: nat)
    | ChannelOpened(j: nat, hello: Hello, node: string, port: int, target: string, at: int, cause: nat)
    | InvitesRemoved(hs: set<nat>, at: int)

  datatype State = State(
    now: int, reg: Registry<nat>, sessions: Sessions.Store, trusted: seq<TrustedPeer>,
    target: string, protocol: string, handlers: map<nat, Handler>, tunnels: map<nat, Tunnel>,
    log: seq<Event>, issuedAt: map<Bytes, nat>, pairedAt: map<string, nat>)

  datatype Act =
    | Arrive(i: nat, req: Request) | Prove(i: nat) | Match(i: nat) | Consume(i: nat) | Note(i: nat) | Trust(i: nat)
    | Issue(i: nat, token: Bytes)
    | Greet(j: nat, hello: Hello) | Spend(j: nat) | Decide(j: nat)
    | Generate(h: nat, inv: Invite) | DeletePending(backend: string) | Revoke(id: string) | Sweep(gone: set<string>)
    | Configure(target: string, protocol: string) | Tick(to: int)

  // --- a pairing handler ---

  function ProtocolName(p: nat): string {
    if p == 1 then "vnc" else if p == 2 then "ssh" else if p == 3 then "custom" else "rdp"
  }

  lemma ProtocolNames(p: nat)
    requires p < 4
    ensures ParseProtocol(ProtocolName(p)) == p
  {
    assert ToLower("rdp") == "rdp" && ToLower("vnc") == "vnc" && ToLower("ssh") == "ssh"
      && ToLower("custom") == "custom";
  }

  /** What the request's identity proof must be about. */
  function RequestClaim(host: string, req: Request, window: int): Claim {
    Claim("request", req.node, host, req.mode, req.inviteID, req.proof, [], window)
  }

  function SetHandler(s: State, i: nat, hd: Handler): State {
    s.(handlers := s.handlers[i := hd])
  }

  function Emit(s: State, e: Event): State {
    s.(log := s.log + [e])
  }

  predicate At(s: State, i: nat, phase: Phase) {
    i in s.handlers && s.handlers[i].phase == phase
  }

  /** The port a handler starts from (configuredTargetPort of the pairing manager). */
  function DefaultGrant(s: State): nat {
    ConfiguredPort(s.target, DefaultPort(ParseProtocol(s.protocol)))
  }

  predicate ArriveStep(s: State, i: nat, req: Request, t: State) {
    && i !in s.handlers
    && t == SetHandler(s, i, Handler(req, ProtocolName(ParseProtocol(s.protocol)), DefaultGrant(s), Waiting, 0))
  }

  predicate ProveStep(env: Env, s: State, i: nat, t: State) {
    && At(s, i, Waiting)
    && var hd := s.handlers[i];
       var req := hd.req;
       if VerifyIdentityProof(env.keys, req.identity, req.attestation, RequestClaim(env.host, req, 0), s.now) != None
       then t == SetHandler(s, i, hd.(phase := Done))
       else t == Emit(SetHandler(s, i, hd.(phase := Proved, cause := |s.log|)),
                   ProofAccepted(i, RequestClaim(env.host, req, 0), req.identity.value, req.attestation, s.now))
  }

  /** Trusted reauthentication: the stored port is only a default, the request overrides it. */
  function TrustedPort(req: Request, peer: TrustedPeer, default: int): int {
    if req.targetPort > 0 then req.targetPort else if peer.targetPort > 0 then peer.targetPort else default
  }

  predicate MatchStep(env: Env, s: State, i: nat, t: State) {
    && At(s, i, Proved) && s.handlers[i].req.mode == "trusted" && s.handlers[i].req.identity.Some?
    && var hd := s.handlers[i];
       var req := hd.req;
       var found := Lookup(s.trusted, req.node);
       if found == None
         || !StoredIdentityMatches(found.value.publicKey, found.value.machineID, req.identity.value, env.hex)
       then t == SetHandler(s, i, hd.(phase := Done))
       else
         var peer := found.value;
         var protocol := if req.protocol != "" then ProtocolName(ParseProtocol(req.protocol))
           else Or(peer.protocol, hd.protocol);
         var port := TrustedPort(req, peer, hd.port);
         var root := if req.node in s.pairedAt then Some(s.pairedAt[req.node]) else None;
         t == Emit(SetHandler(s, i, Handler(req, protocol, port, Matched(peer), |s.log|)),
                TrustMatched(i, peer, req.node, port, root, s.now, hd.cause))
  }

  predicate ConsumeStep(env: Env, s: State, i: nat, t: State)
    requires WellFormed(s.reg)
  {
    && At(s, i, Proved) && s.handlers[i].req.mode != "trusted"
    && var hd := s.handlers[i];
       var req := hd.req;
       var (reg, outcome) := VerifyAndConsume(s.reg, env.host, req.inviteID, req.proof, req.node, req.mode, s.now);
       match outcome
       case Rejected(_) => t == SetHandler(s, i, hd.(phase := Done)).(reg := reg)
       case Accepted(h) => t == Accept(s, i, h, reg)
  }

  function Accept(s: State, i: nat, h: nat, reg: Registry<nat>): State
    requires i in s.handlers && h in s.reg.objects
  {
    var hd := s.handlers[i];
    var inv := s.reg.objects[h];
    Emit(SetHandler(s, i,
      Handler(hd.req, ProtocolName(ParseProtocol(inv.protocol)), EffectiveTargetPort(inv), Consumed(h), |s.log|)),
         InviteAccepted(i, h, hd.req.node, s.now, hd.cause))
    .(reg := reg, pairedAt := if inv.mode == "pairing" then s.pairedAt[hd.req.node := |s.log|] else s.pairedAt)
  }

  predicate NoteStep(s: State, i: nat, t: State) {
    && i in s.handlers && s.handlers[i].phase.Consumed?
    && s.handlers[i].phase.h in s.reg.objects
    && var hd := s.handlers[i];
       var h := hd.phase.h;
       var reg := UseRecorded(s.reg, h, hd.req.labelText, hd.req.node, s.now);
       t == SetHandler(s, i, hd.(phase := Noted(h))).(reg := reg)
  }

  function MachineID(req: Request): string {
    if req.identity.None? then "" else TrimSpace(req.identity.value.machineID)
  }

  function PublicKeyHex(env: Env, req: Request): string {
    if req.identity.None? || req.identity.value.publicKey == [] then "" else env.hex(req.identity.value.publicKey)
  }

  function Entry(env: Env, hd: Handler, now: int): TrustedPeer {
    var req := hd.req;
    TrustedPeer(req.node, req.labelText, PublicKeyHex(env, req), MachineID(req), hd.protocol, hd.port,
      req.info.backend, req.info.hardware, req.info.vendor, req.info.version, req.info.root, ZERO_TIME, now)
  }

  /** After a trusted match or a pairing invite the peer is (re-)entered in the trusted list. */
  predicate TrustStep(env: Env, s: State, i: nat, t: State) {
    && i in s.handlers && (s.handlers[i].phase.Matched? || s.handlers[i].phase.Noted?)
    && var hd := s.handlers[i];
       var ready := SetHandler(s, i, hd.(phase := Ready));
       if hd.phase.Matched? || hd.req.mode == "pairing"
       then t == ready.(trusted := Added(s.trusted, Entry(env, hd, s.now), s.now))
       else t == ready
  }

  predicate IssueStep(s: State, i: nat, token: Bytes, t: State) {
    && At(s, i, Ready) && token !in s.issuedAt
    && var hd := s.handlers[i];
       t == Emit(SetHandler(s, i, hd.(phase := Done)), TokenIssued(i, token, hd.req.node, hd.port, s.now, hd.cause))
            .(sessions := Sessions.Swept(Sessions.Issued(s.sessions, token, hd.req.node, hd.port, s.now), s.now),
              issuedAt := s.issuedAt[token := |s.log|])
  }

  // --- a tunnel handler ---

  predicate GreetStep(s: State, j: nat, hello: Hello, t: State) {
    j !in s.tunnels && t == s.(tunnels := s.tunnels[j := Greeted(hello)])
  }

  /** The use is spent before the peer and the port are looked at. */
  predicate SpendStep(s: State, j: nat, t: State) {
    && j in s.tunnels && s.tunnels[j].Greeted?
    && var hello := s.tunnels[j].hello;
       var (sessions, grant) := Sessions.Verified(s.sessions, hello.token, s.now);
       if grant == None then t == s.(sessions := sessions, tunnels := s.tunnels[j := Refused])
       else
         && hello.token in s.issuedAt
         && t == Emit(s, GrantVerified(j, hello.token, s.now, s.issuedAt[hello.token]))
                 .(sessions := sessions, tunnels := s.tunnels[j := Spent(hello, grant.value, |s.log|)])
  }

  function GrantedPort(s: State, grant: Sessions.Grant): int {
    if grant.targetPort <= 0 then ConfiguredPort(s.target, 3389) else grant.targetPort
  }

  /** The request names no port or this one, and no host or a loopback host. */
  predicate AsksFor(env: Env, hello: Hello, port: int) {
    && (hello.port > 0 ==> hello.port == port)
    && (TrimSpace(hello.host) != "" ==> IsLoopbackHost(hello.host, env.loopbackIP))
  }

  /** The CONNECT request meets its grant. */
  predicate Permitted(env: Env, s: State, hello: Hello, grant: Sessions.Grant) {
    grant.peerID == hello.node && AsksFor(env, hello, GrantedPort(s, grant))
  }

  predicate DecideStep(env: Env, s: State, j: nat, t: State) {
    && j in s.tunnels && s.tunnels[j].Spent?
    && var Spent(hello, grant, cause) := s.tunnels[j];
       var port := GrantedPort(s, grant);
       if !Permitted(env, s, hello, grant) then t == s.(tunnels := s.tunnels[j := Refused])
       else t == Emit(s, ChannelOpened(j, hello, hello.node, port, TargetAddr(port, s.target), s.now, cause))
                 .(tunnels := s.tunnels[j := Open])
  }

  // --- invite management ---

  /** generateURL with fresh random IDs. */
  predicate GenerateStep(s: State, h: nat, inv: Invite, t: State) {
    && h !in s.reg.objects && inv.id !in s.reg.invites && inv.targetPort <= MAX_PORT
    && (forall g :: g in s.reg.objects ==> s.reg.objects[g].inviteID != inv.inviteID)
    && inv.inviteID !in s.reg.byInviteID && !inv.used && !inv.revoked && inv.usedByID == ""
    && t == s.(reg := Generated(s.reg, h, inv))
  }

  function Handles(reg: Registry<nat>, ds: set<string>): set<nat> {
    set d | d in ds && d in reg.invites :: reg.invites[d]
  }

  function RemoveInvites(s: State, reg: Registry<nat>, ds: set<string>): State
    requires WellFormed(reg)
  {
    Emit(s, InvitesRemoved(Handles(reg, ds), s.now)).(reg := Without(reg, ds))
  }

  ghost predicate DeletePendingStep(s: State, backend: string, t: State)
    requires WellFormed(s.reg)
  {
    t == RemoveInvites(s, s.reg, OutdatedIDs(s.reg, backend, s.now))
  }

  /** Only the last recorded user of a pairing invite loses its trust. */
  predicate RevokeStep(s: State, id: string, t: State)
    requires WellFormed(s.reg)
  {
    if id !in s.reg.invites then t == s
    else
      var inv := s.reg.objects[s.reg.invites[id]];
      t == RemoveInvites(s, s.reg, {id}).(trusted :=
        if inv.mode == "pairing" && inv.usedByID != "" then Removed(s.trusted, inv.usedByID) else s.trusted)
  }

  ghost predicate SweepStep(s: State, gone: set<string>, t: State)
    requires WellFormed(s.reg)
  {
    OldestSurplus(IndexSwept(s.reg, s.now), gone) && t == RemoveInvites(s, IndexSwept(s.reg, s.now), gone)
  }

  ghost predicate Next(env: Env, s: State, act: Act, t: State)
    requires WellFormed(s.reg)
  {
    match act
    case Arrive(i, req) => ArriveStep(s, i, req, t)
    case Prove(i) => ProveStep(env, s, i, t)
    case Match(i) => MatchStep(env, s, i, t)
    case Consume(i) => ConsumeStep(env, s, i, t)
    case Note(i) => NoteStep(s, i, t)
    case Trust(i) => TrustStep(env, s, i, t)
    case Issue(i, token) => IssueStep(s, i, token, t)
    case Greet(j, hello) => GreetStep(s, j, hello, t)
    case Spend(j) => SpendStep(s, j, t)
    case Decide(j) => DecideStep(env, s, j, t)
    case Generate(h, inv) => GenerateStep(s, h, inv, t)
    case DeletePending(backend) => DeletePendingStep(s, backend, t)
    case Revoke(id) => RevokeStep(s, id, t)
    case Sweep(gone) => SweepStep(s, gone, t)
    case Configure(target, protocol) => t == s.(target := target, protocol := protocol)
    case Tick(to) => s.now <= to && t == s.(now := to)
  }

  /** A host that has just started, with the trusted list it loaded. */
  predicate Initial(s: State) {
    && s.reg == Registry(map[], map[], map[]) && s.sessions == map[] && s.handlers == map[] && s.tunnels == map[]
    && s.log == [] && s.issuedAt == map[] && s.pairedAt == map[]
  }

  ghost function Steps(env: Env): (State, Act, State) -> bool {
    (s: State, act: Act, t: State) => WellFormed(s.reg) && Next(env, s, act, t)
  }

  ghost predicate IsRun(env: Env, states: seq<State>, acts: seq<Act>) {
    Runs.IsRun(Initial, Steps(env), states, acts)
  }
}
