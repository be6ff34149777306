/** An honest client gets its channel: the whole pairing and CONNECT exchange, step by step. */
module HonestRuns {
  import Numerals
  import TrustedPeers
  import opened Text
  import opened Tokens
  import opened Transcripts
  import opened Identities
  import opened Invites
  import Sessions
  import opened Targets
  import opened HostProtocol
  import opened HostInvariants
  import opened HostRuns
  import opened HostOrigins
  import opened HostSafety
  import opened HostService
  import opened HonestPeers
  import opened Clients
  import opened Runs

  lemma HostStep(env: Env, s: State, act: Act, u: State, acts: seq<Act>, t: State)
    requires WellFormed(s.reg) && Next(env, s, act, u) && Leads(Steps(env), u, acts, t)
    ensures Leads(Steps(env), s, [act] + acts, t)
  {
    LeadsStep(Steps(env), s, act, u, acts, t);
  }

  /** The invite can still be used. */
  ghost predicate Usable(reg: Registry<nat>, h: nat, o: Order, now: int) {
    && ValidOrder(o) && Indexed(reg, h) && IsMade(o, reg.objects[h])
    && (o.mode == "pairing" || (o.mode == "onetime" && !reg.objects[h].used && !PastExpiry(reg.objects[h], now)))
  }

  // --- the steps ---

  lemma ArriveAndProve(env: Env, s: State, i: nat, req: Request) returns (u: State, v: State)
    requires i !in s.handlers && req.identity.Some?
    requires VerifyIdentityProof(env.keys, req.identity, req.attestation, RequestClaim(env.host, req, 0), s.now) == None
    ensures ArriveStep(s, i, req, u) && ProveStep(env, u, i, v)
    ensures u.reg == s.reg && v == s.(handlers := v.handlers, log := v.log)
    ensures At(v, i, Proved) && v.handlers[i].req == req && v.handlers[i].port == DefaultGrant(s)
  {
    u := SetHandler(s, i, Handler(req, ProtocolName(ParseProtocol(s.protocol)), DefaultGrant(s), Waiting, 0));
    v := Emit(SetHandler(u, i, u.handlers[i].(phase := Proved, cause := |s.log|)),
           ProofAccepted(i, RequestClaim(env.host, req, 0), req.identity.value, req.attestation, s.now));
  }

  lemma ConsumeAccepted(env: Env, s: State, i: nat, h: nat) returns (t: State)
    requires WellFormed(s.reg) && At(s, i, Proved) && s.handlers[i].req.mode != "trusted"
    requires var req := s.handlers[i].req;
      VerifyAndConsume(s.reg, env.host, req.inviteID, req.proof, req.node, req.mode, s.now).1 == Accepted(h)
    ensures h in s.reg.objects && WellFormed(t.reg) && ConsumeStep(env, s, i, t)
    ensures t.tunnels == s.tunnels && t.issuedAt == s.issuedAt && t.now == s.now && h in t.reg.objects
    ensures At(t, i, Consumed(h)) && t.handlers[i].req == s.handlers[i].req
    ensures t.handlers[i].port == EffectiveTargetPort(s.reg.objects[h])
  {
    var req := s.handlers[i].req;
    ConsumedShape(s.reg, env.host, req.inviteID, req.proof, req.node, req.mode, s.now);
    t := Accept(s, i, h, VerifyAndConsume(s.reg, env.host, req.inviteID, req.proof, req.node, req.mode, s.now).0);
  }

  lemma NoteUse(s: State, i: nat, h: nat) returns (t: State)
    requires WellFormed(s.reg) && At(s, i, Consumed(h)) && h in s.reg.objects
    ensures NoteStep(s, i, t) && WellFormed(t.reg)
    ensures t == s.(handlers := s.handlers[i := s.handlers[i].(phase := Noted(h))], reg := t.reg)
  {
    var hd := s.handlers[i];
    t := SetHandler(s, i, hd.(phase := Noted(h))).(reg := UseRecorded(s.reg, h, hd.req.labelText, hd.req.node, s.now));
  }

  lemma EnterPeer(env: Env, s: State, i: nat) returns (t: State)
    requires i in s.handlers && (s.handlers[i].phase.Matched? || s.handlers[i].phase.Noted?)
    ensures TrustStep(env, s, i, t)
    ensures t == s.(handlers := s.handlers[i := s.handlers[i].(phase := Ready)], trusted := t.trusted)
  {
    var hd := s.handlers[i];
    t := SetHandler(s, i, hd.(phase := Ready));
    if hd.phase.Matched? || hd.req.mode == "pairing" {
      t := t.(trusted := TrustedPeers.Added(s.trusted, HostProtocol.Entry(env, hd, s.now), s.now));
    }
  }

  lemma IssueToken(s: State, i: nat, token: Bytes) returns (t: State)
    requires At(s, i, Ready) && token !in s.issuedAt
    ensures IssueStep(s, i, token, t)
    ensures t.reg == s.reg && t.tunnels == s.tunnels && t.now == s.now && t.target == s.target && token in t.issuedAt
    ensures token in t.sessions
    ensures t.sessions[token]
      == Sessions.Entry(s.now + Sessions.TTL, Sessions.Grant(s.handlers[i].req.node, s.handlers[i].port),
        Sessions.MAX_USES)
  {
    var hd := s.handlers[i];
    t := Emit(SetHandler(s, i, hd.(phase := Done)), TokenIssued(i, token, hd.req.node, hd.port, s.now, hd.cause))
         .(sessions := Sessions.Swept(Sessions.Issued(s.sessions, token, hd.req.node, hd.port, s.now), s.now),
           issuedAt := s.issuedAt[token := |s.log|]);
  }

  /** The store has a use left of a token for the node and port. */
  ghost predicate Granted(s: State, token: Bytes, node: string, port: int) {
    && token in s.issuedAt && token in s.sessions && s.sessions[token].grant == Sessions.Grant(node, port)
    && s.now <= s.sessions[token].expiresAt && s.sessions[token].usesLeft > 0
  }

  lemma Connect(
      env: Env, s: State, j: nat, node: string, token: Bytes, port: nat) returns (t: State, u: State, v: State)
    requires j !in s.tunnels && port > 0 && Granted(s, token, node, port) && env.loopbackIP("127.0.0.1")
    ensures var hello := ClientHello(node, token, port);
      GreetStep(s, j, hello, t) && SpendStep(t, j, u) && DecideStep(env, u, j, v)
    ensures t.reg == s.reg && u.reg == s.reg
    ensures JustOpened(v, j, ClientHello(node, token, port), port, TargetAddr(port, s.target))
  {
    var hello := ClientHello(node, token, port);
    t := s.(tunnels := s.tunnels[j := Greeted(hello)]);
    var grant := Sessions.Grant(node, port);
    u := Emit(t, GrantVerified(j, token, t.now, t.issuedAt[token]))
         .(sessions := Sessions.Verified(t.sessions, token, t.now).0,
           tunnels := t.tunnels[j := Spent(hello, grant, |t.log|)]);
    OwnHost(env.loopbackIP);
    assert Permitted(env, u, hello, grant);
    v := Emit(u, ChannelOpened(j, hello, node, port, TargetAddr(port, u.target), u.now, |t.log|))
         .(tunnels := u.tunnels[j := Open]);
  }

  /** From the request of an invited client to its channel. */
  function Exchange(i: nat, req: Request, token: Bytes, j: nat, hello: Hello): seq<Act> {
    [Arrive(i, req)] + ([Prove(i)] + ([Consume(i)] + ([Note(i)] + TrustExchange(i, token, j, hello))))
  }

  /** The same for a trusted peer that comes back. */
  function ReauthExchange(i: nat, req: Request, token: Bytes, j: nat, hello: Hello): seq<Act> {
    [Arrive(i, req)] + ([Prove(i)] + ([Match(i)] + TrustExchange(i, token, j, hello)))
  }

  function TrustExchange(i: nat, token: Bytes, j: nat, hello: Hello): seq<Act> {
    [Trust(i)] + ([Issue(i, token)] + ConnectExchange(j, hello))
  }

  function ConnectExchange(j: nat, hello: Hello): seq<Act> {
    [Greet(j, hello)] + ([Spend(j)] + ([Decide(j)] + []))
  }

  /** The channel that has just opened. */
  ghost predicate JustOpened(s: State, j: nat, hello: Hello, port: nat, target: string) {
    && s.log != []
    && var e := s.log[|s.log| - 1];
       e.ChannelOpened? && e.j == j && e.hello == hello && e.port == port && e.target == target
  }

  /** The client's own CONNECT for the granted port leads to a channel and spends one use. */
  lemma HonestConnect(env: Env, s: State, j: nat, node: string, token: Bytes, port: nat) returns (t: State)
    requires WellFormed(s.reg) && env.loopbackIP("127.0.0.1") && j !in s.tunnels && port > 0
    requires Granted(s, token, node, port)
    ensures Leads(Steps(env), s, ConnectExchange(j, ClientHello(node, token, port)), t)
    ensures JustOpened(t, j, ClientHello(node, token, port), port, TargetAddr(port, s.target))
    ensures t.issuedAt == s.issuedAt && t.now == s.now && t.target == s.target && t.tunnels.Keys == s.tunnels.Keys + {j}
    ensures s.log <= t.log && |Verifications(t.log, token)| == |Verifications(s.log, token)| + 1
  {
    var u, v, w := Connect(env, s, j, node, token, port);
    ConnectLeads(env, s, j, ClientHello(node, token, port), u, v, w);
    t := w;
    SpentOnce(s, v, w, token);
    assert t.tunnels.Keys == s.tunnels.Keys + {j};
  }

  lemma ConnectLeads(env: Env, s: State, j: nat, hello: Hello, u: State, v: State, w: State)
    requires WellFormed(s.reg) && WellFormed(u.reg) && WellFormed(v.reg)
    requires GreetStep(s, j, hello, u) && SpendStep(u, j, v) && DecideStep(env, v, j, w)
    ensures Leads(Steps(env), s, ConnectExchange(j, hello), w)
  {
    assert Leads(Steps(env), w, [], w);
    HostStep(env, v, Decide(j), w, [], w);
    HostStep(env, u, Spend(j), v, [Decide(j)] + [], w);
    HostStep(env, s, Greet(j, hello), u, [Spend(j)] + ([Decide(j)] + []), w);
  }

  lemma SpentOnce(s: State, v: State, w: State, token: Bytes)
    requires |v.log| == |s.log| + 1 && s.log <= v.log && v.log[|s.log|].GrantVerified? && v.log[|s.log|].token == token
    requires |w.log| == |v.log| + 1 && v.log <= w.log && w.log[|v.log|].ChannelOpened?
    ensures s.log <= w.log && |Verifications(w.log, token)| == |Verifications(s.log, token)| + 1
  {
    assert v.log == s.log + [v.log[|s.log|]] && w.log == v.log + [w.log[|v.log|]];
    GrowVerifications(s.log, v.log[|s.log|], token);
    GrowVerifications(v.log, w.log[|v.log|], token);
  }

  /** Whoever has been accepted gets a channel. */
  lemma AcceptedConnects(env: Env, s: State, i: nat, token: Bytes, j: nat, port: nat) returns (t: State)
    requires WellFormed(s.reg) && i in s.handlers && (s.handlers[i].phase.Matched? || s.handlers[i].phase.Noted?)
    requires token !in s.issuedAt && j !in s.tunnels && env.loopbackIP("127.0.0.1")
    requires s.handlers[i].port == port && port > 0
    ensures var hello := ClientHello(s.handlers[i].req.node, token, port);
      && Leads(Steps(env), s, TrustExchange(i, token, j, hello), t)
      && JustOpened(t, j, hello, port, TargetAddr(port, s.target))
  {
    var node := s.handlers[i].req.node;
    var hello := ClientHello(node, token, port);
    var u := EnterPeer(env, s, i);
    var v := IssueToken(u, i, token);
    t := HonestConnect(env, v, j, node, token, port);
    HostStep(env, u, Issue(i, token), v, ConnectExchange(j, hello), t);
    HostStep(env, s, Trust(i), u, [Issue(i, token)] + ConnectExchange(j, hello), t);
  }

  // --- invited clients ---

  /** What the host's state and the two clocks must be like. */
  ghost predicate CanServe(s: State, i: nat, token: Bytes, j: nat, clock: int) {
    && i !in s.handlers && j !in s.tunnels && token !in s.issuedAt
    && -30 * SECOND <= clock - s.now <= 30 * SECOND && Representable(clock) && Representable(s.now)
  }

  /** Every run can go on like this: a client is given the link of a usable invite, which it does
      not take to be expired, and its clock is within 30 s of the host's.  What it makes of the
      link is let through every check of the host, and it ends with a channel to the port it
      reads from the link. */
  lemma HonestClientConnects(
      env: Env, states: seq<State>, acts: seq<Act>, routes: Routes, h: nat, o: Order,
      pubKey: seq<Numerals.byte>, relayMask: Numerals.byte, query: string, cl: Client, i: nat, token: Bytes, j: nat)
      returns (run: seq<State>)
    requires HostProtocol.IsRun(env, states, acts) && CanServe(states[|acts|], i, token, j, cl.clock)
    requires Usable(states[|acts|].reg, h, o, states[|acts|].now)
    requires Genuine(env.keys, cl.id, cl.nodeKey, cl.attestation)
    requires Followable(env.keys, routes, cl, o, pubKey, relayMask, query) && env.keys.peerID(Cells(pubKey)) == env.host
    requires env.loopbackIP("127.0.0.1")
    ensures var a := ConnectByURL(env.keys, routes, cl, Link(o, pubKey, relayMask, query));
      var port := Port(Read(o, pubKey, relayMask));
      var hello := ClientHello(env.keys.peerID(cl.nodeKey), token, port);
      && a.Asked? && a.host == env.host && HostProtocol.IsRun(env, run, acts + Exchange(i, a.req, token, j, hello))
      && states <= run && JustOpened(run[|run| - 1], j, hello, port, Loopback(port))
  {
    RunKeepsInv(env, states, acts);
    var s := states[|acts|];
    LinkIsFollowed(env.keys, routes, cl, o, pubKey, relayMask, query, s.now);
    var a := ConnectByURL(env.keys, routes, cl, Link(o, pubKey, relayMask, query));
    var hello := ClientHello(a.req.node, token, Port(Read(o, pubKey, relayMask)));
    var t := HonestExchange(env, s, h, o, Read(o, pubKey, relayMask), cl, a.req, i, token, j);
    run := LeadsExtends(Initial, Steps(env), states, acts, Exchange(i, a.req, token, j, hello), t);
  }

  lemma HonestExchange(
      env: Env, s: State, h: nat, o: Order, c: Token, cl: Client, req: Request,
      i: nat, token: Bytes, j: nat) returns (t: State)
    requires Agrees(s.reg) && CanServe(s, i, token, j, cl.clock) && Usable(s.reg, h, o, s.now) && Carries(c, o)
    requires req.identity.Some? && req == LinkRequest(env.keys, cl, env.host, c).(identity := req.identity)
    requires VerifyIdentityProof(env.keys, req.identity, req.attestation, RequestClaim(env.host, req, 0), s.now) == None
    requires env.loopbackIP("127.0.0.1")
    ensures var hello := ClientHello(req.node, token, Port(c));
      && Leads(Steps(env), s, Exchange(i, req, token, j, hello), t)
      && JustOpened(t, j, hello, Port(c), Loopback(Port(c)))
  {
    var hello := ClientHello(req.node, token, Port(c));
    var u, v := ArriveAndProve(env, s, i, req);
    AcceptedWithin30(s.reg, h, o, c, env.host, req.node, cl.clock, s.now);
    var w := ConsumeAccepted(env, v, i, h);
    PortsAgree(o, c, s.reg.objects[h]);
    var x := NoteUse(w, i, h);
    t := AcceptedConnects(env, x, i, token, j, Port(c));
    var rest := TrustExchange(i, token, j, hello);
    HostStep(env, w, Note(i), x, rest, t);
    HostStep(env, v, Consume(i), w, [Note(i)] + rest, t);
    HostStep(env, u, Prove(i), v, [Consume(i)] + ([Note(i)] + rest), t);
    HostStep(env, s, Arrive(i, req), u, [Prove(i)] + ([Consume(i)] + ([Note(i)] + rest)), t);
  }

  /** So for every order of a known mode there is a run from the start of the host to a channel. */
  lemma EveryOrderCanBeServed(
      env: Env, s: State, routes: Routes, h: nat, o: Order, inv: Invite,
      pubKey: seq<Numerals.byte>, relayMask: Numerals.byte, query: string, cl: Client, i: nat, token: Bytes, j: nat)
      returns (run: seq<State>)
    requires Initial(s) && ValidOrder(o) && (o.mode == "onetime" || o.mode == "pairing")
    requires IsMade(o, inv) && !inv.used && inv.usedByID == "" && o.expiresAt >= s.now
    requires CanServe(s, i, token, j, cl.clock)
    requires Genuine(env.keys, cl.id, cl.nodeKey, cl.attestation)
    requires Followable(env.keys, routes, cl, o, pubKey, relayMask, query) && env.keys.peerID(Cells(pubKey)) == env.host
    requires env.loopbackIP("127.0.0.1")
    ensures var a := ConnectByURL(env.keys, routes, cl, Link(o, pubKey, relayMask, query));
      var port := Port(Read(o, pubKey, relayMask));
      var hello := ClientHello(env.keys.peerID(cl.nodeKey), token, port);
      && a.Asked? && HostProtocol.IsRun(env, run, [Generate(h, inv)] + Exchange(i, a.req, token, j, hello))
      && JustOpened(run[|run| - 1], j, hello, port, Loopback(port))
  {
    var t := FirstGeneration(env, s, h, o, inv);
    run := HonestClientConnects(env, [s, t], [Generate(h, inv)], routes, h, o, pubKey, relayMask, query, cl, i, token,
      j);
  }

  // --- trusted peers ---

  lemma MatchAccepted(env: Env, s: State, i: nat, peer: TrustedPeers.TrustedPeer) returns (t: State)
    requires At(s, i, Proved) && s.handlers[i].req.mode == "trusted" && s.handlers[i].req.identity.Some?
    requires TrustedPeers.Lookup(s.trusted, s.handlers[i].req.node) == Some(peer)
    requires SameIdentity(peer.publicKey, peer.machineID, s.handlers[i].req.identity.value, env.hex)
    ensures MatchStep(env, s, i, t) && t.reg == s.reg && t.tunnels == s.tunnels && t.issuedAt == s.issuedAt
    ensures t.target == s.target
    ensures i in t.handlers && t.handlers[i].phase.Matched? && t.handlers[i].req == s.handlers[i].req
    ensures t.handlers[i].port == TrustedPort(s.handlers[i].req, peer, s.handlers[i].port)
  {
    StoredIdentityMatchesIff(peer.publicKey, peer.machineID, s.handlers[i].req.identity.value, env.hex);
    var hd := s.handlers[i];
    var req := hd.req;
    var protocol := if req.protocol != "" then ProtocolName(ParseProtocol(req.protocol))
      else TrustedPeers.Or(peer.protocol, hd.protocol);
    var port := TrustedPort(req, peer, hd.port);
    var root := if req.node in s.pairedAt then Some(s.pairedAt[req.node]) else None;
    t := Emit(SetHandler(s, i, Handler(req, protocol, port, Matched(peer), |s.log|)),
           TrustMatched(i, peer, req.node, port, root, s.now, hd.cause));
  }

  /** Every run can go on like this: a peer that the list holds with its identity comes back, its
      clock within 30 s of the host's, and gets a channel for the port it asks for, or else for
      the stored or configured one. */
  lemma TrustedPeerConnects(
      env: Env, states: seq<State>, acts: seq<Act>, peer: TrustedPeers.TrustedPeer, protocol: string, asked: int,
      cl: Client, i: nat, token: Bytes, j: nat) returns (run: seq<State>)
    requires HostProtocol.IsRun(env, states, acts) && CanServe(states[|acts|], i, token, j, cl.clock)
    requires Genuine(env.keys, cl.id, cl.nodeKey, cl.attestation)
    requires var a := Reauth(env.keys, cl, env.host, protocol, asked);
      && TrustedPeers.Lookup(states[|acts|].trusted, env.keys.peerID(cl.nodeKey)) == Some(peer)
      && (a.Asked? && a.req.identity.Some? ==>
        SameIdentity(peer.publicKey, peer.machineID, a.req.identity.value, env.hex))
    requires env.loopbackIP("127.0.0.1")
    ensures var a := Reauth(env.keys, cl, env.host, protocol, asked);
      var port := if asked > 0 then asked else if peer.targetPort > 0 then peer.targetPort
        else DefaultGrant(states[|acts|]);
      var hello := ClientHello(env.keys.peerID(cl.nodeKey), token, port);
      && a.Asked? && HostProtocol.IsRun(env, run, acts + ReauthExchange(i, a.req, token, j, hello)) && states <= run
      && port > 0 && JustOpened(run[|run| - 1], j, hello, port, TargetAddr(port, states[|acts|].target))
  {
    RunKeepsInv(env, states, acts);
    var s := states[|acts|];
    var asking := Request(env.keys.peerID(cl.nodeKey), "trusted", [], [], cl.labelText, protocol, asked, None,
      cl.attestation, cl.info);
    SignedAccepted(env.keys, cl, env.host, asking, s.now);
    var a := Reauth(env.keys, cl, env.host, protocol, asked);
    var port := TrustedPort(a.req, peer, DefaultGrant(s));
    var hello := ClientHello(a.req.node, token, port);
    var t := ReauthAccepted(env, s, peer, a.req, i, token, j, port);
    run := LeadsExtends(Initial, Steps(env), states, acts, ReauthExchange(i, a.req, token, j, hello), t);
  }

  lemma ReauthAccepted(
      env: Env, s: State, peer: TrustedPeers.TrustedPeer, req: Request,
      i: nat, token: Bytes, j: nat, port: nat) returns (t: State)
    requires WellFormed(s.reg) && i !in s.handlers && j !in s.tunnels && token !in s.issuedAt
    requires req.mode == "trusted" && req.identity.Some? && TrustedPeers.Lookup(s.trusted, req.node) == Some(peer)
    requires VerifyIdentityProof(env.keys, req.identity, req.attestation, RequestClaim(env.host, req, 0), s.now) == None
    requires SameIdentity(peer.publicKey, peer.machineID, req.identity.value, env.hex)
    requires port == TrustedPort(req, peer, DefaultGrant(s)) && port > 0 && env.loopbackIP("127.0.0.1")
    ensures var hello := ClientHello(req.node, token, port);
      && Leads(Steps(env), s, ReauthExchange(i, req, token, j, hello), t)
      && JustOpened(t, j, hello, port, TargetAddr(port, s.target))
  {
    var hello := ClientHello(req.node, token, port);
    var u, v := ArriveAndProve(env, s, i, req);
    var w := MatchAccepted(env, v, i, peer);
    t := AcceptedConnects(env, w, i, token, j, port);
    var rest := TrustExchange(i, token, j, hello);
    HostStep(env, v, Match(i), w, rest, t);
    HostStep(env, u, Prove(i), v, [Match(i)] + rest, t);
    HostStep(env, s, Arrive(i, req), u, [Prove(i)] + ([Match(i)] + rest), t);
  }

  /** So a trusted peer that asks for a port above 65535 can always reach the configured address,
      loopback or not: there is such a run from every start of a host that trusts it. */
  lemma OversizedPortLeavesLoopback(
      env: Env, s: State, peer: TrustedPeers.TrustedPeer, protocol: string, port: nat,
      cl: Client, i: nat, token: Bytes, j: nat) returns (run: seq<State>)
    requires Initial(s) && CanServe(s, i, token, j, cl.clock) && Genuine(env.keys, cl.id, cl.nodeKey, cl.attestation)
    requires port > MAX_PORT && TrimSpace(s.target) != ""
    requires TrustedPeers.Lookup(s.trusted, env.keys.peerID(cl.nodeKey)) == Some(peer)
    requires var a := Reauth(env.keys, cl, env.host, protocol, port);
      a.Asked? && a.req.identity.Some? ==>
        SameIdentity(peer.publicKey, peer.machineID, a.req.identity.value, env.hex)
    requires env.loopbackIP("127.0.0.1")
    ensures var a := Reauth(env.keys, cl, env.host, protocol, port);
      var hello := ClientHello(env.keys.peerID(cl.nodeKey), token, port);
      && a.Asked? && HostProtocol.IsRun(env, run, ReauthExchange(i, a.req, token, j, hello))
      && JustOpened(run[|run| - 1], j, hello, port, s.target)
  {
    var hello := ClientHello(env.keys.peerID(cl.nodeKey), token, port);
    assert HostProtocol.IsRun(env, [s], []);
    run := TrustedPeerConnects(env, [s], [], peer, protocol, port, cl, i, token, j);
    var a := Reauth(env.keys, cl, env.host, protocol, port);
    assert [] + ReauthExchange(i, a.req, token, j, hello) == ReauthExchange(i, a.req, token, j, hello);
  }

  lemma FirstGeneration(env: Env, s: State, h: nat, o: Order, inv: Invite) returns (t: State)
    requires Initial(s) && ValidOrder(o) && (o.mode == "onetime" || o.mode == "pairing")
    requires IsMade(o, inv) && !inv.used && inv.usedByID == "" && o.expiresAt >= s.now
    ensures HostProtocol.IsRun(env, [s, t], [Generate(h, inv)])
    ensures t.now == s.now && t.handlers == map[] && t.tunnels == map[] && t.issuedAt == map[]
    ensures Usable(t.reg, h, o, t.now)
  {
    t := s.(reg := Generated(s.reg, h, inv));
    assert GenerateStep(s, h, inv, t);
    assert Next(env, s, Generate(h, inv), t);
    assert Steps(env)(s, Generate(h, inv), t);
    assert HostProtocol.IsRun(env, [s], []);
    Extend(Initial, Steps(env), [s], [], Generate(h, inv), t);
    assert [s] + [t] == [s, t] && [] + [Generate(h, inv)] == [Generate(h, inv)];
  }

  // --- all uses of a token ---

  function ManyExchanges(js: seq<nat>, hello: Hello): seq<Act> {
    if js == [] then [] else ConnectExchange(js[0], hello) + ManyExchanges(js[1..], hello)
  }

  /** A channel of tunnel j is in the log. */
  ghost predicate ChannelLogged(log: seq<Event>, j: nat, hello: Hello, port: nat, target: string) {
    exists k :: 0 <= k < |log| && log[k].ChannelOpened? && log[k].j == j && log[k].hello == hello && log[k].port == port
      && log[k].target == target
  }

  /** The token was issued to the node for the port, at most 120 s ago. */
  ghost predicate Current(s: State, token: Bytes, node: string, port: int) {
    && token in s.issuedAt && s.issuedAt[token] < |s.log|
    && var e := s.log[s.issuedAt[token]];
       e.TokenIssued? && e.node == node && e.port == port && s.now <= e.at + 120 * SECOND
  }

  lemma CurrentIsGranted(env: Env, states: seq<State>, acts: seq<Act>, token: Bytes, node: string, port: int)
    requires HostProtocol.IsRun(env, states, acts) && Current(Last(states), token, node, port)
    requires |Verifications(Last(states).log, token)| < 16
    ensures port > 0 && Granted(Last(states), token, node, port) && WellFormed(Last(states).reg)
  {
    InvAt(env, states, acts, |acts|);
    ValidTokensStored(env, states, acts, |acts|);
    var s := Last(states);
    assert Valid(s, token);
    assert SessionOk(s.log, s.issuedAt, token, s.sessions[token]);
    CausedAt(env, states[0].trusted, s, s.issuedAt[token]);
  }

  /** One more channel on the token. */
  lemma OneMoreChannel(
      env: Env, states: seq<State>, acts: seq<Act>, token: Bytes, node: string, port: nat, j: nat)
      returns (run: seq<State>)
    requires HostProtocol.IsRun(env, states, acts) && env.loopbackIP("127.0.0.1")
    requires Current(Last(states), token, node, port) && |Verifications(Last(states).log, token)| < 16
    requires j !in Last(states).tunnels
    ensures var hello := ClientHello(node, token, port);
      && HostProtocol.IsRun(env, run, acts + ConnectExchange(j, hello)) && states <= run
      && ChannelLogged(Last(run).log, j, hello, port, TargetAddr(port, Last(states).target))
    ensures Current(Last(run), token, node, port) && Last(states).log <= Last(run).log
    ensures |Verifications(Last(run).log, token)| == |Verifications(Last(states).log, token)| + 1
    ensures Last(run).tunnels.Keys == Last(states).tunnels.Keys + {j} && Last(run).target == Last(states).target
  {
    CurrentIsGranted(env, states, acts, token, node, port);
    var s := Last(states);
    var t := HonestConnect(env, s, j, node, token, port);
    run := LeadsExtends(Initial, Steps(env), states, acts, ConnectExchange(j, ClientHello(node, token, port)), t);
    assert s.log[s.issuedAt[token]] == t.log[s.issuedAt[token]];
  }

  /** Every run can go on like this: while a token was issued at most 120 s ago, its node can open
      channels on it, one after the other, until 16 uses are spent. */
  lemma {:induction false} TokenServesSixteen(
      env: Env, states: seq<State>, acts: seq<Act>, token: Bytes, node: string, port: nat, js: seq<nat>)
      returns (run: seq<State>)
    requires HostProtocol.IsRun(env, states, acts) && env.loopbackIP("127.0.0.1")
    requires Current(Last(states), token, node, port) && |Verifications(Last(states).log, token)| + |js| <= 16
    requires forall x, y :: 0 <= x < y < |js| ==> js[x] != js[y]
    requires forall x :: 0 <= x < |js| ==> js[x] !in Last(states).tunnels
    ensures HostProtocol.IsRun(env, run, acts + ManyExchanges(js, ClientHello(node, token, port)))
    ensures Last(states).log <= Last(run).log
    ensures forall x :: 0 <= x < |js| ==>
      ChannelLogged(Last(run).log, js[x], ClientHello(node, token, port), port, TargetAddr(port, Last(states).target))
    decreases |js|
  {
    var hello := ClientHello(node, token, port);
    if js == [] {
      run := states;
      assert acts + ManyExchanges(js, hello) == acts;
    } else {
      var more := OneMoreChannel(env, states, acts, token, node, port, js[0]);
      FreshTunnels(Last(states), Last(more), js);
      run := TokenServesSixteen(env, more, acts + ConnectExchange(js[0], hello), token, node, port, js[1..]);
      Assoc(acts, ConnectExchange(js[0], hello), ManyExchanges(js[1..], hello));
      AllLogged(Last(more).log, Last(run).log, js, hello, port, TargetAddr(port, Last(states).target));
    }
  }

  lemma FreshTunnels(s: State, t: State, js: seq<nat>)
    requires js != [] && t.tunnels.Keys == s.tunnels.Keys + {js[0]}
    requires forall x, y :: 0 <= x < y < |js| ==> js[x] != js[y]
    requires forall x :: 0 <= x < |js| ==> js[x] !in s.tunnels
    ensures forall x :: 0 <= x < |js[1..]| ==> js[1..][x] !in t.tunnels
  {
    forall x | 0 <= x < |js[1..]| ensures js[1..][x] !in t.tunnels.Keys {
      assert js[1..][x] == js[x + 1];
    }
  }

  lemma AllLogged(log: seq<Event>, longer: seq<Event>, js: seq<nat>, hello: Hello, port: nat, target: string)
    requires js != [] && log <= longer && ChannelLogged(log, js[0], hello, port, target)
    requires forall x :: 0 <= x < |js[1..]| ==> ChannelLogged(longer, js[1..][x], hello, port, target)
    ensures forall x :: 0 <= x < |js| ==> ChannelLogged(longer, js[x], hello, port, target)
  {
    var k :| 0 <= k < |log| && log[k].ChannelOpened? && log[k].j == js[0] && log[k].hello == hello
      && log[k].port == port
      && log[k].target == target;
    assert longer[k] == log[k];
    forall x | 0 < x < |js| ensures ChannelLogged(longer, js[x], hello, port, target) {
      assert js[1..][x - 1] == js[x];
    }
  }
}
