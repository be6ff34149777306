/** Host and client agree on the session: a response that the client accepts carries a token
    that the host issued for this very request (internal/pairing/pairing.go). */
module Responses {
  import opened Text
  import opened Transcripts
  import opened Identities
  import opened TrustedPeers
  import opened Invites
  import opened HostProtocol
  import opened HostInvariants
  import opened HostRuns
  import opened HostOrigins
  import opened HostSafety
  import opened Clients

  /** The host accepted the request's invite at act c. */
  ghost predicate InviteAcceptedAt(env: Env, states: seq<State>, acts: seq<Act>, c: nat, i: nat, req: Request) {
    && c < |acts| && |states| == |acts| + 1 && acts[c] == Consume(i) && WellFormed(states[c].reg)
    && var s := states[c];
       && VerifyAndConsume(s.reg, env.host, req.inviteID, req.proof, req.node, req.mode, s.now).1.Accepted?
       && req.inviteID in s.reg.byInviteID && s.reg.byInviteID[req.inviteID] in s.reg.objects
       && s.reg.objects[s.reg.byInviteID[req.inviteID]].inviteID == req.inviteID
  }

  /** The host found the request's node, with the request's identity, in its trusted list at act c. */
  ghost predicate TrustedAt(env: Env, states: seq<State>, acts: seq<Act>, c: nat, i: nat, req: Request) {
    && c < |acts| && |states| == |acts| + 1 && acts[c] == Match(i) && req.mode == "trusted" && req.identity.Some?
    && Lookup(states[c].trusted, req.node).Some?
    && var peer := Lookup(states[c].trusted, req.node).value;
       IsMachineOf(env, peer, req.identity.value)
  }

  lemma IssueReads(s: State, i: nat, token: Bytes, t: State)
    requires IssueStep(s, i, token, t)
    ensures i in s.handlers && s.handlers[i].phase == Ready
    ensures t.log == s.log
      + [TokenIssued(i, token, s.handlers[i].req.node, s.handlers[i].port, s.now, s.handlers[i].cause)]
  {
  }

  lemma IssueAt(env: Env, states: seq<State>, acts: seq<Act>, m: nat, i: nat, token: Bytes)
    requires IsRun(env, states, acts) && m < |acts| && acts[m] == Issue(i, token)
    ensures i in states[m].handlers
    ensures var s := states[m]; var hd := s.handlers[i];
      && states[m + 1].log == s.log + [TokenIssued(i, token, hd.req.node, hd.port, s.now, hd.cause)]
      && hd.cause < |s.log| && IsBasis(s.reg, s.log, hd.cause, i, hd.req.node, hd.port)
  {
    StepOf(env, states, acts, m);
    IssueReads(states[m], i, token, states[m + 1]);
    InvAt(env, states, acts, m);
    ReadyBasis(env, states[0].trusted, states[m], i);
  }

  lemma ReadyBasis(env: Env, init: seq<TrustedPeer>, s: State, i: nat)
    requires Core(env, init, s) && At(s, i, Ready)
    ensures IsBasis(s.reg, s.log, s.handlers[i].cause, i, s.handlers[i].req.node, s.handlers[i].port)
  {
    assert HandlerOk(env, init, s.pairedAt, s.reg, s.log, i, s.handlers[i]);
  }

  lemma ConsumeReads(env: Env, s: State, i: nat, t: State)
    requires RegistryOk(s.reg) && ConsumeStep(env, s, i, t) && |t.log| > |s.log|
    ensures i in s.handlers
    ensures var req := s.handlers[i].req;
      && VerifyAndConsume(s.reg, env.host, req.inviteID, req.proof, req.node, req.mode, s.now).1.Accepted?
      && req.inviteID in s.reg.byInviteID && s.reg.byInviteID[req.inviteID] in s.reg.objects
      && s.reg.objects[s.reg.byInviteID[req.inviteID]].inviteID == req.inviteID
  {
    var req := s.handlers[i].req;
    AcceptedFacts(s.reg, env.host, req.inviteID, req.proof, req.node, req.mode, s.now);
  }

  lemma ConsumeAt(env: Env, states: seq<State>, acts: seq<Act>, c: nat, i: nat)
    requires IsRun(env, states, acts) && c < |acts| && acts[c] == Consume(i) && |states[c + 1].log| > |states[c].log|
    ensures i in states[c].handlers && InviteAcceptedAt(env, states, acts, c, i, states[c].handlers[i].req)
  {
    InvAt(env, states, acts, c);
    StepOf(env, states, acts, c);
    ConsumeReads(env, states[c], i, states[c + 1]);
  }

  /** Every token was issued for a request that had been accepted before. */
  lemma IssuedForRequest(env: Env, states: seq<State>, acts: seq<Act>, m: nat, i: nat, token: Bytes) returns (c: nat)
    requires IsRun(env, states, acts) && m < |acts| && acts[m] == Issue(i, token)
    ensures c < m && i in states[m].handlers
    ensures var req := states[m].handlers[i].req;
      InviteAcceptedAt(env, states, acts, c, i, req) || TrustedAt(env, states, acts, c, i, req)
  {
    IssueAt(env, states, acts, m, i, token);
    RunIsLocal(env, states, acts);
    var b := states[m].handlers[i].cause;
    c := LogOrigin(env, states, acts, m, b);
    if acts[c].Consume? {
      ConsumeAt(env, states, acts, c, i);
    } else {
      MatchAt(env, states, acts, c, i);
    }
    RequestStays(env, states, acts, c, m, i);
  }

  /** The response carries the node signature of the proof that the host signed for this request
      and token; all parts are short enough for the transcripts to be unambiguous (frames are
      capped far below). */
  ghost predicate Carries(
      keys: Keys, id: LocalIdentity, hostKey: Bytes, issuer: string, req: Request, token: Bytes, at: int,
      host: string, asked: Request, r: Response)
  {
    var made := HostProof(keys, id, hostKey, issuer, req, token, at);
    && made.Some? && r.identity.Some? && r.identity.value.nodeSignature == made.value.nodeSignature
    && ShortClaim(ResponseClaim(issuer, req, token, TimeWindow(at)), ToBound(made.value))
    && ShortClaim(ResponseClaim(host, asked, r.token, r.identity.value.window), ToBound(r.identity.value))
  }

  ghost predicate Logged(log: seq<Event>, i: nat, token: Bytes, node: string) {
    exists k :: 0 <= k < |log| && log[k].TokenIssued? && log[k].i == i && log[k].token == token && log[k].node == node
  }

  ghost predicate RequestAccepted(env: Env, states: seq<State>, acts: seq<Act>, m: nat, i: nat, req: Request) {
    exists c: nat :: c < m
      && (InviteAcceptedAt(env, states, acts, c, i, req) || TrustedAt(env, states, acts, c, i, req))
  }

  /** Over every run: take the proof that the host signs for a token it issues to serve a request,
      and any response that carries the node signature of that proof.  A client that accepts the
      response asked this host, from this node, with this invite, proof and mode; the token is
      the one issued, and the host had accepted the request before, by its invite or as a
      trusted peer's. */
  lemma ClientAndHostAgree(
      env: Env, states: seq<State>, acts: seq<Act>, m: nat, i: nat, token: Bytes, req: Request,
      id: LocalIdentity, hostKey: Bytes, at: int, asked: Request, host: string, r: Response, now: int)
    requires IsRun(env, states, acts) && m < |acts| && acts[m] == Issue(i, token)
    requires i in states[m].handlers && states[m].handlers[i].req == req
    requires Carries(env.keys, id, hostKey, env.host, req, token, at, host, asked, r)
    requires Accepts(env.keys, host, asked, r, now)
    ensures r.token == token && host == env.host
    ensures asked.node == req.node && asked.inviteID == req.inviteID && asked.proof == req.proof
    ensures asked.mode == req.mode
    ensures Logged(Last(states).log, i, token, asked.node) && RequestAccepted(env, states, acts, m, i, req)
  {
    SameClaim(env.keys, id, hostKey, env.host, req, token, at, host, asked, r, now);
    var c := IssuedForRequest(env, states, acts, m, i, token);
    IssueLogged(env, states, acts, m, i, token);
  }

  lemma SameClaim(
      keys: Keys, id: LocalIdentity, hostKey: Bytes, issuer: string, req: Request, token: Bytes, at: int,
      host: string, asked: Request, r: Response, now: int)
    requires Carries(keys, id, hostKey, issuer, req, token, at, host, asked, r) && Accepts(keys, host, asked, r, now)
    ensures r.token == token && host == issuer
    ensures asked.node == req.node && asked.inviteID == req.inviteID && asked.proof == req.proof
    ensures asked.mode == req.mode
  {
    var shown := r.identity.value;
    var claim := ResponseClaim(host, asked, r.token, 0);
    assert claim.(window := shown.window) == ResponseClaim(host, asked, r.token, shown.window);
    ProofBoundToClaim(keys, id, hostKey, ResponseClaim(issuer, req, token, TimeWindow(at)), shown, r.attestation,
      claim, now);
  }

  lemma IssueLogged(env: Env, states: seq<State>, acts: seq<Act>, m: nat, i: nat, token: Bytes)
    requires IsRun(env, states, acts) && m < |acts| && acts[m] == Issue(i, token)
    ensures i in states[m].handlers && Logged(Last(states).log, i, token, states[m].handlers[i].req.node)
  {
    IssueAt(env, states, acts, m, i, token);
    RunIsLocal(env, states, acts);
    LogsGrow(env, states, acts, m + 1, |acts|);
    assert Last(states).log[|states[m].log|] == states[m + 1].log[|states[m].log|];
  }

  // --- when the host's key signs nothing else ---

  /** The host made the signature for a response to the token that act m issued. */
  ghost predicate SignedForIssue(
      env: Env, states: seq<State>, acts: seq<Act>, m: nat, at: int, id: LocalIdentity, hostKey: Bytes, sig: Bytes)
  {
    && m < |acts| && m < |states| && acts[m].Issue? && acts[m].i in states[m].handlers
    && var req := states[m].handlers[acts[m].i].req;
       var made := HostProof(env.keys, id, hostKey, env.host, req, acts[m].token, at);
       && made.Some? && made.value.nodeSignature == sig
       && ShortClaim(ResponseClaim(env.host, req, acts[m].token, TimeWindow(at)), ToBound(made.value))
  }

  /** The host's machine made the signature in another role, as when it pairs with other hosts. */
  ghost predicate SignedOtherwise(keys: Keys, id: LocalIdentity, hostKey: Bytes, claim: Claim, sig: Bytes) {
    var made := LocalProof(keys, id, hostKey, claim);
    && claim.role != "response" && made.Some? && made.value.nodeSignature == sig
      && ShortClaim(claim, ToBound(made.value))
  }

  ghost predicate SignedByHost(
      env: Env, states: seq<State>, acts: seq<Act>, id: LocalIdentity, hostKey: Bytes, sig: Bytes)
  {
    || (exists m: nat, at: int :: SignedForIssue(env, states, acts, m, at, id, hostKey, sig))
    || (exists claim :: SignedOtherwise(env.keys, id, hostKey, claim, sig))
  }

  /** The token was issued at act m, for the very request that was asked. */
  ghost predicate IssuedTo(env: Env, states: seq<State>, acts: seq<Act>, m: nat, asked: Request, token: Bytes) {
    && m < |acts| && m < |states| && acts[m].Issue? && acts[m].token == token && acts[m].i in states[m].handlers
    && var req := states[m].handlers[acts[m].i].req;
       && asked.node == req.node && asked.inviteID == req.inviteID && asked.proof == req.proof && asked.mode == req.mode
       && RequestAccepted(env, states, acts, m, acts[m].i, req)
  }

  /** Over every run, if the host's node key signs nothing but proofs for the responses to its issues
      and proofs in other roles: whatever response a client accepts as this host's, its token was
      issued by this host for this request, after the request had been accepted. */
  lemma AcceptedTokensWereIssued(
      env: Env, states: seq<State>, acts: seq<Act>, id: LocalIdentity, hostKey: Bytes,
      asked: Request, host: string, r: Response, now: int) returns (m: nat)
    requires IsRun(env, states, acts) && Accepts(env.keys, host, asked, r, now) && r.identity.Some?
    requires SignedByHost(env, states, acts, id, hostKey, r.identity.value.nodeSignature)
    requires ShortClaim(ResponseClaim(host, asked, r.token, r.identity.value.window), ToBound(r.identity.value))
    ensures host == env.host && IssuedTo(env, states, acts, m, asked, r.token)
  {
    var sig := r.identity.value.nodeSignature;
    if exists claim :: SignedOtherwise(env.keys, id, hostKey, claim, sig) {
      var claim :| SignedOtherwise(env.keys, id, hostKey, claim, sig);
      NoOtherRole(env.keys, id, hostKey, claim, host, asked, r, now);
    }
    var k: nat, at: int :| SignedForIssue(env, states, acts, k, at, id, hostKey, sig);
    m := k;
    var i, req := acts[m].i, states[m].handlers[acts[m].i].req;
    ClientAndHostAgree(env, states, acts, m, i, acts[m].token, req, id, hostKey, at, asked, host, r, now);
  }

  /** A signature made in another role is not accepted in a response. */
  lemma NoOtherRole(
      keys: Keys, id: LocalIdentity, hostKey: Bytes, claim: Claim, host: string, asked: Request, r: Response, now: int)
    requires r.identity.Some? && SignedOtherwise(keys, id, hostKey, claim, r.identity.value.nodeSignature)
    requires ShortClaim(ResponseClaim(host, asked, r.token, r.identity.value.window), ToBound(r.identity.value))
    ensures !Accepts(keys, host, asked, r, now)
  {
    if Accepts(keys, host, asked, r, now) {
      var shown := r.identity.value;
      var expected := ResponseClaim(host, asked, r.token, 0);
      assert expected.(window := shown.window) == ResponseClaim(host, asked, r.token, shown.window);
      ProofBoundToClaim(keys, id, hostKey, claim, shown, r.attestation, expected, now);
    }
  }
}
