/** What every step of the host keeps. */
module HostInvariants {
  import opened Text
  import opened Transcripts
  import opened Identities
  import opened TrustedPeers
  import opened Invites
  import opened Sessions
  import opened Targets
  import opened HostProtocol

  // --- what an invite keeps for life ---

  ghost predicate Kept(r: Registry<nat>, q: Registry<nat>) {
    forall h :: h in r.objects ==> h in q.objects && SameTerms(r.objects[h], q.objects[h])
  }

  // --- every event has its cause ---

  /** The invite was one the host could honour when it accepted the proof. */
  predicate Honoured(env: Env, inv: Invite, claim: Claim, at: int) {
    && !inv.revoked && claim.mode == inv.mode && claim.inviteID == inv.inviteID
    && (inv.mode != "pairing" ==> !PastExpiry(inv, at))
    && ValidInviteProof(inv, claim.inviteProof, env.host, claim.signer, inv.mode, at)
  }

  predicate IsProof(log: seq<Event>, k: nat, i: nat, node: string) {
    k < |log| && log[k].ProofAccepted? && log[k].i == i && log[k].claim.signer == node
  }

  predicate IsPairing(reg: Registry<nat>, log: seq<Event>, k: nat, node: string) {
    && k < |log| && log[k].InviteAccepted? && log[k].node == node
    && log[k].h in reg.objects && reg.objects[log[k].h].mode == "pairing"
  }

  predicate ProofCaused(env: Env, e: Event)
    requires e.ProofAccepted?
  {
    && e.claim.role == "request" && e.claim.verifier == env.host
    && VerifyIdentityProof(env.keys, Some(e.proof), e.attestation, e.claim, e.at) == None
  }

  predicate AcceptCaused(env: Env, reg: Registry<nat>, log: seq<Event>, e: Event)
    requires e.InviteAccepted?
  {
    && IsProof(log, e.cause, e.i, e.node) && e.h in reg.objects
    && Honoured(env, reg.objects[e.h], log[e.cause].claim, e.at)
  }

  predicate MatchCaused(env: Env, reg: Registry<nat>, trusted: seq<TrustedPeer>, log: seq<Event>, e: Event)
    requires e.TrustMatched?
  {
    && IsProof(log, e.cause, e.i, e.node) && e.peer.nodeID == e.node
    && StoredIdentityMatches(e.peer.publicKey, e.peer.machineID, log[e.cause].proof, env.hex)
    && (e.root.Some? ==> IsPairing(reg, log, e.root.value, e.node))
    && (e.root.None? ==> exists q :: q in trusted && q.nodeID == e.node)
  }

  /** The acceptance a token rests on. */
  predicate IsBasis(reg: Registry<nat>, log: seq<Event>, k: nat, i: nat, node: string, port: int) {
    && k < |log|
    && match log[k]
       case InviteAccepted(i0, h, node0, _, _) =>
         i0 == i && node0 == node && h in reg.objects && port == EffectiveTargetPort(reg.objects[h])
       case TrustMatched(i0, _, node0, port0, _, _, _) => i0 == i && node0 == node && port0 == port
       case _ => false
  }

  predicate IsIssue(log: seq<Event>, k: nat, token: Bytes, at: int, grant: Grant) {
    && k < |log| && log[k].TokenIssued? && log[k].token == token && log[k].at == at
    && Grant(log[k].node, log[k].port) == grant
  }

  predicate VerifyCaused(log: seq<Event>, e: Event)
    requires e.GrantVerified?
  {
    && e.cause < |log| && log[e.cause].TokenIssued? && log[e.cause].token == e.token
    && log[e.cause].at <= e.at <= log[e.cause].at + TTL
  }

  /** The grant that a verification returned. */
  predicate IsGrant(log: seq<Event>, k: nat, j: nat, token: Bytes, grant: Grant) {
    && k < |log| && log[k].GrantVerified? && log[k].j == j && log[k].token == token
    && log[k].cause < |log| && log[log[k].cause].TokenIssued? && log[log[k].cause].token == token
    && Grant(log[log[k].cause].node, log[log[k].cause].port) == grant && grant.targetPort > 0
  }

  predicate OpenCaused(env: Env, log: seq<Event>, e: Event)
    requires e.ChannelOpened?
  {
    && e.cause < |log| && log[e.cause].GrantVerified? && log[e.cause].j == e.j
    && log[e.cause].cause < |log| && log[log[e.cause].cause].TokenIssued?
    && var issue := log[log[e.cause].cause];
       && issue.node == e.node == e.hello.node && issue.token == e.hello.token && issue.port == e.port
       && AsksFor(env, e.hello, e.port)
       && e.port > 0 && (e.port <= MAX_PORT ==> e.target == Loopback(e.port))
  }

  predicate CauseBefore(log: seq<Event>, e: Event) {
    match e
    case ProofAccepted(_, _, _, _, _) => true
    case InvitesRemoved(_, _) => true
    case _ => e.cause < |log| && log[e.cause].at <= e.at
  }

  /** e may follow log. */
  predicate Caused(env: Env, trusted: seq<TrustedPeer>, reg: Registry<nat>, log: seq<Event>, e: Event) {
    && CauseBefore(log, e)
    && match e
       case ProofAccepted(_, _, _, _, _) => ProofCaused(env, e)
       case InviteAccepted(_, _, _, _, _) => AcceptCaused(env, reg, log, e)
       case TrustMatched(_, _, _, _, _, _, _) => MatchCaused(env, reg, trusted, log, e)
       case TokenIssued(i, _, node, port, _, cause) => port > 0 && IsBasis(reg, log, cause, i, node, port)
       case GrantVerified(_, _, _, _) => VerifyCaused(log, e)
       case ChannelOpened(_, _, _, _, _, _, _) => OpenCaused(env, log, e)
       case InvitesRemoved(_, _) => true
  }

  ghost predicate AllCaused(env: Env, trusted: seq<TrustedPeer>, reg: Registry<nat>, log: seq<Event>) {
    forall k :: 0 <= k < |log| ==> Caused(env, trusted, reg, log[..k], log[k])
  }

  ghost predicate NoneLater(log: seq<Event>, now: int) {
    forall k :: 0 <= k < |log| ==> log[k].at <= now
  }

  lemma KeptCaused(env: Env, trusted: seq<TrustedPeer>, r: Registry<nat>, q: Registry<nat>, log: seq<Event>, e: Event)
    requires Caused(env, trusted, r, log, e) && Kept(r, q)
    ensures Caused(env, trusted, q, log, e)
  {
  }

  lemma KeptAllCaused(env: Env, trusted: seq<TrustedPeer>, r: Registry<nat>, q: Registry<nat>, log: seq<Event>)
    requires AllCaused(env, trusted, r, log) && Kept(r, q)
    ensures AllCaused(env, trusted, q, log)
  {
    forall k | 0 <= k < |log| ensures Caused(env, trusted, q, log[..k], log[k]) {
      KeptCaused(env, trusted, r, q, log[..k], log[k]);
    }
  }

  lemma ExtendAllCaused(env: Env, trusted: seq<TrustedPeer>, reg: Registry<nat>, log: seq<Event>, e: Event)
    requires AllCaused(env, trusted, reg, log) && Caused(env, trusted, reg, log, e)
    ensures AllCaused(env, trusted, reg, log + [e])
  {
    forall k | 0 <= k < |log + [e]| ensures Caused(env, trusted, reg, (log + [e])[..k], (log + [e])[k]) {
      if k < |log| {
        assert (log + [e])[..k] == log[..k] && (log + [e])[k] == log[k];
      } else {
        assert (log + [e])[..k] == log;
      }
    }
  }

  // --- where the handlers, the tunnels and the tokens stand ---

  /** The node was trusted from the start or has used a pairing invite since. */
  ghost predicate Rooted(init: seq<TrustedPeer>, pairedAt: map<string, nat>, node: string) {
    node in pairedAt || exists q :: q in init && q.nodeID == node
  }

  ghost predicate Grown(p: map<string, nat>, q: map<string, nat>) {
    forall n :: n in p ==> n in q
  }

  ghost predicate HandlerOk(
      env: Env, init: seq<TrustedPeer>, pairedAt: map<string, nat>, reg: Registry<nat>, log: seq<Event>, i: nat,
      hd: Handler)
  {
    && hd.port > 0 && hd.protocol != ""
    && match hd.phase
       case Waiting => true
       case Done => true
       case Proved =>
         IsProof(log, hd.cause, i, hd.req.node) && log[hd.cause].claim == RequestClaim(env.host, hd.req, 0)
         && hd.req.identity == Some(log[hd.cause].proof)
       case Consumed(h) => HoldsInvite(pairedAt, reg, log, i, hd, h)
       case Noted(h) => HoldsInvite(pairedAt, reg, log, i, hd, h)
       case Matched(_) => IsBasis(reg, log, hd.cause, i, hd.req.node, hd.port) && Rooted(init, pairedAt, hd.req.node)
       case Ready => IsBasis(reg, log, hd.cause, i, hd.req.node, hd.port)
  }

  predicate HoldsInvite(pairedAt: map<string, nat>, reg: Registry<nat>, log: seq<Event>, i: nat, hd: Handler, h: nat) {
    && IsBasis(reg, log, hd.cause, i, hd.req.node, hd.port) && h in reg.objects
    && (hd.req.mode == "pairing" ==> hd.req.node in pairedAt)
  }

  ghost predicate HandlersOk(
      env: Env, init: seq<TrustedPeer>, pairedAt: map<string, nat>, reg: Registry<nat>, log: seq<Event>,
      hs: map<nat, Handler>)
  {
    forall i :: i in hs ==> HandlerOk(env, init, pairedAt, reg, log, i, hs[i])
  }

  predicate TunnelOk(log: seq<Event>, j: nat, tn: Tunnel) {
    tn.Spent? ==> IsGrant(log, tn.cause, j, tn.hello.token, tn.grant)
  }

  ghost predicate TunnelsOk(log: seq<Event>, ts: map<nat, Tunnel>) {
    forall j :: j in ts ==> TunnelOk(log, j, ts[j])
  }

  /** The positions of a token's successful verifications. */
  function Verifications(log: seq<Event>, token: Bytes): set<nat> {
    set k: nat | k < |log| && log[k].GrantVerified? && log[k].token == token
  }

  ghost predicate IssuesOk(log: seq<Event>, issuedAt: map<Bytes, nat>) {
    && (forall token :: token in issuedAt ==>
          issuedAt[token] < |log| && log[issuedAt[token]].TokenIssued? && log[issuedAt[token]].token == token)
    && (forall k :: 0 <= k < |log| && log[k].TokenIssued? ==> log[k].token in issuedAt && issuedAt[log[k].token] == k)
    && (forall k :: 0 <= k < |log| && log[k].GrantVerified? ==> log[k].token in issuedAt)
  }

  predicate SessionOk(log: seq<Event>, issuedAt: map<Bytes, nat>, token: Bytes, e: Sessions.Entry) {
    && token in issuedAt && IsIssue(log, issuedAt[token], token, e.expiresAt - TTL, e.grant)
    && e.usesLeft >= 1 && e.usesLeft == MAX_USES - |Verifications(log, token)|
  }

  ghost predicate SessionsOk(log: seq<Event>, issuedAt: map<Bytes, nat>, store: Store) {
    forall token :: token in store ==> SessionOk(log, issuedAt, token, store[token])
  }

  ghost predicate UsesOk(log: seq<Event>) {
    forall token :: |Verifications(log, token)| <= MAX_USES
  }

  // --- once only ---

  ghost predicate IssuedOnce(log: seq<Event>, hs: map<nat, Handler>) {
    && (forall k :: 0 <= k < |log| && log[k].TokenIssued? ==> log[k].i in hs && hs[log[k].i].phase == Done)
    && (forall k, l :: 0 <= k < l < |log| && log[k].TokenIssued? && log[l].TokenIssued? ==> log[k].i != log[l].i)
  }

  ghost predicate OpenedOnce(log: seq<Event>, ts: map<nat, Tunnel>) {
    && (forall k :: 0 <= k < |log| && log[k].ChannelOpened? ==> log[k].j in ts && ts[log[k].j] == Open)
    && (forall k, l :: 0 <= k < l < |log| && log[k].ChannelOpened? && log[l].ChannelOpened? ==> log[k].j != log[l].j)
  }

  ghost predicate AcceptedOnce(log: seq<Event>, reg: Registry<nat>) {
    && (forall k :: 0 <= k < |log| && log[k].InviteAccepted? ==>
          log[k].h in reg.objects && (reg.objects[log[k].h].mode == "onetime" ==> reg.objects[log[k].h].used))
    && (forall k, l ::
          0 <= k < l < |log| && log[k].InviteAccepted? && log[l].InviteAccepted? && log[k].h == log[l].h ==>
          log[k].h in reg.objects && reg.objects[log[k].h].mode != "onetime")
  }

  // --- the registry ---

  ghost predicate RegistryOk(reg: Registry<nat>) {
    && Agrees(reg) && DistinctIDs(reg)
    && (forall h :: h in reg.objects ==> reg.objects[h].targetPort <= MAX_PORT)
  }

  ghost predicate StaysRemoved(log: seq<Event>, reg: Registry<nat>) {
    && (forall k, h :: 0 <= k < |log| && log[k].InvitesRemoved? && h in log[k].hs ==>
      h in reg.objects && !Indexed(reg, h))
    && (forall k, l :: 0 <= k < l < |log| && log[k].InvitesRemoved? && log[l].InviteAccepted? ==>
      log[l].h !in log[k].hs)
  }

  ghost predicate TrustOk(
      init: seq<TrustedPeer>, pairedAt: map<string, nat>, reg: Registry<nat>, log: seq<Event>,
      trusted: seq<TrustedPeer>) {
    && (forall q :: q in trusted ==> Rooted(init, pairedAt, q.nodeID))
    && (forall n :: n in pairedAt ==> IsPairing(reg, log, pairedAt[n], n))
  }

  ghost predicate Core(env: Env, init: seq<TrustedPeer>, s: State) {
    && RegistryOk(s.reg) && NoneLater(s.log, s.now) && AllCaused(env, init, s.reg, s.log)
    && HandlersOk(env, init, s.pairedAt, s.reg, s.log, s.handlers) && TunnelsOk(s.log, s.tunnels)
    && TrustOk(init, s.pairedAt, s.reg, s.log, s.trusted)
  }

  ghost predicate Counted(s: State) {
    IssuesOk(s.log, s.issuedAt) && SessionsOk(s.log, s.issuedAt, s.sessions) && UsesOk(s.log)
  }

  ghost predicate Once(s: State) {
    && IssuedOnce(s.log, s.handlers) && OpenedOnce(s.log, s.tunnels)
    && AcceptedOnce(s.log, s.reg) && StaysRemoved(s.log, s.reg)
  }

  ghost predicate Inv(env: Env, init: seq<TrustedPeer>, s: State) {
    Core(env, init, s) && Counted(s) && Once(s)
  }

  // --- growth keeps all of them ---

  lemma GrowHandlers(
      env: Env, init: seq<TrustedPeer>, p: map<string, nat>, p2: map<string, nat>, r: Registry<nat>, r2: Registry<nat>,
      log: seq<Event>, log2: seq<Event>, hs: map<nat, Handler>)
    requires HandlersOk(env, init, p, r, log, hs) && Grown(p, p2) && Kept(r, r2) && log <= log2
    ensures HandlersOk(env, init, p2, r2, log2, hs)
  {
    forall i | i in hs ensures HandlerOk(env, init, p2, r2, log2, i, hs[i]) {
      GrowHandler(env, init, p, p2, r, r2, log, log2, i, hs[i]);
    }
  }

  lemma GrowHandler(
      env: Env, init: seq<TrustedPeer>, p: map<string, nat>, p2: map<string, nat>, r: Registry<nat>, r2: Registry<nat>,
      log: seq<Event>, log2: seq<Event>, i: nat, hd: Handler)
    requires HandlerOk(env, init, p, r, log, i, hd) && Grown(p, p2) && Kept(r, r2) && log <= log2
    ensures HandlerOk(env, init, p2, r2, log2, i, hd)
  {
  }

  lemma GrowTunnels(log: seq<Event>, e: Event, ts: map<nat, Tunnel>)
    requires TunnelsOk(log, ts)
    ensures TunnelsOk(log + [e], ts)
  {
  }

  lemma GrowVerifications(log: seq<Event>, e: Event, token: Bytes)
    ensures Verifications(log + [e], token) ==
      if e.GrantVerified? && e.token == token then Verifications(log, token) + {|log|} else Verifications(log, token)
  {
  }

  lemma GrowSessions(log: seq<Event>, e: Event, issuedAt: map<Bytes, nat>, store: Store)
    requires SessionsOk(log, issuedAt, store) && !e.GrantVerified?
    ensures SessionsOk(log + [e], issuedAt, store)
  {
    forall token | token in store ensures SessionOk(log + [e], issuedAt, token, store[token]) {
      GrowVerifications(log, e, token);
    }
  }

  lemma GrowUses(log: seq<Event>, e: Event)
    requires UsesOk(log) && (e.GrantVerified? ==> |Verifications(log, e.token)| < MAX_USES)
    ensures UsesOk(log + [e])
  {
    forall token ensures |Verifications(log + [e], token)| <= MAX_USES {
      GrowVerifications(log, e, token);
    }
  }

  lemma GrowTrust(
      init: seq<TrustedPeer>, p: map<string, nat>, r: Registry<nat>, r2: Registry<nat>, log: seq<Event>,
      log2: seq<Event>,
      trusted: seq<TrustedPeer>)
    requires TrustOk(init, p, r, log, trusted) && Kept(r, r2) && log <= log2
    ensures TrustOk(init, p, r2, log2, trusted)
  {
  }
}
