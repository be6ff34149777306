/** What holds in every run of the host, under every interleaving. */
module HostSafety {
  import opened Text
  import opened Transcripts
  import opened Identities
  import opened TrustedPeers
  import opened Invites
  import opened Sessions
  import opened Targets
  import opened HostProtocol
  import opened HostInvariants
  import opened HostRuns
  import opened HostOrigins
  import Runs

  function Last(states: seq<State>): State
    requires states != []
  {
    states[|states| - 1]
  }

  // --- who can reach what ---

  /** The channel opened at k spent one use of a token issued to its node at most 120 s before. */
  ghost predicate SpentToken(log: seq<Event>, k: nat)
    requires k < |log| && log[k].ChannelOpened?
  {
    var v := log[k].cause;
    && v < k && log[v].GrantVerified? && log[v].j == log[k].j && log[v].at <= log[k].at
    && log[v].cause < v && log[log[v].cause].TokenIssued?
    && var issue := log[log[v].cause];
       issue.token == log[v].token && issue.node == log[k].node
         && issue.at <= log[v].at <= issue.at + 120 * Tokens.SECOND
  }

  /** The token issued at k rests on an accepted identity proof for its node, addressed to this
      host, and on an invite or a trusted entry that the same handler accepted after it. */
  ghost predicate Earned(env: Env, reg: Registry<nat>, log: seq<Event>, k: nat)
    requires k < |log| && log[k].TokenIssued?
  {
    var b := log[k].cause;
    && b < k && (log[b].InviteAccepted? || log[b].TrustMatched?) && log[b].i == log[k].i && log[b].node == log[k].node
    && log[b].cause < b && log[log[b].cause].ProofAccepted?
    && var proof := log[log[b].cause];
       && proof.i == log[k].i && proof.claim.signer == log[k].node && proof.claim.verifier == env.host
         && proof.claim.role == "request"
       && proof.at <= log[b].at <= log[k].at
       && Authentic(env.keys, proof.proof, proof.attestation, proof.claim, proof.at)
       && (log[b].InviteAccepted? ==>
             && log[b].h in reg.objects && Honoured(env, reg.objects[log[b].h], proof.claim, log[b].at)
             && log[k].port == EffectiveTargetPort(reg.objects[log[b].h]))
       && (log[b].TrustMatched? ==>
             && log[b].peer.nodeID == log[k].node
             && SameIdentity(log[b].peer.publicKey, log[b].peer.machineID, proof.proof, env.hex))
  }

  function IssueOf(log: seq<Event>, k: nat): nat
    requires k < |log| && log[k].ChannelOpened? && log[k].cause < |log| && log[log[k].cause].GrantVerified?
  {
    log[log[k].cause].cause
  }

  /** The trusted match at b read the entry that the list held for the node at that moment, for
      the request that came in at act a; the port is the request's, else the entry's, else the
      one configured when the request came in. */
  ghost predicate MatchedFrom(env: Env, states: seq<State>, acts: seq<Act>, a: nat, m: nat, b: nat) {
    && a < m < |acts| && |states| == |acts| + 1 && b < |Last(states).log| && Last(states).log[b].TrustMatched?
    && var e := Last(states).log[b];
       && acts[m] == Match(e.i) && |states[m].log| == b && Lookup(states[m].trusted, e.node) == Some(e.peer)
       && acts[a].Arrive? && acts[a].i == e.i
       && var req := acts[a].req;
          && req.node == e.node && req.mode == "trusted" && req.identity.Some?
          && IsMachineOf(env, e.peer, req.identity.value)
          && e.port == (if req.targetPort > 0 then req.targetPort
               else if e.peer.targetPort > 0 then e.peer.targetPort else DefaultGrant(states[a]))
  }

  /** The machine ID of the proof folds to the trimmed one of the entry, if there is one; the hex of
      its key folds to the trimmed key of the entry, if both are there; the entry has one of them. */
  ghost predicate IsMachineOf(env: Env, peer: TrustedPeer, p: IdentityProof) {
    var machine, key := TrimSpace(peer.machineID), TrimSpace(peer.publicKey);
    && (machine != "" ==> EqualFold(machine, p.machineID))
    && (key != "" && p.publicKey != [] ==> EqualFold(key, env.hex(p.publicKey)))
    && (machine != "" || key != "")
  }

  lemma MachineMatches(env: Env, peer: TrustedPeer, p: IdentityProof)
    ensures StoredIdentityMatches(peer.publicKey, peer.machineID, p, env.hex) <==> IsMachineOf(env, peer, p)
  {
    StoredIdentityMatchesIff(peer.publicKey, peer.machineID, p, env.hex);
  }

  ghost predicate MatchedInList(env: Env, states: seq<State>, acts: seq<Act>, b: nat) {
    exists a: nat, m: nat :: MatchedFrom(env, states, acts, a, m, b)
  }

  /** The request that the channel was opened for, as it came in, asks for the granted port. */
  ghost predicate Requested(env: Env, acts: seq<Act>, log: seq<Event>, k: nat)
    requires k < |log| && log[k].ChannelOpened?
  {
    var hello := log[k].hello;
    && Greet(log[k].j, hello) in acts && hello.node == log[k].node
    && (hello.port > 0 ==> hello.port == log[k].port)
    && (TrimSpace(hello.host) != "" ==> LoopbackHost(hello.host, env.loopbackIP))
  }

  lemma AsksForMeans(env: Env, hello: Hello, port: int)
    ensures AsksFor(env, hello, port) <==>
      && (hello.port > 0 ==> hello.port == port)
      && (TrimSpace(hello.host) != "" ==> LoopbackHost(hello.host, env.loopbackIP))
  {
    IsLoopbackHostIff(hello.host, env.loopbackIP);
  }

  /** Over every run: a data channel opens only on a token that its node earned - by an invite or
      by the entry the trusted list held for it - and only for a request that names no port or
      the granted one, and no host or a loopback host.  It is dialled at the granted port of the
      loopback address, unless that port is above 65535 - which no invite grants. */
  lemma ChannelsAreAuthorized(env: Env, states: seq<State>, acts: seq<Act>, k: nat)
    requires IsRun(env, states, acts) && k < |Last(states).log| && Last(states).log[k].ChannelOpened?
    ensures var log := Last(states).log; var reg := Last(states).reg;
      && SpentToken(log, k) && Earned(env, reg, log, IssueOf(log, k)) && Requested(env, acts, log, k)
      && log[k].port > 0 && (log[k].port <= MAX_PORT ==> log[k].target == Loopback(log[k].port))
      && var issue := log[IssueOf(log, k)];
         && log[k].port == issue.port
         && (log[issue.cause].InviteAccepted? ==> log[k].port <= MAX_PORT)
         && (log[issue.cause].TrustMatched? ==>
           MatchedInList(env, states, acts, issue.cause) && log[k].port == log[issue.cause].port)
  {
    RunKeepsInv(env, states, acts);
    var s, init := Last(states), states[0].trusted;
    OpenLinks(env, init, s, k);
    AsksForMeans(env, s.log[k].hello, s.log[k].port);
    IssueLinks(env, init, s, IssueOf(s.log, k));
    GrantBasis(env, init, s, IssueOf(s.log, k));
    RequestOrigin(env, states, acts, k);
    var b := s.log[IssueOf(s.log, k)].cause;
    if s.log[b].TrustMatched? {
      MatchOrigin(env, states, acts, b);
    }
  }

  lemma GrantBasis(env: Env, init: seq<TrustedPeer>, s: State, k: nat)
    requires Core(env, init, s) && k < |s.log| && s.log[k].TokenIssued?
    ensures s.log[k].cause < k
    ensures s.log[s.log[k].cause].InviteAccepted? ==> s.log[k].port <= MAX_PORT
    ensures s.log[s.log[k].cause].TrustMatched? ==> s.log[k].port == s.log[s.log[k].cause].port
  {
    CausedAt(env, init, s, k);
    var b := s.log[k].cause;
    if s.log[b].InviteAccepted? {
      InvitePorts(s.reg, s.log[b].h);
    }
  }

  lemma MatchReads(env: Env, s: State, i: nat, t: State)
    requires MatchStep(env, s, i, t) && |t.log| > |s.log|
    ensures var e := t.log[|s.log|]; var req := s.handlers[i].req;
      && e.TrustMatched? && e.node == req.node && s.handlers[i].phase == Proved && req.mode == "trusted"
        && req.identity.Some?
      && Lookup(s.trusted, e.node) == Some(e.peer)
      && IsMachineOf(env, e.peer, req.identity.value) && e.port == t.handlers[i].port
      && e.port == (if req.targetPort > 0 then req.targetPort
           else if e.peer.targetPort > 0 then e.peer.targetPort else s.handlers[i].port)
  {
    var peer := t.log[|s.log|].peer;
    MachineMatches(env, peer, s.handlers[i].req.identity.value);
  }

  lemma MatchOrigin(env: Env, states: seq<State>, acts: seq<Act>, b: nat)
    requires IsRun(env, states, acts) && b < |Last(states).log| && Last(states).log[b].TrustMatched?
    ensures MatchedInList(env, states, acts, b)
  {
    RunIsLocal(env, states, acts);
    var m := LogOrigin(env, states, acts, |acts|, b);
    var i := Last(states).log[b].i;
    MatchAt(env, states, acts, m, i);
    var a := HandlerOrigin(env, states, acts, m, i);
    assert MatchedFrom(env, states, acts, a, m, b);
  }

  lemma MatchAt(env: Env, states: seq<State>, acts: seq<Act>, m: nat, i: nat)
    requires IsRun(env, states, acts) && m < |acts| && acts[m] == Match(i) && |states[m + 1].log| > |states[m].log|
    ensures var s := states[m];
      && i in s.handlers && s.handlers[i].phase == Proved
      && var e := states[m + 1].log[|s.log|]; var req := s.handlers[i].req;
         && e.TrustMatched? && e.node == req.node && req.mode == "trusted" && req.identity.Some?
         && Lookup(s.trusted, e.node) == Some(e.peer)
         && IsMachineOf(env, e.peer, req.identity.value)
         && e.port == (if req.targetPort > 0 then req.targetPort
              else if e.peer.targetPort > 0 then e.peer.targetPort else s.handlers[i].port)
  {
    StepOf(env, states, acts, m);
    MatchReads(env, states[m], i, states[m + 1]);
  }

  lemma DecideAt(env: Env, states: seq<State>, acts: seq<Act>, m: nat, j: nat)
    requires IsRun(env, states, acts) && m < |acts| && acts[m] == Decide(j) && |states[m + 1].log| > |states[m].log|
    ensures j in states[m].tunnels && states[m].tunnels[j].Spent?
    ensures states[m + 1].log[|states[m].log|].ChannelOpened?
    ensures states[m + 1].log[|states[m].log|].hello == states[m].tunnels[j].hello
  {
    StepOf(env, states, acts, m);
    DecideReads(env, states[m], j, states[m + 1]);
  }

  lemma DecideReads(env: Env, s: State, j: nat, t: State)
    requires DecideStep(env, s, j, t) && |t.log| > |s.log|
    ensures t.log[|s.log|].ChannelOpened? && t.log[|s.log|].hello == s.tunnels[j].hello
  {
  }

  lemma RequestOrigin(env: Env, states: seq<State>, acts: seq<Act>, k: nat)
    requires IsRun(env, states, acts) && k < |Last(states).log| && Last(states).log[k].ChannelOpened?
    ensures Greet(Last(states).log[k].j, Last(states).log[k].hello) in acts
  {
    RunIsLocal(env, states, acts);
    var m := LogOrigin(env, states, acts, |acts|, k);
    var j := Last(states).log[k].j;
    DecideAt(env, states, acts, m, j);
    var g := TunnelOrigin(env, states, acts, m, j);
    assert acts[g] in acts;
  }

  // --- what revocation ends ---

  /** The pairing invite that act n revokes was last used by this node. */
  ghost predicate RevokesUser(states: seq<State>, acts: seq<Act>, n: nat, node: string) {
    && n < |acts| && n < |states| && acts[n].Revoke? && node != ""
    && var reg := states[n].reg; var id := acts[n].id;
       id in reg.invites && reg.invites[id] in reg.objects
       && reg.objects[reg.invites[id]].mode == "pairing" && reg.objects[reg.invites[id]].usedByID == node
  }

  /** When a pairing invite is revoked, its last user is no longer trusted exactly when it had one
      entry at most.  Then everybody else is as before, and whenever that user is matched later,
      a Trust step has re-entered it since. */
  lemma RevokedUsersStayOut(env: Env, states: seq<State>, acts: seq<Act>, n: nat, node: string, b: nat)
    requires IsRun(env, states, acts) && RevokesUser(states, acts, n, node)
    ensures Lookup(states[n + 1].trusted, node) == None <==> Count(states[n].trusted, node) <= 1
    ensures Count(states[n].trusted, node) <= 1 ==>
      forall q :: q in states[n + 1].trusted <==> q in states[n].trusted && q.nodeID != node
    ensures Count(states[n].trusted, node) <= 1 && |states[n + 1].log| <= b < |Last(states).log|
      && Last(states).log[b].TrustMatched? && Last(states).log[b].node == node
      ==> EnteredBetween(states, acts, n, b, node)
  {
    RevokeAt(env, states, acts, n, node);
    if Count(states[n].trusted, node) <= 1 && |states[n + 1].log| <= b < |Last(states).log|
      && Last(states).log[b].TrustMatched? && Last(states).log[b].node == node
    {
      MatchNeedsEntry(env, states, acts, n, node, b);
    }
  }

  /** After act n and before the event at b, a Trust step entered the node. */
  ghost predicate EnteredBetween(states: seq<State>, acts: seq<Act>, n: nat, b: nat, node: string) {
    exists m :: n < m < |acts| && m < |states| && |states[m].log| <= b && Enters(states[m], acts[m], node)
  }

  lemma MatchNeedsEntry(env: Env, states: seq<State>, acts: seq<Act>, n: nat, node: string, b: nat)
    requires IsRun(env, states, acts) && n < |acts| && Lookup(states[n + 1].trusted, node) == None
    requires |states[n + 1].log| <= b < |Last(states).log|
    requires Last(states).log[b].TrustMatched? && Last(states).log[b].node == node
    ensures EnteredBetween(states, acts, n, b, node)
  {
    RunIsLocal(env, states, acts);
    var k := MatchedAfter(env, states, acts, n + 1, b);
    var m := EntryOrigin(env, states, acts, n + 1, k, node);
    LogsGrow(env, states, acts, m, k);
  }

  /** A node has one entry at most, if it had so at the start or has been entered since. */
  lemma OneEntryPerNode(env: Env, states: seq<State>, acts: seq<Act>, n: nat, node: string, m: nat)
    requires IsRun(env, states, acts) && n <= |acts| && node != ""
    requires Count(states[0].trusted, node) <= 1 || (m < n && Enters(states[m], acts[m], node))
    ensures Count(states[n].trusted, node) <= 1
  {
    RunIsLocal(env, states, acts);
    CountStays(env, states, acts, if Count(states[0].trusted, node) <= 1 then 0 else m, n, node);
  }

  /** The node that revocation locks out is that of the last handler that noted its use of the
      invite, and not of any before it. */
  lemma RevokedUserIsTheLast(env: Env, states: seq<State>, acts: seq<Act>, n: nat, node: string)
    requires IsRun(env, states, acts) && RevokesUser(states, acts, n, node)
    ensures exists m: nat :: LastNoted(states, acts, m, n, states[n].reg.invites[acts[n].id], node)
  {
    RunRecordsUsers(env, states, acts);
    var h := states[n].reg.invites[acts[n].id];
    var m := LastUser(states, acts, n, h);
    assert LastNoted(states, acts, m, n, h, node);
  }

  ghost predicate LastNoted(states: seq<State>, acts: seq<Act>, m: nat, n: nat, h: nat, node: string) {
    && m < n <= |acts| && n < |states| && NotesUse(states[m], acts[m], h)
      && states[m].handlers[acts[m].i].req.node == node
    && (forall k :: m < k < n ==> !NotesUse(states[k], acts[k], h))
  }

  lemma MatchedAfter(env: Env, states: seq<State>, acts: seq<Act>, l: nat, b: nat) returns (k: nat)
    requires IsRun(env, states, acts) && l <= |acts| && |states[l].log| <= b < |Last(states).log|
    requires Last(states).log[b].TrustMatched?
    ensures l <= k < |acts| && |states[k].log| == b && Lookup(states[k].trusted, Last(states).log[b].node) != None
  {
    RunIsLocal(env, states, acts);
    k := LogOrigin(env, states, acts, |acts|, b);
    MatchAt(env, states, acts, k, Last(states).log[b].i);
    After(env, states, acts, l, k, b);
  }

  lemma RevokeAt(env: Env, states: seq<State>, acts: seq<Act>, n: nat, node: string)
    requires IsRun(env, states, acts) && RevokesUser(states, acts, n, node)
    ensures Lookup(states[n + 1].trusted, node) == None <==> Count(states[n].trusted, node) <= 1
    ensures Count(states[n].trusted, node) <= 1 ==>
      forall q :: q in states[n + 1].trusted <==> q in states[n].trusted && q.nodeID != node
  {
    StepOf(env, states, acts, n);
    UserRemoved(states[n], acts[n].id, states[n + 1], node);
  }

  lemma UserRemoved(s: State, id: string, t: State, node: string)
    requires WellFormed(s.reg) && RevokeStep(s, id, t) && id in s.reg.invites && node != ""
    requires s.reg.objects[s.reg.invites[id]].mode == "pairing" && s.reg.objects[s.reg.invites[id]].usedByID == node
    ensures Lookup(t.trusted, node) == None <==> Count(s.trusted, node) <= 1
    ensures Count(s.trusted, node) <= 1 ==> forall q :: q in t.trusted <==> q in s.trusted && q.nodeID != node
  {
    RevokeReads(s, id, t);
    RemovedIsGoneIff(s.trusted, node);
    if Count(s.trusted, node) <= 1 { RemovedIsGone(s.trusted, node); }
  }

  lemma RevokeReads(s: State, id: string, t: State)
    requires WellFormed(s.reg) && RevokeStep(s, id, t) && id in s.reg.invites
    requires s.reg.objects[s.reg.invites[id]].mode == "pairing" && s.reg.objects[s.reg.invites[id]].usedByID != ""
    ensures t.trusted == Removed(s.trusted, s.reg.objects[s.reg.invites[id]].usedByID)
  {
  }

  /** The step that logged an event beyond what was logged at l is not before l. */
  lemma After(env: Env, states: seq<State>, acts: seq<Act>, l: nat, k: nat, b: nat)
    requires LocalRun(env, states, acts) && l <= |acts| && k < |acts|
    requires |states[k].log| == b && |states[k + 1].log| == b + 1 && |states[l].log| <= b
    ensures l <= k
  {
    if k < l {
      LogsGrow(env, states, acts, k + 1, l);
    }
  }

  lemma InvitePorts(reg: Registry<nat>, h: nat)
    requires RegistryOk(reg) && h in reg.objects
    ensures 1 <= EffectiveTargetPort(reg.objects[h]) <= MAX_PORT
  {
  }

  lemma CausedAt(env: Env, init: seq<TrustedPeer>, s: State, k: nat)
    requires Core(env, init, s) && k < |s.log|
    ensures Caused(env, init, s.reg, s.log[..k], s.log[k])
  {
  }

  lemma OpenLinks(env: Env, init: seq<TrustedPeer>, s: State, k: nat)
    requires Core(env, init, s) && k < |s.log| && s.log[k].ChannelOpened?
    ensures SpentToken(s.log, k)
    ensures var o := s.log[k]; var issue := s.log[IssueOf(s.log, k)];
      && o.port == issue.port > 0 && (o.port <= MAX_PORT ==> o.target == Loopback(o.port))
      && AsksFor(env, o.hello, o.port) && o.hello.node == o.node && o.hello.token == issue.token
  {
    CausedAt(env, init, s, k);
    VerifyLinks(env, init, s, s.log[k].cause);
  }

  lemma VerifyLinks(env: Env, init: seq<TrustedPeer>, s: State, v: nat)
    requires Core(env, init, s) && v < |s.log| && s.log[v].GrantVerified?
    ensures s.log[v].cause < v && s.log[s.log[v].cause].TokenIssued? && s.log[s.log[v].cause].token == s.log[v].token
    ensures s.log[s.log[v].cause].at <= s.log[v].at <= s.log[s.log[v].cause].at + TTL
  {
    CausedAt(env, init, s, v);
  }

  lemma IssueLinks(env: Env, init: seq<TrustedPeer>, s: State, k: nat)
    requires Core(env, init, s) && k < |s.log| && s.log[k].TokenIssued?
    ensures Earned(env, s.reg, s.log, k)
  {
    CausedAt(env, init, s, k);
    var b := s.log[k].cause;
    BasisLinks(env, init, s, b);
    var e := s.log[s.log[b].cause];
    AcceptedIffAuthentic(env.keys, Some(e.proof), e.attestation, e.claim, e.at);
    if s.log[b].TrustMatched? {
      StoredIdentityMatchesIff(s.log[b].peer.publicKey, s.log[b].peer.machineID, e.proof, env.hex);
    }
  }

  lemma BasisLinks(env: Env, init: seq<TrustedPeer>, s: State, b: nat)
    requires Core(env, init, s) && b < |s.log| && (s.log[b].InviteAccepted? || s.log[b].TrustMatched?)
    ensures var e := s.log[b];
      && e.cause < b && s.log[e.cause].ProofAccepted? && s.log[e.cause].i == e.i
        && s.log[e.cause].claim.signer == e.node
      && s.log[e.cause].at <= e.at && ProofCaused(env, s.log[e.cause])
      && (e.InviteAccepted? ==> e.h in s.reg.objects && Honoured(env, s.reg.objects[e.h], s.log[e.cause].claim, e.at))
      && (e.TrustMatched? ==>
            && e.peer.nodeID == e.node
            && StoredIdentityMatches(e.peer.publicKey, e.peer.machineID, s.log[e.cause].proof, env.hex))
  {
    CausedAt(env, init, s, b);
    CausedAt(env, init, s, s.log[b].cause);
  }

  // --- trust has a root ---

  ghost predicate TrustedFromStart(init: seq<TrustedPeer>, node: string) {
    exists q :: q in init && q.nodeID == node
  }

  ghost predicate AcceptedBefore(log: seq<Event>, k: nat, node: string) {
    exists r: nat :: r < k && r < |log| && log[r].InviteAccepted? && log[r].node == node
  }

  /** Over every run: a node that reaches a channel was trusted when the host started, or has
      itself had an invite accepted before. */
  lemma AccessIsRooted(env: Env, states: seq<State>, acts: seq<Act>, k: nat)
    requires IsRun(env, states, acts) && k < |Last(states).log| && Last(states).log[k].ChannelOpened?
    ensures TrustedFromStart(states[0].trusted, Last(states).log[k].node)
      || AcceptedBefore(Last(states).log, k, Last(states).log[k].node)
  {
    RunKeepsInv(env, states, acts);
    var s, init := Last(states), states[0].trusted;
    OpenLinks(env, init, s, k);
    IssueRooted(env, init, s, IssueOf(s.log, k));
  }

  lemma IssueRooted(env: Env, init: seq<TrustedPeer>, s: State, k: nat)
    requires Core(env, init, s) && k < |s.log| && s.log[k].TokenIssued?
    ensures TrustedFromStart(init, s.log[k].node) || AcceptedBefore(s.log, k, s.log[k].node)
  {
    IssueLinks(env, init, s, k);
    var b := s.log[k].cause;
    if s.log[b].TrustMatched? {
      MatchRooted(env, init, s, b);
    }
  }

  lemma MatchRooted(env: Env, init: seq<TrustedPeer>, s: State, b: nat)
    requires Core(env, init, s) && b < |s.log| && s.log[b].TrustMatched?
    ensures TrustedFromStart(init, s.log[b].node) || AcceptedBefore(s.log, b, s.log[b].node)
  {
    CausedAt(env, init, s, b);
    var e := s.log[b];
    if e.root.Some? {
      assert s.log[..b][e.root.value] == s.log[e.root.value];
    }
  }

  // --- accepted identities ---

  /** What the host has checked about a request. */
  ghost predicate Checked(env: Env, req: Request, now: int) {
    VerifyIdentityProof(env.keys, req.identity, req.attestation, RequestClaim(env.host, req, 0), now) == None
  }

  lemma ProveReads(env: Env, s: State, i: nat, t: State)
    requires ProveStep(env, s, i, t) && |t.log| > |s.log|
    ensures var e := t.log[|s.log|]; var req := s.handlers[i].req;
      && e.ProofAccepted? && e.claim == RequestClaim(env.host, req, 0) && req.identity == Some(e.proof)
      && e.attestation == req.attestation && e.at == s.now && Checked(env, req, s.now)
  {
  }

  lemma ProveAt(env: Env, states: seq<State>, acts: seq<Act>, c: nat, i: nat)
    requires IsRun(env, states, acts) && c < |acts| && acts[c] == Prove(i) && |states[c + 1].log| > |states[c].log|
    ensures i in states[c].handlers
    ensures var e := states[c + 1].log[|states[c].log|]; var req := states[c].handlers[i].req;
      && e.ProofAccepted? && e.claim == RequestClaim(env.host, req, 0) && req.identity == Some(e.proof)
      && e.attestation == req.attestation && Checked(env, req, states[c].now)
  {
    StepOf(env, states, acts, c);
    ProveReads(env, states[c], i, states[c + 1]);
  }

  /** The request whose proof was accepted at k. */
  lemma ProofOrigin(env: Env, states: seq<State>, acts: seq<Act>, n: nat, k: nat) returns (c: nat)
    requires IsRun(env, states, acts) && n <= |acts| && k < |states[n].log| && states[n].log[k].ProofAccepted?
    ensures c < n && states[n].log[k].i in states[c].handlers
    ensures var e := states[n].log[k]; var req := states[c].handlers[e.i].req;
      && e.claim == RequestClaim(env.host, req, 0) && req.identity == Some(e.proof) && Checked(env, req, states[c].now)
  {
    RunIsLocal(env, states, acts);
    c := LogOrigin(env, states, acts, n, k);
    ProveAt(env, states, acts, c, states[n].log[k].i);
  }

  /** The claim is about the request that handler i arrived with, and the proof came with it. */
  ghost predicate ForRequest(env: Env, acts: seq<Act>, i: nat, made: Claim, p: IdentityProof) {
    exists req ::
      Arrive(i, req) in acts && req.identity == Some(p) && made == RequestClaim(env.host, req, made.window)
  }

  /** Over every run: when the node signature of an accepted proof was made for some claim, then
      that claim is the request's - for this host, this mode, this invite and this invite proof -
      and the proof is unchanged. */
  lemma ProofsAreForTheirRequests(
      env: Env, states: seq<State>, acts: seq<Act>, k: nat, id: LocalIdentity, nodeKey: Bytes, made: Claim)
    requires IsRun(env, states, acts) && k < |Last(states).log| && Last(states).log[k].ProofAccepted?
    requires LocalProof(env.keys, id, nodeKey, made).Some?
    requires var e := Last(states).log[k]; var p := LocalProof(env.keys, id, nodeKey, made).value;
      && e.proof.nodeSignature == p.nodeSignature
      && ShortClaim(made, ToBound(p)) && ShortClaim(e.claim.(window := e.proof.window), ToBound(e.proof))
    ensures Last(states).log[k].proof == LocalProof(env.keys, id, nodeKey, made).value
    ensures ForRequest(env, acts, Last(states).log[k].i, made, Last(states).log[k].proof)
  {
    var e := Last(states).log[k];
    var c := ProofOrigin(env, states, acts, |acts|, k);
    var req := states[c].handlers[e.i].req;
    ProofBoundToClaim(env.keys, id, nodeKey, made, e.proof, req.attestation, e.claim, states[c].now);
    RunIsLocal(env, states, acts);
    var a := HandlerOrigin(env, states, acts, c, e.i);
    assert acts[a] in acts;
  }

  // --- who is remembered ---

  /** Hex texts have no white space around them, and peer IDs are not empty. */
  ghost predicate PlainKeys(env: Env) {
    && (forall b :: TrimSpace(env.keys.thumbprint(b)) == env.keys.thumbprint(b))
    && (forall b :: TrimSpace(env.hex(b)) == env.hex(b) && (b != [] ==> env.hex(b) != ""))
    && (forall b :: env.keys.peerID(b) != "")
  }

  ghost predicate PlainAttestation(att: Option<Attestation>) {
    att.Some? ==> TrimSpace(att.value.akThumbprint) == att.value.akThumbprint
  }

  /** The machine ID of a checked request folds to a thumbprint, so it is plain as well. */
  lemma CheckedIsPlain(env: Env, req: Request, now: int)
    requires Checked(env, req, now) && PlainKeys(env) && PlainAttestation(req.attestation)
    ensures req.identity.Some? && req.node != ""
    ensures var p := req.identity.value; p.machineID != "" && TrimSpace(p.machineID) == p.machineID
  {
    var p := req.identity.value;
    if p.backend == "tpm" {
      FoldKeepsPlain(req.attestation.value.akThumbprint, p.machineID);
    } else {
      FoldKeepsPlain(env.keys.thumbprint(p.publicKey), p.machineID);
    }
  }

  /** The entry shows what the request told about itself. */
  predicate SaysOf(q: TrustedPeer, req: Request) {
    && q.nodeID == req.node && (req.labelText != "" ==> q.labelText == req.labelText)
    && (req.info.backend != "" ==>
          q.identityBackend == req.info.backend && q.hardwareBacked == req.info.hardware)
    && (req.info.vendor != "" ==> q.tpmVendor == req.info.vendor)
    && (req.info.version != "" ==> q.tpmVersion == req.info.version)
    && (req.info.root != "" ==> q.tpmRoot == req.info.root)
  }

  lemma EnteredMatches(env: Env, s: State, i: nat, t: State)
    requires TrustStep(env, s, i, t) && Enters(s, Trust(i), s.handlers[i].req.node) && PlainKeys(env)
    requires var req := s.handlers[i].req;
      && req.node != "" && req.identity.Some? && req.identity.value.machineID != ""
      && TrimSpace(req.identity.value.machineID) == req.identity.value.machineID
    ensures var hd := s.handlers[i]; var found := Lookup(t.trusted, hd.req.node);
      && found.Some?
      && IsMachineOf(env, found.value, hd.req.identity.value)
      && (hd.port > 0 ==> found.value.targetPort == hd.port)
        && (hd.protocol != "" ==> found.value.protocol == hd.protocol)
      && found.value.lastConnectedAt >= s.now
      && SaysOf(found.value, hd.req)
  {
    LookupAdded(s.trusted, HostProtocol.Entry(env, s.handlers[i], s.now), s.now);
    MachineMatches(env, Lookup(t.trusted, s.handlers[i].req.node).value, s.handlers[i].req.identity.value);
  }

  /** Whoever is to be remembered has been checked. */
  lemma EntersChecked(env: Env, states: seq<State>, acts: seq<Act>, m: nat, i: nat) returns (c: nat)
    requires IsRun(env, states, acts) && m < |acts| && acts[m] == Trust(i)
    ensures c < m && i in states[m].handlers && Checked(env, states[m].handlers[i].req, states[c].now)
    ensures states[m].handlers[i].port > 0 && states[m].handlers[i].protocol != ""
  {
    var p := TrustBasis(env, states, acts, m, i);
    c := ProofOrigin(env, states, acts, m, p);
    RunIsLocal(env, states, acts);
    RequestStays(env, states, acts, c, m, i);
  }

  lemma TrustBasis(env: Env, states: seq<State>, acts: seq<Act>, m: nat, i: nat) returns (p: nat)
    requires IsRun(env, states, acts) && m < |acts| && acts[m] == Trust(i)
    ensures i in states[m].handlers && states[m].handlers[i].port > 0 && states[m].handlers[i].protocol != ""
    ensures p < |states[m].log| && states[m].log[p].ProofAccepted? && states[m].log[p].i == i
  {
    StepOf(env, states, acts, m);
    InvAt(env, states, acts, m);
    p := EntererProof(env, states[0].trusted, states[m], i);
  }

  lemma EntererProof(env: Env, init: seq<TrustedPeer>, s: State, i: nat) returns (p: nat)
    requires Core(env, init, s) && i in s.handlers && (s.handlers[i].phase.Matched? || s.handlers[i].phase.Noted?)
    ensures s.handlers[i].port > 0 && s.handlers[i].protocol != ""
    ensures p < |s.log| && s.log[p].ProofAccepted? && s.log[p].i == i
  {
    assert HandlerOk(env, init, s.pairedAt, s.reg, s.log, i, s.handlers[i]);
    BasisLinks(env, init, s, s.handlers[i].cause);
    p := s.log[s.handlers[i].cause].cause;
  }

  /** Over every run: whoever pairs or reauthenticates is remembered.  The entry found for the node
      afterwards matches the same identity again and carries the granted protocol and port. */
  lemma RememberedPeerMatches(env: Env, states: seq<State>, acts: seq<Act>, m: nat, i: nat)
    requires IsRun(env, states, acts) && m < |acts| && acts[m] == Trust(i) && i in states[m].handlers
    requires Enters(states[m], acts[m], states[m].handlers[i].req.node)
    requires PlainKeys(env) && PlainAttestation(states[m].handlers[i].req.attestation)
    ensures var hd := states[m].handlers[i]; var found := Lookup(states[m + 1].trusted, hd.req.node);
      && found.Some? && hd.req.identity.Some?
      && IsMachineOf(env, found.value, hd.req.identity.value)
      && found.value.targetPort == hd.port && found.value.protocol == hd.protocol
      && found.value.lastConnectedAt >= states[m].now && SaysOf(found.value, hd.req)
  {
    var c := EntersChecked(env, states, acts, m, i);
    CheckedIsPlain(env, states[m].handlers[i].req, states[c].now);
    StepOf(env, states, acts, m);
    EnteredMatches(env, states[m], i, states[m + 1]);
  }

  // --- one-time invites ---

  ghost predicate AcceptedFor(log: seq<Event>, k: nat, h: nat) {
    k < |log| && log[k].InviteAccepted? && log[k].h == h
  }

  ghost predicate IssuedFor(log: seq<Event>, k: nat, h: nat) {
    && k < |log| && log[k].TokenIssued? && log[k].cause < |log|
    && log[log[k].cause].InviteAccepted? && log[log[k].cause].h == h
  }

  /** The channel at k was opened with a token issued for invite h. */
  ghost predicate OpenedFor(log: seq<Event>, k: nat, h: nat) {
    && k < |log| && log[k].ChannelOpened? && log[k].cause < |log| && log[log[k].cause].GrantVerified?
    && IssuedFor(log, IssueOf(log, k), h)
  }

  ghost function ChannelsFor(log: seq<Event>, h: nat): set<nat> {
    set k: nat | k < |log| && OpenedFor(log, k, h)
  }

  ghost predicate OneTime(reg: Registry<nat>, h: nat) {
    h in reg.objects && reg.objects[h].mode == "onetime"
  }

  /** Over every run, however many handlers race: a one-time invite has at most one proof
      accepted, at most one token issued, and at most 16 channels opened ... */
  lemma OneTimeInvites(env: Env, states: seq<State>, acts: seq<Act>, h: nat)
    requires IsRun(env, states, acts) && OneTime(Last(states).reg, h)
    ensures var log := Last(states).log;
      && (forall k, l :: AcceptedFor(log, k, h) && AcceptedFor(log, l, h) ==> k == l)
      && (forall k, l :: IssuedFor(log, k, h) && IssuedFor(log, l, h) ==> k == l)
      && |ChannelsFor(log, h)| <= 16
  {
    RunKeepsInv(env, states, acts);
    var s, init := Last(states), states[0].trusted;
    forall k, l | IssuedFor(s.log, k, h) && IssuedFor(s.log, l, h) ensures k == l {
      OneIssue(env, init, s, h, k, l);
    }
    AtMostSixteen(env, init, s, h);
  }

  /** ... all for one node, at the invite's port, authorized within 120 s of the one issue. */
  lemma OneTimeChannelsAlike(env: Env, states: seq<State>, acts: seq<Act>, h: nat, k: nat, l: nat)
    requires IsRun(env, states, acts) && OneTime(Last(states).reg, h)
    requires OpenedFor(Last(states).log, k, h) && OpenedFor(Last(states).log, l, h)
    ensures var log := Last(states).log;
      && IssueOf(log, k) == IssueOf(log, l)
      && log[k].node == log[l].node && log[k].port == log[l].port && log[k].target == log[l].target
      && log[k].target == Loopback(EffectiveTargetPort(Last(states).reg.objects[h]))
      && var issued := log[IssueOf(log, k)].at;
         issued <= log[log[k].cause].at <= issued + 120 * Tokens.SECOND
           && issued <= log[log[l].cause].at <= issued + 120 * Tokens.SECOND
  {
    RunKeepsInv(env, states, acts);
    var s, init := Last(states), states[0].trusted;
    OneIssue(env, init, s, h, IssueOf(s.log, k), IssueOf(s.log, l));
    OneTimeChannel(env, init, s, h, k);
    OneTimeChannel(env, init, s, h, l);
  }

  lemma OneTimeChannel(env: Env, init: seq<TrustedPeer>, s: State, h: nat, k: nat)
    requires Core(env, init, s) && OpenedFor(s.log, k, h)
    ensures var issue := s.log[IssueOf(s.log, k)];
      && h in s.reg.objects && s.log[k].node == issue.node && s.log[k].port == EffectiveTargetPort(s.reg.objects[h])
      && s.log[k].target == Loopback(EffectiveTargetPort(s.reg.objects[h]))
      && issue.at <= s.log[s.log[k].cause].at <= issue.at + 120 * Tokens.SECOND
  {
    OpenLinks(env, init, s, k);
    InviteIssue(env, init, s, h, IssueOf(s.log, k));
  }

  lemma InviteIssue(env: Env, init: seq<TrustedPeer>, s: State, h: nat, k: nat)
    requires Core(env, init, s) && IssuedFor(s.log, k, h)
    ensures h in s.reg.objects && 1 <= s.log[k].port <= MAX_PORT
    ensures s.log[k].port == EffectiveTargetPort(s.reg.objects[h])
  {
    CausedAt(env, init, s, k);
    InvitePorts(s.reg, h);
  }

  lemma OneIssue(env: Env, init: seq<TrustedPeer>, s: State, h: nat, k: nat, l: nat)
    requires Inv(env, init, s) && OneTime(s.reg, h) && IssuedFor(s.log, k, h) && IssuedFor(s.log, l, h)
    ensures k == l
  {
    assert s.log[k].cause == s.log[l].cause;
    IssueLinks(env, init, s, k);
    IssueLinks(env, init, s, l);
    assert s.log[k].i == s.log[l].i;
  }

  lemma AtMostSixteen(env: Env, init: seq<TrustedPeer>, s: State, h: nat)
    requires Inv(env, init, s) && OneTime(s.reg, h)
    ensures |ChannelsFor(s.log, h)| <= MAX_USES
  {
    if ChannelsFor(s.log, h) != {} {
      var k0 :| k0 in ChannelsFor(s.log, h);
      ChannelsSpend(env, init, s, h, k0);
    }
  }

  /** Every channel for the invite spent a verification of its own of the one token. */
  lemma ChannelsSpend(env: Env, init: seq<TrustedPeer>, s: State, h: nat, k0: nat)
    requires Inv(env, init, s) && OneTime(s.reg, h) && OpenedFor(s.log, k0, h)
    ensures |ChannelsFor(s.log, h)| <= |Verifications(s.log, s.log[IssueOf(s.log, k0)].token)| <= MAX_USES
  {
    var vs := Verifications(s.log, s.log[IssueOf(s.log, k0)].token);
    assert |vs| <= MAX_USES;
    CausesIn(env, init, s, h, k0, vs);
    CausesDiffer(env, init, s, h);
    Injection(s.log, ChannelsFor(s.log, h), vs);
  }

  lemma CausesIn(env: Env, init: seq<TrustedPeer>, s: State, h: nat, k0: nat, vs: set<nat>)
    requires Inv(env, init, s) && OneTime(s.reg, h) && OpenedFor(s.log, k0, h)
    requires vs == Verifications(s.log, s.log[IssueOf(s.log, k0)].token)
    ensures forall k :: k in ChannelsFor(s.log, h) ==> s.log[k].cause in vs
  {
    forall k | k in ChannelsFor(s.log, h) ensures s.log[k].cause in vs {
      SameToken(env, init, s, h, k0, k);
    }
  }

  lemma CausesDiffer(env: Env, init: seq<TrustedPeer>, s: State, h: nat)
    requires Core(env, init, s) && OpenedOnce(s.log, s.tunnels)
    ensures forall k, l ::
      k in ChannelsFor(s.log, h) && l in ChannelsFor(s.log, h) && s.log[k].cause == s.log[l].cause ==> k == l
  {
    forall k, l | k in ChannelsFor(s.log, h) && l in ChannelsFor(s.log, h) && s.log[k].cause == s.log[l].cause
      ensures k == l
    {
      OwnVerification(env, init, s, k, l);
    }
  }

  lemma SameToken(env: Env, init: seq<TrustedPeer>, s: State, h: nat, k0: nat, k: nat)
    requires Inv(env, init, s) && OneTime(s.reg, h) && OpenedFor(s.log, k0, h) && OpenedFor(s.log, k, h)
    ensures s.log[k].cause in Verifications(s.log, s.log[IssueOf(s.log, k0)].token)
  {
    OneIssue(env, init, s, h, IssueOf(s.log, k0), IssueOf(s.log, k));
    OpenLinks(env, init, s, k);
  }

  lemma OwnVerification(env: Env, init: seq<TrustedPeer>, s: State, k: nat, l: nat)
    requires Core(env, init, s) && OpenedOnce(s.log, s.tunnels)
    requires k < |s.log| && l < |s.log| && s.log[k].ChannelOpened? && s.log[l].ChannelOpened?
    requires s.log[k].cause == s.log[l].cause
    ensures k == l
  {
    OpenLinks(env, init, s, k);
    OpenLinks(env, init, s, l);
  }

  ghost predicate HasCauses(log: seq<Event>, cs: set<nat>, vs: set<nat>) {
    && (forall k :: k in cs ==> k < |log| && log[k].ChannelOpened? && log[k].cause in vs)
    && (forall k, l :: k in cs && l in cs && log[k].cause == log[l].cause ==> k == l)
  }

  lemma {:induction false} Injection(log: seq<Event>, cs: set<nat>, vs: set<nat>)
    requires HasCauses(log, cs, vs)
    ensures |cs| <= |vs|
    decreases cs
  {
    if cs != {} {
      var k :| k in cs;
      Injection(log, cs - {k}, vs - {log[k].cause});
    }
  }

  // --- the registry ---

  /** Over every run index and table agree. */
  lemma RegistryInRuns(env: Env, states: seq<State>, acts: seq<Act>)
    requires IsRun(env, states, acts)
    ensures Agrees(Last(states).reg) && DistinctIDs(Last(states).reg)
  {
    RunKeepsInv(env, states, acts);
  }

  /** Over every run: an invite that was revoked, deleted, trimmed, or past its expiry when a
      sweep took place, is not accepted afterwards. */
  lemma RetiredNeverAccepted(env: Env, states: seq<State>, acts: seq<Act>, n: nat, h: nat, l: nat)
    requires IsRun(env, states, acts) && n < |acts| && WellFormed(states[n].reg) && Retires(states[n], acts[n], h)
    requires |states[n].log| <= l < |Last(states).log| && Last(states).log[l].InviteAccepted?
    ensures Last(states).log[l].h != h
  {
    RetiredAt(env, states, acts, n, h);
    UnindexedNeverAccepted(env, states, acts, n, h, l);
  }

  lemma UnindexedNeverAccepted(env: Env, states: seq<State>, acts: seq<Act>, n: nat, h: nat, l: nat)
    requires IsRun(env, states, acts) && n < |acts| && !acts[n].Consume?
    requires h in states[n + 1].reg.objects && !Indexed(states[n + 1].reg, h)
    requires |states[n].log| <= l < |Last(states).log| && Last(states).log[l].InviteAccepted?
    ensures Last(states).log[l].h != h
  {
    var m := AcceptanceOrigin(env, states, acts, n, l);
    LaterAct(acts, n, m);
    StillUnindexed(env, states, acts, n + 1, m, h);
  }

  lemma LaterAct(acts: seq<Act>, n: nat, m: nat)
    requires n <= m < |acts| && acts[m].Consume? && !acts[n].Consume?
    ensures n + 1 <= m
  {
  }

  lemma StillUnindexed(env: Env, states: seq<State>, acts: seq<Act>, l: nat, n: nat, h: nat)
    requires IsRun(env, states, acts) && l <= n <= |acts| && h in states[l].reg.objects && !Indexed(states[l].reg, h)
    ensures !Indexed(states[n].reg, h)
  {
    RunIsSteady(env, states, acts);
    StaysUnindexed(states, l, n, h);
  }

  lemma AcceptanceOrigin(env: Env, states: seq<State>, acts: seq<Act>, n: nat, l: nat) returns (m: nat)
    requires IsRun(env, states, acts) && n <= |acts|
    requires |states[n].log| <= l < |Last(states).log| && Last(states).log[l].InviteAccepted?
    ensures n <= m < |acts| && acts[m].Consume? && Indexed(states[m].reg, Last(states).log[l].h)
  {
    RunIsLocal(env, states, acts);
    m := LogOrigin(env, states, acts, |acts|, l);
    After(env, states, acts, n, m, l);
    AcceptedAt(env, states, acts, m, Last(states).log[l].i);
  }

  lemma RetiredAt(env: Env, states: seq<State>, acts: seq<Act>, n: nat, h: nat)
    requires IsRun(env, states, acts) && n < |acts| && WellFormed(states[n].reg) && Retires(states[n], acts[n], h)
    ensures h in states[n + 1].reg.objects && !Indexed(states[n + 1].reg, h)
  {
    InvAt(env, states, acts, n);
    StepOf(env, states, acts, n);
    RetiredStep(env, states[n], acts[n], states[n + 1], h);
  }

  lemma AcceptedAt(env: Env, states: seq<State>, acts: seq<Act>, m: nat, i: nat)
    requires IsRun(env, states, acts) && m < |acts| && acts[m] == Consume(i) && |states[m + 1].log| > |states[m].log|
    requires states[m + 1].log[|states[m].log|].InviteAccepted?
    ensures Indexed(states[m].reg, states[m + 1].log[|states[m].log|].h)
  {
    InvAt(env, states, acts, m);
    StepOf(env, states, acts, m);
    AcceptedIndexed(env, states[m], i, states[m + 1]);
  }

  /** A sweep leaves at most 500 invites. */
  lemma SweepsCap(env: Env, states: seq<State>, acts: seq<Act>)
    requires IsRun(env, states, acts) && acts != [] && acts[|acts| - 1].Sweep?
    ensures |Last(states).reg.invites| <= 500
  {
    Runs.ButLast(Initial, Steps(env), states, acts);
    RunKeepsInv(env, states[..|acts|], acts[..|acts| - 1]);
    var s := states[|acts| - 1];
    IndexSweptAgrees(s.reg, s.now);
    CapRespected(IndexSwept(s.reg, s.now), acts[|acts| - 1].gone);
  }

  // --- the steps are never blocked by their side conditions ---

  /** What some steps take for granted about their handler holds whenever they are due. */
  lemma SideConditions(env: Env, states: seq<State>, acts: seq<Act>)
    requires IsRun(env, states, acts)
    ensures var s := Last(states);
      && WellFormed(s.reg)
      && (forall i :: At(s, i, Proved) ==> s.handlers[i].req.identity.Some?)
      && (forall i :: i in s.handlers && s.handlers[i].phase.Consumed? ==> s.handlers[i].phase.h in s.reg.objects)
      && (forall token :: token in s.sessions ==> token in s.issuedAt)
  {
    RunKeepsInv(env, states, acts);
    var s := Last(states);
    forall i | i in s.handlers
      ensures HandlerOk(env, states[0].trusted, s.pairedAt, s.reg, s.log, i, s.handlers[i])
    {
    }
    forall token | token in s.sessions ensures token in s.issuedAt {
      assert SessionOk(s.log, s.issuedAt, token, s.sessions[token]);
    }
  }
}
