/** Every step of the host keeps the invariant. */
module HostRuns {
  import opened Text
  import opened Transcripts
  import opened Identities
  import opened TrustedPeers
  import opened Invites
  import opened Sessions
  import opened Targets
  import opened HostProtocol
  import opened HostInvariants
  import Runs

  // --- what the registry operations keep ---

  /** The tables stay in order, invites keep their terms, and no invite becomes findable again. */
  ghost predicate Steady(r: Registry<nat>, q: Registry<nat>) {
    && RegistryOk(q) && Kept(r, q)
    && (forall h :: h in r.objects && Indexed(q, h) ==> Indexed(r, h))
  }

  /** Only the use of one invite is marked. */
  lemma MarkedSteady(r: Registry<nat>, h: nat, inv: Invite)
    requires RegistryOk(r) && h in r.objects && SameTerms(r.objects[h], inv)
    ensures Steady(r, r.(objects := r.objects[h := inv]))
  {
  }

  lemma UnindexedSteady(r: Registry<nat>, ks: set<Bytes>)
    requires RegistryOk(r)
    ensures Steady(r, r.(byInviteID := r.byInviteID - ks))
  {
  }

  lemma WithoutSteady(r: Registry<nat>, ds: set<string>)
    requires RegistryOk(r)
    ensures Steady(r, Without(r, ds))
    ensures forall h :: h in Handles(r, ds) ==> h in r.objects && !Indexed(Without(r, ds), h)
  {
    WithoutAgrees(r, ds);
  }

  lemma GeneratedSteady(r: Registry<nat>, h: nat, inv: Invite)
    requires RegistryOk(r) && h !in r.objects && inv.id !in r.invites && inv.targetPort <= MAX_PORT
    requires inv.inviteID !in r.byInviteID && forall g :: g in r.objects ==> r.objects[g].inviteID != inv.inviteID
    ensures Steady(r, Generated(r, h, inv))
  {
    GeneratedAgreesIff(r, h, inv);
    GeneratedDistinct(r, h, inv);
    GeneratedIndex(r, h, inv);
  }

  lemma GeneratedDistinct(r: Registry<nat>, h: nat, inv: Invite)
    requires DistinctIDs(r) && h !in r.objects
    requires forall g :: g in r.objects ==> r.objects[g].inviteID != inv.inviteID
    ensures DistinctIDs(Generated(r, h, inv))
  {
  }

  lemma GeneratedIndex(r: Registry<nat>, h: nat, inv: Invite)
    requires h !in r.objects
    ensures Kept(r, Generated(r, h, inv))
    ensures forall g :: g in r.objects && Indexed(Generated(r, h, inv), g) ==> Indexed(r, g)
  {
  }

  lemma ConsumedSteady(
      r: Registry<nat>, host: string, inviteID: Bytes, proof: Bytes, client: string, mode: string, now: int)
    requires RegistryOk(r)
    ensures Steady(r, VerifyAndConsume(r, host, inviteID, proof, client, mode, now).0)
  {
    ConsumedShape(r, host, inviteID, proof, client, mode, now);
    var (q, outcome) := VerifyAndConsume(r, host, inviteID, proof, client, mode, now);
    if outcome.Accepted? {
      MarkedSteady(r, outcome.handle, q.objects[outcome.handle]);
    } else {
      UnindexedSteady(r, {});
      assert r.byInviteID - {} == r.byInviteID;
      UnindexedSteady(r, {inviteID});
    }
  }

  // --- moves that steps are made of ---

  /** One handler moves on. */
  lemma MoveHandler(env: Env, init: seq<TrustedPeer>, s: State, i: nat, hd: Handler)
    requires Inv(env, init, s) && HandlerOk(env, init, s.pairedAt, s.reg, s.log, i, hd)
    requires i in s.handlers ==> s.handlers[i].phase != Done
    ensures Inv(env, init, SetHandler(s, i, hd))
  {
  }

  lemma MoveTunnel(env: Env, init: seq<TrustedPeer>, s: State, j: nat, tn: Tunnel)
    requires Inv(env, init, s) && TunnelOk(s.log, j, tn)
    requires j in s.tunnels ==> s.tunnels[j] != Open
    ensures Inv(env, init, s.(tunnels := s.tunnels[j := tn]))
  {
  }

  lemma MoveTrusted(env: Env, init: seq<TrustedPeer>, s: State, trusted: seq<TrustedPeer>)
    requires Inv(env, init, s) && forall q :: q in trusted ==> Rooted(init, s.pairedAt, q.nodeID)
    ensures Inv(env, init, s.(trusted := trusted))
  {
  }

  /** The tables change, the invites keep their terms and nothing removed comes back. */
  lemma MoveRegistry(env: Env, init: seq<TrustedPeer>, s: State, reg: Registry<nat>)
    requires Inv(env, init, s) && Steady(s.reg, reg)
    ensures Inv(env, init, s.(reg := reg))
  {
    GrowHandlers(env, init, s.pairedAt, s.pairedAt, s.reg, reg, s.log, s.log, s.handlers);
    KeptAllCaused(env, init, s.reg, reg, s.log);
    GrowTrust(init, s.pairedAt, s.reg, reg, s.log, s.log, s.trusted);
    KeptAcceptedOnce(s.log, s.reg, reg);
  }

  lemma KeptAcceptedOnce(log: seq<Event>, r: Registry<nat>, q: Registry<nat>)
    requires AcceptedOnce(log, r) && Kept(r, q)
    ensures AcceptedOnce(log, q)
  {
  }

  /** Any caused event keeps the core. */
  lemma EmitCore(env: Env, init: seq<TrustedPeer>, s: State, e: Event)
    requires Core(env, init, s) && Caused(env, init, s.reg, s.log, e) && e.at <= s.now
    ensures Core(env, init, Emit(s, e))
  {
    GrowHandlers(env, init, s.pairedAt, s.pairedAt, s.reg, s.reg, s.log, s.log + [e], s.handlers);
    GrowTunnels(s.log, e, s.tunnels);
    ExtendAllCaused(env, init, s.reg, s.log, e);
    GrowTrust(init, s.pairedAt, s.reg, s.reg, s.log, s.log + [e], s.trusted);
  }

  lemma EmitCounted(s: State, e: Event)
    requires Counted(s) && !e.TokenIssued? && !e.GrantVerified?
    ensures Counted(Emit(s, e))
  {
    GrowSessions(s.log, e, s.issuedAt, s.sessions);
    GrowUses(s.log, e);
  }

  lemma EmitOnce(s: State, e: Event)
    requires Once(s)
    requires !e.TokenIssued? && !e.ChannelOpened? && !e.InviteAccepted? && !e.InvitesRemoved?
    ensures Once(Emit(s, e))
  {
  }

  // --- pairing handlers ---

  lemma ArriveInv(env: Env, init: seq<TrustedPeer>, s: State, i: nat, req: Request, t: State)
    requires Inv(env, init, s) && ArriveStep(s, i, req, t)
    ensures Inv(env, init, t)
  {
    MoveHandler(env, init, s, i, t.handlers[i]);
  }

  /** A handler moves on with an event that no other part of the state is about. */
  lemma EmitAndMove(env: Env, init: seq<TrustedPeer>, s: State, e: Event, i: nat, hd: Handler)
    requires Inv(env, init, s) && Caused(env, init, s.reg, s.log, e) && e.at <= s.now
    requires e.ProofAccepted? || e.TrustMatched?
    requires i in s.handlers && s.handlers[i].phase != Done
    requires HandlerOk(env, init, s.pairedAt, s.reg, s.log + [e], i, hd)
    ensures Inv(env, init, SetHandler(Emit(s, e), i, hd))
  {
    EmitCore(env, init, s, e);
    EmitCounted(s, e);
    EmitOnce(s, e);
    MoveHandler(env, init, Emit(s, e), i, hd);
  }

  lemma ProveInv(env: Env, init: seq<TrustedPeer>, s: State, i: nat, t: State)
    requires Inv(env, init, s) && ProveStep(env, s, i, t)
    ensures Inv(env, init, t)
  {
    var hd := s.handlers[i];
    var claim := RequestClaim(env.host, hd.req, 0);
    if VerifyIdentityProof(env.keys, hd.req.identity, hd.req.attestation, claim, s.now) != None {
      MoveHandler(env, init, s, i, hd.(phase := Done));
    } else {
      var e := ProofAccepted(i, RequestClaim(env.host, hd.req, 0), hd.req.identity.value, hd.req.attestation, s.now);
      EmitAndMove(env, init, s, e, i, hd.(phase := Proved, cause := |s.log|));
    }
  }

  lemma {:induction false} LookupFinds(list: seq<TrustedPeer>, id: string)
    requires Lookup(list, id).Some?
    ensures Lookup(list, id).value in list && Lookup(list, id).value.nodeID == id
  {
    if list[0].nodeID != id { LookupFinds(list[1..], id); }
  }

  lemma MatchTerms(env: Env, s: State, i: nat, t: State)
    requires MatchStep(env, s, i, t) && |t.log| > |s.log|
    requires s.handlers[i].port > 0 && s.handlers[i].protocol != ""
    ensures t.log[|s.log|].TrustMatched? && t.log[|s.log|].port == t.handlers[i].port > 0
    ensures t.handlers[i].protocol != ""
  {
  }

  lemma MatchShape(env: Env, s: State, i: nat, t: State)
    requires MatchStep(env, s, i, t) && |t.log| > |s.log|
    ensures var e := t.log[|s.log|];
      && e.TrustMatched? && e.at == s.now && t == SetHandler(Emit(s, e), i, t.handlers[i])
      && t.handlers[i].phase.Matched? && t.handlers[i].cause == |s.log| && t.handlers[i].req == s.handlers[i].req
      && e.i == i && e.node == s.handlers[i].req.node && e.cause == s.handlers[i].cause
      && StoredIdentityMatches(e.peer.publicKey, e.peer.machineID, s.handlers[i].req.identity.value, env.hex)
      && e.root == (if e.node in s.pairedAt then Some(s.pairedAt[e.node]) else None)
      && Lookup(s.trusted, e.node) == Some(e.peer)
  {
  }

  lemma MatchFacts(env: Env, init: seq<TrustedPeer>, s: State, i: nat, t: State)
    requires Core(env, init, s) && MatchStep(env, s, i, t) && |t.log| > |s.log|
    ensures var e := t.log[|s.log|];
      && e.TrustMatched? && e.at == s.now && t == SetHandler(Emit(s, e), i, t.handlers[i])
      && t.handlers[i].phase.Matched? && t.handlers[i].cause == |s.log| && t.handlers[i].req == s.handlers[i].req
      && e.i == i && e.node == s.handlers[i].req.node && Rooted(init, s.pairedAt, e.node)
      && e.peer.nodeID == e.node && e.cause == s.handlers[i].cause
      && StoredIdentityMatches(e.peer.publicKey, e.peer.machineID, s.handlers[i].req.identity.value, env.hex)
      && e.root == (if e.node in s.pairedAt then Some(s.pairedAt[e.node]) else None)
      && e.port == t.handlers[i].port > 0 && t.handlers[i].protocol != ""
  {
    MatchShape(env, s, i, t);
    assert HandlerOk(env, init, s.pairedAt, s.reg, s.log, i, s.handlers[i]);
    MatchTerms(env, s, i, t);
    LookupFinds(s.trusted, s.handlers[i].req.node);
  }

  lemma MatchEvent(env: Env, init: seq<TrustedPeer>, s: State, i: nat, t: State)
    requires Core(env, init, s) && MatchStep(env, s, i, t) && |t.log| > |s.log|
    ensures Caused(env, init, s.reg, s.log, t.log[|s.log|])
  {
    MatchFacts(env, init, s, i, t);
    var e := t.log[|s.log|];
    assert HandlerOk(env, init, s.pairedAt, s.reg, s.log, i, s.handlers[i]);
    assert MatchCaused(env, s.reg, init, s.log, e);
  }

  lemma MatchedInv(env: Env, init: seq<TrustedPeer>, s: State, i: nat, e: Event, hd: Handler)
    requires Inv(env, init, s) && Caused(env, init, s.reg, s.log, e) && e.TrustMatched? && e.at == s.now
    requires At(s, i, Proved) && e.i == i && e.node == hd.req.node && Rooted(init, s.pairedAt, e.node)
    requires hd.phase.Matched? && hd.cause == |s.log| && e.port == hd.port > 0 && hd.protocol != ""
    ensures Inv(env, init, SetHandler(Emit(s, e), i, hd))
  {
    assert IsBasis(s.reg, s.log + [e], |s.log|, i, hd.req.node, hd.port);
    EmitAndMove(env, init, s, e, i, hd);
  }

  lemma MatchInv(env: Env, init: seq<TrustedPeer>, s: State, i: nat, t: State)
    requires Inv(env, init, s) && MatchStep(env, s, i, t)
    ensures Inv(env, init, t)
  {
    if |t.log| == |s.log| {
      MoveHandler(env, init, s, i, s.handlers[i].(phase := Done));
    } else {
      MatchFacts(env, init, s, i, t);
      MatchEvent(env, init, s, i, t);
      MatchedInv(env, init, s, i, t.log[|s.log|], t.handlers[i]);
    }
  }

  lemma NoteInv(env: Env, init: seq<TrustedPeer>, s: State, i: nat, t: State)
    requires Inv(env, init, s) && NoteStep(s, i, t)
    ensures Inv(env, init, t)
  {
    var h := s.handlers[i].phase.h;
    MarkedSteady(s.reg, h, t.reg.objects[h]);
    MoveRegistry(env, init, s, t.reg);
    var u := s.(reg := t.reg);
    NotedOk(env, init, u, i, h);
    MoveHandler(env, init, u, i, t.handlers[i]);
  }

  lemma NotedOk(env: Env, init: seq<TrustedPeer>, s: State, i: nat, h: nat)
    requires HandlersOk(env, init, s.pairedAt, s.reg, s.log, s.handlers) && At(s, i, Consumed(h))
    ensures HandlerOk(env, init, s.pairedAt, s.reg, s.log, i, s.handlers[i].(phase := Noted(h)))
  {
    assert HandlerOk(env, init, s.pairedAt, s.reg, s.log, i, s.handlers[i]);
  }

  ghost predicate NodeOf(list: seq<TrustedPeer>, node: string) {
    exists p :: p in list && p.nodeID == node
  }

  lemma OthersNodes(list: seq<TrustedPeer>, part: seq<TrustedPeer>, m: TrustedPeer)
    requires forall q :: q in part ==> q in list
    ensures forall q :: q in Others(part, m) ==> NodeOf(list, q.nodeID)
  {
    OthersOf(part, m);
  }

  lemma AddedNodes(list: seq<TrustedPeer>, peer: TrustedPeer, now: int)
    ensures forall q :: q in Added(list, peer, now) ==> q.nodeID == peer.nodeID || NodeOf(list, q.nodeID)
  {
    var p := Stamped(peer, now);
    var i := FirstSame(list, p);
    if i < |list| {
      var m := Merge(list[i], p);
      OthersNodes(list, list[..i], m);
      OthersNodes(list, list[i + 1..], m);
      assert list[i] in list;
    }
  }

  lemma TrustInv(env: Env, init: seq<TrustedPeer>, s: State, i: nat, t: State)
    requires Inv(env, init, s) && TrustStep(env, s, i, t)
    ensures Inv(env, init, t)
  {
    var hd := s.handlers[i];
    assert HandlerOk(env, init, s.pairedAt, s.reg, s.log, i, hd);
    AddedNodes(s.trusted, HostProtocol.Entry(env, hd, s.now), s.now);
    MoveTrusted(env, init, s, t.trusted);
    MoveHandler(env, init, s.(trusted := t.trusted), i, hd.(phase := Ready));
  }

  /** What acceptance says about the invite. */
  lemma AcceptedFacts(
      r: Registry<nat>, host: string, inviteID: Bytes, proof: Bytes, client: string, mode: string, now: int)
    requires RegistryOk(r) && VerifyAndConsume(r, host, inviteID, proof, client, mode, now).1.Accepted?
    ensures var (q, outcome) := VerifyAndConsume(r, host, inviteID, proof, client, mode, now);
      var h := outcome.handle;
      && Indexed(r, h) && h in q.objects && (q.objects[h].mode == "onetime" ==> !r.objects[h].used && q.objects[h].used)
      && r.objects[h].inviteID == inviteID && r.objects[h].mode == mode && !r.objects[h].revoked
      && (mode != "pairing" ==> !PastExpiry(r.objects[h], now))
      && ValidInviteProof(r.objects[h], proof, host, client, mode, now)
  {
  }

  lemma HonouredAfter(env: Env, r: Registry<nat>, req: Request, now: int)
    requires RegistryOk(r)
    requires VerifyAndConsume(r, env.host, req.inviteID, req.proof, req.node, req.mode, now).1.Accepted?
    ensures var (q, outcome) := VerifyAndConsume(r, env.host, req.inviteID, req.proof, req.node, req.mode, now);
      outcome.handle in q.objects && Honoured(env, q.objects[outcome.handle], RequestClaim(env.host, req, 0), now)
  {
    AcceptedFacts(r, env.host, req.inviteID, req.proof, req.node, req.mode, now);
    ConsumedSteady(r, env.host, req.inviteID, req.proof, req.node, req.mode, now);
  }

  lemma EmitAccepted(s: State, reg: Registry<nat>, e: Event)
    requires Once(s) && Once(s.(reg := reg)) && e.InviteAccepted? && Indexed(s.reg, e.h) && e.h in reg.objects
    requires reg.objects[e.h].mode == "onetime" ==> reg.objects[e.h].used
    requires SameTerms(s.reg.objects[e.h], reg.objects[e.h])
    requires reg.objects[e.h].mode == "onetime" ==> !s.reg.objects[e.h].used
    ensures Once(Emit(s.(reg := reg), e))
  {
    var u := Emit(s.(reg := reg), e);
    assert IssuedOnce(u.log, u.handlers) && OpenedOnce(u.log, u.tunnels);
    AcceptOnceMore(s.log, s.reg, reg, e);
    assert StaysRemoved(u.log, u.reg);
  }

  lemma AcceptOnceMore(log: seq<Event>, r: Registry<nat>, q: Registry<nat>, e: Event)
    requires AcceptedOnce(log, r) && AcceptedOnce(log, q) && e.InviteAccepted? && e.h in r.objects && e.h in q.objects
    requires q.objects[e.h].mode == "onetime" ==> q.objects[e.h].used
    requires q.objects[e.h].mode == "onetime" ==> !r.objects[e.h].used && r.objects[e.h].mode == "onetime"
    ensures AcceptedOnce(log + [e], q)
  {
  }

  lemma MovePaired(env: Env, init: seq<TrustedPeer>, s: State, p: map<string, nat>)
    requires Inv(env, init, s) && Grown(s.pairedAt, p) && forall n :: n in p ==> IsPairing(s.reg, s.log, p[n], n)
    ensures Inv(env, init, s.(pairedAt := p))
  {
    GrowHandlers(env, init, s.pairedAt, p, s.reg, s.reg, s.log, s.log, s.handlers);
  }

  /** The event of an accepted invite; u is s with the invite marked. */
  lemma EmitAcceptedInv(env: Env, init: seq<TrustedPeer>, s: State, i: nat, e: Event, u: State)
    requires Inv(env, init, s) && At(s, i, Proved) && s.handlers[i].req.mode != "trusted"
    requires var req := s.handlers[i].req;
      var (reg, outcome) := VerifyAndConsume(s.reg, env.host, req.inviteID, req.proof, req.node, req.mode, s.now);
      outcome.Accepted? && u == s.(reg := reg)
        && e == InviteAccepted(i, outcome.handle, req.node, s.now, s.handlers[i].cause)
    requires Inv(env, init, u)
    ensures Inv(env, init, Emit(u, e))
  {
    var req := s.handlers[i].req;
    assert HandlerOk(env, init, s.pairedAt, s.reg, s.log, i, s.handlers[i]);
    AcceptedFacts(s.reg, env.host, req.inviteID, req.proof, req.node, req.mode, s.now);
    HonouredAfter(env, s.reg, req, s.now);
    assert AcceptCaused(env, u.reg, u.log, e);
    EmitCore(env, init, u, e);
    EmitCounted(u, e);
    assert Kept(s.reg, u.reg) by {
      ConsumedSteady(s.reg, env.host, req.inviteID, req.proof, req.node, req.mode, s.now);
    }
    EmitAccepted(s, u.reg, e);
  }

  lemma ConsumedInv(env: Env, init: seq<TrustedPeer>, s: State, req: Request)
    requires Inv(env, init, s)
    ensures Inv(env, init,
      s.(reg := VerifyAndConsume(s.reg, env.host, req.inviteID, req.proof, req.node, req.mode, s.now).0))
  {
    ConsumedSteady(s.reg, env.host, req.inviteID, req.proof, req.node, req.mode, s.now);
    MoveRegistry(env, init, s, VerifyAndConsume(s.reg, env.host, req.inviteID, req.proof, req.node, req.mode, s.now).0);
  }

  lemma ConsumeInv(env: Env, init: seq<TrustedPeer>, s: State, i: nat, t: State)
    requires Inv(env, init, s) && ConsumeStep(env, s, i, t)
    ensures Inv(env, init, t)
  {
    var req := s.handlers[i].req;
    var (reg, outcome) := VerifyAndConsume(s.reg, env.host, req.inviteID, req.proof, req.node, req.mode, s.now);
    ConsumedInv(env, init, s, req);
    if outcome.Rejected? {
      MoveHandler(env, init, s.(reg := reg), i, s.handlers[i].(phase := Done));
    } else {
      ConsumeAcceptedInv(env, init, s, i, t, reg, outcome.handle);
    }
  }

  lemma ConsumeAcceptedInv(env: Env, init: seq<TrustedPeer>, s: State, i: nat, t: State, reg: Registry<nat>, h: nat)
    requires Inv(env, init, s) && At(s, i, Proved) && s.handlers[i].req.mode != "trusted"
    requires Inv(env, init, s.(reg := reg))
    requires var req := s.handlers[i].req;
      VerifyAndConsume(s.reg, env.host, req.inviteID, req.proof, req.node, req.mode, s.now) == (reg, Accepted(h))
    requires t == Accept(s, i, h, reg)
    ensures Inv(env, init, t)
  {
    var req := s.handlers[i].req;
    var e := InviteAccepted(i, h, req.node, s.now, s.handlers[i].cause);
    EmitAcceptedInv(env, init, s, i, e, s.(reg := reg));
    AcceptedFacts(s.reg, env.host, req.inviteID, req.proof, req.node, req.mode, s.now);
    AcceptInv(env, init, s, i, e, Emit(s.(reg := reg), e), t);
  }

  lemma AcceptInv(env: Env, init: seq<TrustedPeer>, s: State, i: nat, e: Event, v: State, t: State)
    requires At(s, i, Proved) && e.InviteAccepted? && e.i == i && e.node == s.handlers[i].req.node
    requires e.h in s.reg.objects && e.h in v.reg.objects && SameTerms(s.reg.objects[e.h], v.reg.objects[e.h])
    requires s.handlers[i].req.mode == s.reg.objects[e.h].mode && e.at == s.now && e.cause == s.handlers[i].cause
    requires v == Emit(s.(reg := v.reg), e) && Inv(env, init, v) && t == Accept(s, i, e.h, v.reg)
    ensures Inv(env, init, t)
  {
    PairedOk(v, |s.log|, t.pairedAt);
    MovePaired(env, init, v, t.pairedAt);
    var hd := t.handlers[i];
    assert EffectiveTargetPort(s.reg.objects[e.h]) == EffectiveTargetPort(v.reg.objects[e.h]);
    assert HoldsInvite(t.pairedAt, v.reg, v.log, i, hd, e.h);
    MoveHandler(env, init, v.(pairedAt := t.pairedAt), i, hd);
  }

  lemma PairedOk(v: State, k: nat, p: map<string, nat>)
    requires forall n :: n in v.pairedAt ==> IsPairing(v.reg, v.log, v.pairedAt[n], n)
    requires k < |v.log| && v.log[k].InviteAccepted? && v.log[k].h in v.reg.objects
    requires p == if v.reg.objects[v.log[k].h].mode == "pairing" then v.pairedAt[v.log[k].node := k] else v.pairedAt
    ensures Grown(v.pairedAt, p) && forall n :: n in p ==> IsPairing(v.reg, v.log, p[n], n)
  {
  }

  // --- tokens ---

  lemma IssueInv(env: Env, init: seq<TrustedPeer>, s: State, i: nat, token: Bytes, t: State)
    requires Inv(env, init, s) && IssueStep(s, i, token, t)
    ensures Inv(env, init, t)
  {
    var hd := s.handlers[i];
    var e := TokenIssued(i, token, hd.req.node, hd.port, s.now, hd.cause);
    assert HandlerOk(env, init, s.pairedAt, s.reg, s.log, i, hd);
    EmitCore(env, init, s, e);
    IssueCounted(s, e, t.sessions);
    IssueOnce(s, i, e);
    IssueCore(env, init, Emit(s, e), i, t);
  }

  lemma IssueCore(env: Env, init: seq<TrustedPeer>, u: State, i: nat, t: State)
    requires Core(env, init, u) && i in u.handlers
    requires t == SetHandler(u, i, u.handlers[i].(phase := Done)).(sessions := t.sessions, issuedAt := t.issuedAt)
    ensures Core(env, init, t)
  {
  }

  lemma IssueOnce(s: State, i: nat, e: Event)
    requires Once(s) && At(s, i, Ready) && e.TokenIssued? && e.i == i
    ensures Once(SetHandler(Emit(s, e), i, s.handlers[i].(phase := Done)))
  {
    var t := SetHandler(Emit(s, e), i, s.handlers[i].(phase := Done));
    assert OpenedOnce(t.log, t.tunnels) && AcceptedOnce(t.log, t.reg) && StaysRemoved(t.log, t.reg);
    assert IssuedOnce(t.log, t.handlers);
  }

  lemma NeverVerified(log: seq<Event>, issuedAt: map<Bytes, nat>, token: Bytes)
    requires IssuesOk(log, issuedAt) && token !in issuedAt
    ensures Verifications(log, token) == {}
  {
  }

  lemma IssueCounted(s: State, e: Event, store: Store)
    requires Counted(s) && e.TokenIssued? && e.token !in s.issuedAt
    requires store == Swept(Issued(s.sessions, e.token, e.node, e.port, e.at), e.at)
    ensures Counted(Emit(s, e).(issuedAt := s.issuedAt[e.token := |s.log|], sessions := store))
  {
    GrowUses(s.log, e);
    var log, issuedAt := s.log + [e], s.issuedAt[e.token := |s.log|];
    assert IssuesOk(log, issuedAt);
    GrowSessions(s.log, e, s.issuedAt, s.sessions);
    NeverVerified(s.log, s.issuedAt, e.token);
    GrowVerifications(s.log, e, e.token);
    forall token | token in store ensures SessionOk(log, issuedAt, token, store[token]) {
      assert token != e.token ==> SessionOk(log, s.issuedAt, token, s.sessions[token]);
    }
  }

  // --- tunnels ---

  lemma SpendInv(env: Env, init: seq<TrustedPeer>, s: State, j: nat, t: State)
    requires Inv(env, init, s) && SpendStep(s, j, t)
    ensures Inv(env, init, t)
  {
    var hello := s.tunnels[j].hello;
    if Verified(s.sessions, hello.token, s.now).1 == None {
      RefusedCounted(s, hello.token);
      MoveTunnel(env, init, s.(sessions := t.sessions), j, Refused);
    } else {
      var e := GrantVerified(j, hello.token, s.now, s.issuedAt[hello.token]);
      SpendEvent(env, init, s, e);
      EmitCore(env, init, s, e);
      SpendCounted(s, e, t.sessions);
      EmitOnce(s, e);
      SpentInv(env, init, Emit(s, e).(sessions := t.sessions), j, t.tunnels[j]);
    }
  }

  lemma SpentInv(env: Env, init: seq<TrustedPeer>, u: State, j: nat, tn: Tunnel)
    requires Core(env, init, u) && Counted(u) && Once(u) && TunnelOk(u.log, j, tn)
    requires j in u.tunnels && u.tunnels[j].Greeted?
    ensures Inv(env, init, u.(tunnels := u.tunnels[j := tn]))
  {
    MoveTunnel(env, init, u, j, tn);
  }

  lemma SpendEvent(env: Env, init: seq<TrustedPeer>, s: State, e: Event)
    requires Core(env, init, s) && Counted(s) && e.GrantVerified? && Verified(s.sessions, e.token, e.at).1.Some?
    requires e.token in s.issuedAt && e.cause == s.issuedAt[e.token] && e.at == s.now
    ensures Caused(env, init, s.reg, s.log, e)
    ensures IsGrant(s.log + [e], |s.log|, e.j, e.token, Verified(s.sessions, e.token, e.at).1.value)
  {
    assert SessionOk(s.log, s.issuedAt, e.token, s.sessions[e.token]);
  }

  lemma RefusedCounted(s: State, token: Bytes)
    requires Counted(s) && Verified(s.sessions, token, s.now).1 == None
    ensures Counted(s.(sessions := Verified(s.sessions, token, s.now).0))
  {
  }

  lemma SpendCounted(s: State, e: Event, store: Store)
    requires Counted(s) && e.GrantVerified? && Verified(s.sessions, e.token, e.at).1.Some?
    requires store == Verified(s.sessions, e.token, e.at).0
    ensures Counted(Emit(s, e).(sessions := store))
  {
    assert SessionOk(s.log, s.issuedAt, e.token, s.sessions[e.token]);
    GrowUses(s.log, e);
    var log := s.log + [e];
    assert IssuesOk(log, s.issuedAt);
    forall token | token in store ensures SessionOk(log, s.issuedAt, token, store[token]) {
      GrowVerifications(s.log, e, token);
      assert SessionOk(s.log, s.issuedAt, token, s.sessions[token]);
    }
  }

  lemma DecideEvent(env: Env, init: seq<TrustedPeer>, s: State, j: nat, t: State)
    requires Core(env, init, s) && DecideStep(env, s, j, t) && |t.log| > |s.log|
    ensures var e := t.log[|s.log|];
      && Caused(env, init, s.reg, s.log, e) && e.at == s.now && e.ChannelOpened? && e.j == j
      && t == Emit(s, e).(tunnels := s.tunnels[j := Open])
  {
    assert TunnelOk(s.log, j, s.tunnels[j]);
  }

  lemma OpenedInv(env: Env, init: seq<TrustedPeer>, s: State, e: Event)
    requires Inv(env, init, s) && Caused(env, init, s.reg, s.log, e) && e.at == s.now
    requires e.ChannelOpened? && e.j in s.tunnels && s.tunnels[e.j].Spent?
    ensures Inv(env, init, Emit(s, e).(tunnels := s.tunnels[e.j := Open]))
  {
    EmitCore(env, init, s, e);
    EmitCounted(s, e);
    OpenOnce(s, e);
  }

  lemma DecideInv(env: Env, init: seq<TrustedPeer>, s: State, j: nat, t: State)
    requires Inv(env, init, s) && DecideStep(env, s, j, t)
    ensures Inv(env, init, t)
  {
    if |t.log| == |s.log| {
      MoveTunnel(env, init, s, j, Refused);
    } else {
      DecideEvent(env, init, s, j, t);
      OpenedInv(env, init, s, t.log[|s.log|]);
    }
  }

  lemma OpenOnce(s: State, e: Event)
    requires Once(s) && e.ChannelOpened? && e.j in s.tunnels && s.tunnels[e.j].Spent?
    ensures Once(Emit(s, e).(tunnels := s.tunnels[e.j := Open]))
  {
    var t := Emit(s, e).(tunnels := s.tunnels[e.j := Open]);
    assert IssuedOnce(t.log, t.handlers) && AcceptedOnce(t.log, t.reg) && StaysRemoved(t.log, t.reg);
    assert OpenedOnce(t.log, t.tunnels);
  }

  // --- invite management ---

  lemma RemoveInv(env: Env, init: seq<TrustedPeer>, s: State, ds: set<string>)
    requires Inv(env, init, s)
    ensures Inv(env, init, RemoveInvites(s, s.reg, ds))
  {
    WithoutSteady(s.reg, ds);
    MoveRegistry(env, init, s, Without(s.reg, ds));
    var u := s.(reg := Without(s.reg, ds));
    var e := InvitesRemoved(Handles(s.reg, ds), s.now);
    EmitCore(env, init, u, e);
    EmitCounted(u, e);
    RemoveOnce(u, e);
  }

  lemma RemoveOnce(s: State, e: Event)
    requires Once(s) && e.InvitesRemoved? && forall h :: h in e.hs ==> h in s.reg.objects && !Indexed(s.reg, h)
    ensures Once(Emit(s, e))
  {
    var t := Emit(s, e);
    assert IssuedOnce(t.log, t.handlers) && OpenedOnce(t.log, t.tunnels) && AcceptedOnce(t.log, t.reg);
    assert StaysRemoved(t.log, t.reg);
  }

  lemma RemovedNodes(list: seq<TrustedPeer>, id: string)
    ensures forall q :: q in Removed(list, id) ==> q in list
  {
    var i := RemoveFirstAt(list, HasNode(id));
  }

  lemma RevokeInv(env: Env, init: seq<TrustedPeer>, s: State, id: string, t: State)
    requires Inv(env, init, s) && RevokeStep(s, id, t)
    ensures Inv(env, init, t)
  {
    if id in s.reg.invites {
      RemoveInv(env, init, s, {id});
      RemovedNodes(s.trusted, s.reg.objects[s.reg.invites[id]].usedByID);
      MoveTrusted(env, init, RemoveInvites(s, s.reg, {id}), t.trusted);
    }
  }

  lemma SweepInv(env: Env, init: seq<TrustedPeer>, s: State, gone: set<string>, t: State)
    requires Inv(env, init, s) && SweepStep(s, gone, t)
    ensures Inv(env, init, t)
  {
    var swept := IndexSwept(s.reg, s.now);
    SweptSteady(s.reg, s.now);
    MoveRegistry(env, init, s, swept);
    RemoveInv(env, init, s.(reg := swept), gone);
  }

  lemma SweptSteady(r: Registry<nat>, now: int)
    requires RegistryOk(r)
    ensures Steady(r, IndexSwept(r, now))
  {
    UnindexedSteady(r, set d | d in r.invites
      && PastExpiry(r.objects[r.invites[d]], now) :: r.objects[r.invites[d]].inviteID);
  }

  // --- runs ---

  lemma HandlerStepInv(env: Env, init: seq<TrustedPeer>, s: State, act: Act, t: State)
    requires act.Arrive? || act.Prove? || act.Match? || act.Consume? || act.Note? || act.Trust? || act.Issue?
    requires Inv(env, init, s) && Next(env, s, act, t)
    ensures Inv(env, init, t)
  {
    match act
    case Arrive(i, req) => ArriveInv(env, init, s, i, req, t);
    case Prove(i) => ProveInv(env, init, s, i, t);
    case Match(i) => MatchInv(env, init, s, i, t);
    case Consume(i) => ConsumeInv(env, init, s, i, t);
    case Note(i) => NoteInv(env, init, s, i, t);
    case Trust(i) => TrustInv(env, init, s, i, t);
    case Issue(i, token) => IssueInv(env, init, s, i, token, t);
  }

  lemma StepInv(env: Env, init: seq<TrustedPeer>, s: State, act: Act, t: State)
    requires Inv(env, init, s) && Next(env, s, act, t)
    ensures Inv(env, init, t)
  {
    match act
    case Greet(j, hello) => MoveTunnel(env, init, s, j, Greeted(hello));
    case Spend(j) => SpendInv(env, init, s, j, t);
    case Decide(j) => DecideInv(env, init, s, j, t);
    case Generate(h, inv) => GeneratedSteady(s.reg, h, inv); MoveRegistry(env, init, s, t.reg);
    case DeletePending(backend) => RemoveInv(env, init, s, OutdatedIDs(s.reg, backend, s.now));
    case Revoke(id) => RevokeInv(env, init, s, id, t);
    case Sweep(gone) => SweepInv(env, init, s, gone, t);
    case Configure(_, _) => {}
    case Tick(_) => {}
    case _ => HandlerStepInv(env, init, s, act, t);
  }

  lemma InitialInv(env: Env, s: State)
    requires Initial(s)
    ensures Inv(env, s.trusted, s)
  {
    forall token ensures |Verifications(s.log, token)| <= MAX_USES {
      assert Verifications(s.log, token) == {};
    }
  }

  lemma {:induction false} RunKeepsInv(env: Env, states: seq<State>, acts: seq<Act>)
    requires IsRun(env, states, acts)
    ensures Inv(env, states[0].trusted, states[|acts|])
    decreases |acts|
  {
    if acts == [] {
      InitialInv(env, states[0]);
    } else {
      Runs.ButLast(Initial, Steps(env), states, acts);
      RunKeepsInv(env, states[..|acts|], acts[..|acts| - 1]);
      StepInv(env, states[0].trusted, states[|acts| - 1], acts[|acts| - 1], states[|acts|]);
    }
  }
}
