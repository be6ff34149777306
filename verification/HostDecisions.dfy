/** What the host decides, spelled out for every step of every run, and what a refusal means. */
module HostDecisions {
  import opened Text
  import opened Transcripts
  import opened Identities
  import opened TrustedPeers
  import opened Invites
  import opened Targets
  import Tokens
  import Sessions
  import opened HostProtocol
  import opened HostInvariants
  import opened HostRuns
  import opened HostOrigins
  import opened HostSafety
  import Runs

  ghost predicate Logs(states: seq<State>, m: nat) {
    m + 1 < |states| && |states[m + 1].log| > |states[m].log|
  }

  // --- the identity check ---

  lemma ProveOutcome(env: Env, s: State, i: nat, t: State)
    requires ProveStep(env, s, i, t)
    ensures var req := s.handlers[i].req;
      var ok := req.identity.Some?
        && Authentic(env.keys, req.identity.value, req.attestation, RequestClaim(env.host, req, 0), s.now);
      if ok then |t.log| > |s.log| && At(t, i, Proved) else t.log == s.log && At(t, i, Done)
  {
    var req := s.handlers[i].req;
    AcceptedIffAuthentic(env.keys, req.identity, req.attestation, RequestClaim(env.host, req, 0), s.now);
  }

  /** Over every run: the identity check passes exactly for authentic proofs that name this host and
      carry the request's own mode, invite ID and invite proof. */
  lemma ProofChecked(env: Env, states: seq<State>, acts: seq<Act>, m: nat, i: nat)
    requires IsRun(env, states, acts) && m < |acts| && acts[m] == Prove(i)
    ensures i in states[m].handlers
    ensures var req := states[m].handlers[i].req;
      var claim := Claim("request", req.node, env.host, req.mode, req.inviteID, req.proof, [], 0);
      Logs(states, m) <==>
        req.identity.Some? && Authentic(env.keys, req.identity.value, req.attestation, claim, states[m].now)
    ensures !Logs(states, m) ==> At(states[m + 1], i, Done)
  {
    StepOf(env, states, acts, m);
    ProveOutcome(env, states[m], i, states[m + 1]);
  }

  // --- trusted reauthentication ---

  lemma MatchOutcome(env: Env, s: State, i: nat, t: State)
    requires MatchStep(env, s, i, t)
    ensures var req := s.handlers[i].req;
      var found := Lookup(s.trusted, req.node);
      if found.Some? && IsMachineOf(env, found.value, req.identity.value)
      then |t.log| > |s.log| && i in t.handlers && t.handlers[i].phase == Matched(found.value)
      else t.log == s.log && At(t, i, Done)
  {
    var found := Lookup(s.trusted, s.handlers[i].req.node);
    if found.Some? { MachineMatches(env, found.value, s.handlers[i].req.identity.value); }
  }

  /** Over every run: a trusted peer is matched exactly when the list has an entry for its node, with
      a machine ID or a key, and neither differs from those of its proof. */
  lemma TrustChecked(env: Env, states: seq<State>, acts: seq<Act>, m: nat, i: nat)
    requires IsRun(env, states, acts) && m < |acts| && acts[m] == Match(i)
    ensures i in states[m].handlers && states[m].handlers[i].req.identity.Some?
    ensures var req := states[m].handlers[i].req;
      var p := req.identity.value;
      var found := Lookup(states[m].trusted, req.node);
      Logs(states, m) <==>
        && found.Some?
        && (TrimSpace(found.value.machineID) != "" || TrimSpace(found.value.publicKey) != "")
        && (TrimSpace(found.value.machineID) != "" ==> EqualFold(TrimSpace(found.value.machineID), p.machineID))
        && (TrimSpace(found.value.publicKey) != "" && p.publicKey != [] ==>
              EqualFold(TrimSpace(found.value.publicKey), env.hex(p.publicKey)))
    ensures !Logs(states, m) ==> At(states[m + 1], i, Done)
  {
    StepOf(env, states, acts, m);
    MatchOutcome(env, states[m], i, states[m + 1]);
  }

  // --- the invite ---

  lemma ConsumeOutcome(env: Env, s: State, i: nat, t: State)
    requires RegistryOk(s.reg) && ConsumeStep(env, s, i, t)
    ensures var req := s.handlers[i].req;
      var outcome := VerifyAndConsume(s.reg, env.host, req.inviteID, req.proof, req.node, req.mode, s.now).1;
      if outcome.Accepted? then |t.log| > |s.log| else t.log == s.log && At(t, i, Done)
  {
  }

  /** The request's invite can be used with its proof at this time. */
  ghost predicate InviteHolds(env: Env, reg: Registry<nat>, req: Request, now: int)
    requires WellFormed(reg)
  {
    && |req.inviteID| == 16 && req.inviteID in reg.byInviteID
    && var inv := reg.objects[reg.byInviteID[req.inviteID]];
       && !inv.revoked && (req.mode == "onetime" ==> !inv.used) && req.mode == inv.mode
       && (req.mode == "pairing" || inv.expiresAt == ZERO_TIME || now <= inv.expiresAt)
       && exists w :: TimeWindow(now) - 1 <= w <= TimeWindow(now) + 1
            && req.proof == InviteProof(inv.secret, req.inviteID, env.host, req.node, req.mode, w)
  }

  /** Over every run: an invite is accepted exactly when it is indexed, unused, unexpired and not
      revoked, of the request's mode, and the proof is its MAC for host, node, mode and a window
      next to the present one. */
  lemma InviteChecked(env: Env, states: seq<State>, acts: seq<Act>, m: nat, i: nat)
    requires IsRun(env, states, acts) && m < |acts| && acts[m] == Consume(i)
    ensures i in states[m].handlers && WellFormed(states[m].reg)
    ensures Logs(states, m) <==> InviteHolds(env, states[m].reg, states[m].handlers[i].req, states[m].now)
    ensures !Logs(states, m) ==> At(states[m + 1], i, Done)
  {
    InvAt(env, states, acts, m);
    StepOf(env, states, acts, m);
    var s, req := states[m], states[m].handlers[i].req;
    ConsumeOutcome(env, s, i, states[m + 1]);
    AcceptedIff(s.reg, env.host, req.inviteID, req.proof, req.node, req.mode, s.now);
  }

  // --- refusals are final ---

  /** The step refused handler i. */
  ghost predicate Refuses(states: seq<State>, acts: seq<Act>, m: nat, i: nat) {
    && m < |acts| && (acts[m] == Prove(i) || acts[m] == Match(i) || acts[m] == Consume(i))
    && !Logs(states, m)
  }

  lemma RefusedIsDone(env: Env, states: seq<State>, acts: seq<Act>, m: nat, i: nat)
    requires IsRun(env, states, acts) && Refuses(states, acts, m, i)
    ensures At(states[m + 1], i, Done) && i in states[m].handlers && states[m].handlers[i].phase != Done
  {
    RunIsLocal(env, states, acts);
    assert HandlersStep(states[m], acts[m], states[m + 1]);
    if acts[m].Prove? {
      ProofChecked(env, states, acts, m, i);
    } else if acts[m].Match? {
      TrustChecked(env, states, acts, m, i);
    } else {
      InviteChecked(env, states, acts, m, i);
    }
  }

  lemma IssueIsReady(env: Env, states: seq<State>, acts: seq<Act>, c: nat, i: nat, token: Bytes)
    requires IsRun(env, states, acts) && c < |acts| && acts[c] == Issue(i, token)
    ensures At(states[c], i, Ready) && At(states[c + 1], i, Done)
  {
    StepOf(env, states, acts, c);
  }

  /** Over every run: no token is ever issued for a request that was refused. */
  lemma RefusedGetsNoToken(env: Env, states: seq<State>, acts: seq<Act>, m: nat, i: nat, k: nat)
    requires IsRun(env, states, acts) && Refuses(states, acts, m, i)
    requires k < |Last(states).log| && Last(states).log[k].TokenIssued?
    ensures Last(states).log[k].i != i
  {
    RefusedIsDone(env, states, acts, m, i);
    RunIsLocal(env, states, acts);
    var c := LogOrigin(env, states, acts, |acts|, k);
    if Last(states).log[k].i == i {
      IssueIsReady(env, states, acts, c, i, Last(states).log[k].token);
      if c > m {
        DoneStays(env, states, acts, m + 1, c, i);
      } else if c < m {
        DoneStays(env, states, acts, c + 1, m, i);
      }
    }
  }

  // --- the CONNECT decision ---

  lemma DecideOutcome(env: Env, s: State, j: nat, t: State)
    requires DecideStep(env, s, j, t) && s.tunnels[j].grant.targetPort > 0
    ensures var Spent(hello, grant, _) := s.tunnels[j];
      var ok := grant.peerID == hello.node && (hello.port > 0 ==> hello.port == grant.targetPort)
        && (TrimSpace(hello.host) != "" ==> LoopbackHost(hello.host, env.loopbackIP));
      if ok then |t.log| > |s.log| && j in t.tunnels && t.tunnels[j] == Open
      else t.log == s.log && j in t.tunnels && t.tunnels[j] == Refused
  {
    AsksForMeans(env, s.tunnels[j].hello, s.tunnels[j].grant.targetPort);
  }

  /** Over every run: a channel opens exactly when the token was issued to the node that asks, the
      request names no port or the granted one, and no host or a loopback host. */
  lemma ConnectChecked(env: Env, states: seq<State>, acts: seq<Act>, m: nat, j: nat)
    requires IsRun(env, states, acts) && m < |acts| && acts[m] == Decide(j)
    ensures j in states[m].tunnels && states[m].tunnels[j].Spent?
    ensures var Spent(hello, grant, _) := states[m].tunnels[j];
      Logs(states, m) <==>
        && grant.peerID == hello.node
        && (hello.port > 0 ==> hello.port == grant.targetPort)
        && (TrimSpace(hello.host) != "" ==> LoopbackHost(hello.host, env.loopbackIP))
    ensures !Logs(states, m) ==> j in states[m + 1].tunnels && states[m + 1].tunnels[j] == Refused
  {
    InvAt(env, states, acts, m);
    StepOf(env, states, acts, m);
    PositiveGrant(env, states[0].trusted, states[m], j);
    DecideOutcome(env, states[m], j, states[m + 1]);
  }

  lemma PositiveGrant(env: Env, init: seq<TrustedPeer>, s: State, j: nat)
    requires Core(env, init, s) && j in s.tunnels && s.tunnels[j].Spent?
    ensures s.tunnels[j].grant.targetPort > 0
  {
    assert TunnelOk(s.log, j, s.tunnels[j]);
  }

  // --- the same machine comes back ---

  lemma CheckedNode(env: Env, req: Request, now: int)
    requires Checked(env, req, now) && PlainKeys(env)
    ensures req.node != ""
  {
  }

  lemma TrustedNodeNamed(env: Env, states: seq<State>, acts: seq<Act>, m: nat)
    requires IsRun(env, states, acts) && m < |acts| && acts[m].Trust? && PlainKeys(env)
    ensures acts[m].i in states[m].handlers && states[m].handlers[acts[m].i].req.node != ""
  {
    var c := EntersChecked(env, states, acts, m, acts[m].i);
    CheckedNode(env, states[m].handlers[acts[m].i].req, states[c].now);
  }

  lemma EntriesStep(env: Env, s: State, act: Act, t: State, node: string)
    requires ListStep(env, s, act, t) && !Enters(s, act, node)
    requires act.Trust? && act.i in s.handlers ==> s.handlers[act.i].req.node != ""
    ensures forall q :: q in t.trusted && q.nodeID == node ==> q in s.trusted
  {
    if act.Trust? && act.i in s.handlers && Enters(s, act, s.handlers[act.i].req.node) {
      AddedElsewhere(s.trusted, HostProtocol.Entry(env, s.handlers[act.i], s.now), s.now, node);
    } else if t.trusted != s.trusted {
      var id :| t.trusted == Removed(s.trusted, id);
      RemovedNodes(s.trusted, id);
    }
  }

  /** Every Trust step serves a handler whose node has a name. */
  ghost predicate NamesTrusted(states: seq<State>, acts: seq<Act>) {
    forall k :: 0 <= k < |acts| && k < |states| && acts[k].Trust? && acts[k].i in states[k].handlers ==>
      states[k].handlers[acts[k].i].req.node != ""
  }

  lemma TrustedAreNamed(env: Env, states: seq<State>, acts: seq<Act>)
    requires IsRun(env, states, acts) && PlainKeys(env)
    ensures NamesTrusted(states, acts)
  {
    forall k | 0 <= k < |acts| && k < |states| && acts[k].Trust? && acts[k].i in states[k].handlers
      ensures states[k].handlers[acts[k].i].req.node != ""
    {
      TrustedNodeNamed(env, states, acts, k);
    }
  }

  /** While nobody enters the node, its entries only go. */
  lemma {:induction false} EntriesOnlyGo(env: Env, states: seq<State>, acts: seq<Act>, l: nat, n: nat, node: string)
    requires LocalRun(env, states, acts) && NamesTrusted(states, acts) && l <= n <= |acts|
    requires forall k :: l <= k < n ==> !Enters(states[k], acts[k], node)
    ensures forall q :: q in states[n].trusted && q.nodeID == node ==> q in states[l].trusted
    decreases n
  {
    if l < n {
      EntriesOnlyGo(env, states, acts, l, n - 1, node);
      assert Local(env, states[n - 1], acts[n - 1], states[n]);
      EntriesStep(env, states[n - 1], acts[n - 1], states[n], node);
    }
  }

  /** What the entry of a node says right after it was entered. */
  lemma EnteredEntry(env: Env, s: State, i: nat, t: State)
    requires TrustStep(env, s, i, t) && Enters(s, Trust(i), s.handlers[i].req.node) && PlainKeys(env)
    requires var req := s.handlers[i].req;
      && req.node != "" && req.identity.Some? && req.identity.value.machineID != ""
      && TrimSpace(req.identity.value.machineID) == req.identity.value.machineID
    ensures var p := s.handlers[i].req.identity.value;
      var found := Lookup(t.trusted, s.handlers[i].req.node);
      && found.Some? && found.value.machineID == p.machineID
      && (p.publicKey != [] ==> found.value.publicKey == env.hex(p.publicKey))
      && Count(t.trusted, s.handlers[i].req.node) == 1
  {
    LookupAdded(s.trusted, HostProtocol.Entry(env, s.handlers[i], s.now), s.now);
    AddedOnce(s.trusted, HostProtocol.Entry(env, s.handlers[i], s.now), s.now);
  }

  /** Over every run: when a node was entered for one identity and nobody has entered it again, then
      whoever is matched for the node shows the same machine ID and, if both show one, the same
      key. */
  lemma SameMachineComesBack(env: Env, states: seq<State>, acts: seq<Act>, m: nat, i: nat, n: nat, k: nat)
    requires IsRun(env, states, acts) && PlainKeys(env)
    requires m < n < |acts| && acts[m] == Trust(i) && acts[n] == Match(k) && Logs(states, n)
    requires i in states[m].handlers && k in states[n].handlers
    requires Enters(states[m], acts[m], states[m].handlers[i].req.node)
    requires PlainAttestation(states[m].handlers[i].req.attestation)
    requires states[n].handlers[k].req.node == states[m].handlers[i].req.node
    requires forall l :: m < l < n ==> !Enters(states[l], acts[l], states[m].handlers[i].req.node)
    ensures states[m].handlers[i].req.identity.Some? && states[n].handlers[k].req.identity.Some?
    ensures var p, q := states[m].handlers[i].req.identity.value, states[n].handlers[k].req.identity.value;
      && EqualFold(p.machineID, q.machineID)
      && (p.publicKey != [] && q.publicKey != [] ==> EqualFold(env.hex(p.publicKey), env.hex(q.publicKey)))
  {
    var node := states[m].handlers[i].req.node;
    var entry := EntryAfter(env, states, acts, m, i);
    TrustChecked(env, states, acts, n, k);
    RunIsLocal(env, states, acts);
    TrustedAreNamed(env, states, acts);
    EntriesOnlyGo(env, states, acts, m + 1, n, node);
    var found := Lookup(states[n].trusted, node).value;
    LookupFinds(states[n].trusted, node);
    OnlyEntry(states[m + 1].trusted, node, found);
  }

  lemma EntryAfter(env: Env, states: seq<State>, acts: seq<Act>, m: nat, i: nat) returns (entry: TrustedPeer)
    requires IsRun(env, states, acts) && PlainKeys(env) && m < |acts| && acts[m] == Trust(i) && i in states[m].handlers
    requires Enters(states[m], acts[m], states[m].handlers[i].req.node)
    requires PlainAttestation(states[m].handlers[i].req.attestation)
    ensures var req := states[m].handlers[i].req;
      && req.identity.Some? && Lookup(states[m + 1].trusted, req.node) == Some(entry)
      && Count(states[m + 1].trusted, req.node) <= 1
      && req.identity.value.machineID != "" && TrimSpace(entry.machineID) == req.identity.value.machineID
      && (req.identity.value.publicKey != [] ==>
            env.hex(req.identity.value.publicKey) != ""
            && TrimSpace(entry.publicKey) == env.hex(req.identity.value.publicKey))
  {
    var c := EntersChecked(env, states, acts, m, i);
    CheckedIsPlain(env, states[m].handlers[i].req, states[c].now);
    StepOf(env, states, acts, m);
    EnteredEntry(env, states[m], i, states[m + 1]);
    entry := Lookup(states[m + 1].trusted, states[m].handlers[i].req.node).value;
  }

  // --- only pairing invites carry trust away ---

  lemma RevokeOutcome(s: State, id: string, t: State)
    requires WellFormed(s.reg) && RevokeStep(s, id, t) && t.trusted != s.trusted
    ensures id in s.reg.invites && s.reg.objects[s.reg.invites[id]].mode == "pairing"
    ensures s.reg.objects[s.reg.invites[id]].usedByID != ""
  {
  }

  /** Over every run: an act takes somebody from the trusted list, without entering anybody, only by
      revoking a pairing invite, and then its last user. */
  lemma OnlyRevocationUntrusts(env: Env, states: seq<State>, acts: seq<Act>, n: nat)
    requires IsRun(env, states, acts) && n < |acts| && states[n + 1].trusted != states[n].trusted && !acts[n].Trust?
    ensures exists node :: RevokesUser(states, acts, n, node)
  {
    RunIsLocal(env, states, acts);
    assert Local(env, states[n], acts[n], states[n + 1]);
    StepOf(env, states, acts, n);
    RevokeOutcome(states[n], acts[n].id, states[n + 1]);
    assert RevokesUser(states, acts, n, states[n].reg.objects[states[n].reg.invites[acts[n].id]].usedByID);
  }

  // --- the terms a handler works with ---

  /** The number is the port that the address names, or that of the service if it names none. */
  ghost predicate PortOf(addr: string, protocol: string, p: nat) {
    if exists q :: 1 <= q <= 65535 && NamesPort(addr, q) then 1 <= p <= 65535 && NamesPort(addr, p)
    else p == WellKnownPort(protocol)
  }

  /** The name of the service, however it was capitalised; anything unknown is RDP. */
  function ServiceOf(protocol: string): string {
    if EqualFold(protocol, "vnc") then "vnc"
    else if EqualFold(protocol, "ssh") then "ssh"
    else if EqualFold(protocol, "custom") then "custom" else "rdp"
  }

  lemma ServiceNamed(protocol: string)
    ensures ProtocolName(ParseProtocol(protocol)) == ServiceOf(protocol)
    ensures Tokens.DefaultPort(ParseProtocol(protocol)) == WellKnownPort(protocol)
  {
    assert ToLower("vnc") == "vnc" && ToLower("ssh") == "ssh" && ToLower("custom") == "custom";
  }

  /** A grant without a port would stand for the configured one; no run issues such a grant. */
  lemma GrantedPortIs(env: Env, states: seq<State>, acts: seq<Act>, m: nat, s: State, grant: Sessions.Grant)
    requires IsRun(env, states, acts) && m <= |acts|
    ensures grant.targetPort > 0 ==> GrantedPort(s, grant) == grant.targetPort
    ensures grant.targetPort <= 0 ==> GrantedPort(s, grant) >= 0 && PortOf(s.target, "rdp", GrantedPort(s, grant))
    ensures forall j :: j in states[m].tunnels && states[m].tunnels[j].Spent? ==>
      states[m].tunnels[j].grant.targetPort > 0
  {
    if grant.targetPort <= 0 { ConfiguredPortIff(s.target, 3389, GrantedPort(s, grant)); }
    assert WellKnownPort("rdp") == 3389 by { RdpPort(); }
    InvAt(env, states, acts, m);
    forall j | j in states[m].tunnels && states[m].tunnels[j].Spent? ensures states[m].tunnels[j].grant.targetPort > 0 {
      PositiveGrant(env, states[0].trusted, states[m], j);
    }
  }

  lemma RdpPort()
    ensures WellKnownPort("rdp") == 3389
  {
    EqualFoldIff("rdp", "vnc");
    EqualFoldIff("rdp", "ssh");
    assert !SameLetter('r', 'v') && !SameLetter('r', 's');
    assert "rdp"[0] == 'r' && "vnc"[0] == 'v' && "ssh"[0] == 's';
  }

  /** Over every run: a request starts on the configured service and port. */
  lemma ArrivesWith(env: Env, states: seq<State>, acts: seq<Act>, m: nat, i: nat, req: Request)
    requires IsRun(env, states, acts) && m < |acts| && acts[m] == Arrive(i, req)
    ensures At(states[m + 1], i, Waiting)
    ensures var hd := states[m + 1].handlers[i];
      && hd.req == req && hd.protocol == ServiceOf(states[m].protocol)
      && PortOf(states[m].target, states[m].protocol, hd.port)
  {
    StepOf(env, states, acts, m);
    ServiceNamed(states[m].protocol);
    var hd := states[m + 1].handlers[i];
    ConfiguredPortIff(states[m].target, WellKnownPort(states[m].protocol), hd.port);
  }

  lemma MatchTerms(env: Env, s: State, i: nat, t: State)
    requires MatchStep(env, s, i, t) && |t.log| > |s.log|
    ensures i in t.handlers && t.handlers[i].req == s.handlers[i].req && Lookup(s.trusted, s.handlers[i].req.node).Some?
    ensures var req, peer := s.handlers[i].req, Lookup(s.trusted, s.handlers[i].req.node).value;
      && t.handlers[i].protocol == (if req.protocol != "" then ServiceOf(req.protocol)
           else if peer.protocol != "" then peer.protocol else s.handlers[i].protocol)
      && t.handlers[i].port == (if req.targetPort > 0 then req.targetPort
           else if peer.targetPort > 0 then peer.targetPort else s.handlers[i].port)
  {
    ServiceNamed(s.handlers[i].req.protocol);
  }

  /** Over every run: a trusted peer gets the service and the port it asks for, else the stored
      ones, else those its request started on. */
  lemma MatchedOnTerms(env: Env, states: seq<State>, acts: seq<Act>, m: nat, i: nat)
    requires IsRun(env, states, acts) && m < |acts| && acts[m] == Match(i) && Logs(states, m)
    ensures i in states[m].handlers && i in states[m + 1].handlers
    ensures Lookup(states[m].trusted, states[m].handlers[i].req.node).Some?
    ensures var hd, got := states[m].handlers[i], states[m + 1].handlers[i];
      var peer := Lookup(states[m].trusted, hd.req.node).value;
      && got.req == hd.req
      && got.protocol == (if hd.req.protocol != "" then ServiceOf(hd.req.protocol)
           else if peer.protocol != "" then peer.protocol else hd.protocol)
      && got.port == (if hd.req.targetPort > 0 then hd.req.targetPort
           else if peer.targetPort > 0 then peer.targetPort else hd.port)
  {
    StepOf(env, states, acts, m);
    MatchTerms(env, states[m], i, states[m + 1]);
  }

  lemma ConsumeTerms(env: Env, s: State, i: nat, t: State)
    requires RegistryOk(s.reg) && ConsumeStep(env, s, i, t) && |t.log| > |s.log|
    ensures var req := s.handlers[i].req;
      && req.inviteID in s.reg.byInviteID && i in t.handlers
      && var inv := s.reg.objects[s.reg.byInviteID[req.inviteID]];
         && t.handlers[i].req == req && t.handlers[i].protocol == ServiceOf(inv.protocol)
         && t.handlers[i].port == (if inv.targetPort > 0 then inv.targetPort else WellKnownPort(inv.protocol))
  {
    var req := s.handlers[i].req;
    var inv := s.reg.objects[s.reg.byInviteID[req.inviteID]];
    ServiceNamed(inv.protocol);
    WellKnownPorts(inv);
  }

  /** Over every run: whoever comes by an invite gets the invite's service and port. */
  lemma AcceptedOnTerms(env: Env, states: seq<State>, acts: seq<Act>, m: nat, i: nat)
    requires IsRun(env, states, acts) && m < |acts| && acts[m] == Consume(i) && Logs(states, m)
    ensures i in states[m].handlers && i in states[m + 1].handlers && WellFormed(states[m].reg)
    ensures states[m].handlers[i].req.inviteID in states[m].reg.byInviteID
    ensures var got := states[m + 1].handlers[i];
      var inv := states[m].reg.objects[states[m].reg.byInviteID[states[m].handlers[i].req.inviteID]];
      && got.req == states[m].handlers[i].req && got.protocol == ServiceOf(inv.protocol)
      && got.port == (if inv.targetPort > 0 then inv.targetPort else WellKnownPort(inv.protocol))
  {
    InvAt(env, states, acts, m);
    StepOf(env, states, acts, m);
    ConsumeTerms(env, states[m], i, states[m + 1]);
  }

  lemma NoteWrites(s: State, i: nat, t: State)
    requires NoteStep(s, i, t)
    ensures var hd := s.handlers[i];
      && t.reg.objects.Keys == s.reg.objects.Keys
      && forall h :: h in s.reg.objects ==>
           if h != hd.phase.h then t.reg.objects[h] == s.reg.objects[h]
           else
             && SameTerms(s.reg.objects[h], t.reg.objects[h])
             && t.reg.objects[h].used == s.reg.objects[h].used && t.reg.objects[h].usedBy == hd.req.labelText
             && t.reg.objects[h].usedByID == hd.req.node && t.reg.objects[h].usedAt == s.now
  {
  }

  /** Over every run: the invite that a handler had accepted, and no other, gets label, node and time
      of that handler's request as its last user. */
  lemma UserIsRecorded(env: Env, states: seq<State>, acts: seq<Act>, m: nat, i: nat)
    requires IsRun(env, states, acts) && m < |acts| && acts[m] == Note(i)
    ensures i in states[m].handlers && states[m].handlers[i].phase.Consumed?
    ensures var s, t, hd := states[m], states[m + 1], states[m].handlers[i];
      && t.reg.objects.Keys == s.reg.objects.Keys
      && forall h :: h in s.reg.objects ==>
           if h != hd.phase.h then t.reg.objects[h] == s.reg.objects[h]
           else
             && SameTerms(s.reg.objects[h], t.reg.objects[h])
             && t.reg.objects[h].used == s.reg.objects[h].used && t.reg.objects[h].usedBy == hd.req.labelText
             && t.reg.objects[h].usedByID == hd.req.node && t.reg.objects[h].usedAt == s.now
  {
    StepOf(env, states, acts, m);
    NoteWrites(states[m], i, states[m + 1]);
  }

  lemma TrustEntersNobody(env: Env, s: State, i: nat, t: State)
    requires TrustStep(env, s, i, t) && s.handlers[i].phase.Noted? && s.handlers[i].req.mode != "pairing"
    ensures t.trusted == s.trusted
  {
  }

  /** Over every run: nobody is remembered for a one-time invite. */
  lemma OneTimeGuestsAreForgotten(env: Env, states: seq<State>, acts: seq<Act>, m: nat, i: nat)
    requires IsRun(env, states, acts) && m < |acts| && acts[m] == Trust(i)
    requires i in states[m].handlers && states[m].handlers[i].req.mode == "onetime"
    ensures states[m + 1].trusted == states[m].trusted || states[m].handlers[i].phase.Matched?
  {
    StepOf(env, states, acts, m);
    if states[m].handlers[i].phase.Noted? { TrustEntersNobody(env, states[m], i, states[m + 1]); }
  }
}
