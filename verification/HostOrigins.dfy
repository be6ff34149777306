/** Where the parts of a state come from: which act of the run logged an event, brought a
    handler or a tunnel, let a node into the trusted list or took an invite out of the index. */
module HostOrigins {
  import opened Text
  import opened Transcripts
  import opened Identities
  import opened TrustedPeers
  import opened Invites
  import opened Targets
  import opened HostProtocol
  import opened HostInvariants
  import opened HostRuns
  import Runs

  /** The m-th step of the run. */
  ghost predicate StepAt(env: Env, states: seq<State>, acts: seq<Act>, m: nat) {
    m < |acts| && |states| == |acts| + 1 && WellFormed(states[m].reg) && Next(env, states[m], acts[m], states[m + 1])
  }

  lemma StepOf(env: Env, states: seq<State>, acts: seq<Act>, m: nat)
    requires IsRun(env, states, acts) && m < |acts|
    ensures StepAt(env, states, acts, m)
  {
    assert Steps(env)(states[m], acts[m], states[m + 1]);
  }

  lemma InvAt(env: Env, states: seq<State>, acts: seq<Act>, n: nat)
    requires IsRun(env, states, acts) && n <= |acts|
    ensures Inv(env, states[0].trusted, states[n])
  {
    Runs.Prefix(Initial, Steps(env), states, acts, n);
    RunKeepsInv(env, states[..n + 1], acts[..n]);
  }

  predicate LoggedBy(e: Event, act: Act) {
    match e
    case ProofAccepted(i, _, _, _, _) => act == Prove(i)
    case InviteAccepted(i, _, _, _, _) => act == Consume(i)
    case TrustMatched(i, _, _, _, _, _, _) => act == Match(i)
    case TokenIssued(i, token, _, _, _, _) => act == Issue(i, token)
    case GrantVerified(j, _, _, _) => act == Spend(j)
    case ChannelOpened(j, _, _, _, _, _, _) => act == Decide(j)
    case InvitesRemoved(_, _) => act.DeletePending? || act.Revoke? || act.Sweep?
  }

  // --- what one step can do to each part of the state ---

  predicate GrewBy(log: seq<Event>, longer: seq<Event>, act: Act) {
    |longer| == |log| + 1 && longer == log + [longer[|log|]] && LoggedBy(longer[|log|], act)
  }

  predicate LogStep(s: State, act: Act, t: State) {
    t.log == s.log || GrewBy(s.log, t.log, act)
  }

  predicate Early(p: Phase) { p.Waiting? || p.Proved? }

  predicate MovedOn(hd: Handler, later: Handler) {
    later.req == hd.req && (Early(later.phase) ==> Early(hd.phase) && later.port == hd.port)
  }

  predicate MovesHandler(act: Act) {
    act.Prove? || act.Match? || act.Consume? || act.Note? || act.Trust? || act.Issue?
  }

  predicate HandlersStep(s: State, act: Act, t: State) {
    if act.Arrive? then
      act.i !in s.handlers && act.i in t.handlers && t.handlers == s.handlers[act.i := t.handlers[act.i]]
        && Arrived(s, act, act.i, t.handlers[act.i])
    else if MovesHandler(act) then
      act.i in s.handlers && act.i in t.handlers && t.handlers == s.handlers[act.i := t.handlers[act.i]]
      && s.handlers[act.i].phase != Done && MovedOn(s.handlers[act.i], t.handlers[act.i])
    else t.handlers == s.handlers
  }

  predicate Arrived(s: State, act: Act, i: nat, hd: Handler) {
    act == Arrive(i, hd.req) && hd.port == DefaultGrant(s)
  }

  predicate Asking(tn: Tunnel) { tn.Greeted? || tn.Spent? }

  predicate TunnelsStep(s: State, act: Act, t: State) {
    if act.Greet? then t.tunnels == s.tunnels[act.j := Greeted(act.hello)]
    else if act.Spend? || act.Decide? then
      act.j in s.tunnels && Asking(s.tunnels[act.j]) && act.j in t.tunnels
        && t.tunnels == s.tunnels[act.j := t.tunnels[act.j]]
      && (Asking(t.tunnels[act.j]) ==> t.tunnels[act.j].hello == s.tunnels[act.j].hello)
    else t.tunnels == s.tunnels
  }

  /** act enters the node in the trusted list. */
  predicate Enters(s: State, act: Act, node: string) {
    && act.Trust? && act.i in s.handlers && s.handlers[act.i].req.node == node
    && (s.handlers[act.i].phase.Matched? || s.handlers[act.i].req.mode == "pairing")
  }

  ghost predicate ListStep(env: Env, s: State, act: Act, t: State) {
    if act.Trust? && act.i in s.handlers && Enters(s, act, s.handlers[act.i].req.node) then
      t.trusted == Added(s.trusted, HostProtocol.Entry(env, s.handlers[act.i], s.now), s.now)
    else
      t.trusted == s.trusted || (act.Revoke? && exists id :: t.trusted == Removed(s.trusted, id))
  }

  predicate TouchesRegistry(act: Act) {
    act.Consume? || act.Note? || act.Generate? || act.DeletePending? || act.Revoke? || act.Sweep?
  }

  predicate StoreStep(s: State, act: Act, t: State) {
    && s.now <= t.now
    && (!act.Issue? && !act.Spend? ==> t.sessions == s.sessions && t.issuedAt == s.issuedAt)
  }

  ghost predicate Local(env: Env, s: State, act: Act, t: State) {
    && LogStep(s, act, t) && HandlersStep(s, act, t) && TunnelsStep(s, act, t) && ListStep(env, s, act, t)
    && (!TouchesRegistry(act) ==> t.reg == s.reg) && StoreStep(s, act, t)
  }

  lemma ArriveLocal(env: Env, s: State, i: nat, req: Request, t: State)
    requires ArriveStep(s, i, req, t)
    ensures Local(env, s, Arrive(i, req), t)
  {
  }

  lemma ProveLocal(env: Env, s: State, i: nat, t: State)
    requires ProveStep(env, s, i, t)
    ensures Local(env, s, Prove(i), t)
  {
  }

  lemma MatchLocal(env: Env, s: State, i: nat, t: State)
    requires MatchStep(env, s, i, t)
    ensures Local(env, s, Match(i), t)
  {
  }

  lemma ConsumeLocal(env: Env, s: State, i: nat, t: State)
    requires WellFormed(s.reg) && ConsumeStep(env, s, i, t)
    ensures Local(env, s, Consume(i), t)
  {
  }

  lemma NoteLocal(env: Env, s: State, i: nat, t: State)
    requires NoteStep(s, i, t)
    ensures Local(env, s, Note(i), t)
  {
  }

  lemma TrustLocal(env: Env, s: State, i: nat, t: State)
    requires TrustStep(env, s, i, t)
    ensures Local(env, s, Trust(i), t)
  {
  }

  lemma IssueLocal(env: Env, s: State, i: nat, token: Bytes, t: State)
    requires IssueStep(s, i, token, t)
    ensures Local(env, s, Issue(i, token), t)
  {
  }

  lemma SpendLocal(env: Env, s: State, j: nat, t: State)
    requires SpendStep(s, j, t)
    ensures Local(env, s, Spend(j), t)
  {
  }

  lemma DecideLocal(env: Env, s: State, j: nat, t: State)
    requires DecideStep(env, s, j, t)
    ensures Local(env, s, Decide(j), t)
  {
  }

  lemma RevokeLocal(env: Env, s: State, id: string, t: State)
    requires WellFormed(s.reg) && RevokeStep(s, id, t)
    ensures Local(env, s, Revoke(id), t)
  {
  }

  lemma HandlerLocal(env: Env, s: State, act: Act, t: State)
    requires WellFormed(s.reg) && (act.Arrive? || MovesHandler(act)) && Next(env, s, act, t)
    ensures Local(env, s, act, t)
  {
    match act
    case Arrive(i, req) => ArriveLocal(env, s, i, req, t);
    case Prove(i) => ProveLocal(env, s, i, t);
    case Match(i) => MatchLocal(env, s, i, t);
    case Consume(i) => ConsumeLocal(env, s, i, t);
    case Note(i) => NoteLocal(env, s, i, t);
    case Trust(i) => TrustLocal(env, s, i, t);
    case Issue(i, token) => IssueLocal(env, s, i, token, t);
  }

  lemma GreetLocal(env: Env, s: State, j: nat, hello: Hello, t: State)
    requires GreetStep(s, j, hello, t)
    ensures Local(env, s, Greet(j, hello), t)
  {
  }

  lemma GenerateLocal(env: Env, s: State, h: nat, inv: Invite, t: State)
    requires GenerateStep(s, h, inv, t)
    ensures Local(env, s, Generate(h, inv), t)
  {
  }

  lemma DeleteLocal(env: Env, s: State, backend: string, t: State)
    requires WellFormed(s.reg) && DeletePendingStep(s, backend, t)
    ensures Local(env, s, DeletePending(backend), t)
  {
  }

  lemma SweepLocal(env: Env, s: State, gone: set<string>, t: State)
    requires WellFormed(s.reg) && SweepStep(s, gone, t)
    ensures Local(env, s, Sweep(gone), t)
  {
  }

  lemma StepLocal(env: Env, s: State, act: Act, t: State)
    requires WellFormed(s.reg) && Next(env, s, act, t)
    ensures Local(env, s, act, t)
  {
    match act
    case Greet(j, hello) => GreetLocal(env, s, j, hello, t);
    case Spend(j) => SpendLocal(env, s, j, t);
    case Decide(j) => DecideLocal(env, s, j, t);
    case Generate(h, inv) => GenerateLocal(env, s, h, inv, t);
    case DeletePending(backend) => DeleteLocal(env, s, backend, t);
    case Revoke(id) => RevokeLocal(env, s, id, t);
    case Sweep(gone) => SweepLocal(env, s, gone, t);
    case Configure(_, _) => {}
    case Tick(_) => {}
    case _ => HandlerLocal(env, s, act, t);
  }

  ghost predicate LocalRun(env: Env, states: seq<State>, acts: seq<Act>) {
    && |states| == |acts| + 1 && Initial(states[0])
    && (forall m :: 0 <= m < |acts| ==> Local(env, states[m], acts[m], states[m + 1]))
  }

  lemma RunIsLocal(env: Env, states: seq<State>, acts: seq<Act>)
    requires IsRun(env, states, acts)
    ensures LocalRun(env, states, acts)
  {
    forall m | 0 <= m < |acts| ensures Local(env, states[m], acts[m], states[m + 1]) {
      StepOf(env, states, acts, m);
      StepLocal(env, states[m], acts[m], states[m + 1]);
    }
  }

  // --- events ---

  lemma {:induction false} LogsGrow(env: Env, states: seq<State>, acts: seq<Act>, m: nat, n: nat)
    requires LocalRun(env, states, acts) && m <= n <= |acts|
    ensures states[m].log <= states[n].log
    decreases n - m
  {
    if m < n {
      LogsGrow(env, states, acts, m, n - 1);
      assert LogStep(states[n - 1], acts[n - 1], states[n]);
    }
  }

  /** Every event was logged by the act it is about. */
  lemma {:induction false} LogOrigin(env: Env, states: seq<State>, acts: seq<Act>, n: nat, b: nat) returns (m: nat)
    requires LocalRun(env, states, acts) && n <= |acts| && b < |states[n].log|
    ensures m < n && |states[m].log| == b && states[m + 1].log == states[m].log + [states[n].log[b]]
    ensures LoggedBy(states[n].log[b], acts[m])
    decreases n
  {
    m := n - 1;
    assert LogStep(states[m], acts[m], states[n]);
    if b < |states[m].log| {
      m := LogOrigin(env, states, acts, n - 1, b);
    }
  }

  // --- handlers and tunnels ---

  /** Every handler has the request it arrived with, and at first the port configured then. */
  lemma {:induction false} HandlerOrigin(env: Env, states: seq<State>, acts: seq<Act>, n: nat, i: nat) returns (a: nat)
    requires LocalRun(env, states, acts) && n <= |acts| && i in states[n].handlers
    ensures a < n && acts[a] == Arrive(i, states[n].handlers[i].req)
    ensures Early(states[n].handlers[i].phase) ==> states[n].handlers[i].port == DefaultGrant(states[a])
    decreases n
  {
    a := n - 1;
    assert HandlersStep(states[a], acts[a], states[n]);
    if !Arrived(states[a], acts[a], i, states[n].handlers[i]) {
      a := HandlerOrigin(env, states, acts, n - 1, i);
    }
  }

  /** A handler keeps its request. */
  lemma {:induction false} RequestStays(env: Env, states: seq<State>, acts: seq<Act>, l: nat, n: nat, i: nat)
    requires LocalRun(env, states, acts) && l <= n <= |acts| && i in states[l].handlers
    ensures i in states[n].handlers && states[n].handlers[i].req == states[l].handlers[i].req
    decreases n
  {
    if l < n {
      RequestStays(env, states, acts, l, n - 1, i);
      assert HandlersStep(states[n - 1], acts[n - 1], states[n]);
    }
  }

  /** A handler that is done stays so. */
  lemma {:induction false} DoneStays(env: Env, states: seq<State>, acts: seq<Act>, l: nat, n: nat, i: nat)
    requires LocalRun(env, states, acts) && l <= n <= |acts| && At(states[l], i, Done)
    ensures At(states[n], i, Done)
    decreases n
  {
    if l < n {
      DoneStays(env, states, acts, l, n - 1, i);
      assert HandlersStep(states[n - 1], acts[n - 1], states[n]);
    }
  }

  /** Every tunnel decides about the request it was greeted with. */
  lemma {:induction false} TunnelOrigin(env: Env, states: seq<State>, acts: seq<Act>, n: nat, j: nat) returns (g: nat)
    requires LocalRun(env, states, acts) && n <= |acts| && j in states[n].tunnels && Asking(states[n].tunnels[j])
    ensures g < n && acts[g] == Greet(j, states[n].tunnels[j].hello)
    decreases n
  {
    g := n - 1;
    assert TunnelsStep(states[g], acts[g], states[n]);
    if acts[g] != Greet(j, states[n].tunnels[j].hello) {
      g := TunnelOrigin(env, states, acts, n - 1, j);
    }
  }

  // --- the trusted list ---

  lemma DistinctStep(env: Env, s: State, act: Act, t: State)
    requires ListStep(env, s, act, t) && Distinct(s.trusted)
    ensures Distinct(t.trusted)
  {
    if t.trusted != s.trusted {
      if act.Trust? {
        AddedDistinct(s.trusted, HostProtocol.Entry(env, s.handlers[act.i], s.now), s.now);
      } else {
        var id :| t.trusted == Removed(s.trusted, id);
        RemovedDistinct(s.trusted, id);
      }
    }
  }

  /** A host that starts with different machines in its list never has one machine twice. */
  lemma {:induction false} DistinctAt(env: Env, states: seq<State>, acts: seq<Act>, n: nat)
    requires LocalRun(env, states, acts) && n <= |acts| && Distinct(states[0].trusted)
    ensures Distinct(states[n].trusted)
    decreases n
  {
    if n > 0 {
      DistinctAt(env, states, acts, n - 1);
      assert Local(env, states[n - 1], acts[n - 1], states[n]);
      DistinctStep(env, states[n - 1], acts[n - 1], states[n]);
    }
  }

  lemma CountStep(env: Env, s: State, act: Act, t: State, node: string)
    requires ListStep(env, s, act, t) && node != "" && (Count(s.trusted, node) <= 1 || Enters(s, act, node))
    ensures Count(t.trusted, node) <= 1
  {
    if act.Trust? && act.i in s.handlers && Enters(s, act, s.handlers[act.i].req.node) {
      var peer := HostProtocol.Entry(env, s.handlers[act.i], s.now);
      if peer.nodeID == node {
        AddedOnce(s.trusted, peer, s.now);
      } else {
        AddedKeepsCount(s.trusted, peer, s.now, node);
      }
    } else if t.trusted != s.trusted {
      var id :| t.trusted == Removed(s.trusted, id);
      RemovedKeepsCount(s.trusted, id, node);
    }
  }

  /** A node that has at most one entry, or is entered at l, never has two afterwards. */
  lemma {:induction false} CountStays(env: Env, states: seq<State>, acts: seq<Act>, l: nat, n: nat, node: string)
    requires LocalRun(env, states, acts) && l <= n <= |acts| && node != ""
    requires Count(states[l].trusted, node) <= 1 || (l < n && Enters(states[l], acts[l], node))
    ensures Count(states[n].trusted, node) <= 1
    decreases n
  {
    if l < n {
      if Count(states[l].trusted, node) <= 1 || l < n - 1 { CountStays(env, states, acts, l, n - 1, node); }
      assert Local(env, states[n - 1], acts[n - 1], states[n]);
      CountStep(env, states[n - 1], acts[n - 1], states[n], node);
    }
  }

  lemma EntersStep(env: Env, s: State, act: Act, t: State, node: string)
    requires ListStep(env, s, act, t)
    requires Lookup(s.trusted, node) == None && Lookup(t.trusted, node) != None
    ensures Enters(s, act, node)
  {
    LookupIsCount(s.trusted, node);
    LookupIsCount(t.trusted, node);
    if act.Trust? {
      AddedNodes(s.trusted, HostProtocol.Entry(env, s.handlers[act.i], s.now), s.now);
    } else {
      var id :| t.trusted == Removed(s.trusted, id);
      RemovedNodes(s.trusted, id);
    }
  }

  /** A node that is not in the list at l but is at n was entered in between. */
  lemma {:induction false} EntryOrigin(
      env: Env, states: seq<State>, acts: seq<Act>, l: nat, n: nat, node: string) returns (m: nat)
    requires LocalRun(env, states, acts) && l <= n <= |acts|
    requires Lookup(states[l].trusted, node) == None && Lookup(states[n].trusted, node) != None
    ensures l <= m < n && Enters(states[m], acts[m], node)
    decreases n
  {
    m := n - 1;
    if Lookup(states[m].trusted, node) == None {
      assert Local(env, states[m], acts[m], states[n]);
      EntersStep(env, states[m], acts[m], states[n], node);
    } else {
      m := EntryOrigin(env, states, acts, l, n - 1, node);
    }
  }

  // --- the index ---

  lemma ConsumeSteady(env: Env, s: State, i: nat, t: State)
    requires RegistryOk(s.reg) && ConsumeStep(env, s, i, t)
    ensures Steady(s.reg, t.reg)
  {
    var req := s.handlers[i].req;
    ConsumedSteady(s.reg, env.host, req.inviteID, req.proof, req.node, req.mode, s.now);
  }

  lemma NoteSteady(s: State, i: nat, t: State)
    requires RegistryOk(s.reg) && NoteStep(s, i, t)
    ensures Steady(s.reg, t.reg)
  {
    MarkedSteady(s.reg, s.handlers[i].phase.h, t.reg.objects[s.handlers[i].phase.h]);
  }

  lemma RevokeSteady(s: State, id: string, t: State)
    requires RegistryOk(s.reg) && RevokeStep(s, id, t)
    ensures Steady(s.reg, t.reg)
  {
    WithoutSteady(s.reg, {id});
  }

  lemma SweepSteady(s: State, gone: set<string>, t: State)
    requires RegistryOk(s.reg) && SweepStep(s, gone, t)
    ensures Steady(s.reg, t.reg)
  {
    SweptSteady(s.reg, s.now);
    WithoutSteady(IndexSwept(s.reg, s.now), gone);
  }

  lemma RegistrySteady(env: Env, s: State, act: Act, t: State)
    requires RegistryOk(s.reg) && TouchesRegistry(act) && Next(env, s, act, t)
    ensures Steady(s.reg, t.reg)
  {
    match act
    case Consume(i) => ConsumeSteady(env, s, i, t);
    case Note(i) => NoteSteady(s, i, t);
    case Generate(h, inv) => GeneratedSteady(s.reg, h, inv);
    case DeletePending(backend) => WithoutSteady(s.reg, OutdatedIDs(s.reg, backend, s.now));
    case Revoke(id) => RevokeSteady(s, id, t);
    case Sweep(gone) => SweepSteady(s, gone, t);
  }

  lemma StepSteady(env: Env, s: State, act: Act, t: State)
    requires RegistryOk(s.reg) && Next(env, s, act, t)
    ensures Steady(s.reg, t.reg)
  {
    if TouchesRegistry(act) {
      RegistrySteady(env, s, act, t);
    } else {
      StepLocal(env, s, act, t);
    }
  }

  /** Invites stay and none becomes findable again. */
  ghost predicate Shrinks(r: Registry<nat>, q: Registry<nat>) {
    forall h :: h in r.objects ==> h in q.objects && (Indexed(q, h) ==> Indexed(r, h))
  }

  lemma SteadyShrinks(r: Registry<nat>, q: Registry<nat>)
    requires Steady(r, q)
    ensures Shrinks(r, q)
  {
  }

  ghost predicate SteadyRun(states: seq<State>) {
    forall m :: 0 <= m < |states| - 1 ==> Shrinks(states[m].reg, states[m + 1].reg)
  }

  lemma RunIsSteady(env: Env, states: seq<State>, acts: seq<Act>)
    requires IsRun(env, states, acts)
    ensures |states| == |acts| + 1 && SteadyRun(states)
  {
    forall m | 0 <= m < |states| - 1 ensures Shrinks(states[m].reg, states[m + 1].reg) {
      InvAt(env, states, acts, m);
      StepOf(env, states, acts, m);
      StepSteady(env, states[m], acts[m], states[m + 1]);
      SteadyShrinks(states[m].reg, states[m + 1].reg);
    }
  }

  /** An invite that has left the index stays out. */
  lemma {:induction false} StaysUnindexed(states: seq<State>, l: nat, n: nat, h: nat)
    requires SteadyRun(states) && l <= n < |states| && h in states[l].reg.objects && !Indexed(states[l].reg, h)
    ensures h in states[n].reg.objects && !Indexed(states[n].reg, h)
    decreases n
  {
    if l < n {
      StaysUnindexed(states, l, n - 1, h);
      assert Shrinks(states[n - 1].reg, states[n].reg);
    }
  }

  /** The invite behind an acceptance is in the index at that moment. */
  lemma AcceptedIndexed(env: Env, s: State, i: nat, t: State)
    requires RegistryOk(s.reg) && ConsumeStep(env, s, i, t) && |t.log| > |s.log| && t.log[|s.log|].InviteAccepted?
    ensures Indexed(s.reg, t.log[|s.log|].h)
  {
    var req := s.handlers[i].req;
    AcceptedFacts(s.reg, env.host, req.inviteID, req.proof, req.node, req.mode, s.now);
  }

  /** act takes invite h out of service. */
  ghost predicate Retires(s: State, act: Act, h: nat)
    requires WellFormed(s.reg)
  {
    match act
    case Revoke(id) => id in s.reg.invites && s.reg.invites[id] == h
    case DeletePending(backend) => h in Handles(s.reg, OutdatedIDs(s.reg, backend, s.now))
    case Sweep(gone) => h in Handles(s.reg, gone) || (h in s.reg.objects && PastExpiry(s.reg.objects[h], s.now))
    case _ => false
  }

  lemma RetiredStep(env: Env, s: State, act: Act, t: State, h: nat)
    requires RegistryOk(s.reg) && Next(env, s, act, t) && Retires(s, act, h)
    ensures h in t.reg.objects && !Indexed(t.reg, h)
  {
    match act
    case Revoke(id) => WithoutSteady(s.reg, {id}); assert h in Handles(s.reg, {id});
    case DeletePending(backend) => WithoutSteady(s.reg, OutdatedIDs(s.reg, backend, s.now));
    case Sweep(gone) => SweptOut(s.reg, gone, s.now, h);
  }

  lemma SweptOut(r: Registry<nat>, gone: set<string>, now: int, h: nat)
    requires RegistryOk(r) && h in r.objects && (h in Handles(r, gone) || PastExpiry(r.objects[h], now))
    ensures !Indexed(Without(IndexSwept(r, now), gone), h)
  {
    SweptSteady(r, now);
    var q := IndexSwept(r, now);
    WithoutSteady(q, gone);
    if Indexed(r, h) {
      SweptIff(r, now, r.objects[h].inviteID);
    }
  }

  // --- who used an invite ---

  /** act records the user of invite h. */
  predicate NotesUse(s: State, act: Act, h: nat) {
    act.Note? && act.i in s.handlers && s.handlers[act.i].phase == Consumed(h)
  }

  function UserAfter(s: State, act: Act, h: nat): string {
    if NotesUse(s, act, h) then s.handlers[act.i].req.node
    else if h in s.reg.objects then s.reg.objects[h].usedByID
    else ""
  }

  ghost predicate UsersStep(s: State, act: Act, t: State) {
    forall h :: h in t.reg.objects ==> t.reg.objects[h].usedByID == UserAfter(s, act, h)
  }

  lemma ConsumeUsers(env: Env, s: State, i: nat, t: State)
    requires WellFormed(s.reg) && ConsumeStep(env, s, i, t)
    ensures UsersStep(s, Consume(i), t)
  {
  }

  lemma NoteUsers(s: State, i: nat, t: State)
    requires NoteStep(s, i, t)
    ensures UsersStep(s, Note(i), t)
  {
  }

  lemma GenerateUsers(s: State, h: nat, inv: Invite, t: State)
    requires GenerateStep(s, h, inv, t)
    ensures UsersStep(s, Generate(h, inv), t)
  {
  }

  lemma ObjectsStay(env: Env, s: State, act: Act, t: State)
    requires WellFormed(s.reg) && Next(env, s, act, t) && (act.DeletePending? || act.Revoke? || act.Sweep?)
    ensures t.reg.objects == s.reg.objects
  {
  }

  lemma StepUsers(env: Env, s: State, act: Act, t: State)
    requires WellFormed(s.reg) && Next(env, s, act, t)
    ensures UsersStep(s, act, t)
  {
    if !TouchesRegistry(act) {
      StepLocal(env, s, act, t);
    } else if act.Consume? {
      ConsumeUsers(env, s, act.i, t);
    } else if act.Note? {
      NoteUsers(s, act.i, t);
    } else if act.Generate? {
      GenerateUsers(s, act.h, act.inv, t);
    } else {
      ObjectsStay(env, s, act, t);
    }
  }

  ghost predicate UsersRun(states: seq<State>, acts: seq<Act>) {
    && |states| == |acts| + 1 && states[0].reg.objects == map[]
    && (forall m :: 0 <= m < |acts| ==> UsersStep(states[m], acts[m], states[m + 1]))
  }

  lemma RunRecordsUsers(env: Env, states: seq<State>, acts: seq<Act>)
    requires IsRun(env, states, acts)
    ensures UsersRun(states, acts)
  {
    forall m | 0 <= m < |acts| ensures UsersStep(states[m], acts[m], states[m + 1]) {
      StepOf(env, states, acts, m);
      StepUsers(env, states[m], acts[m], states[m + 1]);
    }
  }

  /** The recorded user of an invite is the node of the last handler that noted its use. */
  lemma {:induction false} LastUser(states: seq<State>, acts: seq<Act>, n: nat, h: nat) returns (m: nat)
    requires UsersRun(states, acts) && n <= |acts| && h in states[n].reg.objects
    requires states[n].reg.objects[h].usedByID != ""
    ensures m < n && NotesUse(states[m], acts[m], h)
    ensures states[m].handlers[acts[m].i].req.node == states[n].reg.objects[h].usedByID
    ensures forall k :: m < k < n ==> !NotesUse(states[k], acts[k], h)
    decreases n
  {
    m := n - 1;
    assert UsersStep(states[m], acts[m], states[n]);
    if !NotesUse(states[m], acts[m], h) {
      m := LastUser(states, acts, n - 1, h);
    }
  }
}
