/** What the host keeps offering: an invite stays usable, and a token keeps working, until the run
    itself gives a reason why not. */
module HostService {
  import opened Text
  import opened Transcripts
  import opened Identities
  import opened Invites
  import opened Sessions
  import opened Targets
  import opened HostProtocol
  import opened HostInvariants
  import opened HostRuns
  import opened HostOrigins
  import opened HostSafety
  import Runs

  // --- invites ---

  /** The invite can be found and is neither used up nor expired. */
  ghost predicate Offered(reg: Registry<nat>, h: nat, now: int) {
    && Indexed(reg, h)
    && (reg.objects[h].mode == "onetime" ==> !reg.objects[h].used)
    && (reg.objects[h].mode != "pairing" ==> !PastExpiry(reg.objects[h], now))
  }

  lemma WithoutKeeps(r: Registry<nat>, ds: set<string>, h: nat)
    requires RegistryOk(r) && Indexed(r, h) && h !in Handles(r, ds)
    ensures Indexed(Without(r, ds), h)
  {
    assert forall d :: d in ds && d in r.invites ==> r.invites[d] in Handles(r, ds);
    assert forall d :: d in ds && d in r.invites ==> r.objects[r.invites[d]].inviteID != r.objects[h].inviteID;
  }

  lemma SweptKeeps(r: Registry<nat>, now: int, h: nat)
    requires RegistryOk(r) && Indexed(r, h) && !PastExpiry(r.objects[h], now)
    ensures Indexed(IndexSwept(r, now), h)
  {
    SweptIff(r, now, r.objects[h].inviteID);
  }

  lemma ConsumeKeeps(env: Env, s: State, i: nat, t: State, h: nat)
    requires RegistryOk(s.reg) && Next(env, s, Consume(i), t) && Indexed(s.reg, h)
    requires s.reg.objects[h].mode != "pairing" ==> !PastExpiry(s.reg.objects[h], s.now)
    ensures Indexed(t.reg, h)
    ensures KeepsUse(s, Consume(i), t, h)
  {
    var req := s.handlers[i].req;
    ConsumedShape(s.reg, env.host, req.inviteID, req.proof, req.node, req.mode, s.now);
    var (q, outcome) := VerifyAndConsume(s.reg, env.host, req.inviteID, req.proof, req.node, req.mode, s.now);
    if outcome.Rejected? {
      RejectionKeeps(s.reg, env.host, req, s.now, h);
    }
  }

  lemma RejectionKeeps(r: Registry<nat>, host: string, req: Request, now: int, h: nat)
    requires RegistryOk(r) && Indexed(r, h)
    requires r.objects[h].mode != "pairing" ==> !PastExpiry(r.objects[h], now)
    requires VerifyAndConsume(r, host, req.inviteID, req.proof, req.node, req.mode, now).1.Rejected?
    ensures var q := VerifyAndConsume(r, host, req.inviteID, req.proof, req.node, req.mode, now).0;
      Indexed(q, h) && q.objects == r.objects
  {
  }

  lemma NoteKeeps(env: Env, s: State, i: nat, t: State, h: nat)
    requires WellFormed(s.reg) && Next(env, s, Note(i), t) && Indexed(s.reg, h)
    ensures Indexed(t.reg, h) && KeepsUse(s, Note(i), t, h)
  {
  }

  lemma GenerateKeeps(env: Env, s: State, g: nat, inv: Invite, t: State, h: nat)
    requires WellFormed(s.reg) && Next(env, s, Generate(g, inv), t) && Indexed(s.reg, h)
    ensures Indexed(t.reg, h) && KeepsUse(s, Generate(g, inv), t, h)
  {
  }

  /** The invite's use is what the step may change: act accepts h, or leaves it unused. */
  ghost predicate KeepsUse(s: State, act: Act, t: State, h: nat)
    requires h in s.reg.objects
  {
    && h in t.reg.objects
    && (t.reg.objects[h].used == s.reg.objects[h].used
        || (|t.log| > |s.log| && t.log[|s.log|].InviteAccepted? && t.log[|s.log|].h == h))
  }

  lemma DeleteKeeps(s: State, backend: string, t: State, h: nat)
    requires RegistryOk(s.reg) && DeletePendingStep(s, backend, t) && Indexed(s.reg, h)
    requires h !in Handles(s.reg, OutdatedIDs(s.reg, backend, s.now))
    ensures Indexed(t.reg, h) && t.reg.objects == s.reg.objects
  {
    WithoutKeeps(s.reg, OutdatedIDs(s.reg, backend, s.now), h);
  }

  lemma RevokeKeeps(s: State, id: string, t: State, h: nat)
    requires RegistryOk(s.reg) && RevokeStep(s, id, t) && Indexed(s.reg, h)
    requires !(id in s.reg.invites && s.reg.invites[id] == h)
    ensures Indexed(t.reg, h) && t.reg.objects == s.reg.objects
  {
    WithoutKeeps(s.reg, {id}, h);
  }

  lemma SweepStepKeeps(s: State, gone: set<string>, t: State, h: nat)
    requires RegistryOk(s.reg) && SweepStep(s, gone, t) && Indexed(s.reg, h)
    requires h !in Handles(s.reg, gone) && !PastExpiry(s.reg.objects[h], s.now)
    ensures Indexed(t.reg, h) && t.reg.objects == s.reg.objects
  {
    SweepKeeps(s.reg, gone, s.now, h);
  }

  lemma RemovalKeeps(env: Env, s: State, act: Act, t: State, h: nat)
    requires RegistryOk(s.reg) && Next(env, s, act, t) && Indexed(s.reg, h) && !Retires(s, act, h)
    requires act.DeletePending? || act.Revoke? || act.Sweep?
    ensures Indexed(t.reg, h) && KeepsUse(s, act, t, h)
  {
    match act
    case DeletePending(backend) => DeleteKeeps(s, backend, t, h);
    case Revoke(id) => RevokeKeeps(s, id, t, h);
    case Sweep(gone) => SweepStepKeeps(s, gone, t, h);
  }

  lemma SweepKeeps(r: Registry<nat>, gone: set<string>, now: int, h: nat)
    requires RegistryOk(r) && Indexed(r, h) && h !in Handles(r, gone) && !PastExpiry(r.objects[h], now)
    ensures Indexed(Without(IndexSwept(r, now), gone), h)
  {
    SweptKeeps(r, now, h);
    SweptSteady(r, now);
    WithoutKeeps(IndexSwept(r, now), gone, h);
  }

  lemma OthersKeep(env: Env, s: State, act: Act, t: State, h: nat)
    requires RegistryOk(s.reg) && Next(env, s, act, t) && Indexed(s.reg, h) && !TouchesRegistry(act)
    ensures Indexed(t.reg, h) && KeepsUse(s, act, t, h)
  {
    StepLocal(env, s, act, t);
  }

  lemma ChangeKeeps(env: Env, s: State, act: Act, t: State, h: nat)
    requires RegistryOk(s.reg) && Next(env, s, act, t) && Indexed(s.reg, h)
    requires s.reg.objects[h].mode != "pairing" ==> !PastExpiry(s.reg.objects[h], s.now)
    requires act.Consume? || act.Note? || act.Generate?
    ensures Indexed(t.reg, h) && KeepsUse(s, act, t, h)
  {
    if act.Consume? {
      ConsumeKeeps(env, s, act.i, t, h);
    } else if act.Note? {
      NoteKeeps(env, s, act.i, t, h);
    } else {
      GenerateKeeps(env, s, act.h, act.inv, t, h);
    }
  }

  lemma StepKeepsIndexed(env: Env, s: State, act: Act, t: State, h: nat)
    requires RegistryOk(s.reg) && Next(env, s, act, t) && Indexed(s.reg, h) && !Retires(s, act, h)
    requires s.reg.objects[h].mode != "pairing" ==> !PastExpiry(s.reg.objects[h], s.now)
    ensures Indexed(t.reg, h) && KeepsUse(s, act, t, h)
  {
    if act.Consume? || act.Note? || act.Generate? {
      ChangeKeeps(env, s, act, t, h);
    } else if act.DeletePending? || act.Revoke? || act.Sweep? {
      RemovalKeeps(env, s, act, t, h);
    } else {
      OthersKeep(env, s, act, t, h);
    }
  }

  /** Step k has the invite accepted. */
  ghost predicate AcceptsNow(states: seq<State>, k: nat, h: nat) {
    && k + 1 < |states| && |states[k + 1].log| > |states[k].log|
    && states[k + 1].log[|states[k].log|].InviteAccepted? && states[k + 1].log[|states[k].log|].h == h
  }

  /** Step k gives no reason to withdraw the invite: it does not retire it, nor accept it when it may
      be used only once, nor does it expire. */
  ghost predicate Spares(states: seq<State>, acts: seq<Act>, k: nat, h: nat) {
    && k < |acts| && |states| == |acts| + 1 && WellFormed(states[k].reg) && h in states[k].reg.objects
    && !Retires(states[k], acts[k], h)
    && (states[k].reg.objects[h].mode == "onetime" ==> !AcceptsNow(states, k, h))
    && (states[k].reg.objects[h].mode != "pairing" ==> !PastExpiry(states[k].reg.objects[h], states[k + 1].now))
  }

  /** What is offered before step k is offered after it, on the same terms. */
  ghost predicate OfferKept(states: seq<State>, k: nat, h: nat) {
    && k + 1 < |states|
    && (Offered(states[k].reg, h, states[k].now) ==>
          && Offered(states[k + 1].reg, h, states[k + 1].now)
          && SameTerms(states[k].reg.objects[h], states[k + 1].reg.objects[h]))
  }

  lemma OfferStep(env: Env, states: seq<State>, acts: seq<Act>, k: nat, h: nat)
    requires IsRun(env, states, acts) && Spares(states, acts, k, h)
    ensures OfferKept(states, k, h)
  {
    if Offered(states[k].reg, h, states[k].now) {
      InvAt(env, states, acts, k);
      StepOf(env, states, acts, k);
      StepKeepsIndexed(env, states[k], acts[k], states[k + 1], h);
      StepSteady(env, states[k], acts[k], states[k + 1]);
    }
  }

  lemma {:induction false} OffersKept(states: seq<State>, l: nat, n: nat, h: nat)
    requires l <= n < |states| && Offered(states[l].reg, h, states[l].now)
    requires forall k :: l <= k < n ==> OfferKept(states, k, h)
    ensures Offered(states[n].reg, h, states[n].now)
    ensures SameTerms(states[l].reg.objects[h], states[n].reg.objects[h])
    decreases n
  {
    if l < n {
      OffersKept(states, l, n - 1, h);
      assert OfferKept(states, n - 1, h);
    }
  }

  /** Over every run: a usable invite stays usable until it is accepted, retired or expired, whatever
      requests other handlers bring. */
  lemma OfferStands(env: Env, states: seq<State>, acts: seq<Act>, l: nat, n: nat, h: nat)
    requires IsRun(env, states, acts) && l <= n <= |acts| && Offered(states[l].reg, h, states[l].now)
    requires forall k :: l <= k < n ==> Spares(states, acts, k, h)
    ensures Offered(states[n].reg, h, states[n].now)
    ensures SameTerms(states[l].reg.objects[h], states[n].reg.objects[h])
  {
    forall k | l <= k < n ensures OfferKept(states, k, h) {
      OfferStep(env, states, acts, k, h);
    }
    OffersKept(states, l, n, h);
  }

  // --- tokens ---

  /** A token whose time and uses are not over. */
  ghost predicate Valid(s: State, token: Bytes) {
    && token in s.issuedAt && s.issuedAt[token] < |s.log| && s.log[s.issuedAt[token]].TokenIssued?
    && s.now <= s.log[s.issuedAt[token]].at + 120 * Tokens.SECOND && |Verifications(s.log, token)| < 16
  }

  ghost predicate ValidStored(s: State) {
    forall token :: Valid(s, token) ==> token in s.sessions
  }

  lemma QuietStep(s: State, act: Act, t: State)
    requires Counted(s) && ValidStored(s) && LogStep(s, act, t) && StoreStep(s, act, t) && !act.Issue? && !act.Spend?
    ensures ValidStored(t)
  {
    forall token | Valid(t, token) ensures token in t.sessions {
      if t.log != s.log { GrowVerifications(s.log, t.log[|s.log|], token); }
      assert Valid(s, token);
    }
  }

  lemma IssueStores(s: State, i: nat, token: Bytes, t: State)
    requires Counted(s) && ValidStored(s) && IssueStep(s, i, token, t)
    ensures ValidStored(t)
  {
    var e := t.log[|s.log|];
    forall k | Valid(t, k) ensures k in t.sessions {
      if k != token {
        GrowVerifications(s.log, e, k);
        assert Valid(s, k) && SessionOk(s.log, s.issuedAt, k, s.sessions[k]);
      }
    }
  }

  lemma SpendOfOther(s: State, j: nat, t: State, k: Bytes)
    requires Counted(s) && ValidStored(s) && SpendStep(s, j, t) && Valid(t, k) && k != s.tunnels[j].hello.token
    ensures k in t.sessions
  {
    if t.log != s.log { GrowVerifications(s.log, t.log[|s.log|], k); }
    assert Valid(s, k);
  }

  lemma SpendOfSame(s: State, j: nat, t: State)
    requires Counted(s) && ValidStored(s) && SpendStep(s, j, t) && Valid(t, s.tunnels[j].hello.token)
    ensures s.tunnels[j].hello.token in t.sessions
  {
    var k := s.tunnels[j].hello.token;
    if t.log != s.log { GrowVerifications(s.log, t.log[|s.log|], k); }
    assert Valid(s, k);
    assert SessionOk(s.log, s.issuedAt, k, s.sessions[k]);
  }

  lemma SpendStores(s: State, j: nat, t: State)
    requires Counted(s) && ValidStored(s) && SpendStep(s, j, t)
    ensures ValidStored(t)
  {
    forall k | Valid(t, k) ensures k in t.sessions {
      if k == s.tunnels[j].hello.token {
        SpendOfSame(s, j, t);
      } else {
        SpendOfOther(s, j, t, k);
      }
    }
  }

  lemma {:induction false} ValidTokensStored(env: Env, states: seq<State>, acts: seq<Act>, n: nat)
    requires IsRun(env, states, acts) && n <= |acts|
    ensures ValidStored(states[n])
    decreases n
  {
    if n > 0 {
      ValidTokensStored(env, states, acts, n - 1);
      ValidStep(env, states, acts, n - 1);
    }
  }

  lemma ValidStep(env: Env, states: seq<State>, acts: seq<Act>, m: nat)
    requires IsRun(env, states, acts) && m < |acts| && ValidStored(states[m])
    ensures ValidStored(states[m + 1])
  {
    InvAt(env, states, acts, m);
    StepOf(env, states, acts, m);
    StepLocal(env, states[m], acts[m], states[m + 1]);
    if acts[m].Issue? {
      IssueStores(states[m], acts[m].i, acts[m].token, states[m + 1]);
    } else if acts[m].Spend? {
      SpendStores(states[m], acts[m].j, states[m + 1]);
    } else {
      QuietStep(states[m], acts[m], states[m + 1]);
    }
  }

  lemma SpendOutcome(s: State, j: nat, t: State)
    requires Counted(s) && ValidStored(s) && SpendStep(s, j, t)
    ensures var token := s.tunnels[j].hello.token;
      if Valid(s, token) then
        var issue := s.log[s.issuedAt[token]];
        && |t.log| > |s.log| && j in t.tunnels && t.tunnels[j].Spent?
        && t.tunnels[j].grant == Grant(issue.node, issue.port)
      else t.log == s.log && j in t.tunnels && t.tunnels[j] == Refused
  {
    var token := s.tunnels[j].hello.token;
    if token in s.sessions {
      assert SessionOk(s.log, s.issuedAt, token, s.sessions[token]);
    }
  }

  /** Over every run: a token is accepted exactly when it was issued at most 120 s ago and has been
      accepted fewer than 16 times, and it grants what it was issued for. */
  lemma TokenChecked(env: Env, states: seq<State>, acts: seq<Act>, m: nat, j: nat)
    requires IsRun(env, states, acts) && m < |acts| && acts[m] == Spend(j)
    ensures j in states[m].tunnels && states[m].tunnels[j].Greeted?
    ensures var s, t := states[m], states[m + 1];
      var token := s.tunnels[j].hello.token;
      && (|t.log| > |s.log| <==> Valid(s, token))
      && (Valid(s, token) ==>
            j in t.tunnels && t.tunnels[j].Spent?
            && t.tunnels[j].grant == Grant(s.log[s.issuedAt[token]].node, s.log[s.issuedAt[token]].port))
  {
    InvAt(env, states, acts, m);
    StepOf(env, states, acts, m);
    ValidTokensStored(env, states, acts, m);
    SpendOutcome(states[m], j, states[m + 1]);
  }
}
