/** At most one live pairing link: sequential runs of GenerateURL with everything else that
    touches the registry (internal/pairing/pairing.go). */
module PairingLinks {
  import opened Text
  import opened Transcripts
  import opened Invites
  import opened TrustedPeers
  import Runs

  datatype State = State(reg: Registry<nat>, now: int)

  datatype Op =
    | GeneratePairing(h: nat, inv: Invite, returned: string)
    | GenerationFails(backend: string)
    | GenerateOther(h: nat, inv: Invite)
    | Verify(host: string, inviteID: Bytes, proof: Bytes, client: string, mode: string)
    | RecordUse(h: nat, labelText: string, peerID: string)
    | Revoke(id: string)
    | Sweep(gone: set<string>)
    | Wait(until: int)

  ghost predicate ActivePairing(reg: Registry<nat>, now: int, d: string) {
    && d in reg.invites && reg.invites[d] in reg.objects
    && reg.objects[reg.invites[d]].mode == "pairing" && Active(reg.objects[reg.invites[d]], now)
  }

  /** findActivePairingInvite would return d. */
  ghost predicate Reusable(reg: Registry<nat>, now: int, backend: string, d: string) {
    d in reg.invites && reg.invites[d] in reg.objects && ReusableLink(reg.objects[reg.invites[d]], backend, now)
  }

  /** What generateURL builds: a fresh object that is valid for some time and names its backend. */
  ghost predicate FreshInvite(s: State, h: nat, inv: Invite) {
    h !in s.reg.objects && !inv.used && !inv.revoked && inv.expiresAt > s.now && inv.url != ""
  }

  ghost predicate Step(s: State, op: Op, t: State)
    requires WellFormed(s.reg)
  {
    match op
    case GeneratePairing(h, inv, returned) =>
      var pruned := DeletedPending(s.reg, inv.backend, s.now);
      && FreshInvite(s, h, inv) && inv.mode == "pairing" && t.now == s.now
      && if exists d :: Reusable(pruned, s.now, inv.backend, d)
         then Reusable(pruned, s.now, inv.backend, returned) && t.reg == pruned
         else returned == inv.id && t.reg == Generated(pruned, h, inv)
    case GenerationFails(backend) => t == s.(reg := DeletedPending(s.reg, backend, s.now))
    case GenerateOther(h, inv) =>
      FreshInvite(s, h, inv) && inv.mode != "pairing" && t == s.(reg := Generated(s.reg, h, inv))
    case Verify(host, inviteID, proof, client, mode) =>
      t == s.(reg := VerifyAndConsume(s.reg, host, inviteID, proof, client, mode, s.now).0)
    case RecordUse(h, labelText, peerID) =>
      h in s.reg.objects && t == s.(reg := UseRecorded(s.reg, h, labelText, peerID, s.now))
    case Revoke(id) => t == s.(reg := Revoked(s.reg, id))
    case Sweep(gone) =>
      var swept := IndexSwept(s.reg, s.now);
      OldestSurplus(swept, gone) && t == s.(reg := Without(swept, gone))
    case Wait(until) => s.now <= until && t == s.(now := until)
  }

  /** Pairing links are never marked used or revoked, and they have a URL. */
  ghost predicate Links(s: State) {
    && WellFormed(s.reg)
    && (forall h :: h in s.reg.objects && s.reg.objects[h].mode == "pairing" ==>
          !s.reg.objects[h].used && !s.reg.objects[h].revoked && s.reg.objects[h].url != "")
  }

  ghost predicate AtMostOne(s: State) {
    forall d, e :: ActivePairing(s.reg, s.now, d) && ActivePairing(s.reg, s.now, e) ==> d == e
  }

  ghost predicate Inv(s: State) { Links(s) && AtMostOne(s) }

  /** What is active afterwards was active before, as the same link for the same backend. */
  ghost predicate NoneNew(s: State, t: State) {
    forall d :: ActivePairing(t.reg, t.now, d) ==>
      && ActivePairing(s.reg, s.now, d) && t.reg.invites[d] == s.reg.invites[d]
      && t.reg.objects[t.reg.invites[d]].backend == s.reg.objects[s.reg.invites[d]].backend
  }

  lemma ActivityOnlyEnds(inv: Invite, now: int, later: int)
    requires now <= later && Active(inv, later)
    ensures Active(inv, now)
  {
  }

  /** After the deletion every active link is one for the selected backend. */
  lemma PrunedLinks(s: State, backend: string)
    requires Links(s)
    ensures var t := s.(reg := DeletedPending(s.reg, backend, s.now));
      Links(t) && NoneNew(s, t) && forall d :: ActivePairing(t.reg, t.now, d) ==> Reusable(t.reg, t.now, backend, d)
  {
    var t := s.(reg := DeletedPending(s.reg, backend, s.now));
    forall d | ActivePairing(t.reg, t.now, d)
      ensures ActivePairing(s.reg, s.now, d) && Reusable(t.reg, t.now, backend, d)
    {
      assert d !in OutdatedIDs(s.reg, backend, s.now);
    }
  }

  /** Generation makes at most the new link active. */
  lemma GeneratedLinks(s: State, h: nat, inv: Invite)
    requires Links(s) && FreshInvite(s, h, inv)
    ensures Links(s.(reg := Generated(s.reg, h, inv)))
    ensures forall d :: ActivePairing(Generated(s.reg, h, inv), s.now, d) && (d != inv.id || inv.mode != "pairing") ==>
      ActivePairing(s.reg, s.now, d) && Generated(s.reg, h, inv).invites[d] == s.reg.invites[d]
  {
  }

  lemma GenerateInv(s: State, op: Op, t: State)
    requires Inv(s) && op.GeneratePairing? && Step(s, op, t)
    ensures Inv(t)
    ensures Reusable(t.reg, t.now, op.inv.backend, op.returned)
  {
    PrunedLinks(s, op.inv.backend);
    var pruned := s.(reg := DeletedPending(s.reg, op.inv.backend, s.now));
    if !(exists d :: Reusable(pruned.reg, s.now, op.inv.backend, d)) {
      GeneratedLinks(pruned, op.h, op.inv);
      forall d | ActivePairing(t.reg, t.now, d) ensures d == op.inv.id {
        assert d != op.inv.id ==> ActivePairing(pruned.reg, s.now, d);
      }
    }
  }

  /** Marking an invite as used leaves pairing links as they were. */
  lemma MarkedLinks(s: State, h: nat, inv: Invite)
    requires Links(s) && h in s.reg.objects && SameTerms(s.reg.objects[h], inv)
    requires inv.mode == "pairing" ==> !inv.used
    ensures var t := s.(reg := s.reg.(objects := s.reg.objects[h := inv])); Links(t) && NoneNew(s, t)
  {
    var reg := s.reg.(objects := s.reg.objects[h := inv]);
    forall d | ActivePairing(reg, s.now, d) ensures ActivePairing(s.reg, s.now, d) {
      var g := s.reg.invites[d];
      MarkedActive(s.reg.objects[g], reg.objects[g], s.now);
    }
  }

  lemma MarkedActive(a: Invite, b: Invite, now: int)
    requires SameTerms(a, b) && Active(b, now)
    ensures Active(a, now)
  {
  }

  lemma VerifyLinks(s: State, host: string, inviteID: Bytes, proof: Bytes, client: string, mode: string)
    requires Links(s)
    ensures var t := s.(reg := VerifyAndConsume(s.reg, host, inviteID, proof, client, mode, s.now).0);
      Links(t) && NoneNew(s, t)
  {
    ConsumedShape(s.reg, host, inviteID, proof, client, mode, s.now);
    var (reg, outcome) := VerifyAndConsume(s.reg, host, inviteID, proof, client, mode, s.now);
    if outcome.Accepted? {
      MarkedLinks(s, outcome.handle, reg.objects[outcome.handle]);
    } else {
      TablesLinks(s, s.reg.invites, reg.byInviteID);
    }
  }

  lemma RecordLinks(s: State, h: nat, labelText: string, peerID: string)
    requires Links(s) && h in s.reg.objects
    ensures var t := s.(reg := UseRecorded(s.reg, h, labelText, peerID, s.now)); Links(t) && NoneNew(s, t)
  {
    MarkedLinks(s, h, UseRecorded(s.reg, h, labelText, peerID, s.now).objects[h]);
  }

  /** Taking entries out of the tables adds no active link. */
  lemma TablesLinks(s: State, invites: map<string, nat>, byInviteID: map<Bytes, nat>)
    requires Links(s) && (forall d :: d in invites ==> d in s.reg.invites && invites[d] == s.reg.invites[d])
    requires forall k :: k in byInviteID ==> byInviteID[k] in s.reg.objects
    ensures var t := s.(reg := s.reg.(invites := invites, byInviteID := byInviteID)); Links(t) && NoneNew(s, t)
  {
    var reg := s.reg.(invites := invites, byInviteID := byInviteID);
    forall d | ActivePairing(reg, s.now, d) ensures ActivePairing(s.reg, s.now, d) {
      assert invites[d] == s.reg.invites[d];
    }
  }

  lemma SweepLinks(s: State, gone: set<string>)
    requires Links(s)
    ensures var t := s.(reg := Without(IndexSwept(s.reg, s.now), gone)); Links(t) && NoneNew(s, t)
  {
    var reg := Without(IndexSwept(s.reg, s.now), gone);
    TablesLinks(s, reg.invites, reg.byInviteID);
  }

  lemma WaitLinks(s: State, until: int)
    requires Links(s) && s.now <= until
    ensures Links(s.(now := until)) && NoneNew(s, s.(now := until))
  {
    forall d | ActivePairing(s.reg, until, d) ensures ActivePairing(s.reg, s.now, d) {
      ActivityOnlyEnds(s.reg.objects[s.reg.invites[d]], s.now, until);
    }
  }

  /** Only the generation of pairing links can make one active. */
  lemma OtherLinks(s: State, op: Op, t: State)
    requires Links(s) && !op.GeneratePairing? && Step(s, op, t)
    ensures Links(t) && NoneNew(s, t)
  {
    match op
    case GenerationFails(backend) => PrunedLinks(s, backend);
    case GenerateOther(h, inv) => GeneratedLinks(s, h, inv);
    case Verify(host, inviteID, proof, client, mode) => VerifyLinks(s, host, inviteID, proof, client, mode);
    case RecordUse(h, labelText, peerID) => RecordLinks(s, h, labelText, peerID);
    case Revoke(id) => TablesLinks(s, t.reg.invites, t.reg.byInviteID);
    case Sweep(gone) => SweepLinks(s, gone);
    case Wait(until) => WaitLinks(s, until);
  }

  lemma StepInv(s: State, op: Op, t: State)
    requires Inv(s) && Step(s, op, t)
    ensures Inv(t)
  {
    if op.GeneratePairing? {
      GenerateInv(s, op, t);
    } else {
      OtherLinks(s, op, t);
    }
  }

  ghost function Steps(): (State, Op, State) -> bool {
    (s: State, op: Op, t: State) => WellFormed(s.reg) && Step(s, op, t)
  }

  predicate Initial(s: State) { s.reg == Registry(map[], map[], map[]) }

  ghost predicate IsRun(states: seq<State>, ops: seq<Op>) {
    Runs.IsRun(Initial, Steps(), states, ops)
  }

  lemma {:induction false} RunKeepsInv(states: seq<State>, ops: seq<Op>)
    requires IsRun(states, ops)
    ensures Inv(states[|ops|])
    decreases |ops|
  {
    if ops != [] {
      Runs.ButLast(Initial, Steps(), states, ops);
      RunKeepsInv(states[..|ops|], ops[..|ops| - 1]);
      StepInv(states[|ops| - 1], ops[|ops| - 1], states[|ops|]);
    }
  }

  /** At any moment of any sequential run at most one pairing invite is active. */
  lemma AtMostOneActive(states: seq<State>, ops: seq<Op>, d: string, e: string)
    requires IsRun(states, ops)
    requires ActivePairing(states[|ops|].reg, states[|ops|].now, d)
    requires ActivePairing(states[|ops|].reg, states[|ops|].now, e)
    ensures d == e
  {
    RunKeepsInv(states, ops);
  }

  /** Right after a successful generation the active pairing invite is the returned one, and it
      carries the selected backend. */
  lemma GeneratedIsTheActive(states: seq<State>, ops: seq<Op>, d: string)
    requires IsRun(states, ops) && ops != [] && ops[|ops| - 1].GeneratePairing?
    ensures var t := states[|ops|]; var op := ops[|ops| - 1];
      && Reusable(t.reg, t.now, op.inv.backend, op.returned)
      && (ActivePairing(t.reg, t.now, d) <==> d == op.returned)
  {
    RunKeepsInv(states, ops);
    Runs.ButLast(Initial, Steps(), states, ops);
    RunKeepsInv(states[..|ops|], ops[..|ops| - 1]);
    GenerateInv(states[|ops| - 1], ops[|ops| - 1], states[|ops|]);
    assert ActivePairing(states[|ops|].reg, states[|ops|].now, ops[|ops| - 1].returned);
  }

  // --- when a link ends ---

  /** The operation ends the active link d: generation for another backend, whether it succeeds or
      fails, its revocation, its removal by the cap, or its expiry. */
  predicate Ends(s: State, op: Op, d: string)
    requires d in s.reg.invites && s.reg.invites[d] in s.reg.objects
  {
    var inv := s.reg.objects[s.reg.invites[d]];
    match op
    case GeneratePairing(_, made, _) => made.backend != inv.backend
    case GenerationFails(backend) => backend != inv.backend
    case Revoke(id) => id == d
    case Sweep(gone) => d in gone
    case Wait(until) => inv.expiresAt != ZERO_TIME && inv.expiresAt <= until
    case _ => false
  }

  /** A new invite does not take the display ID of d. */
  predicate Spares(op: Op, d: string) {
    (op.GeneratePairing? || op.GenerateOther? ==> op.inv.id != d)
  }

  lemma PrunedKeeps(s: State, backend: string, d: string)
    requires Links(s) && ActivePairing(s.reg, s.now, d)
    ensures ActivePairing(DeletedPending(s.reg, backend, s.now), s.now, d)
      <==> s.reg.objects[s.reg.invites[d]].backend == backend
  {
    DeletedPendingIff(s.reg, backend, s.now, d);
    ActiveIff(s.reg.objects[s.reg.invites[d]], s.now);
  }

  lemma GenerationKeeps(s: State, op: Op, t: State, d: string)
    requires Links(s) && Step(s, op, t) && ActivePairing(s.reg, s.now, d) && Spares(op, d)
    requires op.GeneratePairing? || op.GenerationFails? || op.GenerateOther?
    ensures ActivePairing(t.reg, t.now, d) <==> !Ends(s, op, d)
  {
    match op
    case GeneratePairing(_, inv, _) => PrunedKeeps(s, inv.backend, d);
    case GenerationFails(backend) => PrunedKeeps(s, backend, d);
    case GenerateOther(_, _) =>
  }

  lemma UseKeeps(s: State, op: Op, t: State, d: string)
    requires Links(s) && Step(s, op, t) && ActivePairing(s.reg, s.now, d) && (op.Verify? || op.RecordUse?)
    ensures ActivePairing(t.reg, t.now, d)
  {
    OtherLinks(s, op, t);
    if op.Verify? {
      ConsumedShape(s.reg, op.host, op.inviteID, op.proof, op.client, op.mode, s.now);
    }
  }

  lemma RemovalKeeps(s: State, op: Op, t: State, d: string)
    requires Links(s) && Step(s, op, t) && ActivePairing(s.reg, s.now, d) && (op.Revoke? || op.Sweep? || op.Wait?)
    ensures ActivePairing(t.reg, t.now, d) <==> !Ends(s, op, d)
  {
    ActiveIff(s.reg.objects[s.reg.invites[d]], t.now);
  }

  /** Over every sequential run: exactly which operation ends an active link. */
  lemma LinkEndsIff(states: seq<State>, ops: seq<Op>, m: nat, d: string)
    requires IsRun(states, ops) && m < |ops| && ActivePairing(states[m].reg, states[m].now, d) && Spares(ops[m], d)
    ensures ActivePairing(states[m + 1].reg, states[m + 1].now, d) <==> !Ends(states[m], ops[m], d)
  {
    Runs.Prefix(Initial, Steps(), states, ops, m);
    RunKeepsInv(states[..m + 1], ops[..m]);
    assert Steps()(states[m], ops[m], states[m + 1]);
    var s, op, t := states[m], ops[m], states[m + 1];
    if op.Verify? || op.RecordUse? {
      UseKeeps(s, op, t, d);
    } else if op.Revoke? || op.Sweep? || op.Wait? {
      RemovalKeeps(s, op, t, d);
    } else {
      GenerationKeeps(s, op, t, d);
    }
  }
}
