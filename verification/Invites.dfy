/** The host's invites (internal/pairing/pairing.go): every invite object, the table by
    display ID and the index by random invite ID.  Both tables hold references to the same
    objects; H is the type of references. */
module Invites {
  import opened Text
  import opened Tokens
  import opened Transcripts
  import opened Identities
  import opened TrustedPeers

  const MAX_STORED := 500
  const INVITE_ID_SIZE := 16

  /** backend is what InviteNetworkBackend reads from the URL. */
  datatype Invite = Invite(
    id: string, inviteID: Bytes, secret: Bytes, mode: string, protocol: string, targetPort: nat,
    labelText: string, url: string, backend: string, createdAt: int, expiresAt: int,
    revoked: bool, used: bool, usedBy: string, usedByID: string, usedAt: int)

  datatype Registry<H> = Registry(objects: map<H, Invite>, invites: map<string, H>, byInviteID: map<Bytes, H>)

  datatype Refusal =
    | BadInviteID | BadProofLength | UnknownInvite | InviteIDMismatch | RevokedInvite | AlreadyUsed
    | ExpiredInvite | ModeMismatch | BadProof

  datatype Outcome<H> = Accepted(handle: H) | Rejected(reason: Refusal)

  predicate Active(inv: Invite, now: int) {
    if inv.revoked || (inv.mode == "onetime" && inv.used) then false
    else if inv.expiresAt > now + 99 * YEAR then true
    else inv.expiresAt == ZERO_TIME || now < inv.expiresAt
  }

  /** Exactly which invites can still be presented: not revoked, not a used one-time invite, and
      without an expiry, more than 99 years ahead of it, or ahead of it. */
  lemma ActiveIff(inv: Invite, now: int)
    ensures Active(inv, now) <==>
      !inv.revoked && !(inv.mode == "onetime" && inv.used) && (inv.expiresAt == ZERO_TIME || now < inv.expiresAt)
  {
  }

  function ParseProtocol(s: string): nat {
    var p := ToLower(s);
    if p == "vnc" then 1 else if p == "ssh" then 2 else if p == "custom" then 3 else 0
  }

  function EffectiveTargetPort(inv: Invite): nat {
    if inv.targetPort != 0 then inv.targetPort else DefaultPort(ParseProtocol(inv.protocol))
  }

  /** The number a service is usually found at, however its name is capitalised. */
  function WellKnownPort(protocol: string): nat {
    if EqualFold(protocol, "vnc") then 5900 else if EqualFold(protocol, "ssh") then 22 else 3389
  }

  /** Without a port of its own an invite stands for the well-known port of its service. */
  lemma WellKnownPorts(inv: Invite)
    ensures EffectiveTargetPort(inv) ==
      if inv.targetPort > 0 then inv.targetPort
      else if EqualFold(inv.protocol, "vnc") then 5900 else if EqualFold(inv.protocol, "ssh") then 22 else 3389
  {
    assert ToLower("vnc") == "vnc" && ToLower("ssh") == "ssh";
  }

  predicate PastExpiry(inv: Invite, now: int) {
    inv.expiresAt != ZERO_TIME && inv.expiresAt < now + 99 * YEAR && now > inv.expiresAt
  }

  // --- the operations ---

  function Generated<H>(reg: Registry<H>, h: H, inv: Invite): Registry<H> {
    Registry(reg.objects[h := inv], reg.invites[inv.id := h], reg.byInviteID[inv.inviteID := h])
  }

  /** A pairing link that was made for another backend and is still pending. */
  predicate Outdated(inv: Invite, backend: string, now: int) {
    inv.mode == "pairing" && !inv.used && !inv.revoked && Active(inv, now) && inv.backend != backend
  }

  /** A pairing link that can be handed out again (findActivePairingInvite). */
  predicate ReusableLink(inv: Invite, backend: string, now: int) {
    inv.mode == "pairing" && inv.url != "" && Active(inv, now) && inv.backend == backend
  }

  /** Remove the entries ds from both tables. */
  function Without<H>(reg: Registry<H>, ds: set<string>): Registry<H>
    requires WellFormed(reg)
  {
    reg.(invites := reg.invites - ds,
         byInviteID := reg.byInviteID - (set d | d in ds && d in reg.invites :: reg.objects[reg.invites[d]].inviteID))
  }

  ghost predicate WellFormed<H>(reg: Registry<H>) {
    && (forall d :: d in reg.invites ==> reg.invites[d] in reg.objects)
    && (forall k :: k in reg.byInviteID ==> reg.byInviteID[k] in reg.objects)
  }

  ghost function OutdatedIDs<H>(reg: Registry<H>, backend: string, now: int): set<string>
    requires WellFormed(reg)
  {
    set d | d in reg.invites && Outdated(reg.objects[reg.invites[d]], backend, now)
  }

  ghost function DeletedPending<H>(reg: Registry<H>, backend: string, now: int): Registry<H>
    requires WellFormed(reg)
  {
    Without(reg, OutdatedIDs(reg, backend, now))
  }

  /** RevokeInvite on the tables; an unknown ID changes nothing. */
  function Revoked<H>(reg: Registry<H>, d: string): Registry<H>
    requires WellFormed(reg)
  {
    Without(reg, {d})
  }

  predicate ValidInviteProof(inv: Invite, proof: Bytes, host: string, client: string, mode: string, now: int) {
    var w := TimeWindow(now);
    proof == InviteProof(inv.secret, inv.inviteID, host, client, mode, w - 1)
    || proof == InviteProof(inv.secret, inv.inviteID, host, client, mode, w)
    || proof == InviteProof(inv.secret, inv.inviteID, host, client, mode, w + 1)
  }

  /** verifyAndConsume. */
  function VerifyAndConsume<H>(
      reg: Registry<H>, host: string, inviteID: Bytes, proof: Bytes, client: string, mode: string, now: int):
    (Registry<H>, Outcome<H>)
    requires WellFormed(reg)
  {
    if |inviteID| != INVITE_ID_SIZE then (reg, Rejected(BadInviteID))
    else if |proof| != PROOF_SIZE then (reg, Rejected(BadProofLength))
    else if inviteID !in reg.byInviteID then (reg, Rejected(UnknownInvite))
    else
      var h := reg.byInviteID[inviteID];
      var inv := reg.objects[h];
      if inv.inviteID != inviteID then (reg, Rejected(InviteIDMismatch))
      else if inv.revoked then (reg, Rejected(RevokedInvite))
      else if inv.mode == "onetime" && inv.used then (reg, Rejected(AlreadyUsed))
      else if inv.mode != "pairing" && PastExpiry(inv, now)
      then (reg.(byInviteID := reg.byInviteID - {inviteID}), Rejected(ExpiredInvite))
      else if mode != inv.mode then (reg, Rejected(ModeMismatch))
      else if !ValidInviteProof(inv, proof, host, client, mode, now) then (reg, Rejected(BadProof))
      else (reg.(objects := reg.objects[h := inv.(used := inv.used || inv.mode == "onetime", usedAt := now)]),
        Accepted(h))
  }

  /** The handler writes down who used the invite, through its own reference. */
  function UseRecorded<H>(reg: Registry<H>, h: H, labelText: string, peerID: string, now: int): Registry<H>
    requires h in reg.objects
  {
    reg.(objects := reg.objects[h := reg.objects[h].(usedBy := labelText, usedByID := peerID, usedAt := now)])
  }

  /** The first loop of the sweep: expired invites lose their index entry. */
  function IndexSwept<H>(reg: Registry<H>, now: int): Registry<H>
    requires WellFormed(reg)
  {
    reg.(byInviteID := reg.byInviteID -
      (set d | d in reg.invites
        && PastExpiry(reg.objects[reg.invites[d]], now) :: reg.objects[reg.invites[d]].inviteID))
  }

  function CreatedAt<H>(reg: Registry<H>, d: string): int
    requires WellFormed(reg) && d in reg.invites
  {
    reg.objects[reg.invites[d]].createdAt
  }

  /** What the hard cap may remove: just enough, and never a newer invite than one it keeps.
      (Which of several equally old ones go is up to map order and an unstable sort.) */
  ghost predicate OldestSurplus<H>(reg: Registry<H>, gone: set<string>)
    requires WellFormed(reg)
  {
    && gone <= reg.invites.Keys
    && |reg.invites.Keys - gone| == (if |reg.invites| <= MAX_STORED then |reg.invites| else MAX_STORED)
    && (forall g, k :: g in gone && k in reg.invites && k !in gone ==> CreatedAt(reg, g) <= CreatedAt(reg, k))
  }

  /** Exactly which invites the deletion takes: unused pairing links, neither revoked nor expired, that
      were made for another backend.  Everything else stays where it was. */
  lemma DeletedPendingIff<H>(reg: Registry<H>, backend: string, now: int, d: string)
    requires WellFormed(reg)
    ensures d in DeletedPending(reg, backend, now).invites <==>
      d in reg.invites
      && var inv := reg.objects[reg.invites[d]];
         !(inv.mode == "pairing" && !inv.used && !inv.revoked && (inv.expiresAt == ZERO_TIME || now < inv.expiresAt)
           && inv.backend != backend)
    ensures d in DeletedPending(reg, backend, now).invites ==>
      DeletedPending(reg, backend, now).invites[d] == reg.invites[d]
    ensures DeletedPending(reg, backend, now).objects == reg.objects
  {
    if d in reg.invites { ActiveIff(reg.objects[reg.invites[d]], now); }
  }

  /** Exactly which links can be handed out again. */
  lemma ReusableIff(inv: Invite, backend: string, now: int)
    ensures ReusableLink(inv, backend, now) <==>
      inv.mode == "pairing" && inv.url != "" && inv.backend == backend && !inv.revoked
      && (inv.expiresAt == ZERO_TIME || now < inv.expiresAt)
  {
    ActiveIff(inv, now);
  }

  /** What the cap leaves, in numbers and ages. */
  lemma CapKeepsNewest<H>(reg: Registry<H>, gone: set<string>, g: string, d: string)
    requires WellFormed(reg) && OldestSurplus(reg, gone)
    ensures |Without(reg, gone).invites| == if |reg.invites| <= 500 then |reg.invites| else 500
    ensures g in reg.invites && g !in Without(reg, gone).invites && d in Without(reg, gone).invites ==>
      reg.objects[reg.invites[g]].createdAt <= reg.objects[reg.invites[d]].createdAt
  {
    assert Without(reg, gone).invites.Keys == reg.invites.Keys - gone;
  }

  // --- the index agrees with the table ---

  ghost predicate Agrees<H>(reg: Registry<H>) {
    && WellFormed(reg)
    && (forall d :: d in reg.invites ==> reg.objects[reg.invites[d]].id == d)
    && (forall k :: k in reg.byInviteID ==>
          var inv := reg.objects[reg.byInviteID[k]];
          inv.inviteID == k && inv.id in reg.invites && reg.invites[inv.id] == reg.byInviteID[k])
  }

  /** Invite IDs are random and never repeat. */
  ghost predicate DistinctIDs<H>(reg: Registry<H>) {
    forall g, h :: g in reg.objects && h in reg.objects && reg.objects[g].inviteID == reg.objects[h].inviteID ==> g == h
  }

  /** The invite behind a reference can still be found by its invite ID. */
  ghost predicate Indexed<H>(reg: Registry<H>, h: H) {
    h in reg.objects && reg.objects[h].inviteID in reg.byInviteID && reg.byInviteID[reg.objects[h].inviteID] == h
  }

  /** Generation keeps the agreement exactly when the new display ID is not the one of an
      invite that is still indexed; display IDs have only 32 random bits. */
  lemma GeneratedAgreesIff<H>(reg: Registry<H>, h: H, inv: Invite)
    requires Agrees(reg) && h !in reg.objects && inv.inviteID !in reg.byInviteID
    ensures Agrees(Generated(reg, h, inv)) <==> !(inv.id in reg.invites && Indexed(reg, reg.invites[inv.id]))
  {
    var out := Generated(reg, h, inv);
    if inv.id in reg.invites && Indexed(reg, reg.invites[inv.id]) {
      var h0 := reg.invites[inv.id];
      var k := reg.objects[h0].inviteID;
      assert out.byInviteID[k] == h0 && out.objects[h0] == reg.objects[h0] && out.invites[inv.id] == h;
    }
  }

  lemma WithoutAgrees<H>(reg: Registry<H>, ds: set<string>)
    requires Agrees(reg)
    ensures Agrees(Without(reg, ds))
    ensures forall d :: d in ds && d in reg.invites ==>
      reg.objects[reg.invites[d]].inviteID !in Without(reg, ds).byInviteID
  {
    var out := Without(reg, ds);
    forall k | k in out.byInviteID
      ensures out.objects[out.byInviteID[k]].id in out.invites
    {
      var d := reg.objects[reg.byInviteID[k]].id;
      assert reg.invites[d] == reg.byInviteID[k] && reg.objects[reg.invites[d]].inviteID == k;
    }
  }

  lemma VerifyAgrees<H>(
      reg: Registry<H>, host: string, inviteID: Bytes, proof: Bytes, client: string, mode: string, now: int)
    requires Agrees(reg)
    ensures Agrees(VerifyAndConsume(reg, host, inviteID, proof, client, mode, now).0)
    ensures VerifyAndConsume(reg, host, inviteID, proof, client, mode, now).1 != Rejected(InviteIDMismatch)
  {
  }

  lemma IndexSweptAgrees<H>(reg: Registry<H>, now: int)
    requires Agrees(reg)
    ensures Agrees(IndexSwept(reg, now))
  {
  }

  /** The cap leaves at most 500 invites, and the removed ones can no longer be found. */
  lemma CapRespected<H>(reg: Registry<H>, gone: set<string>)
    requires Agrees(reg) && OldestSurplus(reg, gone)
    ensures Agrees(Without(reg, gone)) && |Without(reg, gone).invites| <= MAX_STORED
    ensures forall g :: g in gone ==> reg.objects[reg.invites[g]].inviteID !in Without(reg, gone).byInviteID
  {
    WithoutAgrees(reg, gone);
    assert Without(reg, gone).invites.Keys == reg.invites.Keys - gone;
  }

  // --- acceptance ---

  /** Only who used the invite, and when, can differ. */
  predicate SameTerms(a: Invite, b: Invite) {
    b == a.(used := b.used, usedBy := b.usedBy, usedByID := b.usedByID, usedAt := b.usedAt) && (a.used ==> b.used)
  }

  /** Verification marks one invite, or drops one index entry, or changes nothing. */
  lemma ConsumedShape<H>(
      r: Registry<H>, host: string, inviteID: Bytes, proof: Bytes, client: string, mode: string, now: int)
    requires WellFormed(r)
    ensures var (q, outcome) := VerifyAndConsume(r, host, inviteID, proof, client, mode, now);
      if outcome.Accepted? then
        var h := outcome.handle;
        && h in r.objects && h in q.objects && SameTerms(r.objects[h], q.objects[h])
          && q == r.(objects := r.objects[h := q.objects[h]])
        && (r.objects[h].mode != "onetime" ==> q.objects[h].used == r.objects[h].used)
      else q == r || q == r.(byInviteID := r.byInviteID - {inviteID})
  {
  }

  /** Exactly when a proof is accepted. */
  lemma AcceptedIff<H>(
      reg: Registry<H>, host: string, inviteID: Bytes, proof: Bytes, client: string, mode: string, now: int)
    requires Agrees(reg)
    ensures VerifyAndConsume(reg, host, inviteID, proof, client, mode, now).1.Accepted? <==>
      && |inviteID| == 16 && inviteID in reg.byInviteID
      && var inv := reg.objects[reg.byInviteID[inviteID]];
         !inv.revoked && (mode == "onetime" ==> !inv.used) && mode == inv.mode
         && (mode == "pairing" || inv.expiresAt == ZERO_TIME || now <= inv.expiresAt)
         && exists w :: TimeWindow(now) - 1 <= w <= TimeWindow(now) + 1
              && proof == InviteProof(inv.secret, inviteID, host, client, mode, w)
  {
  }

  /** Why a proof is refused, each reason with its exact condition.  A revoked invite is called
      revoked even when used or expired, and a used one used even when expired. */
  lemma WhyRefused<H>(
      reg: Registry<H>, host: string, inviteID: Bytes, proof: Bytes, client: string, mode: string, now: int)
    requires Agrees(reg)
    ensures var out := VerifyAndConsume(reg, host, inviteID, proof, client, mode, now).1;
      var asked := |inviteID| == 16 && |proof| == 32;
      && (out == Rejected(BadInviteID) <==> |inviteID| != 16)
      && (out == Rejected(BadProofLength) <==> |inviteID| == 16 && |proof| != 32)
      && (out == Rejected(UnknownInvite) <==> asked && inviteID !in reg.byInviteID)
      && (inviteID in reg.byInviteID ==>
            var inv := reg.objects[reg.byInviteID[inviteID]];
            var used := inv.mode == "onetime" && inv.used;
            var over := inv.mode != "pairing" && inv.expiresAt != ZERO_TIME && inv.expiresAt < now;
            && (out == Rejected(RevokedInvite) <==> asked && inv.revoked)
            && (out == Rejected(AlreadyUsed) <==> asked && !inv.revoked && used)
            && (out == Rejected(ExpiredInvite) <==> asked && !inv.revoked && !used && over)
            && (out == Rejected(ModeMismatch) <==> asked && !inv.revoked && !used && !over && mode != inv.mode))
  {
  }

  /** One attempt to use an invite. */
  datatype Attempt = Attempt(inviteID: Bytes, proof: Bytes, client: string, mode: string, at: int)

  function Outcomes<H>(reg: Registry<H>, host: string, a: Attempt): Outcome<H>
    requires WellFormed(reg)
  {
    VerifyAndConsume(reg, host, a.inviteID, a.proof, a.client, a.mode, a.at).1
  }

  function AfterAttempt<H>(reg: Registry<H>, host: string, a: Attempt): Registry<H>
    requires WellFormed(reg)
  {
    VerifyAndConsume(reg, host, a.inviteID, a.proof, a.client, a.mode, a.at).0
  }

  /** A refused attempt leaves no trace: every later attempt, with whatever ID and proof, by whatever
      client, is accepted for the same invite as it would have been without it. */
  lemma RefusalHarmless<H>(reg: Registry<H>, host: string, first: Attempt, second: Attempt)
    requires Agrees(reg) && Outcomes(reg, host, first).Rejected? && first.at <= second.at
    ensures WellFormed(AfterAttempt(reg, host, first)) && AfterAttempt(reg, host, first).objects == reg.objects
    ensures forall h ::
      (Outcomes(AfterAttempt(reg, host, first), host, second) == Accepted(h) <==>
        Outcomes(reg, host, second) == Accepted(h))
  {
    ConsumedShape(reg, host, first.inviteID, first.proof, first.client, first.mode, first.at);
    VerifyAgrees(reg, host, first.inviteID, first.proof, first.client, first.mode, first.at);
  }

  /** An attempt depends on what stands under its invite ID, but for who used it and when. */
  lemma OutcomeDepends<H>(r: Registry<H>, q: Registry<H>, host: string, a: Attempt)
    requires WellFormed(r) && WellFormed(q) && r.byInviteID == q.byInviteID
    requires a.inviteID in r.byInviteID ==>
      var h := r.byInviteID[a.inviteID];
      SameTerms(r.objects[h], q.objects[h]) && r.objects[h].used == q.objects[h].used
    ensures Outcomes(r, host, a) == Outcomes(q, host, a)
  {
  }

  /** An accepted attempt uses up its own invite, if that is a one-time invite, and nothing else. */
  lemma AcceptanceUsesOne<H>(reg: Registry<H>, host: string, first: Attempt, second: Attempt, h: H)
    requires Agrees(reg) && Outcomes(reg, host, first) == Accepted(h)
    ensures WellFormed(AfterAttempt(reg, host, first))
    ensures forall g ::
      (Outcomes(AfterAttempt(reg, host, first), host, second) == Accepted(g)
       <==> Outcomes(reg, host, second) == Accepted(g) && (g != h || reg.objects[h].mode != "onetime"))
  {
    ConsumedShape(reg, host, first.inviteID, first.proof, first.client, first.mode, first.at);
    var after := AfterAttempt(reg, host, first);
    if reg.objects[h].mode == "onetime" && second.inviteID in reg.byInviteID && reg.byInviteID[second.inviteID] == h {
      UsedUp(after, host, second, h);
    } else {
      OutcomeDepends(reg, after, host, second);
    }
  }

  lemma UsedUp<H>(reg: Registry<H>, host: string, a: Attempt, h: H)
    requires WellFormed(reg) && a.inviteID in reg.byInviteID && reg.byInviteID[a.inviteID] == h
    requires reg.objects[h].mode == "onetime" && reg.objects[h].used
    ensures Outcomes(reg, host, a).Rejected?
  {
  }

  lemma SweptIff<H>(reg: Registry<H>, at: int, k: Bytes)
    requires Agrees(reg) && DistinctIDs(reg) && k in reg.byInviteID
    ensures k in IndexSwept(reg, at).byInviteID <==> !PastExpiry(reg.objects[reg.byInviteID[k]], at)
  {
    var d := reg.objects[reg.byInviteID[k]].id;
    assert reg.invites[d] == reg.byInviteID[k];
  }

  /** Sweeping never changes whether a one-time invite is accepted... */
  lemma SweepKeepsVerdict<H>(
      reg: Registry<H>, at: int, host: string, inviteID: Bytes, proof: Bytes, client: string, mode: string, now: int)
    requires Agrees(reg) && DistinctIDs(reg) && at <= now
    requires inviteID in reg.byInviteID ==> reg.objects[reg.byInviteID[inviteID]].mode != "pairing"
    ensures VerifyAndConsume(IndexSwept(reg, at), host, inviteID, proof, client, mode, now).1.Accepted?
       <==> VerifyAndConsume(reg, host, inviteID, proof, client, mode, now).1.Accepted?
  {
    if inviteID in reg.byInviteID { SweptIff(reg, at, inviteID); }
  }

  /** ... while for a pairing invite it does exactly when the invite is past its expiry: only the
      sweep enforces the expiry of pairing invites. */
  lemma SweepEndsPairing<H>(
      reg: Registry<H>, at: int, host: string, inviteID: Bytes, proof: Bytes, client: string, now: int)
    requires Agrees(reg) && DistinctIDs(reg)
    requires VerifyAndConsume(reg, host, inviteID, proof, client, "pairing", now).1.Accepted?
    ensures VerifyAndConsume(IndexSwept(reg, at), host, inviteID, proof, client, "pairing", now).1.Accepted?
       <==> !PastExpiry(reg.objects[reg.byInviteID[inviteID]], at)
  {
    SweptIff(reg, at, inviteID);
  }
}
