/** Machine identity proofs: how a peer makes one and how the other side checks it
    (internal/pairing/pairing.go, internal/identity/identity.go). */
module Identities {
  import opened Text
  import opened Transcripts
  import opened Tokens

  const TIME_WINDOW_SECS := 30

  /** The key functions that are not modelled further: which bytes decode as an Ed25519
      public key, the peer ID of a key, and the hex thumbprint of a key ("" for no bytes). */
  datatype Keys = Keys(isKey: Bytes -> bool, peerID: Bytes -> string, thumbprint: Bytes -> string)

  datatype IdentityProof = IdentityProof(
    backend: string, machineID: string, publicKey: Bytes,
    nodePublicKey: Bytes, nodeSignature: Bytes, window: int, signature: Bytes)

  /** The attestation key certificate: its thumbprint ("" when there is none) and its key. */
  datatype Attestation = Attestation(akThumbprint: string, akKey: Bytes)

  /** The identity a machine signs with. */
  datatype LocalIdentity = LocalIdentity(backend: string, machineID: string, signingKey: Bytes, rawPublicKey: Bytes)

  datatype ProofError =
    | MissingProof | ProofExpired | MissingNodeKey | MissingNodeSignature | BadNodeKey
    | SignerMismatch | BadNodeSignature | BadMachineProof | UnsupportedBackend

  /** at.Unix() / 30, rounded toward zero as Go's integer division is. */
  function TimeWindow(at: int): int {
    var s := Unix(at);
    if s >= 0 then s / TIME_WINDOW_SECS else -((-s) / TIME_WINDOW_SECS)
  }

  function ToBound(p: IdentityProof): Bound {
    Bound(p.backend, p.machineID, p.publicKey, p.signature)
  }

  function VerifyNodeBinding(keys: Keys, p: IdentityProof, signer: string, message: Bytes): Option<ProofError> {
    if p.nodePublicKey == [] then Some(MissingNodeKey)
    else if p.nodeSignature == [] then Some(MissingNodeSignature)
    else if !keys.isKey(p.nodePublicKey) then Some(BadNodeKey)
    else if keys.peerID(p.nodePublicKey) != signer then Some(SignerMismatch)
    else if p.nodeSignature != Sign(p.nodePublicKey, IdentityBindingMessage(message, ToBound(p)))
    then Some(BadNodeSignature)
    else None
  }

  predicate SoftwareProofOk(keys: Keys, publicKey: Bytes, machineID: string, message: Bytes, signature: Bytes) {
    && publicKey != []
    && keys.thumbprint(publicKey) != ""
    && EqualFold(keys.thumbprint(publicKey), machineID)
    && keys.isKey(publicKey)
    && signature == Sign(publicKey, message)
  }

  predicate TPMProofOk(att: Option<Attestation>, machineID: string, message: Bytes, signature: Bytes) {
    && att.Some?
    && att.value.akThumbprint != ""
    && EqualFold(att.value.akThumbprint, machineID)
    && signature == Sign(att.value.akKey, message)
  }

  /** verifyIdentityProof: None means accepted. The claim's window is the one the proof states. */
  function VerifyIdentityProof(
      keys: Keys, proof: Option<IdentityProof>, att: Option<Attestation>, claim: Claim, now: int): Option<ProofError>
  {
    if proof == None then Some(MissingProof)
    else
      var p := proof.value;
      var w := TimeWindow(now);
      if !(w - 1 <= p.window <= w + 1) then Some(ProofExpired)
      else
        var message := IdentityProofMessage(claim.(window := p.window));
        match VerifyNodeBinding(keys, p, claim.signer, message)
        case Some(e) => Some(e)
        case None =>
          if p.backend == "tpm" then
            if TPMProofOk(att, p.machineID, message, p.signature) then None else Some(BadMachineProof)
          else if p.backend == "software" || p.backend == "" then
            if SoftwareProofOk(keys, p.publicKey, p.machineID, message, p.signature) then None
              else Some(BadMachineProof)
          else Some(UnsupportedBackend)
  }

  /** localProof: None when there is no machine ID or the claimed signer is not this node. */
  function LocalProof(keys: Keys, id: LocalIdentity, nodeKey: Bytes, claim: Claim): Option<IdentityProof> {
    var backend := if id.backend == "" then "software" else id.backend;
    if claim.signer != keys.peerID(nodeKey) || id.machineID == "" then None
    else
      var message := IdentityProofMessage(claim);
      var p := IdentityProof(
        backend, id.machineID, if backend == "software" then id.rawPublicKey else [],
        nodeKey, [], claim.window, Sign(id.signingKey, message));
      Some(p.(nodeSignature := Sign(nodeKey, IdentityBindingMessage(message, ToBound(p)))))
  }

  datatype StoredMismatch = NothingStored | NoMachineShown | OtherMachine | OtherKey

  /** verifyStoredIdentity: None when the proof comes from the machine that was stored. */
  function CompareStored(publicKey: string, machineID: string, p: IdentityProof, hex: Bytes -> string):
    Option<StoredMismatch>
  {
    var machine, key := TrimSpace(machineID), TrimSpace(publicKey);
    if machine == "" && key == "" then Some(NothingStored)
    else if machine != "" && p.machineID == "" then Some(NoMachineShown)
    else if machine != "" && !EqualFold(machine, p.machineID) then Some(OtherMachine)
    else if key != "" && p.publicKey != [] && !EqualFold(key, hex(p.publicKey)) then Some(OtherKey)
    else None
  }

  predicate StoredIdentityMatches(
      storedPublicKey: string, storedMachineID: string, p: IdentityProof, hex: Bytes -> string) {
    CompareStored(storedPublicKey, storedMachineID, p, hex) == None
  }

  // --- what the checks mean ---

  /** The machine's own signature: by the TPM key whose certificate the machine ID names, or by the
      software key whose thumbprint it is. */
  ghost predicate MachineSigned(keys: Keys, p: IdentityProof, att: Option<Attestation>, message: Bytes) {
    if p.backend == "tpm" then
      exists thumb, key ::
        att == Some(Attestation(thumb, key)) && thumb != "" && EqualFold(thumb, p.machineID)
          && p.signature == Sign(key, message)
    else
      (p.backend == "software" || p.backend == "") && p.publicKey != [] && keys.isKey(p.publicKey)
      && keys.thumbprint(p.publicKey) != "" && EqualFold(keys.thumbprint(p.publicKey), p.machineID)
      && p.signature == Sign(p.publicKey, message)
  }

  /** The proof is about this claim at this time: the machine has signed the transcript, and the
      key of the signing node has signed transcript and proof together. */
  ghost predicate Authentic(keys: Keys, p: IdentityProof, att: Option<Attestation>, claim: Claim, now: int) {
    && TimeWindow(now) - 1 <= p.window <= TimeWindow(now) + 1
    && var message := IdentityProofMessage(Claim(claim.role, claim.signer, claim.verifier, claim.mode,
         claim.inviteID, claim.inviteProof, claim.sessionToken, p.window));
       && p.nodePublicKey != [] && keys.isKey(p.nodePublicKey) && keys.peerID(p.nodePublicKey) == claim.signer
       && p.nodeSignature == Sign(p.nodePublicKey,
            IdentityBindingMessage(message, Bound(p.backend, p.machineID, p.publicKey, p.signature)))
       && MachineSigned(keys, p, att, message)
  }

  /** What a machine with an identity sends: the key goes along only with a software identity, which
      is also what an unnamed one counts as. */
  lemma LocalProofIs(keys: Keys, id: LocalIdentity, nodeKey: Bytes, claim: Claim)
    ensures LocalProof(keys, id, nodeKey, claim).Some? <==>
      claim.signer == keys.peerID(nodeKey) && id.machineID != ""
    ensures LocalProof(keys, id, nodeKey, claim).Some? ==>
      var p := LocalProof(keys, id, nodeKey, claim).value;
      var software := id.backend == "" || id.backend == "software";
      && p.backend == (if software then "software" else id.backend) && p.machineID == id.machineID
      && p.publicKey == (if software then id.rawPublicKey else [])
      && p.nodePublicKey == nodeKey && p.window == claim.window
      && p.signature == Sign(id.signingKey, IdentityProofMessage(claim))
      && p.nodeSignature == Sign(nodeKey,
           IdentityBindingMessage(IdentityProofMessage(claim), Bound(p.backend, p.machineID, p.publicKey, p.signature)))
  {
  }

  /** Exactly which proofs are accepted. */
  lemma AcceptedIffAuthentic(keys: Keys, proof: Option<IdentityProof>, att: Option<Attestation>, claim: Claim, now: int)
    ensures VerifyIdentityProof(keys, proof, att, claim, now) == None
      <==> proof.Some? && Authentic(keys, proof.value, att, claim, now)
  {
    if proof.Some? {
      var p := proof.value;
      var message := IdentityProofMessage(claim.(window := p.window));
      MachineSignedIff(keys, p, att, message);
    }
  }

  /** Why a proof is refused: the window is looked at first, then the node's key and signature, and
      the machine's own signature last. */
  lemma WhyRefused(keys: Keys, proof: Option<IdentityProof>, att: Option<Attestation>, claim: Claim, now: int)
    ensures var out := VerifyIdentityProof(keys, proof, att, claim, now);
      && (out == Some(MissingProof) <==> proof == None)
      && (proof.Some? ==>
            var p := proof.value;
            var message := IdentityProofMessage(claim.(window := p.window));
            var near := -1 <= p.window - TimeWindow(now) <= 1;
            var known := p.nodePublicKey != [] && p.nodeSignature != [] && keys.isKey(p.nodePublicKey);
            var signed := p.nodeSignature == Sign(p.nodePublicKey,
              IdentityBindingMessage(message, Bound(p.backend, p.machineID, p.publicKey, p.signature)));
            && (out == Some(ProofExpired) <==> !near)
            && (out == Some(MissingNodeKey) <==> near && p.nodePublicKey == [])
            && (out == Some(MissingNodeSignature) <==> near && p.nodePublicKey != [] && p.nodeSignature == [])
            && (out == Some(SignerMismatch) <==> near && known && keys.peerID(p.nodePublicKey) != claim.signer)
            && (out == Some(BadNodeSignature) <==>
                  near && known && keys.peerID(p.nodePublicKey) == claim.signer && !signed)
            && (out == Some(UnsupportedBackend) ==> p.backend !in {"tpm", "software", ""})
            && (out == Some(BadMachineProof) ==>
                  near && known && signed && p.backend in {"tpm", "software", ""}
                  && !MachineSigned(keys, p, att, message)))
  {
    if proof.Some? {
      MachineSignedIff(keys, proof.value, att, IdentityProofMessage(claim.(window := proof.value.window)));
    }
  }

  lemma MachineSignedIff(keys: Keys, p: IdentityProof, att: Option<Attestation>, message: Bytes)
    ensures p.backend == "tpm" ==>
      (MachineSigned(keys, p, att, message) <==> TPMProofOk(att, p.machineID, message, p.signature))
    ensures p.backend == "software" || p.backend == "" ==>
      (MachineSigned(keys, p, att, message) <==> SoftwareProofOk(keys, p.publicKey, p.machineID, message, p.signature))
  {
    if p.backend == "tpm" && TPMProofOk(att, p.machineID, message, p.signature) {
      assert att == Some(Attestation(att.value.akThumbprint, att.value.akKey));
    }
  }

  /** The stored entry is about the machine, or at least the key, that made the proof: whatever is
      stored of the two, and shown, agrees but for white space around and capitalisation. */
  ghost predicate SameIdentity(
      storedPublicKey: string, storedMachineID: string, p: IdentityProof, hex: Bytes -> string) {
    && (TrimSpace(storedMachineID) != "" || TrimSpace(storedPublicKey) != "")
    && (TrimSpace(storedMachineID) != "" ==> EqualFold(TrimSpace(storedMachineID), p.machineID))
    && (TrimSpace(storedPublicKey) != "" && p.publicKey != [] ==>
          EqualFold(TrimSpace(storedPublicKey), hex(p.publicKey)))
  }

  lemma StoredIdentityMatchesIff(
      storedPublicKey: string, storedMachineID: string, p: IdentityProof, hex: Bytes -> string)
    ensures StoredIdentityMatches(storedPublicKey, storedMachineID, p, hex)
      <==> SameIdentity(storedPublicKey, storedMachineID, p, hex)
  {
    EqualFoldIff(TrimSpace(storedMachineID), p.machineID);
  }

  // --- time windows ---

  /** Clocks at most 30 s apart fall into the same or adjacent windows. */
  lemma NearClocksNearWindows(a: int, b: int)
    requires -30 * SECOND <= a - b <= 30 * SECOND
    ensures -1 <= TimeWindow(a) - TimeWindow(b) <= 1
  {
  }

  /** On one side of 1970, same or adjacent windows force a skew below 60 s. */
  lemma NearWindowsBoundSkew(a: int, b: int)
    requires (a >= 0 <==> b >= 0) && -1 <= TimeWindow(a) - TimeWindow(b) <= 1
    ensures -60 * SECOND < a - b < 60 * SECOND
  {
  }

  /** Around 1970 the truncating division makes window 0 nearly a minute long. */
  lemma SkewAcrossEpoch()
    ensures TimeWindow(-29 * SECOND) == 0 && TimeWindow(59 * SECOND) == 1
    ensures TimeWindow(29 * SECOND) == 0 && TimeWindow(-59 * SECOND) == -1
  {
  }

  ghost predicate Within60(v: int, w: int) {
    forall a, b :: TimeWindow(a) == v && TimeWindow(b) == w ==> -60 * SECOND < a - b < 60 * SECOND
  }

  /** Exactly which same or adjacent windows keep clocks within 60 s of each other. */
  lemma Within60Iff(v: int, w: int)
    requires -1 <= v - w <= 1
    ensures Within60(v, w) <==> v == w || (v != 0 && w != 0)
  {
    SkewAcrossEpoch();
    if v == w || (v != 0 && w != 0) {
      forall a, b | TimeWindow(a) == v && TimeWindow(b) == w ensures -60 * SECOND < a - b < 60 * SECOND {
        SameOrSameSide(a, b);
      }
    }
  }

  lemma SameOrSameSide(a: int, b: int)
    requires -1 <= TimeWindow(a) - TimeWindow(b) <= 1
    requires TimeWindow(a) == TimeWindow(b) || (TimeWindow(a) != 0 && TimeWindow(b) != 0)
    ensures -60 * SECOND < a - b < 60 * SECOND
  {
  }

  // --- honest proofs are accepted ---

  /** A local identity that is what it says it is. */
  ghost predicate Genuine(keys: Keys, id: LocalIdentity, nodeKey: Bytes, att: Option<Attestation>) {
    && id.machineID != "" && nodeKey != [] && keys.isKey(nodeKey)
    && if id.backend == "tpm" then
         att.Some? && att.value.akThumbprint != "" && EqualFold(att.value.akThumbprint, id.machineID)
         && att.value.akKey == id.signingKey
       else
         (id.backend == "software" || id.backend == "") && id.rawPublicKey != []
         && id.signingKey == id.rawPublicKey && keys.isKey(id.rawPublicKey)
         && keys.thumbprint(id.rawPublicKey) != "" && EqualFold(keys.thumbprint(id.rawPublicKey), id.machineID)
  }

  lemma HonestProofAccepted(
      keys: Keys, id: LocalIdentity, nodeKey: Bytes, att: Option<Attestation>, claim: Claim, now: int)
    requires Genuine(keys, id, nodeKey, att) && claim.signer == keys.peerID(nodeKey)
    requires -1 <= claim.window - TimeWindow(now) <= 1
    ensures LocalProof(keys, id, nodeKey, claim).Some?
    ensures VerifyIdentityProof(keys, LocalProof(keys, id, nodeKey, claim), att, claim, now) == None
  {
    var p := LocalProof(keys, id, nodeKey, claim).value;
    assert claim.(window := p.window) == claim;
  }

  // --- a proof is good for one claim only ---

  ghost predicate ShortClaim(c: Claim, b: Bound) {
    && Short(ClaimFields(c)) && IsInt64(c.window)
    && Short(BindingFields(IdentityProofMessage(c), b))
  }

  /** A node signature made for one claim is accepted in that very proof and for that very
      claim only: nothing in the proof can be exchanged and nothing it speaks about replaced. */
  lemma ProofBoundToClaim(
      keys: Keys, id: LocalIdentity, nodeKey: Bytes, made: Claim,
      shown: IdentityProof, att: Option<Attestation>, asked: Claim, now: int)
    requires LocalProof(keys, id, nodeKey, made).Some?
    requires shown.nodeSignature == LocalProof(keys, id, nodeKey, made).value.nodeSignature
    requires ShortClaim(made, ToBound(LocalProof(keys, id, nodeKey, made).value))
    requires ShortClaim(asked.(window := shown.window), ToBound(shown))
    requires VerifyIdentityProof(keys, Some(shown), att, asked, now) == None
    ensures shown == LocalProof(keys, id, nodeKey, made).value
    ensures made == asked.(window := shown.window)
  {
    var p := LocalProof(keys, id, nodeKey, made).value;
    var m1 := IdentityProofMessage(made);
    var m2 := IdentityProofMessage(asked.(window := shown.window));
    assert p.nodeSignature == Sign(nodeKey, IdentityBindingMessage(m1, ToBound(p)));
    SignInjective(nodeKey, IdentityBindingMessage(m1, ToBound(p)), shown.nodePublicKey,
      IdentityBindingMessage(m2, ToBound(shown)));
    BindingsUnambiguous(m1, ToBound(p), m2, ToBound(shown));
    ClaimsUnambiguous(made, asked.(window := shown.window));
  }
}
