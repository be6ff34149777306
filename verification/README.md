# DeskAccess: a verified model of invites, sessions and tunnels

DeskAccess lets a host hand out an invite link, pair with whoever presents it, and then
forward single TCP ports to that peer. This project models the code that decides who gets
through, together with the codecs and the data path underneath, and proves what it promises.

| files | what they model |
|---|---|
| `Runs`, `HostProtocol`, `HostInvariants`, `HostRuns`, `HostOrigins`, `HostSafety`, `HostDecisions`, `HostService` | runs of step systems; the host as one: any number of concurrent pairing and tunnel handlers, invite management, time; which act brought about what; theorems about every run: what is safe, how each decision falls, what stays on offer |
| `HonestPeers`, `Clients`, `HonestRuns`, `Responses` | the way of one invite from generation to an open channel; what the client makes of a link and which response it accepts; agreement of client and host; expiry and clock skew on both sides |
| `Invites`, `InviteRegistry`, `PairingLinks`, `ConcurrentLinks` | the two invite tables: as values, as the maps of shared mutable objects they are; sequential and concurrent runs of link generation |
| `Sessions` | the session-token store and its runs |
| `Transcripts`, `Identities` | signed identity transcripts, the HMAC invite proof, identity verification |
| `Numerals`, `Text`, `Base58`, `Tokens`, `AndroidInvite` | the 88-byte token, base58btc, the `deskaccess://` URL and its second decoder |
| `Streams`, `Frames`, `Copiers`, `CopyLoop`, `Bridges`, `LocalProxies` | short reads and writes, handshake frames, the copy loop, the two-way bridge, the local proxy |
| `TrustedPeers`, `Remotes`, `Targets` | the trusted and remote lists of the configuration, the dialled address |

Conventions. A point in time is an integer number of nanoseconds since 1970 and never goes
back within a run. Random IDs and tokens are values that were not drawn before. Cryptography is
symbolic: a byte of a MAC or signature remembers its key and message, so nothing is assumed and
nothing is said about its strength. Peer-ID derivation, thumbprints, hex and "is a loopback IP"
are arbitrary functions. Every mutex section is one atomic step; configuration reads and
writes, which the code does not lock, are steps as well. Code that updates in place is a class
or a method with loops; its contract equates the new state with a function, about which the
lemmas speak.

Where a natural claim is not true of the code, the code is kept, inputs that break the claim are
given, and the exact condition is proved:

- times of a node ID: `TrustedPeers.NodeTimesCanMove`, `NodeTimesKeptIff`;
- half-close after the last byte: `Bridges.HalfCloseAfterClosedWrite`, `HalfCloseWholeIff`;
- the NUL-separated proof message: `Transcripts.NulShiftsBoundary`, `InviteProofReadsOneWayIff`. The
  host gets its own and the client's node ID into it, which must parse as peer IDs
  (internal/pairing/pairing.go:1843), and the invite's own mode, so no NUL arrives there;
- length prefixes: `Transcripts.LengthPrefixWraps`, `UnambiguousUpToIff`. Requests and responses come in
  frames of at most 256 KiB (internal/protocol/protocol.go:54), far below 2^32 bytes;
- the skew that windows allow: `Identities.SkewAcrossEpoch`, `Within60Iff`;
- expiry on both sides: `HonestPeers.ExpiryBefore1970`, `ClientExpiryConservative`;
- the loopback target: `HonestRuns.OversizedPortLeavesLoopback`, `Targets.TargetIsLoopbackIff`;
- service keys: `Remotes.PipeMovesBoundary`, `KeyOfOneServiceIff`. Pairing stores node IDs derived from keys
  and one of four protocol names, without '|'; a remote added through the local web interface is stored
  unchecked (internal/webui/webui.go:1822-1832), so there one can arrive;
- untrusting a node: `TrustedPeers.RemovalCanMiss`, `RemovedIsGoneIff`. A list loaded from the file is not
  de-duplicated (internal/config/config.go:164-180), so a node can have two entries until it is entered again;
- one active pairing link: `ConcurrentLinks.TwoGeneratorsTwoLinks`, `InsertKeepsOneIff`;
- the two link decoders: `AndroidInvite.OnlyAndroidAccepts`, `AndroidAcceptedIsGoAcceptedIff`;
- pairing invites and the sweep: `Invites.SweepEndsPairing`; colliding display IDs: `Invites.GeneratedAgreesIff`.

Where code and comments differ, the model follows the code: the sweep's comment speaks of
removing used, revoked and expired invites after 24 hours, while the code only drops index
entries of expired ones; an invite's `Revoked` flag is never set, since revocation deletes the
invite.

## Model

| member | source | states |
|---|---|---|
| `HostSafety.ChannelsAreAuthorized` | internal/tunnel/tunnel.go:347-514 | in every run and interleaving, each data channel for node N spent one use of a token issued to N at most 120 s before; that token was issued after an authentic identity proof for N addressed to this host, by way of an honoured invite, or of the entry that the trusted list held for N at that moment, whose machine ID and key those of the request as it came in do not contradict; the port of a trusted grant is the request's, else the entry's, else the configured one; the CONNECT request, as it came in, names no port or the granted one, and no host or one that is localhost or a loopback address but for brackets and white space; the dialled target is 127.0.0.1 at the granted port when that is at most 65535, which invite grants always are |
| `HostSafety.OneTimeInvites` | internal/pairing/pairing.go:896-977 | in every run one one-time invite has at most one accepted proof, one session token and 16 opened channels, whatever handlers race |
| `HostSafety.OneTimeChannelsAlike` | internal/pairing/pairing.go:779-839 | all those channels are for one node, at the invite's port on the loopback address, authorized within 120 s of the one issue |
| `HostSafety.AccessIsRooted` | internal/pairing/pairing.go:711-832 | a node that ever reaches a channel was trusted when the host started or had an invite accepted itself earlier in the run |
| `HostSafety.RevokedUsersStayOut` | internal/pairing/pairing.go:570-587 | revoking a pairing invite ends the trust of its last user if and only if that node had one entry at most; then nobody else is removed, and that user is matched again only after a Trust step has re-entered it (list operations being atomic, which the code does not ensure by a lock) |
| `HostSafety.OneEntryPerNode` | internal/config/config.go:380-455 | in every run a node has one entry at most, if it had so at the start or has been entered since |
| `HostSafety.RevokedUserIsTheLast` | internal/pairing/pairing.go:579-581 | the user that revocation cleans up is the node of the last handler that recorded its use of the invite, not of any earlier one |
| `HostSafety.RetiredNeverAccepted` | internal/pairing/pairing.go:2223-2257 | in every run an invite that was revoked, deleted as outdated, trimmed, or past its expiry at a sweep, is never accepted afterwards |
| `HostSafety.RegistryInRuns` | internal/pairing/pairing.go:522-587 | in every run index and table agree and invite IDs are distinct |
| `HostSafety.SweepsCap` | internal/pairing/pairing.go:2237-2254 | in every run at most 500 invites remain after a sweep; that the loops of the sweep achieve this is `InviteRegistry.InviteTable.Sweep` |
| `HostSafety.RememberedPeerMatches` | internal/pairing/pairing.go:761-832 | in every run, thumbprints and hex keys being free of white space: the entry found for a node right after it pairs or reauthenticates names the machine and, if both have one, the key of the request, carries the granted protocol and port, and says what the request told about label, backend and TPM |
| `HostSafety.ProofsAreForTheirRequests` | internal/pairing/pairing.go:684-698 | in every run, when the node signature of an accepted proof was made for some claim, that claim is the one of the request as it came in - role, this host, mode, invite, invite proof - and the proof is unchanged |
| `HostSafety.SideConditions` | internal/pairing/pairing.go:684-812 | what the steps take for granted (a proof to compare, an object to mark, an issue to point to) holds in every reachable state, so they never block a handler |
| `HostDecisions.ProofChecked` | internal/pairing/pairing.go:684-698 | in every run the identity check passes exactly for authentic proofs for this host with the request's own mode, invite ID and invite proof; otherwise the request is refused |
| `HostDecisions.TrustChecked` | internal/pairing/pairing.go:711-742 | in every run trusted reauthentication passes exactly when the list has an entry for the node, with a machine ID or a key, whose trimmed machine ID folds to that of the proof and whose trimmed key folds to the hex of the proof's key, as far as they are there; otherwise the request is refused |
| `HostDecisions.InviteChecked` | internal/pairing/pairing.go:779-793 | in every run an invite is accepted exactly when it is indexed, unused, unexpired, not revoked and of the request's mode, and the proof is its MAC for host, node, mode and a window next to the present one; otherwise the request is refused |
| `HostDecisions.RefusedGetsNoToken` | internal/pairing/pairing.go:684-793 | in every run no token is ever issued for a request that one of these checks refused |
| `HostDecisions.ConnectChecked` | internal/tunnel/tunnel.go:425-513 | in every run a channel opens exactly when the token was issued to the node that asks, the request names no port or the granted one, and no host or a loopback host; otherwise the tunnel is refused |
| `HostDecisions.SameMachineComesBack` | internal/pairing/pairing.go:1993-2016 | in every run, when a node was entered for one identity and not entered again, whoever is matched for it later shows the same machine ID and, if both show one, the same key |
| `HostDecisions.OnlyRevocationUntrusts` | internal/pairing/pairing.go:579-581 | in every run nobody leaves the trusted list, but for merging, other than the last user of a pairing invite that is revoked |
| `HostDecisions.ArrivesWith` | internal/pairing/pairing.go:640-641 | in every run a request starts on the configured service and on the port that the configured address names, or else on that of the service |
| `HostDecisions.GrantedPortIs` | internal/tunnel/tunnel.go:440-443 | a grant without a port would stand for the port of the configured address, or 3389; no run has such a grant |
| `HostDecisions.MatchedOnTerms` | internal/pairing/pairing.go:740-751 | in every run a trusted peer gets the service and the port its request asks for, else the stored ones, else those it started on |
| `HostDecisions.AcceptedOnTerms` | internal/pairing/pairing.go:795-796 | in every run whoever comes by an invite gets the invite's service and port |
| `HostDecisions.UserIsRecorded` | internal/pairing/pairing.go:807-812 | in every run the accepted invite, and no other, gets label, node and time of the handler's request |
| `HostDecisions.OneTimeGuestsAreForgotten` | internal/pairing/pairing.go:814-831 | in every run nobody is entered in the trusted list for a one-time invite |
| `HostService.TokenChecked` | internal/tunnel/tunnel.go:408-424 | in every run a token is accepted exactly when it was issued at most 120 s ago and accepted fewer than 16 times, and it grants the node and port it was issued for |
| `HostService.OfferStands` | internal/pairing/pairing.go:896-977 | in every run a usable invite stays usable, on the same terms, until it is accepted, retired or expired, whatever requests other handlers bring |
| `HostRuns.RunKeepsInv` | internal/pairing/pairing.go:620-894 | every run keeps the invariant: causes of all logged events, handler and tunnel phases, positive ports, token use counts, once-only acceptance, issue and opening, rooted trust, registry agreement |
| `HostOrigins.LogOrigin` | internal/pairing/pairing.go:684-839 | every event of a run was logged by the one act it is about: proofs by the identity check, matches by trusted reauthentication, acceptances by the invite branch, issues, verifications and openings by theirs |
| `HostOrigins.HandlerOrigin` | internal/pairing/pairing.go:620-683 | every handler serves the request it arrived with, and starts from the port configured then |
| `HostOrigins.TunnelOrigin` | internal/tunnel/tunnel.go:347-408 | every tunnel handler decides about the request it was greeted with |
| `HostOrigins.EntryOrigin` | internal/pairing/pairing.go:761-832 | a node that was not trusted and later is was entered in between, after a trusted match or a pairing invite of its own |
| `HostOrigins.DistinctAt` | internal/config/config.go:380-455 | a host that starts with different machines in its trusted list never has one machine twice |
| `HostRuns.AddedNodes` | internal/config/config.go:380-393 | adding a trusted peer makes no node trusted but the added one |
| `HostProtocol.ProtocolNames` | internal/rendezvous/token.go:51-93 | parsing a protocol's name gives the protocol back |
| `HonestRuns.HonestClientConnects` | internal/pairing/pairing.go:994-1098 | every run can be continued thus: a client is given the link of a usable invite, in a format version it supports, leading to the host of its key, not expired for the client, and its clock is within 30 s of the host's; what `ConnectByURL` makes of the link passes every check, up to an open channel at the port read from the link |
| `HonestRuns.EveryOrderCanBeServed` | internal/pairing/pairing.go:300-487 | for every order of a known mode and every such link there is a run from the start of the host to such a channel |
| `HonestRuns.TrustedPeerConnects` | internal/pairing/pairing.go:1318-1340 | every run can be continued thus: a peer that the trusted list holds with its identity comes back within 30 s of clock skew and gets a channel for the port it asks for, or else the stored or configured one |
| `HonestRuns.OversizedPortLeavesLoopback` | internal/tunnel/tunnel.go:550-558 | from every start of a host that trusts the peer and has an address configured, a run leads to a channel of that peer to the configured address, loopback or not, for each port above 65535 |
| `HonestRuns.HonestConnect` | internal/tunnel/tunnel.go:408-514 | the client's own CONNECT for its granted port leads to an open channel and spends one use |
| `HonestRuns.TokenServesSixteen` | internal/protocol/protocol.go:274-297 | every run can be continued thus: until 120 s after a token was issued its node opens channels on it, one after the other, up to 16 uses |
| `Clients.LinkIsFollowed` | internal/pairing/pairing.go:994-1070 | for every link in a supported version, to a well-formed key, without explicit addresses and with the ticket its backend needs, and not expired, the client sends a request to the host that the key names, carrying the order's terms, and the host accepts its identity proof |
| `Clients.AsksIff` | internal/pairing/pairing.go:994-1069 | exactly which links lead to a request: supported, decodable ones that are pairing links or not past their expiry, to a well-formed key by a known route, from a machine with an identity |
| `Clients.LinkAsks` | internal/pairing/pairing.go:1085-1096 | the request for a link names the client, the link's mode and invite ID and the MAC for the client's window, and goes to the host of the link's key |
| `Clients.ReauthAsks` | internal/pairing/pairing.go:1318-1336 | a paired peer with an identity asks as a trusted one, without an invite, for the service and port it wants |
| `Clients.AcceptsIff` | internal/pairing/pairing.go:1124-1129 | exactly which responses are taken: with a token, and an authentic proof of the host that names client, mode, invite, invite proof and this token |
| `Clients.TakesBackIff` | internal/pairing/pairing.go:1368-1379 | on reauthentication, with `canRepairStoredSoftwarePublicKey`, a client compares the stored key only when it has stored no machine ID, unlike the host |
| `Clients.HonestHostComesBack` | internal/pairing/pairing.go:2018-2030 | an honest host within 30 s of skew is taken back exactly when its machine ID folds to the stored one, whatever key is stored |
| `Clients.HonestResponseAccepted` | internal/pairing/pairing.go:1124-1129 | the client accepts the response of an honest host within 30 s of clock skew |
| `Responses.ClientAndHostAgree` | internal/pairing/pairing.go:835-848 | a client that accepts a response with the node signature of the proof made for an issued token holds that very token, from this host, for its own node, invite, proof and mode, and the host had accepted that request before |
| `Responses.AcceptedTokensWereIssued` | internal/pairing/pairing.go:1124-1129 | in every run, if the host's node key signs only responses to issued tokens and proofs in other roles, every token that a client accepts from this host was issued by it, for this very request, after the request had been accepted |
| `Responses.IssuedForRequest` | internal/pairing/pairing.go:711-839 | every token was issued for a request that had been accepted before, by its invite or as a trusted peer's |
| `HonestPeers.LinkDecodes` | internal/pairing/pairing.go:402-424 | the generated link, with any query, decodes to the ordered mode, protocol, port, ID and secret, and to the expiry in whole 32-bit seconds |
| `HonestPeers.PortsAgree` | internal/pairing/pairing.go:92-100 | the client's `Port()` equals the host's effective target port for every order, port truncation included |
| `HonestPeers.HonestClientAcceptedIff` | internal/pairing/pairing.go:979-990 | the host accepts the honest client's proof if and only if the mode is "onetime" or "pairing", a one-time invite is unused and unexpired, and the clocks lie in the same or adjacent windows |
| `HonestPeers.AcceptedWithin30` | internal/rendezvous/token.go:195-215 | a skew of at most 30 s is always accepted |
| `HonestPeers.AcceptedMeansBelow60` | internal/pairing/pairing.go:979-990 | acceptance forces a skew below 60 s when the clocks stand on one side of 1970, and below 89 s in any case |
| `HonestPeers.ProofFixesWindow` | internal/rendezvous/token.go:199-215 | an invite proof for one window is a proof for no other |
| `HonestPeers.ClientExpiryConservative` | internal/rendezvous/token.go:177-185 | when the client does not take a one-time link to be expired, the host does if and only if the expiry is set and lies before a present that is not after 1970 |
| `HonestPeers.ClientExpiryClose` | internal/rendezvous/token.go:119-126 | the client is stricter only in the last partial second, beyond 2^32-1 s, or without an expiry |
| `HonestPeers.IsExpiredIff` | internal/rendezvous/token.go:177-185 | exactly which links the client takes to be expired: never a pairing link, otherwise those whose expiry has passed |
| `HonestPeers.LinkExpiryIs` | internal/rendezvous/token.go:119-126 | the expiry in a link: 0 before 1970, 2^32-1 s beyond that, whole seconds in between |
| `HonestPeers.ExpiryBefore1970` | internal/rendezvous/token.go:119-126 | an expiry before 1970, clamped in the link, is seen by the host and not by the client |
| `Invites.GeneratedAgreesIff` | internal/pairing/pairing.go:461-464 | generation keeps index and table in agreement if and only if the display ID is not that of an invite still indexed |
| `Invites.WithoutAgrees` | internal/pairing/pairing.go:570-577 | removal keeps the agreement and makes the removed invites unfindable |
| `Invites.VerifyAgrees` | internal/pairing/pairing.go:896-977 | verification keeps the agreement and never meets an ID mismatch |
| `Invites.IndexSweptAgrees` | internal/pairing/pairing.go:2228-2237 | the index sweep keeps the agreement |
| `Invites.CapRespected` | internal/pairing/pairing.go:2237-2254 | the cap leaves at most 500 invites, in agreement, and the removed ones unfindable |
| `Invites.AcceptedIff` | internal/pairing/pairing.go:896-977 | exactly when a presented proof is accepted |
| `Invites.WhyRefused` | internal/pairing/pairing.go:896-977 | each reason of refusal with its exact condition |
| `Invites.RefusalHarmless` | internal/pairing/pairing.go:896-977 | a refused attempt leaves no trace: every later attempt, by whomever and with whatever ID and proof, is accepted for the same invite as without it |
| `Invites.AcceptanceUsesOne` | internal/pairing/pairing.go:968-971 | an accepted attempt uses up its own invite, if that is a one-time invite, and nothing else |
| `Invites.ActiveIff` | internal/pairing/pairing.go:68-77 | exactly which invites can still be presented |
| `Invites.ReusableIff` | internal/pairing/pairing.go:505-518 | exactly which pairing links are handed out again: those of the selected backend that are not revoked and not expired |
| `Invites.DeletedPendingIff` | internal/pairing/pairing.go:522-538 | exactly which invites the deletion takes: unused, unexpired pairing links of another backend; everything else stays |
| `Invites.CapKeepsNewest` | internal/pairing/pairing.go:2237-2254 | the cap leaves 500 invites, or all if there are fewer, and none it removes is newer than one it keeps |
| `Invites.WellKnownPorts` | internal/pairing/pairing.go:92-100 | an invite stands for its own port, and without one for 5900, 22 or 3389 by its service, in any capitalisation |
| `Invites.SweptIff` | internal/pairing/pairing.go:2228-2237 | an indexed invite loses its index entry if and only if it is past its expiry |
| `Invites.SweepKeepsVerdict` | internal/pairing/pairing.go:951-958 | sweeping never changes whether a one-time invite is accepted |
| `Invites.SweepEndsPairing` | internal/pairing/pairing.go:2228-2236 | for a pairing invite it does exactly when the invite is past its expiry |
| `InviteRegistry.InviteTable.Generate` | internal/pairing/pairing.go:448-464 | a new object is entered in both maps |
| `InviteRegistry.InviteTable.FindActivePairing` | internal/pairing/pairing.go:505-518 | the loop finds a reusable link whenever there is one |
| `InviteRegistry.InviteTable.DeletePending` | internal/pairing/pairing.go:522-538 | deleting while ranging removes exactly the outdated pairing links from both maps and counts them |
| `InviteRegistry.InviteTable.Revoke` | internal/pairing/pairing.go:570-578 | one entry leaves both maps; an unknown ID changes nothing |
| `InviteRegistry.InviteTable.ValidProof` | internal/pairing/pairing.go:979-990 | the loop over three offsets decides whether the proof is one of the three windows' |
| `InviteRegistry.InviteTable.VerifyAndConsume` | internal/pairing/pairing.go:896-977 | the checks in order, with their index deletion and in-place marking |
| `InviteRegistry.InviteTable.RecordUse` | internal/pairing/pairing.go:807-812 | the user is noted through the handler's reference, even after removal |
| `InviteRegistry.InviteTable.SweepIndex` | internal/pairing/pairing.go:2228-2237 | the first loop drops the index entries of exactly the expired invites |
| `InviteRegistry.InviteTable.Sweep` | internal/pairing/pairing.go:2223-2257 | both loops: just enough entries go to leave 500, none newer than one kept |
| `InviteRegistry.SortByAge` | internal/pairing/pairing.go:2239-2247 | the same entries, oldest first, each once |
| `PairingLinks.RunKeepsInv` | internal/pairing/pairing.go:300-320 | every sequential run keeps at most one active pairing link, none used or revoked |
| `PairingLinks.AtMostOneActive` | internal/pairing/pairing.go:68-77 | at any moment of any sequential run at most one pairing invite is active |
| `PairingLinks.GeneratedIsTheActive` | internal/pairing/pairing.go:300-320 | after a successful pairing generation the active pairing invite is the returned one, with the selected backend |
| `PairingLinks.LinkEndsIff` | internal/pairing/pairing.go:300-320 | in every sequential run an active pairing link ends exactly by generation for another backend, even one that fails, by its revocation, by the cap or by its expiry |
| `ConcurrentLinks.RunKeepsInv` | internal/pairing/pairing.go:300-320 | in every run of concurrent generations, deletion, search and insertion being separate steps, each active link is one that a generator on its way will find or that another has inserted since its deletion |
| `ConcurrentLinks.InsertKeepsOneIff` | internal/pairing/pairing.go:461-464 | an insertion leaves one active pairing link if and only if none that another generator inserted since this one's deletion is still active |
| `ConcurrentLinks.OthersWereInserted` | internal/pairing/pairing.go:300-320 | those others were inserted by other generators while this one was under way |
| `ConcurrentLinks.TwoGeneratorsTwoLinks` | internal/pairing/pairing.go:309-319 | two generators that both look before either inserts end with two active links |
| `Sessions.SessionStore.Issue` | internal/protocol/protocol.go:245-262 | the token is stored for 120 s and 16 uses, then the store is swept |
| `Sessions.SessionStore.VerifyGrant` | internal/protocol/protocol.go:274-297 | expiry, use count and deletion exactly as specified |
| `Sessions.SessionStore.Sweep` | internal/protocol/protocol.go:300-307 | deleting while ranging removes exactly the expired entries |
| `Sessions.UsesConserved` | internal/protocol/protocol.go:245-297 | uses left plus successful verifications is 16 in every run, and a stored token has a use left and is as issued |
| `Sessions.SuccessIsIssued` | internal/protocol/protocol.go:274-297 | every success returns the grant of the latest issue, within the TTL, as one of its at most 16 uses |
| `Sessions.SuccessIff` | internal/protocol/protocol.go:274-297 | exactly when a verification succeeds and with what: until 120 s after the latest issue of the token, 16 times, with the grant of that issue |
| `Sessions.SweepUnobservable` | internal/protocol/protocol.go:300-307 | no verification can tell a swept store from one with lazy expiry only |
| `Transcripts.ClaimsUnambiguous` | internal/pairing/pairing.go:2046-2072 | equal proof messages come from equal role, signer, verifier, mode, invite, proof, token and window |
| `Transcripts.BindingsUnambiguous` | internal/pairing/pairing.go:2074-2095 | equal binding messages come from equal proof messages and attributes |
| `Transcripts.TranscriptsNeverCollide` | internal/pairing/pairing.go:2046-2095 | a proof message is never a binding message |
| `Transcripts.ProofLayout` | internal/pairing/pairing.go:2046-2072 | the proof message, field by field |
| `Transcripts.BindingLayout` | internal/pairing/pairing.go:2074-2095 | the binding message, field by field |
| `Transcripts.FieldLayout` | internal/pairing/pairing.go:2058-2072 | a field is its length in four bytes, most significant first, and its bytes |
| `Transcripts.LengthPrefixWraps` | internal/pairing/pairing.go:2046-2072 | with a field of 2^32 zero bytes the length prefix wraps and two claims share a transcript |
| `Transcripts.UnambiguousUpToIff` | internal/pairing/pairing.go:2046-2072 | no two claims with parts of at most n bytes share a transcript, if and only if n is below 2^32 |
| `Transcripts.InviteProofMessageInjective` | internal/rendezvous/token.go:199-215 | a message for a 16-byte ID and NUL-free strings is a message for nothing else, whatever the other strings contain |
| `Transcripts.NulShiftsBoundary` | internal/rendezvous/token.go:199-215 | any NUL inside any of the three strings can be taken for a separator |
| `Transcripts.InviteProofReadsOneWayIff` | internal/rendezvous/token.go:199-215 | a message for a 16-byte ID belongs to one tuple only, if and only if its host, client and mode are NUL-free |
| `Identities.HonestProofAccepted` | internal/pairing/pairing.go:1936-1991 | a proof made by `localProof` with a genuine identity is accepted in adjacent windows, with a software or a TPM key |
| `Identities.ProofBoundToClaim` | internal/pairing/pairing.go:1856-1991 | a node signature made for one claim is accepted in that very proof and for that very claim only |
| `Identities.AcceptedIffAuthentic` | internal/pairing/pairing.go:1936-1991 | exactly which proofs are accepted: of an adjacent window, with a signature over transcript and attributes by a key whose peer ID is the signer, and one over the transcript by the TPM or software key that the machine ID names |
| `Identities.LocalProofIs` | internal/pairing/pairing.go:1856-1890 | when a machine can make a proof, and what it sends: the key goes along only with a software identity |
| `Identities.WhyRefused` | internal/pairing/pairing.go:1936-1991 | the reasons of refusal with their conditions: window, node key, signer, node signature, and the machine's signature last |
| `Identities.StoredIdentityMatchesIff` | internal/pairing/pairing.go:1993-2016 | exactly when a proof matches a stored entry: one of machine ID and key is stored, and neither differs from the proof's but in white space around the stored one and capitalisation |
| `Identities.NearClocksNearWindows` | internal/rendezvous/token.go:195-197 | clocks at most 30 s apart lie in the same or adjacent windows |
| `Identities.NearWindowsBoundSkew` | internal/rendezvous/token.go:195-197 | on one side of 1970, same or adjacent windows mean less than 60 s |
| `Identities.SkewAcrossEpoch` | internal/rendezvous/token.go:195-197 | around 1970 they can be 88 s apart, because the division truncates |
| `Identities.Within60Iff` | internal/rendezvous/token.go:195-197 | same or adjacent windows keep clocks within 60 s, if and only if they are equal or neither is window 0 |
| `Base58.DecodeEncode` | internal/rendezvous/token.go:225-267 | decoding inverts encoding on every byte string, leading zeros included |
| `Base58.EncodeDecode` | internal/rendezvous/token.go:225-267 | encoding inverts decoding on every string over the alphabet; other strings do not decode |
| `Base58.Bijection` | internal/rendezvous/token.go:225-267 | encoding is injective, and onto the strings over the alphabet |
| `Base58.EncodedLength` | internal/rendezvous/token.go:225-243 | eight bytes need at most eleven characters: 256^8 < 58^11 |
| `Base58.AlphabetIs` | internal/rendezvous/token.go:16 | the alphabet is the digits and letters without 0, I, O and l |
| `Base58.EncodeBytes` | internal/rendezvous/token.go:225-243 | the big-integer loop and the reversal compute the encoding |
| `Base58.DecodeString` | internal/rendezvous/token.go:245-267 | the accumulating loop computes the decoding, bad characters refused |
| `Tokens.RoundTrip` | internal/rendezvous/token.go:113-166 | `DecodeURL` inverts `Encode`, with expiry clamped to 32 bits of seconds and mode and protocol to 4 bits |
| `Tokens.NormalizedIff` | internal/rendezvous/token.go:113-131 | exactly which tokens survive the trip unchanged |
| `Tokens.PackUnpack` | internal/rendezvous/token.go:113-166 | every 88 bytes are the packing of what they unpack to |
| `Tokens.TokenLayout` | internal/rendezvous/token.go:113-131 | where each field stands in the 88 bytes, most significant byte first, and the text before the base58 digits |
| `Tokens.DecorationIrrelevant` | internal/rendezvous/token.go:133-175 | scheme spelling, extra slashes, a trailing slash, query, fragment and white space change nothing |
| `Tokens.DecodedIsCanonical` | internal/rendezvous/token.go:133-166 | a URL that decodes carries the canonical text of its token |
| `Tokens.URLLength` | internal/rendezvous/token.go:113-131 | an encoded URL has between 101 and 134 characters, so at most 121 of base58 |
| `Tokens.EncodeToken` | internal/rendezvous/token.go:113-131 | the buffer writes produce the encoding |
| `AndroidInvite.DecodeBase58` | android/app/src/main/java/com/deskaccess/android/MainActivity.kt:233-248 | the loop, `toByteArray` and the sign-byte fix compute the Go decoding, except that blank input is refused |
| `AndroidInvite.AndroidImpliesGo` | android/app/src/main/java/com/deskaccess/android/MainActivity.kt:202-224 | a URL with "//" and nothing percent-escaped in its base58 text that the Android client accepts is accepted by the Go client with the same mask, expiry, mode, protocol and port |
| `AndroidInvite.AndroidAcceptedIsGoAcceptedIff` | android/app/src/main/java/com/deskaccess/android/MainActivity.kt:202-224 | a URL that the Android client accepts is accepted by the Go client, then with the same contents, if and only if "//" follows the scheme and nothing is escaped in the base58 text |
| `AndroidInvite.OnlyAndroidAccepts` | android/app/src/main/java/com/deskaccess/android/MainActivity.kt:202-224 | with the second slash percent-escaped every token is accepted by the Android client and refused by the Go client |
| `AndroidInvite.BothReadHostURLs` | android/app/src/main/java/com/deskaccess/android/MainActivity.kt:169-248 | every URL the host produces, with any query or fragment, is read alike by both |
| `Frames.StreamRoundTrip` | internal/protocol/protocol.go:158-211 | reading back any sequence of written frames returns them and leaves every following raw byte unread |
| `Frames.ReadableIffWritable` | internal/protocol/protocol.go:158-211 | the reader accepts exactly the frames the writer agrees to write |
| `Frames.FrameLayout` | internal/protocol/protocol.go:158-211 | type byte, four length bytes, payload; read back exactly up to 256 KiB |
| `Frames.TruncatedStream` | internal/protocol/protocol.go:196-211 | from a stream cut anywhere the reader gets exactly the frames that arrived whole |
| `Frames.WriteAll` | internal/protocol/protocol.go:178-194 | the loop delivers all data through short writes, or a prefix of it on failure |
| `Frames.WriteFrame` | internal/protocol/protocol.go:158-176 | header and payload arrive in full when it succeeds; oversized payloads write nothing |
| `Frames.ReadFrame` | internal/protocol/protocol.go:196-211 | it parses one frame under any chunking and consumes no byte more |
| `CopyLoop.WriteFull` | internal/tunnel/tunnel.go:1183-1210 | for every chunk size and pattern of short writes exactly the first `total` bytes are written, all of them without error; each Write call is one move of the bridge's copier |
| `CopyLoop.Turn` | internal/tunnel/tunnel.go:1160-1181 | one read and the write of what it returned; it is a sequence of moves of the bridge's copier |
| `CopyLoop.Copy` | internal/tunnel/tunnel.go:1160-1181 | exactly the first `total` bytes of the source are delivered in order, and all of them if the source ended; the whole loop is a sequence of moves from the idle copier to one that has stopped with the same error and the same bytes |
| `Bridges.RunKeepsInv` | internal/tunnel/tunnel.go:1115-1158 | what every interleaving of the copiers, the channel, the one-shot teardown and the caller keeps |
| `Bridges.BridgeTeardown` | internal/tunnel/tunnel.go:1115-1158 | on return teardown has run exactly once, abortively exactly when the bridge reports failure, which means a copier failed, and both endpoints are closed |
| `Bridges.FailedIff` | internal/tunnel/tunnel.go:1115-1158 | on return the bridge reports failure, and has aborted its endpoints, exactly when one of its reads or writes met an error that is neither end of file nor a closed connection |
| `Bridges.NormalReturn` | internal/tunnel/tunnel.go:1115-1158 | without such an error both endpoints have been half-closed and closed, and none aborted |
| `Bridges.HalfClosedIff` | internal/tunnel/tunnel.go:1131-1152 | an endpoint is half-closed exactly when the copy towards it has stopped and decided, without such an error |
| `Bridges.TeardownAtMostOnce` | internal/tunnel/tunnel.go:1119-1130 | at no moment has it run twice |
| `Bridges.HalfCloseAfterLastByte` | internal/tunnel/tunnel.go:1131-1152 | a half-close after source EOF follows the last byte read; what is written is always a prefix of what was read |
| `Bridges.HalfCloseWholeIff` | internal/tunnel/tunnel.go:1131-1152 | a half-closed endpoint has got every byte read for it, if and only if the copy stopped at the end of its source or in a write that took all it was given |
| `Bridges.HalfCloseAfterClosedWrite` | internal/tunnel/tunnel.go:1286-1290 | a write that reports a closed connection counts as a normal end, so a half-close can follow a lost byte |
| `LocalProxies.LocalProxy.DoTrack` | internal/tunnel/tunnel.go:142-150 | tracking on a closed proxy is refused |
| `LocalProxies.LocalProxy.DoTrackStream` | internal/tunnel/tunnel.go:158-171 | likewise for streams, which replace an entry with their ID |
| `LocalProxies.LocalProxy.DoUntrackStream` | internal/tunnel/tunnel.go:173-178 | stream and client are forgotten |
| `LocalProxies.LocalProxy.DoTakeStream` | internal/tunnel/tunnel.go:180-195 | closing one stream takes its two ends out of the tables |
| `LocalProxies.LocalProxy.DoTakeAll` | internal/tunnel/tunnel.go:197-264 | the collecting loops take out everything that was tracked |
| `LocalProxies.RunKeepsInv` | internal/tunnel/tunnel.go:691-770 | what every interleaving of connection scripts and close calls keeps |
| `LocalProxies.StreamsWithinClients` | internal/tunnel/tunnel.go:266-281 | every tracked stream's client is tracked, and there are never more streams than clients |
| `LocalProxies.CloseLeavesNothingOpen` | internal/tunnel/tunnel.go:197-227 | once `Close` is done, every tracked client and every handed-over remote stream is closed |
| `LocalProxies.FinishedLeavesNothing` | internal/tunnel/tunnel.go:691-770 | once all scripts have finished everything is closed and the tables are empty |
| `LocalProxies.ClosedIff` | internal/tunnel/tunnel.go:197-227 | a proxy is closed exactly when `Close` was called |
| `LocalProxies.CloseConnectionsLeavesOpen` | internal/tunnel/tunnel.go:243-264 | `CloseConnections` hands out everything for closing and leaves the proxy open: the next connection is tracked |
| `LocalProxies.CloseRefusesLater` | internal/tunnel/tunnel.go:142-150 | after `Close` the next connection is closed at once |
| `LocalProxies.CloseStreamTakesOne` | internal/tunnel/tunnel.go:180-195 | `CloseStream` takes one stream with its client, and no other |
| `LocalProxies.StreamIsTracked` | internal/tunnel/tunnel.go:158-171 | a stream handed over while the proxy is open is tracked with its client |
| `LocalProxies.ScriptLeaves` | internal/tunnel/tunnel.go:173-178 | a script that ends takes its own stream and connection out of the tables and leaves all others |
| `TrustedPeers.AddedDistinct` | internal/config/config.go:380-445 | adding keeps entries pairwise different machines |
| `TrustedPeers.DistinctIff` | internal/config/config.go:395-406 | entries are different machines exactly when no non-empty node ID, machine ID or TPM root stands in two of them |
| `TrustedPeers.NotTransitive` | internal/config/config.go:395-406 | being the same machine is not transitive |
| `TrustedPeers.AddedOnce` | internal/config/config.go:380-445 | a non-empty added node ID has exactly one entry |
| `TrustedPeers.AddedKeepsCount` | internal/config/config.go:380-445 | an addition gives no node a second entry |
| `TrustedPeers.LookupAdded` | internal/config/config.go:485-492 | what is found for it is the merged entry |
| `TrustedPeers.MergeTimes` | internal/config/config.go:408-434 | the entry merged into gets the earlier AddedAt of the two, if both are there, and the later LastConnectedAt |
| `TrustedPeers.MergedFields` | internal/config/config.go:408-434 | what is new in a peer replaces what was stored, what is missing leaves it |
| `TrustedPeers.NewPeerIsAppended` | internal/config/config.go:380-393 | a peer on a new machine is appended unchanged, but for a missing AddedAt |
| `TrustedPeers.KnownPeerIsMerged` | internal/config/config.go:380-455 | otherwise the first entry of its machine takes the new data in place, and exactly the entries that are not the same machine as the merged one stay |
| `TrustedPeers.NodeTimesKeptIff` | internal/config/config.go:380-445 | the times recorded for a node ID survive an addition if and only if the entry merged into is the node's own, or that entry or the new data is no younger (AddedAt), no staler (LastConnectedAt) |
| `TrustedPeers.NodeTimesCanMove` | internal/config/config.go:380-445 | they do not when the node comes back on a machine listed earlier |
| `TrustedPeers.RemovedIsGone` | internal/config/config.go:447-455 | removal of a node that has one entry at most leaves it untrusted and everybody else as before |
| `TrustedPeers.RemovedIsGoneIff` | internal/config/config.go:447-455 | removal leaves a node untrusted if and only if it had one entry at most |
| `TrustedPeers.RemovalCanMiss` | internal/config/config.go:447-455 | a node listed twice stays trusted |
| `TrustedPeers.ScannedIsFilter` | internal/config/config.go:436-445 | the downward scan is a filter that keeps the merged entry and the order |
| `TrustedPeers.TrustedList.RemoveDuplicates` | internal/config/config.go:436-445 | the in-place deletion with the shifting index is that scan |
| `TrustedPeers.TrustedList.AddTrustedPeer` | internal/config/config.go:380-393 | merge in place or append |
| `TrustedPeers.TrustedList.RemoveTrustedPeer` | internal/config/config.go:447-455 | the first entry goes; reports whether there was one |
| `Remotes.KeyInjective` | internal/config/config.go:331-340 | without '\|' in node ID and protocol a key belongs to one node, protocol and port, whatever other remotes contain |
| `Remotes.PipeMovesBoundary` | internal/config/config.go:331-340 | with a '\|' in a node ID two services can share a key |
| `Remotes.KeyOfOneServiceIff` | internal/config/config.go:331-340 | a key belongs to one service only, if and only if no other '\|' in it separates a trimmed ID from a canonical protocol |
| `Remotes.MergeKeepsKey` | internal/config/config.go:280-325 | merging never changes the service key of an entry |
| `Remotes.AddedEntry` | internal/config/config.go:280-325 | after an addition the service's entry is there, and others are as before |
| `Remotes.NewIsAppended` | internal/config/config.go:280-325 | a remote of a new service is appended and nothing else changes |
| `Remotes.KnownIsMerged` | internal/config/config.go:280-325 | otherwise the first entry of the service takes the new data and nothing else changes |
| `Remotes.MergedFields` | internal/config/config.go:280-325 | what is new in a remote replaces what was stored, what is missing leaves it, the node stays, and the times are the earlier AddedAt and the later LastConnectedAt |
| `Remotes.KeyPorts` | internal/config/config.go:331-358 | the parts of a key: trimmed node ID, lower-case protocol or rdp, and the port or 22, 5900 or 3389 |
| `Remotes.AddedKeysDistinct` | internal/config/config.go:280-325 | keys of non-blank entries stay pairwise distinct |
| `Remotes.AdditionsAreMonotone` | internal/config/config.go:280-325 | over any sequence of additions a key's AddedAt never rises and LastConnectedAt never falls |
| `Remotes.RemovedServiceIsGone` | internal/config/config.go:370-378 | removal leaves no non-blank entry with the key |
| `Remotes.RemoteList.AddRemote` | internal/config/config.go:280-325 | the search loop with merge in place or append |
| `Remotes.RemoteList.RemoveRemoteService` | internal/config/config.go:370-378 | the first entry with the key goes |
| `Targets.TargetIsLoopbackIff` | internal/tunnel/tunnel.go:550-558 | a granted port is dialled on the loopback address if and only if it is at most 65535 or the configured address is spelled that way |
| `Targets.IsLoopbackHostIff` | internal/tunnel/tunnel.go:581-588 | exactly which hosts are loopback hosts: without brackets and then white space around them, localhost in any capitalisation, a loopback address, or nothing |
| `Targets.ConfiguredPortIff` | internal/tunnel/tunnel.go:560-571 | exactly which port an address stands for: the one spelled after its last colon, if that is a port number, and else the fallback |
| `Targets.LoopbackIs` | internal/tunnel/tunnel.go:550-558 | the dialled addresses, spelled out |
| `Targets.LoopbackNamesPort` | internal/tunnel/tunnel.go:550-571 | the dialled address names the granted port and no other |

## Left out

- Networking: libp2p, iroh, QUIC, STUN, DHT, presence, reconnects and how a stream is opened; the model starts with a request that has arrived with a supported version and method and a resolved node ID.
- Cryptographic strength, X.509, TPM calls and key storage: signatures and MACs are symbolic.
- JSON, TOML and `net/url`: payloads are bytes or records, a URL query is an ignored suffix, Android's percent-decoding is an arbitrary function that leaves text before the first '%' alone, and an invite's backend is a field instead of a query parameter.
- The meaning of the relay bitmask: host and client index different relay lists, so only the byte is carried.
- Case folding of characters outside ASCII in `ToLower` and `EqualFold`.
- What the client does after accepting a response (storing the remote with a repaired key, launching an application).
- Reuse of until-revoked one-time links (`findActiveInvite`), renaming, listing and the override path with explicit addresses: they would add easy members only.
- `LocalProxy.SetOnClose`: a callback registered during `Close` can run twice, so only resources are modelled.
- Write deadlines and panics: a handler may stop at any step, which every run allows.
- A second clock reading inside one mutex section, except in `Sessions.SessionStore.Issue`: the section reads one time.
- Web UI, tray, IPC, logging, service installation, port scanning.
- InviteRegistry.SortByAge: the library sort is modelled by insertion; the sweep's contract admits any order of equally old invites.
- PairingLinks.AtMostOneActive: runs are sequential; ConcurrentLinks.InsertKeepsOneIff says what concurrent ones keep.
- Transcripts.ClaimsUnambiguous: fields shorter than 2^32 bytes, as Transcripts.UnambiguousUpToIff shows is needed, and windows that fit 64 bits.
- Responses.AcceptedTokensWereIssued: that nobody but the host makes signatures with its node key is an assumption about signatures, stated as a premise.
- HostSafety.RevokedUsersStayOut: AddTrustedPeer and RemoveTrustedPeer are atomic steps, although handlers call the former without a lock, so a lost update of the list is not a run of the model.
- HostSafety.ChannelsAreAuthorized: display IDs of new invites are fresh, although they have only 32 random bits; what happens otherwise is in Invites.GeneratedAgreesIff.
- HostSafety.RememberedPeerMatches: thumbprint and hex functions give texts without white space, as hex encodings do.
- Clients.LinkIsFollowed: the checks of the link's version, addresses, peer and ticket are functions of the link; with explicit addresses of another peer the client takes another path.
