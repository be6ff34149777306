/** The client's list of paired remotes (internal/config/config.go): one entry per service,
    a service being a node, a protocol and a port joined into one key string. */
module Remotes {
  import opened Text
  import opened TrustedPeers

  datatype Remote = Remote(
    labelText: string, nodeID: string, publicKey: string, machineID: string, backend: string,
    protocol: string, targetPort: int, relayAddrs: seq<string>, irohTicket: string, quicAddrs: seq<string>,
    identityBackend: string, hardwareBacked: bool, tpmVendor: string, tpmVersion: string, tpmRoot: string,
    addedAt: int, lastConnectedAt: int)

  function Canonical(protocol: string): string {
    var p := ToLower(TrimSpace(protocol));
    if p == "" then "rdp" else p
  }

  function ProtocolDefaultPort(canonical: string): nat {
    if canonical == "ssh" then 22 else if canonical == "vnc" then 5900 else 3389
  }

  function EffectivePort(canonical: string, port: int): (p: nat)
    ensures p > 0
  {
    if port <= 0 then ProtocolDefaultPort(canonical) else port
  }

  function ServiceKeyParts(nodeID: string, protocol: string, port: int): string {
    TrimSpace(nodeID) + ("|" + (Canonical(protocol) + ("|" + Decimal(EffectivePort(Canonical(protocol), port)))))
  }

  function ServiceKey(r: Remote): string { ServiceKeyParts(r.nodeID, r.protocol, r.targetPort) }

  predicate Blank(r: Remote) { TrimSpace(r.nodeID) == "" }

  predicate SameService(a: Remote, b: Remote) {
    !Blank(a) && !Blank(b) && ServiceKey(a) == ServiceKey(b)
  }

  function MergeRemote(d: Remote, r: Remote): Remote {
    Remote(
      Or(r.labelText, d.labelText), d.nodeID, Or(r.publicKey, d.publicKey), Or(r.machineID, d.machineID),
      Or(r.backend, d.backend), Or(r.protocol, d.protocol), if r.targetPort > 0 then r.targetPort else d.targetPort,
      if r.relayAddrs != [] then r.relayAddrs else d.relayAddrs, Or(r.irohTicket, d.irohTicket),
      if r.quicAddrs != [] then r.quicAddrs else d.quicAddrs,
      Or(r.identityBackend, d.identityBackend),
      r.hardwareBacked || (r.identityBackend == "" && d.hardwareBacked),
      Or(r.tpmVendor, d.tpmVendor), Or(r.tpmVersion, d.tpmVersion), Or(r.tpmRoot, d.tpmRoot),
      Earlier(d.addedAt, r.addedAt),
      if r.lastConnectedAt > d.lastConnectedAt then r.lastConnectedAt else d.lastConnectedAt)
  }

  function FirstService(list: seq<Remote>, r: Remote): (i: nat)
    ensures i <= |list| && (i < |list| ==> SameService(list[i], r))
    ensures forall j :: 0 <= j < i ==> !SameService(list[j], r)
  {
    if list == [] || SameService(list[0], r) then 0 else 1 + FirstService(list[1..], r)
  }

  function StampedRemote(r: Remote, now: int): Remote {
    if r.addedAt == ZERO_TIME then r.(addedAt := now) else r
  }

  function AddedRemote(list: seq<Remote>, remote: Remote, now: int): seq<Remote> {
    var r := StampedRemote(remote, now);
    var i := FirstService(list, r);
    if i == |list| then list + [r] else list[i := MergeRemote(list[i], r)]
  }

  /** RemoveRemoteService: the first entry with the key goes. */
  function RemovedService(list: seq<Remote>, key: string): seq<Remote> {
    RemoveFirst(list, HasKey(key))
  }

  function HasKey(key: string): Remote -> bool { (r: Remote) => ServiceKey(r) == key }

  // --- the key determines the service ---

  ghost predicate PipeFree(r: Remote) { '|' !in r.nodeID && '|' !in r.protocol }

  lemma PipeFreeParts(r: Remote)
    requires PipeFree(r)
    ensures '|' !in TrimSpace(r.nodeID) && '|' !in Canonical(r.protocol)
  {
    TrimSubset(r.nodeID);
    TrimSubset(r.protocol);
    var p := TrimSpace(r.protocol);
    assert forall i :: 0 <= i < |p| ==> ToLower(p)[i] == Lower(p[i]);
  }

  lemma TrimSubset(s: string)
    ensures forall c :: c in TrimSpace(s) ==> c in s
  {
    TrimLeftKeeps(s, IsSpace);
    TrimRightKeeps(TrimLeft(s, IsSpace), IsSpace);
  }

  predicate SameParts(a: Remote, b: Remote) {
    && TrimSpace(a.nodeID) == TrimSpace(b.nodeID) && Canonical(a.protocol) == Canonical(b.protocol)
    && EffectivePort(Canonical(a.protocol), a.targetPort) == EffectivePort(Canonical(b.protocol), b.targetPort)
  }

  /** The node and the protocol as they stand in the key. */
  function Front(r: Remote): string { TrimSpace(r.nodeID) + ("|" + Canonical(r.protocol)) }

  lemma KeyIsFront(r: Remote)
    ensures ServiceKey(r) == Front(r) + ("|" + Decimal(EffectivePort(Canonical(r.protocol), r.targetPort)))
  {
    var n, p, d := TrimSpace(r.nodeID), Canonical(r.protocol),
      Decimal(EffectivePort(Canonical(r.protocol), r.targetPort));
    Regroup(n, p, d);
  }

  lemma Regroup(n: string, p: string, d: string)
    ensures n + ("|" + (p + ("|" + d))) == (n + ("|" + p)) + ("|" + d)
  {
  }

  /** The last '|' of the key is the one before the port. */
  lemma LastPipe(x: string, d: string, y: string, e: string)
    requires '|' !in d && '|' !in e && x + ("|" + d) == y + ("|" + e)
    ensures x == y && d == e
  {
    var s, t := x + ("|" + d), y + ("|" + e);
    assert s[|x|] == '|' && t[|y|] == '|';
    assert forall k :: |x| < k < |s| ==> s[k] == d[k - |x| - 1];
    assert forall k :: |y| < k < |t| ==> t[k] == e[k - |y| - 1];
    assert |x| == |y|;
    assert x == s[..|x|] && y == t[..|y|] && d == s[|x| + 1..] && e == t[|y| + 1..];
  }

  lemma PortHasNoPipe(n: nat)
    ensures '|' !in Decimal(n)
  {
    DecimalNumber(n);
  }

  lemma SameKey(a: Remote, b: Remote)
    ensures ServiceKey(a) == ServiceKey(b) <==>
      Front(a) == Front(b)
      && EffectivePort(Canonical(a.protocol), a.targetPort) == EffectivePort(Canonical(b.protocol), b.targetPort)
  {
    var p, q := EffectivePort(Canonical(a.protocol), a.targetPort), EffectivePort(Canonical(b.protocol), b.targetPort);
    KeyIsFront(a);
    KeyIsFront(b);
    PortHasNoPipe(p);
    PortHasNoPipe(q);
    if ServiceKey(a) == ServiceKey(b) {
      LastPipe(Front(a), Decimal(p), Front(b), Decimal(q));
      DecimalNumber(p);
      DecimalNumber(q);
    }
  }

  /** Some other '|' also stands between a trimmed node ID and a canonical protocol. */
  ghost predicate OtherCut(n: string, p: string) {
    var text := n + ("|" + p);
    exists i :: 0 <= i < |text| && i != |n| && CutsAt(text, i)
  }

  predicate CutsAt(text: string, i: nat)
    requires i < |text|
  {
    text[i] == '|' && TrimSpace(text[..i]) == text[..i] && Canonical(text[i + 1..]) == text[i + 1..]
  }

  ghost predicate KeyOfOneService(a: Remote) {
    forall b :: ServiceKey(b) == ServiceKey(a) ==> SameParts(a, b)
  }

  /** Exactly when a key belongs to one node, protocol and port only. */
  lemma KeyOfOneServiceIff(a: Remote)
    ensures KeyOfOneService(a) <==> !OtherCut(TrimSpace(a.nodeID), Canonical(a.protocol))
  {
    var n, p := TrimSpace(a.nodeID), Canonical(a.protocol);
    var text := n + ("|" + p);
    if OtherCut(n, p) {
      var i :| 0 <= i < |text| && i != |n| && CutsAt(text, i);
      CutSharesKey(a, i);
    } else {
      forall b | ServiceKey(b) == ServiceKey(a) ensures SameParts(a, b) {
        SameKey(a, b);
        OwnCut(b);
        assert |TrimSpace(b.nodeID)| == |n|;
        SameFronts(n, p, TrimSpace(b.nodeID), Canonical(b.protocol));
      }
    }
  }

  lemma SameFronts(n: string, p: string, m: string, q: string)
    requires n + ("|" + p) == m + ("|" + q) && |n| == |m|
    ensures n == m && p == q
  {
    assert n == (n + ("|" + p))[..|n|] && m == (m + ("|" + q))[..|m|];
    assert p == (n + ("|" + p))[|n| + 1..] && q == (m + ("|" + q))[|m| + 1..];
  }

  lemma OwnCut(b: Remote)
    ensures |TrimSpace(b.nodeID)| < |Front(b)| && CutsAt(Front(b), |TrimSpace(b.nodeID)|)
  {
    var n, p := TrimSpace(b.nodeID), Canonical(b.protocol);
    assert Front(b)[..|n|] == n && Front(b)[|n| + 1..] == p;
    TrimTwice(b.nodeID);
    CanonicalTwice(b.protocol);
  }

  lemma CutSharesKey(a: Remote, i: nat)
    requires i < |Front(a)| && i != |TrimSpace(a.nodeID)| && CutsAt(Front(a), i)
    ensures !KeyOfOneService(a)
  {
    var text := Front(a);
    var b := a.(nodeID := text[..i], protocol := text[i + 1..],
      targetPort := EffectivePort(Canonical(a.protocol), a.targetPort));
    assert Front(b) == text;
    SameKey(a, b);
    assert |TrimSpace(b.nodeID)| == i;
  }

  lemma CanonicalTwice(s: string)
    ensures Canonical(Canonical(s)) == Canonical(s)
  {
    TrimEnds(s);
    var c := Canonical(s);
    assert c != [] && !IsSpace(c[0]) && !IsSpace(c[|c| - 1]);
    PlainTrim(c);
    assert ToLower(c) == c;
  }

  /** Without a '|' in node ID and protocol a key belongs to one service, whatever other
      remotes contain. */
  lemma KeyInjective(a: Remote, b: Remote)
    requires PipeFree(a) && ServiceKey(a) == ServiceKey(b)
    ensures SameParts(a, b)
  {
    PipeFreeParts(a);
    KeyOfOneServiceIff(a);
    var n, p := TrimSpace(a.nodeID), Canonical(a.protocol);
    assert forall i :: 0 <= i < |n + ("|" + p)| && i != |n| ==> (n + ("|" + p))[i] != '|' by { OnePipe(n, p); }
  }

  lemma OnePipe(n: string, p: string)
    requires '|' !in n && '|' !in p
    ensures forall i :: 0 <= i < |n + ("|" + p)| && i != |n| ==> (n + ("|" + p))[i] != '|'
  {
  }

  /** With a '|' inside a node ID, two different services get the same key. */
  lemma PipeMovesBoundary(r: Remote)
    ensures var a := r.(nodeID := "a|b", protocol := "c", targetPort := 1);
            var b := r.(nodeID := "a", protocol := "b|c", targetPort := 1);
      SameService(a, b) && !SameParts(a, b)
  {
    PlainTrim("a|b");
    PlainTrim("a");
    PlainTrim("c");
    PlainTrim("b|c");
    assert ToLower("c") == "c" && ToLower("b|c") == "b|c";
    var port := "|" + Decimal(1);
    assert "a|b" + ("|" + ("c" + port)) == "a" + ("|" + ("b|c" + port));
  }

  /** Merging never changes which service an entry is. */
  lemma MergeKeepsKey(d: Remote, r: Remote)
    requires PipeFree(d) && PipeFree(r) && SameService(d, r)
    ensures ServiceKey(MergeRemote(d, r)) == ServiceKey(d) && PipeFree(MergeRemote(d, r)) && !Blank(MergeRemote(d, r))
  {
    KeyInjective(d, r);
    assert Canonical(MergeRemote(d, r).protocol) == Canonical(d.protocol);
  }

  // --- one entry per service ---

  ghost predicate AllPipeFree(list: seq<Remote>) { forall i :: 0 <= i < |list| ==> PipeFree(list[i]) }

  ghost predicate KeysDistinct(list: seq<Remote>) {
    forall i, j :: 0 <= i < j < |list| && !Blank(list[i]) && !Blank(list[j]) ==>
      ServiceKey(list[i]) != ServiceKey(list[j])
  }

  /** AddRemote keeps the entries where they are and their services what they are. */
  lemma AddedEntry(list: seq<Remote>, remote: Remote, now: int, i: nat)
    requires AllPipeFree(list) && PipeFree(remote) && i < |list|
    ensures |list| <= |AddedRemote(list, remote, now)|
    ensures var e := AddedRemote(list, remote, now)[i];
      && PipeFree(e) && ServiceKey(e) == ServiceKey(list[i]) && Blank(e) == Blank(list[i])
      && (list[i].addedAt != ZERO_TIME ==> e.addedAt != ZERO_TIME && e.addedAt <= list[i].addedAt)
      && e.lastConnectedAt >= list[i].lastConnectedAt
  {
    var r := StampedRemote(remote, now);
    var k := FirstService(list, r);
    if k < |list| { MergeKeepsKey(list[k], r); }
  }

  /** What is new in a remote replaces what was stored, what is missing leaves it; the node stays. */
  lemma MergedFields(d: Remote, r: Remote)
    ensures var m := MergeRemote(d, r);
      && m.nodeID == d.nodeID
      && Takes(m.labelText, d.labelText, r.labelText) && Takes(m.publicKey, d.publicKey, r.publicKey)
      && Takes(m.machineID, d.machineID, r.machineID) && Takes(m.backend, d.backend, r.backend)
      && Takes(m.protocol, d.protocol, r.protocol) && Takes(m.irohTicket, d.irohTicket, r.irohTicket)
      && Takes(m.identityBackend, d.identityBackend, r.identityBackend) && Takes(m.tpmVendor, d.tpmVendor, r.tpmVendor)
      && Takes(m.tpmVersion, d.tpmVersion, r.tpmVersion) && Takes(m.tpmRoot, d.tpmRoot, r.tpmRoot)
      && (r.relayAddrs != [] ==> m.relayAddrs == r.relayAddrs) && (r.relayAddrs == [] ==> m.relayAddrs == d.relayAddrs)
      && (r.quicAddrs != [] ==> m.quicAddrs == r.quicAddrs) && (r.quicAddrs == [] ==> m.quicAddrs == d.quicAddrs)
      && (r.targetPort > 0 ==> m.targetPort == r.targetPort) && (r.targetPort <= 0 ==> m.targetPort == d.targetPort)
      && (r.identityBackend != "" ==> m.hardwareBacked == r.hardwareBacked)
      && (r.identityBackend == "" ==> (m.hardwareBacked <==> d.hardwareBacked || r.hardwareBacked))
      && EarlierOf(m.addedAt, d.addedAt, r.addedAt)
      && m.lastConnectedAt in {d.lastConnectedAt, r.lastConnectedAt}
      && d.lastConnectedAt <= m.lastConnectedAt && r.lastConnectedAt <= m.lastConnectedAt
  {
  }

  /** The remote as it is stored: with the present time, if it has none. */
  lemma StampedIs(remote: Remote, now: int)
    ensures StampedRemote(remote, now)
      == remote.(addedAt := if remote.addedAt == ZERO_TIME then now else remote.addedAt)
  {
  }

  /** Both remotes have a node, and they have the same key. */
  predicate KeyShared(a: Remote, b: Remote) {
    TrimSpace(a.nodeID) != "" && TrimSpace(b.nodeID) != "" && ServiceKey(a) == ServiceKey(b)
  }

  /** A remote of a new service is appended, and nothing else changes. */
  lemma NewIsAppended(list: seq<Remote>, remote: Remote, now: int)
    requires forall k :: 0 <= k < |list| ==> !KeyShared(list[k], remote)
    ensures AddedRemote(list, remote, now) == list + [StampedRemote(remote, now)]
  {
    var r := StampedRemote(remote, now);
    var i := FirstService(list, r);
    assert i < |list| ==> KeyShared(list[i], remote);
  }

  /** Otherwise the first entry of the service takes the new data, and nothing else changes. */
  lemma KnownIsMerged(list: seq<Remote>, remote: Remote, now: int, i: nat)
    requires i < |list| && KeyShared(list[i], remote) && forall k :: 0 <= k < i ==> !KeyShared(list[k], remote)
    ensures AddedRemote(list, remote, now) == list[i := MergeRemote(list[i], StampedRemote(remote, now))]
  {
    FirstServiceAt(list, StampedRemote(remote, now), remote, i);
  }

  lemma FirstServiceAt(list: seq<Remote>, r: Remote, remote: Remote, i: nat)
    requires r == remote.(addedAt := r.addedAt)
    requires i < |list| && KeyShared(list[i], remote) && forall k :: 0 <= k < i ==> !KeyShared(list[k], remote)
    ensures FirstService(list, r) == i
  {
    var j := FirstService(list, r);
    assert SameService(list[i], r);
    assert j < |list| ==> KeyShared(list[j], remote);
  }

  /** The ports that stand for a service without one, in any spelling of its protocol. */
  lemma KeyPorts(r: Remote)
    ensures ServiceKey(r) == TrimSpace(r.nodeID) + ("|" + (Canonical(r.protocol) + ("|" + Decimal(
      if r.targetPort > 0 then r.targetPort else if Canonical(r.protocol) == "ssh" then 22
      else if Canonical(r.protocol) == "vnc" then 5900 else 3389))))
    ensures TrimSpace(r.protocol) == "" ==> Canonical(r.protocol) == "rdp"
    ensures TrimSpace(r.protocol) != "" ==> EqualFold(Canonical(r.protocol), TrimSpace(r.protocol))
  {
    var t := TrimSpace(r.protocol);
    assert forall i :: 0 <= i < |t| ==> Lower(ToLower(t)[i]) == ToLower(t)[i];
  }

  lemma AddedKeysDistinct(list: seq<Remote>, remote: Remote, now: int)
    requires AllPipeFree(list) && PipeFree(remote) && KeysDistinct(list)
    ensures KeysDistinct(AddedRemote(list, remote, now)) && AllPipeFree(AddedRemote(list, remote, now))
  {
    var out := AddedRemote(list, remote, now);
    var r := StampedRemote(remote, now);
    forall i | 0 <= i < |list|
      ensures PipeFree(out[i]) && ServiceKey(out[i]) == ServiceKey(list[i]) && Blank(out[i]) == Blank(list[i])
    {
      AddedEntry(list, remote, now, i);
    }
    assert |out| == |list| || (|out| == |list| + 1 && out[|list|] == r);
  }

  function AddAll(list: seq<Remote>, rs: seq<(Remote, int)>): seq<Remote>
    decreases |rs|
  {
    if rs == [] then list else AddedRemote(AddAll(list, rs[..|rs| - 1]), rs[|rs| - 1].0, rs[|rs| - 1].1)
  }

  /** Over any sequence of additions: services stay distinct, and for every service AddedAt
      only moves back and LastConnectedAt only forward. */
  lemma {:induction false} AdditionsAreMonotone(list: seq<Remote>, rs: seq<(Remote, int)>, i: nat)
    requires AllPipeFree(list) && KeysDistinct(list) && i < |list|
    requires forall k :: 0 <= k < |rs| ==> PipeFree(rs[k].0)
    ensures KeysDistinct(AddAll(list, rs)) && AllPipeFree(AddAll(list, rs)) && |list| <= |AddAll(list, rs)|
    ensures var e := AddAll(list, rs)[i];
      && ServiceKey(e) == ServiceKey(list[i]) && Blank(e) == Blank(list[i])
      && (list[i].addedAt != ZERO_TIME ==> e.addedAt != ZERO_TIME && e.addedAt <= list[i].addedAt)
      && e.lastConnectedAt >= list[i].lastConnectedAt
    decreases |rs|
  {
    if rs != [] {
      var front, last := rs[..|rs| - 1], rs[|rs| - 1];
      AdditionsAreMonotone(list, front, i);
      AddedEntry(AddAll(list, front), last.0, last.1, i);
      AddedKeysDistinct(AddAll(list, front), last.0, last.1);
    }
  }

  // --- removal ---

  lemma KeyStart(r: Remote)
    requires PipeFree(r)
    ensures Blank(r) <==> ServiceKey(r)[0] == '|'
  {
    PipeFreeParts(r);
    var t := TrimSpace(r.nodeID);
    assert t != [] ==> ServiceKey(r)[0] == t[0];
  }

  /** After RemoveRemoteService no non-blank entry with the key is left, and nothing else is gone. */
  lemma RemovedServiceIsGone(list: seq<Remote>, key: string)
    requires AllPipeFree(list) && KeysDistinct(list)
    ensures forall q :: q in RemovedService(list, key) && !Blank(q) ==> ServiceKey(q) != key
    ensures forall q :: q in list && ServiceKey(q) != key ==> q in RemovedService(list, key)
  {
    var i := RemoveFirstAt(list, HasKey(key));
    if i < |list| {
      forall j | i < j < |list| && !Blank(list[j]) ensures ServiceKey(list[j]) != key {
        KeyStart(list[i]);
        KeyStart(list[j]);
      }
    }
  }

  // --- the list itself ---

  class RemoteList {
    var remotes: seq<Remote>

    constructor (entries: seq<Remote>)
      ensures remotes == entries
    {
      remotes := entries;
    }

    method AddRemote(remote: Remote, now: int)
      modifies this
      ensures remotes == AddedRemote(old(remotes), remote, now)
    {
      var r := StampedRemote(remote, now);
      var i := 0;
      while i < |remotes|
        invariant i <= |remotes| && remotes == old(remotes)
        invariant forall k :: 0 <= k < i ==> !SameService(remotes[k], r)
      {
        var same := SameService(remotes[i], r);
        if same {
          FirstServiceIs(remotes, r, i);
          remotes := remotes[i := MergeRemote(remotes[i], r)];
          return;
        }
        i := i + 1;
      }
      FirstServiceIs(remotes, r, i);
      remotes := remotes + [r];
    }

    method RemoveRemoteService(key: string) returns (found: bool)
      modifies this
      ensures remotes == RemovedService(old(remotes), key)
      ensures found <==> exists q :: q in old(remotes) && ServiceKey(q) == key
    {
      var i := 0;
      while i < |remotes|
        invariant i <= |remotes| && remotes == old(remotes)
        invariant forall k :: 0 <= k < i ==> ServiceKey(remotes[k]) != key
      {
        var here := ServiceKey(remotes[i]) == key;
        if here {
          RemoveFirstIs(remotes, HasKey(key), i);
          assert remotes[i] in old(remotes);
          remotes := remotes[..i] + remotes[i + 1..];
          return true;
        }
        i := i + 1;
      }
      RemoveFirstIs(remotes, HasKey(key), i);
      found := false;
    }
  }

  lemma FirstServiceIs(list: seq<Remote>, r: Remote, i: nat)
    requires i <= |list| && (i < |list| ==> SameService(list[i], r))
    requires forall j :: 0 <= j < i ==> !SameService(list[j], r)
    ensures FirstService(list, r) == i
  {
    assert !(FirstService(list, r) < i) && !(i < FirstService(list, r));
  }
}
