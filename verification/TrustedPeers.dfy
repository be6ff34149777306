/** The host's trusted-peer list (internal/config/config.go): merge by machine, then delete
    duplicates in place. */
module TrustedPeers {
  import opened Text

  /** The zero time.Time; every other time is a number of nanoseconds. */
  const ZERO_TIME := -62135596800_000_000_000

  datatype TrustedPeer = TrustedPeer(
    nodeID: string, labelText: string, publicKey: string, machineID: string,
    protocol: string, targetPort: int, identityBackend: string, hardwareBacked: bool,
    tpmVendor: string, tpmVersion: string, tpmRoot: string,
    addedAt: int, lastConnectedAt: int)

  predicate SameNonEmpty(x: string, y: string) { x != "" && y != "" && x == y }

  predicate SameMachine(a: TrustedPeer, b: TrustedPeer) {
    SameNonEmpty(a.nodeID, b.nodeID) || SameNonEmpty(a.machineID, b.machineID) || SameNonEmpty(a.tpmRoot, b.tpmRoot)
  }

  function Or(x: string, y: string): string { if x != "" then x else y }

  function Merge(dst: TrustedPeer, src: TrustedPeer): TrustedPeer {
    TrustedPeer(
      Or(src.nodeID, dst.nodeID), Or(src.labelText, dst.labelText), Or(src.publicKey, dst.publicKey),
      Or(src.machineID, dst.machineID), Or(src.protocol, dst.protocol),
      if src.targetPort > 0 then src.targetPort else dst.targetPort,
      Or(src.identityBackend, dst.identityBackend),
      src.hardwareBacked || (src.identityBackend == "" && dst.hardwareBacked),
      Or(src.tpmVendor, dst.tpmVendor), Or(src.tpmVersion, dst.tpmVersion), Or(src.tpmRoot, dst.tpmRoot),
      Earlier(dst.addedAt, src.addedAt),
      if src.lastConnectedAt > dst.lastConnectedAt then src.lastConnectedAt else dst.lastConnectedAt)
  }

  /** Of two AddedAt times the earlier one, where the zero time stands for none. */
  function Earlier(dst: int, src: int): int {
    if dst == ZERO_TIME || (src != ZERO_TIME && src < dst) then src else dst
  }

  /** The first entry that is the same machine as p, or |list|. */
  function FirstSame(list: seq<TrustedPeer>, p: TrustedPeer): (i: nat)
    ensures i <= |list|
    ensures i < |list| ==> SameMachine(list[i], p)
    ensures forall j :: 0 <= j < i ==> !SameMachine(list[j], p)
  {
    if list == [] || SameMachine(list[0], p) then 0 else 1 + FirstSame(list[1..], p)
  }

  /** The entries that are not the same machine as m, in their order. */
  function Others(list: seq<TrustedPeer>, m: TrustedPeer): seq<TrustedPeer> {
    if list == [] then []
    else if SameMachine(m, list[0]) then Others(list[1..], m)
    else [list[0]] + Others(list[1..], m)
  }

  function Stamped(p: TrustedPeer, now: int): TrustedPeer {
    if p.addedAt == ZERO_TIME then p.(addedAt := now) else p
  }

  /** What AddTrustedPeer leaves: the merged entry stays in place, its duplicates go. */
  function Added(list: seq<TrustedPeer>, peer: TrustedPeer, now: int): seq<TrustedPeer> {
    var p := Stamped(peer, now);
    var i := FirstSame(list, p);
    if i == |list| then list + [p]
    else
      var m := Merge(list[i], p);
      Others(list[..i], m) + [m] + Others(list[i + 1..], m)
  }

  /** The entry with this node ID that TrustedPeer looks up. */
  function Lookup(list: seq<TrustedPeer>, nodeID: string): Option<TrustedPeer> {
    if list == [] then None else if list[0].nodeID == nodeID then Some(list[0]) else Lookup(list[1..], nodeID)
  }

  /** RemoveTrustedPeer: the first entry with the node ID goes. */
  function Removed(list: seq<TrustedPeer>, nodeID: string): seq<TrustedPeer> {
    RemoveFirst(list, HasNode(nodeID))
  }

  function HasNode(nodeID: string): TrustedPeer -> bool { (p: TrustedPeer) => p.nodeID == nodeID }

  function Count(list: seq<TrustedPeer>, nodeID: string): nat {
    if list == [] then 0 else (if list[0].nodeID == nodeID then 1 else 0) + Count(list[1..], nodeID)
  }

  /** No two entries are the same machine. */
  ghost predicate Distinct(list: seq<TrustedPeer>) {
    forall i, j :: 0 <= i < j < |list| ==> !SameMachine(list[i], list[j])
  }

  // --- the filter ---

  lemma {:induction false} OthersOf(list: seq<TrustedPeer>, m: TrustedPeer)
    ensures forall q :: q in Others(list, m) ==> q in list && !SameMachine(m, q)
    ensures Distinct(list) ==> Distinct(Others(list, m))
    ensures forall q :: q in list && !SameMachine(m, q) ==> q in Others(list, m)
  {
    if list != [] {
      OthersOf(list[1..], m);
      var rest := Others(list[1..], m);
      if Distinct(list) && !SameMachine(m, list[0]) {
        DistinctConcat([list[0]], rest);
      }
    }
  }

  lemma DistinctConcat(x: seq<TrustedPeer>, y: seq<TrustedPeer>)
    requires Distinct(x) && Distinct(y) && forall p, q :: p in x && q in y ==> !SameMachine(p, q)
    ensures Distinct(x + y)
  {
  }

  lemma DistinctParts(list: seq<TrustedPeer>, i: nat)
    requires Distinct(list) && i < |list|
    ensures Distinct(list[..i]) && Distinct(list[i + 1..])
    ensures forall p, q :: p in list[..i] && q in list[i + 1..] ==> !SameMachine(p, q)
  {
  }

  /** AddTrustedPeer keeps entries pairwise different machines, although being the same
      machine is not transitive. */
  lemma AddedDistinct(list: seq<TrustedPeer>, peer: TrustedPeer, now: int)
    requires Distinct(list)
    ensures Distinct(Added(list, peer, now))
  {
    var p := Stamped(peer, now);
    var i := FirstSame(list, p);
    if i < |list| {
      var m := Merge(list[i], p);
      var x, y := Others(list[..i], m), Others(list[i + 1..], m);
      DistinctParts(list, i);
      OthersOf(list[..i], m);
      OthersOf(list[i + 1..], m);
      DistinctConcat(x, [m]);
      DistinctConcat(x + [m], y);
    }
  }

  lemma NotTransitive(a: TrustedPeer)
    ensures var x := a.(nodeID := "n1", machineID := "", tpmRoot := "");
            var y := a.(nodeID := "n1", machineID := "m2", tpmRoot := "");
            var z := a.(nodeID := "n3", machineID := "m2", tpmRoot := "");
      SameMachine(x, y) && SameMachine(y, z) && !SameMachine(x, z)
  {
  }

  // --- one entry per node ---

  lemma {:induction false} CountConcat(x: seq<TrustedPeer>, y: seq<TrustedPeer>, id: string)
    ensures Count(x + y, id) == Count(x, id) + Count(y, id)
  {
    if x == [] {
      assert x + y == y;
    } else {
      CountConcat(x[1..], y, id);
      assert (x + y)[1..] == x[1..] + y;
    }
  }

  lemma {:induction false} CountZero(list: seq<TrustedPeer>, id: string)
    requires forall q :: q in list ==> q.nodeID != id
    ensures Count(list, id) == 0
  {
    if list != [] { CountZero(list[1..], id); }
  }

  lemma OthersAreOtherNodes(list: seq<TrustedPeer>, m: TrustedPeer)
    requires m.nodeID != ""
    ensures forall q :: q in Others(list, m) ==> q.nodeID != m.nodeID
  {
    OthersOf(list, m);
  }

  /** What is new in a peer replaces what was stored, what is missing leaves it. */
  lemma MergedFields(d: TrustedPeer, r: TrustedPeer)
    ensures var m := Merge(d, r);
      && Takes(m.nodeID, d.nodeID, r.nodeID) && Takes(m.labelText, d.labelText, r.labelText)
      && Takes(m.publicKey, d.publicKey, r.publicKey) && Takes(m.machineID, d.machineID, r.machineID)
      && Takes(m.protocol, d.protocol, r.protocol) && Takes(m.identityBackend, d.identityBackend, r.identityBackend)
      && Takes(m.tpmVendor, d.tpmVendor, r.tpmVendor) && Takes(m.tpmVersion, d.tpmVersion, r.tpmVersion)
      && Takes(m.tpmRoot, d.tpmRoot, r.tpmRoot)
      && (r.targetPort > 0 ==> m.targetPort == r.targetPort) && (r.targetPort <= 0 ==> m.targetPort == d.targetPort)
      && (r.identityBackend != "" ==> m.hardwareBacked == r.hardwareBacked)
      && (r.identityBackend == "" ==> (m.hardwareBacked <==> d.hardwareBacked || r.hardwareBacked))
  {
  }

  /** The merged text m is the new one, or the old one where the new one is empty. */
  predicate Takes(m: string, before: string, added: string) {
    (added != "" ==> m == added) && (added == "" ==> m == before)
  }

  /** A peer on a new machine is appended with its own AddedAt, or the present time if it has none. */
  lemma NewPeerIsAppended(list: seq<TrustedPeer>, peer: TrustedPeer, now: int)
    requires forall q :: q in list ==> !SameMachine(q, peer)
    ensures Added(list, peer, now) ==
      list + [peer.(addedAt := if peer.addedAt == ZERO_TIME then now else peer.addedAt)]
  {
    var p := Stamped(peer, now);
    var i := FirstSame(list, p);
    assert i < |list| ==> list[i] in list && SameMachine(list[i], peer);
  }

  /** Otherwise the first entry of the same machine takes the new data in its place, and of the
      others those stay that are not the same machine as the merged one. */
  lemma KnownPeerIsMerged(list: seq<TrustedPeer>, peer: TrustedPeer, now: int, i: nat)
    requires i < |list| && SameMachine(list[i], peer) && forall k :: 0 <= k < i ==> !SameMachine(list[k], peer)
    ensures var m := Merge(list[i], peer.(addedAt := if peer.addedAt == ZERO_TIME then now else peer.addedAt));
      && (exists x, y :: Added(list, peer, now) == x + [m] + y)
      && forall q :: q in Added(list, peer, now) <==> q == m || (q in list[..i] + list[i + 1..] && !SameMachine(m, q))
  {
    var p := Stamped(peer, now);
    var j := FirstSame(list, p);
    assert SameMachine(list[i], p) && j == i;
    var m := Merge(list[i], p);
    var x, y := Others(list[..i], m), Others(list[i + 1..], m);
    assert Added(list, peer, now) == x + [m] + y;
    OthersAround(list[..i], m, list[i + 1..]);
  }

  lemma OthersAround(x: seq<TrustedPeer>, m: TrustedPeer, y: seq<TrustedPeer>)
    ensures forall q :: q in Others(x, m) + [m] + Others(y, m) <==> q == m || (q in x + y && !SameMachine(m, q))
  {
    OthersOf(x, m);
    OthersOf(y, m);
  }

  /** Exactly when no two entries are the same machine: no node ID, no machine ID and no TPM root
      certificate stands in two of them. */
  lemma DistinctIff(list: seq<TrustedPeer>)
    ensures Distinct(list) <==> forall i, j :: 0 <= i < j < |list| ==>
      && (list[i].nodeID == list[j].nodeID ==> list[i].nodeID == "")
      && (list[i].machineID == list[j].machineID ==> list[i].machineID == "")
      && (list[i].tpmRoot == list[j].tpmRoot ==> list[i].tpmRoot == "")
  {
  }

  /** Whatever the list was, a non-empty node ID that has just been added has exactly one entry. */
  lemma AddedOnce(list: seq<TrustedPeer>, peer: TrustedPeer, now: int)
    requires peer.nodeID != ""
    ensures Count(Added(list, peer, now), peer.nodeID) == 1
  {
    var p := Stamped(peer, now);
    var i := FirstSame(list, p);
    if i == |list| {
      CountAround(list, p, [], p.nodeID);
      assert list + [p] + [] == list + [p];
    } else {
      var m := Merge(list[i], p);
      OthersAreOtherNodes(list[..i], m);
      OthersAreOtherNodes(list[i + 1..], m);
      CountAround(Others(list[..i], m), m, Others(list[i + 1..], m), m.nodeID);
    }
  }

  lemma CountAround(x: seq<TrustedPeer>, m: TrustedPeer, y: seq<TrustedPeer>, id: string)
    requires m.nodeID == id && (forall q :: q in x ==> q.nodeID != id) && (forall q :: q in y ==> q.nodeID != id)
    ensures Count(x + [m] + y, id) == 1
  {
    CountZero(x, id);
    CountZero(y, id);
    CountConcat(x, [m], id);
    CountConcat(x + [m], y, id);
  }

  /** The time t is the earlier one of two, or the one of them that is there. */
  predicate EarlierOf(t: int, x: int, y: int) {
    && t in {x, y}
    && (x != ZERO_TIME || y != ZERO_TIME ==> t != ZERO_TIME)
    && (x != ZERO_TIME && y != ZERO_TIME ==> t <= x && t <= y)
  }

  /** The entry merged into never gets a later AddedAt (unless it had none) nor an earlier
      LastConnectedAt, and it takes the newest of the two connection times. */
  lemma MergeTimes(dst: TrustedPeer, src: TrustedPeer)
    ensures dst.addedAt != ZERO_TIME ==> Merge(dst, src).addedAt <= dst.addedAt
    ensures Merge(dst, src).lastConnectedAt >= dst.lastConnectedAt
    ensures Merge(dst, src).lastConnectedAt >= src.lastConnectedAt
    ensures Merge(dst, src).lastConnectedAt in {dst.lastConnectedAt, src.lastConnectedAt}
    ensures EarlierOf(Merge(dst, src).addedAt, dst.addedAt, src.addedAt)
  {
  }

  lemma {:induction false} LookupConcat(x: seq<TrustedPeer>, y: seq<TrustedPeer>, id: string)
    requires forall q :: q in x ==> q.nodeID != id
    ensures Lookup(x + y, id) == Lookup(y, id)
  {
    if x == [] {
      assert x + y == y;
    } else {
      LookupConcat(x[1..], y, id);
      assert (x + y)[1..] == x[1..] + y;
    }
  }

  /** What the host later finds for the node is that entry. */
  lemma LookupAdded(list: seq<TrustedPeer>, peer: TrustedPeer, now: int)
    requires peer.nodeID != ""
    ensures var p := Stamped(peer, now); var i := FirstSame(list, p);
      Lookup(Added(list, peer, now), peer.nodeID) == Some(if i == |list| then p else Merge(list[i], p))
  {
    var p := Stamped(peer, now);
    var i := FirstSame(list, p);
    if i == |list| {
      LookupAppended(list, p);
    } else {
      LookupMerged(list[..i], Merge(list[i], p), list[i + 1..]);
    }
  }

  lemma LookupAppended(list: seq<TrustedPeer>, p: TrustedPeer)
    requires p.nodeID != "" && forall j :: 0 <= j < |list| ==> !SameMachine(list[j], p)
    ensures Lookup(list + [p], p.nodeID) == Some(p)
  {
    LookupConcat(list, [p], p.nodeID);
  }

  lemma LookupMerged(x: seq<TrustedPeer>, m: TrustedPeer, y: seq<TrustedPeer>)
    requires m.nodeID != ""
    ensures Lookup(Others(x, m) + [m] + Others(y, m), m.nodeID) == Some(m)
  {
    OthersAreOtherNodes(x, m);
    LookupAround(Others(x, m), m, Others(y, m));
  }

  lemma LookupAround(x: seq<TrustedPeer>, m: TrustedPeer, y: seq<TrustedPeer>)
    requires forall q :: q in x ==> q.nodeID != m.nodeID
    ensures Lookup(x + [m] + y, m.nodeID) == Some(m)
  {
    Assoc(x, [m], y);
    LookupConcat(x, [m] + y, m.nodeID);
  }

  /** The times recorded for a node ID survive an addition exactly when the entry the addition
      merges into is the node's own, or it or the new data is no younger (for AddedAt) and no
      staler (for LastConnectedAt) than the node's own. */
  lemma NodeTimesKeptIff(list: seq<TrustedPeer>, peer: TrustedPeer, now: int, j: nat)
    requires peer.nodeID != "" && j < |list| && list[j].nodeID == peer.nodeID && list[j].addedAt != ZERO_TIME
    requires now != ZERO_TIME
    ensures var p := Stamped(peer, now); var i := FirstSame(list, p);
      var found := Lookup(Added(list, peer, now), peer.nodeID);
      i < |list| && found.Some?
      && (found.value.addedAt <= list[j].addedAt <==>
            || i == j || p.addedAt <= list[j].addedAt
            || (list[i].addedAt != ZERO_TIME && list[i].addedAt <= list[j].addedAt))
      && (found.value.lastConnectedAt >= list[j].lastConnectedAt <==>
            i == j || list[i].lastConnectedAt >= list[j].lastConnectedAt
              || p.lastConnectedAt >= list[j].lastConnectedAt)
  {
    LookupAdded(list, peer, now);
  }

  /** They do not always survive: a node that comes back on a machine listed earlier loses the
      older of its two dates, because its own entry is deleted as a duplicate unmerged. */
  lemma NodeTimesCanMove(e: TrustedPeer)
    ensures
      var machine := e.(nodeID := "old-node", machineID := "m", tpmRoot := "", addedAt := 20, lastConnectedAt := 20);
      var node := e.(nodeID := "n", machineID := "other", tpmRoot := "", addedAt := 10, lastConnectedAt := 30);
      var peer := e.(nodeID := "n", machineID := "m", tpmRoot := "", addedAt := 25, lastConnectedAt := 25);
      Distinct([machine, node])
      && Lookup([machine, node], "n") == Some(node)
      && Lookup(Added([machine, node], peer, 25), "n").Some?
      && Lookup(Added([machine, node], peer, 25), "n").value.addedAt == 20
      && Lookup(Added([machine, node], peer, 25), "n").value.lastConnectedAt == 25
  {
    var machine := e.(nodeID := "old-node", machineID := "m", tpmRoot := "", addedAt := 20, lastConnectedAt := 20);
    var node := e.(nodeID := "n", machineID := "other", tpmRoot := "", addedAt := 10, lastConnectedAt := 30);
    var peer := e.(nodeID := "n", machineID := "m", tpmRoot := "", addedAt := 25, lastConnectedAt := 25);
    assert SameMachine(machine, peer);
    assert FirstSame([machine, node], peer) == 0;
    LookupAdded([machine, node], peer, 25);
    assert Lookup([machine, node][1..], "n") == Some(node);
  }

  // --- removal ---

  lemma RemovedDistinct(list: seq<TrustedPeer>, id: string)
    requires Distinct(list)
    ensures Distinct(Removed(list, id))
  {
    var i := RemoveFirstAt(list, HasNode(id));
    if i < |list| {
      assert Removed(list, id) == list[..i] + list[i + 1..];
      DistinctParts(list, i);
      DistinctConcat(list[..i], list[i + 1..]);
    }
  }

  lemma {:induction false} LookupIsCount(list: seq<TrustedPeer>, id: string)
    ensures Lookup(list, id) == None <==> Count(list, id) == 0
    ensures Lookup(list, id) == None <==> forall q :: q in list ==> q.nodeID != id
  {
    if list != [] { LookupIsCount(list[1..], id); }
  }

  lemma {:induction false} RemovedCount(list: seq<TrustedPeer>, id: string)
    ensures Count(Removed(list, id), id) == if Count(list, id) == 0 then 0 else Count(list, id) - 1
  {
    if list != [] && list[0].nodeID != id {
      RemovedCount(list[1..], id);
      assert Removed(list, id)[1..] == Removed(list[1..], id);
    }
  }

  /** Exactly when removing a node ID leaves the node untrusted: only one entry goes. */
  lemma RemovedIsGoneIff(list: seq<TrustedPeer>, id: string)
    ensures Lookup(Removed(list, id), id) == None <==> Count(list, id) <= 1
  {
    RemovedCount(list, id);
    LookupIsCount(Removed(list, id), id);
  }

  /** A node that is listed twice stays trusted. */
  lemma RemovalCanMiss(e: TrustedPeer)
    ensures Lookup(Removed([e, e], e.nodeID), e.nodeID) == Some(e)
  {
    assert [e, e][1..] == [e];
  }

  /** Removing a node that has one entry at most leaves everybody else as before. */
  lemma {:induction false} RemovedIsGone(list: seq<TrustedPeer>, id: string)
    requires Count(list, id) <= 1
    ensures Lookup(Removed(list, id), id) == None
    ensures forall q :: q in Removed(list, id) <==> q in list && q.nodeID != id
  {
    RemovedIsGoneIff(list, id);
    if list != [] {
      assert list == [list[0]] + list[1..];
      if list[0].nodeID == id {
        LookupIsCount(list[1..], id);
      } else {
        RemovedIsGone(list[1..], id);
      }
    }
  }

  // --- at most one entry per node ---

  lemma DistinctCount(list: seq<TrustedPeer>, id: string)
    requires Distinct(list) && id != ""
    ensures Count(list, id) <= 1
  {
    RemovedDistinct(list, id);
    var i := RemoveFirstAt(list, HasNode(id));
    if i < |list| {
      assert forall j :: i < j < |list| ==> list[j].nodeID != id;
      assert Removed(list, id) == list[..i] + list[i + 1..];
    }
    CountZero(Removed(list, id), id);
    RemovedCount(list, id);
  }

  lemma {:induction false} OthersCount(list: seq<TrustedPeer>, m: TrustedPeer, id: string)
    ensures Count(Others(list, m), id) <= Count(list, id)
  {
    if list != [] {
      OthersCount(list[1..], m, id);
      if !SameMachine(m, list[0]) {
        assert Others(list, m)[1..] == Others(list[1..], m);
      }
    }
  }

  lemma CountThree(x: seq<TrustedPeer>, m: TrustedPeer, y: seq<TrustedPeer>, id: string)
    ensures Count(x + [m] + y, id) == Count(x, id) + (if m.nodeID == id then 1 else 0) + Count(y, id)
  {
    CountConcat(x, [m], id);
    CountConcat(x + [m], y, id);
    assert [m][1..] == [];
  }

  /** AddTrustedPeer gives no node a second entry. */
  lemma AddedKeepsCount(list: seq<TrustedPeer>, peer: TrustedPeer, now: int, id: string)
    requires Count(list, id) <= 1 && id != ""
    ensures Count(Added(list, peer, now), id) <= 1
  {
    var p := Stamped(peer, now);
    var i := FirstSame(list, p);
    if peer.nodeID == id {
      AddedOnce(list, peer, now);
    } else if i == |list| {
      CountThree(list, p, [], id);
      assert list + [p] + [] == list + [p];
    } else {
      var m := Merge(list[i], p);
      CountThree(list[..i], list[i], list[i + 1..], id);
      assert list[..i] + [list[i]] + list[i + 1..] == list;
      CountThree(Others(list[..i], m), m, Others(list[i + 1..], m), id);
      OthersCount(list[..i], m, id);
      OthersCount(list[i + 1..], m, id);
    }
  }

  /** Adding another node leaves of this node's entries what they were. */
  lemma AddedElsewhere(list: seq<TrustedPeer>, peer: TrustedPeer, now: int, id: string)
    requires peer.nodeID != "" && peer.nodeID != id
    ensures forall q :: q in Added(list, peer, now) && q.nodeID == id ==> q in list
  {
    var p := Stamped(peer, now);
    var i := FirstSame(list, p);
    if i < |list| {
      var m := Merge(list[i], p);
      OthersOf(list[..i], m);
      OthersOf(list[i + 1..], m);
    }
  }

  /** The one entry of a node is the one that is found. */
  lemma {:induction false} OnlyEntry(list: seq<TrustedPeer>, id: string, q: TrustedPeer)
    requires Count(list, id) <= 1 && q in list && q.nodeID == id
    ensures Lookup(list, id) == Some(q)
  {
    if list[0].nodeID == id {
      LookupIsCount(list[1..], id);
      assert list == [list[0]] + list[1..];
    } else {
      OnlyEntry(list[1..], id, q);
    }
  }

  lemma RemovedKeepsCount(list: seq<TrustedPeer>, other: string, id: string)
    ensures Count(Removed(list, other), id) <= Count(list, id)
  {
    var i := RemoveFirstAt(list, HasNode(other));
    if i < |list| {
      CountThree(list[..i], list[i], list[i + 1..], id);
      assert list[..i] + [list[i]] + list[i + 1..] == list;
      CountConcat(list[..i], list[i + 1..], id);
    }
  }

  // --- the list itself ---

  /** What the downward scan has kept of list[i..] when entry k is the one to keep. */
  function Scanned(list: seq<TrustedPeer>, i: nat, k: nat): seq<TrustedPeer>
    requires i <= |list| && k < |list|
    decreases |list| - i
  {
    if i == |list| then []
    else if i != k && SameMachine(list[k], list[i]) then Scanned(list, i + 1, k)
    else [list[i]] + Scanned(list, i + 1, k)
  }

  lemma {:induction false} ScannedIsFilter(list: seq<TrustedPeer>, i: nat, k: nat)
    requires i <= |list| && k < |list|
    ensures Scanned(list, i, k) ==
      if i <= k then Others(list[i..k], list[k]) + [list[k]] + Others(list[k + 1..], list[k])
      else Others(list[i..], list[k])
    decreases |list| - i
  {
    if i < |list| {
      ScannedIsFilter(list, i + 1, k);
      if i < k {
        assert list[i..k] == [list[i]] + list[i + 1..k];
        Assoc([list[i]], Others(list[i + 1..k], list[k]), [list[k]]);
        Assoc([list[i]], Others(list[i + 1..k], list[k]) + [list[k]], Others(list[k + 1..], list[k]));
      } else if i == k {
        assert list[i..k] == [];
      } else {
        assert list[i..][1..] == list[i + 1..];
      }
    }
  }

  class TrustedList {
    var trusted: seq<TrustedPeer>

    constructor (entries: seq<TrustedPeer>)
      ensures trusted == entries
    {
      trusted := entries;
    }

    /** removeDuplicateTrustedPeers: keep moves down as entries before it disappear. */
    method RemoveDuplicates(kept: nat)
      requires kept < |trusted|
      modifies this
      ensures trusted == Scanned(old(trusted), 0, kept)
    {
      var keep := kept;
      var i := |trusted| - 1;
      ghost var list := trusted;
      while i >= 0
        invariant -1 <= i < |list|
        invariant trusted == list[..i + 1] + Scanned(list, i + 1, kept)
        invariant 0 <= keep < |trusted| && trusted[keep] == list[kept]
        invariant if i >= kept then keep == kept else keep > i
      {
        assert trusted[i] == list[i];
        assert list[..i + 1] == list[..i] + [list[i]];
        if i != keep && SameMachine(trusted[keep], trusted[i]) {
          assert trusted[..i] + trusted[i + 1..] == list[..i] + Scanned(list, i + 1, kept);
          trusted := trusted[..i] + trusted[i + 1..];
          if i < keep {
            keep := keep - 1;
          }
        } else {
          Assoc(list[..i], [list[i]], Scanned(list, i + 1, kept));
        }
        i := i - 1;
      }
    }

    method AddTrustedPeer(peer: TrustedPeer, now: int)
      modifies this
      ensures trusted == Added(old(trusted), peer, now)
    {
      var p := Stamped(peer, now);
      ghost var list := trusted;
      for i := 0 to |trusted|
        invariant trusted == list && i <= FirstSame(list, p)
      {
        if SameMachine(trusted[i], p) {
          trusted := trusted[i := Merge(trusted[i], p)];
          RemoveDuplicates(i);
          ScannedIsFilter(list[i := Merge(list[i], p)], 0, i);
          assert list[i := Merge(list[i], p)][0..i] == list[..i];
          assert list[i := Merge(list[i], p)][i + 1..] == list[i + 1..];
          return;
        }
      }
      trusted := trusted + [p];
    }

    method RemoveTrustedPeer(nodeID: string) returns (found: bool)
      modifies this
      ensures trusted == Removed(old(trusted), nodeID)
      ensures found <==> exists q :: q in old(trusted) && q.nodeID == nodeID
    {
      for i := 0 to |trusted|
        invariant trusted == old(trusted)
        invariant forall k :: 0 <= k < i ==> trusted[k].nodeID != nodeID
      {
        if trusted[i].nodeID == nodeID {
          RemoveFirstIs(trusted, HasNode(nodeID), i);
          assert trusted[i] in old(trusted);
          trusted := trusted[..i] + trusted[i + 1..];
          return true;
        }
      }
      RemoveFirstIs(trusted, HasNode(nodeID), |trusted|);
      found := false;
    }
  }
}
