/** The registry as the host keeps it: two maps that share mutable invite objects
    (internal/pairing/pairing.go).  Each method does to the maps and objects what its
    counterpart in Invites does to values. */
module InviteRegistry {
  import opened Text
  import opened Transcripts
  import opened Identities
  import opened Invites
  import TrustedPeers

  class InviteObject {
    var data: Invite

    constructor (inv: Invite)
      ensures data == inv
    {
      data := inv;
    }
  }

  // --- ordering by age ---

  datatype Aged = Aged(id: string, t: int)

  ghost predicate Oldest(s: seq<Aged>) {
    forall i, j :: 0 <= i < j < |s| ==> s[i].t <= s[j].t
  }

  ghost predicate NoRepeats(s: seq<Aged>) {
    forall i, j :: 0 <= i < j < |s| ==> s[i].id != s[j].id
  }

  function IDs(s: seq<Aged>): set<string> {
    set a | a in s :: a.id
  }

  function Entries(s: seq<Aged>): set<Aged> {
    set a | a in s
  }

  lemma SameIDs(s: seq<Aged>, r: seq<Aged>)
    requires Entries(s) == Entries(r)
    ensures IDs(s) == IDs(r)
  {
    assert forall a :: a in s ==> a in Entries(r);
    assert forall a :: a in r ==> a in Entries(s);
  }

  /** The same entries, oldest first; equally old ones in either order. */
  ghost predicate Reordered(s: seq<Aged>, r: seq<Aged>) {
    Oldest(r) && NoRepeats(r) && |r| == |s| && Entries(r) == Entries(s)
  }

  function Inserted(s: seq<Aged>, a: Aged): seq<Aged> {
    if s == [] || a.t < s[0].t then [a] + s else [s[0]] + Inserted(s[1..], a)
  }

  lemma {:induction false} InsertedMembers(s: seq<Aged>, a: Aged)
    ensures |Inserted(s, a)| == |s| + 1
    ensures forall b :: b in Inserted(s, a) <==> b == a || b in s
  {
    if s != [] && a.t >= s[0].t {
      InsertedMembers(s[1..], a);
      assert s == [s[0]] + s[1..];
    }
  }

  lemma {:induction false} InsertedKeeps(s: seq<Aged>, a: Aged)
    requires Oldest(s) && NoRepeats(s) && a.id !in IDs(s)
    ensures Oldest(Inserted(s, a)) && NoRepeats(Inserted(s, a))
  {
    if s == [] || a.t < s[0].t {
      FrontYounger(s, a);
    } else {
      var rest := s[1..];
      assert forall b :: b in rest ==> b in s;
      InsertedKeeps(rest, a);
      InsertedMembers(rest, a);
      assert s[0].id != a.id;
      Prepended(s[0], Inserted(rest, a));
    }
  }

  lemma FrontYounger(s: seq<Aged>, a: Aged)
    requires Oldest(s) && NoRepeats(s) && a.id !in IDs(s) && (s == [] || a.t < s[0].t)
    ensures Oldest([a] + s) && NoRepeats([a] + s)
  {
    Prepended(a, s);
  }

  lemma InsertedEntries(s: seq<Aged>, a: Aged)
    ensures Entries(Inserted(s, a)) == Entries(s) + {a}
  {
    InsertedMembers(s, a);
  }

  lemma Prepended(x: Aged, r: seq<Aged>)
    requires Oldest(r) && NoRepeats(r) && forall b :: b in r ==> x.t <= b.t && x.id != b.id
    ensures Oldest([x] + r) && NoRepeats([x] + r)
  {
  }

  method SortByAge(items: seq<Aged>) returns (r: seq<Aged>)
    requires NoRepeats(items)
    ensures Reordered(items, r)
  {
    r := [];
    for i := 0 to |items|
      invariant Reordered(items[..i], r)
    {
      SameIDs(items[..i], r);
      InsertedKeeps(r, items[i]);
      InsertedMembers(r, items[i]);
      InsertedEntries(r, items[i]);
      r := Inserted(r, items[i]);
      assert items[..i + 1] == items[..i] + [items[i]];
      assert Entries(items[..i + 1]) == Entries(items[..i]) + {items[i]};
    }
    assert items[..|items|] == items;
  }

  lemma {:induction false} CountIDs(s: seq<Aged>)
    requires NoRepeats(s)
    ensures |IDs(s)| == |s|
  {
    if s != [] {
      CountIDs(s[1..]);
      assert IDs(s) == {s[0].id} + IDs(s[1..]);
      assert s[0].id !in IDs(s[1..]);
    }
  }

  // --- removing entries one by one ---

  lemma WithoutMore<H>(reg: Invites.Registry<H>, ds: set<string>, d: string)
    requires WellFormed(reg) && d in reg.invites
    ensures Without(reg, ds + {d}) ==
      reg.(invites := Without(reg, ds).invites - {d},
           byInviteID := Without(reg, ds).byInviteID - {reg.objects[reg.invites[d]].inviteID})
  {
  }

  lemma WithoutAbsent<H>(reg: Invites.Registry<H>, ds: set<string>, d: string)
    requires WellFormed(reg) && d !in Without(reg, ds).invites
    ensures Without(reg, ds + {d}) == Without(reg, ds)
  {
    assert (set e | e in ds + {d} && e in reg.invites :: reg.objects[reg.invites[e]].inviteID)
        == (set e | e in ds && e in reg.invites :: reg.objects[reg.invites[e]].inviteID);
  }

  lemma WithoutNone<H>(reg: Invites.Registry<H>)
    requires WellFormed(reg)
    ensures Without(reg, {}) == reg
  {
    assert reg.invites - {} == reg.invites && reg.byInviteID - {} == reg.byInviteID;
  }

  class InviteTable {
    var invites: map<string, InviteObject>
    var byInviteID: map<Bytes, InviteObject>
    /** Every invite ever generated; handlers keep references to removed ones. */
    ghost var all: set<InviteObject>

    ghost predicate Valid()
      reads this
    {
      && (forall d :: d in invites ==> invites[d] in all)
      && (forall k :: k in byInviteID ==> byInviteID[k] in all)
    }

    ghost function View(): Invites.Registry<InviteObject>
      reads this, all
    {
      Invites.Registry(map o | o in all :: o.data, invites, byInviteID)
    }

    constructor ()
      ensures Valid() && View() == Invites.Registry(map[], map[], map[])
    {
      invites, byInviteID, all := map[], map[], {};
    }

    /** The locked section of generateURL. */
    method Generate(inv: Invite) returns (o: InviteObject)
      requires Valid()
      modifies this
      ensures Valid() && fresh(o) && View() == Generated(old(View()), o, inv)
    {
      o := new InviteObject(inv);
      all := all + {o};
      invites := invites[inv.id := o];
      byInviteID := byInviteID[inv.inviteID := o];
    }

    /** findActivePairingInvite: map order decides among several. */
    method FindActivePairing(backend: string, now: int) returns (found: Option<string>)
      requires Valid()
      ensures found.Some? ==>
        && found.value in invites
        && var inv := invites[found.value].data;
           inv.mode == "pairing" && inv.url != "" && inv.backend == backend && !inv.revoked
           && (inv.expiresAt == TrustedPeers.ZERO_TIME || now < inv.expiresAt)
      ensures found.None? ==> forall d :: d in invites ==> !ReusableLink(invites[d].data, backend, now)
    {
      var left := invites.Keys;
      while left != {}
        invariant left <= invites.Keys
        invariant forall d :: d in invites && d !in left ==> !ReusableLink(invites[d].data, backend, now)
        decreases left
      {
        var d :| d in left;
        left := left - {d};
        if ReusableLink(invites[d].data, backend, now) {
          ReusableIff(invites[d].data, backend, now);
          return Some(d);
        }
      }
      found := None;
    }

    /** Delete one entry from both maps. */
    method Drop(d: string)
      requires Valid() && d in invites
      modifies this`invites, this`byInviteID
      ensures Valid() && invites == old(invites) - {d}
      ensures byInviteID == old(byInviteID) - {old(invites[d].data.inviteID)}
    {
      byInviteID := byInviteID - {invites[d].data.inviteID};
      invites := invites - {d};
    }

    method DeletePending(backend: string, now: int) returns (deleted: nat)
      requires Valid()
      modifies this`invites, this`byInviteID
      ensures Valid() && WellFormed(old(View())) && View() == DeletedPending(old(View()), backend, now)
      ensures deleted == |OutdatedIDs(old(View()), backend, now)|
    {
      ghost var r := View();
      ghost var gone: set<string> := {};
      deleted := 0;
      var left := invites.Keys;
      WithoutNone(r);
      while left != {}
        invariant Valid() && left <= invites.Keys
        invariant gone == (set d | d in r.invites && d !in left && Outdated(r.objects[r.invites[d]], backend, now))
        invariant invites == Without(r, gone).invites && byInviteID == Without(r, gone).byInviteID && deleted == |gone|
        decreases left
      {
        var d :| d in left;
        left := left - {d};
        var inv := invites[d].data;
        if inv.mode == "pairing" && !inv.used && !inv.revoked && Active(inv, now) && inv.backend != backend {
          WithoutMore(r, gone, d);
          Drop(d);
          gone := gone + {d};
          deleted := deleted + 1;
        }
      }
      assert gone == OutdatedIDs(r, backend, now);
    }

    /** RevokeInvite, up to the trust cleanup, for which it reports the invite. */
    method Revoke(id: string) returns (revoked: Option<InviteObject>)
      requires Valid()
      modifies this`invites, this`byInviteID
      ensures Valid() && WellFormed(old(View())) && View() == Revoked(old(View()), id)
      ensures revoked == if id in old(invites) then Some(old(invites)[id]) else None
    {
      ghost var r := View();
      WithoutNone(r);
      if id !in invites {
        WithoutAbsent(r, {}, id);
        assert {} + {id} == {id};
        return None;
      }
      WithoutMore(r, {}, id);
      assert {} + {id} == {id};
      revoked := Some(invites[id]);
      Drop(id);
    }

    /** validInviteProofLocked: every offset is tried, none ends the loop. */
    method ValidProof(
        inv: Invite, proof: Bytes, host: string, client: string, mode: string, now: int) returns (valid: bool)
      ensures valid == ValidInviteProof(inv, proof, host, client, mode, now)
    {
      valid := false;
      var w := TimeWindow(now);
      for offset := -1 to 2
        invariant valid <==>
          || (offset > -1 && proof == InviteProof(inv.secret, inv.inviteID, host, client, mode, w - 1))
          || (offset > 0 && proof == InviteProof(inv.secret, inv.inviteID, host, client, mode, w))
          || (offset > 1 && proof == InviteProof(inv.secret, inv.inviteID, host, client, mode, w + 1))
      {
        var expected := InviteProof(inv.secret, inv.inviteID, host, client, mode, w + offset);
        if proof == expected {
          valid := true;
        }
      }
    }

    method VerifyAndConsume(host: string, inviteID: Bytes, proof: Bytes, client: string, mode: string, now: int)
      returns (outcome: Outcome<InviteObject>)
      requires Valid()
      modifies this`byInviteID, all
      ensures Valid() && WellFormed(old(View()))
      ensures (View(), outcome) == Invites.VerifyAndConsume(old(View()), host, inviteID, proof, client, mode, now)
    {
      ghost var r := View();
      if |inviteID| != INVITE_ID_SIZE { return Rejected(BadInviteID); }
      if |proof| != PROOF_SIZE { return Rejected(BadProofLength); }
      if inviteID !in byInviteID { return Rejected(UnknownInvite); }
      var o := byInviteID[inviteID];
      var inv := o.data;
      if inv.inviteID != inviteID { return Rejected(InviteIDMismatch); }
      if inv.revoked { return Rejected(RevokedInvite); }
      if inv.mode == "onetime" && inv.used { return Rejected(AlreadyUsed); }
      if inv.mode != "pairing" && PastExpiry(inv, now) {
        byInviteID := byInviteID - {inv.inviteID};
        assert View() == r.(byInviteID := r.byInviteID - {inviteID});
        return Rejected(ExpiredInvite);
      }
      if mode != inv.mode { return Rejected(ModeMismatch); }
      var valid := ValidProof(inv, proof, host, client, mode, now);
      if !valid { return Rejected(BadProof); }
      MarkUsed(o, now);
      outcome := Accepted(o);
    }

    method MarkUsed(o: InviteObject, now: int)
      requires Valid() && o in all
      modifies o
      ensures var inv := old(o.data);
        var marked := inv.(used := inv.used || inv.mode == "onetime", usedAt := now);
        View() == old(View()).(objects := old(View()).objects[o := marked])
    {
      if o.data.mode == "onetime" {
        o.data := o.data.(used := true);
      }
      o.data := o.data.(usedAt := now);
    }

    /** The handler notes the user through the reference it got. */
    method RecordUse(o: InviteObject, labelText: string, peerID: string, now: int)
      requires Valid() && o in all
      modifies o
      ensures View() == UseRecorded(old(View()), o, labelText, peerID, now)
    {
      o.data := o.data.(usedBy := labelText, usedByID := peerID, usedAt := now);
    }

    /** The body of sweepLoop. */
    method Sweep(now: int) returns (ghost gone: set<string>)
      requires Valid()
      modifies this`invites, this`byInviteID
      ensures Valid() && WellFormed(old(View()))
      ensures OldestSurplus(IndexSwept(old(View()), now), gone)
      ensures View() == Without(IndexSwept(old(View()), now), gone)
    {
      SweepIndex(now);
      gone := Trim();
    }

    method SweepIndex(now: int)
      requires Valid()
      modifies this`byInviteID
      ensures Valid() && WellFormed(old(View())) && View() == IndexSwept(old(View()), now)
    {
      ghost var r := View();
      ghost var ks: set<Bytes> := {};
      assert r.byInviteID - {} == r.byInviteID;
      var left := invites.Keys;
      while left != {}
        invariant Valid() && left <= invites.Keys
        invariant ks
          == (set d | d in r.invites && d !in left
            && PastExpiry(r.objects[r.invites[d]], now) :: r.objects[r.invites[d]].inviteID)
        invariant byInviteID == r.byInviteID - ks
        decreases left
      {
        var d :| d in left;
        left := left - {d};
        var inv := invites[d].data;
        if PastExpiry(inv, now) {
          assert (r.byInviteID - ks) - {inv.inviteID} == r.byInviteID - (ks + {inv.inviteID});
          byInviteID := byInviteID - {inv.inviteID};
          ks := ks + {inv.inviteID};
        }
      }
    }

    /** Collect every entry with its age. */
    method Collect() returns (items: seq<Aged>)
      requires Valid()
      ensures NoRepeats(items) && IDs(items) == invites.Keys
      ensures WellFormed(View()) && AgesOf(View(), items)
    {
      items := [];
      var left := invites.Keys;
      while left != {}
        invariant left <= invites.Keys && NoRepeats(items) && IDs(items) == invites.Keys - left
        invariant forall i :: 0 <= i < |items| ==>
          items[i].id in invites && items[i].t == invites[items[i].id].data.createdAt
        decreases left
      {
        var d :| d in left;
        left := left - {d};
        ghost var before := items;
        assert forall a :: a in before ==> a.id in IDs(before);
        items := items + [Aged(d, invites[d].data.createdAt)];
        assert IDs(items) == IDs(before) + {d};
      }
    }

    method Trim() returns (ghost gone: set<string>)
      requires Valid()
      modifies this`invites, this`byInviteID
      ensures Valid() && WellFormed(old(View()))
      ensures OldestSurplus(old(View()), gone) && View() == Without(old(View()), gone)
    {
      ghost var r := View();
      if |invites| > MAX_STORED {
        var oldest := OldestItems();
        DropAll(oldest);
        gone := IDs(oldest);
      } else {
        gone := {};
        WithoutNone(r);
        NoSurplus(r);
      }
    }

    method AllByAge() returns (sorted: seq<Aged>)
      requires Valid()
      ensures WellFormed(View()) && ByAge(View(), sorted) && |sorted| == |invites|
    {
      var items := Collect();
      sorted := SortByAge(items);
      SameIDs(items, sorted);
      ReorderedAges(View(), items, sorted);
      AllCounted(View(), sorted);
    }

    method OldestItems() returns (oldest: seq<Aged>)
      requires Valid() && |invites| > MAX_STORED
      ensures WellFormed(View()) && OldestSurplus(View(), IDs(oldest))
    {
      var sorted := AllByAge();
      var n := |sorted| - MAX_STORED;
      Surplus(View(), sorted, n);
      oldest := sorted[..n];
    }

    method DropAll(items: seq<Aged>)
      requires Valid()
      modifies this`invites, this`byInviteID
      ensures Valid() && WellFormed(old(View())) && View() == Without(old(View()), IDs(items))
    {
      ghost var r := View();
      WithoutNone(r);
      for k := 0 to |items|
        invariant Valid()
        invariant invites == Without(r, IDs(items[..k])).invites && byInviteID == Without(r, IDs(items[..k])).byInviteID
      {
        var d := items[k].id;
        assert IDs(items[..k + 1]) == IDs(items[..k]) + {d} by { assert items[..k + 1] == items[..k] + [items[k]]; }
        if d in invites {
          WithoutMore(r, IDs(items[..k]), d);
          Drop(d);
        } else {
          WithoutAbsent(r, IDs(items[..k]), d);
        }
      }
      assert items[..|items|] == items;
    }
  }

  lemma NoSurplus<H>(r: Invites.Registry<H>)
    requires WellFormed(r) && |r.invites| <= MAX_STORED
    ensures OldestSurplus(r, {})
  {
    assert r.invites.Keys - {} == r.invites.Keys;
  }

  /** The list names entries of the table with their true ages. */
  ghost predicate AgesOf<H>(r: Invites.Registry<H>, s: seq<Aged>)
    requires WellFormed(r)
  {
    forall i :: 0 <= i < |s| ==> s[i].id in r.invites && s[i].t == CreatedAt(r, s[i].id)
  }

  lemma ReorderedAges<H>(r: Invites.Registry<H>, items: seq<Aged>, sorted: seq<Aged>)
    requires WellFormed(r) && AgesOf(r, items) && Entries(items) == Entries(sorted)
    ensures AgesOf(r, sorted)
  {
    forall i | 0 <= i < |sorted| ensures sorted[i].id in r.invites && sorted[i].t == CreatedAt(r, sorted[i].id) {
      assert sorted[i] in Entries(sorted);
      assert sorted[i] in items;
    }
  }

  /** Every entry of the table once, oldest first. */
  ghost predicate ByAge<H>(r: Invites.Registry<H>, sorted: seq<Aged>)
    requires WellFormed(r)
  {
    Oldest(sorted) && NoRepeats(sorted) && IDs(sorted) == r.invites.Keys && AgesOf(r, sorted)
  }

  lemma AllCounted<H>(r: Invites.Registry<H>, sorted: seq<Aged>)
    requires NoRepeats(sorted) && IDs(sorted) == r.invites.Keys
    ensures |sorted| == |r.invites|
  {
    CountIDs(sorted);
  }

  /** The entries such a list gives up first are the oldest. */
  lemma Surplus<H>(r: Invites.Registry<H>, sorted: seq<Aged>, n: nat)
    requires WellFormed(r) && ByAge(r, sorted) && |sorted| == |r.invites| == MAX_STORED + n
    ensures OldestSurplus(r, IDs(sorted[..n]))
  {
    SurplusSize(r.invites.Keys, sorted, n);
    forall g, k | g in IDs(sorted[..n]) && k in r.invites && k !in IDs(sorted[..n])
      ensures CreatedAt(r, g) <= CreatedAt(r, k)
    {
      YoungerKept(r, sorted, n, g, k);
    }
  }

  lemma SurplusSize(keys: set<string>, sorted: seq<Aged>, n: nat)
    requires NoRepeats(sorted) && IDs(sorted) == keys && n <= |sorted|
    ensures |keys| == |sorted| && IDs(sorted[..n]) <= keys && |keys - IDs(sorted[..n])| == |sorted| - n
  {
    CountIDs(sorted);
    CountIDs(sorted[..n]);
    assert IDs(sorted[..n]) <= keys;
  }

  lemma YoungerKept<H>(r: Invites.Registry<H>, sorted: seq<Aged>, n: nat, g: string, k: string)
    requires WellFormed(r) && Oldest(sorted) && n <= |sorted| && AgesOf(r, sorted)
    requires g in IDs(sorted[..n]) && k in IDs(sorted) && k !in IDs(sorted[..n])
    ensures g in r.invites && k in r.invites && CreatedAt(r, g) <= CreatedAt(r, k)
  {
    PrefixIDs(sorted, n);
    var i :| 0 <= i < n && sorted[i].id == g;
    var j :| 0 <= j < |sorted| && sorted[j].id == k;
  }

  lemma PrefixIDs(s: seq<Aged>, n: nat)
    requires n <= |s|
    ensures forall i :: 0 <= i < n ==> s[i].id in IDs(s[..n])
    ensures forall d :: d in IDs(s[..n]) ==> exists i :: 0 <= i < n && s[i].id == d
  {
    forall i | 0 <= i < n ensures s[i].id in IDs(s[..n]) {
      assert s[i] in s[..n];
    }
  }
}
