/** Concurrent generation of pairing links (internal/pairing/pairing.go): GenerateURL holds the
    mutex three times - to delete outdated links, to look for one to reuse, and to insert the
    new one - and anything may happen in between. */
module ConcurrentLinks {
  import opened Text
  import opened Transcripts
  import opened Invites
  import opened PairingLinks
  import Runs

  /** Where a generator stands.  others are the links that other generators have inserted since
      its deletion. */
  datatype Phase = Pruned(backend: string, others: set<nat>) | Missed(backend: string, others: set<nat>) | Finished

  datatype World = World(links: State, gens: map<nat, Phase>)

  datatype Act =
    | Prune(g: nat, backend: string)
    | Find(g: nat)
    | Insert(g: nat, h: nat, inv: Invite)
    | Elsewhere(op: Op)

  function AddOther(p: Phase, h: nat): Phase {
    if p.Finished? then p else p.(others := p.others + {h})
  }

  function Inserted(s: World, g: nat, h: nat, inv: Invite): World {
    World(s.links.(reg := Generated(s.links.reg, h, inv)),
      map x | x in s.gens :: if x == g then Finished else AddOther(s.gens[x], h))
  }

  ghost predicate CanReuse(s: State, backend: string) {
    exists d :: Reusable(s.reg, s.now, backend, d)
  }

  ghost predicate Next(s: World, act: Act, t: World)
    requires WellFormed(s.links.reg)
  {
    match act
    case Prune(g, backend) =>
      && g !in s.gens
      && t == World(s.links.(reg := DeletedPending(s.links.reg, backend, s.links.now)),
        s.gens[g := Pruned(backend, {})])
    case Find(g) =>
      && g in s.gens && s.gens[g].Pruned?
      && var Pruned(backend, others) := s.gens[g];
         t == s.(gens := s.gens[g := if CanReuse(s.links, backend) then Finished else Missed(backend, others)])
    case Insert(g, h, inv) =>
      && g in s.gens && s.gens[g].Missed? && inv.backend == s.gens[g].backend
      && FreshInvite(s.links, h, inv) && inv.mode == "pairing"
      && t == Inserted(s, g, h, inv)
    case Elsewhere(op) =>
      !op.GeneratePairing? && Step(s.links, op, t.links) && t.gens == s.gens
  }

  /** Every active link is one the generator will find, or was inserted by another since. */
  ghost predicate Covers(s: State, p: Phase) {
    p.Finished? || forall d :: ActivePairing(s.reg, s.now, d) ==> CoversLink(s, p, d)
  }

  ghost predicate CoversLink(s: State, p: Phase, d: string)
    requires ActivePairing(s.reg, s.now, d) && !p.Finished?
  {
    s.reg.invites[d] in p.others || (p.Pruned? && Reusable(s.reg, s.now, p.backend, d))
  }

  ghost predicate Inv(s: World) {
    Links(s.links) && forall g :: g in s.gens ==> Covers(s.links, s.gens[g])
  }

  lemma NoneNewCovers(s: State, t: State, p: Phase)
    requires Links(t) && NoneNew(s, t) && Covers(s, p)
    ensures Covers(t, p)
  {
  }

  lemma FewerCovers(s: World, t: World)
    requires Inv(s) && Links(t.links) && NoneNew(s.links, t.links) && t.gens == s.gens
    ensures Inv(t)
  {
    forall g | g in t.gens ensures Covers(t.links, t.gens[g]) {
      NoneNewCovers(s.links, t.links, s.gens[g]);
    }
  }

  lemma InsertCovers(s: State, h: nat, inv: Invite, p: Phase)
    requires Links(s) && FreshInvite(s, h, inv) && inv.mode == "pairing" && Covers(s, p)
    ensures Covers(s.(reg := Generated(s.reg, h, inv)), AddOther(p, h))
  {
    GeneratedLinks(s, h, inv);
    var reg := Generated(s.reg, h, inv);
    if !p.Finished? {
      forall d | ActivePairing(reg, s.now, d) ensures CoversLink(s.(reg := reg), AddOther(p, h), d) {
        assert d != inv.id ==> ActivePairing(s.reg, s.now, d) && CoversLink(s, p, d);
      }
    }
  }

  lemma StepKeepsInv(s: World, act: Act, t: World)
    requires Inv(s) && Next(s, act, t)
    ensures Inv(t)
  {
    match act
    case Prune(g, backend) =>
      PrunedLinks(s.links, backend);
      FewerCovers(s, t.(gens := s.gens));
    case Find(g) =>
    case Insert(g, h, inv) =>
      GeneratedLinks(s.links, h, inv);
      forall x | x in t.gens ensures Covers(t.links, t.gens[x]) {
        InsertCovers(s.links, h, inv, s.gens[x]);
      }
    case Elsewhere(op) =>
      OtherLinks(s.links, op, t.links);
      FewerCovers(s, t);
  }

  predicate Start(s: World) { s.links.reg == Registry(map[], map[], map[]) && s.gens == map[] }

  ghost function Steps(): (World, Act, World) -> bool {
    (s: World, act: Act, t: World) => WellFormed(s.links.reg) && Next(s, act, t)
  }

  ghost predicate IsRun(states: seq<World>, acts: seq<Act>) {
    Runs.IsRun(Start, Steps(), states, acts)
  }

  lemma {:induction false} RunKeepsInv(states: seq<World>, acts: seq<Act>)
    requires IsRun(states, acts)
    ensures Inv(states[|acts|])
    decreases |acts|
  {
    if acts != [] {
      Runs.ButLast(Start, Steps(), states, acts);
      RunKeepsInv(states[..|acts|], acts[..|acts| - 1]);
      StepKeepsInv(states[|acts| - 1], acts[|acts| - 1], states[|acts|]);
    }
  }

  /** A link that another generator inserted since g's deletion is still active (and keeps its
      display ID). */
  ghost predicate Interfered(s: World, g: nat, inv: Invite)
    requires g in s.gens && !s.gens[g].Finished?
  {
    exists d :: ActivePairing(s.links.reg, s.links.now, d) && d != inv.id && s.links.reg.invites[d] in s.gens[g].others
  }

  /** Over every run, exactly when an insertion leaves one active pairing link: when none that
      another generator inserted since this one's deletion is still active. */
  lemma InsertKeepsOneIff(states: seq<World>, acts: seq<Act>)
    requires IsRun(states, acts) && acts != [] && acts[|acts| - 1].Insert?
    ensures var s, act := states[|acts| - 1], acts[|acts| - 1];
      act.g in s.gens && s.gens[act.g].Missed? && (AtMostOne(states[|acts|].links) <==> !Interfered(s, act.g, act.inv))
  {
    Runs.ButLast(Start, Steps(), states, acts);
    RunKeepsInv(states[..|acts|], acts[..|acts| - 1]);
    InsertedOneIff(states[|acts| - 1], acts[|acts| - 1], states[|acts|]);
  }

  lemma InsertedOneIff(s: World, act: Act, t: World)
    requires Inv(s) && act.Insert? && Next(s, act, t)
    ensures AtMostOne(t.links) <==> !Interfered(s, act.g, act.inv)
  {
    var reg, now := s.links.reg, s.links.now;
    GeneratedLinks(s.links, act.h, act.inv);
    assert ActivePairing(t.links.reg, now, act.inv.id);
    if Interfered(s, act.g, act.inv) {
      var d :| ActivePairing(reg, now, d) && d != act.inv.id && reg.invites[d] in s.gens[act.g].others;
      assert ActivePairing(t.links.reg, now, d);
    } else {
      forall d | ActivePairing(t.links.reg, now, d) ensures d == act.inv.id {
        assert d != act.inv.id ==> ActivePairing(reg, now, d);
      }
    }
  }

  /** Who the others are: each was inserted by another generator while this one was under way. */
  ghost predicate InsertedMeanwhile(states: seq<World>, acts: seq<Act>, n: nat, g: nat, h: nat) {
    exists k :: 0 <= k < n && k < |acts| && k < |states|
      && acts[k].Insert? && acts[k].h == h && acts[k].g != g && g in states[k].gens
  }

  lemma OthersStep(s: World, act: Act, t: World, g: nat, h: nat)
    requires WellFormed(s.links.reg) && Next(s, act, t) && g in t.gens && !t.gens[g].Finished? && h in t.gens[g].others
    ensures g in s.gens
    ensures (act.Insert? && act.h == h && act.g != g) || (!s.gens[g].Finished? && h in s.gens[g].others)
  {
  }

  lemma {:induction false} OthersWereInserted(states: seq<World>, acts: seq<Act>, n: nat, g: nat, h: nat)
    requires IsRun(states, acts) && n <= |acts|
    requires g in states[n].gens && !states[n].gens[g].Finished? && h in states[n].gens[g].others
    ensures InsertedMeanwhile(states, acts, n, g, h)
    decreases n
  {
    if n > 0 {
      assert Steps()(states[n - 1], acts[n - 1], states[n]);
      OthersStep(states[n - 1], acts[n - 1], states[n], g, h);
      if !(acts[n - 1].Insert? && acts[n - 1].h == h && acts[n - 1].g != g) {
        OthersWereInserted(states, acts, n - 1, g, h);
      }
    }
  }

  // --- two generators ---

  /** Two generators that both look before either inserts end with two active links. */
  function TwoGenerators(h1: nat, i1: Invite, h2: nat, i2: Invite): seq<Act> {
    [Prune(1, i1.backend), Prune(2, i2.backend), Find(1), Find(2), Insert(1, h1, i1), Insert(2, h2, i2)]
  }

  ghost predicate NewLink(inv: Invite, now: int) {
    inv.mode == "pairing" && !inv.used && !inv.revoked && inv.url != "" && inv.expiresAt > now
  }

  lemma PruneStep(s: World, g: nat, backend: string) returns (t: World)
    requires s.links.reg == Registry(map[], map[], map[]) && g !in s.gens
    ensures Next(s, Prune(g, backend), t) && t == s.(gens := s.gens[g := Pruned(backend, {})])
  {
    t := s.(gens := s.gens[g := Pruned(backend, {})]);
    var reg := s.links.reg;
    assert OutdatedIDs(reg, backend, s.links.now) == {};
    assert Without(reg, {}) == reg;
  }

  lemma FindStep(s: World, g: nat) returns (t: World)
    requires s.links.reg == Registry(map[], map[], map[]) && g in s.gens && s.gens[g].Pruned?
    ensures Next(s, Find(g), t) && t == s.(gens := s.gens[g := Missed(s.gens[g].backend, s.gens[g].others)])
  {
    t := s.(gens := s.gens[g := Missed(s.gens[g].backend, s.gens[g].others)]);
    assert !CanReuse(s.links, s.gens[g].backend);
  }

  lemma TwoGeneratorsTwoLinks(s: World, h1: nat, i1: Invite, h2: nat, i2: Invite) returns (states: seq<World>)
    requires Start(s) && NewLink(i1, s.links.now) && NewLink(i2, s.links.now) && h1 != h2 && i1.id != i2.id
    ensures IsRun(states, TwoGenerators(h1, i1, h2, i2))
    ensures var t := states[|states| - 1].links;
      ActivePairing(t.reg, t.now, i1.id) && ActivePairing(t.reg, t.now, i2.id) && !AtMostOne(t)
  {
    var a := PruneStep(s, 1, i1.backend);
    var b := PruneStep(a, 2, i2.backend);
    var c := FindStep(b, 1);
    var d := FindStep(c, 2);
    var e, f := InsertBoth(d, h1, i1, h2, i2);
    states := [s, a, b, c, d, e, f];
    SixSteps(states, TwoGenerators(h1, i1, h2, i2));
  }

  lemma InsertBoth(d: World, h1: nat, i1: Invite, h2: nat, i2: Invite) returns (e: World, f: World)
    requires d.links.reg == Registry(map[], map[], map[])
    requires 1 in d.gens && d.gens[1] == Missed(i1.backend, {}) && 2 in d.gens && d.gens[2] == Missed(i2.backend, {})
    requires NewLink(i1, d.links.now) && NewLink(i2, d.links.now) && h1 != h2 && i1.id != i2.id
    ensures WellFormed(e.links.reg) && Next(d, Insert(1, h1, i1), e) && Next(e, Insert(2, h2, i2), f)
    ensures ActivePairing(f.links.reg, f.links.now, i1.id) && ActivePairing(f.links.reg, f.links.now, i2.id)
  {
    e := Inserted(d, 1, h1, i1);
    f := Inserted(e, 2, h2, i2);
  }

  lemma SixSteps(states: seq<World>, acts: seq<Act>)
    requires |states| == 7 && |acts| == 6 && Start(states[0])
    requires Steps()(states[0], acts[0], states[1]) && Steps()(states[1], acts[1], states[2])
    requires Steps()(states[2], acts[2], states[3]) && Steps()(states[3], acts[3], states[4])
    requires Steps()(states[4], acts[4], states[5]) && Steps()(states[5], acts[5], states[6])
    ensures IsRun(states, acts)
  {
  }
}
