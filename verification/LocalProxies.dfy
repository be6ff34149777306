/** The client-side proxy (LocalProxy and the per-connection script of connectStream in
    internal/tunnel/tunnel.go).  A step is one lock section or one close; runs interleave the
    scripts of all connections with CloseStream, CloseConnections and Close. */
module LocalProxies {
  import opened Text

  /** Accepted client connections, remote streams and stream IDs. */
  type Client = nat
  type Remote = nat
  type StreamID = nat

  datatype ProxyStream = ProxyStream(client: Client, remote: Remote)
  datatype Tables = Tables(conns: set<Client>, streams: map<StreamID, ProxyStream>, closed: bool)

  function Remotes(streams: map<StreamID, ProxyStream>): set<Remote> {
    set k | k in streams :: streams[k].remote
  }

  // --- the lock sections ---

  /** track: true when the proxy was closed, and so the connection too. */
  function Track(t: Tables, c: Client): (Tables, bool) {
    if t.closed then (t, true) else (t.(conns := t.conns + {c}), false)
  }

  function TrackStream(t: Tables, id: StreamID, c: Client, r: Remote): (Tables, bool) {
    if t.closed then (t, true)
    else (t.(conns := t.conns + {c}, streams := t.streams[id := ProxyStream(c, r)]), false)
  }

  function UntrackStream(t: Tables, id: StreamID, c: Client): Tables {
    t.(streams := t.streams - {id}, conns := t.conns - {c})
  }

  /** CloseStream: forget the stream; both its ends are still to be closed. */
  function TakeStream(t: Tables, id: StreamID): (Tables, set<Client>, set<Remote>) {
    if id in t.streams then
      (t.(streams := t.streams - {id}, conns := t.conns - {t.streams[id].client}),
       {t.streams[id].client}, {t.streams[id].remote})
    else (t, {}, {})
  }

  /** Close and CloseConnections: forget everything; all of it is still to be closed. */
  function TakeAll(t: Tables, closing: bool): (Tables, set<Client>, set<Remote>) {
    (Tables({}, map[], t.closed || closing), t.conns, Remotes(t.streams))
  }

  class LocalProxy {
    var conns: set<Client>
    var streams: map<StreamID, ProxyStream>
    var closed: bool

    function View(): Tables
      reads this
    {
      Tables(conns, streams, closed)
    }

    constructor ()
      ensures View() == Tables({}, map[], false)
    {
      conns, streams, closed := {}, map[], false;
    }

    method DoTrack(c: Client) returns (refused: bool)
      modifies this
      ensures (View(), refused) == Track(old(View()), c)
    {
      if closed {
        return true;
      }
      conns := conns + {c};
      refused := false;
    }

    method DoTrackStream(id: StreamID, c: Client, r: Remote) returns (refused: bool)
      modifies this
      ensures (View(), refused) == TrackStream(old(View()), id, c, r)
    {
      if closed {
        return true;
      }
      conns := conns + {c};
      streams := streams[id := ProxyStream(c, r)];
      refused := false;
    }

    method DoUntrackStream(id: StreamID, c: Client)
      modifies this
      ensures View() == UntrackStream(old(View()), id, c)
    {
      streams := streams - {id};
      conns := conns - {c};
    }

    method DoTakeStream(id: StreamID) returns (clients: set<Client>, remotes: set<Remote>)
      modifies this
      ensures (View(), clients, remotes) == TakeStream(old(View()), id)
    {
      clients, remotes := {}, {};
      if id in streams {
        var stream := streams[id];
        streams := streams - {id};
        conns := conns - {stream.client};
        clients, remotes := {stream.client}, {stream.remote};
      }
    }

    /** The collecting loops of Close (closing) and CloseConnections (not closing). */
    method DoTakeAll(closing: bool) returns (clients: set<Client>, remotes: set<Remote>)
      modifies this
      ensures (View(), clients, remotes) == TakeAll(old(View()), closing)
    {
      if closing {
        closed := true;
      }
      clients := {};
      var left := conns;
      while left != {}
        invariant clients + left == conns && View() == old(View()).(closed := old(closed) || closing)
        decreases left
      {
        var c :| c in left;
        left := left - {c};
        clients := clients + {c};
      }
      remotes := {};
      var ids := streams.Keys;
      while ids != {}
        invariant ids <= streams.Keys && View() == old(View()).(closed := old(closed) || closing)
        invariant remotes == set k | k in streams && k !in ids :: streams[k].remote
        decreases ids
      {
        var k :| k in ids;
        assert remotes + {streams[k].remote} == set j | j in streams && j !in ids - {k} :: streams[j].remote;
        ids := ids - {k};
        remotes := remotes + {streams[k].remote};
      }
      assert clients == old(conns) && remotes == Remotes(old(streams));
      conns, streams := {}, map[];
    }
  }

  // --- the scripts ---

  /** Where the goroutine of one accepted connection stands. */
  datatype Phase =
    | Accepted
    | Opening
    | Opened(remote: Remote, id: StreamID)
    | Bridging(remote: Remote, id: StreamID)
    | BridgeFailed(remote: Remote, id: StreamID)
    | BridgeOver(remote: Remote, id: StreamID)
    | Leaving
    | Finished

  /** toClose* are what CloseStream, CloseConnections and Close still have to close. */
  datatype State = State(
    tables: Tables, scripts: map<Client, Phase>, usedRemotes: set<Remote>, usedIDs: set<StreamID>,
    closedClients: set<Client>, closedRemotes: set<Remote>,
    toCloseClients: set<Client>, toCloseRemotes: set<Remote>)

  datatype Step =
    | Accept(c: Client)
    | TrackIt(c: Client)
    | OpenFails(c: Client)
    | OpenWorks(c: Client, r: Remote, id: StreamID)
    | TrackItsStream(c: Client)
    | BridgeReturns(c: Client, failed: bool)
    | CloseItsStream(c: Client)
    | UntrackItsStream(c: Client)
    | UntrackIt(c: Client)
    | CloseStreamCall(id: StreamID)
    | CloseConnectionsCall
    | CloseCall
    | CloseOneClient(c: Client)
    | CloseOneRemote(r: Remote)

  function Init(): State {
    State(Tables({}, map[], false), map[], {}, {}, {}, {}, {}, {})
  }

  function Goto(s: State, c: Client, p: Phase): State { s.(scripts := s.scripts[c := p]) }

  function At(s: State, c: Client): Phase { if c in s.scripts then s.scripts[c] else Finished }

  function Owe(s: State, r: (Tables, set<Client>, set<Remote>)): State {
    s.(tables := r.0, toCloseClients := s.toCloseClients + r.1, toCloseRemotes := s.toCloseRemotes + r.2)
  }

  function Next(s: State, step: Step): Option<State> {
    match step
    case Accept(c) =>
      if c !in s.scripts then Some(Goto(s, c, Accepted)) else None
    case TrackIt(c) =>
      if At(s, c) != Accepted then None
      else
        var (t, refused) := Track(s.tables, c);
        Some(Goto(s, c, Opening).(tables := t,
          closedClients := if refused then s.closedClients + {c} else s.closedClients))
    case OpenFails(c) =>
      if At(s, c) != Opening then None
      else Some(Goto(s, c, Leaving).(closedClients := s.closedClients + {c}))
    case OpenWorks(c, r, id) =>
      if At(s, c) == Opening && r !in s.usedRemotes && id !in s.usedIDs then
        Some(Goto(s, c, Opened(r, id)).(usedRemotes := s.usedRemotes + {r}, usedIDs := s.usedIDs + {id}))
      else None
    case TrackItsStream(c) =>
      var p := At(s, c);
      if !p.Opened? then None
      else
        var (t, refused) := TrackStream(s.tables, p.id, c, p.remote);
        if refused then
          Some(Goto(s, c, Leaving).(closedClients := s.closedClients + {c},
            closedRemotes := s.closedRemotes + {p.remote}))
        else Some(Goto(s, c, Bridging(p.remote, p.id)).(tables := t))
    case BridgeReturns(c, failed) =>
      // bridgeLogged has closed both ends when it returns
      var p := At(s, c);
      if !p.Bridging? then None
      else
        Some(Goto(s, c, if failed then BridgeFailed(p.remote, p.id) else BridgeOver(p.remote, p.id))
          .(closedClients := s.closedClients + {c}, closedRemotes := s.closedRemotes + {p.remote}))
    case CloseItsStream(c) =>
      var p := At(s, c);
      if !p.BridgeFailed? then None
      else Some(Owe(Goto(s, c, BridgeOver(p.remote, p.id)), TakeStream(s.tables, p.id)))
    case UntrackItsStream(c) =>
      var p := At(s, c);
      if !p.BridgeOver? then None
      else Some(Goto(s, c, Leaving).(tables := UntrackStream(s.tables, p.id, c)))
    case UntrackIt(c) =>
      if At(s, c) != Leaving then None
      else Some(Goto(s, c, Finished).(tables := s.tables.(conns := s.tables.conns - {c})))
    case CloseStreamCall(id) => Some(Owe(s, TakeStream(s.tables, id)))
    case CloseConnectionsCall => Some(Owe(s, TakeAll(s.tables, false)))
    case CloseCall => if s.tables.closed then Some(s) else Some(Owe(s, TakeAll(s.tables, true)))
    case CloseOneClient(c) =>
      if c in s.toCloseClients then
        Some(s.(toCloseClients := s.toCloseClients - {c}, closedClients := s.closedClients + {c}))
      else None
    case CloseOneRemote(r) =>
      if r in s.toCloseRemotes then
        Some(s.(toCloseRemotes := s.toCloseRemotes - {r}, closedRemotes := s.closedRemotes + {r}))
      else None
  }

  function Run(steps: seq<Step>): Option<State> {
    if steps == [] then Some(Init())
    else
      match Run(steps[..|steps| - 1])
      case None => None
      case Some(s) => Next(s, steps[|steps| - 1])
  }

  // --- what every step keeps ---

  predicate HasStream(p: Phase) { p.Bridging? || p.BridgeFailed? || p.BridgeOver? }

  /** Every tracked stream belongs to a running script, and its client is tracked. */
  ghost predicate StreamsOk(s: State) {
    forall id :: id in s.tables.streams ==>
      var st := s.tables.streams[id];
      st.client in s.tables.conns && HasStream(At(s, st.client))
      && At(s, st.client).id == id && At(s, st.client).remote == st.remote
  }

  ghost predicate ConnsOk(s: State) {
    forall c :: c in s.tables.conns ==> c in s.scripts && s.scripts[c] != Accepted && s.scripts[c] != Finished
  }

  ghost predicate ClosedOk(s: State) {
    s.tables.closed ==> s.tables.conns == {} && s.tables.streams == map[]
  }

  predicate AfterBridge(p: Phase) { p.BridgeFailed? || p.BridgeOver? }

  /** No tracked client is forgotten before it is closed. */
  ghost predicate ClientsOk(s: State) {
    forall c :: c in s.scripts && s.scripts[c] != Accepted ==>
      && (c in s.closedClients || c in s.tables.conns || c in s.toCloseClients)
      && (AfterBridge(s.scripts[c]) || s.scripts[c].Leaving? || s.scripts[c].Finished? ==> c in s.closedClients)
  }

  predicate HasOpened(p: Phase) { p.Opened? || HasStream(p) }

  /** Remote streams and stream IDs in use belong to one script each. */
  ghost predicate OwnersOk(s: State) {
    && (forall c :: c in s.scripts && HasOpened(s.scripts[c]) ==>
          s.scripts[c].remote in s.usedRemotes && s.scripts[c].id in s.usedIDs)
    && (forall c, d ::
          c in s.scripts && d in s.scripts && c != d && HasOpened(s.scripts[c]) && HasOpened(s.scripts[d]) ==>
          s.scripts[c].remote != s.scripts[d].remote && s.scripts[c].id != s.scripts[d].id)
  }

  ghost predicate HeldBy(s: State, r: Remote, c: Client) {
    c in s.scripts && s.scripts[c].Opened? && s.scripts[c].remote == r
  }

  ghost predicate TrackedAs(s: State, r: Remote, id: StreamID) {
    id in s.tables.streams && s.tables.streams[id].remote == r
  }

  /** No remote stream is forgotten before it is closed. */
  ghost predicate RemotesOk(s: State) {
    && (forall r :: r in s.usedRemotes ==> RemoteSafe(s, r))
    && (forall c :: c in s.scripts && AfterBridge(s.scripts[c]) ==>
          s.scripts[c].remote in s.closedRemotes)
    && (forall r :: r in s.usedRemotes ==> r in s.closedRemotes || exists c :: OpenIn(s, r, c))
  }

  /** The script of c still has r to close. */
  ghost predicate OpenIn(s: State, r: Remote, c: Client) {
    c in s.scripts && HasOpened(s.scripts[c]) && s.scripts[c].remote == r
  }

  ghost predicate Inv(s: State) {
    StreamsOk(s) && ConnsOk(s) && ClosedOk(s) && ClientsOk(s) && OwnersOk(s) && RemotesOk(s)
  }

  lemma StreamsStep(s: State, step: Step)
    requires StreamsOk(s) && ConnsOk(s) && OwnersOk(s) && Next(s, step).Some?
    ensures StreamsOk(Next(s, step).value)
  {
  }

  lemma ConnsStep(s: State, step: Step)
    requires ConnsOk(s) && ClosedOk(s) && Next(s, step).Some?
    ensures ConnsOk(Next(s, step).value) && ClosedOk(Next(s, step).value)
  {
  }

  lemma ClientsStep(s: State, step: Step)
    requires ClientsOk(s) && StreamsOk(s) && Next(s, step).Some?
    ensures ClientsOk(Next(s, step).value)
  {
  }

  lemma OwnersStep(s: State, step: Step)
    requires OwnersOk(s) && Next(s, step).Some?
    ensures OwnersOk(Next(s, step).value)
  {
  }

  ghost predicate RemoteSafe(s: State, r: Remote) {
    r in s.closedRemotes || r in s.toCloseRemotes
    || (exists c :: HeldBy(s, r, c)) || (exists id :: TrackedAs(s, r, id))
  }

  lemma HeldStep(s: State, step: Step, r: Remote, c: Client)
    requires Inv(s) && Next(s, step).Some? && HeldBy(s, r, c)
    ensures RemoteSafe(Next(s, step).value, r)
  {
    var t := Next(s, step).value;
    if step == TrackItsStream(c) {
      assert s.tables.closed || TrackedAs(t, r, s.scripts[c].id);
    } else {
      assert HeldBy(t, r, c);
    }
  }

  lemma TrackedStep(s: State, step: Step, r: Remote, id: StreamID)
    requires Inv(s) && Next(s, step).Some? && TrackedAs(s, r, id)
    ensures RemoteSafe(Next(s, step).value, r)
  {
    var t := Next(s, step).value;
    var owner := s.tables.streams[id].client;
    assert HasStream(At(s, owner));
    if step.CloseConnectionsCall? || step.CloseCall? {
      assert r in Remotes(s.tables.streams);
    } else if id in t.tables.streams {
      assert TrackedAs(t, r, id);
    } else if step.UntrackItsStream? {
      assert step.c == owner;
    }
  }

  lemma RemotesStep(s: State, step: Step)
    requires Inv(s) && Next(s, step).Some?
    ensures RemotesOk(Next(s, step).value)
  {
    var t := Next(s, step).value;
    forall r | r in t.usedRemotes ensures r in t.closedRemotes || exists c :: OpenIn(t, r, c) {
      if r !in s.usedRemotes {
        assert OpenIn(t, r, step.c);
      } else if c :| OpenIn(s, r, c) {
        assert r in t.closedRemotes || OpenIn(t, r, c);
      }
    }
    forall r | r in t.usedRemotes ensures RemoteSafe(t, r) {
      if r !in s.usedRemotes {
        assert HeldBy(t, r, step.c);
      } else if c :| HeldBy(s, r, c) {
        HeldStep(s, step, r, c);
      } else if id :| TrackedAs(s, r, id) {
        TrackedStep(s, step, r, id);
      }
    }
  }

  lemma {:induction false} RunKeepsInv(steps: seq<Step>)
    requires Run(steps).Some?
    ensures Inv(Run(steps).value)
  {
    if steps != [] {
      var front := steps[..|steps| - 1];
      RunKeepsInv(front);
      var s, step := Run(front).value, steps[|steps| - 1];
      StreamsStep(s, step);
      ConnsStep(s, step);
      ClientsStep(s, step);
      OwnersStep(s, step);
      RemotesStep(s, step);
    }
  }

  // --- the results ---

  lemma {:induction false} InjectiveImage(streams: map<StreamID, ProxyStream>, conns: set<Client>)
    requires forall id :: id in streams ==> streams[id].client in conns
    requires forall i, j :: i in streams && j in streams && i != j ==> streams[i].client != streams[j].client
    ensures |streams| <= |conns|
    decreases |streams|
  {
    if streams != map[] {
      var id :| id in streams;
      var c := streams[id].client;
      var rest := streams - {id};
      assert streams.Keys == rest.Keys + {id};
      InjectiveImage(rest, conns - {c});
    }
  }

  /** At every moment each tracked stream has its own tracked client, so ActiveStreams never
      exceeds ActiveClients. */
  lemma StreamsWithinClients(steps: seq<Step>)
    requires Run(steps).Some?
    ensures var t := Run(steps).value.tables;
      (forall id :: id in t.streams ==> t.streams[id].client in t.conns) && |t.streams| <= |t.conns|
  {
    RunKeepsInv(steps);
    var s := Run(steps).value;
    InjectiveImage(s.tables.streams, s.tables.conns);
  }

  /** Once Close has done its work nothing handed to the proxy is left open, even while
      scripts still run: every tracked client is closed, and every remote stream except those
      a script has opened but not yet handed over. */
  lemma CloseLeavesNothingOpen(steps: seq<Step>)
    requires Run(steps).Some?
    requires var s := Run(steps).value; s.tables.closed && s.toCloseClients == {} && s.toCloseRemotes == {}
    ensures var s := Run(steps).value;
      && (forall c :: c in s.scripts && s.scripts[c] != Accepted ==> c in s.closedClients)
      && (forall r :: r in s.usedRemotes ==> r in s.closedRemotes || exists c :: HeldBy(s, r, c))
  {
    RunKeepsInv(steps);
    var s := Run(steps).value;
    forall r | r in s.usedRemotes ensures r in s.closedRemotes || exists c :: HeldBy(s, r, c) {
      assert RemoteSafe(s, r);
    }
  }

  /** When all scripts have finished, everything is closed and the tables are empty, whatever
      close calls came in between. */
  lemma FinishedLeavesNothing(steps: seq<Step>)
    requires Run(steps).Some?
    requires var s := Run(steps).value; forall c :: c in s.scripts ==> s.scripts[c] == Finished
    ensures var s := Run(steps).value;
      && s.tables.conns == {} && s.tables.streams == map[]
      && (forall c :: c in s.scripts ==> c in s.closedClients)
      && s.usedRemotes <= s.closedRemotes
  {
    RunKeepsInv(steps);
    var s := Run(steps).value;
    assert s.tables.streams.Keys == {};
  }

  // --- what closing does to later connections ---

  /** CloseConnections takes out everything, all of it to be closed, and leaves the proxy open: a new
      connection is still tracked. */
  lemma CloseConnectionsLeavesOpen(s: State, c: Client)
    requires !s.tables.closed && At(s, c) == Accepted
    ensures var t := Next(s, CloseConnectionsCall).value;
      && Next(s, CloseConnectionsCall).Some?
      && !t.tables.closed && t.tables.conns == {} && t.tables.streams == map[]
      && s.tables.conns <= t.toCloseClients
      && (forall id :: id in s.tables.streams ==> s.tables.streams[id].remote in t.toCloseRemotes)
      && Next(t, TrackIt(c)).Some? && c in Next(t, TrackIt(c)).value.tables.conns
      && At(Next(t, TrackIt(c)).value, c) == Opening
  {
  }

  /** After Close a connection that comes in is closed at once and not tracked. */
  lemma CloseRefusesLater(s: State, c: Client)
    requires At(s, c) == Accepted
    ensures var t := Next(s, CloseCall).value;
      && Next(s, CloseCall).Some? && t.tables.closed
      && (!s.tables.closed ==> s.tables.conns <= t.toCloseClients)
      && (!s.tables.closed ==> forall id :: id in s.tables.streams ==> s.tables.streams[id].remote in t.toCloseRemotes)
      && Next(t, TrackIt(c)).Some?
      && c in Next(t, TrackIt(c)).value.closedClients && c !in Next(t, TrackIt(c)).value.tables.conns - t.tables.conns
  {
  }

  /** CloseStream takes out one stream with its client, both to be closed, and no other stream. */
  lemma CloseStreamTakesOne(s: State, id: StreamID, other: StreamID)
    requires id in s.tables.streams
    ensures var t := Next(s, CloseStreamCall(id)).value;
      && Next(s, CloseStreamCall(id)).Some?
      && id !in t.tables.streams && s.tables.streams[id].client in t.toCloseClients
      && s.tables.streams[id].remote in t.toCloseRemotes && s.tables.streams[id].client !in t.tables.conns
      && (t.tables.closed <==> s.tables.closed)
      && (other in s.tables.streams && other != id ==>
            other in t.tables.streams && t.tables.streams[other] == s.tables.streams[other]
            && (s.tables.streams[other].client in s.tables.conns
                && s.tables.streams[other].client != s.tables.streams[id].client ==>
                  s.tables.streams[other].client in t.tables.conns))
  {
  }

  /** A stream that a script hands over while the proxy is open is tracked with its client. */
  lemma StreamIsTracked(s: State, c: Client)
    requires At(s, c).Opened? && !s.tables.closed
    ensures var p := At(s, c);
      var t := Next(s, TrackItsStream(c)).value;
      && Next(s, TrackItsStream(c)).Some?
      && p.id in t.tables.streams && t.tables.streams[p.id] == ProxyStream(c, p.remote) && c in t.tables.conns
  {
  }

  lemma ClosedStep(s: State, step: Step)
    requires Next(s, step).Some? && s.tables.closed
    ensures Next(s, step).value.tables.closed
  {
  }

  /** A closed proxy stays closed; nothing but Close closes it. */
  lemma {:induction false} ClosedIff(steps: seq<Step>)
    requires Run(steps).Some?
    ensures Run(steps).value.tables.closed <==> CloseCall in steps
  {
    if steps != [] {
      var front, last := steps[..|steps| - 1], steps[|steps| - 1];
      ClosedIff(front);
      assert steps == front + [last];
      if Run(front).value.tables.closed { ClosedStep(Run(front).value, last); }
    }
  }

  /** A script that ends takes its own stream and its own connection out of the tables and leaves
      everything else. */
  lemma ScriptLeaves(s: State, c: Client)
    requires At(s, c).BridgeOver?
    ensures var p := At(s, c); var t := Next(s, UntrackItsStream(c)).value;
      && Next(s, UntrackItsStream(c)).Some? && At(t, c) == Leaving
      && p.id !in t.tables.streams && c !in t.tables.conns && (t.tables.closed <==> s.tables.closed)
      && (forall d :: d in s.tables.conns && d != c ==> d in t.tables.conns)
      && (forall id :: id in s.tables.streams && id != p.id ==>
            id in t.tables.streams && t.tables.streams[id] == s.tables.streams[id])
  {
  }
}
