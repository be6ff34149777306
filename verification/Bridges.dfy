/** The byte bridge (bridgeLogged in internal/tunnel/tunnel.go) as a step system: two copiers,
    the caller that waits for both, and one sync.Once teardown they share.  Every interleaving
    of their atomic steps is a run. */
module Bridges {
  import opened Numerals
  import opened Streams
  import opened Text
  import opened Copiers
  import CopyLoop

  /** A direction is named by the endpoint it writes to. */
  datatype Side = A | B

  datatype Endpoint = Endpoint(halfClosed: bool, closed: bool, aborted: bool)

  datatype Caller =
    | AwaitFirst | AwaitSecond(first: bool)
    | CallTeardown(failed: bool) | RunTeardown(failed: bool) | Returned(failed: bool)

  /** sync.Once: not entered, being run (closing A first), or over. */
  datatype Once = Fresh | ClosingA(abortive: bool) | ClosingB(abortive: bool) | Over(abortive: bool)

  datatype State = State(
    toA: Copier, toB: Copier, a: Endpoint, b: Endpoint,
    once: Once, teardowns: nat, done: seq<bool>, caller: Caller)

  datatype Step =
    | Copy(side: Side, move: Move)
    | Decide(side: Side)
    | EnterTeardown(side: Side)
    | SkipTeardown(side: Side)
    | CloseNext
    | LeaveTeardown(side: Side)
    | Report(side: Side)
    | Receive
    | CallerEnters
    | CallerSkips
    | CallerReturns

  const OPEN_END := Endpoint(false, false, false)

  function Init(): State {
    State(IDLE_COPIER, IDLE_COPIER, OPEN_END, OPEN_END, Fresh, 0, [], AwaitFirst)
  }

  function Get(s: State, side: Side): Copier { if side == A then s.toA else s.toB }

  function Put(s: State, side: Side, c: Copier): State {
    if side == A then s.(toA := c) else s.(toB := c)
  }

  function Phase(s: State, side: Side, p: CopierPhase): State {
    Put(s, side, Get(s, side).(phase := p))
  }

  function HalfClose(s: State, side: Side): State {
    if side == A then s.(a := s.a.(halfClosed := true)) else s.(b := s.b.(halfClosed := true))
  }

  function CloseEnd(e: Endpoint, abortive: bool): Endpoint {
    e.(closed := true, aborted := e.aborted || abortive)
  }

  /** What one atomic step does; None when the step is not enabled. */
  function Next(s: State, step: Step): Option<State> {
    match step
    case Copy(side, move) =>
      (match AfterMove(Get(s, side), move)
       case None => None
       case Some(c) => Some(Put(s, side, c)))
    case Decide(side) =>
      var c := Get(s, side);
      if !c.phase.Ended? then None
      else if CopyLoop.Failed(c.phase.err) then Some(Phase(s, side, WantTeardown))
      else Some(Phase(HalfClose(s, side), side, Reporting(false)))
    case EnterTeardown(side) =>
      if Get(s, side).phase == WantTeardown && s.once == Fresh then
        Some(Phase(s, side, InTeardown).(once := ClosingA(true), teardowns := s.teardowns + 1))
      else None
    case SkipTeardown(side) =>
      if Get(s, side).phase == WantTeardown && s.once.Over? then Some(Phase(s, side, Reporting(true))) else None
    case CloseNext =>
      (match s.once
       case ClosingA(abortive) => Some(s.(a := CloseEnd(s.a, abortive), once := ClosingB(abortive)))
       case ClosingB(abortive) => Some(s.(b := CloseEnd(s.b, abortive), once := Over(abortive)))
       case _ => None)
    case LeaveTeardown(side) =>
      if Get(s, side).phase == InTeardown && s.once.Over? then Some(Phase(s, side, Reporting(true))) else None
    case Report(side) =>
      var c := Get(s, side);
      if c.phase.Reporting? then
        Some(Phase(s, side, Done(c.phase.failed)).(done := s.done + [c.phase.failed]))
      else None
    case Receive =>
      if s.done == [] then None
      else
        (match s.caller
         case AwaitFirst => Some(s.(caller := AwaitSecond(s.done[0]), done := s.done[1..]))
         case AwaitSecond(first) => Some(s.(caller := CallTeardown(first || s.done[0]), done := s.done[1..]))
         case _ => None)
    case CallerEnters =>
      if s.caller.CallTeardown? && s.once == Fresh then
        Some(s.(caller := RunTeardown(s.caller.failed), once := ClosingA(false), teardowns := s.teardowns + 1))
      else None
    case CallerSkips =>
      if s.caller.CallTeardown? && s.once.Over? then Some(s.(caller := Returned(s.caller.failed))) else None
    case CallerReturns =>
      if s.caller.RunTeardown? && s.once.Over? then Some(s.(caller := Returned(s.caller.failed))) else None
  }

  function Run(steps: seq<Step>): Option<State> {
    if steps == [] then Some(Init())
    else
      match Run(steps[..|steps| - 1])
      case None => None
      case Some(s) => Next(s, steps[|steps| - 1])
  }

  // --- what every step keeps ---

  predicate ReportedFailed(p: CopierPhase) { (p.Reporting? || p.Done?) && p.failed }

  /** Nothing is lost or reordered between the two ends of a copier. */
  ghost predicate CopierOk(c: Copier) {
    && c.written <= c.read
    && (c.phase.Writing? ==> c.phase.pending != [] && c.written + c.phase.pending == c.read && !c.sourceEnded)
    && (c.phase.Reading? ==> c.written == c.read && !c.sourceEnded)
    && (c.sourceEnded ==> c.written == c.read)
  }

  ghost predicate HalfCloseOk(c: Copier, e: Endpoint) {
    e.halfClosed ==> (c.phase.Reporting? || c.phase.Done?) && !c.phase.failed
  }

  function Finished(s: State): nat {
    (if s.toA.phase.Done? then 1 else 0) + (if s.toB.phase.Done? then 1 else 0)
  }

  /** The verdicts the caller has taken from the channel. */
  predicate CallerSawFailure(c: Caller) {
    match c
    case AwaitFirst => false
    case AwaitSecond(first) => first
    case CallTeardown(f) => f
    case RunTeardown(f) => f
    case Returned(f) => f
  }

  function CallerTook(c: Caller): nat {
    match c case AwaitFirst => 0 case AwaitSecond(_) => 1 case _ => 2
  }

  predicate DoneFailed(s: State) {
    (s.toA.phase.Done? && s.toA.phase.failed) || (s.toB.phase.Done? && s.toB.phase.failed)
  }

  ghost predicate ChannelOk(s: State) {
    && CallerTook(s.caller) + |s.done| == Finished(s)
    && ((CallerSawFailure(s.caller) || true in s.done) <==> DoneFailed(s))
  }

  ghost predicate OnceOk(s: State) {
    && s.teardowns == (if s.once == Fresh then 0 else 1)
    // an abortive teardown is a copier's, a graceful one the caller's
    && ((s.once.ClosingA? || s.once.ClosingB?) && s.once.abortive ==>
      s.toA.phase.InTeardown? || s.toB.phase.InTeardown?)
    && (!s.once.Fresh? && !s.once.abortive ==> s.caller.RunTeardown? || s.caller.Returned?)
    && (s.once.Over? && s.once.abortive ==>
          s.toA.phase.InTeardown? || s.toB.phase.InTeardown? || ReportedFailed(s.toA.phase)
            || ReportedFailed(s.toB.phase))
    && (s.toA.phase.InTeardown? || s.toB.phase.InTeardown? ==> !s.once.Fresh? && s.once.abortive)
    && (ReportedFailed(s.toA.phase) || ReportedFailed(s.toB.phase) ==> s.once == Over(true))
    && !(s.toA.phase.InTeardown? && s.toB.phase.InTeardown?)
    && (s.once.ClosingB? || s.once.Over? ==> s.a.closed && (s.once.abortive ==> s.a.aborted))
    && (s.once.Over? ==> s.b.closed && (s.once.abortive ==> s.b.aborted))
    && (s.a.aborted || s.b.aborted ==> !s.once.Fresh? && s.once.abortive)
    && (s.caller.RunTeardown? ==> !s.once.Fresh? && !s.once.abortive && !s.caller.failed)
    && (s.caller.Returned? ==> s.once.Over? && (s.once.abortive <==> s.caller.failed))
  }

  ghost predicate Inv(s: State) {
    && CopierOk(s.toA) && CopierOk(s.toB)
    && HalfCloseOk(s.toA, s.a) && HalfCloseOk(s.toB, s.b)
    && ChannelOk(s) && OnceOk(s)
  }

  lemma MoveStep(c: Copier, move: Move)
    requires CopierOk(c) && AfterMove(c, move).Some?
    ensures CopierOk(AfterMove(c, move).value)
    ensures c.phase.Reading? || c.phase.Writing?
    ensures var p := AfterMove(c, move).value.phase; p.Reading? || p.Writing? || p.Ended?
  {
    if c.phase.Writing? {
      var n := if move.Write? || move.WriteFails? then move.n else 0;
      assert n <= |c.phase.pending| ==> c.phase.pending == c.phase.pending[..n] + c.phase.pending[n..];
    }
  }

  lemma CopierStep(s: State, step: Step)
    requires CopierOk(s.toA) && CopierOk(s.toB) && Next(s, step).Some?
    ensures CopierOk(Next(s, step).value.toA) && CopierOk(Next(s, step).value.toB)
  {
    if step.Copy? { MoveStep(Get(s, step.side), step.move); }
  }

  lemma HalfCloseStep(s: State, step: Step)
    requires CopierOk(s.toA) && CopierOk(s.toB) && Next(s, step).Some?
    requires HalfCloseOk(s.toA, s.a) && HalfCloseOk(s.toB, s.b)
    ensures HalfCloseOk(Next(s, step).value.toA, Next(s, step).value.a)
    ensures HalfCloseOk(Next(s, step).value.toB, Next(s, step).value.b)
  {
    if step.Copy? { MoveStep(Get(s, step.side), step.move); }
  }

  lemma ChannelStep(s: State, step: Step)
    requires CopierOk(s.toA) && CopierOk(s.toB) && ChannelOk(s) && Next(s, step).Some?
    ensures ChannelOk(Next(s, step).value)
  {
    if step.Copy? {
      MoveStep(Get(s, step.side), step.move);
    } else if step.Receive? {
      ReceiveStep(s);
    }
  }

  lemma ReceiveStep(s: State)
    requires ChannelOk(s) && Next(s, Receive).Some?
    ensures ChannelOk(Next(s, Receive).value)
  {
    var t := Next(s, Receive).value;
    assert s.done == [s.done[0]] + t.done;
  }

  lemma MoveKeepsOnce(s: State, side: Side, move: Move)
    requires CopierOk(s.toA) && CopierOk(s.toB) && OnceOk(s) && Next(s, Copy(side, move)).Some?
    ensures OnceOk(Next(s, Copy(side, move)).value)
  {
    MoveStep(Get(s, side), move);
  }

  lemma DecideStep(s: State, side: Side)
    requires OnceOk(s) && Next(s, Decide(side)).Some?
    ensures OnceOk(Next(s, Decide(side)).value)
  {
  }

  lemma ReportStep(s: State, side: Side)
    requires OnceOk(s) && Next(s, Report(side)).Some?
    ensures OnceOk(Next(s, Report(side)).value)
  {
  }

  lemma ReceiveKeepsOnce(s: State)
    requires OnceOk(s) && Next(s, Receive).Some?
    ensures OnceOk(Next(s, Receive).value)
  {
  }

  lemma CopierTeardownStep(s: State, step: Step)
    requires ChannelOk(s) && OnceOk(s) && (step.EnterTeardown? || step.SkipTeardown? || step.LeaveTeardown?)
    requires Next(s, step).Some?
    ensures OnceOk(Next(s, step).value)
  {
  }

  lemma CallerTeardownStep(s: State, step: Step)
    requires ChannelOk(s) && OnceOk(s) && Next(s, step).Some?
    requires step.CloseNext? || step.CallerEnters? || step.CallerSkips? || step.CallerReturns?
    ensures OnceOk(Next(s, step).value)
  {
  }

  lemma OnceStep(s: State, step: Step)
    requires CopierOk(s.toA) && CopierOk(s.toB) && ChannelOk(s) && OnceOk(s) && Next(s, step).Some?
    ensures OnceOk(Next(s, step).value)
  {
    match step
    case Copy(side, move) => MoveKeepsOnce(s, side, move);
    case Decide(side) => DecideStep(s, side);
    case Report(side) => ReportStep(s, side);
    case Receive => ReceiveKeepsOnce(s);
    case EnterTeardown(_) => CopierTeardownStep(s, step);
    case SkipTeardown(_) => CopierTeardownStep(s, step);
    case LeaveTeardown(_) => CopierTeardownStep(s, step);
    case _ => CallerTeardownStep(s, step);
  }

  lemma {:induction false} RunKeepsInv(steps: seq<Step>)
    requires Run(steps).Some?
    ensures Inv(Run(steps).value)
  {
    if steps != [] {
      var front := steps[..|steps| - 1];
      RunKeepsInv(front);
      var s, step := Run(front).value, steps[|steps| - 1];
      CopierStep(s, step);
      HalfCloseStep(s, step);
      ChannelStep(s, step);
      OnceStep(s, step);
    }
  }

  // --- the results ---

  /** When the bridge returns: teardown ran exactly once, it was abortive exactly when the
      bridge reports failure, failure means a copier failed, and both endpoints are closed. */
  lemma BridgeTeardown(steps: seq<Step>)
    requires Run(steps).Some? && Run(steps).value.caller.Returned?
    ensures var s := Run(steps).value;
      && s.teardowns == 1
      && s.a.closed && s.b.closed
      && (s.caller.failed <==> s.a.aborted) && (s.caller.failed <==> s.b.aborted)
      && s.toA.phase.Done? && s.toB.phase.Done?
      && (s.caller.failed <==> s.toA.phase.failed || s.toB.phase.failed)
  {
    RunKeepsInv(steps);
  }

  /** At no point of any run has teardown run twice. */
  lemma TeardownAtMostOnce(steps: seq<Step>)
    requires Run(steps).Some?
    ensures Run(steps).value.teardowns <= 1
  {
    RunKeepsInv(steps);
  }

  /** What reaches an endpoint is a prefix of what was read for it; a copy that ended at its
      source lost nothing, so a half-close after source EOF follows the last byte. */
  lemma HalfCloseAfterLastByte(steps: seq<Step>)
    requires Run(steps).Some?
    ensures var s := Run(steps).value;
      && s.toA.written <= s.toA.read && s.toB.written <= s.toB.read
      && (s.a.halfClosed && s.toA.sourceEnded ==> s.toA.written == s.toA.read)
      && (s.b.halfClosed && s.toB.sourceEnded ==> s.toB.written == s.toB.read)
  {
    RunKeepsInv(steps);
  }

  // --- which endings are failures ---

  /** The copier towards side met an error that is neither end of file nor a closed connection. */
  predicate FailsAt(step: Step, side: Side) {
    && step.Copy? && step.side == side
    && ((step.move.ReadFails? && step.move.err == OtherError) || (step.move.WriteFails? && step.move.err == OtherError))
  }

  ghost predicate MetError(steps: seq<Step>, side: Side) {
    exists k :: 0 <= k < |steps| && FailsAt(steps[k], side)
  }

  predicate Failing(p: CopierPhase) {
    p == Ended(OtherError) || p.WantTeardown? || p.InTeardown? || ReportedFailed(p)
  }

  lemma FailingStep(s: State, step: Step, side: Side)
    requires Next(s, step).Some?
    ensures Failing(Get(Next(s, step).value, side).phase) <==> Failing(Get(s, side).phase) || FailsAt(step, side)
  {
  }

  /** A copier is on its way to report failure exactly when it met such an error. */
  lemma {:induction false} FailingIff(steps: seq<Step>, side: Side)
    requires Run(steps).Some?
    ensures Failing(Get(Run(steps).value, side).phase) <==> MetError(steps, side)
  {
    if steps != [] {
      var front, last := steps[..|steps| - 1], steps[|steps| - 1];
      FailingIff(front, side);
      FailingStep(Run(front).value, last, side);
      if MetError(front, side) {
        var k :| 0 <= k < |front| && FailsAt(front[k], side);
        assert steps[k] == front[k];
      }
      if MetError(steps, side) && !FailsAt(last, side) {
        var k :| 0 <= k < |steps| && FailsAt(steps[k], side);
        assert front[k] == steps[k];
      }
    }
  }

  /** The bridge returns failure exactly when one of its reads or writes met an error that is
      neither end of file nor a closed connection; only then are the endpoints aborted. */
  lemma FailedIff(steps: seq<Step>)
    requires Run(steps).Some? && Run(steps).value.caller.Returned?
    ensures var s := Run(steps).value;
      && (s.caller.failed <==> MetError(steps, A) || MetError(steps, B))
      && (s.a.aborted <==> MetError(steps, A) || MetError(steps, B))
      && (s.b.aborted <==> MetError(steps, A) || MetError(steps, B))
  {
    BridgeTeardown(steps);
    FailingIff(steps, A);
    FailingIff(steps, B);
  }

  /** A copier has decided that it ended normally. */
  predicate EndedWell(p: CopierPhase) { (p.Reporting? || p.Done?) && !p.failed }

  lemma EndedWellStep(s: State, step: Step, side: Side)
    requires Next(s, step).Some? && (EndedWell(Get(s, side).phase) ==> HalfClosed(s, side))
    ensures EndedWell(Get(Next(s, step).value, side).phase) ==> HalfClosed(Next(s, step).value, side)
  {
  }

  lemma {:induction false} EndedWellHalfCloses(steps: seq<Step>, side: Side)
    requires Run(steps).Some?
    ensures EndedWell(Get(Run(steps).value, side).phase) ==> HalfClosed(Run(steps).value, side)
  {
    if steps != [] {
      EndedWellHalfCloses(steps[..|steps| - 1], side);
      EndedWellStep(Run(steps[..|steps| - 1]).value, steps[|steps| - 1], side);
    }
  }

  /** A copier that stopped, but not with such an error, half-closes its endpoint as soon as it has
      decided, and an endpoint is half-closed for no other reason. */
  lemma HalfClosedIff(steps: seq<Step>, side: Side)
    requires Run(steps).Some?
    ensures var p := Get(Run(steps).value, side).phase;
      HalfClosed(Run(steps).value, side) <==> !Copying(p) && !p.Ended? && !MetError(steps, side)
  {
    RunKeepsInv(steps);
    FailingIff(steps, side);
    EndedWellHalfCloses(steps, side);
  }

  /** When both copies ended normally the bridge half-closes both endpoints and aborts neither. */
  lemma NormalReturn(steps: seq<Step>)
    requires Run(steps).Some? && Run(steps).value.caller.Returned? && !MetError(steps, A) && !MetError(steps, B)
    ensures var s := Run(steps).value;
      !s.caller.failed && s.a.halfClosed && s.b.halfClosed && !s.a.aborted && !s.b.aborted && s.a.closed && s.b.closed
  {
    FailedIff(steps);
    BridgeTeardown(steps);
    HalfClosedIff(steps, A);
    HalfClosedIff(steps, B);
  }

  predicate Copying(p: CopierPhase) { p.Reading? || p.Writing? }

  /** At step m the copier towards side stopped: its source ended, or a write reported an error. */
  ghost predicate Stops(steps: seq<Step>, m: nat, side: Side) {
    && m < |steps| && steps[m].Copy? && steps[m].side == side && (steps[m].move.ReadFails? || steps[m].move.WriteFails?)
    && Run(steps[..m]).Some?
  }

  /** Nothing was left to write: the source had ended, or the write took all it was given. */
  ghost predicate NothingLeft(steps: seq<Step>, m: nat, side: Side)
    requires Stops(steps, m, side)
  {
    var p := Get(Run(steps[..m]).value, side).phase;
    steps[m].move.ReadFails? || (p.Writing? && steps[m].move.n == |p.pending|)
  }

  lemma StopStep(c: Copier, move: Move)
    requires CopierOk(c) && AfterMove(c, move).Some? && !Copying(AfterMove(c, move).value.phase)
    ensures Copying(c.phase) && (move.ReadFails? || move.WriteFails?)
    ensures var d := AfterMove(c, move).value;
      d.written == d.read <==> move.ReadFails? || move.n == |c.phase.pending|
  {
    if move.WriteFails? {
      var p := c.phase.pending;
      assert c.written + p == c.read;
      assert |c.written + p[..move.n]| == |c.written| + move.n;
      assert move.n == |p| ==> p[..move.n] == p;
    }
  }

  lemma OnlyCopyMovesBytes(s: State, step: Step, side: Side)
    requires Next(s, step).Some? && !(step.Copy? && step.side == side)
    ensures var c, d := Get(s, side), Get(Next(s, step).value, side);
      c.read == d.read && c.written == d.written && (Copying(d.phase) <==> Copying(c.phase))
  {
  }

  /** Every copier that is past copying stopped at one step, and has delivered everything exactly
      when nothing was left at that step. */
  lemma {:induction false} CopyStop(steps: seq<Step>, side: Side) returns (m: nat)
    requires Run(steps).Some? && !Copying(Get(Run(steps).value, side).phase)
    ensures Stops(steps, m, side)
    ensures var c := Get(Run(steps).value, side); c.written == c.read <==> NothingLeft(steps, m, side)
  {
    m := |steps| - 1;
    var front := steps[..m];
    var s := Run(front).value;
    RunKeepsInv(front);
    if steps[m].Copy? && steps[m].side == side {
      StopStep(Get(s, side), steps[m].move);
    } else {
      OnlyCopyMovesBytes(s, steps[m], side);
      m := CopyStop(front, side);
      assert front[..m] == steps[..m];
    }
  }

  predicate HalfClosed(s: State, side: Side) { if side == A then s.a.halfClosed else s.b.halfClosed }

  /** Exactly when a half-closed endpoint has got every byte that was read for it: when the copy
      stopped at the end of its source, or in a write that took all it was given. */
  lemma HalfCloseWholeIff(steps: seq<Step>, side: Side) returns (m: nat)
    requires Run(steps).Some? && HalfClosed(Run(steps).value, side)
    ensures Stops(steps, m, side)
    ensures var c := Get(Run(steps).value, side); c.written == c.read <==> NothingLeft(steps, m, side)
  {
    RunKeepsInv(steps);
    m := CopyStop(steps, side);
  }

  /** It can be otherwise: a write that reports a closed connection is not a failure, so
      the endpoint is half-closed although a byte read for it never reached it. */
  lemma HalfCloseAfterClosedWrite(x: byte)
    ensures var s := Run([Copy(A, Read([x])), Copy(A, WriteFails(0, ClosedConnection)), Decide(A)]);
      s.Some? && s.value.a.halfClosed && s.value.toA.read == [x] && s.value.toA.written == []
  {
    var one := [Copy(A, Read([x]))];
    var two := [Copy(A, Read([x])), Copy(A, WriteFails(0, ClosedConnection))];
    var three := [Copy(A, Read([x])), Copy(A, WriteFails(0, ClosedConnection)), Decide(A)];
    assert one[..0] == [] && two[..1] == one && three[..2] == two;
    assert Run([]) == Some(Init());
    assert Run(one) == Next(Init(), one[0]);
    assert Run(two) == Next(Run(one).value, two[1]);
    assert Run(three) == Next(Run(two).value, three[2]);
  }
}
