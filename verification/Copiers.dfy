/** The steps of one copier (copyWithProgress in internal/tunnel/tunnel.go): single reads and
    writes on its two streams, with the histories of both ends. */
module Copiers {
  import opened Numerals
  import opened Streams
  import opened Text

  datatype CopierPhase =
    | Reading                                   // waiting in src.Read
    | Writing(pending: seq<byte>)               // inside writeFullWithDeadline
    | Ended(err: IOError)                       // copyWithProgress returned
    | WantTeardown                              // about to call teardown (failed)
    | InTeardown                                // runs the once-only body
    | Reporting(failed: bool)                   // about to send on done
    | Done(failed: bool)

  /** read and written are the histories of the copier's two ends. */
  datatype Copier = Copier(phase: CopierPhase, read: seq<byte>, written: seq<byte>, sourceEnded: bool)

  /** What a copier does with its two streams. */
  datatype Move = Read(data: seq<byte>) | ReadFails(err: IOError) | Write(n: nat) | WriteFails(n: nat, err: IOError)

  const IDLE_COPIER := Copier(Reading, [], [], false)

  function AfterMove(c: Copier, move: Move): Option<Copier> {
    match move
    case Read(data) =>
      if c.phase == Reading && data != [] then Some(c.(phase := Writing(data), read := c.read + data)) else None
    case ReadFails(err) =>
      if c.phase == Reading then Some(c.(phase := Ended(err), sourceEnded := true)) else None
    case Write(n) =>
      if c.phase.Writing? && 0 < n <= |c.phase.pending| then
        var left := c.phase.pending[n..];
        Some(c.(phase := if left == [] then Reading else Writing(left), written := c.written + c.phase.pending[..n]))
      else None
    case WriteFails(n, err) =>
      if c.phase.Writing? && n <= |c.phase.pending| then
        Some(c.(phase := Ended(err), written := c.written + c.phase.pending[..n]))
      else None
  }

  /** A sequence of moves. */
  function AfterMoves(c: Copier, moves: seq<Move>): Option<Copier>
    decreases |moves|
  {
    if moves == [] then Some(c)
    else
      match AfterMove(c, moves[0])
      case None => None
      case Some(d) => AfterMoves(d, moves[1..])
  }

  lemma OneMove(c: Copier, move: Move)
    ensures AfterMoves(c, [move]) == AfterMove(c, move)
  {
  }

  lemma {:induction false} MovesConcat(c: Copier, xs: seq<Move>, d: Copier, ys: seq<Move>)
    requires AfterMoves(c, xs) == Some(d)
    ensures AfterMoves(c, xs + ys) == AfterMoves(d, ys)
    decreases |xs|
  {
    if xs == [] {
      assert xs + ys == ys;
    } else {
      MovesConcat(AfterMove(c, xs[0]).value, xs[1..], d, ys);
      assert (xs + ys)[1..] == xs[1..] + ys;
    }
  }

  lemma OneMoreMove(c: Copier, xs: seq<Move>, d: Copier, move: Move)
    requires AfterMoves(c, xs) == Some(d)
    ensures AfterMoves(c, xs + [move]) == AfterMove(d, move)
  {
    MovesConcat(c, xs, d, [move]);
    OneMove(d, move);
  }
}
