/** One direction of the byte bridge (internal/tunnel/tunnel.go): read a buffer, write all of
    it in chunks, repeat until the source ends or the destination fails. */
module CopyLoop {
  import opened Numerals
  import opened Streams
  import opened Text
  import opened Copiers

  const BUFFER_SIZE := 32 * 1024

  /** bridgeCopyFailed: end of file and closed connections are normal endings. */
  predicate Failed(err: IOError) { err.OtherError? }

  /** writeFullWithDeadline; chunkSize 0 means no limit.  For a copier c that is writing p, every
      Write call is one move. */
  method WriteFull(dst: Writer, p: seq<byte>, chunkSize: nat, ghost c: Copier)
    returns (total: nat, err: Option<IOError>, ghost moves: seq<Move>)
    requires c.phase == Writing(p) && p != []
    modifies dst
    ensures total <= |p| && dst.sent == old(dst.sent) + p[..total]
    ensures err == None ==> total == |p|
    ensures Willing(old(dst.plan)) ==> err == None && Willing(dst.plan)
    ensures AfterMoves(c, moves) == Some(AfterWrites(c, p, total, err))
  {
    total, moves := 0, [];
    assert PartWritten(c, p, 0) == c;
    while total < |p|
      invariant total <= |p| && dst.sent == old(dst.sent) + p[..total]
      invariant Willing(old(dst.plan)) ==> Willing(dst.plan)
      invariant AfterMoves(c, moves) == Some(PartWritten(c, p, total))
      decreases |p| - total
    {
      var end := |p|;
      if chunkSize > 0 && end - total > chunkSize {
        end := total + chunkSize;
      }
      var n, e := dst.Write(p[total..end]);
      assert p[..total] + p[total..end][..n] == p[..total + n];
      ghost var move := if e.Some? then WriteFails(n, e.value) else if n == 0 then WriteFails(0, OtherError)
        else Write(n);
      WriteMoves(c, moves, p, total, n, move);
      moves := moves + [move];
      total := total + n;
      if e.Some? {
        return total, e, moves;
      }
      if n == 0 {
        return total, Some(OtherError), moves;
      }
    }
    assert p[..total] == p;
    err := None;
  }

  /** A copier that has written n bytes of p so far. */
  function PartWritten(c: Copier, p: seq<byte>, n: nat): Copier
    requires n <= |p|
  {
    c.(phase := if n == |p| then Reading else Writing(p[n..]), written := c.written + p[..n])
  }

  /** A copier after writeFullWithDeadline. */
  function AfterWrites(c: Copier, p: seq<byte>, n: nat, err: Option<IOError>): Copier
    requires n <= |p|
  {
    c.(phase := if err.Some? then Ended(err.value) else Reading, written := c.written + p[..n])
  }

  lemma WriteMove(c: Copier, p: seq<byte>, total: nat, n: nat, move: Move)
    requires total < |p| && n <= |p| - total
    requires (move == Write(n) && n > 0) || (move.WriteFails? && move.n == n)
    ensures AfterMove(PartWritten(c, p, total), move) == Some(
      if move.WriteFails? then AfterWrites(c, p, total + n, Some(move.err)) else PartWritten(c, p, total + n))
  {
    assert p[..total] + p[total..][..n] == p[..total + n];
    Assoc(c.written, p[..total], p[total..][..n]);
    assert p[total..][n..] == p[total + n..];
    assert (p[total..][n..] == []) <==> total + n == |p|;
  }

  lemma WriteMoves(c: Copier, moves: seq<Move>, p: seq<byte>, total: nat, n: nat, move: Move)
    requires total < |p| && n <= |p| - total && AfterMoves(c, moves) == Some(PartWritten(c, p, total))
    requires (move == Write(n) && n > 0) || (move.WriteFails? && move.n == n)
    ensures AfterMoves(c, moves + [move]) == Some(
      if move.WriteFails? then AfterWrites(c, p, total + n, Some(move.err)) else PartWritten(c, p, total + n))
  {
    OneMoreMove(c, moves, PartWritten(c, p, total), move);
    WriteMove(c, p, total, n, move);
  }

  /** A copier that is reading and has delivered everything it read. */
  predicate UpToDate(c: Copier) { c.phase == Reading && c.written == c.read && !c.sourceEnded }

  /** A copier that has stopped with err. */
  predicate StoppedWith(c: Copier, err: IOError, sourceEnded: bool) {
    c.phase == Ended(err) && c.sourceEnded == sourceEnded && c.written <= c.read
      && (sourceEnded ==> c.written == c.read)
  }

  /** One turn of copyWithProgress: a read and the write of what it returned.  It is a sequence of
      moves of the copier c, which ends as d. */
  method Turn(dst: Writer, src: Source, chunkSize: nat, ghost c: Copier)
    returns (
      n: nat, stop: Option<IOError>, ghost piece: seq<byte>, ghost sourceEnded: bool,
      ghost moves: seq<Move>, ghost d: Copier)
    requires UpToDate(c)
    modifies dst, src
    ensures n == |piece| && dst.sent == old(dst.sent) + piece && piece <= old(Until(src.script))
    ensures stop == None ==> old(Until(src.script)) == piece + Until(src.script)
    ensures stop == None ==> EndOf(src.script) == old(EndOf(src.script)) && Size(src.script) < old(Size(src.script))
    ensures sourceEnded ==> piece == old(Until(src.script)) && stop == Some(old(EndOf(src.script)))
    ensures Willing(old(dst.plan)) ==> Willing(dst.plan) && (stop.Some? ==> sourceEnded)
    ensures AfterMoves(c, moves) == Some(d) && d.written == c.written + piece
    ensures if stop.Some? then StoppedWith(d, stop.value, sourceEnded) else UpToDate(d)
  {
    var data, er := src.Read(BUFFER_SIZE);
    n, piece, moves, d := 0, [], [], c;
    assert c.written + piece == c.written;
    if |data| > 0 {
      ghost var reading := c.(phase := Writing(data), read := c.read + data);
      OneMove(c, Read(data));
      var nw, ew, writes := WriteFull(dst, data, chunkSize, reading);
      MovesConcat(c, [Read(data)], reading, writes);
      n, piece, moves := nw, data[..nw], [Read(data)] + writes;
      d := AfterWrites(reading, data, nw, ew);
      if ew.Some? {
        assert c.written + data[..nw] <= c.read + data;
        return n, ew, piece, false, moves, d;
      }
      assert data[..nw] == data;
    }
    stop, sourceEnded := er, er.Some?;
    if er.Some? {
      OneMoreMove(c, moves, d, ReadFails(er.value));
      moves := moves + [ReadFails(er.value)];
      d := d.(phase := Ended(er.value), sourceEnded := true);
    }
  }

  /** copyWithProgress.  The bytes delivered are the first total bytes of what the source
      yields, in order; all of them, with the source's own ending, unless the destination
      stopped the copy.  The whole copy is a sequence of moves of an idle copier. */
  method Copy(dst: Writer, src: Source, chunkSize: nat)
    returns (total: nat, err: IOError, ghost sourceEnded: bool, ghost moves: seq<Move>, ghost d: Copier)
    modifies dst, src
    ensures total <= |old(Until(src.script))| && dst.sent == old(dst.sent) + old(Until(src.script))[..total]
    ensures sourceEnded ==> total == |old(Until(src.script))| && err == old(EndOf(src.script))
    ensures Willing(old(dst.plan)) ==> sourceEnded
    ensures AfterMoves(IDLE_COPIER, moves) == Some(d) && StoppedWith(d, err, sourceEnded)
    ensures d.written == old(Until(src.script))[..total]
  {
    total, moves, d := 0, [], IDLE_COPIER;
    ghost var got: seq<byte> := [];
    ghost var start, all := dst.sent, Until(src.script);
    while true
      invariant total == |got| && dst.sent == start + got && got + Until(src.script) == all
      invariant EndOf(src.script) == old(EndOf(src.script))
      invariant Willing(old(dst.plan)) ==> Willing(dst.plan)
      invariant AfterMoves(IDLE_COPIER, moves) == Some(d) && UpToDate(d) && d.written == got
      decreases Size(src.script)
    {
      ghost var rest := Until(src.script);
      var n, stop, piece, ended, turn, e := Turn(dst, src, chunkSize, d);
      MovesConcat(IDLE_COPIER, moves, d, turn);
      moves, d := moves + turn, e;
      Delivered(start, got, piece, rest);
      total := total + n;
      if stop.Some? {
        assert got + piece == (got + rest)[..total];
        return total, stop.value, ended, moves, d;
      }
      Assoc(got, piece, Until(src.script));
      got := got + piece;
    }
  }

  lemma Delivered(start: seq<byte>, got: seq<byte>, piece: seq<byte>, rest: seq<byte>)
    requires piece <= rest
    ensures (start + got) + piece == start + (got + piece) == start + (got + rest)[..|got| + |piece|]
    ensures piece == rest ==> |got| + |piece| == |got + rest|
  {
  }
}
