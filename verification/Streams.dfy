/** io.Reader and io.Writer, with every short read, short write and error they may show
    laid out in advance as a plan. */
module Streams {
  import opened Numerals
  import opened Text

  /** Errors as the tunnel tells them apart: end of file, a connection that was closed or
      reset, and everything else (io.ErrShortWrite included). */
  datatype IOError = EOF | ClosedConnection | OtherError

  /** How one future Write call will go: how many bytes it takes at most, and the error it
      reports, if any. */
  datatype WriteStep = WriteStep(accept: nat, fail: Option<IOError>)

  class Writer {
    var sent: seq<byte>
    var plan: seq<WriteStep>

    constructor (steps: seq<WriteStep>)
      ensures sent == [] && plan == steps
    {
      sent, plan := [], steps;
    }

    method Write(data: seq<byte>) returns (n: nat, err: Option<IOError>)
      modifies this
      ensures n <= |data| && sent == old(sent) + data[..n]
      ensures old(plan) == [] ==> n == |data| && err == None && plan == []
      ensures old(plan) != [] ==>
        plan == old(plan)[1..] && err == old(plan)[0].fail && (n > 0 <==> old(plan)[0].accept > 0 && data != [])
    {
      if plan == [] {
        n, err := |data|, None;
      } else {
        n := if plan[0].accept < |data| then plan[0].accept else |data|;
        err := plan[0].fail;
        plan := plan[1..];
      }
      sent := sent + data[..n];
    }
  }

  /** A writer that always takes something and never fails. */
  ghost predicate Willing(plan: seq<WriteStep>) {
    forall i :: 0 <= i < |plan| ==> plan[i].accept > 0 && plan[i].fail == None
  }

  /** A byte source that hands out at most chunk[0] bytes at the next Read, and so on. */
  class Reader {
    var rest: seq<byte>
    var chunks: seq<nat>

    constructor (bs: seq<byte>, sizes: seq<nat>)
      ensures rest == bs && chunks == sizes
    {
      rest, chunks := bs, sizes;
    }

    method Read(max: nat) returns (got: seq<byte>)
      requires max > 0
      modifies this
      ensures got + rest == old(rest) && |got| <= max
      ensures got == [] <==> old(rest) == []
    {
      var n := if |rest| < max then |rest| else max;
      if chunks != [] {
        if 0 < chunks[0] < n {
          n := chunks[0];
        }
        chunks := chunks[1..];
      }
      got, rest := rest[..n], rest[n..];
    }

    /** io.ReadFull. */
    method ReadFull(n: nat) returns (data: seq<byte>, ok: bool)
      modifies this
      ensures ok <==> n <= |old(rest)|
      ensures ok ==> data == old(rest)[..n] && rest == old(rest)[n..]
      ensures !ok ==> rest == []
    {
      data := [];
      while |data| < n
        invariant |data| <= n && data + rest == old(rest)
        decreases n - |data|
      {
        var got := Read(n - |data|);
        if got == [] {
          return data, false;
        }
        assert (data + got) + rest == data + (got + rest);
        data := data + got;
      }
      assert old(rest)[..n] == data && old(rest)[n..] == rest;
      ok := true;
    }
  }

  /** One future Read call: the bytes it returns and the error it returns with them, if any. */
  datatype ReadStep = ReadStep(data: seq<byte>, end: Option<IOError>)

  /** Everything the source yields up to its first error. */
  function Until(script: seq<ReadStep>): seq<byte> {
    if script == [] then []
    else if script[0].end.Some? then script[0].data
    else script[0].data + Until(script[1..])
  }

  /** That first error. */
  function EndOf(script: seq<ReadStep>): IOError {
    if script == [] then EOF
    else if script[0].end.Some? then script[0].end.value
    else EndOf(script[1..])
  }

  function Size(script: seq<ReadStep>): nat {
    if script == [] then 0 else 1 + |script[0].data| + Size(script[1..])
  }

  /** A source that may return bytes together with an error; after its script it is at EOF. */
  class Source {
    var script: seq<ReadStep>

    constructor (steps: seq<ReadStep>)
      ensures script == steps
    {
      script := steps;
    }

    method Read(max: nat) returns (data: seq<byte>, err: Option<IOError>)
      requires max > 0
      modifies this
      ensures |data| <= max
      ensures err == None ==> Size(script) < old(Size(script))
      ensures err == None ==> old(Until(script)) == data + Until(script) && EndOf(script) == old(EndOf(script))
      ensures err.Some? ==> old(Until(script)) == data && err.value == old(EndOf(script))
    {
      if script == [] {
        return [], Some(EOF);
      }
      var step := script[0];
      if |step.data| > max {
        data, err := step.data[..max], None;
        var rest := ReadStep(step.data[max..], step.end);
        assert step.data == data + rest.data;
        assert ([rest] + script[1..])[1..] == script[1..];
        Assoc(data, rest.data, Until(script[1..]));
        script := [rest] + script[1..];
      } else {
        data, err := step.data, step.end;
        script := script[1..];
      }
    }
  }
}
