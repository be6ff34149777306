/** Handshake frames (internal/protocol/protocol.go): one type byte, a four-byte big-endian
    length, the payload.  The payload is opaque bytes. */
module Frames {
  import opened Numerals
  import opened Streams
  import opened Text

  const MAX_FRAME_SIZE := 256 * 1024

  datatype Frame = Frame(kind: byte, payload: seq<byte>)

  function Header(f: Frame): (h: seq<byte>)
    ensures |h| == 5
  {
    [f.kind] + BigEndian(|f.payload|, 4)
  }

  function Bytes(f: Frame): seq<byte> {
    Header(f) + f.payload
  }

  function Stream(fs: seq<Frame>): seq<byte> {
    if fs == [] then [] else Bytes(fs[0]) + Stream(fs[1..])
  }

  predicate Writable(f: Frame) { |f.payload| <= MAX_FRAME_SIZE }

  /** One ReadFrame on the bytes that are still to come: the frame, or failure, and what is left unread. */
  datatype Reading = Got(frame: Frame, rest: seq<byte>) | Failed(rest: seq<byte>)

  function Parse(bs: seq<byte>): (r: Reading)
    ensures r.Got? ==> |r.rest| < |bs|
  {
    if |bs| < 5 then Failed([])
    else
      var n := Value(bs[1..5], 256);
      if n > MAX_FRAME_SIZE then Failed(bs[5..])
      else if |bs| - 5 < n then Failed([])
      else Got(Frame(bs[0], bs[5..5 + n]), bs[5 + n..])
  }

  /** The frames a reader obtains before its first failure. */
  function Received(bs: seq<byte>): seq<Frame>
    decreases |bs|
  {
    match Parse(bs)
    case Failed(_) => []
    case Got(f, rest) => [f] + Received(rest)
  }

  // --- the writer and the reader agree ---

  lemma LengthRoundTrip(n: nat)
    requires n < 0x1_0000_0000
    ensures Value(BigEndian(n, 4), 256) == n
  {
    assert Pow(256, 4) == 0x1_0000_0000;
    ValueOfBigEndian(n, 4);
  }

  lemma HeaderOf(f: Frame, bs: seq<byte>)
    requires |f.payload| < 0x1_0000_0000 && |bs| >= 5 && bs[..5] == Header(f)
    ensures bs[0] == f.kind && Value(bs[1..5], 256) == |f.payload|
  {
    assert bs[0] == bs[..5][0];
    assert bs[1..5] == bs[..5][1..] == BigEndian(|f.payload|, 4);
    LengthRoundTrip(|f.payload|);
  }

  /** The reader accepts exactly the frames the writer agrees to write. */
  lemma ReadableIffWritable(f: Frame, more: seq<byte>)
    requires |f.payload| < 0x1_0000_0000
    ensures Writable(f) ==> Parse(Bytes(f) + more) == Got(f, more)
    ensures !Writable(f) ==> Parse(Bytes(f) + more) == Failed(f.payload + more)
  {
    var bs := Bytes(f) + more;
    assert bs[..5] == Header(f);
    assert bs[5..] == f.payload + more;
    HeaderOf(f, bs);
    var n := |f.payload|;
    assert bs[5..5 + n] == bs[5..][..n] == f.payload;
    assert bs[5 + n..] == bs[5..][n..] == more;
  }

  /** Reading |fs| frames yields fs and leaves every following byte for the raw phase. */
  lemma {:induction false} StreamRoundTrip(fs: seq<Frame>, raw: seq<byte>)
    requires forall f :: f in fs ==> Writable(f)
    ensures ReadMany(Stream(fs) + raw, |fs|) == Some((fs, raw))
  {
    if fs == [] {
      assert Stream(fs) + raw == raw;
    } else {
      assert Writable(fs[0]);
      Assoc(Bytes(fs[0]), Stream(fs[1..]), raw);
      StreamRoundTrip(fs[1..], raw);
      ReadManyStep(fs[0], Stream(fs[1..]) + raw, |fs|);
      assert fs == [fs[0]] + fs[1..];
    }
  }

  lemma ReadManyStep(f: Frame, rest: seq<byte>, k: nat)
    requires Writable(f) && k > 0 && ReadMany(rest, k - 1).Some?
    ensures ReadMany(Bytes(f) + rest, k) ==
      Some(([f] + ReadMany(rest, k - 1).value.0, ReadMany(rest, k - 1).value.1))
  {
    ReadableIffWritable(f, rest);
  }

  function ReadMany(bs: seq<byte>, k: nat): Option<(seq<Frame>, seq<byte>)>
    decreases k
  {
    if k == 0 then Some(([], bs))
    else
      match Parse(bs)
      case Failed(_) => None
      case Got(f, rest) =>
        match ReadMany(rest, k - 1)
        case None => None
        case Some(p) => Some(([f] + p.0, p.1))
  }

  lemma ShortPrefixFails(f: Frame, p: seq<byte>)
    requires Writable(f) && p <= Bytes(f) && |p| < |Bytes(f)|
    ensures Parse(p).Failed?
  {
    if |p| >= 5 {
      assert p[..5] == Bytes(f)[..5] == Header(f);
      HeaderOf(f, p);
    }
  }

  /** However early a connection breaks, the reader gets a prefix of the frames written: those
      whose bytes all arrived, never a damaged one. */
  lemma {:induction false} TruncatedStream(fs: seq<Frame>, p: seq<byte>)
    requires (forall f :: f in fs ==> Writable(f)) && p <= Stream(fs)
    ensures Received(p) <= fs && Stream(Received(p)) <= p
    ensures |Received(p)| < |fs| ==> |p| < |Stream(fs[..|Received(p)| + 1])|
  {
    if fs != [] {
      var b := Bytes(fs[0]);
      assert Writable(fs[0]);
      if |p| < |b| {
        PrefixSplit(b, Stream(fs[1..]), p);
        ShortPrefixFails(fs[0], p);
        SingleFrame(fs);
      } else {
        PrefixSplit(b, Stream(fs[1..]), p);
        var q := p[|b|..];
        ReceivedFrame(fs[0], q);
        TruncatedStream(fs[1..], q);
        FrameAhead(fs, q);
        assert Received(p) == [fs[0]] + Received(q);
      }
    }
  }

  lemma ReceivedFrame(f: Frame, q: seq<byte>)
    requires Writable(f)
    ensures Received(Bytes(f) + q) == [f] + Received(q)
  {
    ReadableIffWritable(f, q);
  }

  lemma PrefixSplit(b: seq<byte>, s: seq<byte>, p: seq<byte>)
    requires p <= b + s
    ensures |p| < |b| ==> p <= b
    ensures |p| >= |b| ==> p == b + p[|b|..] && p[|b|..] <= s
  {
    assert p == (b + s)[..|p|];
  }

  lemma SingleFrame(fs: seq<Frame>)
    requires fs != []
    ensures Stream(fs[..1]) == Bytes(fs[0])
  {
    var one := fs[..1];
    assert one[1..] == [];
    assert Stream(one) == Bytes(one[0]) + Stream([]);
  }

  /** One more frame in front shifts every count by one. */
  lemma FrameAhead(fs: seq<Frame>, q: seq<byte>)
    requires fs != [] && Received(q) <= fs[1..] && Stream(Received(q)) <= q
    ensures [fs[0]] + Received(q) <= fs
    ensures Stream([fs[0]] + Received(q)) <= Bytes(fs[0]) + q
    ensures |Received(q)| < |fs| - 1 ==>
      Stream(fs[..|Received(q)| + 2]) == Bytes(fs[0]) + Stream(fs[1..][..|Received(q)| + 1])
  {
    var r := Received(q);
    assert ([fs[0]] + r)[1..] == r;
    if |r| < |fs| - 1 {
      assert fs[..|r| + 2][1..] == fs[1..][..|r| + 1];
    }
  }

  // --- the loops ---

  method WriteAll(w: Writer, data: seq<byte>) returns (ok: bool)
    modifies w
    ensures old(w.sent) <= w.sent && w.sent[|old(w.sent)|..] <= data
    ensures ok ==> w.sent == old(w.sent) + data
    ensures Willing(old(w.plan)) ==> ok && Willing(w.plan)
  {
    var left := data;
    ghost var done := 0;
    while |left| > 0
      invariant done <= |data| && left == data[done..] && w.sent == old(w.sent) + data[..done]
      invariant Willing(old(w.plan)) ==> Willing(w.plan)
      decreases |left|
    {
      var n, err := w.Write(left);
      assert data[..done] + left[..n] == data[..done + n];
      done := done + n;
      if n > 0 {
        left := left[n..];
      }
      if err.Some? {
        return false;
      }
      if n == 0 {
        return false;
      }
    }
    ok := true;
  }

  method WriteFrame(w: Writer, f: Frame) returns (ok: bool)
    modifies w
    ensures !Writable(f) ==> !ok && w.sent == old(w.sent)
    ensures old(w.sent) <= w.sent && w.sent[|old(w.sent)|..] <= Bytes(f)
    ensures ok ==> w.sent == old(w.sent) + Bytes(f)
    ensures Willing(old(w.plan)) && Writable(f) ==> ok && Willing(w.plan)
  {
    if |f.payload| > MAX_FRAME_SIZE {
      return false;
    }
    ghost var start := w.sent;
    ok := WriteAll(w, Header(f));
    if !ok {
      return;
    }
    ok := WriteAll(w, f.payload);
    assert w.sent[|start|..] == Header(f) + w.sent[|start| + 5..];
  }

  method ReadFrame(r: Reader) returns (f: Option<Frame>)
    modifies r
    ensures Parse(old(r.rest)) == if f.Some? then Got(f.value, r.rest) else Failed(r.rest)
  {
    ghost var bs := r.rest;
    var header, ok := r.ReadFull(5);
    if !ok {
      return None;
    }
    assert header[1..] == bs[1..5];
    var n := Value(header[1..], 256);
    if n > MAX_FRAME_SIZE {
      return None;
    }
    var payload, full := r.ReadFull(n);
    if !full {
      return None;
    }
    assert payload == bs[5..5 + n] && r.rest == bs[5 + n..];
    f := Some(Frame(header[0], payload));
  }

  // --- the layout ---

  /** A frame on the wire: the type byte, the length in four bytes, the payload.  It is read back
      exactly when the payload has at most 256 KiB. */
  lemma FrameLayout(f: Frame, more: seq<byte>)
    requires |f.payload| < 0x1_0000_0000
    ensures var b := Bytes(f); var n := |f.payload|;
      && |b| == n + 5 && b[0] == f.kind && b[5..] == f.payload
      && b[1] as int * 0x100_0000 + b[2] as int * 0x1_0000 + b[3] as int * 0x100 + b[4] as int == n
    ensures Parse(Bytes(f) + more).Got? <==> |f.payload| <= 262144
  {
    var b := Bytes(f);
    assert b[..5] == Header(f);
    HeaderOf(f, b);
    FourBytes(b[1..5]);
    ReadableIffWritable(f, more);
  }
}
