/** The byte strings that peers sign and authenticate: the length-prefixed identity
    transcripts (internal/pairing/pairing.go) and the NUL-separated invite-proof message
    (internal/rendezvous/token.go).

    Cryptography is symbolic: each byte of a MAC or a signature remembers the key and the
    message it was computed from, so equal outputs come from equal inputs.  A string stands
    for a Go string, one character per byte. */
module Transcripts {
  import opened Numerals
  import opened Text

  datatype Cell =
    | Octet(code: nat)
    | MacCell(key: seq<Cell>, message: seq<Cell>, index: nat)
    | SigCell(signer: seq<Cell>, message: seq<Cell>, index: nat)

  type Bytes = seq<Cell>

  const TWO32 := 0x1_0000_0000
  const TWO64 := 0x1_0000_0000_0000_0000
  const PROOF_SIZE := 32
  const SIGNATURE_SIZE := 64
  const PROOF_LABEL: string := "DeskAccess identity proof v1"
  const BINDING_LABEL: string := "DeskAccess node identity binding v1"
  const INVITE_LABEL: string := "deskaccess invite proof v1"
  const NUL := Octet(0)

  /** hmac.New(sha256.New, key) over the message. */
  function Mac(key: Bytes, message: Bytes): (m: Bytes)
    ensures |m| == PROOF_SIZE
  {
    seq(PROOF_SIZE, i requires 0 <= i => MacCell(key, message, i))
  }

  /** A signature by the holder of the private half of signer. */
  function Sign(signer: Bytes, message: Bytes): (s: Bytes)
    ensures |s| == SIGNATURE_SIZE
  {
    seq(SIGNATURE_SIZE, i requires 0 <= i => SigCell(signer, message, i))
  }

  function Str(s: string): (b: Bytes)
    ensures |b| == |s|
  {
    seq(|s|, i requires 0 <= i < |s| => Octet(s[i] as int))
  }

  function Cells(bs: seq<byte>): (c: Bytes)
    ensures |c| == |bs|
  {
    seq(|bs|, i requires 0 <= i < |bs| => Octet(bs[i]))
  }

  function BE(n: nat, k: nat): (b: Bytes)
    ensures |b| == k
  {
    Cells(BigEndian(n, k))
  }

  /** appendString / appendBytes: uint32(len) and the bytes. */
  function Field(b: Bytes): Bytes {
    BE(|b| % TWO32, 4) + b
  }

  function Fields(fs: seq<Bytes>): Bytes {
    if fs == [] then [] else Field(fs[0]) + Fields(fs[1..])
  }

  /** PutUint64(uint64(window)). */
  function Window(w: int): Bytes {
    BE(w % TWO64, 8)
  }

  /** Everything an identity proof speaks about. */
  datatype Claim = Claim(
    role: string, signer: string, verifier: string, mode: string,
    inviteID: Bytes, inviteProof: Bytes, sessionToken: Bytes, window: int)

  function ClaimFields(c: Claim): seq<Bytes> {
    [Str(PROOF_LABEL), Str(c.role), Str(c.signer), Str(c.verifier), Str(c.mode),
     c.inviteID, c.inviteProof, c.sessionToken]
  }

  function IdentityProofMessage(c: Claim): Bytes {
    Fields(ClaimFields(c)) + Window(c.window)
  }

  /** The attributes of a proof that the node key vouches for. */
  datatype Bound = Bound(backend: string, machineID: string, publicKey: Bytes, signature: Bytes)

  function BindingFields(message: Bytes, b: Bound): seq<Bytes> {
    [Str(BINDING_LABEL), message, Str(b.backend), Str(b.machineID), b.publicKey, b.signature]
  }

  function IdentityBindingMessage(message: Bytes, b: Bound): Bytes {
    Fields(BindingFields(message, b))
  }

  function InviteProofMessage(inviteID: Bytes, host: string, client: string, mode: string, window: int): Bytes {
    Str(INVITE_LABEL) + ([NUL] + (inviteID + ([NUL] + (Str(host) + ([NUL] + (Str(client) + ([NUL]
    + (Str(mode) + ([NUL] + Window(window))))))))))
  }

  function InviteProof(
      secret: Bytes, inviteID: Bytes, host: string, client: string, mode: string, window: int): (p: Bytes)
    ensures |p| == PROOF_SIZE
  {
    Mac(secret, InviteProofMessage(inviteID, host, client, mode, window))
  }

  // --- the pieces are injective ---

  lemma MacInjective(k1: Bytes, m1: Bytes, k2: Bytes, m2: Bytes)
    requires Mac(k1, m1) == Mac(k2, m2)
    ensures k1 == k2 && m1 == m2
  {
    assert Mac(k1, m1)[0] == MacCell(k1, m1, 0);
    assert Mac(k2, m2)[0] == MacCell(k2, m2, 0);
  }

  lemma SignInjective(k1: Bytes, m1: Bytes, k2: Bytes, m2: Bytes)
    requires Sign(k1, m1) == Sign(k2, m2)
    ensures k1 == k2 && m1 == m2
  {
    assert Sign(k1, m1)[0] == SigCell(k1, m1, 0);
    assert Sign(k2, m2)[0] == SigCell(k2, m2, 0);
  }

  lemma StrInjective(s: string, t: string)
    requires Str(s) == Str(t)
    ensures s == t
  {
    forall i | 0 <= i < |s| ensures s[i] == t[i] {
      assert Str(s)[i] == Str(t)[i];
    }
  }

  lemma CellsInjective(x: seq<byte>, y: seq<byte>)
    requires Cells(x) == Cells(y)
    ensures x == y
  {
    forall i | 0 <= i < |x| ensures x[i] == y[i] {
      assert Cells(x)[i] == Cells(y)[i];
    }
  }

  lemma BEInjective(x: nat, y: nat, k: nat)
    requires BE(x, k) == BE(y, k) && x < Pow(256, k) && y < Pow(256, k)
    ensures x == y
  {
    CellsInjective(BigEndian(x, k), BigEndian(y, k));
    ValueOfBigEndian(x, k);
    ValueOfBigEndian(y, k);
  }

  lemma ConcatSplit<T>(a: seq<T>, b: seq<T>, x: seq<T>, y: seq<T>)
    requires |a| == |b| && a + x == b + y
    ensures a == b && x == y
  {
    assert a == (a + x)[..|a|] && b == (b + y)[..|b|];
    assert x == (a + x)[|a|..] && y == (b + y)[|b|..];
  }

  lemma PrefixInjective(m: nat, n: nat)
    requires m < TWO32 && n < TWO32 && BE(m, 4) == BE(n, 4)
    ensures m == n
  {
    assert Pow(256, 4) == TWO32;
    BEInjective(m, n, 4);
  }

  lemma PrefixedSplit(p: Bytes, a: Bytes, x: Bytes, q: Bytes, b: Bytes, y: Bytes)
    requires |p| == |q| && (p + a) + x == (q + b) + y
    ensures p == q && a + x == b + y
  {
    Assoc(p, a, x);
    Assoc(q, b, y);
    ConcatSplit(p, q, a + x, b + y);
  }

  lemma FieldSplit(a: Bytes, b: Bytes, x: Bytes, y: Bytes)
    requires |a| < TWO32 && |b| < TWO32
    requires Field(a) + x == Field(b) + y
    ensures a == b && x == y
  {
    PrefixedSplit(BE(|a|, 4), a, x, BE(|b|, 4), b, y);
    PrefixInjective(|a|, |b|);
    ConcatSplit(a, b, x, y);
  }

  ghost predicate Short(fs: seq<Bytes>) {
    forall i :: 0 <= i < |fs| ==> |fs[i]| < TWO32
  }

  lemma FieldsCons(fs: seq<Bytes>, x: Bytes)
    requires fs != []
    ensures Fields(fs) + x == Field(fs[0]) + (Fields(fs[1..]) + x)
  {
    Assoc(Field(fs[0]), Fields(fs[1..]), x);
  }

  /** A sequence of length-prefixed fields can be read back in only one way. */
  lemma {:induction false} FieldsInjective(fs: seq<Bytes>, gs: seq<Bytes>, x: Bytes, y: Bytes)
    requires |fs| == |gs| && Short(fs) && Short(gs)
    requires Fields(fs) + x == Fields(gs) + y
    ensures fs == gs && x == y
  {
    if fs == [] {
      assert x == Fields(fs) + x && y == Fields(gs) + y;
    } else {
      FieldsCons(fs, x);
      FieldsCons(gs, y);
      FieldSplit(fs[0], gs[0], Fields(fs[1..]) + x, Fields(gs[1..]) + y);
      FieldsInjective(fs[1..], gs[1..], x, y);
      assert fs == [fs[0]] + fs[1..] && gs == [gs[0]] + gs[1..];
    }
  }

  ghost predicate IsInt64(w: int) { -0x8000_0000_0000_0000 <= w < 0x8000_0000_0000_0000 }

  lemma WindowInjective(v: int, w: int)
    requires IsInt64(v) && IsInt64(w) && Window(v) == Window(w)
    ensures v == w
  {
    PowTwo64();
    BEInjective(v % TWO64, w % TWO64, 8);
    Wrapped(v);
    Wrapped(w);
  }

  lemma Wrapped(v: int)
    requires IsInt64(v)
    ensures v % TWO64 == if v >= 0 then v else v + TWO64
  {
  }

  lemma PowTwo64()
    ensures Pow(256, 8) == TWO64
  {
    assert Pow(256, 4) == TWO32;
    assert Pow(256, 8) == 256 * (256 * (256 * (256 * Pow(256, 4))));
  }

  // --- the transcripts are unambiguous ---

  lemma ClaimsUnambiguous(c: Claim, d: Claim)
    requires Short(ClaimFields(c)) && Short(ClaimFields(d)) && IsInt64(c.window) && IsInt64(d.window)
    requires IdentityProofMessage(c) == IdentityProofMessage(d)
    ensures c == d
  {
    var fs, gs := ClaimFields(c), ClaimFields(d);
    FieldsInjective(fs, gs, Window(c.window), Window(d.window));
    assert fs[1] == gs[1] && fs[2] == gs[2] && fs[3] == gs[3] && fs[4] == gs[4];
    assert fs[5] == gs[5] && fs[6] == gs[6] && fs[7] == gs[7];
    StrInjective(c.role, d.role);
    StrInjective(c.signer, d.signer);
    StrInjective(c.verifier, d.verifier);
    StrInjective(c.mode, d.mode);
    WindowInjective(c.window, d.window);
  }

  lemma BindingsUnambiguous(m: Bytes, b: Bound, n: Bytes, c: Bound)
    requires Short(BindingFields(m, b)) && Short(BindingFields(n, c))
    requires IdentityBindingMessage(m, b) == IdentityBindingMessage(n, c)
    ensures m == n && b == c
  {
    var fs, gs := BindingFields(m, b), BindingFields(n, c);
    FieldsInjective(fs, gs, [], []);
    assert fs[1] == gs[1] && fs[2] == gs[2] && fs[3] == gs[3] && fs[4] == gs[4] && fs[5] == gs[5];
    StrInjective(b.backend, c.backend);
    StrInjective(b.machineID, c.machineID);
  }

  /** A transcript is never also a binding: a signature over one is not one over the other. */
  lemma TranscriptsNeverCollide(c: Claim, m: Bytes, b: Bound)
    ensures IdentityProofMessage(c) != IdentityBindingMessage(m, b)
  {
    LabelsDiffer();
    var q := IdentityBindingMessage(m, b);
    assert q + [] == q;
    FirstField(ClaimFields(c), Window(c.window), BindingFields(m, b), []);
  }

  lemma LabelsDiffer()
    ensures |Str(PROOF_LABEL)| == 28 && |Str(BINDING_LABEL)| == 35
  {
  }

  lemma FirstField(fs: seq<Bytes>, x: Bytes, gs: seq<Bytes>, y: Bytes)
    requires fs != [] && gs != [] && |fs[0]| < TWO32 && |gs[0]| < TWO32
    ensures Fields(fs) + x == Fields(gs) + y ==> fs[0] == gs[0]
  {
    if Fields(fs) + x == Fields(gs) + y {
      FieldsCons(fs, x);
      FieldsCons(gs, y);
      FieldSplit(fs[0], gs[0], Fields(fs[1..]) + x, Fields(gs[1..]) + y);
    }
  }

  lemma NulSplit(a: Bytes, b: Bytes, x: Bytes, y: Bytes)
    requires NUL !in a && NUL !in b
    requires a + ([NUL] + x) == b + ([NUL] + y)
    ensures a == b && x == y
  {
    var s, t := a + ([NUL] + x), b + ([NUL] + y);
    assert s[|a|] == NUL && t[|b|] == NUL;
    assert forall i :: 0 <= i < |a| ==> s[i] == a[i];
    assert forall i :: 0 <= i < |b| ==> t[i] == b[i];
    assert |a| == |b|;
    ConcatSplit(a, b, [NUL] + x, [NUL] + y);
    ConcatSplit([NUL], [NUL], x, y);
  }

  ghost predicate NulFree(s: string) { forall i :: 0 <= i < |s| ==> s[i] != '\0' }

  lemma LabelsAre()
    ensures PROOF_LABEL == "DeskAccess identity proof v1" && BINDING_LABEL == "DeskAccess node identity binding v1"
    ensures INVITE_LABEL == "deskaccess invite proof v1"
  {
  }

  /** The transcript, field by field. */
  lemma ProofLayout(c: Claim)
    ensures IdentityProofMessage(c) ==
      (Field(Str(PROOF_LABEL)) + Field(Str(c.role)) + Field(Str(c.signer)) + Field(Str(c.verifier)))
      + (Field(Str(c.mode)) + Field(c.inviteID) + Field(c.inviteProof) + Field(c.sessionToken)) + Window(c.window)
  {
    var head := [Str(PROOF_LABEL), Str(c.role), Str(c.signer), Str(c.verifier)];
    var tail := [Str(c.mode), c.inviteID, c.inviteProof, c.sessionToken];
    assert ClaimFields(c) == head + tail;
    FieldsConcat(head, tail);
    FourFields(head);
    FourFields(tail);
  }

  lemma FourFields(fs: seq<Bytes>)
    requires |fs| == 4
    ensures Fields(fs) == Field(fs[0]) + Field(fs[1]) + Field(fs[2]) + Field(fs[3])
  {
    var rest := fs[1..];
    assert rest == [fs[1], fs[2], fs[3]];
    ThreeFields(fs[1], fs[2], fs[3]);
  }

  lemma BindingLayout(m: Bytes, b: Bound)
    ensures IdentityBindingMessage(m, b) ==
      (Field(Str(BINDING_LABEL)) + Field(m) + Field(Str(b.backend)))
      + (Field(Str(b.machineID)) + Field(b.publicKey) + Field(b.signature))
  {
    var head, tail := [Str(BINDING_LABEL), m, Str(b.backend)], [Str(b.machineID), b.publicKey, b.signature];
    assert BindingFields(m, b) == head + tail;
    FieldsConcat(head, tail);
    ThreeFields(Str(BINDING_LABEL), m, Str(b.backend));
    ThreeFields(Str(b.machineID), b.publicKey, b.signature);
  }

  /** A field: four bytes that give the length, most significant first, then the bytes. */
  lemma FieldLayout(b: Bytes)
    requires |b| < TWO32
    ensures |Field(b)| == 4 + |b| && Field(b)[4..] == b
    ensures Field(b)[..4]
      == [Octet(|b| / 0x100_0000), Octet(|b| / 0x1_0000 % 256), Octet(|b| / 0x100 % 256), Octet(|b| % 256)]
  {
    var n := |b|;
    assert BigEndian(n / 0x100_0000, 1) == BigEndian(n / 0x100_0000 / 256, 0) + [n / 0x100_0000 % 256];
    assert BigEndian(n / 0x1_0000, 2) == BigEndian(n / 0x1_0000 / 256, 1) + [n / 0x1_0000 % 256];
    assert BigEndian(n / 0x100, 3) == BigEndian(n / 0x100 / 256, 2) + [n / 0x100 % 256];
    assert BigEndian(n, 4) == BigEndian(n / 256, 3) + [n % 256];
  }

  // --- the invite-proof message ---

  function Middle(host: string, client: string, mode: string): Bytes {
    Str(host) + ([NUL] + (Str(client) + ([NUL] + Str(mode))))
  }

  lemma MessageParts(inviteID: Bytes, host: string, client: string, mode: string, w: int)
    ensures InviteProofMessage(inviteID, host, client, mode, w) ==
      (Str(INVITE_LABEL) + [NUL] + inviteID + [NUL]) + (Middle(host, client, mode) + ([NUL] + Window(w)))
  {
    var end := [NUL] + Window(w);
    assert Middle(host, client, mode) + end == Str(host) + ([NUL] + (Str(client) + ([NUL] + (Str(mode) + end))));
    HeadParts(Str(INVITE_LABEL), inviteID, Middle(host, client, mode) + end);
  }

  lemma HeadParts(l: Bytes, id: Bytes, rest: Bytes)
    ensures (l + [NUL] + id + [NUL]) + rest == l + ([NUL] + (id + ([NUL] + rest)))
  {
  }

  /** IDs and windows have fixed sizes, so only the three strings can be cut differently. */
  lemma SameMiddle(
      id1: Bytes, host1: string, client1: string, mode1: string, w1: int,
      id2: Bytes, host2: string, client2: string, mode2: string, w2: int)
    requires |id1| == 16 && |id2| == 16 && IsInt64(w1) && IsInt64(w2)
    requires InviteProofMessage(id1, host1, client1, mode1, w1) == InviteProofMessage(id2, host2, client2, mode2, w2)
    ensures id1 == id2 && w1 == w2 && Middle(host1, client1, mode1) == Middle(host2, client2, mode2)
  {
    MessageParts(id1, host1, client1, mode1, w1);
    MessageParts(id2, host2, client2, mode2, w2);
    var l := Str(INVITE_LABEL) + [NUL];
    var m1, m2 := Middle(host1, client1, mode1), Middle(host2, client2, mode2);
    ConcatSplit(l + id1 + [NUL], l + id2 + [NUL], m1 + ([NUL] + Window(w1)), m2 + ([NUL] + Window(w2)));
    ConcatSplit(l + id1, l + id2, [NUL], [NUL]);
    ConcatSplit(l, l, id1, id2);
    ConcatSplit(m1, m2, [NUL] + Window(w1), [NUL] + Window(w2));
    ConcatSplit([NUL], [NUL], Window(w1), Window(w2));
    WindowInjective(w1, w2);
  }

  function Nuls(b: Bytes): nat { multiset(b)[NUL] }

  lemma NulsOfMiddle(host: string, client: string, mode: string)
    ensures Nuls(Middle(host, client, mode)) == Nuls(Str(host)) + Nuls(Str(client)) + Nuls(Str(mode)) + 2
  {
  }

  lemma NulFreeIff(s: string)
    ensures NulFree(s) <==> Nuls(Str(s)) == 0
    ensures NulFree(s) <==> NUL !in Str(s)
  {
    if !NulFree(s) {
      var i :| 0 <= i < |s| && s[i] == '\0';
      assert Str(s)[i] == NUL;
    }
  }

  /** The middle of NUL-free strings can be cut in one way only, whatever the other strings hold. */
  lemma MiddleInjective(host1: string, client1: string, mode1: string, host2: string, client2: string, mode2: string)
    requires NulFree(host1) && NulFree(client1) && NulFree(mode1)
    requires Middle(host1, client1, mode1) == Middle(host2, client2, mode2)
    ensures host1 == host2 && client1 == client2 && mode1 == mode2
  {
    NulsOfMiddle(host1, client1, mode1);
    NulsOfMiddle(host2, client2, mode2);
    NulFreeIff(host1); NulFreeIff(client1); NulFreeIff(mode1);
    NulFreeIff(host2); NulFreeIff(client2); NulFreeIff(mode2);
    NulSplit(Str(host1), Str(host2), Str(client1) + ([NUL] + Str(mode1)), Str(client2) + ([NUL] + Str(mode2)));
    NulSplit(Str(client1), Str(client2), Str(mode1), Str(mode2));
    StrInjective(host1, host2);
    StrInjective(client1, client2);
    StrInjective(mode1, mode2);
  }

  /** A message for a 16-byte ID and NUL-free strings is a message for nothing else. */
  lemma InviteProofMessageInjective(
      id1: Bytes, host1: string, client1: string, mode1: string, w1: int,
      id2: Bytes, host2: string, client2: string, mode2: string, w2: int)
    requires |id1| == 16 && |id2| == 16 && IsInt64(w1) && IsInt64(w2)
    requires NulFree(host1) && NulFree(client1) && NulFree(mode1)
    requires InviteProofMessage(id1, host1, client1, mode1, w1) == InviteProofMessage(id2, host2, client2, mode2, w2)
    ensures id1 == id2 && host1 == host2 && client1 == client2 && mode1 == mode2 && w1 == w2
  {
    SameMiddle(id1, host1, client1, mode1, w1, id2, host2, client2, mode2, w2);
    MiddleInjective(host1, client1, mode1, host2, client2, mode2);
  }

  lemma StrConcat(a: string, b: string)
    ensures Str(a + b) == Str(a) + Str(b)
  {
  }

  lemma StrAround(x: string, y: string)
    ensures Str(x + ['\0'] + y) == Str(x) + ([NUL] + Str(y))
  {
    StrConcat(x + ['\0'], y);
    StrConcat(x, ['\0']);
    assert Str(['\0']) == [NUL];
  }

  /** A NUL inside a string can be taken for the separator: two different peers, one message. */
  lemma NulShiftsBoundary(inviteID: Bytes, x: string, y: string, a: string, b: string, w: int)
    ensures InviteProofMessage(inviteID, x + ['\0'] + y, a, b, w)
      == InviteProofMessage(inviteID, x, y, a + ['\0'] + b, w)
    ensures InviteProofMessage(inviteID, a, x + ['\0'] + y, b, w)
      == InviteProofMessage(inviteID, a + ['\0'] + x, y, b, w)
    ensures InviteProofMessage(inviteID, a, b, x + ['\0'] + y, w)
      == InviteProofMessage(inviteID, a + ['\0'] + b, x, y, w)
  {
    StrAround(x, y);
    StrAround(a, b);
    StrAround(a, x);
    FourParts(Str(x), Str(y), Str(a), Str(b));
    FourParts(Str(a), Str(x), Str(y), Str(b));
    FourParts(Str(a), Str(b), Str(x), Str(y));
    SameMessage(inviteID, x + ['\0'] + y, a, b, x, y, a + ['\0'] + b, w);
    SameMessage(inviteID, a, x + ['\0'] + y, b, a + ['\0'] + x, y, b, w);
    SameMessage(inviteID, a, b, x + ['\0'] + y, a + ['\0'] + b, x, y, w);
  }

  /** Four strings joined by NULs, cut after the first, the second or the third. */
  lemma FourParts(a: Bytes, b: Bytes, c: Bytes, d: Bytes)
    ensures (a + ([NUL] + b)) + ([NUL] + (c + ([NUL] + d))) == a + ([NUL] + (b + ([NUL] + (c + ([NUL] + d)))))
    ensures a + ([NUL] + ((b + ([NUL] + c)) + ([NUL] + d))) == a + ([NUL] + (b + ([NUL] + (c + ([NUL] + d)))))
  {
  }

  lemma SameMessage(
      inviteID: Bytes, host1: string, client1: string, mode1: string, host2: string, client2: string, mode2: string,
      w: int)
    requires Middle(host1, client1, mode1) == Middle(host2, client2, mode2)
    ensures InviteProofMessage(inviteID, host1, client1, mode1, w)
      == InviteProofMessage(inviteID, host2, client2, mode2, w)
  {
    MessageParts(inviteID, host1, client1, mode1, w);
    MessageParts(inviteID, host2, client2, mode2, w);
  }

  /** Everything with this message is the same invite, host, client, mode and window. */
  ghost predicate ReadsOneWay(id: Bytes, host: string, client: string, mode: string, w: int) {
    forall id2, host2, client2, mode2, w2 ::
      |id2| == 16 && IsInt64(w2)
      && InviteProofMessage(id2, host2, client2, mode2, w2) == InviteProofMessage(id, host, client, mode, w)
      ==> id2 == id && host2 == host && client2 == client && mode2 == mode && w2 == w
  }

  lemma CutAtNul(s: string) returns (x: string, y: string)
    requires !NulFree(s)
    ensures s == x + ['\0'] + y
  {
    var i :| 0 <= i < |s| && s[i] == '\0';
    x, y := s[..i], s[i + 1..];
  }

  /** Exactly which messages can be read one way only. */
  lemma InviteProofReadsOneWayIff(id: Bytes, host: string, client: string, mode: string, w: int)
    requires |id| == 16 && IsInt64(w)
    ensures ReadsOneWay(id, host, client, mode, w) <==> NulFree(host) && NulFree(client) && NulFree(mode)
  {
    if NulFree(host) && NulFree(client) && NulFree(mode) {
      forall id2, host2, client2, mode2, w2 |
        |id2| == 16 && IsInt64(w2)
        && InviteProofMessage(id2, host2, client2, mode2, w2) == InviteProofMessage(id, host, client, mode, w)
        ensures id2 == id && host2 == host && client2 == client && mode2 == mode && w2 == w
      {
        InviteProofMessageInjective(id, host, client, mode, w, id2, host2, client2, mode2, w2);
      }
    } else if !NulFree(host) {
      var x, y := CutAtNul(host);
      NulShiftsBoundary(id, x, y, client, mode, w);
      assert |x| < |host|;
    } else if !NulFree(client) {
      var x, y := CutAtNul(client);
      NulShiftsBoundary(id, x, y, host, mode, w);
      assert |host + ['\0'] + x| > |host|;
    } else {
      var x, y := CutAtNul(mode);
      NulShiftsBoundary(id, x, y, host, client, w);
      assert |host + ['\0'] + client| > |host|;
    }
  }

  // --- the length prefix ---

  /** At 2^32 bytes the length prefix wraps to zero and two different claims share a transcript. */
  lemma LengthPrefixWraps(role: string, signer: string, verifier: string, mode: string, w: int, z: Bytes)
    requires |z| == TWO32 && forall i :: 0 <= i < |z| ==> z[i] == Octet(0)
    ensures IdentityProofMessage(Claim(role, signer, verifier, mode, z, [], [], w))
         == IdentityProofMessage(Claim(role, signer, verifier, mode, [], [], z, w))
  {
    var head := [Str(PROOF_LABEL), Str(role), Str(signer), Str(verifier), Str(mode)];
    assert head + [z, [], []] == ClaimFields(Claim(role, signer, verifier, mode, z, [], [], w));
    assert head + [[], [], z] == ClaimFields(Claim(role, signer, verifier, mode, [], [], z, w));
    FieldsConcat(head, [z, [], []]);
    FieldsConcat(head, [[], [], z]);
    ZerosMove(z);
  }

  lemma ZerosMove(z: Bytes)
    requires |z| == TWO32 && forall i :: 0 <= i < |z| ==> z[i] == Octet(0)
    ensures Fields([z, [], []]) == Fields([[], [], z])
  {
    ThreeFields(z, [], []);
    ThreeFields([], [], z);
    ZeroPrefix();
    var p := BE(0, 4);
    assert Field(z) == p + z && Field([]) == p;
    assert forall i :: 0 <= i < 4 ==> p[i] == Octet(0);
    assert (p + z) + p + p == p + p + (p + z);
  }

  lemma ThreeFields(a: Bytes, b: Bytes, c: Bytes)
    ensures Fields([a, b, c]) == Field(a) + Field(b) + Field(c)
  {
    var abc, bc, last := [a, b, c], [b, c], [c];
    assert abc[1..] == bc && bc[1..] == last;
    assert Fields(last) == Field(c);
  }

  lemma ZeroPrefix()
    ensures BE(0, 4) == [NUL, NUL, NUL, NUL]
  {
    assert BigEndian(0, 1) == [0];
    assert BigEndian(0, 2) == [0, 0];
    assert BigEndian(0, 3) == [0, 0, 0];
    assert BigEndian(0, 4) == [0, 0, 0, 0];
  }

  lemma {:induction false} FieldsConcat(fs: seq<Bytes>, gs: seq<Bytes>)
    ensures Fields(fs + gs) == Fields(fs) + Fields(gs)
  {
    if fs == [] {
      assert fs + gs == gs;
    } else {
      FieldsConcat(fs[1..], gs);
      FieldsFirst(fs, gs);
      Assoc(Field(fs[0]), Fields(fs[1..]), Fields(gs));
    }
  }

  lemma FieldsFirst(fs: seq<Bytes>, gs: seq<Bytes>)
    requires fs != []
    ensures Fields(fs + gs) == Field(fs[0]) + Fields(fs[1..] + gs)
  {
    assert (fs + gs)[1..] == fs[1..] + gs;
  }

  ghost predicate AtMost(c: Claim, n: nat) {
    && |c.role| <= n && |c.signer| <= n && |c.verifier| <= n && |c.mode| <= n
    && |c.inviteID| <= n && |c.inviteProof| <= n && |c.sessionToken| <= n && IsInt64(c.window)
  }

  /** No two claims with parts of at most n bytes share a transcript. */
  ghost predicate UnambiguousUpTo(n: nat) {
    forall c, d :: AtMost(c, n) && AtMost(d, n) && IdentityProofMessage(c) == IdentityProofMessage(d) ==> c == d
  }

  lemma AtMostIsShort(c: Claim, n: nat)
    requires AtMost(c, n) && n < TWO32
    ensures Short(ClaimFields(c))
  {
    LabelsDiffer();
  }

  /** The transcripts are unambiguous exactly up to the length that the prefix can hold. */
  lemma UnambiguousUpToIff(n: nat)
    ensures UnambiguousUpTo(n) <==> n < TWO32
  {
    if n < TWO32 {
      forall c, d | AtMost(c, n) && AtMost(d, n) && IdentityProofMessage(c) == IdentityProofMessage(d) ensures c == d {
        AtMostIsShort(c, n);
        AtMostIsShort(d, n);
        ClaimsUnambiguous(c, d);
      }
    } else {
      var z := seq(TWO32, i => NUL);
      LengthPrefixWraps("", "", "", "", 0, z);
      var c, d := Claim("", "", "", "", z, [], [], 0), Claim("", "", "", "", [], [], z, 0);
      assert AtMost(c, n) && AtMost(d, n) && c.inviteID != d.inviteID;
    }
  }
}
