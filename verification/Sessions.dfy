/** Session tokens (SessionStore in internal/protocol/protocol.go): short-lived, use-limited
    capabilities, each bound to a peer and a port. */
module Sessions {
  import opened Text
  import opened Tokens
  import opened Transcripts

  const TTL := 120 * SECOND
  const MAX_USES := 16

  datatype Grant = Grant(peerID: string, targetPort: int)
  datatype Entry = Entry(expiresAt: int, grant: Grant, usesLeft: int)
  type Store = map<Bytes, Entry>

  function Issued(s: Store, token: Bytes, peerID: string, port: int, now: int): Store {
    s[token := Entry(now + TTL, Grant(peerID, port), MAX_USES)]
  }

  function Swept(s: Store, now: int): Store {
    map k | k in s && now <= s[k].expiresAt :: s[k]
  }

  /** VerifyGrant: the store afterwards and the grant, if any. */
  function Verified(s: Store, token: Bytes, now: int): (Store, Option<Grant>) {
    if token !in s then (s, None)
    else
      var e := s[token];
      if now > e.expiresAt then (s - {token}, None)
      else if e.usesLeft <= 0 then (s - {token}, None)
      else if e.usesLeft - 1 <= 0 then (s - {token}, Some(e.grant))
      else (s[token := e.(usesLeft := e.usesLeft - 1)], Some(e.grant))
  }

  class SessionStore {
    var tokens: Store

    constructor ()
      ensures tokens == map[]
    {
      tokens := map[];
    }

    /** The clock is read once for the entry and again for the sweep. */
    method Issue(token: Bytes, peerID: string, port: int, now: int, later: int)
      modifies this
      ensures tokens == Swept(Issued(old(tokens), token, peerID, port, now), later)
    {
      tokens := tokens[token := Entry(now + TTL, Grant(peerID, port), MAX_USES)];
      Sweep(later);
    }

    method VerifyGrant(token: Bytes, now: int) returns (grant: Option<Grant>)
      modifies this
      ensures (tokens, grant) == Verified(old(tokens), token, now)
    {
      if token !in tokens {
        return None;
      }
      var e := tokens[token];
      if now > e.expiresAt {
        tokens := tokens - {token};
        return None;
      }
      if e.usesLeft <= 0 {
        tokens := tokens - {token};
        return None;
      }
      e := e.(usesLeft := e.usesLeft - 1);
      if e.usesLeft <= 0 {
        tokens := tokens - {token};
      } else {
        tokens := tokens[token := e];
      }
      grant := Some(e.grant);
    }

    /** Deleting while ranging over the map. */
    method Sweep(now: int)
      modifies this
      ensures tokens == Swept(old(tokens), now)
    {
      var left := tokens.Keys;
      while left != {}
        invariant left <= tokens.Keys <= old(tokens).Keys
        invariant forall k :: k in tokens ==> tokens[k] == old(tokens)[k]
        invariant forall k :: k in old(tokens) && k !in left ==> (k in tokens <==> now <= old(tokens)[k].expiresAt)
        decreases left
      {
        var k :| k in left;
        left := left - {k};
        if now > tokens[k].expiresAt {
          tokens := tokens - {k};
        }
      }
    }
  }

  // --- runs ---

  datatype Op =
    | IssueOp(token: Bytes, peerID: string, port: int, at: int)
    | VerifyOp(token: Bytes, at: int)
    | SweepOp(at: int)

  function After(s: Store, op: Op): Store {
    match op
    case IssueOp(token, peerID, port, at) => Issued(s, token, peerID, port, at)
    case VerifyOp(token, at) => Verified(s, token, at).0
    case SweepOp(at) => Swept(s, at)
  }

  /** What the last operation of a run answers (None for operations without an answer). */
  function Answer(s: Store, op: Op): Option<Grant> {
    match op
    case VerifyOp(token, at) => Verified(s, token, at).1
    case _ => None
  }

  function Run(ops: seq<Op>): Store {
    if ops == [] then map[] else After(Run(ops[..|ops| - 1]), ops[|ops| - 1])
  }

  /** The latest issue of the token in the run: its grant and its time. */
  function LastIssue(ops: seq<Op>, token: Bytes): Option<(Grant, int)> {
    if ops == [] then None
    else
      var op := ops[|ops| - 1];
      if op.IssueOp? && op.token == token then Some((Grant(op.peerID, op.port), op.at))
      else LastIssue(ops[..|ops| - 1], token)
  }

  /** How often the token was verified successfully since that issue. */
  function Uses(ops: seq<Op>, token: Bytes): nat {
    if ops == [] then 0
    else
      var front, op := ops[..|ops| - 1], ops[|ops| - 1];
      if op.IssueOp? && op.token == token then 0
      else if op.VerifyOp? && op.token == token && Answer(Run(front), op).Some? then Uses(front, token) + 1
      else Uses(front, token)
  }

  /** Uses are conserved: what is left plus what was spent is always 16, an entry that is stored
      has a use left, and it is the entry that was issued. */
  lemma {:induction false} UsesConserved(ops: seq<Op>, token: Bytes)
    ensures Uses(ops, token) <= MAX_USES
    ensures LastIssue(ops, token) == None ==> Uses(ops, token) == 0
    ensures token in Run(ops) ==>
      LastIssue(ops, token).Some? && Run(ops)[token].usesLeft >= 1
      && Run(ops)[token]
        == Entry(LastIssue(ops, token).value.1 + TTL, LastIssue(ops, token).value.0, MAX_USES - Uses(ops, token))
  {
    if ops != [] {
      UsesConserved(ops[..|ops| - 1], token);
    }
  }

  /** Every successful verification returns the grant the token was issued with, within the
      TTL, as one of its at most 16 uses. */
  lemma SuccessIsIssued(ops: seq<Op>, token: Bytes, at: int)
    requires Verified(Run(ops), token, at).1.Some?
    ensures LastIssue(ops, token).Some?
    ensures var issue := LastIssue(ops, token).value;
      Verified(Run(ops), token, at).1 == Some(issue.0) && at <= issue.1 + TTL && Uses(ops, token) < MAX_USES
  {
    UsesConserved(ops, token);
  }

  /** Nothing in the run happened after now. */
  ghost predicate NoneAfter(ops: seq<Op>, now: int) {
    forall i :: 0 <= i < |ops| ==> ops[i].at <= now
  }

  /** A token that is neither expired nor used up is still there. */
  lemma {:induction false} LiveTokenStored(ops: seq<Op>, token: Bytes, now: int)
    requires NoneAfter(ops, now) && LastIssue(ops, token).Some?
    requires now <= LastIssue(ops, token).value.1 + TTL && Uses(ops, token) < MAX_USES
    ensures token in Run(ops)
    ensures Run(ops)[token]
      == Entry(LastIssue(ops, token).value.1 + TTL, LastIssue(ops, token).value.0, MAX_USES - Uses(ops, token))
  {
    var front, op := ops[..|ops| - 1], ops[|ops| - 1];
    assert op.at <= now;
    if !(op.IssueOp? && op.token == token) {
      LiveTokenStored(front, token, now);
    }
  }

  /** Exactly when a verification succeeds, and with what: for 120 s after the latest issue, 16
      times, with the grant of that issue. */
  lemma SuccessIff(ops: seq<Op>, token: Bytes, at: int, grant: Grant)
    requires NoneAfter(ops, at)
    ensures Verified(Run(ops), token, at).1 == Some(grant) <==>
      && LastIssue(ops, token).Some? && LastIssue(ops, token).value.0 == grant
      && at <= LastIssue(ops, token).value.1 + 120 * SECOND && Uses(ops, token) < 16
  {
    UsesConserved(ops, token);
    if LastIssue(ops, token).Some? && at <= LastIssue(ops, token).value.1 + TTL && Uses(ops, token) < MAX_USES {
      LiveTokenStored(ops, token, at);
    }
  }

  // --- sweeping is unobservable ---

  /** The same run without any sweep: entries expire only when they are looked at. */
  function LazyRun(ops: seq<Op>): Store {
    if ops == [] then map[]
    else
      var op := ops[|ops| - 1];
      if op.SweepOp? then LazyRun(ops[..|ops| - 1]) else After(LazyRun(ops[..|ops| - 1]), op)
  }

  ghost predicate TimesRise(ops: seq<Op>) {
    forall i, j :: 0 <= i < j < |ops| ==> ops[i].at <= ops[j].at
  }

  /** The swept store is the lazy store minus entries that are already dead. */
  ghost predicate Simulates(s: Store, l: Store, now: int) {
    && (forall k :: k in s ==> k in l && s[k] == l[k])
    && (forall k :: k in l && k !in s ==> now > l[k].expiresAt)
  }

  lemma SimulationStep(s: Store, l: Store, op: Op)
    requires Simulates(s, l, op.at)
    ensures Simulates(After(s, op), if op.SweepOp? then l else After(l, op), op.at)
    ensures Answer(s, op) == Answer(l, op)
  {
  }

  lemma {:induction false} SweepSimulation(ops: seq<Op>, now: int)
    requires TimesRise(ops) && forall i :: 0 <= i < |ops| ==> ops[i].at <= now
    ensures Simulates(Run(ops), LazyRun(ops), now)
  {
    if ops != [] {
      var front, op := ops[..|ops| - 1], ops[|ops| - 1];
      SweepSimulation(front, op.at);
      SimulationStep(Run(front), LazyRun(front), op);
      assert Simulates(Run(ops), LazyRun(ops), op.at);
    }
  }

  /** No verification, now or later, can tell whether sweeps took place. */
  lemma SweepUnobservable(ops: seq<Op>, token: Bytes, at: int)
    requires TimesRise(ops) && forall i :: 0 <= i < |ops| ==> ops[i].at <= at
    ensures Verified(Run(ops), token, at).1 == Verified(LazyRun(ops), token, at).1
  {
    SweepSimulation(ops, at);
    SimulationStep(Run(ops), LazyRun(ops), VerifyOp(token, at));
  }
}
