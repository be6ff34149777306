/** Runs of step systems. */
module Runs {

  /** states[0] is a start, and states[k + 1] follows from states[k] by acts[k]. */
  ghost predicate IsRun<S, A>(start: S -> bool, next: (S, A, S) -> bool, states: seq<S>, acts: seq<A>) {
    && |states| == |acts| + 1 && start(states[0])
    && (forall k :: 0 <= k < |acts| ==> next(states[k], acts[k], states[k + 1]))
  }

  lemma ButLast<S, A>(start: S -> bool, next: (S, A, S) -> bool, states: seq<S>, acts: seq<A>)
    requires IsRun(start, next, states, acts) && acts != []
    ensures IsRun(start, next, states[..|acts|], acts[..|acts| - 1])
    ensures next(states[|acts| - 1], acts[|acts| - 1], states[|acts|])
  {
  }

  lemma Prefix<S, A>(start: S -> bool, next: (S, A, S) -> bool, states: seq<S>, acts: seq<A>, n: nat)
    requires IsRun(start, next, states, acts) && n <= |acts|
    ensures IsRun(start, next, states[..n + 1], acts[..n])
  {
  }

  lemma Extend<S, A>(start: S -> bool, next: (S, A, S) -> bool, states: seq<S>, acts: seq<A>, act: A, t: S)
    requires IsRun(start, next, states, acts) && next(states[|acts|], act, t)
    ensures IsRun(start, next, states + [t], acts + [act])
  {
  }

  /** acts lead from s to t. */
  ghost predicate Leads<S(!new), A>(next: (S, A, S) -> bool, s: S, acts: seq<A>, t: S)
    decreases |acts|
  {
    if acts == [] then s == t else exists u :: next(s, acts[0], u) && Leads(next, u, acts[1..], t)
  }

  lemma LeadsStep<S(!new), A>(next: (S, A, S) -> bool, s: S, act: A, u: S, acts: seq<A>, t: S)
    requires next(s, act, u) && Leads(next, u, acts, t)
    ensures Leads(next, s, [act] + acts, t)
  {
    assert ([act] + acts)[1..] == acts;
  }

  /** A run can be continued by whatever leads on from where it is. */
  lemma {:induction false} LeadsExtends<S(!new), A>(
      start: S -> bool, next: (S, A, S) -> bool, states: seq<S>, acts: seq<A>, more: seq<A>, t: S) returns (run: seq<S>)
    requires IsRun(start, next, states, acts) && Leads(next, states[|acts|], more, t)
    ensures IsRun(start, next, run, acts + more) && states <= run && run[|run| - 1] == t
    decreases |more|
  {
    if more == [] {
      run := states;
      assert acts + more == acts;
    } else {
      var u :| next(states[|acts|], more[0], u) && Leads(next, u, more[1..], t);
      Extend(start, next, states, acts, more[0], u);
      run := LeadsExtends(start, next, states + [u], acts + [more[0]], more[1..], t);
      assert acts + more == (acts + [more[0]]) + more[1..];
    }
  }
}
