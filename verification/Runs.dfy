/** Runs of a system whose events are enabled in a state and lead to the next one. */
module Runs {

  /** The events can happen one after the other and lead from `s` to `t`. */
  ghost predicate Leads<S, E>(enabled: (S, E) -> bool, apply: (S, E) -> S, s: S, events: seq<E>, t: S)
    decreases |events|
  {
    if events == [] then s == t else enabled(s, events[0]) && Leads(enabled, apply, apply(s, events[0]), events[1..], t)
  }

  /** Every event of the run is one that `allowed` admits in the state it happens in. */
  predicate Orderly<S, E>(apply: (S, E) -> S, s: S, events: seq<E>, allowed: (S, E) -> bool)
    decreases |events|
  {
    events == [] || (allowed(s, events[0]) && Orderly(apply, apply(s, events[0]), events[1..], allowed))
  }

  /** `inv` holds at the start of the run and after every event. */
  predicate Always<S, E>(apply: (S, E) -> S, s: S, events: seq<E>, inv: S -> bool)
    decreases |events|
  {
    inv(s) && (events == [] || Always(apply, apply(s, events[0]), events[1..], inv))
  }

  ghost predicate Reachable<S, E(!new)>(enabled: (S, E) -> bool, apply: (S, E) -> S, start: S, s: S) {
    exists events :: Leads(enabled, apply, start, events, s)
  }

  lemma {:induction false} LeadsOn<S, E>(enabled: (S, E) -> bool, apply: (S, E) -> S, s: S, events: seq<E>, t: S, e: E)
    requires Leads(enabled, apply, s, events, t) && enabled(t, e)
    ensures Leads(enabled, apply, s, events + [e], apply(t, e))
    decreases |events|
  {
    if events == [] {
      assert [e][1..] == [];
      assert Leads(enabled, apply, apply(t, e), [], apply(t, e));
    } else {
      LeadsOn(enabled, apply, apply(s, events[0]), events[1..], t, e);
      assert (events + [e])[1..] == events[1..] + [e];
    }
  }

  lemma StartIsReachable<S, E(!new)>(enabled: (S, E) -> bool, apply: (S, E) -> S, start: S)
    ensures Reachable(enabled, apply, start, start)
  {
    assert Leads(enabled, apply, start, [], start);
  }

  lemma Reach<S, E(!new)>(enabled: (S, E) -> bool, apply: (S, E) -> S, start: S, s: S, e: E)
    requires Reachable(enabled, apply, start, s) && enabled(s, e)
    ensures Reachable(enabled, apply, start, apply(s, e))
  {
    var events :| Leads(enabled, apply, start, events, s);
    LeadsOn(enabled, apply, start, events, s, e);
  }

  /** What holds at the start and is kept by every enabled event holds in every reachable state. */
  lemma Invariant<S(!new), E(!new)>(enabled: (S, E) -> bool, apply: (S, E) -> S, inv: S -> bool, start: S, s: S)
    requires inv(start) && Reachable(enabled, apply, start, s)
    requires forall x, e :: inv(x) && enabled(x, e) ==> inv(apply(x, e))
    ensures inv(s)
  {
    var events :| Leads(enabled, apply, start, events, s);
    InvariantAlong(enabled, apply, inv, start, events, s);
  }

  lemma {:induction false} InvariantAlong<S(!new), E(!new)>(enabled: (S, E) -> bool, apply: (S, E) -> S, inv: S -> bool,
                                                            s: S, events: seq<E>, t: S)
    requires inv(s) && Leads(enabled, apply, s, events, t)
    requires forall x, e :: inv(x) && enabled(x, e) ==> inv(apply(x, e))
    ensures inv(t)
    decreases |events|
  {
    if events != [] {
      InvariantAlong(enabled, apply, inv, apply(s, events[0]), events[1..], t);
    }
  }
}
