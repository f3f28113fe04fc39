/** How the calls of the start-up gate end: who skips the bootstrap, who repeats it, and what a failure leads to. */
module StartupOutcomes {
  import opened Options
  import Runs
  import opened StartupGate
  import opened TtlKey

  // ---- Who skips the bootstrap ----

  /** A worker that reads a live ready key returns and leaves the lock alone; any other goes for the lock. */
  lemma ReadyMeansReturn(b: Bounds, s: State, w: nat)
    requires w < |s.workers| && s.workers[w].phase.Polling?
    ensures var t := Apply(b, s, Step(w));
            && t.lock == s.lock && t.ready == s.ready && t.workers[w].completed == s.workers[w].completed
            && t.workers[w].phase == if Get(s.ready, s.now).Some? then Returned else Locking
  {
  }

  /** A worker that has bootstrapped makes the ready key live for its whole lifetime. */
  lemma MarkingMakesReady(b: Bounds, s: State, w: nat, later: int)
    requires w < |s.workers| && s.workers[w].phase.Marking? && s.now <= later < s.now + b.readyTtl
    ensures Get(Apply(b, s, Step(w)).ready, later) == Some(w)
  {
  }

  /** The ready key is there at least until `until`, once it has been set. */
  predicate ReadyUntil(s: State, until: int) {
    s.ready.Held? && s.ready.until >= until
  }

  /** The worker has not gone for the lock. */
  predicate Outside(me: Worker) {
    (me.phase.Fresh? || me.phase.Polling? || me.phase.Waiting? || me.phase.Returned?) && !me.completed
  }

  /** While the ready key is live, no worker that has not gone for the lock ever does, and none of them bootstraps. */
  lemma {:induction false} LateWorkersSkip(b: Bounds, s: State, events: seq<Event>, t: State, until: int, w: nat)
    requires b.Valid() && w < |s.workers| && Outside(s.workers[w]) && ReadyUntil(s, until) &&
             until <= s.now + b.readyTtl
    requires Runs.Leads(CleanEnabled, Applying(b), s, events, t) && t.now < until
    ensures |t.workers| == |s.workers| && Outside(t.workers[w]) && ReadyUntil(t, until)
    decreases |events|
  {
    if events != [] {
      TimePasses(b, Applying(b)(s, events[0]), events[1..], t);
      LateWorkersSkip(b, Applying(b)(s, events[0]), events[1..], t, until, w);
    }
  }

  lemma {:induction false} TimePasses(b: Bounds, s: State, events: seq<Event>, t: State)
    requires Runs.Leads(CleanEnabled, Applying(b), s, events, t)
    ensures s.now <= t.now
    decreases |events|
  {
    if events != [] {
      TimePasses(b, Applying(b)(s, events[0]), events[1..], t);
    }
  }

  // ---- Progress ----

  /** How many actions a worker is from its end, if it need not wait for the lock. */
  function ActionsLeft(p: Phase): nat {
    match p
    case Fresh => 9
    case Waiting => 8
    case Polling => 7
    case Locking => 6
    case Bootstrapping => 5
    case Marking => 4
    case ReleaseRead(_) => 3
    case ReleaseDelete(_) => 2
    case Local => 1
    case Returned => 0
    case Raised => 0
  }

  /**
   * Every action of a worker, failed or not, brings it nearer to its end, unless it finds the lock taken and waits.
   * Only the local bootstrap can make the call raise.
   */
  lemma ActionsLeadOn(b: Bounds, s: State, e: Event)
    requires Enabled(s, e) && !e.Advance?
    ensures var p, q := s.workers[e.w].phase, Apply(b, s, e).workers[e.w].phase;
            && (ActionsLeft(q) < ActionsLeft(p) || (p.Locking? && q.Waiting? && e.Step? && Get(s.lock, s.now).Some?))
            && (q.Raised? ==> p.Local? && e.Fault?)
  {
  }

  // ---- Failures and the release ----

  /**
   * A failed action leaves the keys as they were, or as the action makes them if Redis still carried it out. The worker
   * bootstraps locally, having given back the lock first if it had it; a failed release changes nothing for the call.
   */
  lemma FaultsAreHandled(b: Bounds, s: State, w: nat, effective: bool)
    requires Enabled(s, Fault(w, effective))
    ensures var done, t := if effective then Apply(b, s, Step(w)) else s, Apply(b, s, Fault(w, effective));
            t.lock == done.lock && t.ready == done.ready && t.workers[w].completed == s.workers[w].completed
    ensures var p, q := s.workers[w].phase, Apply(b, s, Fault(w, effective)).workers[w].phase;
            q == if p.Polling? || p.Locking? then Local
                 else if p.Bootstrapping? || p.Marking? then ReleaseRead(true)
                 else if p.Local? then Raised
                 else if p.failed then Local else Returned
  {
  }

  /** The release deletes the lock if it holds the worker's token and leaves another's alone; then the call goes on. */
  lemma ReleaseDeletesOwnLock(b: Bounds, s: State, w: nat, failed: bool)
    requires w < |s.workers| && s.workers[w].phase == ReleaseRead(failed)
    ensures var t := Apply(b, s, Step(w)); var u := Apply(b, t, Step(w));
            && t.lock == s.lock && t.ready == s.ready
            && (Get(s.lock, s.now) != Some(w) ==> t.workers[w].phase == if failed then Local else Returned)
            && (Get(s.lock, s.now) == Some(w) ==>
                  u.lock == Absent && u.ready == s.ready && u.workers[w].phase == if failed then Local else Returned)
  {
  }

  /** A free lock is taken for its whole lifetime; a live one is left alone. */
  lemma FreeLockIsTaken(b: Bounds, s: State, w: nat)
    requires w < |s.workers| && s.workers[w].phase.Locking?
    ensures var t := Apply(b, s, Step(w));
            if Get(s.lock, s.now).None? then
              t.lock == Held(w, s.now + b.lockTtl) && t.workers[w] == Worker(Bootstrapping, s.workers[w].completed,
                                                                             Some(s.now + b.critical))
            else t.lock == s.lock && t.workers[w].phase.Waiting?
  {
  }

  /** Exactly the workers between getting the lock and having released it have a deadline. */
  ghost predicate DueIfCritical(s: State) {
    forall w :: 0 <= w < |s.workers| ==> (s.workers[w].due.Some? <==> Critical(s.workers[w].phase))
  }

  lemma OnlyCriticalIsTimed(b: Bounds, n: nat, s: State)
    requires Reachable(b, n, s)
    ensures DueIfCritical(s)
  {
    Runs.Invariant(Enabled, Applying(b), DueIfCritical, Start(n), s);
  }

  // ---- Once per revision? ----

  ghost predicate BootstrappedOnce(s: State) {
    forall v, w ::
      0 <= v < |s.workers| && 0 <= w < |s.workers| && s.workers[v].completed && s.workers[w].completed ==> v == w
  }

  /** Two workers both find no ready key, and one of them has bootstrapped before the other asks for the lock. */
  lemma OneIsLate(b: Bounds, n: nat) returns (s: State)
    requires b.Valid() && n >= 2
    ensures CleanlyReachable(b, n, s) && |s.workers| == n && s.lock == Held(0, s.now + b.lockTtl)
    ensures s.workers[1].phase == Locking && s.workers[0].phase == ReleaseRead(false) && s.workers[0].completed
  {
    s := FirstWorkerLocks(b, n);
    s := Reach(b, n, s, Step(1));
    s := Reach(b, n, s, Step(1));
    assert s.workers[1].phase == Locking && s.workers[0].phase == Bootstrapping;
    s := Reach(b, n, s, Step(0));
    s := Reach(b, n, s, Step(0));
  }

  lemma LockIsFreeAgain(b: Bounds, n: nat) returns (s: State)
    requires b.Valid() && n >= 2
    ensures CleanlyReachable(b, n, s) && |s.workers| == n && s.lock == Absent
    ensures s.workers[1].phase == Locking && s.workers[0].completed
  {
    s := OneIsLate(b, n);
    s := Reach(b, n, s, Step(0));
    s := Reach(b, n, s, Step(0));
  }

  /** Once the lock is released the other takes it and bootstraps again. */
  lemma SecondBootstrap(b: Bounds, n: nat) returns (s: State)
    requires b.Valid() && n >= 2
    ensures CleanlyReachable(b, n, s) && !BootstrappedOnce(s)
  {
    s := LockIsFreeAgain(b, n);
    s := Reach(b, n, s, Step(1));
    s := Reach(b, n, s, Step(1));
    assert s.workers[0].completed && s.workers[1].completed;
  }

  lemma EventKeepsCount(b: Bounds, s: State, e: Event)
    ensures |Apply(b, s, e).workers| == |s.workers|
  {
  }

  lemma ReachableCount(b: Bounds, n: nat, s: State)
    requires CleanlyReachable(b, n, s)
    ensures |s.workers| == n
  {
    forall x: State, e | |x.workers| == n && CleanEnabled(x, e) ensures |Applying(b)(x, e).workers| == n {
      EventKeepsCount(b, x, e);
    }
    Runs.Invariant(CleanEnabled, Applying(b), (x: State) => |x.workers| == n, Start(n), s);
  }

  /**
   * The ready key is not read again under the lock, so even without faults the bootstrap runs at most once in every
   * interleaving exactly when there are not two workers, whatever the lifetimes.
   */
  lemma OncePerRevisionExactlyWhen(b: Bounds, n: nat)
    requires b.Valid()
    ensures (forall s :: CleanlyReachable(b, n, s) ==> BootstrappedOnce(s)) <==> n <= 1
  {
    if n <= 1 {
      forall s | CleanlyReachable(b, n, s) ensures BootstrappedOnce(s) {
        ReachableCount(b, n, s);
      }
    } else {
      var s := SecondBootstrap(b, n);
    }
  }
}
