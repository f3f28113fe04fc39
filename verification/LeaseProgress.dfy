/** What each worker of the lease gets done, however slow it is: renewing, claiming, giving up and releasing. */
module LeaseProgress {
  import opened BackgroundLease
  import opened Options
  import Runs
  import opened TtlKey

  // ---- What a worker's record says ----

  /** What a worker's record says of itself, no matter how slow anybody is. */
  predicate Settled(me: Worker) {
    && (me.jobs ==> me.owner || me.phase.Losing? || !Looping(me.phase))
    && (me.owner ==> me.jobs)
    && (me.phase.Losing? ==> !me.owner)
    && (me.phase.Booting? ==> !me.owner && !me.jobs)
    && (me.phase.Releasing? || me.phase.Deleting? || me.phase.Gone? ==> !me.owner)
    && (me.phase.Gone? ==> me.due.None?)
    && (me.phase.Acquired? || me.phase.Starting? ==> me.due.Some?)
    && (me.phase.Claiming? || me.phase.Refused? || me.phase.Losing? ==> me.due.None?)
    && ((me.phase.Ready? || me.phase.Sleeping?) && me.due.None? ==> !me.owner && !me.jobs)
  }

  ghost predicate AllSettled(s: State) {
    forall w :: 0 <= w < |s.workers| ==> Settled(s.workers[w])
  }

  lemma NextIsSettled(b: Bounds, s: State, w: nat)
    requires w < |s.workers| && Settled(s.workers[w])
    ensures Settled(Next(b, s, w).1)
  {
  }

  lemma ReachableIsSettled(b: Bounds, n: nat, s: State)
    requires Reachable(b, n, s)
    ensures AllSettled(s)
  {
    forall x, e | AllSettled(x) && Enabling(b)(x, e) ensures AllSettled(Applying(b)(x, e)) {
      if e.Step? {
        NextIsSettled(b, x, e.w);
      }
    }
    Runs.Invariant(Enabling(b), Applying(b), AllSettled, Start(n), s);
  }

  /** Whatever the bounds, a worker that sleeps without having got the lease has neither the flag nor jobs. */
  lemma SleepsWithoutJobs(b: Bounds, n: nat, s: State, w: nat)
    requires Reachable(b, n, s) && w < |s.workers| && s.workers[w].phase.Sleeping? && s.workers[w].due.None?
    ensures !s.workers[w].owner && !s.workers[w].jobs
  {
    ReachableIsSettled(b, n, s);
  }

  /** The worker is about to find another's token in the key, or has found it and not yet drawn the consequences. */
  predicate LostOut(s: State, w: nat)
    requires w < |s.workers|
  {
    var p, current := s.workers[w].phase, Get(s.key, s.now);
    p.Refused? || p.Losing? || (p.Ready? && current.Some? && current != Some(w))
  }

  /** How many actions a worker is from the end of its iteration, or of its shutdown. */
  function ActionsLeft(p: Phase): nat {
    match p
    case Booting => 4
    case Ready => 3
    case Renewing => 3
    case Claiming => 3
    case Acquired => 2
    case Refused => 2
    case Starting => 1
    case Losing => 1
    case Sleeping(_) => 0
    case Stopping => 3
    case Releasing => 2
    case Deleting => 1
    case Gone => 0
  }

  /**
   * Whatever the bounds, a worker that found another's token sleeps next, with neither the flag nor jobs; if it had the
   * flag it clears that and stops the jobs first. It does not touch the key.
   */
  lemma LostLeaseIsGivenUp(b: Bounds, n: nat, s: State, w: nat)
    requires Reachable(b, n, s) && w < |s.workers| && LostOut(s, w)
    ensures var t := Apply(b, s, Step(w)); var me := t.workers[w];
            && t.key == s.key
            && (s.workers[w].phase.Ready? ==> me.phase.Refused?)
            && (s.workers[w].phase.Refused? && s.workers[w].owner ==> me.phase.Losing? && !me.owner)
            && (s.workers[w].phase.Losing? || (s.workers[w].phase.Refused? && !s.workers[w].owner) ==>
                  me.phase.Sleeping? && !me.owner && !me.jobs)
  {
    ReachableIsSettled(b, n, s);
  }

  // ---- Getting and keeping the lease ----

  /** The worker is about to find no other's token, or to set its own. */
  predicate CanHold(s: State, w: nat)
    requires w < |s.workers|
  {
    var p, current := s.workers[w].phase, Get(s.key, s.now);
    p.Renewing? || ((p.Ready? || p.Claiming?) && (current.None? || current == Some(w)))
  }

  /**
   * A worker that reads no token or its own sets the key, unless another's comes in between, and holds it for a whole
   * lifetime.
   */
  lemma FreeLeaseIsTaken(b: Bounds, s: State, w: nat)
    requires b.Valid() && w < |s.workers| && CanHold(s, w)
    ensures var p, t := s.workers[w].phase, Apply(b, s, Step(w)); var me := t.workers[w];
            && (p.Ready? ==> t.key == s.key && CanHold(t, w) && !me.phase.Ready?)
            && (p.Renewing? || (p.Claiming? && Get(s.key, s.now).None?) ==>
                  me.phase.Acquired? && t.key == Held(w, s.now + b.ttl) && me.due == Some(s.now + b.after))
  {
  }

  /** Having set the key, a worker raises the flag and starts the jobs if it has not, and sleeps. */
  lemma HolderRunsTheJobs(b: Bounds, n: nat, s: State, w: nat)
    requires Reachable(b, n, s) && w < |s.workers| && (s.workers[w].phase.Acquired? || s.workers[w].phase.Starting?)
    ensures var t := Apply(b, s, Step(w)); var me := t.workers[w];
            && t.key == s.key
            && (s.workers[w].phase.Acquired? && !s.workers[w].owner ==> me.phase.Starting? && me.owner && me.jobs)
            && (s.workers[w].phase.Acquired? && s.workers[w].owner ==> me.phase.Sleeping? && me.owner && me.jobs)
            && (s.workers[w].phase.Starting? ==> me.phase.Sleeping? && me.jobs == s.workers[w].jobs)
            && (me.phase.Sleeping? ==> me.phase.wake == me.woke == s.now + b.renew)
  {
    ReachableIsSettled(b, n, s);
  }

  // ---- No worker stops in the middle ----

  /** Every action leads on to the end of the iteration or of the shutdown; the sleep ends with the next iteration. */
  lemma ActionsLeadOn(b: Bounds, s: State, w: nat)
    requires Enabled(b, s, Step(w))
    ensures var p, q := s.workers[w].phase, Apply(b, s, Step(w)).workers[w].phase;
            && (p.Sleeping? ==> q.Ready?)
            && (p.Ready? ==> q.Renewing? || q.Claiming? || q.Refused?)
            && (!p.Sleeping? && !p.Ready? ==> ActionsLeft(q) < ActionsLeft(p))
            && (Looping(p) || p.Booting? <==> Looping(q))
  {
  }

  // ---- Shutdown ----

  /** A worker that is gone has no flag and no deadline, and its token is not in the key. */
  ghost predicate Released(s: State) {
    AllSettled(s) && forall w :: 0 <= w < |s.workers| && s.workers[w].phase.Gone? ==> Get(s.key, s.now) != Some(w)
  }

  lemma EventKeepsReleased(b: Bounds, s: State, e: Event)
    requires Released(s) && Enabled(b, s, e)
    ensures Released(Apply(b, s, e))
  {
    if e.Step? {
      NextIsSettled(b, s, e.w);
    }
  }

  lemma GoneHasReleased(b: Bounds, n: nat, s: State, w: nat)
    requires Reachable(b, n, s) && w < |s.workers| && s.workers[w].phase.Gone?
    ensures Get(s.key, s.now) != Some(w) && !s.workers[w].owner && s.workers[w].due.None?
  {
    forall x, e | Released(x) && Enabling(b)(x, e) ensures Released(Applying(b)(x, e)) {
      EventKeepsReleased(b, x, e);
    }
    Runs.Invariant(Enabling(b), Applying(b), Released, Start(n), s);
  }

  /**
   * A cancelled owner stops its jobs and clears the flag before it looks at the key; others look at the key at once.
   */
  lemma CancelledOwnerStopsJobs(b: Bounds, s: State, w: nat)
    requires Enabled(b, s, Cancel(w))
    ensures var t := Apply(b, s, Cancel(w));
            && t.key == s.key && t.workers[w].phase == (if s.workers[w].owner then Stopping else Releasing)
            && var u := Apply(b, t, Step(w));
               s.workers[w].owner ==>
                 u.key == s.key && u.workers[w].phase.Releasing? && !u.workers[w].owner && !u.workers[w].jobs
  {
  }

  /** The release deletes the key if it holds the worker's token, and leaves another's alone. */
  lemma ReleaseDeletesOwnKey(b: Bounds, s: State, w: nat)
    requires w < |s.workers| && s.workers[w].phase.Releasing?
    ensures var t := Apply(b, s, Step(w));
            && t.key == s.key
            && (Get(s.key, s.now) == Some(w) ==> Apply(b, t, Step(w)).key == Absent)
            && (Get(s.key, s.now) != Some(w) ==> t.workers[w].phase.Gone?)
  {
  }
}
