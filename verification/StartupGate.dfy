/**
 * The gate that serialises the start-up bootstrap of one revision: a lock key, a ready key, and a bootstrap that
 * may fail. Workers are told apart by position. Every Redis command may fail, before or after taking effect.
 */
module StartupGate {
  import opened Numbers
  import opened Options
  import Runs
  import opened TtlKey

  function LockTtlSec(setting: int): int {
    Max(30, OrDefault(setting, 180))
  }

  function ReadyTtlSec(lockSetting: int, readySetting: int): int {
    Max(LockTtlSec(lockSetting), OrDefault(readySetting, 300))
  }

  /** A configured lock lifetime from 30 seconds on is used; the ready key lives at least as long as the lock. */
  lemma LifetimesAreConfigured(lockSetting: int, readySetting: int)
    ensures lockSetting >= 30 ==> LockTtlSec(lockSetting) == lockSetting
    ensures lockSetting == 0 ==> LockTtlSec(lockSetting) == 180
    ensures lockSetting < 30 && lockSetting != 0 ==> LockTtlSec(lockSetting) == 30
    ensures var lock, ready := LockTtlSec(lockSetting), ReadyTtlSec(lockSetting, readySetting);
            && (readySetting >= lock ==> ready == if readySetting == 0 then 300 else readySetting)
            && (readySetting < lock && readySetting != 0 ==> ready == lock)
            && (readySetting == 0 ==> ready == if lock <= 300 then 300 else lock)
  {
  }

  /** The two lifetimes, and how long a worker may take from getting the lock to having released it. */
  datatype Bounds = Bounds(lockTtl: int, readyTtl: int, critical: int) {
    predicate Valid() {
      lockTtl > 0 && readyTtl > 0 && critical >= 0
    }
  }

  datatype Phase =
    | Fresh
    | Polling                       // about to read the ready key
    | Locking                       // about to set the lock if absent
    | Waiting                       // lock refused, sleeping
    | Bootstrapping                 // lock acquired, bootstrap running
    | Marking                       // bootstrap completed, about to set the ready key
    | ReleaseRead(failed: bool)     // about to read the lock for the release
    | ReleaseDelete(failed: bool)   // saw its own token, about to delete the lock
    | Local                         // running the bootstrap without coordination
    | Returned                      // the call returned normally
    | Raised                        // the call raised

  predicate Critical(p: Phase) {
    p.Bootstrapping? || p.Marking? || p.ReleaseRead? || p.ReleaseDelete?
  }

  /** `completed`: this worker has run the bootstrap to its end. */
  datatype Worker = Worker(phase: Phase, completed: bool, due: Option<int>)

  datatype State = State(now: int, lock: Key, ready: Key, workers: seq<Worker>)

  datatype Event =
    | Advance(to: int)
    | Step(w: nat)                       // the worker's next action succeeds
    | Fault(w: nat, effective: bool)     // it fails, `effective` telling whether Redis still carried it out
    | Bypass(w: nat)                     // coordination is switched off or Redis is unreachable at the start

  predicate Ended(p: Phase) {
    p.Returned? || p.Raised?
  }

  predicate Enabled(s: State, e: Event) {
    match e
    case Advance(to) =>
      s.now <= to && forall w :: 0 <= w < |s.workers| && s.workers[w].due.Some? ==> to <= s.workers[w].due.value
    case Step(w) => w < |s.workers| && !Ended(s.workers[w].phase)
    case Fault(w, _) =>
      w < |s.workers| && !Ended(s.workers[w].phase) && !s.workers[w].phase.Fresh? && !s.workers[w].phase.Waiting?
    case Bypass(w) => w < |s.workers| && s.workers[w].phase.Fresh?
  }

  /** An action that succeeds. */
  function Succeed(b: Bounds, s: State, w: nat): State
    requires w < |s.workers|
  {
    var me := s.workers[w];
    match me.phase
    case Fresh => s.(workers := s.workers[w := me.(phase := Polling)])
    case Polling =>
      s.(workers := s.workers[w := me.(phase := if Get(s.ready, s.now).Some? then Returned else Locking)])
    case Locking =>
      var (acquired, lock) := SetNxEx(s.lock, w, b.lockTtl, s.now);
      if acquired
      then s.(lock := lock, workers := s.workers[w := me.(phase := Bootstrapping, due := Some(s.now + b.critical))])
      else s.(workers := s.workers[w := me.(phase := Waiting)])
    case Waiting => s.(workers := s.workers[w := me.(phase := Polling)])
    case Bootstrapping => s.(workers := s.workers[w := me.(phase := Marking, completed := true)])
    case Marking =>
      s.(ready := SetEx(w, b.readyTtl, s.now), workers := s.workers[w := me.(phase := ReleaseRead(false))])
    case ReleaseRead(failed) =>
      if Get(s.lock, s.now) == Some(w) then s.(workers := s.workers[w := me.(phase := ReleaseDelete(failed))])
      else s.(workers := s.workers[w := me.(phase := Left(failed), due := None)])
    case ReleaseDelete(failed) =>
      s.(lock := Absent, workers := s.workers[w := me.(phase := Left(failed), due := None)])
    case Local => s.(workers := s.workers[w := me.(phase := Returned, completed := true)])
    case Returned => s
    case Raised => s
  }

  /** After the `finally` block: return, or handle the exception by bootstrapping locally. */
  function Left(failed: bool): Phase {
    if failed then Local else Returned
  }

  /** An action that raises. Errors of the release are swallowed, all others lead to the local bootstrap. */
  function Fail(b: Bounds, s: State, w: nat, effective: bool): State
    requires w < |s.workers|
  {
    var me := s.workers[w];
    match me.phase
    case Polling => s.(workers := s.workers[w := me.(phase := Local)])
    case Locking =>
      s.(lock := if effective then SetNxEx(s.lock, w, b.lockTtl, s.now).1 else s.lock,
         workers := s.workers[w := me.(phase := Local)])
    case Bootstrapping => s.(workers := s.workers[w := me.(phase := ReleaseRead(true))])
    case Marking =>
      s.(ready := if effective then SetEx(w, b.readyTtl, s.now) else s.ready,
         workers := s.workers[w := me.(phase := ReleaseRead(true))])
    case ReleaseRead(failed) => s.(workers := s.workers[w := me.(phase := Left(failed), due := None)])
    case ReleaseDelete(failed) =>
      s.(lock := if effective then Absent else s.lock,
         workers := s.workers[w := me.(phase := Left(failed), due := None)])
    case Local => s.(workers := s.workers[w := me.(phase := Raised)])
    case _ => s
  }

  function Apply(b: Bounds, s: State, e: Event): State {
    match e
    case Advance(to) => s.(now := to)
    case Step(w) => if w < |s.workers| then Succeed(b, s, w) else s
    case Fault(w, effective) => if w < |s.workers| then Fail(b, s, w, effective) else s
    case Bypass(w) => if w < |s.workers| then s.(workers := s.workers[w := s.workers[w].(phase := Local)]) else s
  }

  function Applying(b: Bounds): (State, Event) -> State {
    (s, e) => Apply(b, s, e)
  }

  function Start(n: nat): State {
    State(0, Absent, Absent, seq(n, _ => Worker(Fresh, false, None)))
  }

  ghost predicate Reachable(b: Bounds, n: nat, s: State) {
    Runs.Reachable(Enabled, Applying(b), Start(n), s)
  }

  // ---- A normal return means a completed bootstrap, faults included ----

  ghost predicate SomeCompleted(s: State) {
    exists v :: 0 <= v < |s.workers| && s.workers[v].completed
  }

  predicate PastBootstrap(p: Phase) {
    p.Marking? || p == ReleaseRead(false) || p == ReleaseDelete(false)
  }

  ghost predicate Witnessed(s: State) {
    && (s.ready.Held? ==> SomeCompleted(s))
    && forall w :: 0 <= w < |s.workers| ==>
         && (PastBootstrap(s.workers[w].phase) ==> s.workers[w].completed)
         && (s.workers[w].phase.Returned? ==> SomeCompleted(s))
  }

  lemma CompletionStays(s: State, t: State)
    requires |t.workers| == |s.workers|
    requires forall v :: 0 <= v < |s.workers| && s.workers[v].completed ==> t.workers[v].completed
    ensures SomeCompleted(s) ==> SomeCompleted(t)
  {
    if SomeCompleted(s) {
      var v :| 0 <= v < |s.workers| && s.workers[v].completed;
      assert t.workers[v].completed;
    }
  }

  lemma Completes(s: State, w: nat)
    requires w < |s.workers| && s.workers[w].completed
    ensures SomeCompleted(s)
  {
  }

  /** The worker that acts: past the bootstrap only when it completed it, back only when somebody did. */
  lemma ActorKeepsWitness(b: Bounds, s: State, e: Event)
    requires Witnessed(s) && Enabled(s, e) && !e.Advance?
    ensures var t := Apply(b, s, e); var me := t.workers[e.w];
            && (t.ready.Held? ==> SomeCompleted(s) || me.completed)
            && (PastBootstrap(me.phase) ==> me.completed)
            && (me.phase.Returned? ==> SomeCompleted(s) || me.completed)
            && (s.workers[e.w].completed ==> me.completed)
            && t.workers == s.workers[e.w := me]
  {
    if s.workers[e.w].completed {
      Completes(s, e.w);
    }
  }

  lemma EventKeepsWitness(b: Bounds, s: State, e: Event)
    requires Witnessed(s) && Enabled(s, e)
    ensures Witnessed(Apply(b, s, e))
  {
    var t := Apply(b, s, e);
    if !e.Advance? {
      ActorKeepsWitness(b, s, e);
      CompletionStays(s, t);
      if t.workers[e.w].completed {
        Completes(t, e.w);
      }
    }
  }

  /** Whenever the call returns normally in some worker, some worker has completed the bootstrap. */
  lemma ReturnMeansBootstrapped(b: Bounds, n: nat, s: State, w: nat)
    requires Reachable(b, n, s) && w < |s.workers| && s.workers[w].phase.Returned?
    ensures SomeCompleted(s)
  {
    forall x, e | Witnessed(x) && Enabled(x, e) ensures Witnessed(Applying(b)(x, e)) {
      EventKeepsWitness(b, x, e);
    }
    Runs.Invariant(Enabled, Applying(b), x => Witnessed(x), Start(n), s);
  }

  // ---- Without faults, one bootstrap at a time ----

  predicate CleanEnabled(s: State, e: Event) {
    (e.Advance? || e.Step?) && Enabled(s, e)
  }

  ghost predicate CleanlyReachable(b: Bounds, n: nat, s: State) {
    Runs.Reachable(CleanEnabled, Applying(b), Start(n), s)
  }

  /** No two workers are between getting the lock and having released it. */
  ghost predicate OneAtATime(s: State) {
    forall v, w ::
      0 <= v < |s.workers| && 0 <= w < |s.workers| && Critical(s.workers[v].phase) && Critical(s.workers[w].phase)
      ==> v == w
  }

  /** A worker in the critical section has a deadline before its lock runs out. */
  ghost predicate Guarded(s: State, w: nat)
    requires w < |s.workers|
  {
    var me := s.workers[w];
    if Critical(me.phase) then
      me.due.Some? && s.now <= me.due.value && s.lock.Held? && s.lock.token == w && me.due.value < s.lock.until
    else
      me.due.None? && (s.lock.Held? ==> s.lock.token != w)
  }

  ghost predicate Inv(s: State) {
    (forall w :: 0 <= w < |s.workers| ==> Guarded(s, w)) && (s.lock.Held? ==> s.lock.token < |s.workers|)
  }

  lemma EventKeepsInv(b: Bounds, s: State, e: Event)
    requires b.Valid() && b.critical < b.lockTtl && Inv(s) && CleanEnabled(s, e)
    ensures Inv(Apply(b, s, e))
  {
    var t := Apply(b, s, e);
    if s.lock.Held? {
      assert Guarded(s, s.lock.token);
    }
    forall v | 0 <= v < |t.workers| ensures Guarded(t, v) {
      assert Guarded(s, v);
      if e.Step? {
        assert Guarded(s, e.w);
      }
    }
  }

  lemma CleanRunsAreGuarded(b: Bounds, n: nat, s: State)
    requires b.Valid() && b.critical < b.lockTtl && CleanlyReachable(b, n, s)
    ensures OneAtATime(s)
  {
    forall x, e | Inv(x) && CleanEnabled(x, e) ensures Inv(Applying(b)(x, e)) {
      EventKeepsInv(b, x, e);
    }
    Runs.Invariant(CleanEnabled, Applying(b), x => Inv(x), Start(n), s);
    forall v | 0 <= v < |s.workers| && Critical(s.workers[v].phase) ensures s.lock.Held? && s.lock.token == v {
      assert Guarded(s, v);
    }
  }

  lemma Reach(b: Bounds, n: nat, s: State, e: Event) returns (t: State)
    requires CleanlyReachable(b, n, s) && CleanEnabled(s, e)
    ensures CleanlyReachable(b, n, t) && t == Apply(b, s, e)
  {
    Runs.Reach(CleanEnabled, Applying(b), Start(n), s, e);
    t := Apply(b, s, e);
  }

  lemma FirstWorkerLocks(b: Bounds, n: nat) returns (s: State)
    requires b.Valid() && n >= 2
    ensures CleanlyReachable(b, n, s) && |s.workers| == n && s.now == 0
    ensures s.lock == Held(0, b.lockTtl) && s.ready == Absent &&
            s.workers[0] == Worker(Bootstrapping, false, Some(b.critical))
    ensures forall w :: 1 <= w < n ==> s.workers[w] == Worker(Fresh, false, None)
  {
    s := Start(n);
    Runs.StartIsReachable(CleanEnabled, Applying(b), s);
    s := Reach(b, n, s, Step(0));
    s := Reach(b, n, s, Step(0));
    s := Reach(b, n, s, Step(0));
  }

  lemma OverlappingRun(b: Bounds, n: nat) returns (s: State)
    requires b.Valid() && b.critical >= b.lockTtl && n >= 2
    ensures CleanlyReachable(b, n, s) && !OneAtATime(s)
  {
    s := FirstWorkerLocks(b, n);
    s := Reach(b, n, s, Advance(b.lockTtl));
    s := Reach(b, n, s, Step(1));
    s := Reach(b, n, s, Step(1));
    assert s.workers[1].phase == Locking && s.workers[0].phase == Bootstrapping;
    s := Reach(b, n, s, Step(1));
    assert s.workers[1].phase == Bootstrapping && s.workers[0].phase == Bootstrapping;
  }

  /** As long as no step fails, two workers never overlap exactly when the critical section is shorter than the lock. */
  lemma OneAtATimeExactlyWhen(b: Bounds, n: nat)
    requires b.Valid() && n >= 2
    ensures (forall s :: CleanlyReachable(b, n, s) ==> OneAtATime(s)) <==> b.critical < b.lockTtl
  {
    if b.critical < b.lockTtl {
      forall s | CleanlyReachable(b, n, s) ensures OneAtATime(s) {
        CleanRunsAreGuarded(b, n, s);
      }
    } else {
      var s := OverlappingRun(b, n);
    }
  }

  /** With any settings, a bootstrap that takes less than thirty seconds, release included, never overlaps another. */
  lemma ShortBootstrapsNeverOverlap(lockSetting: int, readySetting: int, critical: int, n: nat, s: State)
    requires 0 <= critical < 30
    requires CleanlyReachable(Bounds(LockTtlSec(lockSetting), ReadyTtlSec(lockSetting, readySetting), critical), n, s)
    ensures OneAtATime(s)
  {
    CleanRunsAreGuarded(Bounds(LockTtlSec(lockSetting), ReadyTtlSec(lockSetting, readySetting), critical), n, s);
  }
}
