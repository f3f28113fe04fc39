/**
 * The lease that makes one worker the owner of the background jobs, as interleaved steps of any number of workers.
 * A worker's token is its position, so tokens are distinct. Redis answers every command.
 */
module BackgroundLease {
  import opened Numbers
  import opened Options
  import Runs
  import opened TtlKey

  // ---- Settings ----

  function TtlSec(setting: int): int {
    Max(30, OrDefault(setting, 90))
  }

  function RenewSec(ttlSetting: int, renewSetting: int): int {
    Max(5, Min(TtlSec(ttlSetting) - 5, OrDefault(renewSetting, 30)))
  }

  /** Whatever is configured, the lease outlives the sleep between two renewals by at least five seconds. */
  lemma RenewFitsTtl(ttlSetting: int, renewSetting: int)
    ensures 5 <= RenewSec(ttlSetting, renewSetting) <= TtlSec(ttlSetting) - 5
  {
  }

  /** A lifetime from 30 seconds on is used as it is, a smaller one is 30, none is 90. */
  lemma TtlIsConfigured(setting: int)
    ensures setting >= 30 ==> TtlSec(setting) == setting
    ensures setting == 0 ==> TtlSec(setting) == 90
    ensures setting < 30 && setting != 0 ==> TtlSec(setting) == 30
  {
  }

  /**
   * An interval that leaves five seconds at both ends is used as it is, none is 30; the nearest such one replaces
   * others.
   */
  lemma RenewIsConfigured(ttlSetting: int, renewSetting: int)
    ensures var ttl, renew := TtlSec(ttlSetting), RenewSec(ttlSetting, renewSetting);
            && (renewSetting != 0 && 5 <= renewSetting <= ttl - 5 ==> renew == renewSetting)
            && (renewSetting != 0 && renewSetting < 5 ==> renew == 5)
            && (renewSetting > ttl - 5 ==> renew == ttl - 5)
            && (renewSetting == 0 ==> renew == if ttl >= 35 then 30 else ttl - 5)
  {
  }

  /**
   * How long a worker may take: for one iteration of the supervisor, from waking up to going to sleep again
   * (`iteration`); within it, from waking up to the next `SET` (`before`) and from a successful `SET` to going to
   * sleep (`after`); and from its cancellation to the end of the release (`stop`).
   */
  datatype Bounds = Bounds(ttl: int, renew: int, iteration: int, before: int, after: int, stop: int) {
    predicate Valid() {
      ttl > 0 && renew >= 0 && iteration >= 0 && before >= 0 && after >= 0 && stop >= 0
    }

    /** The end of one iteration, the sleep, the beginning of the next and a stop fit the lifetime together. */
    predicate Enough() {
      Min(after, iteration) + renew + Min(before, iteration) + stop < ttl
    }
  }

  /** Only whole iterations and the stop are bounded. */
  function IterationBounds(ttlSetting: int, renewSetting: int, iteration: int, stop: int): Bounds {
    Bounds(TtlSec(ttlSetting), RenewSec(ttlSetting, renewSetting), iteration, iteration, iteration, stop)
  }

  // ---- Workers ----

  datatype Phase =
    | Booting               // the process has not started
    | Ready                 // about to read the key
    | Renewing              // saw its own token, about to overwrite the key
    | Claiming              // saw no token, about to set the key if absent
    | Acquired              // the status call returned "owner"
    | Starting              // flag set, background jobs being started
    | Refused               // the status call returned "busy"
    | Losing                // flag cleared, background jobs being stopped
    | Sleeping(wake: int)
    | Stopping              // cancelled, background jobs being stopped
    | Releasing             // about to read the key for the release
    | Deleting              // saw its own token, about to delete the key
    | Gone

  /**
   * `woke` is the beginning of the current iteration, or of the next one during the sleep; `due` is the time by which a
   * worker that holds the lease takes its next timed action.
   */
  datatype Worker = Worker(phase: Phase, owner: bool, jobs: bool, woke: int, due: Option<int>)

  datatype State = State(now: int, key: Key, workers: seq<Worker>)

  datatype Event = Advance(to: int) | Step(w: nat) | Cancel(w: nat)

  /** The supervisor's loop is running; its iterations and sleeps follow each other. */
  predicate Looping(p: Phase) {
    !p.Booting? && !p.Stopping? && !p.Releasing? && !p.Deleting? && !p.Gone?
  }

  /** The worker has time until `to`: every iteration, and every action of a lease holder, keeps to its bound. */
  predicate InTime(b: Bounds, me: Worker, to: int) {
    && (Looping(me.phase) ==> to <= me.woke + b.iteration)
    && (me.due.Some? ==> to <= me.due.value)
  }

  predicate Enabled(b: Bounds, s: State, e: Event) {
    match e
    case Advance(to) => s.now <= to && forall w :: 0 <= w < |s.workers| ==> InTime(b, s.workers[w], to)
    case Step(w) =>
      w < |s.workers| && !s.workers[w].phase.Gone? &&
        (s.workers[w].phase.Sleeping? ==> s.now >= s.workers[w].phase.wake)
    case Cancel(w) =>
      w < |s.workers| && Looping(s.workers[w].phase)
  }

  function Enabling(b: Bounds): (State, Event) -> bool {
    (s, e) => Enabled(b, s, e)
  }

  function Sleep(b: Bounds, s: State, me: Worker): Worker {
    me.(phase := Sleeping(s.now + b.renew), woke := s.now + b.renew,
        due := if me.due.Some? then Some(s.now + b.renew + b.before) else None)
  }

  /** The key and the worker after the worker's next action. */
  function Next(b: Bounds, s: State, w: nat): (Key, Worker)
    requires w < |s.workers|
  {
    var me := s.workers[w];
    match me.phase
    case Booting => (s.key, me.(phase := Ready, woke := s.now))
    case Ready =>
      var current := Get(s.key, s.now);
      if current == Some(w) then (s.key, me.(phase := Renewing))
      else if current.Some? then (s.key, me.(phase := Refused, due := None))
      else (s.key, me.(phase := Claiming, due := None))
    case Renewing => (SetEx(w, b.ttl, s.now), me.(phase := Acquired, due := Some(s.now + b.after)))
    case Claiming =>
      var (acquired, key) := SetNxEx(s.key, w, b.ttl, s.now);
      if acquired then (key, me.(phase := Acquired, due := Some(s.now + b.after))) else (key, me.(phase := Refused))
    case Acquired =>
      if me.owner then (s.key, Sleep(b, s, me)) else (s.key, me.(phase := Starting, owner := true, jobs := true))
    case Starting => (s.key, Sleep(b, s, me))
    case Refused =>
      if me.owner then (s.key, me.(phase := Losing, owner := false)) else (s.key, Sleep(b, s, me))
    case Losing => (s.key, Sleep(b, s, me.(jobs := false)))
    case Sleeping(_) => (s.key, me.(phase := Ready))
    case Stopping => (s.key, me.(phase := Releasing, owner := false, jobs := false))
    case Releasing =>
      if Get(s.key, s.now) == Some(w) then (s.key, me.(phase := Deleting)) else (s.key, me.(phase := Gone, due := None))
    case Deleting => (Absent, me.(phase := Gone, due := None))
    case Gone => (s.key, me)
  }

  /** The supervisor is cancelled; an owner stops its jobs before it releases the lease. */
  function Cancelled(b: Bounds, s: State, me: Worker): Worker {
    me.(phase := if me.owner then Stopping else Releasing, due := if me.due.Some? then Some(s.now + b.stop) else None)
  }

  function Apply(b: Bounds, s: State, e: Event): State {
    match e
    case Advance(to) => s.(now := to)
    case Step(w) =>
      if w < |s.workers| then
        var (key, me) := Next(b, s, w);
        s.(key := key, workers := s.workers[w := me])
      else s
    case Cancel(w) =>
      if w < |s.workers| then s.(workers := s.workers[w := Cancelled(b, s, s.workers[w])]) else s
  }

  function Start(n: nat): State {
    State(0, Absent, seq(n, _ => Worker(Booting, false, false, 0, None)))
  }

  function Applying(b: Bounds): (State, Event) -> State {
    (s, e) => Apply(b, s, e)
  }

  ghost predicate Reachable(b: Bounds, n: nat, s: State) {
    Runs.Reachable(Enabling(b), Applying(b), Start(n), s)
  }

  // ---- Safety ----

  /** The key holds the worker's own unexpired token. */
  predicate HoldsLease(s: State, w: nat) {
    Get(s.key, s.now) == Some(w)
  }

  /** At most one worker owns the jobs or runs them, and it holds the lease. */
  ghost predicate Safe(s: State) {
    && (forall w :: 0 <= w < |s.workers| && (s.workers[w].owner || s.workers[w].jobs) ==> HoldsLease(s, w))
    && (forall v, w ::
          0 <= v < |s.workers| && 0 <= w < |s.workers| && s.workers[v].owner && s.workers[w].owner ==> v == w)
  }

  /** The latest time at which a lease holder takes its next timed action. */
  function Deadline(b: Bounds, me: Worker): int
    requires me.due.Some?
  {
    if Looping(me.phase) then Min(me.due.value, me.woke + b.iteration) else me.due.value
  }

  /** How much later than the deadline the lease must still be alive. */
  function Reserve(b: Bounds, p: Phase): int {
    if p.Acquired? || p.Starting? then b.renew + Min(b.before, b.iteration) + b.stop
    else if p.Stopping? || p.Releasing? || p.Deleting? then 0
    else b.stop
  }

  /**
   * A worker with a deadline has its token in the key for longer than it needs; one without has no flag and no jobs.
   */
  ghost predicate Sound(b: Bounds, s: State, w: nat)
    requires w < |s.workers|
  {
    var me := s.workers[w];
    && (if me.phase.Sleeping? then me.woke == me.phase.wake else Looping(me.phase) ==> me.woke <= s.now)
    && (Looping(me.phase) ==> s.now <= me.woke + b.iteration)
    && if me.due.Some? then
      && s.key.Held? && s.key.token == w && me.jobs == me.owner
      && s.now <= Deadline(b, me) && Deadline(b, me) + Reserve(b, me.phase) < s.key.until
      && !me.phase.Booting? && !me.phase.Claiming? && !me.phase.Refused? && !me.phase.Losing? && !me.phase.Gone?
      && ((me.phase.Releasing? || me.phase.Deleting?) ==> !me.owner && !me.jobs)
    else
      && !me.owner && !me.jobs
      && (s.key.Held? ==> s.key.token != w)
      && !me.phase.Renewing? && !me.phase.Acquired? && !me.phase.Starting? && !me.phase.Stopping? && !me.phase.Deleting?
  }

  ghost predicate Inv(b: Bounds, s: State) {
    && (forall w :: 0 <= w < |s.workers| ==> Sound(b, s, w))
    && (s.key.Held? ==> s.key.token < |s.workers|)
  }

  /** A worker that holds the lease stays sound when it acts. */
  lemma HolderStaysSound(b: Bounds, s: State, w: nat)
    requires b.Valid() && b.Enough() && Inv(b, s) && Enabled(b, s, Step(w)) && s.workers[w].due.Some?
    ensures Sound(b, Apply(b, s, Step(w)), w)
  {
    assert Sound(b, s, w);
    assert Apply(b, s, Step(w)).workers[w] == Next(b, s, w).1;
  }

  /** So does one that does not. */
  lemma SeekerStaysSound(b: Bounds, s: State, w: nat)
    requires b.Valid() && b.Enough() && Inv(b, s) && Enabled(b, s, Step(w)) && s.workers[w].due.None?
    ensures Sound(b, Apply(b, s, Step(w)), w)
  {
    assert Sound(b, s, w);
    assert Apply(b, s, Step(w)).workers[w] == Next(b, s, w).1;
  }

  /** And every other worker: only the holder of the lease, or nobody, loses or overwrites the key. */
  lemma OthersStaySound(b: Bounds, s: State, w: nat, v: nat)
    requires b.Valid() && Inv(b, s) && Enabled(b, s, Step(w)) && v < |s.workers| && v != w
    ensures Sound(b, Apply(b, s, Step(w)), v)
  {
    assert Sound(b, s, w);
    assert Sound(b, s, v);
    assert Apply(b, s, Step(w)).workers[v] == s.workers[v];
    if s.key.Held? {
      assert Sound(b, s, s.key.token);
    }
  }

  lemma StepKeepsInv(b: Bounds, s: State, w: nat)
    requires b.Valid() && b.Enough() && Inv(b, s) && Enabled(b, s, Step(w))
    ensures Inv(b, Apply(b, s, Step(w)))
  {
    var t := Apply(b, s, Step(w));
    forall v | 0 <= v < |t.workers| ensures Sound(b, t, v) {
      if v == w && s.workers[w].due.Some? {
        HolderStaysSound(b, s, w);
      } else if v == w {
        SeekerStaysSound(b, s, w);
      } else {
        OthersStaySound(b, s, w, v);
      }
    }
  }

  lemma EventKeepsInv(b: Bounds, s: State, e: Event)
    requires b.Valid() && b.Enough() && Inv(b, s) && Enabled(b, s, e)
    ensures Inv(b, Apply(b, s, e))
  {
    match e {
      case Step(w) => StepKeepsInv(b, s, w);
      case Advance(to) =>
        forall v | 0 <= v < |s.workers| ensures Sound(b, Apply(b, s, e), v) {
          assert Sound(b, s, v);
        }
      case Cancel(w) =>
        forall v | 0 <= v < |s.workers| ensures Sound(b, Apply(b, s, e), v) {
          assert Sound(b, s, v);
        }
    }
  }

  lemma ReachableIsSound(b: Bounds, n: nat, s: State)
    requires b.Valid() && b.Enough() && Reachable(b, n, s)
    ensures Inv(b, s)
  {
    forall x, e | Inv(b, x) && Enabling(b)(x, e) ensures Inv(b, Applying(b)(x, e)) {
      EventKeepsInv(b, x, e);
    }
    Runs.Invariant(Enabling(b), Applying(b), x => Inv(b, x), Start(n), s);
  }

  lemma InvIsSafe(b: Bounds, s: State)
    requires b.Valid() && Inv(b, s)
    ensures Safe(s)
  {
    forall w | 0 <= w < |s.workers| && (s.workers[w].owner || s.workers[w].jobs) ensures HoldsLease(s, w) {
      assert Sound(b, s, w);
    }
  }

  // ---- The bound is exact ----

  lemma Reach(b: Bounds, n: nat, s: State, e: Event) returns (t: State)
    requires Reachable(b, n, s) && Enabled(b, s, e)
    ensures Reachable(b, n, t) && t == Apply(b, s, e)
  {
    Runs.Reach(Enabling(b), Applying(b), Start(n), s, e);
    t := Apply(b, s, e);
  }

  /** Worker 0 has become the owner at time 0 and nobody else has moved. */
  ghost predicate FirstOwns(b: Bounds, n: nat, s: State) {
    && |s.workers| == n >= 2
    && s.key == Held(0, b.ttl)
    && s.workers[0].owner && s.workers[0].due.Some?
    && forall w :: 1 <= w < n ==> s.workers[w] == Worker(Booting, false, false, 0, None)
  }

  lemma FirstWorkerOwns(b: Bounds, n: nat) returns (s: State)
    requires b.Valid() && n >= 2
    ensures Reachable(b, n, s) && FirstOwns(b, n, s) && s.now == 0
    ensures s.workers[0].phase == Starting && s.workers[0].woke == 0 && s.workers[0].due == Some(b.after)
  {
    s := Start(n);
    Runs.StartIsReachable(Enabling(b), Applying(b), s);
    s := Reach(b, n, s, Step(0));
    s := Reach(b, n, s, Step(0));
    s := Reach(b, n, s, Step(0));
    s := Reach(b, n, s, Step(0));
  }

  /** If the bounds leave no slack, the first worker can still be flagged when its lease runs out. */
  lemma FirstWorkerLingers(b: Bounds, n: nat) returns (s: State)
    requires b.Valid() && !b.Enough() && n >= 2
    ensures Reachable(b, n, s) && FirstOwns(b, n, s) && s.now == b.ttl
  {
    s := FirstWorkerOwns(b, n);
    var asleep := Min(b.after, b.iteration);
    var renewal := asleep + b.renew + Min(b.before, b.iteration);
    if asleep < b.ttl {
      s := Reach(b, n, s, Advance(asleep));
      s := Reach(b, n, s, Step(0));
      if renewal < b.ttl {
        s := Reach(b, n, s, Advance(renewal));
        s := Reach(b, n, s, Cancel(0));
      }
    }
    s := Reach(b, n, s, Advance(b.ttl));
  }

  lemma UnsafeRun(b: Bounds, n: nat) returns (s: State)
    requires b.Valid() && !b.Enough() && n >= 2
    ensures Reachable(b, n, s) && !Safe(s)
    ensures |s.workers| == n && s.workers[0].owner && s.workers[1].owner
  {
    s := FirstWorkerLingers(b, n);
    s := Reach(b, n, s, Step(1));
    s := Reach(b, n, s, Step(1));
    assert s.workers[1].phase == Claiming && s.workers[0].owner;
    s := Reach(b, n, s, Step(1));
    assert s.workers[1].phase == Acquired && s.workers[0].owner;
    s := Reach(b, n, s, Step(1));
    assert s.workers[1].owner && s.workers[0].owner;
  }

  /** Every interleaving of two or more workers is safe exactly when all work between two renewals fits the lease. */
  lemma SafeExactlyWhen(b: Bounds, n: nat)
    requires b.Valid() && n >= 2
    ensures (forall s :: Reachable(b, n, s) ==> Safe(s)) <==> b.Enough()
  {
    if b.Enough() {
      forall s | Reachable(b, n, s) ensures Safe(s) {
        ReachableIsSound(b, n, s);
        InvIsSafe(b, s);
      }
    } else {
      var s := UnsafeRun(b, n);
    }
  }

  /**
   * With any settings and however long an iteration is, less than five seconds around the renewal and for the stop
   * are safe.
   */
  lemma FiveSecondsAreSafe(ttlSetting: int, renewSetting: int, iteration: int, before: int, after: int, stop: int,
                           n: nat, s: State)
    requires iteration >= 0 && before >= 0 && after >= 0 && stop >= 0 && before + after + stop < 5 && n >= 2
    requires Reachable(
               Bounds(TtlSec(ttlSetting), RenewSec(ttlSetting, renewSetting), iteration, before, after, stop), n, s)
    ensures Safe(s)
  {
    RenewFitsTtl(ttlSetting, renewSetting);
    SafeExactlyWhen(Bounds(TtlSec(ttlSetting), RenewSec(ttlSetting, renewSetting), iteration, before, after, stop), n);
  }

  /**
   * Where only whole iterations and the stop are bounded, two iterations lie between two renewals: the lease is safe
   * exactly when both of them, the sleep and the stop fit the lifetime.
   */
  lemma SafeIterationsExactlyWhen(ttlSetting: int, renewSetting: int, iteration: int, stop: int, n: nat)
    requires iteration >= 0 && stop >= 0 && n >= 2
    ensures (forall s :: Reachable(IterationBounds(ttlSetting, renewSetting, iteration, stop), n, s) ==> Safe(s))
            <==> 2 * iteration + RenewSec(ttlSetting, renewSetting) + stop < TtlSec(ttlSetting)
  {
    RenewFitsTtl(ttlSetting, renewSetting);
    SafeExactlyWhen(IterationBounds(ttlSetting, renewSetting, iteration, stop), n);
  }

  /**
   * So whatever the settings, there is an unsafe run in which every iteration is shorter than `ttl - renew` and every
   * stop immediate.
   */
  lemma OneIterationBoundIsTooWeak(ttlSetting: int, renewSetting: int, n: nat)
    requires n >= 2
    ensures var iteration := TtlSec(ttlSetting) - RenewSec(ttlSetting, renewSetting) - 1;
            iteration >= 4 &&
            exists s :: Reachable(IterationBounds(ttlSetting, renewSetting, iteration, 0), n, s) && !Safe(s)
  {
    RenewFitsTtl(ttlSetting, renewSetting);
    SafeIterationsExactlyWhen(
      ttlSetting, renewSetting, TtlSec(ttlSetting) - RenewSec(ttlSetting, renewSetting) - 1, 0, n);
  }

  // ---- One worker's code ----

  class RedisKey {
    var key: Key

    constructor ()
      ensures key == Absent
    {
      key := Absent;
    }
  }

  /** The variables of one worker's supervisor. Each method is the code between two interruption points. */
  class Supervisor {
    const token: nat
    const bounds: Bounds
    var phase: Phase
    var owner: bool
    var jobs: bool
    ghost var woke: int
    ghost var due: Option<int>

    constructor (token: nat, bounds: Bounds)
      ensures this.token == token && this.bounds == bounds && View() == Worker(Booting, false, false, 0, None)
    {
      this.token, this.bounds := token, bounds;
      phase, owner, jobs, woke, due := Booting, false, false, 0, None;
    }

    ghost function View(): Worker
      reads this
    {
      Worker(phase, owner, jobs, woke, due)
    }

    /** This worker has just acted in a state that differs only by its action. */
    twostate predicate Acted(redis: RedisKey, now: int, s: State)
      reads this, redis
    {
      && s.now == now && s.key == old(redis.key) && token < |s.workers| && s.workers[token] == old(View())
      ==> (redis.key, View()) == Next(bounds, s, token)
    }

    /** The supervisor task starts. */
    method Boot(redis: RedisKey, now: int)
      requires phase == Booting
      modifies this
      ensures forall s :: Acted(redis, now, s)
    {
      phase, woke := Ready, now;
    }

    /** `current = await redis.get(key)` and the branch on it */
    method ReadKey(redis: RedisKey, now: int)
      requires phase == Ready
      modifies this
      ensures forall s :: Acted(redis, now, s)
    {
      var current := Get(redis.key, now);
      if current == Some(token) {
        phase := Renewing;
      } else if current.Some? {
        phase, due := Refused, None;
      } else {
        phase, due := Claiming, None;
      }
    }

    /** `await redis.set(key, token, ex=ttl)` */
    method Renew(redis: RedisKey, now: int)
      requires phase == Renewing
      modifies this, redis
      ensures forall s :: Acted(redis, now, s)
    {
      redis.key := SetEx(token, bounds.ttl, now);
      phase, due := Acquired, Some(now + bounds.after);
    }

    /** `acquired = await redis.set(key, token, nx=True, ex=ttl)` */
    method Claim(redis: RedisKey, now: int)
      requires phase == Claiming
      modifies this, redis
      ensures forall s :: Acted(redis, now, s)
    {
      var (acquired, key) := SetNxEx(redis.key, token, bounds.ttl, now);
      redis.key := key;
      if acquired {
        phase, due := Acquired, Some(now + bounds.after);
      } else {
        phase := Refused;
      }
    }

    method GoToSleep(now: int)
      modifies this
      ensures phase == Sleeping(now + bounds.renew) && woke == now + bounds.renew && owner == old(owner) &&
              jobs == old(jobs)
      ensures due == if old(due).Some? then Some(now + bounds.renew + bounds.before) else None
    {
      phase, woke := Sleeping(now + bounds.renew), now + bounds.renew;
      due := if due.Some? then Some(now + bounds.renew + bounds.before) else None;
    }

    /** The branch of the supervisor on the status, up to the start or the end of the jobs. */
    method UpdateFlag(redis: RedisKey, now: int)
      requires phase == Acquired || phase == Refused
      modifies this
      ensures forall s :: Acted(redis, now, s)
    {
      if phase == Acquired {
        if !owner {
          owner, jobs, phase := true, true, Starting;
        } else {
          GoToSleep(now);
        }
      } else if owner {
        owner, phase := false, Losing;
      } else {
        GoToSleep(now);
      }
    }

    /** The jobs have been started, or stopped after a loss; the supervisor sleeps. */
    method JobsSettled(redis: RedisKey, now: int)
      requires phase == Starting || phase == Losing
      modifies this
      ensures forall s :: Acted(redis, now, s)
    {
      if phase == Losing {
        jobs := false;
      }
      GoToSleep(now);
    }

    /** The end of the lifespan: jobs stopped, flag cleared, key released if it is still this worker's. */
    method Shutdown(redis: RedisKey, now: int)
      requires phase == Stopping || phase == Releasing || phase == Deleting
      modifies this, redis
      ensures forall s :: Acted(redis, now, s)
    {
      if phase == Stopping {
        jobs, owner, phase := false, false, Releasing;
      } else if phase == Releasing {
        if Get(redis.key, now) == Some(token) {
          phase := Deleting;
        } else {
          phase, due := Gone, None;
        }
      } else {
        redis.key := Absent;
        phase, due := Gone, None;
      }
    }
  }
}
