/** Locking of expired tokens and the retries that stop their bots. */
module ForceStopRetry {
  import opened Lists
  import opened Options
  import opened Sorting

  // Times are in microseconds.
  const SECOND := 1_000_000
  const MAX_ATTEMPTS := 12
  const BACKOFF_SCHEDULE_SEC: seq<int> := [60, 120, 300, 600, 900, 1800, 1800, 3600, 3600, 3600, 3600, 3600]
  const WINDOW := 50

  datatype Token = Token(
    jti: string, revoked: bool, issuedByProduct: bool, partnerReachable: bool, expiresAt: int,
    lockedAt: Option<int>, forceStopAt: Option<int>, attempts: nat, lastAttempt: Option<int>, lastError: Option<string>)

  /** The backend's answer to a force-stop call; no answer when it is down or fails. */
  datatype Reply = NoAnswer | Answer(action: string, note: string) {
    predicate Stopped() {
      Answer? && (action == "stop" || action == "noop")
    }
  }

  function BackoffForAttempt(attempts: int): int {
    if attempts <= 0 then BACKOFF_SCHEDULE_SEC[0]
    else if attempts - 1 < |BACKOFF_SCHEDULE_SEC| - 1 then BACKOFF_SCHEDULE_SEC[attempts - 1]
    else BACKOFF_SCHEDULE_SEC[|BACKOFF_SCHEDULE_SEC| - 1]
  }

  // ---- One token ----

  predicate Pending(t: Token) {
    t.lockedAt.Some? && t.forceStopAt.None? && t.attempts < MAX_ATTEMPTS
  }

  predicate Exhausted(t: Token) {
    t.lockedAt.Some? && t.forceStopAt.None? && t.attempts >= MAX_ATTEMPTS
  }

  predicate Due(t: Token, now: int) {
    t.lastAttempt.None? || now - t.lastAttempt.value >= BackoffForAttempt(t.attempts) * SECOND
  }

  predicate Expired(t: Token, now: int) {
    !t.revoked && !t.issuedByProduct && t.lockedAt.None? && t.expiresAt < now && t.partnerReachable
  }

  function Truncated(error: string): string {
    var text := if error == "" then "unknown" else error;
    if |text| <= 255 then text else text[..255]
  }

  /** `mark_attempt` on the row it finds. */
  function Marked(t: Token, success: bool, error: string, at: int): Token {
    var u := t.(attempts := t.attempts + 1, lastAttempt := Some(at));
    if success then u.(forceStopAt := Some(at), lastError := None) else u.(lastError := Some(Truncated(error)))
  }

  function ReplyError(reply: Reply, missing: string): string {
    if reply.NoAnswer? then missing else "action=" + reply.action + " note=" + reply.note
  }

  function Retried(t: Token, reply: Reply, at: int): Token {
    Marked(t, reply.Stopped(), ReplyError(reply, "backend_unreachable_or_error"), at)
  }

  // ---- The table ----

  /** `jti` is the primary key. */
  ghost predicate KeyedTable(tokens: seq<Token>) {
    forall i, j :: 0 <= i < j < |tokens| ==> tokens[i].jti != tokens[j].jti
  }

  function LockTime(t: Token): int {
    if t.lockedAt.Some? then t.lockedAt.value else 0
  }

  /** The oldest locked tokens that still need a retry. */
  function Window(tokens: seq<Token>): seq<Token> {
    var rows := Sort(Filter(tokens, Pending), ByKey(LockTime));
    if |rows| <= WINDOW then rows else rows[..WINDOW]
  }

  function IsDue(now: int): Token -> bool {
    t => Due(t, now)
  }

  function DueWindow(tokens: seq<Token>, now: int): seq<Token> {
    Filter(Window(tokens), IsDue(now))
  }

  /** The rows a tick retries: none without a backend client that is enabled. */
  function Chosen(tokens: seq<Token>, tick: Tick): seq<Token> {
    if tick.backend then DueWindow(tokens, tick.now) else []
  }

  /** What the world does during one retry tick. */
  datatype Tick = Tick(backend: bool, now: int, end: int, replies: string -> Reply, clock: string -> int)

  ghost predicate ValidTick(tick: Tick) {
    forall jti :: tick.now <= tick.clock(jti) <= tick.end
  }

  /** One retry tick, row by row. */
  function AfterTick(tokens: seq<Token>, tick: Tick): (r: seq<Token>)
    ensures |r| == |tokens|
  {
    seq(|tokens|, i requires 0 <= i < |tokens| =>
      var t := tokens[i];
      if t in Chosen(tokens, tick) then Retried(t, tick.replies(t.jti), tick.clock(t.jti)) else t)
  }

  /** What the world does during one lock tick: the rows fetched, the answers, and which notices get through. */
  datatype LockTick = LockTick(
    now: int, chosen: set<string>, backend: bool, replies: string -> Reply, clock: string -> int,
    notified: string -> bool, end: int)

  /** The row after the force-stop call, if it was fetched and there is a backend. */
  function Tried(t: Token, tick: LockTick): Token {
    if t.jti in tick.chosen && Expired(t, tick.now) && tick.backend then
      var reply := tick.replies(t.jti);
      Marked(t, reply.Stopped(), ReplyError(reply, "initial_call_failed"), tick.clock(t.jti))
    else t
  }

  predicate Locks(t: Token, tick: LockTick) {
    t.jti in tick.chosen && Expired(t, tick.now) && tick.notified(t.jti)
  }

  function Locked(t: Token, tick: LockTick): Token {
    if Locks(t, tick) then Tried(t, tick).(lockedAt := Some(tick.end)) else Tried(t, tick)
  }

  function AfterLockTick(tokens: seq<Token>, tick: LockTick): (r: seq<Token>)
    ensures |r| == |tokens|
  {
    seq(|tokens|, i requires 0 <= i < |tokens| => Locked(tokens[i], tick))
  }

  // ---- The source's loops ----

  class TokenStore {
    var tokens: seq<Token>

    constructor (tokens: seq<Token>)
      ensures this.tokens == tokens
    {
      this.tokens := tokens;
    }

    method MarkAttempt(jti: string, success: bool, error: string, at: int)
      requires KeyedTable(tokens)
      modifies this
      ensures |tokens| == |old(tokens)|
      ensures forall i :: 0 <= i < |tokens| ==>
                tokens[i] == if old(tokens)[i].jti == jti then Marked(old(tokens)[i], success, error, at)
                             else old(tokens)[i]
    {
      for i := 0 to |tokens|
        invariant tokens == old(tokens)
        invariant forall k :: 0 <= k < i ==> tokens[k].jti != jti
      {
        if tokens[i].jti == jti {
          tokens := tokens[i := Marked(tokens[i], success, error, at)];
          return;
        }
      }
    }

    method PendingQuery(now: int) returns (out: seq<Token>)
      ensures out == DueWindow(tokens, now)
    {
      var rows := Window(tokens);
      out := [];
      for i := 0 to |rows|
        invariant out == Filter(rows[..i], IsDue(now))
      {
        FilterPrefix(rows, i, IsDue(now));
        if rows[i].lastAttempt.None? {
          out := out + [rows[i]];
        } else if now - rows[i].lastAttempt.value >= BackoffForAttempt(rows[i].attempts) * SECOND {
          out := out + [rows[i]];
        }
      }
      assert rows[..|rows|] == rows;
    }

    /** One call to the backend and the record of its outcome. */
    method RetryOne(jti: string, result: Reply, at: int)
      requires KeyedTable(tokens)
      modifies this
      ensures |tokens| == |old(tokens)|
      ensures forall i :: 0 <= i < |tokens| ==>
                tokens[i] == if old(tokens)[i].jti == jti then Retried(old(tokens)[i], result, at) else old(tokens)[i]
    {
      if result.NoAnswer? {
        MarkAttempt(jti, false, "backend_unreachable_or_error", at);
      } else if result.action == "stop" || result.action == "noop" {
        MarkAttempt(jti, true, "", at);
      } else {
        MarkAttempt(jti, false, "action=" + result.action + " note=" + result.note, at);
      }
    }

    method RetryTick(tick: Tick)
      requires KeyedTable(tokens)
      modifies this
      ensures tokens == AfterTick(old(tokens), tick)
    {
      if !tick.backend {
        NothingChosen(tokens, tick);
        return;
      }
      var pending := PendingQuery(tick.now);
      DueWindowRows(tokens, tick.now);
      for k := 0 to |pending|
        invariant RetriedRows(old(tokens), tokens, pending[..k], tick)
      {
        ghost var before := tokens;
        RetriedKeys(old(tokens), tokens, pending[..k], tick);
        RetryOne(pending[k].jti, tick.replies(pending[k].jti), tick.clock(pending[k].jti));
        RetriedOneMore(old(tokens), before, tokens, pending, k, tick);
      }
      assert pending[..|pending|] == pending;
      AllRetried(old(tokens), tokens, tick);
    }

    /**
     * The lock loop over the fetched rows, then the write of `locked_at`. A row whose notice cannot be
     * delivered keeps its attempt but is not locked.
     */
    method LockCheckTick(tick: LockTick)
      requires KeyedTable(tokens)
      modifies this
      ensures tokens == AfterLockTick(old(tokens), tick)
    {
      var lockedJtis: set<string> := {};
      for i := 0 to |tokens|
        invariant |tokens| == |old(tokens)|
        invariant forall k :: 0 <= k < |tokens| ==>
                  tokens[k] == if k < i then Tried(old(tokens)[k], tick) else old(tokens)[k]
        invariant forall k :: 0 <= k < |tokens| ==>
                  (old(tokens)[k].jti in lockedJtis <==> k < i && Locks(old(tokens)[k], tick))
      {
        var t := tokens[i];
        if t.jti in tick.chosen && Expired(t, tick.now) {
          if tick.backend {
            var reply := tick.replies(t.jti);
            tokens := tokens[i := Marked(t, reply.Stopped(), ReplyError(reply, "initial_call_failed"),
                                         tick.clock(t.jti))];
          }
          if tick.notified(t.jti) {
            lockedJtis := lockedJtis + {t.jti};
          }
        }
      }
      for i := 0 to |tokens|
        invariant |tokens| == |old(tokens)|
        invariant forall k :: 0 <= k < |tokens| ==>
                    tokens[k] == if k < i then Locked(old(tokens)[k], tick) else Tried(old(tokens)[k], tick)
      {
        if tokens[i].jti in lockedJtis && tokens[i].lockedAt.None? {
          tokens := tokens[i := tokens[i].(lockedAt := Some(tick.end))];
        }
      }
    }
  }

  lemma NothingChosen(tokens: seq<Token>, tick: Tick)
    requires !tick.backend
    ensures AfterTick(tokens, tick) == tokens
  {
    assert forall i :: 0 <= i < |tokens| ==> AfterTick(tokens, tick)[i] == tokens[i];
  }

  /** The rows of `done` have been retried, the others are as they were. */
  ghost predicate RetriedRows(start: seq<Token>, tokens: seq<Token>, done: seq<Token>, tick: Tick) {
    && |tokens| == |start|
    && forall i :: 0 <= i < |tokens| ==>
         tokens[i] == AfterRetries(start[i], done, tick)
  }

  lemma AllRetried(start: seq<Token>, tokens: seq<Token>, tick: Tick)
    requires RetriedRows(start, tokens, Chosen(start, tick), tick)
    ensures tokens == AfterTick(start, tick)
  {
    assert forall i :: 0 <= i < |tokens| ==> tokens[i] == AfterTick(start, tick)[i];
  }

  lemma RetriedKeys(start: seq<Token>, tokens: seq<Token>, done: seq<Token>, tick: Tick)
    requires KeyedTable(start) && RetriedRows(start, tokens, done, tick)
    ensures KeyedTable(tokens)
  {
  }

  /** What the retries of the rows in `done` have made of row `t`. */
  function AfterRetries(t: Token, done: seq<Token>, tick: Tick): Token {
    if t in done then Retried(t, tick.replies(t.jti), tick.clock(t.jti)) else t
  }

  lemma RetriedOneMore(start: seq<Token>, before: seq<Token>, after: seq<Token>, pending: seq<Token>, k: int,
                       tick: Tick)
    requires KeyedTable(start) && NoDup(pending) && forall t :: t in pending ==> t in start
    requires 0 <= k < |pending| && RetriedRows(start, before, pending[..k], tick) && |after| == |before|
    requires forall i :: 0 <= i < |after| ==>
               after[i] == if before[i].jti == pending[k].jti
                           then Retried(before[i], tick.replies(pending[k].jti), tick.clock(pending[k].jti))
                           else before[i]
    ensures RetriedRows(start, after, pending[..k + 1], tick)
  {
    assert pending[k] in pending;
    forall i | 0 <= i < |after| ensures after[i] == AfterRetries(start[i], pending[..k + 1], tick) {
      assert before[i] == AfterRetries(start[i], pending[..k], tick);
    }
  }

  lemma DueWindowRows(tokens: seq<Token>, now: int)
    requires KeyedTable(tokens)
    ensures NoDup(DueWindow(tokens, now)) && NoDup(Window(tokens))
    ensures forall t :: t in DueWindow(tokens, now) <==> t in Window(tokens) && Due(t, now)
    ensures forall t :: t in Window(tokens) ==> t in tokens && Pending(t)
  {
    WindowRows(tokens);
    FilterElements(Window(tokens), IsDue(now));
  }

  lemma WindowRows(tokens: seq<Token>)
    requires KeyedTable(tokens)
    ensures NoDup(Window(tokens))
    ensures forall t :: t in Window(tokens) ==> t in tokens && Pending(t)
  {
    var rows := Filter(tokens, Pending);
    assert NoDup(tokens);
    FilterElements(tokens, Pending);
    SortElements(rows, ByKey(LockTime));
    SortNoDup(rows, ByKey(LockTime));
    assert forall t :: t in Window(tokens) ==> t in Sort(rows, ByKey(LockTime));
  }

  // ---- Runs ----

  datatype Step = Retry(tick: Tick) | Lock(lockTick: LockTick)

  function Apply(tokens: seq<Token>, step: Step): (r: seq<Token>)
    ensures |r| == |tokens|
  {
    match step
    case Retry(tick) => AfterTick(tokens, tick)
    case Lock(tick) => AfterLockTick(tokens, tick)
  }

  function Run(tokens: seq<Token>, steps: seq<Step>): (r: seq<Token>)
    ensures |r| == |tokens|
    decreases |steps|
  {
    if steps == [] then tokens else Run(Apply(tokens, steps[0]), steps[1..])
  }

  ghost predicate ValidSteps(steps: seq<Step>) {
    forall k :: 0 <= k < |steps| && steps[k].Retry? ==> ValidTick(steps[k].tick)
  }

  predicate IsRetried(tokens: seq<Token>, step: Step, i: nat)
    requires i < |tokens|
  {
    step.Retry? && tokens[i] in Chosen(tokens, step.tick)
  }

  /** How often the run calls the backend for row `i` in retry ticks. */
  function Retries(tokens: seq<Token>, steps: seq<Step>, i: nat): nat
    requires i < |tokens|
    decreases |steps|
  {
    if steps == [] then 0 else
      (if IsRetried(tokens, steps[0], i) then 1 else 0)
      + Retries(Apply(tokens, steps[0]), steps[1..], i)
  }

  lemma InWindow(tokens: seq<Token>, now: int, t: Token)
    requires t in DueWindow(tokens, now)
    ensures t in tokens && Pending(t) && Due(t, now)
  {
    var rows := Filter(tokens, Pending);
    FilterElements(tokens, Pending);
    SortElements(rows, ByKey(LockTime));
    FilterElements(Window(tokens), IsDue(now));
    assert t in Window(tokens);
    assert t in Sort(rows, ByKey(LockTime));
  }

  /** Once locked, a row changes by a due retry or not at all. */
  lemma StepOnLockedRow(tokens: seq<Token>, step: Step, i: nat)
    requires i < |tokens| && tokens[i].lockedAt.Some?
    ensures var t, u := tokens[i], Apply(tokens, step)[i];
            if IsRetried(tokens, step, i) then
              Pending(t) && Due(t, step.tick.now) && u == Retried(t, step.tick.replies(t.jti), step.tick.clock(t.jti))
            else u == t
  {
    if IsRetried(tokens, step, i) {
      InWindow(tokens, step.tick.now, tokens[i]);
    }
  }

  /**
   * A token locked with `a` attempts is retried at most `12 - a` times in any run, every retry counts one attempt,
   * and a token whose bot was stopped is never touched again.
   */
  lemma {:induction false} RetryBudget(tokens: seq<Token>, steps: seq<Step>, i: nat)
    requires i < |tokens| && tokens[i].lockedAt.Some?
    ensures Run(tokens, steps)[i].attempts == tokens[i].attempts + Retries(tokens, steps, i)
    ensures Retries(tokens, steps, i) <=
            (if tokens[i].attempts < MAX_ATTEMPTS then MAX_ATTEMPTS - tokens[i].attempts else 0)
    ensures tokens[i].forceStopAt.Some? ==> Retries(tokens, steps, i) == 0 && Run(tokens, steps)[i] == tokens[i]
    ensures Run(tokens, steps)[i].lockedAt == tokens[i].lockedAt
    decreases |steps|
  {
    if steps != [] {
      StepOnLockedRow(tokens, steps[0], i);
      RetryBudget(Apply(tokens, steps[0]), steps[1..], i);
    }
  }

  /** The waiting times scheduled from attempt `a` up to attempt `b`. */
  function WaitBetween(a: int, b: int): int
    decreases b - a
  {
    if a >= b then 0 else BackoffForAttempt(a) * SECOND + WaitBetween(a + 1, b)
  }

  /** From one state of a token to a later one, its attempts are at least the scheduled waiting times apart. */
  ghost predicate Spaced(t: Token, u: Token) {
    t.lastAttempt.Some? ==>
      u.lastAttempt.Some? && u.lastAttempt.value - t.lastAttempt.value >= WaitBetween(t.attempts, u.attempts)
  }

  /** The token as it was, or one attempt further after the scheduled waiting time. */
  predicate WaitedOnce(t: Token, u: Token) {
    u == t ||
    (u.lockedAt.Some? && u.attempts == t.attempts + 1 && u.lastAttempt.Some?
     && (t.lastAttempt.Some? ==> u.lastAttempt.value - t.lastAttempt.value >= BackoffForAttempt(t.attempts) * SECOND))
  }

  lemma SpacedStep(t: Token, u: Token, v: Token)
    requires WaitedOnce(t, u) && Spaced(u, v) && u.attempts <= v.attempts
    ensures Spaced(t, v)
  {
  }

  lemma RetryWaits(tokens: seq<Token>, step: Step, i: nat)
    requires i < |tokens| && tokens[i].lockedAt.Some?
    requires step.Retry? ==> ValidTick(step.tick)
    ensures WaitedOnce(tokens[i], Apply(tokens, step)[i])
  {
    StepOnLockedRow(tokens, step, i);
  }

  /** While a token stays locked, its attempts are at least the scheduled waiting times apart. */
  lemma {:induction false} RetrySpacing(tokens: seq<Token>, steps: seq<Step>, i: nat)
    requires i < |tokens| && tokens[i].lockedAt.Some? && ValidSteps(steps)
    ensures Spaced(tokens[i], Run(tokens, steps)[i])
    decreases |steps|
  {
    if steps != [] {
      var next := Apply(tokens, steps[0]);
      RetryWaits(tokens, steps[0], i);
      assert ValidSteps(steps[1..]);
      RetrySpacing(next, steps[1..], i);
      RetryBudget(next, steps[1..], i);
      SpacedStep(tokens[i], next[i], Run(next, steps[1..])[i]);
    }
  }

  /** From the first attempt of a locked token to its twelfth at least 19980 seconds pass. */
  lemma TwelveAttemptsTake(tokens: seq<Token>, steps: seq<Step>, i: nat)
    requires i < |tokens| && tokens[i].lockedAt.Some? && tokens[i].lastAttempt.Some? && ValidSteps(steps)
    requires tokens[i].attempts == 1 && Run(tokens, steps)[i].attempts == 12
    ensures Run(tokens, steps)[i].lastAttempt.Some?
    ensures Run(tokens, steps)[i].lastAttempt.value - tokens[i].lastAttempt.value >= 19980 * SECOND
  {
    RetrySpacing(tokens, steps, i);
    assert WaitBetween(10, 12) == 7200 * SECOND;
    assert WaitBetween(8, 12) == 14400 * SECOND;
    assert WaitBetween(6, 12) == 18000 * SECOND;
    assert WaitBetween(4, 12) == 19500 * SECOND;
    assert WaitBetween(2, 12) == 19920 * SECOND;
  }
}
