/** What retries and lock ticks record: stops, errors and locks, the schedule they keep, and the rows that are done. */
module RetryRecords {
  import opened ForceStopRetry
  import opened Options

  // ---- What an attempt records ----

  /** The backend says that the bot is stopped, or that there was nothing to stop. */
  predicate SaysStopped(reply: Reply) {
    reply.Answer? && (reply.action == "stop" || reply.action == "noop")
  }

  /** The text as far as the column holds it. */
  predicate Holds(stored: Option<string>, text: string) {
    stored.Some? && stored.value <= text && |stored.value| == if |text| <= 255 then |text| else 255
  }

  /** What is recorded of a call made at `at`: one more attempt, and the stop or why there was none. */
  ghost predicate Records(t: Token, u: Token, reply: Reply, missing: string, at: int) {
    && u.attempts == t.attempts + 1 && u.lastAttempt == Some(at)
    && (if SaysStopped(reply) then u.forceStopAt == Some(at) && u.lastError == None
        else u.forceStopAt == t.forceStopAt &&
             Holds(u.lastError, if reply.NoAnswer? then missing else "action=" + reply.action + " note=" + reply.note))
    && u.jti == t.jti && u.lockedAt == t.lockedAt && u.expiresAt == t.expiresAt && u.revoked == t.revoked
  }

  lemma ErrorIsHeld(error: string)
    ensures error != "" ==> Holds(Some(Truncated(error)), error)
    ensures error == "" ==> Truncated(error) == "unknown"
  {
  }

  lemma MarkedRecords(t: Token, reply: Reply, missing: string, at: int)
    requires missing != ""
    ensures Records(t, Marked(t, reply.Stopped(), ReplyError(reply, missing), at), reply, missing, at)
  {
    ErrorIsHeld(ReplyError(reply, missing));
    if reply.Answer? {
      assert |"action=" + reply.action + " note=" + reply.note| > 0;
    }
  }

  /** A tick changes exactly the rows it retries, and records for each what the backend said. */
  lemma TickRecords(tokens: seq<Token>, tick: Tick, i: nat)
    requires i < |tokens|
    ensures var t, u := tokens[i], AfterTick(tokens, tick)[i];
            if t in Chosen(tokens, tick) then
              Records(t, u, tick.replies(t.jti), "backend_unreachable_or_error", tick.clock(t.jti))
            else u == t
  {
    MarkedRecords(tokens[i], tick.replies(tokens[i].jti), "backend_unreachable_or_error", tick.clock(tokens[i].jti));
  }

  /** One of the retry calls for row `i` in the run was answered with a stop. */
  predicate WasStopped(tokens: seq<Token>, steps: seq<Step>, i: nat)
    requires i < |tokens|
    decreases |steps|
  {
    steps != [] &&
    ((IsRetried(tokens, steps[0], i) && SaysStopped(steps[0].tick.replies(tokens[i].jti)))
     || WasStopped(Apply(tokens, steps[0]), steps[1..], i))
  }

  /** In any run a locked row is recorded as stopped exactly when one of its retry calls was answered so. */
  lemma {:induction false} StoppedExactlyWhen(tokens: seq<Token>, steps: seq<Step>, i: nat)
    requires i < |tokens| && tokens[i].lockedAt.Some? && tokens[i].forceStopAt.None?
    ensures Run(tokens, steps)[i].forceStopAt.Some? <==> WasStopped(tokens, steps, i)
    decreases |steps|
  {
    if steps != [] {
      var next := Apply(tokens, steps[0]);
      StepOnLockedRow(tokens, steps[0], i);
      if IsRetried(tokens, steps[0], i) {
        TickRecords(tokens, steps[0].tick, i);
      }
      if next[i].forceStopAt.Some? {
        RetryBudget(next, steps[1..], i);
        assert IsRetried(tokens, steps[0], i);
      } else {
        StoppedExactlyWhen(next, steps[1..], i);
      }
    }
  }

  // ---- What a lock tick does ----

  /**
   * The rows a lock tick may fetch: expired tokens of reachable partners, not revoked, locked or issued by the
   * product.
   */
  predicate MayBeLocked(t: Token, now: int) {
    t.expiresAt < now && t.lockedAt == None && t.partnerReachable && !t.revoked && !t.issuedByProduct
  }

  /**
   * A lock tick leaves every other row alone. A row it fetches is locked exactly when the notice gets through, and the
   * call to the backend, if there is one, is recorded either way.
   */
  lemma LockTickRecords(tokens: seq<Token>, tick: LockTick, i: nat)
    requires i < |tokens|
    ensures var t, u := tokens[i], AfterLockTick(tokens, tick)[i];
            if t.jti in tick.chosen && MayBeLocked(t, tick.now) then
              && u.lockedAt == (if tick.notified(t.jti) then Some(tick.end) else None)
              && (if tick.backend then
                    Records(t, u.(lockedAt := None), tick.replies(t.jti), "initial_call_failed", tick.clock(t.jti))
                  else u.(lockedAt := None) == t)
            else u == t
  {
    MarkedRecords(tokens[i], tick.replies(tokens[i].jti), "initial_call_failed", tick.clock(tokens[i].jti));
  }

  // ---- The schedule ----

  /** The waits in minutes after the first attempt, the second and so on; the last one stays. */
  lemma BackoffSchedule(a: int)
    ensures 1 <= a <= 7 ==> BackoffForAttempt(a) == [1, 2, 5, 10, 15, 30, 30][a - 1] * 60
    ensures a >= 8 ==> BackoffForAttempt(a) == 3600
    ensures a <= 0 ==> BackoffForAttempt(a) == 60
  {
  }

  /** Waits never get shorter. */
  lemma BackoffGrows(a: int, b: int)
    requires a <= b
    ensures BackoffForAttempt(a) <= BackoffForAttempt(b)
  {
    BackoffSchedule(a);
    BackoffSchedule(b);
  }

  // ---- Rows that are done ----

  /** A locked row is stopped, waits for a retry or is exhausted, and only one that waits ever changes again. */
  lemma OnlyPendingRowsChange(tokens: seq<Token>, step: Step, i: nat)
    requires i < |tokens| && tokens[i].lockedAt.Some?
    ensures var t := tokens[i]; Exhausted(t) <==> t.forceStopAt.None? && !Pending(t)
    ensures var t := tokens[i]; t.forceStopAt.Some? || Exhausted(t) ==> Apply(tokens, step)[i] == t
    ensures var t := tokens[i]; Pending(t) <==> t.forceStopAt == None && t.attempts <= 11
  {
    StepOnLockedRow(tokens, step, i);
  }

  /** Rows that are not locked are neither retried nor exhausted. */
  lemma UnlockedRowsWait(t: Token)
    requires t.lockedAt.None?
    ensures !Pending(t) && !Exhausted(t)
  {
  }
}
