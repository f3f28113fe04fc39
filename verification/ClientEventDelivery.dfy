/** That reported events are sent: what a flush takes, when a queue is empty, and what a failure puts back. */
module ClientEventDelivery {
  import opened ClientEventQueue
  import N = Numbers

  /** The timer fires with something to send, and the interval since the last flush is over. */
  predicate Ripe(o: LoggerOptions, s: State, now: int) {
    s.timerArmed && s.queue != [] && now - s.lastFlushAt >= o.flushIntervalMs
  }

  /** A ripe timer moves the first events, as many as a batch may hold, into a new unanswered batch. */
  lemma RipeTimerSends(o: LoggerOptions, s: State, now: int)
    requires Ripe(o, s, now) && o.maxBatchSize >= 1
    ensures var t, n := Apply(o, s, Timer(now)), N.Min(o.maxBatchSize, |s.queue|);
            && 1 <= n <= |s.queue| && t.inFlight == s.inFlight + [s.queue[..n]] && t.queue == s.queue[n..]
            && t.lastFlushAt == now && !t.timerArmed && t.history == s.history &&
               t.backoffMultiplier == s.backoffMultiplier
  {
  }

  /** A timer that is not ripe sends nothing, and comes again if there is something to send; none fires unarmed. */
  lemma UnripeTimerWaits(o: LoggerOptions, s: State, now: int)
    requires !Ripe(o, s, now)
    ensures Apply(o, s, Timer(now)) == s.(timerArmed := s.timerArmed && s.queue != [])
  {
  }

  // ---- Delivery ----

  /** The timer fires, and the batch it sends is accepted. */
  function Round(s: State, now: int): seq<Step> {
    [Timer(now), Answer(|s.inFlight|, true)]
  }

  lemma RunTwo(o: LoggerOptions, s: State, first: Step, second: Step)
    ensures Run(o, s, [first, second]) == Apply(o, Apply(o, s, first), second)
  {
    assert [first, second][1..] == [second] && [second][1..] == [];
    assert Run(o, Apply(o, s, first), [second]) == Run(o, Apply(o, Apply(o, s, first), second), []);
  }

  lemma RoundDelivers(o: LoggerOptions, s: State, now: int)
    requires Ripe(o, s, now) && o.maxBatchSize >= 1
    ensures var t, n := Run(o, s, Round(s, now)), N.Min(o.maxBatchSize, |s.queue|);
            && t.history == s.history.(delivered := s.history.delivered + s.queue[..n]) && t.queue == s.queue[n..]
            && t.inFlight == s.inFlight && t.lastFlushAt == now && (t.queue != [] ==> t.timerArmed)
  {
    RunTwo(o, s, Timer(now), Answer(|s.inFlight|, true));
    RipeTimerSends(o, s, now);
    var sent, n := Apply(o, s, Timer(now)), N.Min(o.maxBatchSize, |s.queue|);
    assert sent.inFlight[..|s.inFlight|] + sent.inFlight[|s.inFlight| + 1..] == s.inFlight;
  }

  /** Rounds at the given times, as long as there is something to send. */
  function Rounds(o: LoggerOptions, s: State, times: seq<int>): State
    decreases |times|
  {
    if times == [] || s.queue == [] then s else Rounds(o, Run(o, s, Round(s, times[0])), times[1..])
  }

  /** The times are at least the flush interval apart. */
  predicate Apart(o: LoggerOptions, last: int, times: seq<int>)
    decreases |times|
  {
    times == [] || (times[0] - last >= o.flushIntervalMs && Apart(o, times[0], times[1..]))
  }

  /** Everything queued is delivered, in order, within as many rounds as there are batches. */
  lemma {:induction false} RoundsDeliverAll(o: LoggerOptions, s: State, times: seq<int>)
    requires o.maxBatchSize >= 1 && (s.queue != [] ==> s.timerArmed) && Apart(o, s.lastFlushAt, times)
    requires |s.queue| <= |times| * o.maxBatchSize
    ensures Rounds(o, s, times).queue == [] && Rounds(o, s, times).inFlight == s.inFlight
    ensures Rounds(o, s, times).history == s.history.(delivered := s.history.delivered + s.queue)
    decreases |times|
  {
    if s.queue == [] {
      assert s.history.delivered + s.queue == s.history.delivered;
    } else {
      FewerRounds(|times|, o.maxBatchSize, |s.queue|);
      RoundDelivers(o, s, times[0]);
      var n := N.Min(o.maxBatchSize, |s.queue|);
      RoundsDeliverAll(o, Run(o, s, Round(s, times[0])), times[1..]);
      assert s.history.delivered + s.queue[..n] + s.queue[n..] == s.history.delivered + s.queue;
    }
  }

  lemma FewerRounds(rounds: nat, batch: int, queued: nat)
    requires 0 < queued <= rounds * batch && batch >= 1
    ensures rounds >= 1 && queued - N.Min(batch, queued) <= (rounds - 1) * batch
  {
    assert (rounds - 1) * batch == rounds * batch - batch;
  }

  // ---- Failure ----

  /** After a failure the timer is armed if there is something to send. */
  lemma FailureRearms(o: LoggerOptions, s: State, k: nat)
    requires k < |s.inFlight|
    ensures var t := Apply(o, s, Answer(k, false)); t.timerArmed == (s.timerArmed || t.queue != [])
  {
  }

  /** A flush that fails changes nothing in the queue, if there is room for all it took. */
  lemma FailedFlushIsUndone(o: LoggerOptions, s: State, now: int)
    requires Ripe(o, s, now) && |s.queue| <= o.maxQueueSize
    ensures var t := Run(o, s, [Timer(now), Answer(|s.inFlight|, false)]);
            && t.queue == s.queue && t.timerArmed && t.inFlight == s.inFlight
            && t.history.dropped == s.history.dropped && t.history.delivered == s.history.delivered
  {
    RunTwo(o, s, Timer(now), Answer(|s.inFlight|, false));
    var sent := Apply(o, s, Timer(now));
    var n := Clip(o.maxBatchSize, |s.queue|);
    assert sent.inFlight[..|s.inFlight|] + sent.inFlight[|s.inFlight| + 1..] == s.inFlight;
    assert sent.inFlight[|s.inFlight|] == s.queue[..n] && s.queue[..n] + s.queue[n..] == s.queue;
    assert s.queue[..n][0..] == s.queue[..n] && s.history.dropped + [] == s.history.dropped;
  }

  function Pow2(n: nat): int {
    if n == 0 then 1 else 2 * Pow2(n - 1)
  }

  /** No batch is accepted in this run; each answer is about one that is unanswered. */
  predicate OnlyFailures(o: LoggerOptions, s: State, steps: seq<Step>)
    decreases |steps|
  {
    steps == [] ||
    ((steps[0].Answer? ==> !steps[0].ok && steps[0].batch < |s.inFlight|)
     && OnlyFailures(o, Apply(o, s, steps[0]), steps[1..]))
  }

  function Failures(steps: seq<Step>): nat {
    if steps == [] then 0 else (if steps[0].Answer? then 1 else 0) + Failures(steps[1..])
  }

  lemma BackoffStep(o: LoggerOptions, s: State, step: Step, n: nat)
    requires s.backoffMultiplier == N.Min(8, Pow2(n)) && OnlyFailures(o, s, [step])
    ensures Apply(o, s, step).backoffMultiplier == N.Min(8, Pow2(if step.Answer? then n + 1 else n))
  {
  }

  /** The timer waits twice as long after each failure, up to eight times. */
  lemma {:induction false} FailuresDouble(o: LoggerOptions, s: State, steps: seq<Step>, n: nat)
    requires s.backoffMultiplier == N.Min(8, Pow2(n)) && OnlyFailures(o, s, steps)
    ensures Run(o, s, steps).backoffMultiplier == N.Min(8, Pow2(n + Failures(steps)))
    decreases |steps|
  {
    if steps != [] {
      assert [steps[0]][1..] == [];
      BackoffStep(o, s, steps[0], n);
      FailuresDouble(o, Apply(o, s, steps[0]), steps[1..], if steps[0].Answer? then n + 1 else n);
    }
  }

  /** An accepted batch ends the waiting. */
  lemma AcceptedEndsBackoff(o: LoggerOptions, s: State, k: nat)
    requires k < |s.inFlight|
    ensures var t := Apply(o, s, Answer(k, true));
            && t.backoffMultiplier == 1 && t.history.delivered == s.history.delivered + s.inFlight[k]
            && t.queue == s.queue && t.timerArmed == (s.timerArmed || s.queue != [])
  {
  }

  // ---- Leaving the page ----

  /** When the page is hidden, a queue within its maximum leaves by beacon as a whole. */
  lemma HidingSendsAll(o: LoggerOptions, s: State)
    requires |s.queue| <= o.maxQueueSize
    ensures var t := Apply(o, s, Hide);
            && t.queue == [] && t.history == s.history.(beaconed := s.history.beaconed + s.queue)
            && t.inFlight == s.inFlight
  {
    assert s.queue[..|s.queue|] == s.queue;
  }
}
