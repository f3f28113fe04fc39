/** The Mini App's client-side event queue: bounded, flushed in batches, re-queued on failure. */
module ClientEventQueue {
  import opened Sorting

  /** An event is known by its number in the order of reporting. */
  type Event = nat

  /** The options that matter to the queue; callers may set any number. */
  datatype LoggerOptions = LoggerOptions(flushIntervalMs: int, maxBatchSize: int, maxQueueSize: int)

  /** Where events have gone: handed to `fetch` and accepted, handed to the beacon, or discarded. */
  datatype History = History(reported: nat, delivered: seq<Event>, beaconed: seq<Event>, dropped: seq<Event>)

  /** The module's variables, the batches whose `fetch` has not been answered, and the history. */
  datatype State = State(
    queue: seq<Event>, timerArmed: bool, backoffMultiplier: int, lastFlushAt: int, inFlight: seq<seq<Event>>,
    history: History)

  const START := State([], false, 1, 0, [], History(0, [], [], []))

  function Clip(n: int, most: int): (k: int)
    requires most >= 0
    ensures 0 <= k <= most
  {
    if n < 0 then 0 else if n < most then n else most
  }

  // ---- What each callback does ----

  /** `enqueue`: make room by shifting out the oldest event, append, arm the timer. */
  function Enqueue(o: LoggerOptions, s: State): State {
    var h := s.history;
    var gone := if |s.queue| >= o.maxQueueSize then Clip(1, |s.queue|) else 0;
    s.(queue := s.queue[gone..] + [h.reported], timerArmed := true,
       history := h.(reported := h.reported + 1, dropped := h.dropped + s.queue[..gone]))
  }

  /** The timer's callback followed by `flush` up to its `fetch`. */
  function TimerFires(o: LoggerOptions, s: State, now: int): State {
    if !s.timerArmed then s
    else if s.queue == [] then s.(timerArmed := false)
    else if now - s.lastFlushAt < o.flushIntervalMs then s
    else
      var n := Clip(o.maxBatchSize, |s.queue|);
      s.(timerArmed := false, queue := s.queue[n..], lastFlushAt := now, inFlight := s.inFlight + [s.queue[..n]])
  }

  function Rearm(s: State): State {
    if s.queue != [] then s.(timerArmed := true) else s
  }

  function WithoutBatch(s: State, k: nat): State
    requires k < |s.inFlight|
  {
    s.(inFlight := s.inFlight[..k] + s.inFlight[k + 1..])
  }

  /** The rest of `flush` after batch `k` was accepted. */
  function Accepted(s: State, k: nat): State {
    if k >= |s.inFlight| then s else
      Rearm(WithoutBatch(s, k).(backoffMultiplier := 1,
                                history := s.history.(delivered := s.history.delivered + s.inFlight[k])))
  }

  /**
   * The rest of `flush` after batch `k` failed: its newest events go back to the front, as many as there is room for.
   */
  function Failed(o: LoggerOptions, s: State, k: nat): State {
    if k >= |s.inFlight| then s else
      var batch := s.inFlight[k];
      var kept := Clip(o.maxQueueSize - |s.queue|, |batch|);
      var lost := |batch| - kept;
      Rearm(WithoutBatch(s, k).(
        backoffMultiplier := if s.backoffMultiplier * 2 < 8 then s.backoffMultiplier * 2 else 8,
        queue := batch[lost..] + s.queue,
        history := s.history.(dropped := s.history.dropped + batch[..lost])))
  }

  /** The page is hidden: what is queued goes out by beacon. */
  function PageHides(o: LoggerOptions, s: State): State {
    var n := Clip(o.maxQueueSize, |s.queue|);
    s.(queue := s.queue[n..], history := s.history.(beaconed := s.history.beaconed + s.queue[..n]))
  }

  datatype Step = Report | Timer(now: int) | Answer(batch: nat, ok: bool) | Hide

  function Apply(o: LoggerOptions, s: State, step: Step): State {
    match step
    case Report => Enqueue(o, s)
    case Timer(now) => TimerFires(o, s, now)
    case Answer(k, ok) => if ok then Accepted(s, k) else Failed(o, s, k)
    case Hide => PageHides(o, s)
  }

  function Run(o: LoggerOptions, s: State, steps: seq<Step>): State
    decreases |steps|
  {
    if steps == [] then s else Run(o, Apply(o, s, steps[0]), steps[1..])
  }

  // ---- The callbacks as the source writes them ----

  class ClientLogger {
    const options: LoggerOptions
    var queue: seq<Event>
    var flushTimer: bool
    var backoffMultiplier: int
    var lastFlushAt: int
    var pending: seq<seq<Event>>
    ghost var history: History

    constructor (options: LoggerOptions)
      ensures this.options == options && View() == START
    {
      this.options := options;
      queue, flushTimer, backoffMultiplier, lastFlushAt := [], false, 1, 0;
      pending := [];
      history := START.history;
    }

    ghost function View(): State
      reads this
    {
      State(queue, flushTimer, backoffMultiplier, lastFlushAt, pending, history)
    }

    method ScheduleFlush()
      modifies this`flushTimer
      ensures flushTimer
    {
      if !flushTimer {
        flushTimer := true;
      }
    }

    method OnReport(event: Event)
      requires event == history.reported
      modifies this
      ensures View() == Enqueue(options, old(View()))
    {
      if |queue| >= options.maxQueueSize && queue != [] {
        history := history.(dropped := history.dropped + queue[..1]);
        queue := queue[1..];
      }
      queue := queue + [event];
      history := history.(reported := history.reported + 1);
      ScheduleFlush();
      assert old(history).dropped + [] == old(history).dropped;
    }

    method OnTimer(now: int)
      requires flushTimer
      modifies this
      ensures View() == TimerFires(options, old(View()), now)
    {
      flushTimer := false;
      if queue == [] {
        return;
      }
      if now - lastFlushAt < options.flushIntervalMs {
        ScheduleFlush();
        return;
      }
      var n := Clip(options.maxBatchSize, |queue|);
      var batch := queue[..n];
      queue := queue[n..];
      lastFlushAt := now;
      pending := pending + [batch];
    }

    /** The rest of `flush` after its `fetch` was answered. */
    method OnAnswer(k: nat, ok: bool)
      requires k < |pending|
      modifies this
      ensures View() == Apply(options, old(View()), Answer(k, ok))
    {
      if ok {
        OnAccepted(k);
      } else {
        OnFailed(k);
      }
    }

    method OnAccepted(k: nat)
      requires k < |pending|
      modifies this
      ensures View() == Accepted(old(View()), k)
    {
      history := history.(delivered := history.delivered + pending[k]);
      pending := pending[..k] + pending[k + 1..];
      backoffMultiplier := 1;
      if |queue| > 0 {
        ScheduleFlush();
      }
    }

    method OnFailed(k: nat)
      requires k < |pending|
      modifies this
      ensures View() == Failed(options, old(View()), k)
    {
      var batch := pending[k];
      pending := pending[..k] + pending[k + 1..];
      backoffMultiplier := if backoffMultiplier * 2 < 8 then backoffMultiplier * 2 else 8;
      var lost := Requeue(batch);
      history := history.(dropped := history.dropped + batch[..lost]);
      if |queue| > 0 {
        ScheduleFlush();
      }
    }

    /** As many of the batch's newest events as there is room for go back to the front. */
    method Requeue(batch: seq<Event>) returns (lost: nat)
      modifies this`queue
      ensures lost == |batch| - Clip(options.maxQueueSize - |old(queue)|, |batch|)
      ensures queue == batch[lost..] + old(queue)
    {
      var remaining := options.maxQueueSize - |queue|;
      lost := |batch|;
      if remaining > 0 {
        lost := if remaining < |batch| then |batch| - remaining else 0;
        queue := batch[lost..] + queue;
      } else {
        assert batch[lost..] + queue == queue;
      }
    }

    method OnPageHide()
      modifies this
      ensures View() == PageHides(options, old(View()))
    {
      if queue == [] {
        assert history.beaconed + [] == history.beaconed;
        return;
      }
      var n := Clip(options.maxQueueSize, |queue|);
      history := history.(beaconed := history.beaconed + queue[..n]);
      queue := queue[n..];
    }
  }

  // ---- Conservation, bound and progress ----

  function Count(batches: seq<seq<Event>>): multiset<Event> {
    if batches == [] then multiset{} else multiset(batches[0]) + Count(batches[1..])
  }

  function Numbers(n: nat): (r: seq<Event>)
    ensures |r| == n && forall i :: 0 <= i < n ==> r[i] == i
  {
    seq(n, i => i)
  }

  /** Where every event reported so far is. */
  function Everywhere(s: State): multiset<Event> {
    multiset(s.history.delivered) + multiset(s.history.beaconed) + multiset(s.history.dropped)
    + Count(s.inFlight) + multiset(s.queue)
  }

  ghost predicate Conserved(s: State) {
    Everywhere(s) == multiset(Numbers(s.history.reported))
  }

  /** A non-empty queue has a timer armed or an answer to come. */
  ghost predicate WillContinue(s: State) {
    s.queue != [] ==> s.timerArmed || s.inFlight != []
  }

  lemma {:induction false} CountSnoc(batches: seq<seq<Event>>, more: seq<Event>)
    ensures Count(batches + [more]) == Count(batches) + multiset(more)
  {
    if batches == [] {
      assert [more][1..] == [];
    } else {
      CountSnoc(batches[1..], more);
      assert (batches + [more])[1..] == batches[1..] + [more];
    }
  }

  lemma {:induction false} CountWithout(batches: seq<seq<Event>>, k: nat)
    requires k < |batches|
    ensures Count(batches) == multiset(batches[k]) + Count(batches[..k] + batches[k + 1..])
  {
    var rest := batches[..k] + batches[k + 1..];
    if k == 0 {
      assert rest == batches[1..];
    } else {
      CountWithout(batches[1..], k - 1);
      assert rest[1..] == batches[1..][..k - 1] + batches[1..][k..];
    }
  }

  lemma SplitCount(s: seq<Event>, n: int)
    requires 0 <= n <= |s|
    ensures multiset(s) == multiset(s[..n]) + multiset(s[n..])
  {
    assert s == s[..n] + s[n..];
  }

  lemma NextNumber(n: nat)
    ensures multiset(Numbers(n + 1)) == multiset(Numbers(n)) + multiset{n}
  {
    assert Numbers(n + 1) == Numbers(n) + [n];
  }

  lemma ReportConserves(o: LoggerOptions, s: State)
    requires Conserved(s)
    ensures Conserved(Enqueue(o, s))
  {
    var h, t := s.history, Enqueue(o, s);
    var n := if |s.queue| >= o.maxQueueSize then Clip(1, |s.queue|) else 0;
    SplitCount(s.queue, n);
    NextNumber(h.reported);
    Reported(multiset(h.delivered) + multiset(h.beaconed), multiset(h.dropped), multiset(s.queue[..n]),
             Count(s.inFlight), multiset(s.queue[n..]), multiset{h.reported});
    assert t.history.dropped == h.dropped + s.queue[..n] && t.queue == s.queue[n..] + [h.reported];
  }

  lemma Reported(out: multiset<Event>, dropped: multiset<Event>, gone: multiset<Event>, inFlight: multiset<Event>,
                 rest: multiset<Event>, added: multiset<Event>)
    ensures out + (dropped + gone) + inFlight + (rest + added) == out + dropped + inFlight + (gone + rest) + added
  {
  }

  lemma TimerConserves(o: LoggerOptions, s: State, now: int)
    requires Conserved(s)
    ensures Conserved(TimerFires(o, s, now))
  {
    var n := Clip(o.maxBatchSize, |s.queue|);
    SplitCount(s.queue, n);
    CountSnoc(s.inFlight, s.queue[..n]);
  }

  lemma AcceptConserves(s: State, k: nat)
    requires Conserved(s)
    ensures Conserved(Accepted(s, k))
  {
    if k < |s.inFlight| {
      CountWithout(s.inFlight, k);
    }
  }

  lemma FailConserves(o: LoggerOptions, s: State, k: nat)
    requires Conserved(s)
    ensures Conserved(Failed(o, s, k))
  {
    if k < |s.inFlight| {
      var batch := s.inFlight[k];
      var lost := |batch| - Clip(o.maxQueueSize - |s.queue|, |batch|);
      CountWithout(s.inFlight, k);
      SplitCount(batch, lost);
      FailedParts(o, s, k, lost);
    }
  }

  lemma FailedParts(o: LoggerOptions, s: State, k: nat, lost: int)
    requires k < |s.inFlight| && lost == |s.inFlight[k]| - Clip(o.maxQueueSize - |s.queue|, |s.inFlight[k]|)
    ensures var t, h, batch := Failed(o, s, k), s.history, s.inFlight[k];
            && t.history.reported == h.reported && t.history.delivered == h.delivered &&
               t.history.beaconed == h.beaconed
            && t.inFlight == s.inFlight[..k] + s.inFlight[k + 1..]
            && multiset(t.history.dropped) == multiset(h.dropped) + multiset(batch[..lost])
            && multiset(t.queue) == multiset(batch[lost..]) + multiset(s.queue)
  {
  }

  lemma StepConserves(o: LoggerOptions, s: State, step: Step)
    requires Conserved(s)
    ensures Conserved(Apply(o, s, step))
  {
    match step {
      case Report => ReportConserves(o, s);
      case Timer(now) => TimerConserves(o, s, now);
      case Answer(k, ok) =>
        AcceptConserves(s, k);
        FailConserves(o, s, k);
      case Hide =>
        SplitCount(s.queue, Clip(o.maxQueueSize, |s.queue|));
    }
  }

  /** In every run every event reported is in exactly one place, once, whatever the options. */
  lemma {:induction false} EventsAreConserved(o: LoggerOptions, s: State, steps: seq<Step>)
    requires Conserved(s) && WillContinue(s)
    ensures Conserved(Run(o, s, steps)) && WillContinue(Run(o, s, steps))
    decreases |steps|
  {
    if steps != [] {
      StepConserves(o, s, steps[0]);
      EventsAreConserved(o, Apply(o, s, steps[0]), steps[1..]);
    }
  }

  /** No event is accepted or beaconed more than once. */
  lemma SentAtMostOnce(s: State, e: Event)
    requires Conserved(s)
    ensures multiset(s.history.delivered)[e] + multiset(s.history.beaconed)[e] <= 1
  {
    NoDupCounts(Numbers(s.history.reported));
    assert Everywhere(s)[e] <= 1;
  }

  ghost predicate WithinBound(o: LoggerOptions, s: State) {
    |s.queue| <= o.maxQueueSize
  }

  lemma {:induction false} QueueStaysBounded(o: LoggerOptions, s: State, steps: seq<Step>)
    requires o.maxQueueSize >= 1 && WithinBound(o, s)
    ensures WithinBound(o, Run(o, s, steps))
    decreases |steps|
  {
    if steps != [] {
      QueueStaysBounded(o, Apply(o, s, steps[0]), steps[1..]);
    }
  }

  /** The queue keeps to its maximum in every run exactly when that maximum is at least one. */
  lemma BoundHoldsExactlyWhen(o: LoggerOptions)
    ensures (forall steps :: steps != [] ==> WithinBound(o, Run(o, START, steps))) <==> o.maxQueueSize >= 1
  {
    if o.maxQueueSize >= 1 {
      forall steps ensures WithinBound(o, Run(o, START, steps)) {
        QueueStaysBounded(o, START, steps);
      }
    } else {
      assert Run(o, Apply(o, START, Report), []) == Apply(o, START, Report);
      assert [Report][1..] == [];
      assert Run(o, START, [Report]) == Apply(o, START, Report);
    }
  }

  // ---- Loss and order ----

  lemma {:induction false} ReportedGrows(o: LoggerOptions, s: State, steps: seq<Step>)
    ensures s.history.reported <= Run(o, s, steps).history.reported
    decreases |steps|
  {
    if steps != [] {
      ReportedGrows(o, Apply(o, s, steps[0]), steps[1..]);
    }
  }

  lemma RoomLeft(s: State, k: nat)
    requires Conserved(s)
    ensures |s.queue| <= s.history.reported - |s.history.dropped|
    ensures k < |s.inFlight| ==> |s.queue| + |s.inFlight[k]| <= s.history.reported - |s.history.dropped|
  {
    assert |Everywhere(s)| == |multiset(Numbers(s.history.reported))| == s.history.reported;
    if k < |s.inFlight| {
      CountWithout(s.inFlight, k);
    }
  }

  lemma StepLosesNothing(o: LoggerOptions, s: State, step: Step)
    requires Conserved(s) && Apply(o, s, step).history.reported <= o.maxQueueSize
    ensures Apply(o, s, step).history.dropped == s.history.dropped
  {
    RoomLeft(s, if step.Answer? then step.batch else 0);
    assert s.history.dropped + [] == s.history.dropped;
  }

  /** A run that reports no more events than the queue may hold loses none. */
  lemma {:induction false} NothingLostWithinCapacity(o: LoggerOptions, s: State, steps: seq<Step>)
    requires Conserved(s) && Run(o, s, steps).history.reported <= o.maxQueueSize
    ensures Run(o, s, steps).history.dropped == s.history.dropped
    decreases |steps|
  {
    if steps != [] {
      StepConserves(o, s, steps[0]);
      ReportedGrows(o, Apply(o, s, steps[0]), steps[1..]);
      StepLosesNothing(o, s, steps[0]);
      NothingLostWithinCapacity(o, Apply(o, s, steps[0]), steps[1..]);
    }
  }

  /** No flush starts while another one is unanswered. */
  predicate SingleFlight(o: LoggerOptions, s: State, steps: seq<Step>)
    decreases |steps|
  {
    steps == [] || (|Apply(o, s, steps[0]).inFlight| <= 1 && SingleFlight(o, Apply(o, s, steps[0]), steps[1..]))
  }

  ghost predicate Increasing(s: seq<Event>) {
    forall i, j :: 0 <= i < j < |s| ==> s[i] < s[j]
  }

  /** The one unanswered batch, if there is one. */
  function Unanswered(batches: seq<seq<Event>>): seq<Event> {
    if batches == [] then [] else batches[0]
  }

  /** Accepted, unanswered and queued events, in this order, are in the order of reporting. */
  ghost predicate InOrder(s: State) {
    && |s.inFlight| <= 1
    && Ordered(s.history.delivered + Unanswered(s.inFlight) + s.queue, s.history.reported)
  }

  lemma SubsequenceIncreasing(a: seq<Event>, gone: seq<Event>, b: seq<Event>)
    requires Increasing(a + gone + b)
    ensures Increasing(a + b)
  {
    var all, kept := a + gone + b, a + b;
    forall i, j | 0 <= i < j < |kept| ensures kept[i] < kept[j] {
      var i' := if i < |a| then i else i + |gone|;
      var j' := if j < |a| then j else j + |gone|;
      assert kept[i] == all[i'] && kept[j] == all[j'];
    }
  }

  ghost predicate Ordered(events: seq<Event>, reported: nat) {
    Increasing(events) && forall e :: e in events ==> e < reported
  }

  lemma OrderedWithout(a: seq<Event>, gone: seq<Event>, b: seq<Event>, all: seq<Event>, n: nat)
    requires Ordered(all, n) && all == a + gone + b
    ensures Ordered(a + b, n)
  {
    SubsequenceIncreasing(a, gone, b);
    assert forall e :: e in a + b ==> e in all;
  }

  lemma OrderedAppend(events: seq<Event>, n: nat)
    requires Ordered(events, n)
    ensures Ordered(events + [n], n + 1)
  {
    var more := events + [n];
    forall i, j | 0 <= i < j < |more| ensures more[i] < more[j] {
      assert more[i] == events[i] && events[i] in events;
    }
  }

  lemma ReportKeepsOrder(o: LoggerOptions, s: State)
    requires InOrder(s)
    ensures InOrder(Enqueue(o, s))
  {
    var front, q, n := s.history.delivered + Unanswered(s.inFlight), s.queue, s.history.reported;
    var gone := if |q| >= o.maxQueueSize then Clip(1, |q|) else 0;
    assert front + q == front + q[..gone] + q[gone..];
    OrderedWithout(front, q[..gone], q[gone..], front + q, n);
    assert front + (q[gone..] + [n]) == (front + q[gone..]) + [n];
    OrderedAppend(front + q[gone..], n);
  }

  lemma TimerKeepsOrder(o: LoggerOptions, s: State, now: int)
    requires InOrder(s) && |TimerFires(o, s, now).inFlight| <= 1
    ensures InOrder(TimerFires(o, s, now))
  {
    var t := TimerFires(o, s, now);
    if t.inFlight != s.inFlight {
      var d, q := s.history.delivered, s.queue;
      var n := Clip(o.maxBatchSize, |q|);
      assert s.inFlight == [] && t.inFlight == [q[..n]];
      assert d + q[..n] + q[n..] == d + [] + q;
    }
  }

  lemma AcceptKeepsOrder(s: State, k: nat)
    requires InOrder(s)
    ensures InOrder(Accepted(s, k))
  {
    if k < |s.inFlight| {
      var t := Accepted(s, k);
      assert s.inFlight == [s.inFlight[k]] && t.inFlight == [];
      assert t.history.delivered + [] == t.history.delivered;
    }
  }

  lemma FailKeepsOrder(o: LoggerOptions, s: State, k: nat)
    requires InOrder(s)
    ensures InOrder(Failed(o, s, k))
  {
    if k < |s.inFlight| {
      var t, d, f, q := Failed(o, s, k), s.history.delivered, s.inFlight[k], s.queue;
      var lost := |f| - Clip(o.maxQueueSize - |q|, |f|);
      assert s.inFlight == [f] && t.inFlight == [];
      OrderedWithout(d, f[..lost], f[lost..] + q, d + f + q, s.history.reported);
      assert d + [] == d;
    }
  }

  lemma HideKeepsOrder(o: LoggerOptions, s: State)
    requires InOrder(s)
    ensures InOrder(PageHides(o, s))
  {
    var front, q := s.history.delivered + Unanswered(s.inFlight), s.queue;
    var n := Clip(o.maxQueueSize, |q|);
    assert front + q == front + q[..n] + q[n..];
    OrderedWithout(front, q[..n], q[n..], front + q, s.history.reported);
  }

  lemma StepKeepsOrder(o: LoggerOptions, s: State, step: Step)
    requires InOrder(s) && |Apply(o, s, step).inFlight| <= 1
    ensures InOrder(Apply(o, s, step))
  {
    match step {
      case Report => ReportKeepsOrder(o, s);
      case Timer(now) => TimerKeepsOrder(o, s, now);
      case Answer(k, ok) =>
        AcceptKeepsOrder(s, k);
        FailKeepsOrder(o, s, k);
      case Hide => HideKeepsOrder(o, s);
    }
  }

  /** With at most one flush unanswered at a time, events are accepted in the order they were reported. */
  lemma {:induction false} OrderIsKept(o: LoggerOptions, s: State, steps: seq<Step>)
    requires InOrder(s) && SingleFlight(o, s, steps)
    ensures InOrder(Run(o, s, steps)) && Increasing(Run(o, s, steps).history.delivered)
    decreases |steps|
  {
    if steps == [] {
      var d := s.history.delivered;
      assert forall i :: 0 <= i < |d| ==> d[i] == (d + Unanswered(s.inFlight) + s.queue)[i];
    } else {
      StepKeepsOrder(o, s, steps[0]);
      OrderIsKept(o, Apply(o, s, steps[0]), steps[1..]);
    }
  }
}
