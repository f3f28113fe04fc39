/** How fast the retry loop works off the locked tokens, although it looks at the oldest fifty only. */
module RetryDrain {
  import opened ForceStopRetry
  import opened Lists
  import opened Numbers
  import opened Options
  import opened Sorting

  // The longest wait of the schedule.
  const HOUR := 3600 * SECOND

  /** Attempts a row may still take. */
  function Left(t: Token): nat {
    if Pending(t) then MAX_ATTEMPTS - t.attempts else 0
  }

  function LeftOf(t: Token, rows: Token -> bool): nat {
    if rows(t) then Left(t) else 0
  }

  /** The attempts left to the rows of a kind, added up. */
  function Measure(tokens: seq<Token>, rows: Token -> bool): nat {
    if tokens == [] then 0 else Measure(tokens[..|tokens| - 1], rows) + LeftOf(tokens[|tokens| - 1], rows)
  }

  function AnyRow(): Token -> bool {
    (t: Token) => true
  }

  function LockedBy(cutoff: int): Token -> bool {
    (t: Token) => t.lockedAt.Some? && t.lockedAt.value <= cutoff
  }

  /** The rows of a kind that wait for a retry. */
  function Waiting(tokens: seq<Token>, rows: Token -> bool): seq<Token> {
    Filter(tokens, Both(Pending, rows))
  }

  // ---- One tick ----

  /**
   * Where a row never has more attempts left than at the start, and one less if it is touched on the way, the sum falls
   * by the touched rows.
   */
  lemma {:induction false} MeasureFalls(start: seq<Token>, mid: seq<Token>, after: seq<Token>,
                                        rows: Token -> bool, touched: Token -> bool)
    requires |start| == |mid| == |after|
    requires forall i :: 0 <= i < |start| ==>
               LeftOf(after[i], rows) + (if touched(mid[i]) then 1 else 0) <= LeftOf(start[i], rows)
    ensures Measure(after, rows) + |Filter(mid, touched)| <= Measure(start, rows)
  {
    if start != [] {
      var n := |start| - 1;
      MeasureFalls(start[..n], mid[..n], after[..n], rows, touched);
    }
  }

  function Among(rows: seq<Token>): Token -> bool {
    t => t in rows
  }

  lemma SameElementsSameLength(a: seq<Token>, b: seq<Token>)
    requires NoDup(a) && NoDup(b) && forall t :: t in a <==> t in b
    ensures |a| == |b|
  {
    ElementCount(a);
    ElementCount(b);
    assert (set t | t in a) == (set t | t in b);
  }

  lemma CountAmong(tokens: seq<Token>, rows: seq<Token>)
    requires NoDup(tokens) && NoDup(rows) && forall t :: t in rows ==> t in tokens
    ensures |Filter(tokens, Among(rows))| == |rows|
  {
    FilterElements(tokens, Among(rows));
    SameElementsSameLength(Filter(tokens, Among(rows)), rows);
  }

  lemma TickOnRow(tokens: seq<Token>, tick: Tick, i: nat)
    requires i < |tokens|
    ensures var t, u := tokens[i], AfterTick(tokens, tick)[i];
            && u.jti == t.jti && u.lockedAt == t.lockedAt
            && (t in Chosen(tokens, tick) ==>
                  Pending(t) && Left(u) + 1 <= Left(t) && u.lastAttempt == Some(tick.clock(t.jti)))
            && (t !in Chosen(tokens, tick) ==> u == t)
  {
    var t := tokens[i];
    if t in Chosen(tokens, tick) {
      InWindow(tokens, tick.now, t);
    }
  }

  /** Every due row of the window costs the sum of remaining attempts at least one. */
  lemma TickMeasure(tokens: seq<Token>, tick: Tick)
    requires KeyedTable(tokens)
    ensures Measure(AfterTick(tokens, tick), AnyRow()) + |Chosen(tokens, tick)| <= Measure(tokens, AnyRow())
  {
    var rows := Chosen(tokens, tick);
    forall i | 0 <= i < |tokens|
      ensures var t, u := tokens[i], AfterTick(tokens, tick)[i];
              LeftOf(u, AnyRow()) + (if Among(rows)(t) then 1 else 0) <= LeftOf(t, AnyRow())
    {
      TickOnRow(tokens, tick, i);
    }
    DueWindowRows(tokens, tick.now);
    assert NoDup(tokens);
    CountAmong(tokens, rows);
    MeasureFalls(tokens, tokens, AfterTick(tokens, tick), AnyRow(), Among(rows));
  }

  /**
   * A tick with a backend changes something exactly when one of the fifty oldest pending rows is due, whatever waits
   * behind them.
   */
  lemma ProgressExactlyWhen(tokens: seq<Token>, tick: Tick)
    requires KeyedTable(tokens)
    ensures AfterTick(tokens, tick) != tokens <==> tick.backend && exists t :: t in Window(tokens) && Due(t, tick.now)
    ensures AfterTick(tokens, tick) != tokens <==>
            Measure(AfterTick(tokens, tick), AnyRow()) < Measure(tokens, AnyRow())
  {
    DueWindowRows(tokens, tick.now);
    TickMeasure(tokens, tick);
    var rows := Chosen(tokens, tick);
    if t :| tick.backend && t in Window(tokens) && Due(t, tick.now) {
      assert t in rows;
    } else {
      forall i | 0 <= i < |tokens| ensures AfterTick(tokens, tick)[i] == tokens[i] {
        TickOnRow(tokens, tick, i);
      }
    }
  }

  // ---- The oldest rows in the window ----

  /** The rows the window is the beginning of. */
  function OldestFirst(tokens: seq<Token>): seq<Token> {
    Sort(Filter(tokens, Pending), ByKey(LockTime))
  }

  lemma OldestFirstRows(tokens: seq<Token>, cutoff: int)
    ensures SortedBy(OldestFirst(tokens), ByKey(LockTime))
    ensures forall t :: t in OldestFirst(tokens) <==> t in tokens && Pending(t)
    ensures forall t :: t in OldestFirst(tokens) ==> (LockedBy(cutoff)(t) <==> LockTime(t) <= cutoff)
  {
    FilterElements(tokens, Pending);
    SortElements(Filter(tokens, Pending), ByKey(LockTime));
    SortSorted(Filter(tokens, Pending), ByKey(LockTime));
  }

  lemma WaitingCount(tokens: seq<Token>, rows: Token -> bool)
    requires KeyedTable(tokens)
    ensures |Filter(OldestFirst(tokens), rows)| == |Waiting(tokens, rows)|
  {
    assert NoDup(tokens);
    FilterElements(tokens, Pending);
    FilterElements(tokens, Both(Pending, rows));
    SortNoDup(Filter(tokens, Pending), ByKey(LockTime));
    SortElements(Filter(tokens, Pending), ByKey(LockTime));
    FilterElements(OldestFirst(tokens), rows);
    SameElementsSameLength(Filter(OldestFirst(tokens), rows), Waiting(tokens, rows));
  }

  /** Rows locked up to an instant fill the window before all later ones. */
  lemma OldRowsFirst(tokens: seq<Token>, cutoff: int)
    requires KeyedTable(tokens)
    ensures var n := |Waiting(tokens, LockedBy(cutoff))|;
            && |Filter(Window(tokens), LockedBy(cutoff))| == (if n <= WINDOW then n else WINDOW)
            && (n <= WINDOW ==> forall t :: t in tokens && Pending(t) && LockedBy(cutoff)(t) ==> t in Window(tokens))
  {
    var w := |Window(tokens)|;
    assert Window(tokens) == OldestFirst(tokens)[..w];
    OldestFirstRows(tokens, cutoff);
    WaitingCount(tokens, LockedBy(cutoff));
    if w <= |Waiting(tokens, LockedBy(cutoff))| {
      SmallKeysFillPrefix(OldestFirst(tokens), LockTime, LockedBy(cutoff), cutoff, w);
    }
    if |Waiting(tokens, LockedBy(cutoff))| <= w {
      SmallKeysInPrefix(OldestFirst(tokens), LockTime, LockedBy(cutoff), cutoff, w);
    }
  }

  // ---- Rows between two ticks ----

  ghost predicate LastBefore(tokens: seq<Token>, rows: Token -> bool, bound: int) {
    forall t :: t in tokens && rows(t) && t.lastAttempt.Some? ==> t.lastAttempt.value <= bound
  }

  /** A row that has lost an attempt, or has rested since `last`. */
  predicate FellOrRested(t: Token, u: Token, last: int) {
    Left(u) < Left(t) || (u == t && (t.lastAttempt.Some? ==> t.lastAttempt.value <= last))
  }

  ghost predicate Since(start: seq<Token>, tokens: seq<Token>, rows: Token -> bool, last: int) {
    && |tokens| == |start|
    && forall i :: 0 <= i < |start| ==>
         (rows(tokens[i]) <==> rows(start[i])) && (rows(start[i]) ==> FellOrRested(start[i], tokens[i], last))
  }

  /** What a step does to a row locked up to `cutoff`, if it locks others only later. */
  lemma StepOnOldRow(tokens: seq<Token>, step: Step, cutoff: int, i: nat)
    requires i < |tokens| && (step.Lock? ==> cutoff < step.lockTick.end)
    ensures var t, u := tokens[i], Apply(tokens, step)[i];
            && u.jti == t.jti
            && (LockedBy(cutoff)(u) <==> LockedBy(cutoff)(t))
            && (LockedBy(cutoff)(t) ==> Left(u) < Left(t) || u == t)
  {
    match step
    case Retry(tick) => TickOnRow(tokens, tick, i);
    case Lock(lockTick) =>
  }

  lemma StepKeepsSince(start: seq<Token>, tokens: seq<Token>, step: Step, cutoff: int, last: int)
    requires Since(start, tokens, LockedBy(cutoff), last) && (step.Lock? ==> cutoff < step.lockTick.end)
    ensures Since(start, Apply(tokens, step), LockedBy(cutoff), last)
  {
    forall i | 0 <= i < |start|
      ensures LockedBy(cutoff)(Apply(tokens, step)[i]) <==> LockedBy(cutoff)(start[i])
      ensures LockedBy(cutoff)(start[i]) ==> FellOrRested(start[i], Apply(tokens, step)[i], last)
    {
      StepOnOldRow(tokens, step, cutoff, i);
    }
  }

  lemma StepKeepsKeys(tokens: seq<Token>, step: Step, cutoff: int)
    requires KeyedTable(tokens) && (step.Lock? ==> cutoff < step.lockTick.end)
    ensures KeyedTable(Apply(tokens, step))
  {
    forall i | 0 <= i < |tokens| ensures Apply(tokens, step)[i].jti == tokens[i].jti {
      StepOnOldRow(tokens, step, cutoff, i);
    }
  }

  lemma TickKeepsBound(tokens: seq<Token>, tick: Tick, cutoff: int, bound: int)
    requires LastBefore(tokens, LockedBy(cutoff), bound) && ValidTick(tick) && tick.now >= bound
    ensures LastBefore(AfterTick(tokens, tick), LockedBy(cutoff), tick.end)
  {
    assert tick.now <= tick.clock("") <= tick.end;
    forall u | u in AfterTick(tokens, tick) && LockedBy(cutoff)(u) && u.lastAttempt.Some?
      ensures u.lastAttempt.value <= tick.end
    {
      var i :| 0 <= i < |tokens| && AfterTick(tokens, tick)[i] == u;
      TickOnRow(tokens, tick, i);
      assert tokens[i] in tokens;
    }
  }

  lemma LockKeepsBound(tokens: seq<Token>, step: Step, cutoff: int, bound: int)
    requires step.Lock? && cutoff < step.lockTick.end && LastBefore(tokens, LockedBy(cutoff), bound)
    ensures LastBefore(Apply(tokens, step), LockedBy(cutoff), bound)
  {
    forall u | u in Apply(tokens, step) && LockedBy(cutoff)(u) && u.lastAttempt.Some?
      ensures u.lastAttempt.value <= bound
    {
      var i :| 0 <= i < |tokens| && Apply(tokens, step)[i] == u;
      StepOnOldRow(tokens, step, cutoff, i);
      StepOnLockedRow(tokens, step, i);
      assert tokens[i] in tokens;
    }
  }

  lemma WaitingShrinks(tokens: seq<Token>, step: Step, cutoff: int)
    requires step.Lock? ==> cutoff < step.lockTick.end
    ensures |Waiting(Apply(tokens, step), LockedBy(cutoff))| <= |Waiting(tokens, LockedBy(cutoff))|
  {
    forall i | 0 <= i < |tokens| && Both(Pending, LockedBy(cutoff))(Apply(tokens, step)[i])
      ensures Both(Pending, LockedBy(cutoff))(tokens[i])
    {
      StepOnOldRow(tokens, step, cutoff, i);
    }
    FilterShrinks(tokens, Apply(tokens, step), Both(Pending, LockedBy(cutoff)));
  }

  lemma FreshStart(tokens: seq<Token>, rows: Token -> bool, bound: int)
    requires LastBefore(tokens, rows, bound)
    ensures Since(tokens, tokens, rows, bound)
  {
    forall i | 0 <= i < |tokens| && rows(tokens[i]) ensures FellOrRested(tokens[i], tokens[i], bound) {
      assert tokens[i] in tokens;
    }
  }

  // ---- A tick an hour after the last one that counted ----

  predicate Counts(step: Step, last: int) {
    step.Retry? && step.tick.backend && step.tick.now >= last + HOUR
  }

  lemma DueAfterAnHour(t: Token, now: int, last: int)
    requires t.lastAttempt.Some? ==> t.lastAttempt.value <= last
    requires now >= last + HOUR
    ensures Due(t, now)
  {
  }

  /** After an hour without attempts the whole window is due. */
  lemma SlowTick(tokens: seq<Token>, tick: Tick, bound: int)
    requires KeyedTable(tokens) && LastBefore(tokens, AnyRow(), bound) && tick.now >= bound + HOUR
    ensures DueWindow(tokens, tick.now) == Window(tokens)
  {
    DueWindowRows(tokens, tick.now);
    forall t | t in Window(tokens) ensures IsDue(tick.now)(t) {
      DueAfterAnHour(t, tick.now, bound);
    }
    FilterAll(Window(tokens), IsDue(tick.now));
  }

  /** A row in the window of such a tick has lost an attempt since, or is due and loses one now. */
  lemma RowFalls(start: seq<Token>, tokens: seq<Token>, tick: Tick, cutoff: int, last: int, i: nat)
    requires KeyedTable(tokens) && Since(start, tokens, LockedBy(cutoff), last) && Counts(Retry(tick), last)
    requires i < |tokens| && LockedBy(cutoff)(tokens[i])
    ensures Left(AfterTick(tokens, tick)[i]) <= Left(start[i])
    ensures tokens[i] in Window(tokens) ==> Left(AfterTick(tokens, tick)[i]) < Left(start[i])
  {
    DueWindowRows(tokens, tick.now);
    TickOnRow(tokens, tick, i);
    if tokens[i] == start[i] && (start[i].lastAttempt.Some? ==> start[i].lastAttempt.value <= last) {
      DueAfterAnHour(tokens[i], tick.now, last);
    }
  }

  lemma CountedTick(start: seq<Token>, tokens: seq<Token>, tick: Tick, cutoff: int, last: int)
    requires KeyedTable(tokens) && Since(start, tokens, LockedBy(cutoff), last) && Counts(Retry(tick), last)
    ensures Measure(AfterTick(tokens, tick), LockedBy(cutoff)) + |Filter(Window(tokens), LockedBy(cutoff))|
         <= Measure(start, LockedBy(cutoff))
  {
    var aged, after := LockedBy(cutoff), AfterTick(tokens, tick);
    var rows := Filter(Window(tokens), aged);
    DueWindowRows(tokens, tick.now);
    FilterElements(Window(tokens), aged);
    forall i | 0 <= i < |start|
      ensures LeftOf(after[i], aged) + (if Among(rows)(tokens[i]) then 1 else 0) <= LeftOf(start[i], aged)
    {
      TickOnRow(tokens, tick, i);
      if aged(tokens[i]) {
        RowFalls(start, tokens, tick, cutoff, last, i);
      }
    }
    assert NoDup(tokens);
    CountAmong(tokens, rows);
    MeasureFalls(start, tokens, after, aged, Among(rows));
  }

  ghost predicate LeftAtMost(tokens: seq<Token>, rows: Token -> bool, n: int) {
    forall t :: t in tokens ==> LeftOf(t, rows) <= n
  }

  /** With at most a window of rows waiting such a tick leaves none of them untouched. */
  lemma CountedTickReachesAll(start: seq<Token>, tokens: seq<Token>, tick: Tick, cutoff: int, last: int,
                              n: nat, m: nat)
    requires KeyedTable(tokens) && Since(start, tokens, LockedBy(cutoff), last) && Counts(Retry(tick), last)
    requires |Waiting(tokens, LockedBy(cutoff))| <= WINDOW && LeftAtMost(start, LockedBy(cutoff), n) && n <= m + 1
    ensures LeftAtMost(AfterTick(tokens, tick), LockedBy(cutoff), m)
  {
    var aged, after := LockedBy(cutoff), AfterTick(tokens, tick);
    OldRowsFirst(tokens, cutoff);
    forall u | u in after ensures LeftOf(u, aged) <= m {
      var i :| 0 <= i < |tokens| && after[i] == u;
      TickOnRow(tokens, tick, i);
      assert start[i] in start && tokens[i] in tokens;
      if aged(tokens[i]) {
        RowFalls(start, tokens, tick, cutoff, last, i);
      }
    }
  }

  // ---- Runs ----

  /** Retry ticks follow one another; lock ticks run beside them and lock nothing up to `cutoff` any more. */
  ghost predicate Follows(step: Step, from: int, cutoff: int) {
    match step
    case Retry(tick) => ValidTick(tick) && from <= tick.now
    case Lock(lockTick) => cutoff < lockTick.end
  }

  /** When the retry loop is ready for its next tick. */
  function Ready(step: Step, from: int): int {
    if step.Retry? then step.tick.end else from
  }

  ghost predicate InSequence(steps: seq<Step>, from: int, cutoff: int)
    decreases |steps|
  {
    steps == [] || (Follows(steps[0], from, cutoff) && InSequence(steps[1..], Ready(steps[0], from), cutoff))
  }

  /** Ticks with a backend that begin an hour after the end of the one counted before; those in between do not count. */
  function Hours(steps: seq<Step>, last: int): nat
    decreases |steps|
  {
    if steps == [] then 0
    else if Counts(steps[0], last) then 1 + Hours(steps[1..], steps[0].tick.end)
    else Hours(steps[1..], last)
  }

  /** Nothing of a kind waits: every locked row of it is stopped or exhausted. */
  ghost predicate Drained(tokens: seq<Token>, rows: Token -> bool) {
    forall t :: t in tokens && rows(t) && t.lockedAt.Some? ==> t.forceStopAt.Some? || Exhausted(t)
  }

  lemma {:induction false} ZeroMeansDrained(tokens: seq<Token>, rows: Token -> bool)
    ensures Measure(tokens, rows) == 0 <==> Waiting(tokens, rows) == []
    ensures Measure(tokens, rows) == 0 <==> Drained(tokens, rows)
  {
    if tokens != [] {
      ZeroMeansDrained(tokens[..|tokens| - 1], rows);
      assert tokens == tokens[..|tokens| - 1] + [tokens[|tokens| - 1]];
    }
  }

  // ---- Reports of exhausted rows ----

  const REPORT_SIZE := 20

  /** The rows an admin is told of: twenty exhausted ones in whatever order the database likes, or all there are. */
  ghost predicate IsReport(tokens: seq<Token>, report: seq<Token>) {
    && NoDup(report)
    && (forall t :: t in report ==> t in tokens && Exhausted(t))
    && |report| == Min(REPORT_SIZE, |Filter(tokens, Exhausted)|)
  }

  ghost predicate ShowsAll(tokens: seq<Token>, report: seq<Token>) {
    forall t :: t in tokens && Exhausted(t) ==> t in report
  }

  lemma FullReportShowsAll(tokens: seq<Token>, report: seq<Token>)
    requires KeyedTable(tokens) && IsReport(tokens, report) && |Filter(tokens, Exhausted)| <= REPORT_SIZE
    ensures ShowsAll(tokens, report)
  {
    var rows := Filter(tokens, Exhausted);
    assert NoDup(tokens);
    FilterElements(tokens, Exhausted);
    NothingElse(report, rows);
  }

  /** Every report shows every exhausted row exactly when there are at most twenty. */
  lemma ReportsShowAllExactlyWhen(tokens: seq<Token>)
    requires KeyedTable(tokens)
    ensures (forall report :: IsReport(tokens, report) ==> ShowsAll(tokens, report))
       <==> |Filter(tokens, Exhausted)| <= REPORT_SIZE
  {
    var rows := Filter(tokens, Exhausted);
    if |rows| <= REPORT_SIZE {
      forall report | IsReport(tokens, report) ensures ShowsAll(tokens, report) {
        FullReportShowsAll(tokens, report);
      }
    } else {
      assert NoDup(tokens);
      FilterElements(tokens, Exhausted);
      assert IsReport(tokens, rows[..REPORT_SIZE]);
      assert rows[REPORT_SIZE] in rows && rows[REPORT_SIZE] !in rows[..REPORT_SIZE];
    }
  }

  // ---- Draining ----

  /** What a run carries: the rows at the last counted tick and now, and bounds on their last attempts. */
  ghost predicate Tracked(start: seq<Token>, tokens: seq<Token>, cutoff: int, last: int, from: int) {
    KeyedTable(tokens) && Since(start, tokens, LockedBy(cutoff), last) && LastBefore(tokens, LockedBy(cutoff), from)
  }

  lemma StepKeepsTrack(start: seq<Token>, tokens: seq<Token>, step: Step, cutoff: int, last: int, from: int)
    requires Tracked(start, tokens, cutoff, last, from) && Follows(step, from, cutoff)
    ensures Tracked(start, Apply(tokens, step), cutoff, last, Ready(step, from))
    ensures Tracked(Apply(tokens, step), Apply(tokens, step), cutoff, Ready(step, from), Ready(step, from))
  {
    StepKeepsKeys(tokens, step, cutoff);
    StepKeepsSince(start, tokens, step, cutoff, last);
    match step {
      case Retry(tick) => TickKeepsBound(tokens, tick, cutoff, from);
      case Lock(lockTick) => LockKeepsBound(tokens, step, cutoff, from);
    }
    FreshStart(Apply(tokens, step), LockedBy(cutoff), Ready(step, from));
  }

  lemma NothingLeftIn(tokens: seq<Token>, rows: Token -> bool)
    requires Measure(tokens, rows) == 0
    ensures LeftAtMost(tokens, rows, 0)
  {
    ZeroMeansDrained(tokens, rows);
  }

  lemma NothingLeft(start: seq<Token>, tokens: seq<Token>, cutoff: int, last: int)
    requires Since(start, tokens, LockedBy(cutoff), last) && LeftAtMost(start, LockedBy(cutoff), 0)
    ensures Drained(tokens, LockedBy(cutoff))
  {
    forall t | t in tokens && LockedBy(cutoff)(t) ensures t.forceStopAt.Some? || Exhausted(t) {
      var i :| 0 <= i < |tokens| && tokens[i] == t;
      assert start[i] in start;
    }
  }

  /** Once at most a window of the rows waits, as many hours as a row has attempts left drain them. */
  lemma {:induction false} DrainSmall(start: seq<Token>, tokens: seq<Token>, steps: seq<Step>,
                                      cutoff: int, last: int, from: int, n: nat)
    requires Tracked(start, tokens, cutoff, last, from) && InSequence(steps, from, cutoff)
    requires |Waiting(tokens, LockedBy(cutoff))| <= WINDOW && LeftAtMost(start, LockedBy(cutoff), n)
    requires Hours(steps, last) >= n
    ensures Drained(Run(tokens, steps), LockedBy(cutoff))
    decreases |steps|
  {
    if steps == [] {
      NothingLeft(start, tokens, cutoff, last);
    } else {
      var step, next, ready := steps[0], Apply(tokens, steps[0]), Ready(steps[0], from);
      StepKeepsTrack(start, tokens, step, cutoff, last, from);
      WaitingShrinks(tokens, step, cutoff);
      if Counts(step, last) {
        var m := if n == 0 then 0 else n - 1;
        CountedTickReachesAll(start, tokens, step.tick, cutoff, last, n, m);
        DrainSmall(next, next, steps[1..], cutoff, ready, ready, m);
      } else {
        DrainSmall(start, next, steps[1..], cutoff, last, ready, n);
      }
    }
  }

  lemma FullWindowFalls(start: seq<Token>, tokens: seq<Token>, tick: Tick, cutoff: int, last: int, from: int)
    requires Tracked(start, tokens, cutoff, last, from) && Counts(Retry(tick), last)
    requires |Waiting(tokens, LockedBy(cutoff))| > WINDOW
    ensures Measure(AfterTick(tokens, tick), LockedBy(cutoff)) + WINDOW <= Measure(start, LockedBy(cutoff))
  {
    CountedTick(start, tokens, tick, cutoff, last);
    OldRowsFirst(tokens, cutoff);
  }

  lemma {:induction false} DrainFrom(start: seq<Token>, tokens: seq<Token>, steps: seq<Step>,
                                     cutoff: int, last: int, from: int, q: int)
    requires Tracked(start, tokens, cutoff, last, from) && InSequence(steps, from, cutoff)
    requires Measure(start, LockedBy(cutoff)) <= WINDOW * q && Hours(steps, last) >= q + MAX_ATTEMPTS
    ensures Drained(Run(tokens, steps), LockedBy(cutoff))
    decreases |steps|
  {
    if |Waiting(tokens, LockedBy(cutoff))| <= WINDOW {
      DrainSmall(start, tokens, steps, cutoff, last, from, MAX_ATTEMPTS);
    } else {
      var step, next, ready := steps[0], Apply(tokens, steps[0]), Ready(steps[0], from);
      StepKeepsTrack(start, tokens, step, cutoff, last, from);
      if Counts(step, last) {
        FullWindowFalls(start, tokens, step.tick, cutoff, last, from);
        DrainFrom(next, next, steps[1..], cutoff, ready, ready, q - 1);
      } else {
        DrainFrom(start, next, steps[1..], cutoff, last, ready, q);
      }
    }
  }

  lemma NothingWaits(tokens: seq<Token>, rows: Token -> bool)
    requires Waiting(tokens, rows) == []
    ensures LeftAtMost(tokens, rows, 0)
  {
    FilterElements(tokens, Both(Pending, rows));
    assert forall t :: t in tokens ==> t !in Waiting(tokens, rows);
  }

  lemma WindowFalls(start: seq<Token>, tokens: seq<Token>, tick: Tick, cutoff: int, last: int, from: int)
    requires Tracked(start, tokens, cutoff, last, from) && Counts(Retry(tick), last)
    requires Waiting(tokens, LockedBy(cutoff)) != []
    ensures Measure(AfterTick(tokens, tick), LockedBy(cutoff)) < Measure(start, LockedBy(cutoff))
  {
    CountedTick(start, tokens, tick, cutoff, last);
    OldRowsFirst(tokens, cutoff);
  }

  lemma {:induction false} DrainByMeasureFrom(start: seq<Token>, tokens: seq<Token>, steps: seq<Step>,
                                              cutoff: int, last: int, from: int)
    requires Tracked(start, tokens, cutoff, last, from) && InSequence(steps, from, cutoff)
    requires Hours(steps, last) >= Measure(start, LockedBy(cutoff))
    ensures Drained(Run(tokens, steps), LockedBy(cutoff))
    decreases |steps|
  {
    if Waiting(tokens, LockedBy(cutoff)) == [] {
      NothingWaits(tokens, LockedBy(cutoff));
      FreshStart(tokens, LockedBy(cutoff), from);
      DrainSmall(tokens, tokens, steps, cutoff, from, from, 0);
    } else if steps == [] {
      NothingLeftIn(start, LockedBy(cutoff));
      NothingLeft(start, tokens, cutoff, last);
    } else {
      var step, next, ready := steps[0], Apply(tokens, steps[0]), Ready(steps[0], from);
      StepKeepsTrack(start, tokens, step, cutoff, last, from);
      if Counts(step, last) {
        WindowFalls(start, tokens, step.tick, cutoff, last, from);
        DrainByMeasureFrom(next, next, steps[1..], cutoff, ready, ready);
      } else {
        DrainByMeasureFrom(start, next, steps[1..], cutoff, last, ready);
      }
    }
  }

  // ---- Main results ----

  /**
   * The rows locked up to an instant drain within as many hours as there are windows full of attempts left to them, and
   * twelve more, however often the loop ticks and whatever is locked meanwhile.
   */
  lemma DrainAtAnyCadence(tokens: seq<Token>, steps: seq<Step>, cutoff: int, from: int, q: nat)
    requires KeyedTable(tokens) && LastBefore(tokens, LockedBy(cutoff), from) && InSequence(steps, from, cutoff)
    requires Measure(tokens, LockedBy(cutoff)) <= WINDOW * q && Hours(steps, from) >= q + MAX_ATTEMPTS
    ensures Drained(Run(tokens, steps), LockedBy(cutoff))
  {
    FreshStart(tokens, LockedBy(cutoff), from);
    DrainFrom(tokens, tokens, steps, cutoff, from, from, q);
  }

  /** As many hours as attempts are left are enough too. */
  lemma DrainByMeasure(tokens: seq<Token>, steps: seq<Step>, cutoff: int, from: int)
    requires KeyedTable(tokens) && LastBefore(tokens, LockedBy(cutoff), from) && InSequence(steps, from, cutoff)
    requires Hours(steps, from) >= Measure(tokens, LockedBy(cutoff))
    ensures Drained(Run(tokens, steps), LockedBy(cutoff))
  {
    FreshStart(tokens, LockedBy(cutoff), from);
    DrainByMeasureFrom(tokens, tokens, steps, cutoff, from, from);
  }

  /** With ticks an hour apart every tick counts. */
  ghost predicate Hourly(steps: seq<Step>, last: int)
    decreases |steps|
  {
    steps == [] || (Counts(steps[0], last) && Hourly(steps[1..], steps[0].tick.end))
  }

  lemma {:induction false} HourlyTicksCount(steps: seq<Step>, last: int)
    requires Hourly(steps, last)
    ensures Hours(steps, last) == |steps|
    decreases |steps|
  {
    if steps != [] {
      HourlyTicksCount(steps[1..], steps[0].tick.end);
    }
  }

  /** The special case of ticks an hour apart. */
  lemma DrainFast(tokens: seq<Token>, steps: seq<Step>, cutoff: int, from: int, q: nat)
    requires KeyedTable(tokens) && LastBefore(tokens, LockedBy(cutoff), from) && InSequence(steps, from, cutoff)
    requires Hourly(steps, from) && Measure(tokens, LockedBy(cutoff)) <= WINDOW * q && |steps| >= q + MAX_ATTEMPTS
    ensures Drained(Run(tokens, steps), LockedBy(cutoff))
  {
    HourlyTicksCount(steps, from);
    DrainAtAnyCadence(tokens, steps, cutoff, from, q);
  }

  // ---- The loop on the clock ----

  /** Every tick has a backend, begins at most `gap` after the one before has ended, and takes at most `work`. */
  ghost predicate Steady(steps: seq<Step>, from: int, gap: int, work: int)
    decreases |steps|
  {
    steps == [] ||
    (&& (steps[0].Retry? ==>
           steps[0].tick.backend && steps[0].tick.now <= from + gap && steps[0].tick.end <= steps[0].tick.now + work)
     && Steady(steps[1..], Ready(steps[0], from), gap, work))
  }

  function EndOf(steps: seq<Step>, from: int): int
    decreases |steps|
  {
    if steps == [] then from else EndOf(steps[1..], Ready(steps[0], from))
  }

  /** How far apart the ticks that count can be at most. */
  function Period(gap: int, work: int): int {
    HOUR + gap + 2 * work
  }

  /** The loop is ready again, a tick later, within a period of the last tick that counted. */
  lemma ReadyAgain(step: Step, last: int, from: int, gap: nat, work: nat, cutoff: int)
    requires Steady([step], from, gap, work) && Follows(step, from, cutoff)
    requires last <= from && (from == last || from < last + HOUR + work)
    ensures var ready := Ready(step, from);
            && from <= ready
            && (Counts(step, last) ==> ready - last <= Period(gap, work))
            && (!Counts(step, last) ==> ready == last || ready < last + HOUR + work)
  {
    if step.Retry? {
      assert step.tick.now <= step.tick.clock("") <= step.tick.end;
    }
  }

  lemma {:induction false} SteadyTicksCount(steps: seq<Step>, last: int, from: int, gap: nat, work: nat, cutoff: int)
    requires Steady(steps, from, gap, work) && InSequence(steps, from, cutoff)
    requires last <= from && (from == last || from < last + HOUR + work)
    ensures EndOf(steps, from) - last < (Hours(steps, last) + 1) * Period(gap, work)
    decreases |steps|
  {
    if steps != [] {
      var ready := Ready(steps[0], from);
      assert [steps[0]][1..] == [];
      ReadyAgain(steps[0], last, from, gap, work, cutoff);
      if Counts(steps[0], last) {
        SteadyTicksCount(steps[1..], ready, ready, gap, work, cutoff);
        OnePeriodMore(Hours(steps[1..], ready), Period(gap, work));
      } else {
        SteadyTicksCount(steps[1..], last, ready, gap, work, cutoff);
      }
    }
  }

  lemma OnePeriodMore(n: int, period: int)
    ensures (n + 1) * period + period == (n + 2) * period
  {
  }

  /** The retry loop, which sleeps a minute between its ticks, drains the rows within that many hours and a bit. */
  lemma DrainInTime(tokens: seq<Token>, steps: seq<Step>, cutoff: int, from: int, q: nat, gap: nat, work: nat)
    requires KeyedTable(tokens) && LastBefore(tokens, LockedBy(cutoff), from) && InSequence(steps, from, cutoff)
    requires Steady(steps, from, gap, work) && Measure(tokens, LockedBy(cutoff)) <= WINDOW * q
    requires EndOf(steps, from) - from >= (q + MAX_ATTEMPTS) * Period(gap, work)
    ensures Drained(Run(tokens, steps), LockedBy(cutoff))
  {
    SteadyTicksCount(steps, from, from, gap, work, cutoff);
    FewerPeriods(q + MAX_ATTEMPTS, Hours(steps, from) + 1, Period(gap, work));
    DrainAtAnyCadence(tokens, steps, cutoff, from, q);
  }

  lemma FewerPeriods(a: int, b: int, period: int)
    requires period > 0 && a * period < b * period
    ensures a < b
  {
  }
}
