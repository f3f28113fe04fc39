/**
 * Pairing of dispatched commands with runner acknowledgements.
 * A dispatch or an acknowledgement is named by its position in the input list, as the source tells
 * the log records apart by object identity.
 */
module DispatchPairing {
  import opened Lists
  import opened Sorting

  datatype Dispatch = Dispatch(ts: int, deploymentId: int, commandType: string, decision: string)
  datatype RunnerAck = RunnerAck(ts: int, deploymentId: int, eventType: string)

  /** One call's input: both logs, the command type to pair and the event that acknowledges it. */
  datatype Log = Log(dispatches: seq<Dispatch>, acks: seq<RunnerAck>, dispatchType: string, targetEvent: string) {
    predicate Sent(d: int) {
      0 <= d < |dispatches| && dispatches[d].commandType == dispatchType && dispatches[d].decision == "sent"
    }

    predicate Target(a: int) {
      0 <= a < |acks| && acks[a].eventType == targetEvent
    }

    function SentAt(d: int): int {
      if 0 <= d < |dispatches| then dispatches[d].ts else 0
    }

    function AckedAt(a: int): int {
      if 0 <= a < |acks| then acks[a].ts else 0
    }

    /** The two positions are about the same deployment. */
    predicate Related(d: int, a: int) {
      Sent(d) && Target(a) && acks[a].deploymentId == dispatches[d].deploymentId
    }

    predicate SameDeployment(d: int, e: int) {
      Sent(d) && Sent(e) && dispatches[d].deploymentId == dispatches[e].deploymentId
    }

    /** The acknowledgement may answer the dispatch: same deployment and not earlier. */
    predicate Answers(d: int, a: int) {
      Related(d, a) && SentAt(d) <= AckedAt(a)
    }
  }

  ghost predicate Injective(m: map<int, int>) {
    forall d, e :: d in m && e in m && d != e ==> m[d] != m[e]
  }

  /** Any way of assigning distinct acknowledgements to sent dispatches that they may answer. */
  ghost predicate Matching(log: Log, m: map<int, int>) {
    Injective(m) && AllAnswer(log, m)
  }

  ghost predicate AllAnswer(log: Log, m: map<int, int>) {
    forall d :: d in m ==> log.Answers(d, m[d])
  }

  // ---- The two work lists, each sorted by time ----

  function Positions(n: nat, p: int -> bool): (r: seq<int>)
    ensures NoDup(r)
    ensures forall x :: x in r <==> 0 <= x < n && p(x)
  {
    if n == 0 then [] else
      var r := Positions(n - 1, p);
      if p(n - 1) then r + [n - 1] else r
  }

  function DispatchOrder(log: Log): seq<int> {
    Sort(Positions(|log.dispatches|, d => log.Sent(d)), ByKey(log.SentAt))
  }

  function AckOrder(log: Log): seq<int> {
    Sort(Positions(|log.acks|, a => log.Target(a)), ByKey(log.AckedAt))
  }

  /** Repetition-free listings of exactly the selected positions, in time order. */
  ghost predicate WorkLists(log: Log, dq: seq<int>, aq: seq<int>) {
    && NoDup(dq) && NoDup(aq)
    && (forall d :: d in dq <==> log.Sent(d))
    && (forall a :: a in aq <==> log.Target(a))
    && (forall i, j :: 0 <= i < j < |dq| ==> log.SentAt(dq[i]) <= log.SentAt(dq[j]))
    && (forall i, j :: 0 <= i < j < |aq| ==> log.AckedAt(aq[i]) <= log.AckedAt(aq[j]))
  }

  lemma OrdersAreWorkLists(log: Log)
    ensures WorkLists(log, DispatchOrder(log), AckOrder(log))
  {
    var ds := Positions(|log.dispatches|, d => log.Sent(d));
    SortElements(ds, ByKey(log.SentAt));
    SortNoDup(ds, ByKey(log.SentAt));
    SortSorted(ds, ByKey(log.SentAt));
    var rs := Positions(|log.acks|, a => log.Target(a));
    SortElements(rs, ByKey(log.AckedAt));
    SortNoDup(rs, ByKey(log.AckedAt));
    SortSorted(rs, ByKey(log.AckedAt));
  }

  // ---- First-fit assignments ----

  /** Acknowledgement `a` went to one of the first `i` dispatches of the work list. */
  ghost predicate Taken(g: map<int, int>, dq: seq<int>, i: int, a: int) {
    exists k :: 0 <= k < i && k < |dq| && dq[k] in g && g[dq[k]] == a
  }

  /** Everything in the first `j` places of the work list that may answer `d` is taken. */
  ghost predicate NoneFree(log: Log, g: map<int, int>, dq: seq<int>, aq: seq<int>, i: int, j: int)
    requires 0 <= i < |dq|
  {
    forall l :: 0 <= l < j && l < |aq| && log.Answers(dq[i], aq[l]) ==> Taken(g, dq, i, aq[l])
  }

  /** The source's decision for the `i`-th dispatch: the first free acknowledgement that may answer it. */
  ghost predicate FirstFit(log: Log, g: map<int, int>, dq: seq<int>, aq: seq<int>, i: int)
    requires 0 <= i < |dq|
  {
    if dq[i] in g then
      exists j :: 0 <= j < |aq| && g[dq[i]] == aq[j] && NoneFree(log, g, dq, aq, i, j)
    else
      NoneFree(log, g, dq, aq, i, |aq|)
  }

  ghost predicate Greedy(log: Log, dq: seq<int>, aq: seq<int>, g: map<int, int>) {
    && WorkLists(log, dq, aq)
    && Matching(log, g)
    && forall i :: 0 <= i < |dq| ==> FirstFit(log, g, dq, aq, i)
  }

  // ---- Optimality by exchange ----

  ghost predicate AgreeUpTo(g: map<int, int>, m: map<int, int>, dq: seq<int>, i: int) {
    forall k :: 0 <= k < i && k < |dq| ==> (dq[k] in g <==> dq[k] in m) && (dq[k] in g ==> g[dq[k]] == m[dq[k]])
  }

  /** What a matching that agrees so far may still use comes no earlier than the greedy choice. */
  lemma GreedyChoiceIsEarliest(log: Log, dq: seq<int>, aq: seq<int>, g: map<int, int>, m: map<int, int>, i: int)
    requires Greedy(log, dq, aq, g) && Matching(log, m)
    requires 0 <= i < |dq| && AgreeUpTo(g, m, dq, i) && dq[i] in m
    ensures dq[i] in g && log.AckedAt(g[dq[i]]) <= log.AckedAt(m[dq[i]])
  {
    var d := dq[i];
    assert FirstFit(log, g, dq, aq, i);
    var l :| 0 <= l < |aq| && aq[l] == m[d];
    assert !Taken(g, dq, i, m[d]);
  }

  function Swapped(m: map<int, int>, d: int, e: int): map<int, int>
    requires d in m && e in m
  {
    m[d := m[e]][e := m[d]]
  }

  function TakenOver(m: map<int, int>, d: int, e: int): map<int, int>
    requires e in m
  {
    m[d := m[e]] - {e}
  }

  /** Two maps agree wherever the first `i` dispatches are concerned. */
  ghost predicate SameBefore(m: map<int, int>, n: map<int, int>, dq: seq<int>, i: int) {
    forall k :: 0 <= k < i && k < |dq| ==> (dq[k] in m <==> dq[k] in n) && (dq[k] in m ==> m[dq[k]] == n[dq[k]])
  }

  lemma AgreeOneMore(g: map<int, int>, m: map<int, int>, n: map<int, int>, dq: seq<int>, i: int)
    requires 0 <= i < |dq| && AgreeUpTo(g, m, dq, i) && SameBefore(m, n, dq, i)
    requires (dq[i] in g <==> dq[i] in n) && (dq[i] in g ==> g[dq[i]] == n[dq[i]])
    ensures AgreeUpTo(g, n, dq, i + 1)
  {
    forall k | 0 <= k < i + 1 ensures (dq[k] in g <==> dq[k] in n) && (dq[k] in g ==> g[dq[k]] == n[dq[k]]) {
      if k < i {
        assert dq[k] in g <==> dq[k] in m;
        assert dq[k] in m <==> dq[k] in n;
      }
    }
  }

  /** Changing what `dq[i]` and a later dispatch hold changes nothing before. */
  lemma ChangeIsLater(m: map<int, int>, n: map<int, int>, dq: seq<int>, i: int, e: int)
    requires NoDup(dq) && 0 <= i < |dq| && forall k :: 0 <= k < i ==> dq[k] != e
    requires forall x :: x != dq[i] && x != e ==> (x in m <==> x in n) && (x in m ==> m[x] == n[x])
    ensures SameBefore(m, n, dq, i)
  {
    forall k | 0 <= k < i ensures dq[k] != dq[i] && dq[k] != e {
    }
  }

  /** Another dispatch holds the greedy choice and `i` holds something else: they swap. */
  lemma Swap(log: Log, dq: seq<int>, aq: seq<int>, g: map<int, int>, m: map<int, int>, i: int, e: int)
      returns (n: map<int, int>)
    requires Greedy(log, dq, aq, g) && Matching(log, m)
    requires 0 <= i < |dq| && AgreeUpTo(g, m, dq, i) && dq[i] in g && dq[i] in m
    requires e in m && m[e] == g[dq[i]] && e != dq[i]
    ensures Matching(log, n) && |n| == |m| && AgreeUpTo(g, n, dq, i + 1)
  {
    var d := dq[i];
    GreedyChoiceIsEarliest(log, dq, aq, g, m, i);
    n := Swapped(m, d, e);
    SwappedAnswers(log, m, d, e);
    ChangeIsLater(m, n, dq, i, e);
    AgreeOneMore(g, m, n, dq, i);
  }

  lemma SwappedAnswers(log: Log, m: map<int, int>, d: int, e: int)
    requires AllAnswer(log, m) && d in m && e in m && log.Answers(d, m[e]) && log.Answers(e, m[d])
    ensures AllAnswer(log, Swapped(m, d, e))
  {
  }

  /** Another dispatch holds the greedy choice and `i` holds nothing: it takes over. */
  lemma TakeOver(log: Log, dq: seq<int>, aq: seq<int>, g: map<int, int>, m: map<int, int>, i: int, e: int)
      returns (n: map<int, int>)
    requires Greedy(log, dq, aq, g) && Matching(log, m)
    requires 0 <= i < |dq| && AgreeUpTo(g, m, dq, i) && dq[i] in g && dq[i] !in m
    requires e in m && m[e] == g[dq[i]] && e != dq[i]
    ensures Matching(log, n) && |n| == |m| && AgreeUpTo(g, n, dq, i + 1)
  {
    n := TakenOver(m, dq[i], e);
    TakenOverMatches(log, m, dq[i], e);
    TakenOverLater(m, dq, i, e);
    AgreeOneMore(g, m, n, dq, i);
  }

  lemma TakenOverLater(m: map<int, int>, dq: seq<int>, i: int, e: int)
    requires NoDup(dq) && 0 <= i < |dq| && e in m && forall k :: 0 <= k < i ==> dq[k] != e
    ensures SameBefore(m, TakenOver(m, dq[i], e), dq, i)
  {
    ChangeIsLater(m, TakenOver(m, dq[i], e), dq, i, e);
  }

  lemma TakenOverMatches(log: Log, m: map<int, int>, d: int, e: int)
    requires Matching(log, m) && d !in m && e in m && log.Answers(d, m[e])
    ensures Matching(log, TakenOver(m, d, e)) && |TakenOver(m, d, e)| == |m|
  {
    TakenOverAnswers(log, m, d, e);
  }

  lemma TakenOverAnswers(log: Log, m: map<int, int>, d: int, e: int)
    requires AllAnswer(log, m) && e in m && log.Answers(d, m[e])
    ensures AllAnswer(log, TakenOver(m, d, e))
  {
  }

  /** Nobody else holds the greedy choice: `i` takes it. */
  lemma Take(log: Log, dq: seq<int>, aq: seq<int>, g: map<int, int>, m: map<int, int>, i: int)
      returns (n: map<int, int>)
    requires Greedy(log, dq, aq, g) && Matching(log, m)
    requires 0 <= i < |dq| && AgreeUpTo(g, m, dq, i) && dq[i] in g
    requires forall e :: e in m && e != dq[i] ==> m[e] != g[dq[i]]
    ensures Matching(log, n) && |n| >= |m| && AgreeUpTo(g, n, dq, i + 1)
  {
    var d := dq[i];
    n := m[d := g[d]];
    assert n.Keys == m.Keys + {d};
    SmallerSet(m.Keys, n.Keys);
    ChangeIsLater(m, n, dq, i, d);
    AgreeOneMore(g, m, n, dq, i);
  }

  /** The greedy choice is nothing, so `i` holds nothing either. */
  lemma Skip(log: Log, dq: seq<int>, aq: seq<int>, g: map<int, int>, m: map<int, int>, i: int)
    requires Greedy(log, dq, aq, g) && Matching(log, m)
    requires 0 <= i < |dq| && AgreeUpTo(g, m, dq, i) && dq[i] !in g
    ensures AgreeUpTo(g, m, dq, i + 1)
  {
    if dq[i] in m {
      GreedyChoiceIsEarliest(log, dq, aq, g, m, i);
    }
    AgreeOneMore(g, m, m, dq, i);
  }

  /** A matching that agrees with the greedy one so far can be made to agree one step further at no loss. */
  lemma ExchangeStep(log: Log, dq: seq<int>, aq: seq<int>, g: map<int, int>, m: map<int, int>, i: int)
    returns (n: map<int, int>)
    requires Greedy(log, dq, aq, g) && Matching(log, m)
    requires 0 <= i < |dq| && AgreeUpTo(g, m, dq, i)
    ensures Matching(log, n) && |n| >= |m| && AgreeUpTo(g, n, dq, i + 1)
  {
    if dq[i] !in g {
      Skip(log, dq, aq, g, m, i);
      n := m;
    } else if e :| e in m && m[e] == g[dq[i]] && e != dq[i] {
      if dq[i] in m {
        n := Swap(log, dq, aq, g, m, i, e);
      } else {
        n := TakeOver(log, dq, aq, g, m, i, e);
      }
    } else {
      n := Take(log, dq, aq, g, m, i);
    }
  }

  lemma {:induction false} ExchangeAll(log: Log, dq: seq<int>, aq: seq<int>, g: map<int, int>, m: map<int, int>, i: int)
    requires Greedy(log, dq, aq, g) && Matching(log, m)
    requires 0 <= i <= |dq| && AgreeUpTo(g, m, dq, i)
    ensures |m| <= |g|
    decreases |dq| - i
  {
    if i < |dq| {
      var n := ExchangeStep(log, dq, aq, g, m, i);
      ExchangeAll(log, dq, aq, g, n, i + 1);
    } else {
      forall d | d in g || d in m ensures d in g && d in m && g[d] == m[d] {
        assert d in dq;
      }
      assert g == m;
    }
  }

  /** No assignment of acknowledgements to dispatches matches more of them than the greedy one. */
  lemma GreedyIsMaximum(log: Log, dq: seq<int>, aq: seq<int>, g: map<int, int>, m: map<int, int>)
    requires Greedy(log, dq, aq, g) && Matching(log, m)
    ensures |m| <= |g|
  {
    ExchangeAll(log, dq, aq, g, m, 0);
  }

  /** Within one deployment the matched dispatches are the earliest ones, and no two pairs cross. */
  lemma GreedyShape(log: Log, dq: seq<int>, aq: seq<int>, g: map<int, int>, i: int, k: int)
    requires Greedy(log, dq, aq, g)
    requires 0 <= i < k < |dq| && log.SameDeployment(dq[i], dq[k]) && dq[k] in g
    ensures dq[i] in g && log.AckedAt(g[dq[i]]) <= log.AckedAt(g[dq[k]])
  {
    assert FirstFit(log, g, dq, aq, i);
    var j :| 0 <= j < |aq| && g[dq[k]] == aq[j];
    assert log.Answers(dq[i], aq[j]);
    assert !Taken(g, dq, i, aq[j]);
  }

  // ---- The source's loops ----

  function RowMap(rows: seq<(int, int)>): map<int, int> {
    if rows == [] then map[] else
      var last := rows[|rows| - 1];
      RowMap(rows[..|rows| - 1])[last.0 := last.1]
  }

  /** Decisions already taken do not depend on what is assigned afterwards. */
  lemma FirstFitFrame(log: Log, dq: seq<int>, aq: seq<int>, g: map<int, int>, h: map<int, int>, i: int)
    requires 0 <= i <= |dq| && AgreeUpTo(g, h, dq, i)
    requires forall k :: 0 <= k < i ==> FirstFit(log, g, dq, aq, k)
    ensures forall k :: 0 <= k < i ==> FirstFit(log, h, dq, aq, k)
  {
    forall k, a | 0 <= k < i ensures Taken(g, dq, k, a) <==> Taken(h, dq, k, a) {
    }
    forall k | 0 <= k < i ensures FirstFit(log, h, dq, aq, k) {
      assert FirstFit(log, g, dq, aq, k);
      if dq[k] in g {
        var j :| 0 <= j < |aq| && g[dq[k]] == aq[j] && NoneFree(log, g, dq, aq, k, j);
        assert NoneFree(log, h, dq, aq, k, j);
      } else {
        assert NoneFree(log, h, dq, aq, k, |aq|);
      }
    }
  }

  /** One round of the outer loop: the first `i` dispatches are decided, `used` marks the taken places. */
  ghost predicate Decided(log: Log, dq: seq<int>, aq: seq<int>, i: int, used: set<int>, g: map<int, int>)
    requires 0 <= i <= |dq|
  {
    && Matching(log, g)
    && (forall d :: d in g ==> d in dq[..i])
    && (forall l :: 0 <= l < |aq| ==> (l in used <==> Taken(g, dq, i, aq[l])))
    && (forall k :: 0 <= k < i ==> FirstFit(log, g, dq, aq, k))
  }

  lemma DecideMatched(log: Log, dq: seq<int>, aq: seq<int>, i: int, used: set<int>, g: map<int, int>, j: int)
    requires WorkLists(log, dq, aq) && 0 <= i < |dq| && Decided(log, dq, aq, i, used, g)
    requires 0 <= j < |aq| && j !in used && log.Answers(dq[i], aq[j])
    requires forall l :: 0 <= l < j && log.Answers(dq[i], aq[l]) ==> l in used
    ensures Decided(log, dq, aq, i + 1, used + {j}, g[dq[i] := aq[j]])
    ensures dq[i] !in g
  {
    var h := g[dq[i] := aq[j]];
    assert dq[i] !in g;
    assert Injective(h) by {
      assert forall d :: d in g ==> g[d] != aq[j];
    }
    assert AgreeUpTo(g, h, dq, i);
    FirstFitFrame(log, dq, aq, g, h, i);
    forall a ensures Taken(h, dq, i, a) <==> Taken(g, dq, i, a) {
    }
    forall l | 0 <= l < |aq| ensures l in used + {j} <==> Taken(h, dq, i + 1, aq[l]) {
      if Taken(g, dq, i, aq[l]) {
        var k :| 0 <= k < i && dq[k] in g && g[dq[k]] == aq[l];
        assert h[dq[k]] == aq[l];
      }
      assert h[dq[i]] == aq[j];
    }
    assert NoneFree(log, h, dq, aq, i, j);
    assert FirstFit(log, h, dq, aq, i);
    assert dq[..i + 1] == dq[..i] + [dq[i]];
  }

  lemma DecideUnmatched(log: Log, dq: seq<int>, aq: seq<int>, i: int, used: set<int>, g: map<int, int>)
    requires WorkLists(log, dq, aq) && 0 <= i < |dq| && Decided(log, dq, aq, i, used, g)
    requires forall l :: 0 <= l < |aq| && log.Answers(dq[i], aq[l]) ==> l in used
    ensures Decided(log, dq, aq, i + 1, used, g)
  {
  }

  /** The two result lists describe the same pairs. */
  ghost predicate Reported(log: Log, deltas: seq<int>, rows: seq<(int, int)>) {
    && |deltas| == |rows| == |RowMap(rows)|
    && forall k :: 0 <= k < |rows| ==>
         log.Answers(rows[k].0, rows[k].1) && deltas[k] == log.AckedAt(rows[k].1) - log.SentAt(rows[k].0)
  }

  lemma ReportPair(log: Log, deltas: seq<int>, rows: seq<(int, int)>, d: int, a: int)
    requires Reported(log, deltas, rows) && d !in RowMap(rows) && log.Answers(d, a)
    ensures Reported(log, deltas + [log.AckedAt(a) - log.SentAt(d)], rows + [(d, a)])
    ensures RowMap(rows + [(d, a)]) == RowMap(rows)[d := a]
  {
  }

  method AppendPair(log: Log, deltas: seq<int>, rows: seq<(int, int)>, disp: int, ack: int)
      returns (deltas': seq<int>, rows': seq<(int, int)>)
    requires Reported(log, deltas, rows) && disp !in RowMap(rows) && log.Answers(disp, ack)
    ensures Reported(log, deltas', rows') && RowMap(rows') == RowMap(rows)[disp := ack]
  {
    ReportPair(log, deltas, rows, disp, ack);
    deltas' := deltas + [log.acks[ack].ts - log.dispatches[disp].ts];
    rows' := rows + [(disp, ack)];
  }

  lemma AllDecided(log: Log, used: set<int>, g: map<int, int>)
    requires Decided(log, DispatchOrder(log), AckOrder(log), |DispatchOrder(log)|, used, g)
    ensures Greedy(log, DispatchOrder(log), AckOrder(log), g)
    ensures forall m :: Matching(log, m) ==> |m| <= |g|
  {
    OrdersAreWorkLists(log);
    forall m | Matching(log, m) ensures |m| <= |g| {
      GreedyIsMaximum(log, DispatchOrder(log), AckOrder(log), g, m);
    }
  }

  /** The inner loop: the first place of the work list that is free and may answer `disp`. */
  method FirstAvailable(log: Log, available: seq<int>, used: set<int>, disp: int) returns (idx: int)
    requires log.Sent(disp) && forall l :: 0 <= l < |available| ==> log.Target(available[l])
    ensures 0 <= idx <= |available|
    ensures idx < |available| ==> idx !in used && log.Answers(disp, available[idx])
    ensures forall l :: 0 <= l < idx && log.Answers(disp, available[l]) ==> l in used
  {
    idx := 0;
    while idx < |available|
      invariant 0 <= idx <= |available|
      invariant forall l :: 0 <= l < idx && log.Answers(disp, available[l]) ==> l in used
    {
      var ack := log.acks[available[idx]];
      if idx !in used && ack.deploymentId == log.dispatches[disp].deploymentId && ack.ts >= log.dispatches[disp].ts {
        return;
      }
      idx := idx + 1;
    }
  }

  method PairDispatchToAck(log: Log) returns (deltas: seq<int>, rows: seq<(int, int)>)
    ensures Greedy(log, DispatchOrder(log), AckOrder(log), RowMap(rows))
    ensures Reported(log, deltas, rows)
    ensures forall m :: Matching(log, m) ==> |m| <= |rows|
  {
    var available := AckOrder(log);
    var order := DispatchOrder(log);
    OrdersAreWorkLists(log);
    var used: set<int> := {};
    deltas, rows := [], [];
    for i := 0 to |order|
      invariant Decided(log, order, available, i, used, RowMap(rows))
      invariant Reported(log, deltas, rows)
    {
      var disp := order[i];
      assert disp in order;
      assert forall l :: 0 <= l < |available| ==> available[l] in available;
      var idx := FirstAvailable(log, available, used, disp);
      if idx < |available| {
        var ack := available[idx];
        DecideMatched(log, order, available, i, used, RowMap(rows), idx);
        deltas, rows := AppendPair(log, deltas, rows, disp, ack);
        used := used + {idx};
      } else {
        DecideUnmatched(log, order, available, i, used, RowMap(rows));
      }
    }
    AllDecided(log, used, RowMap(rows));
  }

  // ---- Orphans ----

  predicate Orphan(log: Log, d: int) {
    log.Sent(d) && forall a :: 0 <= a < |log.acks| ==> !log.Answers(d, a)
  }

  method CountOrphans(log: Log) returns (orphans: nat)
    ensures orphans == |set d | 0 <= d < |log.dispatches| && Orphan(log, d)|
  {
    orphans := 0;
    var cmds := Positions(|log.dispatches|, d => log.Sent(d));
    ghost var found: set<int> := {};
    for k := 0 to |cmds|
      invariant orphans == |found|
      invariant forall d :: d in found <==> d in cmds[..k] && Orphan(log, d)
    {
      var d := cmds[k];
      assert d in cmds;
      var matched := exists a :: 0 <= a < |log.acks| && log.Answers(d, a);
      assert cmds[..k + 1] == cmds[..k] + [d];
      if !matched {
        orphans := orphans + 1;
        found := found + {d};
      }
    }
    assert cmds[..|cmds|] == cmds;
    assert found == set d | 0 <= d < |log.dispatches| && Orphan(log, d);
  }

  /** Matched dispatches and orphans never overlap, so together they are at most the dispatches sent. */
  lemma MatchedPlusOrphans(log: Log, m: map<int, int>)
    requires Matching(log, m)
    ensures |m| + |set d | 0 <= d < |log.dispatches| && Orphan(log, d)|
         <= |set d | 0 <= d < |log.dispatches| && log.Sent(d)|
  {
    var orphans := set d | 0 <= d < |log.dispatches| && Orphan(log, d);
    var sent := set d | 0 <= d < |log.dispatches| && log.Sent(d);
    assert forall d :: d in m ==> log.Answers(d, m[d]);
    assert m.Keys !! orphans;
    assert m.Keys + orphans <= sent;
    SmallerSet(m.Keys + orphans, sent);
  }

  // ---- Which pairs there can be, from the records alone ----

  /** A sent command of the type and a later, or simultaneous, target event of the same deployment. */
  predicate Eligible(log: Log, d: int, a: int) {
    && 0 <= d < |log.dispatches| && 0 <= a < |log.acks|
    && var disp, ack := log.dispatches[d], log.acks[a];
       && disp.commandType == log.dispatchType && disp.decision == "sent" && ack.eventType == log.targetEvent
       && disp.deploymentId == ack.deploymentId && disp.ts <= ack.ts
  }

  /** The reported rows are eligible pairs with their delays, no command and no acknowledgement is in two of them. */
  lemma RowsAreEligible(log: Log, deltas: seq<int>, rows: seq<(int, int)>)
    requires Reported(log, deltas, rows) && Greedy(log, DispatchOrder(log), AckOrder(log), RowMap(rows))
    ensures |deltas| == |rows|
    ensures forall k :: 0 <= k < |rows| ==>
              Eligible(log, rows[k].0, rows[k].1)
              && deltas[k] == log.acks[rows[k].1].ts - log.dispatches[rows[k].0].ts >= 0
  {
    forall k | 0 <= k < |rows| ensures Eligible(log, rows[k].0, rows[k].1) {
      assert log.Answers(rows[k].0, rows[k].1);
    }
  }

  lemma EligibleMayAnswer(log: Log, d: int, a: int)
    ensures Eligible(log, d, a) <==> log.Answers(d, a)
  {
  }

  /** Something is paired exactly when some pair is eligible. */
  lemma PairsExactlyWhenEligible(log: Log, g: map<int, int>)
    requires Greedy(log, DispatchOrder(log), AckOrder(log), g)
    ensures |g| > 0 <==> exists d, a :: Eligible(log, d, a)
  {
    if d, a :| Eligible(log, d, a) {
      EligibleMayAnswer(log, d, a);
      GreedyIsMaximum(log, DispatchOrder(log), AckOrder(log), g, map[d := a]);
    }
    if forall d :: d !in g {
      assert g == map[];
    } else {
      var d :| d in g;
      EligibleMayAnswer(log, d, g[d]);
    }
  }

  /** A sent command of the type is an orphan exactly when it is in no eligible pair. */
  lemma OrphansExactlyWhen(log: Log, d: int)
    ensures Orphan(log, d) <==>
            0 <= d < |log.dispatches| && log.dispatches[d].commandType == log.dispatchType
            && log.dispatches[d].decision == "sent" && forall a :: !Eligible(log, d, a)
  {
    forall a ensures Eligible(log, d, a) <==> log.Answers(d, a) {
      EligibleMayAnswer(log, d, a);
    }
  }
}
