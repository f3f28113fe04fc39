/** The itemised bill: the key of a line, and why deduplication by key never drops one. */
module BillingItems {
  import opened BillingFold
  import opened BillingModel
  import opened Calendar
  import opened Dedup

  /** `_billing_charge_detail_key` */
  function DetailKey(l: Line): (key: string)
    ensures key != ""
  {
    l.period + ":" + l.kind.Text() + ":" + l.BaseKey()
  }

  /** The period of a line is one of the cycles of a computation. */
  ghost predicate InCycle(c: Context, l: Line, k: int) {
    l.period == Period(c, k)
  }

  lemma StartDaysDiffer(c: Context, j: int, k: int)
    requires c.Valid() && 0 <= j && 0 <= k
    requires DayOf(CycleStart(c.anchor, c.days, j)) == DayOf(CycleStart(c.anchor, c.days, k))
    ensures j == k
  {
    if j < k {
      Monotone(j + 1, k, c.days);
    } else if k < j {
      Monotone(k + 1, j, c.days);
    }
  }

  /** Cycles have different periods. */
  lemma PeriodsDiffer(c: Context, j: int, k: int)
    requires c.Valid() && 0 <= j && 0 <= k && Period(c, j) == Period(c, k)
    ensures j == k
  {
    PeriodKeyFacts(DayOf(CycleStart(c.anchor, c.days, j)), DayOf(CycleStart(c.anchor, c.days, j + 1)),
                   DayOf(CycleStart(c.anchor, c.days, k)), DayOf(CycleStart(c.anchor, c.days, k + 1)));
    StartDaysDiffer(c, j, k);
  }

  /** The key tells period, kind and base key apart. */
  lemma DetailKeysAreInjective(c: Context, a: Line, j: int, b: Line, k: int)
    requires c.Valid() && 0 <= j && 0 <= k && InCycle(c, a, j) && InCycle(c, b, k)
    ensures DetailKey(a) == DetailKey(b) <==> j == k && a.kind == b.kind && a.BaseKey() == b.BaseKey()
  {
    KeyParts(c, a, j);
    KeyParts(c, b, k);
    if DetailKey(a) == DetailKey(b) {
      SeparatedParts(a.period, Tail(a), b.period, Tail(b), ':');
      SeparatedParts(a.kind.Text(), a.BaseKey(), b.kind.Text(), b.BaseKey(), ':');
      PeriodsDiffer(c, j, k);
    }
  }

  function Tail(l: Line): string {
    l.kind.Text() + [':'] + l.BaseKey()
  }

  lemma KeyParts(c: Context, l: Line, k: int)
    requires c.Valid() && 0 <= k && InCycle(c, l, k)
    ensures DetailKey(l) == l.period + [':'] + Tail(l)
    ensures FreeOf(l.period, ':')
  {
    var d, e := DayOf(CycleStart(c.anchor, c.days, k)), DayOf(CycleStart(c.anchor, c.days, k + 1));
    PeriodKeyFacts(d, e, d, e);
    assert l.period + ":" + l.kind.Text() + ":" + l.BaseKey() == l.period + [':'] + Tail(l);
  }

  // ---- The lines of a cycle and of the whole bill ----

  function CycleLines(c: Context, items: seq<Item>, k: int): seq<Line>
    requires c.days >= 1
  {
    FeeLines(c, items, k) + SeatLines(c, items, k)
  }

  function ByCycle(c: Context, items: seq<Item>): int -> seq<Line>
    requires c.days >= 1
  {
    k => CycleLines(c, items, k)
  }

  /** The whole bill: every cycle's lines, oldest cycle first. */
  function AllLines(c: Context, items: seq<Item>): seq<Line>
    requires c.days >= 1
  {
    Concat(ByCycle(c, items), c.Current() + 1)
  }

  lemma LinesOfOneKind(c: Context, lines: seq<Line>, k: int, kind: Kind)
    requires c.Valid() && 0 <= k && Keyed(lines)
    requires forall l :: l in lines ==> InCycle(c, l, k) && l.kind == kind
    ensures DistinctKeys(lines, DetailKey)
  {
    forall i, j | 0 <= i < j < |lines| ensures DetailKey(lines[i]) != DetailKey(lines[j]) {
      assert lines[i] in lines && lines[j] in lines;
      DetailKeysAreInjective(c, lines[i], k, lines[j], k);
    }
  }

  lemma LineTags(c: Context, items: seq<Item>, k: int)
    requires c.days >= 1
    ensures forall l :: l in FeeLines(c, items, k) ==> l.period == Period(c, k) && l.kind == UserFee
    ensures forall l :: l in SeatLines(c, items, k) ==> l.period == Period(c, k) && l.kind == Support
    ensures Keyed(FeeLines(c, items, k)) && Keyed(SeatLines(c, items, k))
  {
    FeeLinesAreTheBill(c, items, k);
    SeatLinesAreTheBill(c, items, k);
  }

  ghost predicate ListsCycle(c: Context, lines: seq<Line>, k: int) {
    DistinctKeys(lines, DetailKey) && forall l :: l in lines ==> InCycle(c, l, k)
  }

  lemma CycleLinesAreDistinct(c: Context, items: seq<Item>, k: int)
    requires c.Valid() && 0 <= k
    ensures ListsCycle(c, CycleLines(c, items, k), k)
  {
    LineTags(c, items, k);
    var a, b := FeeLines(c, items, k), SeatLines(c, items, k);
    LinesOfOneKind(c, a, k, UserFee);
    LinesOfOneKind(c, b, k, Support);
    forall x, y | x in a && y in b ensures DetailKey(x) != DetailKey(y) {
      DetailKeysAreInjective(c, x, k, y, k);
    }
  }

  /**
   * A cycle lists every charge of its bill: deduplication drops nothing, and the lines are as many as the charged
   * units.
   */
  lemma CycleListsEveryCharge(c: Context, items: seq<Item>, k: int)
    requires c.Valid() && 0 <= k
    ensures Deduped(CycleLines(c, items, k), DetailKey) == CycleLines(c, items, k)
    ensures |CycleLines(c, items, k)| == |FeeKeys(c, items, k)| + |SeatKeys(c, items, k)|
  {
    CycleLinesAreDistinct(c, items, k);
    NothingDroppedExactlyWhen(CycleLines(c, items, k), DetailKey);
    FeeLinesAreTheBill(c, items, k);
    SeatLinesAreTheBill(c, items, k);
  }

  lemma DifferentCycles(c: Context, a: seq<Line>, j: int, b: seq<Line>, k: int)
    requires c.Valid() && 0 <= j < k && ListsCycle(c, a, j) && ListsCycle(c, b, k)
    ensures NoCommonKey(a, b, DetailKey)
  {
    forall x, y | x in a && y in b ensures DetailKey(x) != DetailKey(y) {
      DetailKeysAreInjective(c, x, j, y, k);
    }
  }

  lemma CyclesAreDistinct(c: Context, f: int -> seq<Line>, n: int)
    requires c.Valid() && forall k :: 0 <= k < n ==> ListsCycle(c, f(k), k)
    ensures Deduped(Concat(f, n), DetailKey) == Concat(f, n)
  {
    forall j, k | 0 <= j < k < n ensures NoCommonKey(f(j), f(k), DetailKey) {
      DifferentCycles(c, f(j), j, f(k), k);
    }
    ConcatIsDistinct(f, n, DetailKey);
    NothingDroppedExactlyWhen(Concat(f, n), DetailKey);
  }

  /** No line of the whole bill is dropped either. */
  lemma BillListsEveryCharge(c: Context, items: seq<Item>)
    requires c.Valid()
    ensures Deduped(AllLines(c, items), DetailKey) == AllLines(c, items)
  {
    forall k | 0 <= k < c.Current() + 1 ensures ListsCycle(c, ByCycle(c, items)(k), k) {
      CycleLinesAreDistinct(c, items, k);
    }
    CyclesAreDistinct(c, ByCycle(c, items), c.Current() + 1);
  }
}
