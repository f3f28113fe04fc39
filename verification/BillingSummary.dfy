/** The billing summary of a partner, and the itemised bill stored when a payment is confirmed. */
module BillingSummary {
  import opened BillingAmounts
  import opened BillingAnchor
  import opened BillingFold
  import opened BillingItems
  import opened BillingModel
  import opened BillingReport
  import opened Dedup
  import opened Numbers
  import opened Options

  datatype CycleSummary = CycleSummary(
    index: int, periodStart: int, periodEnd: int, periodKey: string,
    items: seq<Line>, userFeeItems: seq<Line>, supportItems: seq<Line>, charge: Charge)

  datatype Summary = Summary(
    anchor: int, cycleIndex: int, periodStart: int, periodEnd: int, billingMonth: string,
    cycles: seq<CycleSummary>, allItems: seq<Line>,
    previousTotal: int, previousDue: int, current: Charge, accrued: int, paid: int, due: int)

  /** The summary of one cycle, from the declarative bill. */
  function CycleBill(s: Settings, c: Context, items: seq<Item>, k: int): CycleSummary
    requires c.days >= 1
  {
    CycleSummary(k, CycleStart(c.anchor, c.days, k), CycleStart(c.anchor, c.days, k + 1), Period(c, k),
                 CycleLines(c, items, k), FeeLines(c, items, k), SeatLines(c, items, k), Bill(s, c, items, k))
  }

  method SummarizeCycle(s: Settings, c: Context, ghost items: seq<Item>, fee: Dictionary, support: Dictionary,
                        ghost current: int, k: int)
      returns (r: CycleSummary)
    requires c.Valid() && 0 <= k <= current && HoldsUpTo(c, items, fee, support, current)
    ensures r == CycleBill(s, c, items, k)
  {
    var start, end := CycleStart(c.anchor, c.days, k), CycleStart(c.anchor, c.days, k + 1);
    var userFeeItems, supportItems := fee.At(k), support.At(k);
    FeeLinesAreTheBill(c, items, k);
    SeatLinesAreTheBill(c, items, k);
    var amounts := ChargeForCounts(s, |userFeeItems|, |supportItems|);
    CycleListsEveryCharge(c, items, k);
    var detailItems := Dedup.Dedup(userFeeItems + supportItems, DetailKey);
    r := CycleSummary(k, start, end, Period(c, k), detailItems, userFeeItems, supportItems, amounts);
  }

  function CycleBills(s: Settings, c: Context, items: seq<Item>): int -> CycleSummary
    requires c.days >= 1
  {
    k => CycleBill(s, c, items, k)
  }

  ghost predicate Lists(cycles: seq<CycleSummary>, bills: int -> CycleSummary, n: int) {
    |cycles| == n && forall k :: 0 <= k < n ==> cycles[k] == bills(k)
  }

  lemma ListsOneMore(cycles: seq<CycleSummary>, bills: int -> CycleSummary, n: int)
    requires Lists(cycles, bills, n)
    ensures Lists(cycles + [bills(n)], bills, n + 1)
  {
  }

  ghost predicate AreAllLines(lines: seq<Line>, c: Context, items: seq<Item>)
    requires c.days >= 1
  {
    lines == AllLines(c, items)
  }

  /** The summary is about cycle `k`. */
  predicate Dates(r: Summary, c: Context, k: int) {
    && r.anchor == c.anchor && r.cycleIndex == k
    && r.periodStart == CycleStart(c.anchor, c.days, k) && r.periodEnd == CycleStart(c.anchor, c.days, k + 1)
    && r.billingMonth == Period(c, k)
  }

  /** The summary of the report at `now`, for what was confirmed as paid and the anchor that was stored. */
  ghost predicate IsSummary(r: Summary, s: Settings, c: Context, items: seq<Item>, confirmedPaid: int)
    requires c.days >= 1
  {
    && Dates(r, c, c.Current())
    && Lists(r.cycles, CycleBills(s, c, items), c.Current() + 1)
    && AreAllLines(r.allItems, c, items)
    && r.previousTotal == Previous(s, c, items) && r.previousDue == Due(r.previousTotal, confirmedPaid)
    && r.current == CurrentCharge(s, c, items)
    && r.accrued == Accrued(s, c, items) && r.due == Due(r.accrued, confirmedPaid)
    && r.paid == Max(0, confirmedPaid)
  }

  /** The items of all cycles, oldest cycle first. */
  method Flatten(cycles: seq<CycleSummary>, ghost lines: int -> seq<Line>) returns (all: seq<Line>)
    requires forall k :: 0 <= k < |cycles| ==> cycles[k].items == lines(k)
    ensures all == Concat(lines, |cycles|)
  {
    all := [];
    for k := 0 to |cycles|
      invariant all == Concat(lines, k)
    {
      all := all + cycles[k].items;
    }
  }

  /** The instants of a computation lie in the calendar. */
  predicate InCalendar(items: seq<Item>, now: int, stored: Option<int>) {
    && now >= 0 && (stored.Some? ==> stored.value >= 0)
    && forall it :: it in items && it.activatedAt.Some? ==> it.activatedAt.value >= 0
  }

  function ContextOf(s: Settings, items: seq<Item>, now: int, stored: Option<int>): (c: Context)
    ensures c.days >= 1
  {
    Context(CycleAnchor(items, now, stored), s.CycleDays(), now)
  }

  lemma AnchorInCalendar(s: Settings, items: seq<Item>, now: int, stored: Option<int>)
    requires InCalendar(items, now, stored)
    ensures ContextOf(s, items, now, stored).Valid()
  {
    DayStartsOrdered(0, now);
    if Earliest(items).Some? {
      EarliestIsFirst(items);
      DayStartsOrdered(0, Earliest(items).value);
    }
  }

  /** The variables of the loop over the cycles when cycle `k` is next. */
  ghost predicate Summed(cycles: seq<CycleSummary>, previousTotal: int, accrued: int, current: int, k: int,
                         bills: int -> CycleSummary, totals: int -> int)
  {
    && Lists(cycles, bills, k)
    && accrued == Sum(totals, k)
    && previousTotal == Sum(totals, Min(k, current))
  }

  method AddCycle(cycles: seq<CycleSummary>, previousTotal: int, accrued: int, current: int, k: int,
                  cycle: CycleSummary, ghost bills: int -> CycleSummary, ghost totals: int -> int)
      returns (cycles': seq<CycleSummary>, previousTotal': int, accrued': int)
    requires 0 <= k <= current && Summed(cycles, previousTotal, accrued, current, k, bills, totals)
    requires cycle == bills(k) && cycle.charge.total == totals(k)
    ensures Summed(cycles', previousTotal', accrued', current, k + 1, bills, totals)
  {
    accrued' := accrued + cycle.charge.total;
    previousTotal' := if k < current then previousTotal + cycle.charge.total else previousTotal;
    ListsOneMore(cycles, bills, k);
    cycles' := cycles + [cycle];
  }

  /** One round of the loop over the cycles. */
  method NextCycle(s: Settings, c: Context, ghost items: seq<Item>, fee: Dictionary, support: Dictionary, current: int,
                   k: int, cycles: seq<CycleSummary>, previousTotal: int, accrued: int)
      returns (cycles': seq<CycleSummary>, previousTotal': int, accrued': int)
    requires c.Valid() && 0 <= k <= current && HoldsUpTo(c, items, fee, support, current)
    requires Summed(cycles, previousTotal, accrued, current, k, CycleBills(s, c, items), CycleTotals(s, c, items))
    ensures Summed(cycles', previousTotal', accrued', current, k + 1, CycleBills(s, c, items), CycleTotals(s, c, items))
  {
    var cycle := SummarizeCycle(s, c, items, fee, support, current, k);
    ghost var bills, totals := CycleBills(s, c, items), CycleTotals(s, c, items);
    cycles', previousTotal', accrued' := AddCycle(cycles, previousTotal, accrued, current, k, cycle, bills, totals);
  }

  method Totals(s: Settings, c: Context, ghost items: seq<Item>, fee: Dictionary, support: Dictionary, current: int)
      returns (cycles: seq<CycleSummary>, previousTotal: int, accrued: int)
    requires c.Valid() && 0 <= current && HoldsUpTo(c, items, fee, support, current)
    ensures Summed(cycles, previousTotal, accrued, current, current + 1, CycleBills(s, c, items),
                   CycleTotals(s, c, items))
  {
    cycles, previousTotal, accrued := [], 0, 0;
    for k := 0 to current + 1
      invariant Summed(cycles, previousTotal, accrued, current, k, CycleBills(s, c, items), CycleTotals(s, c, items))
    {
      cycles, previousTotal, accrued :=
        NextCycle(s, c, items, fee, support, current, k, cycles, previousTotal, accrued);
    }
  }

  lemma SummedUp(s: Settings, c: Context, items: seq<Item>, cycles: seq<CycleSummary>, previousTotal: int, accrued: int,
                 current: int)
    requires c.days >= 1 && current == c.Current()
    requires Summed(cycles, previousTotal, accrued, current, current + 1, CycleBills(s, c, items),
                    CycleTotals(s, c, items))
    ensures Lists(cycles, CycleBills(s, c, items), current + 1)
    ensures previousTotal == Previous(s, c, items) && accrued == Accrued(s, c, items)
  {
    TotalsAt(s, c, items, current);
  }

  method AllItems(s: Settings, c: Context, ghost items: seq<Item>, cycles: seq<CycleSummary>) returns (all: seq<Line>)
    requires c.days >= 1 && Lists(cycles, CycleBills(s, c, items), c.Current() + 1)
    ensures AreAllLines(all, c, items)
  {
    ItemsOfCycles(s, c, items, cycles);
    all := Flatten(cycles, ByCycle(c, items));
    TheseAreAllLines(c, items, |cycles|);
  }

  lemma ItemsOfCycles(s: Settings, c: Context, items: seq<Item>, cycles: seq<CycleSummary>)
    requires c.days >= 1 && Lists(cycles, CycleBills(s, c, items), |cycles|)
    ensures forall k :: 0 <= k < |cycles| ==> cycles[k].items == ByCycle(c, items)(k)
  {
    forall k | 0 <= k < |cycles| ensures cycles[k].items == ByCycle(c, items)(k) {
      assert cycles[k] == CycleBills(s, c, items)(k);
    }
  }

  lemma TheseAreAllLines(c: Context, items: seq<Item>, n: int)
    requires c.days >= 1 && n == c.Current() + 1
    ensures AreAllLines(Concat(ByCycle(c, items), n), c, items)
  {
  }

  method CurrentAmounts(s: Settings, c: Context, ghost items: seq<Item>, fee: Dictionary, support: Dictionary)
      returns (r: Charge)
    requires c.Valid() && Holds(c, items, fee, support)
    ensures r == CurrentCharge(s, c, items)
  {
    var current := c.Current();
    FeeLinesAreTheBill(c, items, current);
    SeatLinesAreTheBill(c, items, current);
    r := ChargeForCounts(s, |fee.At(current)|, |support.At(current)|);
  }

  function Assembled(c: Context, cycles: seq<CycleSummary>, allItems: seq<Line>, previousTotal: int, current: Charge,
                     accrued: int, confirmedPaid: int): Summary
    requires c.days >= 1
  {
    var k, paid := c.Current(), Max(0, confirmedPaid);
    Summary(c.anchor, k, CycleStart(c.anchor, c.days, k), CycleStart(c.anchor, c.days, k + 1), Period(c, k), cycles,
            allItems, previousTotal, Max(0, previousTotal - paid), current, accrued, paid, Max(0, accrued - paid))
  }

  lemma AssembledIsSummary(s: Settings, c: Context, items: seq<Item>, cycles: seq<CycleSummary>, allItems: seq<Line>,
                           confirmedPaid: int)
    requires c.days >= 1 && Lists(cycles, CycleBills(s, c, items), c.Current() + 1) && AreAllLines(allItems, c, items)
    ensures IsSummary(Assembled(c, cycles, allItems, Previous(s, c, items), CurrentCharge(s, c, items),
                                Accrued(s, c, items), confirmedPaid),
                      s, c, items, confirmedPaid)
  {
    var r := Assembled(c, cycles, allItems, Previous(s, c, items), CurrentCharge(s, c, items), Accrued(s, c, items),
                       confirmedPaid);
    AssembledDates(c, cycles, allItems, Previous(s, c, items), CurrentCharge(s, c, items), Accrued(s, c, items),
                   confirmedPaid, c.Current());
    assert r.cycles == cycles && r.allItems == allItems;
  }

  lemma AssembledDates(c: Context, cycles: seq<CycleSummary>, allItems: seq<Line>, previousTotal: int, current: Charge,
                       accrued: int, confirmedPaid: int, k: int)
    requires c.days >= 1 && k == c.Current()
    ensures Dates(Assembled(c, cycles, allItems, previousTotal, current, accrued, confirmedPaid), c, k)
  {
  }

  /** The summary for an anchor. */
  method Summarize(s: Settings, c: Context, items: seq<Item>, confirmedPaid: int) returns (r: Summary)
    requires c.Valid()
    ensures IsSummary(r, s, c, items, confirmedPaid)
  {
    var fee, support := FoldReport(c, items);
    var currentAmounts := CurrentAmounts(s, c, items, fee, support);
    var cycles, previousTotal, accrued := Totals(s, c, items, fee, support, c.Current());
    SummedUp(s, c, items, cycles, previousTotal, accrued, c.Current());
    var allItems := AllItems(s, c, items, cycles);
    r := Assembled(c, cycles, allItems, previousTotal, currentAmounts, accrued, confirmedPaid);
    AssembledIsSummary(s, c, items, cycles, allItems, confirmedPaid);
  }

  /** `_billing_cycle_summary` */
  method BillingCycleSummary(s: Settings, items: seq<Item>, now: int, confirmedPaid: int, stored: Option<int>)
      returns (r: Summary)
    requires InCalendar(items, now, stored)
    ensures IsSummary(r, s, ContextOf(s, items, now, stored), items, confirmedPaid)
  {
    var anchor := ComputeCycleAnchor(items, now, stored);
    AnchorInCalendar(s, items, now, stored);
    r := Summarize(s, Context(anchor, s.CycleDays(), now), items, confirmedPaid);
  }

  // ---- The lines stored at confirmation ----

  predicate InMonth(it: Item, from: int, to: int) {
    it.activatedAt.Some? && FeeKey(it) != "" && from <= it.activatedAt.value <= to
  }

  /** `_billable_month_items`, as the untagged lines they are when stored. */
  function MonthLines(items: seq<Item>, from: int, to: int): (r: seq<Line>)
    ensures forall l :: l in r ==> l.item in items && InMonth(l.item, from, to)
  {
    if items == [] then []
    else
      var it := items[|items| - 1];
      MonthLines(items[..|items| - 1], from, to) + if InMonth(it, from, to) then [Line(it, Untagged, "")] else []
  }

  method MonthItems(items: seq<Item>, from: int, to: int) returns (lines: seq<Line>)
    ensures lines == MonthLines(items, from, to)
  {
    lines := [];
    for i := 0 to |items|
      invariant lines == MonthLines(items[..i], from, to)
    {
      assert items[..i + 1][..i] == items[..i];
      var it := items[i];
      if it.activatedAt.None? || FeeKey(it) == "" || it.activatedAt.value < from || it.activatedAt.value > to {
        assert lines + [] == lines;
        continue;
      }
      lines := lines + [Line(it, Untagged, "")];
    }
    assert items[..|items|] == items;
  }

  /** The itemisation stored with a confirmed payment: the whole bill, none of its lines lost, unless it has no line. */
  method StoredDetails(s: Settings, c: Context, items: seq<Item>, ghost confirmedPaid: int, r: Summary)
      returns (details: seq<Line>)
    requires c.Valid() && IsSummary(r, s, c, items, confirmedPaid)
    ensures AllLines(c, items) != [] ==> details == AllLines(c, items)
    ensures AllLines(c, items) == [] ==> details == Deduped(MonthLines(items, r.periodStart, r.periodEnd), DetailKey)
  {
    var periodItems := r.allItems;
    if periodItems == [] {
      periodItems := MonthItems(items, r.periodStart, r.periodEnd);
    }
    BillListsEveryCharge(c, items);
    details := Dedup.Dedup(periodItems, DetailKey);
  }

  lemma ChargedCycleHasALine(c: Context, items: seq<Item>, it: Item, k: int)
    requires c.days >= 1 && it in items && Activates(c, it, k)
    ensures |CycleLines(c, items, k)| > 0
  {
    FeeLinesAreTheBill(c, items, k);
    assert FeeKey(it) in FeeKeys(c, items, k);
    assert |FeeKeys(c, items, k)| != 0;
  }

  lemma SomeListHasAnElement<T>(lists: int -> seq<T>, n: int, k: int)
    requires 0 <= k < n && |lists(k)| > 0
    ensures |Concat(lists, n)| > 0
  {
  }

  lemma BillHasALine(c: Context, items: seq<Item>, n: int)
    requires c.days >= 1 && n == c.Current() + 1 && |Concat(ByCycle(c, items), n)| > 0
    ensures |AllLines(c, items)| > 0
  {
  }

  /** An item that can be charged is on the bill. */
  lemma ChargeableIsListed(c: Context, items: seq<Item>, it: Item)
    requires c.days >= 1 && it in items && Chargeable(it, c.now)
    ensures |AllLines(c, items)| > 0
  {
    var k, n := CycleIndex(c.anchor, it.activatedAt.value, c.days), c.Current() + 1;
    ActivationIndexIsPast(c, it);
    ChargedCycleHasALine(c, items, it, k);
    SomeListHasAnElement(ByCycle(c, items), n, k);
    BillHasALine(c, items, n);
  }

  /** So an itemisation without a bill lists only items nobody is charged for. */
  lemma FallbackListsOnlyUncharged(c: Context, items: seq<Item>, from: int, to: int, l: Line)
    requires c.days >= 1 && AllLines(c, items) == [] && l in MonthLines(items, from, to)
    ensures FeeKey(l.item) != "" && (SeatKey(l.item) == "" || c.now < l.item.activatedAt.value <= to)
  {
    if Chargeable(l.item, c.now) {
      ChargeableIsListed(c, items, l.item);
    }
  }
}
