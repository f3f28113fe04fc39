/** What the lines and periods of a bill show, item by item. */
module BillingLines {
  import opened BillingFold
  import opened BillingItems
  import opened BillingModel
  import opened BillingSummary
  import opened Dedup

  // ---- The item that stands for a charge ----

  /** A line of the best ones is made from an item that counts, and of no other such item with its key ranks lower. */
  lemma BestLine(items: seq<Item>, counts: Item -> bool, line: Item -> Line, rank: Item -> int, l: Line, it: Item)
    requires BestOf(items, counts, line, rank, BestLines(items, counts, line, rank))
    requires l in BestLines(items, counts, line, rank)
    ensures l.item in items && counts(l.item) && l == line(l.item)
    ensures it in items && counts(it) && line(it).BaseKey() == l.BaseKey() ==> rank(l.item) <= rank(it)
  {
  }

  /** The line of a fee unit shows an activation in the cycle, and none of the unit in that cycle is earlier. */
  lemma FirstActivationStands(c: Context, items: seq<Item>, k: int, l: Line, it: Item)
    requires c.days >= 1 && l in FeeLines(c, items, k)
    ensures l.item in items && Activates(c, l.item, k) && l.kind == UserFee && l.period == Period(c, k)
    ensures it in items && Activates(c, it, k) && FeeKey(it) == FeeKey(l.item) ==>
              l.item.activatedAt.value <= it.activatedAt.value
  {
    FeeLinesAreTheBill(c, items, k);
    BestLine(items, Activating(c, k), FeeLine(c, k), ByActivation(), l, it);
  }

  /** The line of a seat shows a window that overlaps the cycle, and none of the seat that does ends later. */
  lemma LatestWindowStands(c: Context, items: seq<Item>, k: int, l: Line, it: Item)
    requires c.days >= 1 && l in SeatLines(c, items, k)
    ensures l.item in items && Supports(c, l.item, k) && l.kind == Support && l.period == Period(c, k)
    ensures it in items && Supports(c, it, k) && SeatKey(it) == SeatKey(l.item) ==>
              SupportEnd(it, c.days) <= SupportEnd(l.item, c.days)
  {
    SeatLinesAreTheBill(c, items, k);
    BestLine(items, Supporting(c, k), SeatLine(c, k), ByEnd(c.days), l, it);
  }

  // ---- The periods ----

  /** The cycles of a summary follow each other without a gap from the anchor on, and `now` lies in the last one. */
  lemma CyclesTileTime(s: Settings, c: Context, items: seq<Item>, k: int)
    requires c.days >= 1 && k >= 0
    ensures CycleBill(s, c, items, 0).periodStart == c.anchor
    ensures var cycle, next := CycleBill(s, c, items, k), CycleBill(s, c, items, k + 1);
            && cycle.index == k && cycle.periodEnd == next.periodStart
            && cycle.periodEnd - cycle.periodStart == c.days * DAY
            && (c.anchor <= c.now ==> (cycle.periodStart <= c.now < cycle.periodEnd <==> k == c.Current()))
  {
    assert CycleStart(c.anchor, c.days, 0) == c.anchor;
    assert CycleStart(c.anchor, c.days, k + 1) == CycleStart(c.anchor, c.days, k) + CycleLength(c.days);
    if c.anchor <= c.now {
      IndexAtMost(c.anchor, c.now, c.days, k);
    }
  }

  // ---- The lines of a closed period ----

  /** The items listed for a period are those with a fee key activated in it, both ends included. */
  lemma {:induction false} MonthLinesAre(items: seq<Item>, from: int, to: int, l: Line)
    ensures l in MonthLines(items, from, to) <==>
            l.item in items && l.kind == Untagged && l.period == "" && FeeKey(l.item) != ""
            && l.item.activatedAt.Some? && from <= l.item.activatedAt.value && l.item.activatedAt.value <= to
  {
    if items != [] {
      var rest, it := items[..|items| - 1], items[|items| - 1];
      assert items == rest + [it];
      MonthLinesAre(rest, from, to, l);
    }
  }

  lemma UntaggedKeys(a: Line, b: Line)
    requires a.kind == b.kind == Untagged && a.period == b.period == "" && FeeKey(a.item) != "" && FeeKey(b.item) != ""
    ensures DetailKey(a) == DetailKey(b) <==> FeeKey(a.item) == FeeKey(b.item)
  {
    assert DetailKey(a)[2..] == a.BaseKey() && DetailKey(b)[2..] == b.BaseKey();
  }

  /** Stored in place of an empty bill, they are listed once for every fee unit activated in the period. */
  lemma FallbackListsUnitsOnce(items: seq<Item>, from: int, to: int)
    ensures var stored := Deduped(MonthLines(items, from, to), DetailKey);
            forall i, j :: 0 <= i < j < |stored| ==> FeeKey(stored[i].item) != FeeKey(stored[j].item)
    ensures forall it ::
              it in items && FeeKey(it) != "" && it.activatedAt.Some? && from <= it.activatedAt.value <= to ==>
              exists l :: l in Deduped(MonthLines(items, from, to), DetailKey) && FeeKey(l.item) == FeeKey(it)
  {
    var lines := MonthLines(items, from, to);
    var stored := Deduped(lines, DetailKey);
    DedupedKeepsKeys(lines, DetailKey);
    forall l | l in lines ensures l.kind == Untagged && l.period == "" && FeeKey(l.item) != "" {
      MonthLinesAre(items, from, to, l);
    }
    forall i, j | 0 <= i < j < |stored| ensures FeeKey(stored[i].item) != FeeKey(stored[j].item) {
      assert stored[i] in lines && stored[j] in lines;
      UntaggedKeys(stored[i], stored[j]);
    }
    forall it | it in items && FeeKey(it) != "" && it.activatedAt.Some? && from <= it.activatedAt.value <= to
      ensures exists l :: l in stored && FeeKey(l.item) == FeeKey(it)
    {
      UnitIsStored(items, from, to, it);
    }
  }

  lemma UnitIsStored(items: seq<Item>, from: int, to: int, it: Item)
    requires it in items && FeeKey(it) != "" && it.activatedAt.Some? && from <= it.activatedAt.value <= to
    ensures exists l :: l in Deduped(MonthLines(items, from, to), DetailKey) && FeeKey(l.item) == FeeKey(it)
  {
    var lines, line := MonthLines(items, from, to), Line(it, Untagged, "");
    var stored := Deduped(lines, DetailKey);
    MonthLinesAre(items, from, to, line);
    DedupedKeepsKeys(lines, DetailKey);
    assert DetailKey(line) in Keys(stored, DetailKey);
    var l :| l in stored && DetailKey(l) == DetailKey(line);
    MonthLinesAre(items, from, to, l);
    UntaggedKeys(l, line);
  }
}
