/** Where a partner's first cycle begins: chosen from the report, pinned once. */
module BillingAnchor {
  import opened BillingAmounts
  import opened BillingFold
  import opened BillingModel
  import opened Options

  /** An item that can set the anchor. */
  predicate Billable(it: Item) {
    it.activatedAt.Some? && FeeKey(it) != ""
  }

  predicate HasActivation(items: seq<Item>) {
    exists it :: it in items && Billable(it)
  }

  ghost predicate ActivatedAt(items: seq<Item>, t: int) {
    exists it :: it in items && Billable(it) && it.activatedAt.value == t
  }

  ghost predicate IsEarliest(items: seq<Item>, t: int) {
    && ActivatedAt(items, t)
    && forall it :: it in items && Billable(it) ==> t <= it.activatedAt.value
  }

  /** The earliest billable activation, or none. */
  function Earliest(items: seq<Item>): (r: Option<int>)
    ensures r.Some? <==> HasActivation(items)
  {
    if items == [] then None
    else
      var it := items[|items| - 1];
      var rest := items[..|items| - 1];
      var before := Earliest(rest);
      assert items == rest + [it];
      if !Billable(it) || (before.Some? && before.value <= it.activatedAt.value) then before else it.activatedAt
  }

  lemma {:induction false} EarliestIsActivated(items: seq<Item>)
    requires Earliest(items).Some?
    ensures ActivatedAt(items, Earliest(items).value)
  {
    var it, rest := items[|items| - 1], items[..|items| - 1];
    if Earliest(items) == Earliest(rest) {
      EarliestIsActivated(rest);
      var first :| first in rest && Billable(first) && first.activatedAt.value == Earliest(rest).value;
      assert first in items;
    } else {
      assert it in items;
    }
  }

  lemma {:induction false} EarliestIsLowest(items: seq<Item>, k: int)
    requires 0 <= k < |items| && Billable(items[k])
    ensures Earliest(items).Some? && Earliest(items).value <= items[k].activatedAt.value
  {
    var rest := items[..|items| - 1];
    if k < |rest| {
      EarliestIsLowest(rest, k);
    }
  }

  /** It is activated in the report, and no billable activation precedes it. */
  lemma EarliestIsFirst(items: seq<Item>)
    requires HasActivation(items)
    ensures IsEarliest(items, Earliest(items).value)
  {
    EarliestIsActivated(items);
    forall it | it in items && Billable(it) ensures Earliest(items).value <= it.activatedAt.value {
      var k :| 0 <= k < |items| && items[k] == it;
      EarliestIsLowest(items, k);
    }
  }

  /** `_billing_cycle_anchor` */
  function CycleAnchor(items: seq<Item>, now: int, stored: Option<int>): int {
    if stored.Some? then stored.value
    else DayStart(if Earliest(items).Some? then Earliest(items).value else now)
  }

  method ComputeCycleAnchor(items: seq<Item>, now: int, stored: Option<int>) returns (anchor: int)
    ensures anchor == CycleAnchor(items, now, stored)
  {
    if stored.Some? {
      return stored.value;
    }
    var activatedDates: seq<int> := [];
    for i := 0 to |items|
      invariant forall t :: t in activatedDates ==> ActivatedAt(items, t)
      invariant forall j :: 0 <= j < i && Billable(items[j]) ==> items[j].activatedAt.value in activatedDates
    {
      if Billable(items[i]) {
        activatedDates := activatedDates + [items[i].activatedAt.value];
      }
    }
    if activatedDates == [] {
      anchor := DayStart(now);
    } else {
      var base := Least(activatedDates);
      SameEarliest(items, base);
      anchor := DayStart(base);
    }
  }

  method Least(s: seq<int>) returns (m: int)
    requires s != []
    ensures m in s && forall x :: x in s ==> m <= x
  {
    m := s[0];
    for i := 1 to |s|
      invariant m in s && forall j :: 0 <= j < i ==> m <= s[j]
    {
      if s[i] < m {
        m := s[i];
      }
    }
  }

  lemma OneEarliest(items: seq<Item>, t: int, u: int)
    requires IsEarliest(items, t) && IsEarliest(items, u)
    ensures t == u
  {
    var first :| first in items && Billable(first) && first.activatedAt.value == t;
    var other :| other in items && Billable(other) && other.activatedAt.value == u;
  }

  lemma SameEarliest(items: seq<Item>, t: int)
    requires IsEarliest(items, t)
    ensures Earliest(items) == Some(t)
  {
    EarliestIsFirst(items);
    OneEarliest(items, t, Earliest(items).value);
  }

  // ---- Pinning ----

  /** The anchor stored after a snapshot of this report. */
  function Pinned(stored: Option<int>, items: seq<Item>, now: int): Option<int> {
    if !HasActivation(items) || stored.Some? then stored else Some(CycleAnchor(items, now, None))
  }

  /** The anchor handed to the summary: the stored one, unless the report has no billable activation. */
  function Offered(stored: Option<int>, items: seq<Item>, now: int): Option<int> {
    if HasActivation(items) then Pinned(stored, items, now) else None
  }

  /** Without a stored anchor, cycles begin on the midnight before the first activation of an item with a fee key. */
  lemma AnchorIsFirstActivation(items: seq<Item>, now: int, it: Item)
    requires it in items && it.activatedAt.Some? && FeeKey(it) != ""
    requires forall other :: other in items && other.activatedAt.Some? && FeeKey(other) != "" ==>
               it.activatedAt.value <= other.activatedAt.value
    ensures CycleAnchor(items, now, None) == DayStart(it.activatedAt.value)
    ensures Pinned(None, items, now) == Offered(None, items, now) == Some(DayStart(it.activatedAt.value))
  {
    SameEarliest(items, it.activatedAt.value);
  }

  /** Without any such item they begin today, nothing is stored and no anchor is handed on; a stored one is kept. */
  lemma NoActivationNoAnchor(items: seq<Item>, now: int, stored: Option<int>)
    requires forall it :: it in items ==> it.activatedAt.None? || FeeKey(it) == ""
    ensures CycleAnchor(items, now, None) == DayStart(now)
    ensures Pinned(stored, items, now) == stored && Offered(stored, items, now) == None
  {
  }

  /** A stored anchor is used and stays. */
  lemma StoredAnchorStays(items: seq<Item>, now: int, anchor: int)
    ensures CycleAnchor(items, now, Some(anchor)) == anchor && Pinned(Some(anchor), items, now) == Some(anchor)
    ensures (exists it :: it in items && it.activatedAt.Some? && FeeKey(it) != "") ==>
              Offered(Some(anchor), items, now) == Some(anchor)
  {
    if it :| it in items && it.activatedAt.Some? && FeeKey(it) != "" {
      assert Billable(it);
    }
  }

  class Partner {
    var billingAnchorAt: Option<int>

    /** `_partner_billing_anchor_from_bot_data` for a partner that exists */
    method PinAnchor(items: seq<Item>, now: int) returns (r: Option<int>)
      modifies this
      ensures billingAnchorAt == Pinned(old(billingAnchorAt), items, now)
      ensures r == Offered(old(billingAnchorAt), items, now)
    {
      var found := HasBillableActivation(items);
      if !found {
        return None;
      }
      if billingAnchorAt.Some? {
        return billingAnchorAt;
      }
      var anchor := ComputeCycleAnchor(items, now, None);
      billingAnchorAt := Some(anchor);
      r := billingAnchorAt;
    }
  }

  method HasBillableActivation(items: seq<Item>) returns (found: bool)
    ensures found == HasActivation(items)
  {
    for i := 0 to |items|
      invariant forall j :: 0 <= j < i ==> !Billable(items[j])
    {
      if Billable(items[i]) {
        return true;
      }
    }
    found := false;
  }

  datatype Report = Report(items: seq<Item>, readAt: int)

  /** The anchor stored after a series of reports. */
  function PinnedBy(stored: Option<int>, reports: seq<Report>): Option<int>
    decreases |reports|
  {
    if reports == [] then stored
    else PinnedBy(Pinned(stored, reports[0].items, reports[0].readAt), reports[1..])
  }

  /** The place of the first report with a billable activation, or their number. */
  function FirstActive(reports: seq<Report>): (i: int)
    ensures 0 <= i <= |reports|
    ensures i < |reports| ==> HasActivation(reports[i].items)
  {
    if reports == [] || HasActivation(reports[0].items) then 0 else 1 + FirstActive(reports[1..])
  }

  lemma {:induction false} PinnedStays(stored: Option<int>, reports: seq<Report>)
    requires stored.Some?
    ensures PinnedBy(stored, reports) == stored
    decreases |reports|
  {
    if reports != [] {
      PinnedStays(stored, reports[1..]);
    }
  }

  /** Whatever reports follow, the anchor is the midnight before the earliest activation of the first that has one. */
  lemma {:induction false} AnchorIsPinnedOnce(stored: Option<int>, reports: seq<Report>)
    ensures var i := FirstActive(reports);
            PinnedBy(stored, reports) ==
            if stored.None? && i < |reports| then Some(DayStart(Earliest(reports[i].items).value)) else stored
    decreases |reports|
  {
    if stored.Some? {
      PinnedStays(stored, reports);
    } else if reports != [] {
      if HasActivation(reports[0].items) {
        PinnedStays(Pinned(stored, reports[0].items, reports[0].readAt), reports[1..]);
      } else {
        AnchorIsPinnedOnce(stored, reports[1..]);
      }
    }
  }

  /** Every anchor a summary works with is a midnight, so ended cycles keep their charges. */
  lemma EveryAnchorIsAMidnight(reports: seq<Report>, items: seq<Item>, now: int, days: int)
    requires days >= 1
    ensures var anchor := CycleAnchor(items, now, Offered(PinnedBy(None, reports), items, now));
            anchor % DAY == 0 && EndedCyclesStay(anchor, days)
  {
    AnchorIsPinnedOnce(None, reports);
    var anchor := CycleAnchor(items, now, Offered(PinnedBy(None, reports), items, now));
    var t :| anchor == DayStart(t);
    MidnightIsWhole(t);
    EndedCyclesStayExactlyWhen(anchor, days);
  }

  lemma MidnightIsWhole(t: int)
    ensures DayStart(t) % DAY == 0
  {
    assert t == t / DAY * DAY + t % DAY;
  }

  lemma DayStartsOrdered(t: int, u: int)
    requires t <= u
    ensures DayStart(t) <= DayStart(u) <= u
  {
    assert t == t / DAY * DAY + t % DAY && u == u / DAY * DAY + u % DAY;
  }

  /** A report that sets its own anchor has no chargeable activation before it. */
  lemma NothingPrecedesItsAnchor(items: seq<Item>, now: int, it: Item)
    requires it in items && Chargeable(it, now)
    ensures CycleAnchor(items, now, None) <= SupportStart(it) <= it.activatedAt.value
  {
    assert HasActivation(items);
    EarliestIsFirst(items);
    DayStartsOrdered(Earliest(items).value, it.activatedAt.value);
  }

  lemma SameElementsSameAnchor(items: seq<Item>, items': seq<Item>, now: int, stored: Option<int>)
    requires multiset(items) == multiset(items')
    ensures CycleAnchor(items, now, stored) == CycleAnchor(items', now, stored)
    ensures Pinned(stored, items, now) == Pinned(stored, items', now)
    ensures Offered(stored, items, now) == Offered(stored, items', now)
  {
    forall it ensures it in items <==> it in items' {
      assert it in items <==> it in multiset(items);
      assert it in items' <==> it in multiset(items');
    }
    if HasActivation(items) {
      EarliestIsFirst(items);
      SameEarliest(items', Earliest(items).value);
    }
  }

  /** A report in which nothing can be charged by now accrues nothing, wherever its cycles start. */
  lemma NothingChargedNothingOwed(s: Settings, c: Context, items: seq<Item>)
    requires c.days >= 1 && forall it :: it in items ==> !Chargeable(it, c.now)
    ensures Accrued(s, c, items) == 0
  {
    var f := CycleTotals(s, c, items);
    forall k ensures f(k) == 0 {
      assert FeeKeys(c, items, k) == {};
      assert SeatKeys(c, items, k) == {};
    }
    SumSame(f, _ => 0, c.Current() + 1);
    ZeroSum(c.Current() + 1);
  }

  /** Least of all does a report without a billable activation. */
  lemma NothingActivatedNothingOwed(s: Settings, c: Context, items: seq<Item>)
    requires c.days >= 1 && !HasActivation(items)
    ensures Accrued(s, c, items) == 0
  {
    NothingChargedNothingOwed(s, c, items);
  }

  lemma {:induction false} ZeroSum(n: int)
    ensures Sum(_ => 0, n) == 0
    decreases n
  {
    if n > 0 {
      ZeroSum(n - 1);
    }
  }
}
