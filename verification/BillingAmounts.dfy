/** What a partner owes: totals over cycles, how they depend on the report and on time, and how payments settle them. */
module BillingAmounts {
  import opened BillingFold
  import opened BillingModel
  import opened Lists
  import opened Numbers
  import opened Options

  /** The charge of cycle `k`, from the report alone: distinct fee keys activated, distinct seats supported. */
  function Bill(s: Settings, c: Context, items: seq<Item>, k: int): Charge
    requires c.days >= 1
  {
    ChargeForCounts(s, |FeeKeys(c, items, k)|, |SeatKeys(c, items, k)|)
  }

  function Sum(f: int -> int, n: int): int
    decreases n
  {
    if n <= 0 then 0 else Sum(f, n - 1) + f(n - 1)
  }

  lemma {:induction false} SumGrows(f: int -> int, g: int -> int, n: int, m: int)
    requires n <= m && forall k :: 0 <= k < m ==> 0 <= f(k) <= g(k)
    ensures 0 <= Sum(f, n) <= Sum(g, m)
    decreases m
  {
    if m > 0 {
      assert 0 <= f(m - 1) <= g(m - 1);
      SumGrows(f, g, if n == m then n - 1 else n, m - 1);
    }
  }

  lemma {:induction false} SumSame(f: int -> int, g: int -> int, n: int)
    requires forall k :: 0 <= k < n ==> f(k) == g(k)
    ensures Sum(f, n) == Sum(g, n)
    decreases n
  {
    if n > 0 {
      SumSame(f, g, n - 1);
    }
  }

  function CycleTotals(s: Settings, c: Context, items: seq<Item>): int -> int
    requires c.days >= 1
  {
    k => Bill(s, c, items, k).total
  }

  /** The charges of the first `n` cycles. */
  function TotalBefore(s: Settings, c: Context, items: seq<Item>, n: int): int
    requires c.days >= 1
  {
    Sum(CycleTotals(s, c, items), n)
  }

  function Accrued(s: Settings, c: Context, items: seq<Item>): int
    requires c.days >= 1
  {
    TotalBefore(s, c, items, c.Current() + 1)
  }

  function Previous(s: Settings, c: Context, items: seq<Item>): int
    requires c.days >= 1
  {
    TotalBefore(s, c, items, c.Current())
  }

  /** The two totals, once the current cycle is known. */
  lemma TotalsAt(s: Settings, c: Context, items: seq<Item>, current: int)
    requires c.days >= 1 && current == c.Current()
    ensures Accrued(s, c, items) == TotalBefore(s, c, items, current + 1)
    ensures Previous(s, c, items) == TotalBefore(s, c, items, current)
  {
  }

  function CurrentCharge(s: Settings, c: Context, items: seq<Item>): Charge
    requires c.days >= 1
  {
    Bill(s, c, items, c.Current())
  }

  function Due(total: int, paid: int): int {
    Max(0, total - Max(0, paid))
  }

  // ---- The order of the report does not matter ----

  lemma OrderIsIrrelevant(s: Settings, c: Context, items: seq<Item>, items': seq<Item>, k: int)
    requires c.days >= 1
    requires forall it :: it in items <==> it in items'
    ensures Bill(s, c, items, k) == Bill(s, c, items', k)
  {
    assert FeeKeys(c, items, k) == FeeKeys(c, items', k);
    assert SeatKeys(c, items, k) == SeatKeys(c, items', k);
  }

  /** Any permutation of the report gives the same cycle charges and the same totals. */
  lemma PermutationKeepsTheBill(s: Settings, c: Context, items: seq<Item>, items': seq<Item>)
    requires c.days >= 1
    requires multiset(items) == multiset(items')
    ensures Accrued(s, c, items) == Accrued(s, c, items') && Previous(s, c, items) == Previous(s, c, items')
    ensures forall k :: Bill(s, c, items, k) == Bill(s, c, items', k)
  {
    forall it ensures it in items <==> it in items' {
      assert it in items <==> it in multiset(items);
      assert it in items' <==> it in multiset(items');
    }
    forall k ensures Bill(s, c, items, k) == Bill(s, c, items', k) {
      OrderIsIrrelevant(s, c, items, items', k);
    }
    SumSame(CycleTotals(s, c, items), CycleTotals(s, c, items'), c.Current() + 1);
    SumSame(CycleTotals(s, c, items), CycleTotals(s, c, items'), c.Current());
  }

  // ---- Time ----

  lemma BillOnlyGrows(s: Settings, anchor: int, days: int, now: int, later: int, items: seq<Item>, k: int)
    requires days >= 1 && now <= later
    ensures 0 <= Bill(s, Context(anchor, days, now), items, k).total <=
            Bill(s, Context(anchor, days, later), items, k).total
  {
    var c, c' := Context(anchor, days, now), Context(anchor, days, later);
    SmallerSet(FeeKeys(c, items, k), FeeKeys(c', items, k));
    SmallerSet(SeatKeys(c, items, k), SeatKeys(c', items, k));
    ChargesAreMonotone(s, |FeeKeys(c, items, k)|, |SeatKeys(c, items, k)|, |FeeKeys(c', items, k)|,
                       |SeatKeys(c', items, k)|);
  }

  lemma TotalsOnlyGrow(s: Settings, anchor: int, days: int, now: int, later: int, items: seq<Item>, n: int, m: int)
    requires days >= 1 && now <= later && n <= m
    ensures 0 <= TotalBefore(s, Context(anchor, days, now), items, n) <=
            TotalBefore(s, Context(anchor, days, later), items, m)
  {
    var f, g := CycleTotals(s, Context(anchor, days, now), items), CycleTotals(s, Context(anchor, days, later), items);
    forall k ensures 0 <= f(k) <= g(k) {
      BillOnlyGrows(s, anchor, days, now, later, items, k);
    }
    SumGrows(f, g, n, m);
  }

  lemma IndexNeverFalls(anchor: int, days: int, now: int, later: int)
    requires days >= 1 && now <= later
    ensures CycleIndex(anchor, now, days) <= CycleIndex(anchor, later, days)
  {
    var k := CycleIndex(anchor, later, days);
    IndexAtMost(anchor, later, days, k);
    IndexAtMost(anchor, now, days, k);
  }

  /** For a fixed report and a pinned anchor, what is accrued never falls as time passes. */
  lemma AccrualNeverFalls(s: Settings, anchor: int, days: int, now: int, later: int, items: seq<Item>)
    requires days >= 1 && now <= later
    ensures 0 <= Accrued(s, Context(anchor, days, now), items) <= Accrued(s, Context(anchor, days, later), items)
  {
    var k, j := CycleIndex(anchor, now, days), CycleIndex(anchor, later, days);
    IndexNeverFalls(anchor, days, now, later);
    TotalsOnlyGrow(s, anchor, days, now, later, items, k + 1, j + 1);
    TotalsAt(s, Context(anchor, days, now), items, k);
    TotalsAt(s, Context(anchor, days, later), items, j);
  }

  lemma MoreItemsCostNoLess(s: Settings, c: Context, items: seq<Item>, more: seq<Item>, k: int)
    requires c.days >= 1 && forall it :: it in items ==> it in more
    ensures 0 <= Bill(s, c, items, k).total <= Bill(s, c, more, k).total
  {
    SmallerSet(FeeKeys(c, items, k), FeeKeys(c, more, k));
    SmallerSet(SeatKeys(c, items, k), SeatKeys(c, more, k));
    ChargesAreMonotone(s, |FeeKeys(c, items, k)|, |SeatKeys(c, items, k)|, |FeeKeys(c, more, k)|,
                       |SeatKeys(c, more, k)|);
  }

  /** A report that only gains items accrues no less. */
  lemma AccrualGrowsWithTheReport(s: Settings, c: Context, items: seq<Item>, more: seq<Item>)
    requires c.days >= 1 && forall it :: it in items ==> it in more
    ensures 0 <= Accrued(s, c, items) <= Accrued(s, c, more)
  {
    var f, g := CycleTotals(s, c, items), CycleTotals(s, c, more);
    forall k ensures 0 <= f(k) <= g(k) {
      MoreItemsCostNoLess(s, c, items, more, k);
    }
    SumGrows(f, g, c.Current() + 1, c.Current() + 1);
  }

  // ---- What one more item adds ----

  lemma NewUserCosts(s: Settings, users: nat, support: nat, support': nat)
    requires support <= support'
    ensures ChargeForCounts(s, users + 1, support').total
         >= ChargeForCounts(s, users, support).total + Max(0, s.userFeeSetting)
    ensures support' == support ==>
              ChargeForCounts(s, users + 1, support').total
              == ChargeForCounts(s, users, support).total + Max(0, s.userFeeSetting)
  {
    OneMoreUser(s, users, support');
    ChargesAreMonotone(s, users, support, users, support');
  }

  /** The cycle in which the item's fee unit is activated. */
  function FeeCycle(c: Context, it: Item): int
    requires c.days >= 1 && it.activatedAt.Some?
  {
    CycleIndex(c.anchor, it.activatedAt.value, c.days)
  }

  /** The keys of a report that gains an item. */
  lemma KeysWithItem(c: Context, items: seq<Item>, it: Item, k: int)
    requires c.days >= 1
    ensures FeeKeys(c, items + [it], k) == FeeKeys(c, items, k) + if Activates(c, it, k) then {FeeKey(it)} else {}
    ensures SeatKeys(c, items + [it], k) == SeatKeys(c, items, k) + if Supports(c, it, k) then {SeatKey(it)} else {}
  {
    assert forall x :: x in items + [it] <==> x in items || x == it;
  }

  /** In no cycle does the item bring a seat that was not there. */
  ghost predicate BringsNoSeat(c: Context, items: seq<Item>, it: Item)
    requires c.days >= 1
  {
    forall k :: Supports(c, it, k) ==> SeatKey(it) in SeatKeys(c, items, k)
  }

  lemma ChargeWithKey(s: Settings, users: set<string>, key: string, isNew: bool, seats: set<string>,
                      seats': set<string>)
    requires seats <= seats' && (isNew ==> key !in users)
    ensures var users', fee := users + (if isNew then {key} else {}), if isNew then Max(0, s.userFeeSetting) else 0;
            var before, after := ChargeForCounts(s, |users|, |seats|), ChargeForCounts(s, |users'|, |seats'|);
            && after.total >= before.total + fee
            && (seats' == seats ==> after.total == before.total + fee)
  {
    SmallerSet(seats, seats');
    if isNew {
      assert |users + {key}| == |users| + 1;
      NewUserCosts(s, |users|, |seats|, |seats'|);
    } else {
      assert users + {} == users;
      ChargesAreMonotone(s, |users|, |seats|, |users|, |seats'|);
    }
  }

  lemma NewFeeBill(s: Settings, c: Context, items: seq<Item>, it: Item, k: int)
    requires c.days >= 1 && Chargeable(it, c.now) && FeeKey(it) !in FeeKeys(c, items, FeeCycle(c, it))
    ensures Bill(s, c, items + [it], k).total
         >= Bill(s, c, items, k).total + if k == FeeCycle(c, it) then Max(0, s.userFeeSetting) else 0
    ensures SeatKeys(c, items + [it], k) == SeatKeys(c, items, k) ==>
              Bill(s, c, items + [it], k).total
              == Bill(s, c, items, k).total + if k == FeeCycle(c, it) then Max(0, s.userFeeSetting) else 0
  {
    KeysWithItem(c, items, it, k);
    ChargeWithKey(s, FeeKeys(c, items, k), FeeKey(it), k == FeeCycle(c, it), SeatKeys(c, items, k),
                  SeatKeys(c, items + [it], k));
  }

  lemma NoSeatNoNewKeys(c: Context, items: seq<Item>, it: Item, k: int)
    requires c.days >= 1 && BringsNoSeat(c, items, it)
    ensures SeatKeys(c, items + [it], k) == SeatKeys(c, items, k)
  {
    KeysWithItem(c, items, it, k);
  }

  lemma {:induction false} SumWithExtra(f: int -> int, g: int -> int, n: int, j: int, extra: int, exact: bool)
    requires 0 <= j
    requires forall k :: g(k) >= f(k) + (if k == j then extra else 0)
    requires exact ==> forall k :: g(k) == f(k) + if k == j then extra else 0
    ensures Sum(g, n) >= Sum(f, n) + (if j < n then extra else 0)
    ensures exact ==> Sum(g, n) == Sum(f, n) + if j < n then extra else 0
    decreases n
  {
    if n > 0 {
      SumWithExtra(f, g, n - 1, j, extra, exact);
    }
  }

  /** A report that gains an item with a new fee key accrues at least one user fee more. */
  lemma NewFeeKeyCosts(s: Settings, c: Context, items: seq<Item>, it: Item)
    requires c.days >= 1 && it.activatedAt.Some? && it.activatedAt.value <= c.now
    requires FeeKey(it) != "" && SeatKey(it) != "" && FeeKey(it) !in FeeKeys(c, items, FeeCycle(c, it))
    ensures Accrued(s, c, items + [it]) >= Accrued(s, c, items) + Max(0, s.userFeeSetting)
  {
    var f, g := CycleTotals(s, c, items), CycleTotals(s, c, items + [it]);
    forall k ensures g(k) >= f(k) + if k == FeeCycle(c, it) then Max(0, s.userFeeSetting) else 0 {
      NewFeeBill(s, c, items, it, k);
    }
    IndexNeverFalls(c.anchor, c.days, it.activatedAt.value, c.now);
    SumWithExtra(f, g, c.Current() + 1, FeeCycle(c, it), Max(0, s.userFeeSetting), false);
  }

  /** And exactly that, when the item brings no seat to any cycle. */
  lemma NewFeeKeyAlone(s: Settings, c: Context, items: seq<Item>, it: Item)
    requires c.days >= 1 && it.activatedAt.Some? && it.activatedAt.value <= c.now
    requires FeeKey(it) != "" && SeatKey(it) != "" && FeeKey(it) !in FeeKeys(c, items, FeeCycle(c, it))
    requires BringsNoSeat(c, items, it)
    ensures Accrued(s, c, items + [it]) == Accrued(s, c, items) + Max(0, s.userFeeSetting)
  {
    var f, g := CycleTotals(s, c, items), CycleTotals(s, c, items + [it]);
    forall k ensures g(k) == f(k) + if k == FeeCycle(c, it) then Max(0, s.userFeeSetting) else 0 {
      NewFeeBill(s, c, items, it, k);
      NoSeatNoNewKeys(c, items, it, k);
    }
    IndexNeverFalls(c.anchor, c.days, it.activatedAt.value, c.now);
    SumWithExtra(f, g, c.Current() + 1, FeeCycle(c, it), Max(0, s.userFeeSetting), true);
  }

  ghost predicate SameKeys(c: Context, items: seq<Item>, more: seq<Item>, k: int)
    requires c.days >= 1
  {
    FeeKeys(c, items, k) == FeeKeys(c, more, k) && SeatKeys(c, items, k) == SeatKeys(c, more, k)
  }

  lemma SameKeysSameBill(s: Settings, c: Context, items: seq<Item>, more: seq<Item>, k: int)
    requires c.days >= 1 && SameKeys(c, items, more, k)
    ensures CycleTotals(s, c, items)(k) == CycleTotals(s, c, more)(k)
  {
  }

  lemma SameKeysSameTotals(s: Settings, c: Context, items: seq<Item>, more: seq<Item>, n: int)
    requires c.days >= 1 && forall k :: SameKeys(c, items, more, k)
    ensures TotalBefore(s, c, items, n) == TotalBefore(s, c, more, n)
  {
    var f, g := CycleTotals(s, c, items), CycleTotals(s, c, more);
    forall k ensures f(k) == g(k) {
      SameKeysSameBill(s, c, items, more, k);
    }
    SumSame(f, g, n);
  }

  /**
   * An item adds nothing when it lacks a key or an activation by now, or when its fee unit is charged in the cycle
   * already and it brings no seat.
   */
  lemma KnownItemCostsNothing(s: Settings, c: Context, items: seq<Item>, it: Item)
    requires c.days >= 1
    requires FeeKey(it) == "" || SeatKey(it) == "" || it.activatedAt.None? || it.activatedAt.value > c.now ||
             (FeeKey(it) in FeeKeys(c, items, FeeCycle(c, it)) && BringsNoSeat(c, items, it))
    ensures Accrued(s, c, items + [it]) == Accrued(s, c, items)
  {
    forall k ensures SameKeys(c, items + [it], items, k) {
      KeysWithItem(c, items, it, k);
    }
    SameKeysSameTotals(s, c, items + [it], items, c.Current() + 1);
  }

  // ---- Ended cycles ----

  /** Once a cycle has ended, its keys are the same at every later time. */
  ghost predicate EndedCyclesStay(anchor: int, days: int)
    requires days >= 1
  {
    forall items, k, now, later | now <= later && 0 <= k < Context(anchor, days, now).Current() ::
      && FeeKeys(Context(anchor, days, now), items, k) == FeeKeys(Context(anchor, days, later), items, k)
      && SeatKeys(Context(anchor, days, now), items, k) == SeatKeys(Context(anchor, days, later), items, k)
  }

  /** The anchor is a midnight, or the last microsecond before one. */
  predicate OnDayBoundary(anchor: int) {
    anchor % DAY == 0 || anchor % DAY == DAY - 1
  }

  lemma WholeDays(anchor: int, days: int, k: int)
    ensures CycleStart(anchor, days, k) % DAY == anchor % DAY
  {
    var n := k * days;
    assert k * (days * DAY) == n * DAY by { assert k * (days * DAY) == (k * days) * DAY; }
    assert CycleStart(anchor, days, k) == anchor + n * DAY;
  }

  /** On a day boundary, what starts after a cycle's end starts on a later day. */
  lemma LaterActivationsStartLater(anchor: int, days: int, k: int, t: int)
    requires days >= 1 && OnDayBoundary(anchor) && t > CycleStart(anchor, days, k)
    ensures DayStart(t) >= CycleStart(anchor, days, k)
  {
    var e := CycleStart(anchor, days, k);
    WholeDays(anchor, days, k);
    assert t == t / DAY * DAY + t % DAY && e == e / DAY * DAY + e % DAY;
    assert t / DAY >= e / DAY;
  }

  lemma EndedCycleStays(anchor: int, days: int, items: seq<Item>, k: int, now: int, later: int)
    requires days >= 1 && OnDayBoundary(anchor) && now <= later && 0 <= k < Context(anchor, days, now).Current()
    ensures FeeKeys(Context(anchor, days, now), items, k) == FeeKeys(Context(anchor, days, later), items, k)
    ensures SeatKeys(Context(anchor, days, now), items, k) == SeatKeys(Context(anchor, days, later), items, k)
  {
    var c, c' := Context(anchor, days, now), Context(anchor, days, later);
    IndexAtMost(anchor, now, days, k);
    forall it | it in items && Activates(c', it, k) ensures Activates(c, it, k) {
      IndexAtMost(anchor, it.activatedAt.value, days, k);
    }
    forall it | it in items && Supports(c', it, k) ensures Supports(c, it, k) {
      if it.activatedAt.value > now {
        LaterActivationsStartLater(anchor, days, k + 1, it.activatedAt.value);
      }
    }
  }

  /** So the charge of an ended cycle is final. */
  lemma EndedChargeIsFinal(s: Settings, anchor: int, days: int, items: seq<Item>, k: int, now: int, later: int)
    requires days >= 1 && OnDayBoundary(anchor) && now <= later && 0 <= k < Context(anchor, days, now).Current()
    ensures Bill(s, Context(anchor, days, now), items, k) == Bill(s, Context(anchor, days, later), items, k)
  {
    EndedCycleStays(anchor, days, items, k, now, later);
  }

  /** An item activated one microsecond after the first cycle, for a day. */
  function LateItem(anchor: int, days: int): Item {
    var t := CycleStart(anchor, days, 1) + 1;
    Item("u", "", "", "", "", "b", "", "", Some(t), Some(t + DAY), None, None)
  }

  lemma LateItemJoins(anchor: int, days: int)
    requires days >= 1 && !OnDayBoundary(anchor)
    ensures var e := CycleStart(anchor, days, 1);
            && Context(anchor, days, e).Current() == 1
            && SeatKeys(Context(anchor, days, e), [LateItem(anchor, days)], 0) == {}
            && SeatKeys(Context(anchor, days, e + 1), [LateItem(anchor, days)], 0) != {}
  {
    var e, it := CycleStart(anchor, days, 1), LateItem(anchor, days);
    WholeDays(anchor, days, 1);
    StartsOrdered(anchor, days, 0, 1);
    StartsOrdered(anchor, days, 1, 2);
    StartsOrdered(anchor, days, 2, 1);
    assert CycleStart(anchor, days, 0) == anchor;
    IndexAtMost(anchor, e, days, 1);
    assert (e + 1) % DAY == e % DAY + 1 && (e + 1 + DAY) % DAY == e % DAY + 1 by {
      assert e == e / DAY * DAY + e % DAY;
    }
    assert Supports(Context(anchor, days, e + 1), it, 0);
    assert SeatKey(it) in SeatKeys(Context(anchor, days, e + 1), [it], 0);
  }

  /**
   * Ended cycles keep their charges exactly when the anchor is on a day boundary, as every anchor the code makes is.
   */
  lemma EndedCyclesStayExactlyWhen(anchor: int, days: int)
    requires days >= 1
    ensures EndedCyclesStay(anchor, days) <==> OnDayBoundary(anchor)
  {
    if OnDayBoundary(anchor) {
      forall items, k, now, later | now <= later && 0 <= k < Context(anchor, days, now).Current()
        ensures FeeKeys(Context(anchor, days, now), items, k) == FeeKeys(Context(anchor, days, later), items, k)
        ensures SeatKeys(Context(anchor, days, now), items, k) == SeatKeys(Context(anchor, days, later), items, k)
      {
        EndedCycleStays(anchor, days, items, k, now, later);
      }
    } else {
      LateItemJoins(anchor, days);
      var e, items := CycleStart(anchor, days, 1), [LateItem(anchor, days)];
      assert SeatKeys(Context(anchor, days, e), items, 0) != SeatKeys(Context(anchor, days, e + 1), items, 0);
    }
  }

  // ---- Payments ----

  /** Payments settle the older cycles first. */
  lemma PaymentsSettleOlderFirst(s: Settings, c: Context, items: seq<Item>, paid: int)
    requires c.days >= 1
    ensures var previous, current := Previous(s, c, items), CurrentCharge(s, c, items).total;
            var previousDue, due := Due(previous, paid), Due(Accrued(s, c, items), paid);
            && Accrued(s, c, items) == previous + current
            && previousDue <= due <= previousDue + current
            && due == previousDue + Max(0, current - Max(0, Max(0, paid) - previous))
  {
    BillOnlyGrows(s, c.anchor, c.days, c.now, c.now, items, c.Current());
    TotalsOnlyGrow(s, c.anchor, c.days, c.now, c.now, items, c.Current(), c.Current());
  }
}
