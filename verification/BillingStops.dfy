/** Reports that change between two snapshots: which changes can lower what a partner owes, and which cannot. */
module BillingStops {
  import opened BillingAmounts
  import opened BillingAnchor
  import opened BillingFold
  import opened BillingModel
  import opened Lists
  import opened Numbers
  import opened Options

  function Stopped(it: Item, t: int): Item {
    it.(stoppedAt := Some(t))
  }

  /** Every cycle up to now in which the item is supported is one in which the other is. */
  ghost predicate KeepsSeats(c: Context, it: Item, it': Item)
    requires c.days >= 1 && it.activatedAt.Some? && it'.activatedAt.Some?
  {
    forall k :: 0 <= k <= c.Current() && SupportedIn(it, c.anchor, c.days, k) ==> SupportedIn(it', c.anchor, c.days, k)
  }

  // ---- One stopped item ----

  lemma StoppedEnd(it: Item, t: int, days: int)
    requires it.activatedAt.Some? && it.stoppedAt.None?
    ensures SupportEnd(Stopped(it, t), days) == Min(SupportEnd(it, days), DayStart(t))
  {
    var natural := WindowEnd(it, days).value;
    if t < natural {
      DayStartsOrdered(t, natural);
    } else {
      DayStartsOrdered(natural, t);
    }
  }

  /** The current cycle has begun by the day of any later instant, when cycles begin at midnight. */
  lemma CycleBeginsByDay(c: Context, t: int)
    requires c.days >= 1 && c.anchor % DAY == 0 && c.anchor <= c.now <= t
    ensures c.anchor <= CycleStart(c.anchor, c.days, c.Current()) <= DayStart(t)
    ensures c.now < CycleStart(c.anchor, c.days, c.Current() + 1)
  {
    IndexBounds(c.anchor, c.now, c.days);
    StartsOrdered(c.anchor, c.days, 0, c.Current());
    WholeDays(c.anchor, c.days, c.Current());
    DayStartsOrdered(CycleStart(c.anchor, c.days, c.Current()), t);
  }

  /** The cycle in which the support begins. */
  function FirstCycle(c: Context, it: Item): int
    requires c.days >= 1 && it.activatedAt.Some?
  {
    CycleIndex(c.anchor, SupportStart(it), c.days)
  }

  lemma SupportedFromTheFirst(c: Context, it: Item)
    requires c.days >= 1 && Chargeable(it, c.now)
    requires SupportEnd(it, c.days) > SupportStart(it) && SupportEnd(it, c.days) > c.anchor
    ensures 0 <= FirstCycle(c, it) <= c.Current() && SupportedIn(it, c.anchor, c.days, FirstCycle(c, it))
  {
    var k := FirstCycle(c, it);
    DayStartsOrdered(it.activatedAt.value, it.activatedAt.value);
    IndexNeverFalls(c.anchor, c.days, SupportStart(it), c.now);
    IndexAtMost(c.anchor, SupportStart(it), c.days, k);
    assert CycleStart(c.anchor, c.days, 0) == c.anchor;
  }

  /**
   * The stop falls on no day that matters: behind the window, or on neither the activation's day nor the current
   * cycle's first.
   */
  predicate HarmlessStop(c: Context, it: Item, t: int)
    requires c.days >= 1 && it.activatedAt.Some?
  {
    || SupportEnd(it, c.days) <= DayStart(t)
    || (SupportStart(it) < DayStart(t) && CycleStart(c.anchor, c.days, c.Current()) < DayStart(t))
  }

  lemma HarmlessStopKeepsSeats(c: Context, it: Item, t: int)
    requires c.days >= 1 && it.activatedAt.Some? && it.stoppedAt.None? && HarmlessStop(c, it, t)
    ensures KeepsSeats(c, it, Stopped(it, t))
  {
    StoppedEnd(it, t, c.days);
    forall k | 0 <= k <= c.Current() && SupportedIn(it, c.anchor, c.days, k)
      ensures SupportedIn(Stopped(it, t), c.anchor, c.days, k)
    {
      StartsOrdered(c.anchor, c.days, k, c.Current());
    }
  }

  /** A cycle whose seat a harmful stop takes away. */
  function LostCycle(c: Context, it: Item, t: int): int
    requires c.days >= 1 && it.activatedAt.Some?
  {
    if SupportStart(it) >= DayStart(t) then FirstCycle(c, it) else c.Current()
  }

  lemma HarmfulStopLosesASeat(c: Context, it: Item, t: int)
    requires c.days >= 1 && c.anchor % DAY == 0 && c.anchor <= c.now <= t
    requires Chargeable(it, c.now) && it.stoppedAt.None? && !HarmlessStop(c, it, t)
    ensures var k := LostCycle(c, it, t);
            0 <= k <= c.Current() && SupportedIn(it, c.anchor, c.days, k) &&
              !SupportedIn(Stopped(it, t), c.anchor, c.days, k)
  {
    StoppedEnd(it, t, c.days);
    CycleBeginsByDay(c, t);
    DayStartsOrdered(it.activatedAt.value, t);
    DayStartsOrdered(it.activatedAt.value, it.activatedAt.value);
    SupportedFromTheFirst(c, it);
  }

  /**
   * A stop at `t`, now or later, leaves every seat charged so far exactly when it falls behind the window, or on
   * neither the day of the activation nor the first day of the current cycle.
   */
  lemma StopKeepsSeatsExactlyWhen(c: Context, it: Item, t: int)
    requires c.days >= 1 && c.anchor % DAY == 0 && c.anchor <= c.now <= t
    requires Chargeable(it, c.now) && it.stoppedAt.None?
    ensures KeepsSeats(c, it, Stopped(it, t)) <==> HarmlessStop(c, it, t)
  {
    if HarmlessStop(c, it, t) {
      HarmlessStopKeepsSeats(c, it, t);
    } else {
      HarmfulStopLosesASeat(c, it, t);
    }
  }

  // ---- What a harmful stop costs ----

  lemma {:induction false} SumDrops(f: int -> int, g: int -> int, n: int, j: int)
    requires 0 <= j < n && f(j) < g(j) && forall k :: 0 <= k < n ==> f(k) <= g(k)
    ensures Sum(f, n) < Sum(g, n)
    decreases n
  {
    if j < n - 1 {
      SumDrops(f, g, n - 1, j);
    } else {
      SumAtMost(f, g, n - 1);
    }
  }

  lemma {:induction false} SumAtMost(f: int -> int, g: int -> int, n: int)
    requires forall k :: 0 <= k < n ==> f(k) <= g(k)
    ensures Sum(f, n) <= Sum(g, n)
    decreases n
  {
    if n > 0 {
      SumAtMost(f, g, n - 1);
    }
  }

  lemma OneSeatCosts(s: Settings, users: int)
    requires users >= 0 && Max(0, s.supportFeeSetting) + Max(0, s.infraFeeSetting) > 0
    ensures ChargeForCounts(s, users, 0).total < ChargeForCounts(s, users, 1).total
  {
    UniqueQuotient(s.BlockSize(), s.BlockSize(), 1);
  }

  lemma LoneSeat(c: Context, it: Item, k: int)
    requires c.days >= 1
    ensures FeeKeys(c, [it], k) == if Activates(c, it, k) then {FeeKey(it)} else {}
    ensures SeatKeys(c, [it], k) == if Supports(c, it, k) then {SeatKey(it)} else {}
  {
    assert forall x :: x in [it] <==> x == it;
  }

  /** One item alone costs the fees of its activation and of its seat. */
  lemma LoneBill(s: Settings, c: Context, it: Item, k: int)
    requires c.days >= 1
    ensures Bill(s, c, [it], k)
         == ChargeForCounts(s, if Activates(c, it, k) then 1 else 0, if Supports(c, it, k) then 1 else 0)
  {
    LoneSeat(c, it, k);
  }

  lemma StoppedBill(s: Settings, c: Context, it: Item, t: int, k: int)
    requires c.days >= 1 && c.now <= t && Chargeable(it, c.now) && it.stoppedAt.None?
    ensures Bill(s, Context(c.anchor, c.days, t), [Stopped(it, t)], k).total <= Bill(s, c, [it], k).total
    ensures SupportedIn(it, c.anchor, c.days, k) && !SupportedIn(Stopped(it, t), c.anchor, c.days, k)
              && Max(0, s.supportFeeSetting) + Max(0, s.infraFeeSetting) > 0 ==>
              Bill(s, Context(c.anchor, c.days, t), [Stopped(it, t)], k).total < Bill(s, c, [it], k).total
  {
    var c', it' := Context(c.anchor, c.days, t), Stopped(it, t);
    StoppedEnd(it, t, c.days);
    LoneBill(s, c, it, k);
    LoneBill(s, c', it', k);
    var users := if Activates(c, it, k) then 1 else 0;
    assert Activates(c', it', k) <==> Activates(c, it, k);
    assert Supports(c', it', k) ==> Supports(c, it, k);
    ChargesAreMonotone(s, users, 0, users, 1);
    if Max(0, s.supportFeeSetting) + Max(0, s.infraFeeSetting) > 0 {
      OneSeatCosts(s, users);
    }
  }

  /**
   * A stop on the day of the activation or on the first day of a cycle is still in the cycle of the snapshot before.
   */
  lemma HarmfulStopIsInTheCycle(c: Context, it: Item, t: int)
    requires c.days >= 1 && c.anchor % DAY == 0 && c.anchor <= c.now <= t
    requires Chargeable(it, c.now) && !HarmlessStop(c, it, t)
    ensures CycleIndex(c.anchor, t, c.days) == c.Current()
  {
    var k := c.Current();
    CycleBeginsByDay(c, t);
    DayStartsOrdered(it.activatedAt.value, c.now);
    DayStartsOrdered(c.now, t);
    assert DayStart(t) <= c.now;
    WholeDays(c.anchor, c.days, k + 1);
    NextMidnight(CycleStart(c.anchor, c.days, k + 1), t);
    IndexAtMost(c.anchor, t, c.days, k);
    IndexNeverFalls(c.anchor, c.days, c.now, t);
  }

  lemma NextMidnight(m: int, t: int)
    requires m % DAY == 0 && DayStart(t) < m
    ensures t < m
  {
    assert m == m / DAY * DAY && t == t / DAY * DAY + t % DAY;
  }

  /**
   * So a harmful stop lowers what a report of this item alone accrues, by the time it is made, wherever a seat costs
   * something. Another item with the same seat, or a block that stays in use, can hide it in a larger report.
   */
  lemma HarmfulStopLowersAccrual(s: Settings, c: Context, it: Item, t: int)
    requires c.days >= 1 && c.anchor % DAY == 0 && c.anchor <= c.now <= t
    requires Chargeable(it, c.now) && it.stoppedAt.None? && !HarmlessStop(c, it, t)
    requires Max(0, s.supportFeeSetting) + Max(0, s.infraFeeSetting) > 0
    ensures Accrued(s, Context(c.anchor, c.days, t), [Stopped(it, t)]) < Accrued(s, c, [it])
  {
    var c' := Context(c.anchor, c.days, t);
    var f, g := CycleTotals(s, c', [Stopped(it, t)]), CycleTotals(s, c, [it]);
    var current, lost := c.Current(), LostCycle(c, it, t);
    HarmfulStopIsInTheCycle(c, it, t);
    HarmfulStopLosesASeat(c, it, t);
    forall k ensures f(k) <= g(k) {
      StoppedBill(s, c, it, t, k);
    }
    StoppedBill(s, c, it, t, lost);
    SumDrops(f, g, current + 1, lost);
    TotalsAt(s, c, [it], current);
    TotalsAt(s, c', [Stopped(it, t)], current);
  }

  // ---- Snapshots ----

  /** The item is still there, with its keys, its activation and every seat it was charged for. */
  ghost predicate Carried(c: Context, it: Item, it': Item)
    requires c.days >= 1 && it.activatedAt.Some?
  {
    && FeeKey(it') == FeeKey(it) && SeatKey(it') == SeatKey(it) && it'.activatedAt == it.activatedAt
    && KeepsSeats(c, it, it')
  }

  /** Every item charged so far is carried over; items that are not charged may change as they like. */
  ghost predicate CarriesOver(c: Context, items: seq<Item>, more: seq<Item>)
    requires c.days >= 1
  {
    forall it :: it in items && Chargeable(it, c.now) ==> exists it' :: it' in more && Carried(c, it, it')
  }

  /** Unchanged items and harmlessly stopped ones are carried over. */
  lemma StopsCarryOver(c: Context, items: seq<Item>, more: seq<Item>)
    requires c.days >= 1
    requires forall it :: it in items && Chargeable(it, c.now) ==>
               it in more || (it.stoppedAt.None? && exists t :: HarmlessStop(c, it, t) && Stopped(it, t) in more)
    ensures CarriesOver(c, items, more)
  {
    forall it | it in items && Chargeable(it, c.now) ensures exists it' :: it' in more && Carried(c, it, it') {
      if it in more {
        assert Carried(c, it, it);
      } else {
        var t :| HarmlessStop(c, it, t) && Stopped(it, t) in more;
        HarmlessStopKeepsSeats(c, it, t);
        assert FeeKey(Stopped(it, t)) == FeeKey(it) && SeatKey(Stopped(it, t)) == SeatKey(it);
        assert Carried(c, it, Stopped(it, t));
      }
    }
  }

  lemma CarriedBill(s: Settings, c: Context, items: seq<Item>, more: seq<Item>, later: int, k: int)
    requires c.days >= 1 && c.now <= later && CarriesOver(c, items, more) && 0 <= k <= c.Current()
    ensures 0 <= Bill(s, c, items, k).total <= Bill(s, Context(c.anchor, c.days, later), more, k).total
  {
    var c' := Context(c.anchor, c.days, later);
    SmallerSet(FeeKeys(c, items, k), FeeKeys(c', more, k));
    SmallerSet(SeatKeys(c, items, k), SeatKeys(c', more, k));
    ChargesAreMonotone(s, |FeeKeys(c, items, k)|, |SeatKeys(c, items, k)|, |FeeKeys(c', more, k)|,
                       |SeatKeys(c', more, k)|);
  }

  ghost predicate BillsGrow(s: Settings, c: Context, items: seq<Item>, more: seq<Item>, later: int, n: int)
    requires c.days >= 1
  {
    forall k :: 0 <= k < n ==>
      0 <= Bill(s, c, items, k).total <= Bill(s, Context(c.anchor, c.days, later), more, k).total
  }

  lemma BillsGrowTotals(s: Settings, c: Context, items: seq<Item>, more: seq<Item>, later: int, n: int)
    requires c.days >= 1 && BillsGrow(s, c, items, more, later, n)
    ensures 0 <= TotalBefore(s, c, items, n) <= TotalBefore(s, Context(c.anchor, c.days, later), more, n)
  {
    var f, g := CycleTotals(s, c, items), CycleTotals(s, Context(c.anchor, c.days, later), more);
    forall j | 0 <= j < n ensures 0 <= f(j) <= g(j) {
    }
    SumGrows(f, g, n, n);
  }

  /** The cycles so far are among those of a later snapshot. */
  lemma TotalsAccrue(s: Settings, c: Context, items: seq<Item>, more: seq<Item>, later: int, current: int)
    requires c.days >= 1 && c.now <= later && current == c.Current()
    requires 0 <= TotalBefore(s, c, items, current + 1)
               <= TotalBefore(s, Context(c.anchor, c.days, later), more, current + 1)
    ensures 0 <= Accrued(s, c, items) <= Accrued(s, Context(c.anchor, c.days, later), more)
  {
    var j := CycleIndex(c.anchor, later, c.days);
    IndexNeverFalls(c.anchor, c.days, c.now, later);
    TotalsOnlyGrow(s, c.anchor, c.days, later, later, more, current + 1, j + 1);
    TotalsAt(s, c, items, current);
    TotalsAt(s, Context(c.anchor, c.days, later), more, j);
  }

  /** Where no cycle so far is charged less by a later snapshot, the accrued total is no less. */
  lemma BillsGrowAccrual(s: Settings, c: Context, items: seq<Item>, more: seq<Item>, later: int, current: int)
    requires c.days >= 1 && c.now <= later && current == c.Current()
    requires BillsGrow(s, c, items, more, later, current + 1)
    ensures 0 <= Accrued(s, c, items) <= Accrued(s, Context(c.anchor, c.days, later), more)
  {
    BillsGrowTotals(s, c, items, more, later, current + 1);
    TotalsAccrue(s, c, items, more, later, current);
  }

  /** A later report that carries over every charged item accrues no less. */
  lemma CarriedAccrual(s: Settings, c: Context, items: seq<Item>, more: seq<Item>, later: int)
    requires c.days >= 1 && c.now <= later && CarriesOver(c, items, more)
    ensures 0 <= Accrued(s, c, items) <= Accrued(s, Context(c.anchor, c.days, later), more)
  {
    forall k | 0 <= k <= c.Current()
      ensures 0 <= Bill(s, c, items, k).total <= Bill(s, Context(c.anchor, c.days, later), more, k).total
    {
      CarriedBill(s, c, items, more, later, k);
    }
    BillsGrowAccrual(s, c, items, more, later, c.Current());
  }

  // ---- One stop in any report ----

  /** A later report shows the stop: every other item is still there, and there may be more. */
  ghost predicate ShowsStop(items: seq<Item>, more: seq<Item>, it: Item, t: int) {
    it in items && Stopped(it, t) in more && forall other :: other in items && other != it ==> other in more
  }

  /** In no report does the stop, by the time it is made, lower what is accrued. */
  ghost predicate NeverLowers(s: Settings, c: Context, it: Item, t: int)
    requires c.days >= 1
  {
    forall items: seq<Item>, more: seq<Item> :: ShowsStop(items, more, it, t) ==>
      Accrued(s, c, items) <= Accrued(s, Context(c.anchor, c.days, t), more)
  }

  predicate SeatsAreFree(s: Settings) {
    s.supportFeeSetting <= 0 && s.infraFeeSetting <= 0
  }

  /** Then only activations are charged, which a stop leaves alone. */
  lemma FreeSeatsCharge(s: Settings, users: int, seats: int, users': int, seats': int)
    requires SeatsAreFree(s) && 0 <= users <= users'
    ensures 0 <= ChargeForCounts(s, users, seats).total <= ChargeForCounts(s, users', seats').total
  {
    ChargesAreMonotone(s, users, 0, users', 0);
  }

  lemma StopKeepsFee(c: Context, items: seq<Item>, more: seq<Item>, it: Item, t: int, k: int, other: Item)
    requires c.days >= 1 && c.now <= t && ShowsStop(items, more, it, t) && other in items && Activates(c, other, k)
    ensures FeeKey(other) in FeeKeys(Context(c.anchor, c.days, t), more, k)
  {
    var kept := if other == it then Stopped(it, t) else other;
    assert kept in more && Activates(Context(c.anchor, c.days, t), kept, k) && FeeKey(kept) == FeeKey(other);
  }

  lemma FreeSeatsBill(s: Settings, c: Context, items: seq<Item>, more: seq<Item>, it: Item, t: int, k: int)
    requires c.days >= 1 && c.now <= t && SeatsAreFree(s) && ShowsStop(items, more, it, t)
    ensures 0 <= Bill(s, c, items, k).total <= Bill(s, Context(c.anchor, c.days, t), more, k).total
  {
    var c' := Context(c.anchor, c.days, t);
    var users, users' := FeeKeys(c, items, k), FeeKeys(c', more, k);
    forall other | other in items && Activates(c, other, k) ensures FeeKey(other) in users' {
      StopKeepsFee(c, items, more, it, t, k, other);
    }
    SmallerSet(users, users');
    FreeSeatsCharge(s, |users|, |SeatKeys(c, items, k)|, |users'|, |SeatKeys(c', more, k)|);
  }

  /**
   * A stop lowers what is accrued in no report, exactly when the item is not charged, its seat is free or the stop
   * harmless.
   */
  lemma StopNeverLowersExactlyWhen(s: Settings, c: Context, it: Item, t: int)
    requires c.days >= 1 && c.anchor % DAY == 0 && c.anchor <= c.now <= t && it.stoppedAt.None?
    ensures NeverLowers(s, c, it, t) <==> !Chargeable(it, c.now) || SeatsAreFree(s) || HarmlessStop(c, it, t)
  {
    if !Chargeable(it, c.now) || SeatsAreFree(s) || HarmlessStop(c, it, t) {
      forall items: seq<Item>, more: seq<Item> | ShowsStop(items, more, it, t)
        ensures Accrued(s, c, items) <= Accrued(s, Context(c.anchor, c.days, t), more)
      {
        StopLowersNothing(s, c, items, more, it, t);
      }
    } else {
      HarmfulStopLowersAccrual(s, c, it, t);
      assert ShowsStop([it], [Stopped(it, t)], it, t);
    }
  }

  lemma StopLowersNothing(s: Settings, c: Context, items: seq<Item>, more: seq<Item>, it: Item, t: int)
    requires c.days >= 1 && c.now <= t && it.stoppedAt.None? && ShowsStop(items, more, it, t)
    requires !Chargeable(it, c.now) || SeatsAreFree(s) || HarmlessStop(c, it, t)
    ensures Accrued(s, c, items) <= Accrued(s, Context(c.anchor, c.days, t), more)
  {
    if SeatsAreFree(s) {
      forall k | 0 <= k <= c.Current()
        ensures 0 <= Bill(s, c, items, k).total <= Bill(s, Context(c.anchor, c.days, t), more, k).total
      {
        FreeSeatsBill(s, c, items, more, it, t, k);
      }
      BillsGrowAccrual(s, c, items, more, t, c.Current());
    } else {
      StopsCarryOver(c, items, more);
      CarriedAccrual(s, c, items, more, t);
    }
  }

  // ---- Snapshots of a partner ----

  /** The context of one snapshot of a partner. */
  function SnapshotContext(s: Settings, stored: Option<int>, items: seq<Item>, now: int): (c: Context)
    ensures c.days >= 1 && c.now == now
  {
    Context(CycleAnchor(items, now, Offered(stored, items, now)), s.CycleDays(), now)
  }

  /**
   * Two snapshots of a partner, pinning included: if the later report carries over every item charged by the earlier
   * one, the accrued total does not fall.
   */
  lemma SnapshotsNeverAccrueLess(s: Settings, stored: Option<int>, items: seq<Item>, now: int, more: seq<Item>,
                                 later: int)
    requires now <= later && CarriesOver(SnapshotContext(s, stored, items, now), items, more)
    ensures 0 <= Accrued(s, SnapshotContext(s, stored, items, now), items)
              <= Accrued(s, SnapshotContext(s, Pinned(stored, items, now), more, later), more)
  {
    var c, c' := SnapshotContext(s, stored, items, now), SnapshotContext(s, Pinned(stored, items, now), more, later);
    AccrualNeverFalls(s, c'.anchor, c'.days, later, later, more);
    if it :| it in items && Chargeable(it, now) {
      var it' :| it' in more && Carried(c, it, it');
      assert Billable(it) && Billable(it');
      assert c'.anchor == c.anchor;
      CarriedAccrual(s, c, items, more, later);
    } else {
      NothingChargedNothingOwed(s, c, items);
    }
  }
}
