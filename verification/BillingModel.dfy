/**
 * Partner billing: items of the token report, the keys that deduplicate charges, and the arithmetic of cycles.
 * Times are local wall-clock microseconds since 1 January of year 1. Identifier fields hold the text left after
 * trimming and lower-casing, "" when there is none.
 */
module BillingModel {
  import opened Numbers
  import opened Options

  const SECOND := 1_000_000
  const DAY := 86_400_000_000

  datatype Item = Item(
    boundUserId: string, redeemedByTelegramId: string, boundAccountId: string, tokenId: string, entitlementId: string,
    botCode: string, deploymentId: string, boundDeploymentId: string,
    activatedAt: Option<int>, naturalEndAt: Option<int>, durationDays: Option<int>, stoppedAt: Option<int>)

  datatype Settings = Settings(
    cycleDaysSetting: int, blockSizeSetting: int, userFeeSetting: int, supportFeeSetting: int, infraFeeSetting: int)
  {
    function CycleDays(): (r: int)
      ensures r >= 1
    {
      Max(1, OrDefault(cycleDaysSetting, 30))
    }

    function BlockSize(): (r: int)
      ensures r >= 1
    {
      Max(1, OrDefault(blockSizeSetting, 15))
    }
  }

  /** Positive settings are used as they are, missing ones stand for 30 days and 15 users, negative ones for one. */
  lemma SettingsAreConfigured(s: Settings)
    ensures s.cycleDaysSetting > 0 ==> s.CycleDays() == s.cycleDaysSetting
    ensures s.blockSizeSetting > 0 ==> s.BlockSize() == s.blockSizeSetting
    ensures s.cycleDaysSetting == 0 ==> s.CycleDays() == 30
    ensures s.blockSizeSetting == 0 ==> s.BlockSize() == 15
    ensures s.cycleDaysSetting < 0 ==> s.CycleDays() == 1
    ensures s.blockSizeSetting < 0 ==> s.BlockSize() == 1
  {
  }

  // ---- Keys ----

  function UserKey(it: Item): string {
    if it.boundUserId != "" then "bound_user_id:" + it.boundUserId
    else if it.redeemedByTelegramId != "" then "redeemed_by_telegram_id:" + it.redeemedByTelegramId
    else if it.boundAccountId != "" then "bound_account_id:" + it.boundAccountId
    else if it.tokenId != "" then "token_id:" + it.tokenId
    else ""
  }

  function FeeKey(it: Item): string {
    if it.entitlementId != "" then "entitlement_id:" + it.entitlementId
    else if it.tokenId != "" then "token_id:" + it.tokenId
    else UserKey(it)
  }

  function SeatKey(it: Item): string {
    var bot := ":bot:" + it.botCode;
    if it.boundUserId != "" && it.botCode != "" then "bound_user_id:" + it.boundUserId + bot
    else if it.redeemedByTelegramId != "" && it.botCode != ""
    then "redeemed_by_telegram_id:" + it.redeemedByTelegramId + bot
    else if it.boundAccountId != "" && it.botCode != "" then "bound_account_id:" + it.boundAccountId + bot
    else if it.deploymentId != "" then "deployment_id:" + it.deploymentId
    else if it.boundDeploymentId != "" then "bound_deployment_id:" + it.boundDeploymentId
    else if UserKey(it) != "" && it.botCode != "" then UserKey(it) + bot
    else UserKey(it)
  }

  // ---- Cycles ----

  function DayStart(t: int): int {
    t - t % DAY
  }

  function CycleLength(days: int): int {
    days * DAY
  }

  /** `_cycle_index_for_dt`: whole seconds since the anchor, divided by the seconds of a cycle. */
  function CycleIndex(anchor: int, value: int, days: int): (k: int)
    requires days >= 1
    ensures k >= 0
  {
    var seconds := if value > anchor then (value - anchor) / SECOND else 0;
    DivisionBounds(seconds, days * 86_400);
    seconds / (days * 86_400)
  }

  function CycleStart(anchor: int, days: int, k: int): int {
    anchor + k * CycleLength(days)
  }

  lemma DivisionBounds(x: int, d: int)
    requires x >= 0 && d >= 1
    ensures x / d * d <= x < x / d * d + d
    ensures x / d >= 0
  {
    assert x == x / d * d + x % d;
  }

  lemma Monotone(a: int, b: int, c: int)
    requires a <= b && c >= 0
    ensures a * c <= b * c
  {
  }

  lemma UniqueQuotient(x: int, d: int, k: int)
    requires d >= 1 && k >= 0 && k * d <= x < (k + 1) * d
    ensures x / d == k
  {
    DivisionBounds(x, d);
    var q := x / d;
    if q < k {
      Monotone(q + 1, k, d);
    } else if q > k {
      Monotone(k + 1, q, d);
    }
  }

  /** An instant from the anchor on lies in exactly the cycle with its index. */
  lemma IndexBounds(anchor: int, value: int, days: int)
    requires days >= 1 && value >= anchor
    ensures var k := CycleIndex(anchor, value, days);
            CycleStart(anchor, days, k) <= value < CycleStart(anchor, days, k + 1)
  {
    var x := value - anchor;
    var s := x / SECOND;
    var per := days * 86_400;
    var k := CycleIndex(anchor, value, days);
    assert k == s / per;
    DivisionBounds(x, SECOND);
    DivisionBounds(s, per);
    Scaled(k, per);
    Scaled(k + 1, per);
    assert per * SECOND == CycleLength(days);
  }

  lemma Scaled(k: int, per: int)
    ensures k * (per * SECOND) == k * per * SECOND
  {
  }

  /** Cycle starts are ordered like their indices. */
  lemma StartsOrdered(anchor: int, days: int, j: int, k: int)
    requires days >= 1
    ensures j <= k <==> CycleStart(anchor, days, j) <= CycleStart(anchor, days, k)
  {
    var c := CycleLength(days);
    if j <= k {
      Monotone(j, k, c);
    } else {
      Monotone(k + 1, j, c);
      assert (k + 1) * c == k * c + c;
    }
  }

  /** The index is at most `k` exactly when the instant lies before the end of cycle `k`. */
  lemma IndexAtMost(anchor: int, value: int, days: int, k: int)
    requires days >= 1 && k >= 0
    ensures CycleIndex(anchor, value, days) <= k <==> value < CycleStart(anchor, days, k + 1)
    ensures CycleIndex(anchor, value, days) >= k <==> k == 0 || CycleStart(anchor, days, k) <= value
  {
    StartsOrdered(anchor, days, 0, k);
    assert CycleStart(anchor, days, 0) == anchor;
    assert CycleStart(anchor, days, k + 1) == CycleStart(anchor, days, k) + CycleLength(days);
    if value >= anchor {
      var i := CycleIndex(anchor, value, days);
      IndexBounds(anchor, value, days);
      StartsOrdered(anchor, days, i + 1, k + 1);
      StartsOrdered(anchor, days, i + 1, k);
      StartsOrdered(anchor, days, k + 1, i);
      StartsOrdered(anchor, days, k, i);
    } else {
      assert CycleIndex(anchor, value, days) == 0;
    }
  }

  // ---- Support windows ----

  function WindowEnd(it: Item, defaultDays: int): Option<int> {
    if it.activatedAt.None? then None
    else
      var days := if it.durationDays.Some? && it.durationDays.value != 0 then it.durationDays.value else defaultDays;
      var natural := if it.naturalEndAt.Some? then it.naturalEndAt.value else it.activatedAt.value + Max(1, days) * DAY;
      Some(if it.stoppedAt.Some? && it.stoppedAt.value < natural then it.stoppedAt.value else natural)
  }

  function SupportStart(it: Item): int
    requires it.activatedAt.Some?
  {
    DayStart(it.activatedAt.value)
  }

  function SupportEnd(it: Item, days: int): int
    requires it.activatedAt.Some?
  {
    DayStart(WindowEnd(it, days).value)
  }

  /** `_billing_window_overlaps` */
  predicate WindowOverlaps(it: Item, periodStart: int, periodEnd: int, days: int) {
    it.activatedAt.Some? && SupportStart(it) < periodEnd && SupportEnd(it, days) > periodStart
  }

  /** An item the report can charge for: both keys present, and activated by now. */
  predicate Chargeable(it: Item, now: int) {
    FeeKey(it) != "" && SeatKey(it) != "" && it.activatedAt.Some? && it.activatedAt.value <= now
  }

  /** The guards in front of the support loop. */
  predicate HasWindow(it: Item, anchor: int, days: int)
    requires it.activatedAt.Some?
  {
    SupportEnd(it, days) > SupportStart(it) && SupportEnd(it, days) > anchor
  }

  function FirstSupportIndex(it: Item, anchor: int, days: int): int
    requires it.activatedAt.Some? && days >= 1
  {
    Max(0, CycleIndex(anchor, SupportStart(it), days))
  }

  function LastSupportIndex(it: Item, anchor: int, days: int, current: int): int
    requires it.activatedAt.Some? && days >= 1
  {
    var last := CycleIndex(anchor, SupportEnd(it, days) - 1, days);
    if last < current then last else current
  }

  /** The item is supported during cycle `k`. */
  predicate SupportedIn(it: Item, anchor: int, days: int, k: int)
    requires it.activatedAt.Some?
  {
    SupportEnd(it, days) > SupportStart(it)
    && WindowOverlaps(it, CycleStart(anchor, days, k), CycleStart(anchor, days, k + 1), days)
  }

  /**
   * The index range computed by division is exactly the set of cycles whose period overlaps the window, so the
   * overlap test inside the loop never rejects one; an item stopped by the guards is supported in no cycle.
   */
  lemma SupportRangeIsExact(it: Item, anchor: int, days: int, current: int, k: int)
    requires it.activatedAt.Some? && days >= 1 && 0 <= k <= current
    ensures HasWindow(it, anchor, days) ==>
              (FirstSupportIndex(it, anchor, days) <= k <= LastSupportIndex(it, anchor, days, current)
               <==> WindowOverlaps(it, CycleStart(anchor, days, k), CycleStart(anchor, days, k + 1), days))
    ensures !HasWindow(it, anchor, days) ==> !SupportedIn(it, anchor, days, k)
  {
    IndexAtMost(anchor, SupportStart(it), days, k);
    IndexAtMost(anchor, SupportEnd(it, days) - 1, days, k);
    StartsOrdered(anchor, days, 0, k);
    assert CycleStart(anchor, days, 0) == anchor;
  }

  /** Without an end date and unless stopped, support lasts the item's duration in whole days, or the default one. */
  lemma SupportLastsItsDuration(it: Item, days: int)
    requires it.activatedAt.Some? && it.naturalEndAt.None? && it.stoppedAt.None?
    ensures SupportEnd(it, days) == SupportStart(it) +
            (if it.durationDays == None || it.durationDays == Some(0) then Max(1, days)
             else Max(1, it.durationDays.value)) * DAY
  {
    var t, n := it.activatedAt.value, Max(1, if it.durationDays.Some? && it.durationDays.value != 0
                                             then it.durationDays.value else days);
    assert WindowEnd(it, days) == Some(t + n * DAY);
    DayStartOfLater(t, n);
  }

  lemma DayStartOfLater(t: int, n: int)
    ensures DayStart(t + n * DAY) == DayStart(t) + n * DAY
  {
    assert (t + n * DAY) % DAY == t % DAY;
  }

  /** An end date ends it instead, on the midnight before. */
  lemma SupportEndsOnItsDate(it: Item, days: int)
    requires it.activatedAt.Some? && it.naturalEndAt.Some? && it.stoppedAt.None?
    ensures SupportEnd(it, days) == DayStart(it.naturalEndAt.value)
  {
  }

  /** An item activated on the first day of a cycle, for as long as a cycle is, is supported in that cycle alone. */
  lemma OneCycleOfSupport(it: Item, anchor: int, days: int, j: int, k: int)
    requires days >= 1 && it.activatedAt.Some? && SupportStart(it) == CycleStart(anchor, days, j)
    requires it.naturalEndAt.None? && it.stoppedAt.None? && it.durationDays == None
    ensures SupportedIn(it, anchor, days, k) <==> k == j
  {
    SupportLastsItsDuration(it, days);
    assert CycleStart(anchor, days, j + 1) == CycleStart(anchor, days, j) + CycleLength(days);
    StartsOrdered(anchor, days, k, j);
    StartsOrdered(anchor, days, j + 1, k);
    StartsOrdered(anchor, days, k + 1, j);
    StartsOrdered(anchor, days, j, k);
  }

  // ---- Charges ----

  datatype Charge = Charge(
    billableUsers: int, supportActiveUsers: int, blockSize: int, blocks: int,
    userFee: int, supportFee: int, infraFee: int, total: int)

  function CeilDiv(n: int, d: int): int
    requires d >= 1
  {
    (n + d - 1) / d
  }

  function ChargeForCounts(s: Settings, userFeeUnits: int, supportActiveUsers: int): Charge {
    var users := Max(0, userFeeUnits);
    var support := Max(0, supportActiveUsers);
    var blocks := if support > 0 then CeilDiv(support, s.BlockSize()) else 0;
    var userFee := users * Max(0, s.userFeeSetting);
    var supportFee := blocks * Max(0, s.supportFeeSetting);
    var infraFee := blocks * Max(0, s.infraFeeSetting);
    Charge(users, support, s.BlockSize(), blocks, userFee, supportFee, infraFee, userFee + supportFee + infraFee)
  }

  /** The blocks are the fewest that hold all supported users. */
  lemma BlocksAreFewest(s: Settings, users: int, support: int)
    requires support >= 0
    ensures var c := ChargeForCounts(s, users, support);
            && support <= c.blocks * c.blockSize
            && forall b :: 0 <= b && support <= b * c.blockSize ==> c.blocks <= b
  {
    var d := s.BlockSize();
    var c := ChargeForCounts(s, users, support);
    DivisionBounds(support + d - 1, d);
    forall b | 0 <= b && support <= b * d ensures c.blocks <= b {
      if b < c.blocks {
        Monotone(b + 1, c.blocks, d);
      }
    }
  }

  /** More users or more supported users never cost less. */
  lemma ChargesAreMonotone(s: Settings, users: int, support: int, users': int, support': int)
    requires 0 <= users <= users' && 0 <= support <= support'
    ensures 0 <= ChargeForCounts(s, users, support).total <= ChargeForCounts(s, users', support').total
  {
    var c, c' := ChargeForCounts(s, users, support), ChargeForCounts(s, users', support');
    BlocksAreFewest(s, users, support);
    BlocksAreFewest(s, users', support');
    assert support <= c'.blocks * c'.blockSize;
    NonNegativeBlocks(s, users, support);
    NonNegativeBlocks(s, users', support');
    assert c.blocks <= c'.blocks;
    Monotone(users, users', Max(0, s.userFeeSetting));
    Monotone(c.blocks, c'.blocks, Max(0, s.supportFeeSetting));
    Monotone(c.blocks, c'.blocks, Max(0, s.infraFeeSetting));
    Monotone(0, users, Max(0, s.userFeeSetting));
    Monotone(0, c.blocks, Max(0, s.supportFeeSetting));
    Monotone(0, c.blocks, Max(0, s.infraFeeSetting));
  }

  lemma NonNegativeBlocks(s: Settings, users: int, support: int)
    ensures ChargeForCounts(s, users, support).blocks >= 0
  {
    if support > 0 {
      DivisionBounds(support + s.BlockSize() - 1, s.BlockSize());
    }
  }

  // ---- What each count adds to a charge ----

  /** The record of a charge when nobody is charged for. */
  function NoCharge(s: Settings): Charge {
    Charge(0, 0, s.BlockSize(), 0, 0, 0, 0, 0)
  }

  lemma NobodyCostsNothing(s: Settings, users: int, support: int)
    requires users <= 0 && support <= 0
    ensures ChargeForCounts(s, users, support) == NoCharge(s)
  {
  }

  /** One more user adds one user fee, and nothing else. */
  lemma OneMoreUser(s: Settings, users: nat, support: int)
    ensures var c, fee := ChargeForCounts(s, users, support), Max(0, s.userFeeSetting);
            ChargeForCounts(s, users + 1, support)
            == c.(billableUsers := users + 1, userFee := c.userFee + fee, total := c.total + fee)
  {
    assert (users + 1) * Max(0, s.userFeeSetting) == users * Max(0, s.userFeeSetting) + Max(0, s.userFeeSetting);
  }

  /** One more supported user opens a block when the blocks so far are full, and a block costs both its fees. */
  lemma OneMoreSupported(s: Settings, users: int, support: nat)
    ensures var c, added := ChargeForCounts(s, users, support), if support % s.BlockSize() == 0 then 1 else 0;
            var supportFee, infraFee := added * Max(0, s.supportFeeSetting), added * Max(0, s.infraFeeSetting);
            ChargeForCounts(s, users, support + 1)
            == c.(supportActiveUsers := support + 1, blocks := c.blocks + added,
                  supportFee := c.supportFee + supportFee,
                  infraFee := c.infraFee + infraFee, total := c.total + supportFee + infraFee)
  {
    var c, added := ChargeForCounts(s, users, support), if support % s.BlockSize() == 0 then 1 else 0;
    NextBlock(support, s.BlockSize());
    Distribute(c.blocks, added, Max(0, s.supportFeeSetting));
    Distribute(c.blocks, added, Max(0, s.infraFeeSetting));
  }

  lemma Distribute(a: int, b: int, c: int)
    ensures (a + b) * c == a * c + b * c
  {
  }

  /** The quotient of a number that lies `r` above a multiple. */
  lemma QuotientAbove(q: nat, r: nat, d: int)
    requires r < d
    ensures (q * d + r) / d == q
  {
    Distribute(q, 1, d);
    UniqueQuotient(q * d + r, d, q);
  }

  lemma NextBlock(n: nat, d: int)
    requires d >= 1
    ensures CeilDiv(n + 1, d) == (if n > 0 then CeilDiv(n, d) else 0) + (if n % d == 0 then 1 else 0)
  {
    var q, r := n / d, n % d;
    DivisionBounds(n, d);
    Distribute(q, 1, d);
    assert n == q * d + r;
    QuotientAbove(q + 1, r, d);
    if r == 0 {
      QuotientAbove(q, d - 1, d);
    } else {
      QuotientAbove(q + 1, r - 1, d);
    }
  }
}
