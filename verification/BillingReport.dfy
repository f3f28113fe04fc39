/** The loop that folds a token report into the two dictionaries of every cycle. */
module BillingReport {
  import opened BillingFold
  import opened BillingModel

  /** The charged lines by cycle, with the compared instant of every line by cycle and base key. */
  datatype Dictionary = Dictionary(lines: map<int, seq<Line>>, seen: map<(int, string), int>) {
    function At(k: int): seq<Line> {
      if k in lines then lines[k] else []
    }

    /** The instants noted are those of the lines. */
    ghost predicate Agrees(value: Item -> int) {
      forall k, key ::
        && ((k, key) in seen <==> Find(At(k), key) < |At(k)|)
        && ((k, key) in seen ==> seen[(k, key)] == value(At(k)[Find(At(k), key)].item))
    }

    function Set(k: int, line: Line, value: int): Dictionary {
      Dictionary(lines[k := Put(At(k), line)], seen[(k, line.BaseKey()) := value])
    }
  }

  lemma FoundAt(lines: seq<Line>, key: string, i: int)
    requires 0 <= i < |lines| && lines[i].BaseKey() == key && forall j :: 0 <= j < i ==> lines[j].BaseKey() != key
    ensures Find(lines, key) == i
  {
  }

  /** An entered line is found under its key, and no other key notices. */
  lemma FindAfterPut(lines: seq<Line>, line: Line, key: string)
    ensures var r := Put(lines, line); var i, j := Find(lines, key), Find(r, key);
            if key == line.BaseKey() then j < |r| && r[j] == line
            else (j < |r| <==> i < |lines|) && (i < |lines| ==> r[j] == lines[i])
  {
    var at := Find(lines, line.BaseKey());
    var i := Find(lines, key);
    var r := Put(lines, line);
    if key == line.BaseKey() {
      FoundAt(r, key, at);
    } else if i < |lines| {
      FoundAt(r, key, i);
    } else {
      assert forall j :: 0 <= j < |r| ==> r[j] == line || (j < |lines| && r[j] == lines[j]);
    }
  }

  lemma SetAgrees(d: Dictionary, k: int, line: Line, value: Item -> int)
    requires d.Agrees(value)
    ensures d.Set(k, line, value(line.item)).Agrees(value)
  {
    var d' := d.Set(k, line, value(line.item));
    forall j, key
      ensures (j, key) in d'.seen <==> Find(d'.At(j), key) < |d'.At(j)|
      ensures (j, key) in d'.seen ==> d'.seen[(j, key)] == value(d'.At(j)[Find(d'.At(j), key)].item)
    {
      assert (j, key) in d.seen <==> Find(d.At(j), key) < |d.At(j)|;
      if j == k {
        FindAfterPut(d.At(k), line, key);
      } else {
        assert d'.At(j) == d.At(j);
      }
    }
  }

  /** The end of a support window, in whole days. */
  function EndOf(days: int): Item -> int {
    (it: Item) => if it.activatedAt.Some? then SupportEnd(it, days) else 0
  }

  /** One cycle may change to `lines`; every other keeps its own. */
  ghost predicate ChangesOnly(d: Dictionary, d': Dictionary, k: int, lines: seq<Line>) {
    d'.At(k) == lines && forall j :: j != k ==> d'.At(j) == d.At(j)
  }

  method EnterFee(c: Context, fee: Dictionary, it: Item, k: int) returns (r: Dictionary)
    requires it.activatedAt.Some? && fee.Agrees(ByActivation())
    ensures r.Agrees(ByActivation())
    ensures ChangesOnly(fee, r, k, Enter(fee.At(k), it, FeeLine(c, k), ByActivation()))
  {
    r := fee;
    var firstKey := (k, FeeKey(it));
    var line := Line(it, UserFee, Period(c, k));
    assert line == FeeLine(c, k)(it);
    if firstKey !in fee.seen || it.activatedAt.value < fee.seen[firstKey] {
      r := fee.Set(k, line, it.activatedAt.value);
      SetAgrees(fee, k, line, ByActivation());
    }
  }

  method EnterSupport(c: Context, support: Dictionary, it: Item, k: int) returns (r: Dictionary)
    requires it.activatedAt.Some? && support.Agrees(EndOf(c.days))
    ensures r.Agrees(EndOf(c.days))
    ensures ChangesOnly(support, r, k, Enter(support.At(k), it, SeatLine(c, k), ByEnd(c.days)))
  {
    r := support;
    var supportKey := (k, SeatKey(it));
    var line := Line(it, Support, Period(c, k));
    assert line == SeatLine(c, k)(it);
    if !(supportKey in support.seen && support.seen[supportKey] >= SupportEnd(it, c.days)) {
      r := support.Set(k, line, SupportEnd(it, c.days));
      SetAgrees(support, k, line, EndOf(c.days));
    }
  }

  /** One more item, as the two dictionaries of cycle `k` see it. */
  function FeeStep(c: Context, lines: seq<Line>, it: Item, k: int): seq<Line>
    requires c.days >= 1
  {
    if Activates(c, it, k) then Enter(lines, it, FeeLine(c, k), ByActivation()) else lines
  }

  function SeatStep(c: Context, lines: seq<Line>, it: Item, k: int): seq<Line>
    requires c.days >= 1
  {
    if Supports(c, it, k) then Enter(lines, it, SeatLine(c, k), ByEnd(c.days)) else lines
  }

  /** The cycles of an index range, as the dictionary of cycle `k` sees them. */
  function RangeStep(c: Context, lines: seq<Line>, it: Item, k: int, first: int, last: int): seq<Line> {
    if first <= k <= last then Enter(lines, it, SeatLine(c, k), ByEnd(c.days)) else lines
  }

  predicate OverlapsCycle(c: Context, it: Item, k: int) {
    WindowOverlaps(it, CycleStart(c.anchor, c.days, k), CycleStart(c.anchor, c.days, k + 1), c.days)
  }

  ghost predicate RangeEntered(c: Context, from: Dictionary, to: Dictionary, it: Item, first: int, last: int) {
    forall k :: to.At(k) == RangeStep(c, from.At(k), it, k, first, last)
  }

  lemma RangeExtends(c: Context, from: Dictionary, to: Dictionary, to': Dictionary, it: Item, first: int, k: int)
    requires first <= k && RangeEntered(c, from, to, it, first, k - 1)
    requires ChangesOnly(to, to', k, Enter(to.At(k), it, SeatLine(c, k), ByEnd(c.days)))
    ensures RangeEntered(c, from, to', it, first, k)
  {
    assert to.At(k) == from.At(k);
    forall j ensures to'.At(j) == RangeStep(c, from.At(j), it, j, first, k) {
      if j != k {
        assert to'.At(j) == to.At(j);
      }
    }
  }

  method EnterRange(c: Context, support: Dictionary, it: Item, first: int, last: int) returns (r: Dictionary)
    requires it.activatedAt.Some? && support.Agrees(EndOf(c.days))
    requires forall k :: first <= k <= last ==> OverlapsCycle(c, it, k)
    ensures r.Agrees(EndOf(c.days))
    ensures RangeEntered(c, support, r, it, first, last)
  {
    r := support;
    var k := first;
    while k <= last
      invariant first <= k && (k <= last + 1 || k == first)
      invariant r.Agrees(EndOf(c.days))
      invariant RangeEntered(c, support, r, it, first, k - 1)
    {
      if OverlapsCycle(c, it, k) {
        var r' := EnterSupport(c, r, it, k);
        RangeExtends(c, support, r, r', it, first, k);
        r := r';
      }
      k := k + 1;
    }
  }

  /** The index range is the set of supported cycles, so entering the range is entering those cycles. */
  lemma RangeIsSupport(c: Context, lines: seq<Line>, it: Item, k: int)
    requires c.days >= 1 && Chargeable(it, c.now) && 0 <= k <= c.Current()
    ensures SeatStep(c, lines, it, k) ==
            if HasWindow(it, c.anchor, c.days)
            then RangeStep(c, lines, it, k, FirstSupportIndex(it, c.anchor, c.days),
                           LastSupportIndex(it, c.anchor, c.days, c.Current()))
            else lines
  {
    SupportRangeIsExact(it, c.anchor, c.days, c.Current(), k);
  }

  lemma RangeOverlaps(c: Context, it: Item)
    requires c.days >= 1 && it.activatedAt.Some? && HasWindow(it, c.anchor, c.days)
    ensures forall k ::
              FirstSupportIndex(it, c.anchor, c.days) <= k <= LastSupportIndex(it, c.anchor, c.days, c.Current())
              ==> OverlapsCycle(c, it, k)
  {
    forall k | FirstSupportIndex(it, c.anchor, c.days) <= k <= LastSupportIndex(it, c.anchor, c.days, c.Current())
      ensures OverlapsCycle(c, it, k)
    {
      SupportRangeIsExact(it, c.anchor, c.days, c.Current(), k);
    }
  }

  /** The support half of one item: guards, index range, inner loop. */
  method FoldWindow(c: Context, support: Dictionary, it: Item) returns (r: Dictionary)
    requires c.days >= 1 && Chargeable(it, c.now) && support.Agrees(EndOf(c.days))
    ensures r.Agrees(EndOf(c.days))
    ensures forall k :: 0 <= k <= c.Current() ==> r.At(k) == SeatStep(c, support.At(k), it, k)
  {
    r := support;
    if HasWindow(it, c.anchor, c.days) {
      RangeOverlaps(c, it);
      r := EnterRange(c, support, it, FirstSupportIndex(it, c.anchor, c.days),
                      LastSupportIndex(it, c.anchor, c.days, c.Current()));
    }
    forall k | 0 <= k <= c.Current() ensures r.At(k) == SeatStep(c, support.At(k), it, k) {
      RangeIsSupport(c, support.At(k), it, k);
    }
  }

  /** An item activated by now was activated in the current cycle or an earlier one. */
  lemma ActivationIndexIsPast(c: Context, it: Item)
    requires c.days >= 1 && Chargeable(it, c.now)
    ensures CycleIndex(c.anchor, it.activatedAt.value, c.days) <= c.Current()
  {
    var k := c.Current();
    IndexAtMost(c.anchor, c.now, c.days, k);
    IndexAtMost(c.anchor, it.activatedAt.value, c.days, k);
  }

  method FoldItem(c: Context, fee: Dictionary, support: Dictionary, it: Item)
      returns (fee': Dictionary, support': Dictionary)
    requires c.days >= 1 && fee.Agrees(ByActivation()) && support.Agrees(EndOf(c.days))
    ensures fee'.Agrees(ByActivation()) && support'.Agrees(EndOf(c.days))
    ensures forall k :: fee'.At(k) == FeeStep(c, fee.At(k), it, k)
    ensures forall k :: 0 <= k <= c.Current() ==> support'.At(k) == SeatStep(c, support.At(k), it, k)
  {
    fee', support' := fee, support;
    if FeeKey(it) == "" || SeatKey(it) == "" || it.activatedAt.None? || it.activatedAt.value > c.now {
      return;
    }
    var index := CycleIndex(c.anchor, it.activatedAt.value, c.days);
    ActivationIndexIsPast(c, it);
    if index <= c.Current() {
      fee' := EnterFee(c, fee, it, index);
    }
    support' := FoldWindow(c, support, it);
  }

  lemma StepsExtend(c: Context, items: seq<Item>, i: int, k: int)
    requires c.days >= 1 && 0 <= i < |items|
    ensures FeeLines(c, items[..i + 1], k) == FeeStep(c, FeeLines(c, items[..i], k), items[i], k)
    ensures SeatLines(c, items[..i + 1], k) == SeatStep(c, SeatLines(c, items[..i], k), items[i], k)
  {
    assert items[..i + 1][..i] == items[..i];
  }

  /** The two dictionaries hold the lines of the cycles up to `n`. */
  ghost predicate HoldsUpTo(c: Context, items: seq<Item>, fee: Dictionary, support: Dictionary, n: int)
    requires c.days >= 1
  {
    forall k :: 0 <= k <= n ==> fee.At(k) == FeeLines(c, items, k) && support.At(k) == SeatLines(c, items, k)
  }

  ghost predicate Holds(c: Context, items: seq<Item>, fee: Dictionary, support: Dictionary)
    requires c.days >= 1
  {
    HoldsUpTo(c, items, fee, support, c.Current())
  }

  lemma HoldsExtends(c: Context, items: seq<Item>, i: int, fee: Dictionary, support: Dictionary, fee': Dictionary,
                     support': Dictionary)
    requires c.days >= 1 && 0 <= i < |items| && Holds(c, items[..i], fee, support)
    requires forall k :: fee'.At(k) == FeeStep(c, fee.At(k), items[i], k)
    requires forall k :: 0 <= k <= c.Current() ==> support'.At(k) == SeatStep(c, support.At(k), items[i], k)
    ensures Holds(c, items[..i + 1], fee', support')
  {
    forall k | 0 <= k <= c.Current()
      ensures fee'.At(k) == FeeLines(c, items[..i + 1], k) && support'.At(k) == SeatLines(c, items[..i + 1], k)
    {
      StepsExtend(c, items, i, k);
    }
  }

  method FoldReport(c: Context, items: seq<Item>) returns (fee: Dictionary, support: Dictionary)
    requires c.days >= 1
    ensures Holds(c, items, fee, support)
  {
    fee, support := Dictionary(map[], map[]), Dictionary(map[], map[]);
    var i := 0;
    while i < |items|
      invariant 0 <= i <= |items|
      invariant fee.Agrees(ByActivation()) && support.Agrees(EndOf(c.days))
      invariant Holds(c, items[..i], fee, support)
    {
      var fee', support' := FoldItem(c, fee, support, items[i]);
      HoldsExtends(c, items, i, fee, support, fee', support');
      fee, support := fee', support';
      i := i + 1;
    }
    assert items[..i] == items;
  }
}
