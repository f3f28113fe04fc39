/** The fold of the report into cycles: which item stands for a charge, and how many charges there are. */
module BillingFold {
  import opened BillingModel
  import opened Calendar

  datatype Kind = UserFee | Support | Untagged {
    function Text(): string {
      match this
      case UserFee => "user_fee"
      case Support => "support"
      case Untagged => ""
    }
  }

  /** An item tagged with the kind and the period of its charge. */
  datatype Line = Line(item: Item, kind: Kind, period: string) {
    function BaseKey(): string {
      match kind
      case UserFee => FeeKey(item)
      case Support => SeatKey(item)
      case Untagged => if FeeKey(item) != "" then FeeKey(item) else SeatKey(item)
    }
  }

  /** The fixed part of one computation. */
  datatype Context = Context(anchor: int, days: int, now: int) {
    predicate Valid() {
      days >= 1 && anchor >= 0
    }

    function Current(): (k: int)
      requires days >= 1
      ensures k >= 0
    {
      CycleIndex(anchor, now, days)
    }
  }

  function DayOf(t: int): nat {
    if t >= 0 then t / DAY else 0
  }

  function Period(c: Context, k: int): string {
    PeriodKey(DayOf(CycleStart(c.anchor, c.days, k)), DayOf(CycleStart(c.anchor, c.days, k + 1)))
  }

  // ---- Which items count, cycle by cycle ----

  predicate Activates(c: Context, it: Item, k: int)
    requires c.days >= 1
  {
    Chargeable(it, c.now) && CycleIndex(c.anchor, it.activatedAt.value, c.days) == k
  }

  predicate Supports(c: Context, it: Item, k: int)
    requires c.days >= 1
  {
    Chargeable(it, c.now) && SupportedIn(it, c.anchor, c.days, k)
  }

  function FeeKeys(c: Context, items: seq<Item>, k: int): set<string>
    requires c.days >= 1
  {
    set it | it in items && Activates(c, it, k) :: FeeKey(it)
  }

  function SeatKeys(c: Context, items: seq<Item>, k: int): set<string>
    requires c.days >= 1
  {
    set it | it in items && Supports(c, it, k) :: SeatKey(it)
  }

  // ---- Ordered dictionaries of lines ----

  /** The place of a base key among the lines, or their number. */
  function Find(lines: seq<Line>, key: string): (i: int)
    ensures 0 <= i <= |lines|
    ensures i < |lines| ==> lines[i].BaseKey() == key
    ensures forall j :: 0 <= j < i ==> lines[j].BaseKey() != key
  {
    if lines == [] then 0
    else if lines[0].BaseKey() == key then 0
    else 1 + Find(lines[1..], key)
  }

  /** Assignment to a dictionary: an existing key keeps its place, a new one comes last. */
  function Put(lines: seq<Line>, line: Line): seq<Line> {
    var i := Find(lines, line.BaseKey());
    if i < |lines| then lines[i := line] else lines + [line]
  }

  /** The lines are a dictionary: no base key twice. */
  ghost predicate Keyed(lines: seq<Line>) {
    forall i, j :: 0 <= i < j < |lines| ==> lines[i].BaseKey() != lines[j].BaseKey()
  }

  function KeySet(lines: seq<Line>): set<string> {
    set l | l in lines :: l.BaseKey()
  }

  lemma PutKeys(lines: seq<Line>, line: Line)
    requires Keyed(lines)
    ensures Keyed(Put(lines, line))
    ensures KeySet(Put(lines, line)) == KeySet(lines) + {line.BaseKey()}
    ensures forall l :: l in Put(lines, line) <==> l == line || (l in lines && l.BaseKey() != line.BaseKey())
  {
    var i := Find(lines, line.BaseKey());
    var r := Put(lines, line);
    forall l ensures l in r <==> l == line || (l in lines && l.BaseKey() != line.BaseKey()) {
      if l in lines && l.BaseKey() != line.BaseKey() {
        var j :| 0 <= j < |lines| && lines[j] == l;
        assert r[j] == l;
      }
      if l == line {
        assert r[i] == line;
      }
    }
    forall key | key in KeySet(lines) + {line.BaseKey()} ensures key in KeySet(r) {
      if key == line.BaseKey() {
        assert line in r;
      } else {
        var l :| l in lines && l.BaseKey() == key;
        assert l in r;
      }
    }
  }

  lemma KeySetSnoc(lines: seq<Line>, x: Line)
    ensures KeySet(lines + [x]) == KeySet(lines) + {x.BaseKey()}
  {
  }

  lemma FreshLastKey(lines: seq<Line>, x: Line)
    requires Keyed(lines + [x])
    ensures Keyed(lines) && x.BaseKey() !in KeySet(lines)
  {
    var all := lines + [x];
    forall l | l in lines ensures l.BaseKey() != x.BaseKey() {
      var j :| 0 <= j < |lines| && lines[j] == l;
      assert all[j] == l && all[|lines|] == x;
    }
    forall i, j | 0 <= i < j < |lines| ensures lines[i].BaseKey() != lines[j].BaseKey() {
      assert all[i] == lines[i] && all[j] == lines[j];
    }
  }

  lemma {:induction false} KeyCount(lines: seq<Line>)
    requires Keyed(lines)
    ensures |KeySet(lines)| == |lines|
  {
    if lines != [] {
      var t, x := lines[..|lines| - 1], lines[|lines| - 1];
      assert lines == t + [x];
      FreshLastKey(t, x);
      KeyCount(t);
      KeySetSnoc(t, x);
    }
  }

  // ---- One cycle's dictionaries ----

  /**
   * The fold behind both dictionaries: an item that counts is entered under its key unless an item of no higher rank
   * is already there.
   */
  function BestLines(items: seq<Item>, counts: Item -> bool, line: Item -> Line, rank: Item -> int): seq<Line> {
    if items == [] then []
    else
      var it := items[|items| - 1];
      var lines := BestLines(items[..|items| - 1], counts, line, rank);
      if counts(it) then Enter(lines, it, line, rank) else lines
  }

  function Enter(lines: seq<Line>, it: Item, line: Item -> Line, rank: Item -> int): seq<Line> {
    var i := Find(lines, line(it).BaseKey());
    if i < |lines| && rank(lines[i].item) <= rank(it) then lines else Put(lines, line(it))
  }

  function KeysOf(items: seq<Item>, counts: Item -> bool, line: Item -> Line): set<string> {
    set it | it in items && counts(it) :: line(it).BaseKey()
  }

  /** One line per distinct key among the items that count, each made from an item of the lowest rank. */
  ghost predicate BestOf(items: seq<Item>, counts: Item -> bool, line: Item -> Line, rank: Item -> int,
                         lines: seq<Line>)
  {
    && Keyed(lines)
    && (forall l :: l in lines ==> l.item in items && counts(l.item) && l == line(l.item))
    && KeySet(lines) == KeysOf(items, counts, line)
    && forall l, it :: l in lines && it in items && counts(it) && line(it).BaseKey() == l.BaseKey() ==>
         rank(l.item) <= rank(it)
  }

  lemma KeysOfSnoc(items: seq<Item>, it: Item, counts: Item -> bool, line: Item -> Line)
    ensures KeysOf(items + [it], counts, line)
         == KeysOf(items, counts, line) + if counts(it) then {line(it).BaseKey()} else {}
  {
  }

  lemma KeepingIsBest(items: seq<Item>, it: Item, counts: Item -> bool, line: Item -> Line, rank: Item -> int,
                      lines: seq<Line>, i: int)
    requires BestOf(items, counts, line, rank, lines) && counts(it)
    requires 0 <= i < |lines| && lines[i].BaseKey() == line(it).BaseKey() && rank(lines[i].item) <= rank(it)
    ensures BestOf(items + [it], counts, line, rank, lines)
  {
  }

  lemma PuttingIsBest(items: seq<Item>, it: Item, counts: Item -> bool, line: Item -> Line, rank: Item -> int,
                      lines: seq<Line>)
    requires BestOf(items, counts, line, rank, lines) && counts(it) && line(it).item == it
    requires forall l :: l in lines && l.BaseKey() == line(it).BaseKey() ==> rank(it) <= rank(l.item)
    ensures BestOf(items + [it], counts, line, rank, Put(lines, line(it)))
  {
    KeysOfSnoc(items, it, counts, line);
    PutKeys(lines, line(it));
    var key := line(it).BaseKey();
    forall other | other in items && counts(other) && line(other).BaseKey() == key ensures rank(it) <= rank(other) {
      assert key in KeysOf(items, counts, line);
      var l :| l in lines && l.BaseKey() == key;
      assert rank(l.item) <= rank(other);
    }
  }

  lemma OnlyHolder(lines: seq<Line>, key: string)
    requires Keyed(lines)
    ensures var i := Find(lines, key); forall l :: l in lines && l.BaseKey() == key ==> i < |lines| && l == lines[i]
  {
  }

  lemma EnterKeepsBest(items: seq<Item>, it: Item, counts: Item -> bool, line: Item -> Line, rank: Item -> int,
                       lines: seq<Line>)
    requires BestOf(items, counts, line, rank, lines) && counts(it) && line(it).item == it
    ensures BestOf(items + [it], counts, line, rank, Enter(lines, it, line, rank))
  {
    var i := Find(lines, line(it).BaseKey());
    if i < |lines| && rank(lines[i].item) <= rank(it) {
      KeepingIsBest(items, it, counts, line, rank, lines, i);
    } else {
      OnlyHolder(lines, line(it).BaseKey());
      PuttingIsBest(items, it, counts, line, rank, lines);
    }
  }

  lemma {:induction false} BestLinesAreBest(items: seq<Item>, counts: Item -> bool, line: Item -> Line,
                                            rank: Item -> int)
    requires forall it :: line(it).item == it
    ensures BestOf(items, counts, line, rank, BestLines(items, counts, line, rank))
  {
    if items != [] {
      var rest, it := items[..|items| - 1], items[|items| - 1];
      assert items == rest + [it];
      BestLinesAreBest(rest, counts, line, rank);
      if counts(it) {
        EnterKeepsBest(rest, it, counts, line, rank, BestLines(rest, counts, line, rank));
      } else {
        assert KeysOf(items, counts, line) == KeysOf(rest, counts, line);
      }
    }
  }

  function Activating(c: Context, k: int): Item -> bool
    requires c.days >= 1
  {
    it => Activates(c, it, k)
  }

  function Supporting(c: Context, k: int): Item -> bool
    requires c.days >= 1
  {
    it => Supports(c, it, k)
  }

  function FeeLine(c: Context, k: int): Item -> Line {
    it => Line(it, UserFee, Period(c, k))
  }

  function SeatLine(c: Context, k: int): Item -> Line {
    it => Line(it, Support, Period(c, k))
  }

  /** Earlier activations rank lower. */
  function ByActivation(): Item -> int {
    (it: Item) => if it.activatedAt.Some? then it.activatedAt.value else 0
  }

  /** Windows that end later rank lower. */
  function ByEnd(days: int): Item -> int {
    (it: Item) => if it.activatedAt.Some? then -SupportEnd(it, days) else 0
  }

  /** The user-fee dictionary of cycle `k`. */
  function FeeLines(c: Context, items: seq<Item>, k: int): seq<Line>
    requires c.days >= 1
  {
    BestLines(items, Activating(c, k), FeeLine(c, k), ByActivation())
  }

  /** The support dictionary of cycle `k`. */
  function SeatLines(c: Context, items: seq<Item>, k: int): seq<Line>
    requires c.days >= 1
  {
    BestLines(items, Supporting(c, k), SeatLine(c, k), ByEnd(c.days))
  }

  /** One line for every distinct fee key activated in the cycle, showing its earliest activation. */
  lemma FeeLinesAreTheBill(c: Context, items: seq<Item>, k: int)
    requires c.days >= 1
    ensures BestOf(items, Activating(c, k), FeeLine(c, k), ByActivation(), FeeLines(c, items, k))
    ensures |FeeLines(c, items, k)| == |FeeKeys(c, items, k)|
  {
    BestLinesAreBest(items, Activating(c, k), FeeLine(c, k), ByActivation());
    KeyCount(FeeLines(c, items, k));
    assert KeysOf(items, Activating(c, k), FeeLine(c, k)) == FeeKeys(c, items, k);
  }

  /** One line for every distinct seat supported during the cycle, showing the window that ends last. */
  lemma SeatLinesAreTheBill(c: Context, items: seq<Item>, k: int)
    requires c.days >= 1
    ensures BestOf(items, Supporting(c, k), SeatLine(c, k), ByEnd(c.days), SeatLines(c, items, k))
    ensures |SeatLines(c, items, k)| == |SeatKeys(c, items, k)|
  {
    BestLinesAreBest(items, Supporting(c, k), SeatLine(c, k), ByEnd(c.days));
    KeyCount(SeatLines(c, items, k));
    assert KeysOf(items, Supporting(c, k), SeatLine(c, k)) == SeatKeys(c, items, k);
  }
}
