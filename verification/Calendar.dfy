/** Calendar dates of day numbers, counted from 1 January of year 1, and their text. */
module Calendar {
  import opened Decimal

  datatype Date = Date(year: nat, month: nat, day: nat)

  predicate Leap(y: nat) {
    y % 4 == 0 && (y % 100 != 0 || y % 400 == 0)
  }

  function YearLength(y: nat): nat {
    if Leap(y) then 366 else 365
  }

  function MonthLength(y: nat, m: nat): (n: nat)
    ensures 28 <= n <= 31
  {
    if m == 2 then (if Leap(y) then 29 else 28) else if m == 4 || m == 6 || m == 9 || m == 11 then 30 else 31
  }

  /** The date `n` days after the first of month `m`, within the year. */
  function InMonths(y: nat, m: nat, n: nat): Date
    requires 1 <= m <= 12
    decreases 12 - m
  {
    if m == 12 || n < MonthLength(y, m) then Date(y, m, n + 1) else InMonths(y, m + 1, n - MonthLength(y, m))
  }

  function InYears(y: nat, n: nat): Date
    decreases n
  {
    if n < YearLength(y) then InMonths(y, 1, n) else InYears(y + 1, n - YearLength(y))
  }

  function DateOf(dayNumber: nat): Date {
    InYears(1, dayNumber)
  }

  function DaysBeforeYear(y: nat): nat {
    if y <= 1 then 0 else DaysBeforeYear(y - 1) + YearLength(y - 1)
  }

  const CUMULATIVE_DAYS: seq<nat> := [0, 31, 59, 90, 120, 151, 181, 212, 243, 273, 304, 334]

  function DaysBeforeMonth(y: nat, m: nat): nat
    requires 1 <= m <= 12
  {
    CUMULATIVE_DAYS[m - 1] + if m > 2 && Leap(y) then 1 else 0
  }

  function DayNumber(d: Date): int
    requires 1 <= d.month <= 12
  {
    DaysBeforeYear(d.year) + DaysBeforeMonth(d.year, d.month) + d.day - 1
  }

  lemma Fours(n: nat)
    requires n >= 1
    ensures n / 4 == (n - 1) / 4 + if n % 4 == 0 then 1 else 0
  {
  }

  lemma Centuries(n: nat)
    requires n >= 1
    ensures n / 100 == (n - 1) / 100 + if n % 100 == 0 then 1 else 0
  {
    var q, r := n / 100, n % 100;
    assert n == 100 * q + r;
    assert n - 1 == if r == 0 then 100 * (q - 1) + 99 else 100 * q + (r - 1);
  }

  lemma FourCenturies(n: nat)
    requires n >= 1
    ensures n / 400 == (n - 1) / 400 + if n % 400 == 0 then 1 else 0
  {
    var q, r := n / 400, n % 400;
    assert n == 400 * q + r;
    assert n - 1 == if r == 0 then 400 * (q - 1) + 399 else 400 * q + (r - 1);
  }

  lemma CenturiesAreFours(n: nat)
    ensures n % 100 == 0 ==> n % 4 == 0
    ensures n % 400 == 0 ==> n % 100 == 0
  {
    assert n == 100 * (n / 100) + n % 100 && n == 400 * (n / 400) + n % 400;
    assert n % 100 == 0 ==> n == 4 * (25 * (n / 100));
    assert n % 400 == 0 ==> n == 100 * (4 * (n / 400));
  }

  lemma LeapYearsUpTo(n: nat)
    requires n >= 1
    ensures n / 4 - n / 100 + n / 400
         == (n - 1) / 4 - (n - 1) / 100 + (n - 1) / 400 + YearLength(n) - 365
  {
    Fours(n);
    Centuries(n);
    FourCenturies(n);
    CenturiesAreFours(n);
  }

  /** The Gregorian day count: every fourth year is a leap year, but of the centuries only every fourth. */
  lemma {:induction false} DaysBeforeYearCounts(y: nat)
    requires y >= 1
    ensures DaysBeforeYear(y) == 365 * (y - 1) + (y - 1) / 4 - (y - 1) / 100 + (y - 1) / 400
  {
    if y > 1 {
      DaysBeforeYearCounts(y - 1);
      LeapYearsUpTo(y - 1);
    }
  }

  lemma {:induction false} InMonthsInverse(y: nat, m: nat, n: nat)
    requires 1 <= m <= 12 && DaysBeforeMonth(y, m) + n < YearLength(y)
    ensures var d := InMonths(y, m, n);
            d.year == y && m <= d.month <= 12 && 1 <= d.day <= 31 &&
              DaysBeforeMonth(y, d.month) + d.day - 1 == DaysBeforeMonth(y, m) + n
    decreases 12 - m
  {
    if m < 12 && n >= MonthLength(y, m) {
      InMonthsInverse(y, m + 1, n - MonthLength(y, m));
    }
  }

  lemma InFirstYear(y: nat, n: nat)
    requires y >= 1 && n < YearLength(y)
    ensures var d := InMonths(y, 1, n); 1 <= d.month <= 12 && 1 <= d.day <= 31 && DayNumber(d) == DaysBeforeYear(y) + n
  {
    InMonthsInverse(y, 1, n);
  }

  lemma {:induction false} InYearsInverse(y: nat, n: nat)
    requires y >= 1
    ensures var d := InYears(y, n); 1 <= d.month <= 12 && 1 <= d.day <= 31 && DayNumber(d) == DaysBeforeYear(y) + n
    decreases n
  {
    if n < YearLength(y) {
      InFirstYear(y, n);
    } else {
      InYearsInverse(y + 1, n - YearLength(y));
    }
  }

  // ---- Text ----

  function TwoDigits(n: nat): string
    requires n < 100
  {
    [DigitChar(n / 10), DigitChar(n % 10)]
  }

  /** `%Y-%m-%d` */
  function DateText(dayNumber: nat): string {
    InYearsInverse(1, dayNumber);
    TextOf(DateOf(dayNumber))
  }

  function TextOf(d: Date): string
    requires d.month < 100 && d.day < 100
  {
    NatText(d.year) + "-" + TwoDigits(d.month) + "-" + TwoDigits(d.day)
  }

  predicate FreeOf(s: string, c: char) {
    forall i :: 0 <= i < |s| ==> s[i] != c
  }

  lemma DateTextCharacters(n: nat, c: char)
    requires c != '-' && !IsDigit(c)
    ensures FreeOf(DateText(n), c)
  {
    InYearsInverse(1, n);
    var d := DateOf(n);
    var year := NatText(d.year);
    assert forall i :: 0 <= i < |year| ==> IsDigit(year[i]);
  }

  /** Two texts with a separator that the first parts do not contain agree only part by part. */
  lemma SeparatedParts(a: string, b: string, c: string, d: string, sep: char)
    requires FreeOf(a, sep) && FreeOf(c, sep) && a + [sep] + b == c + [sep] + d
    ensures a == c && b == d
  {
    var s, t := a + [sep] + b, c + [sep] + d;
    assert s[|a|] == sep && t[|c|] == sep;
    assert a == s[..|a|] == t[..|c|] == c;
    assert b == s[|a| + 1..] == t[|c| + 1..] == d;
  }

  lemma TextParts(d: Date)
    requires d.month < 100 && d.day < 100
    ensures TextOf(d) == NatText(d.year) + ['-'] + (TwoDigits(d.month) + ['-'] + TwoDigits(d.day))
    ensures FreeOf(NatText(d.year), '-') && FreeOf(TwoDigits(d.month), '-')
  {
  }

  lemma SameDateText(d: Date, e: Date)
    requires d.month < 100 && d.day < 100 && e.month < 100 && e.day < 100 && TextOf(d) == TextOf(e)
    ensures d == e
  {
    TextParts(d);
    TextParts(e);
    SeparatedParts(NatText(d.year), TwoDigits(d.month) + ['-'] + TwoDigits(d.day),
                   NatText(e.year), TwoDigits(e.month) + ['-'] + TwoDigits(e.day), '-');
    SeparatedParts(TwoDigits(d.month), TwoDigits(d.day), TwoDigits(e.month), TwoDigits(e.day), '-');
    ValueOfNatText(d.year);
    ValueOfNatText(e.year);
  }

  /** Different days have different texts. */
  lemma DateTextInjective(m: nat, n: nat)
    requires DateText(m) == DateText(n)
    ensures m == n
  {
    InYearsInverse(1, m);
    InYearsInverse(1, n);
    SameDateText(DateOf(m), DateOf(n));
  }

  /** `_billing_period_key` */
  function PeriodKey(startDay: nat, endDay: nat): string {
    DateText(startDay) + "_" + DateText(endDay)
  }

  lemma PeriodKeyFacts(a: nat, b: nat, c: nat, d: nat)
    ensures PeriodKey(a, b) == PeriodKey(c, d) ==> a == c && b == d
    ensures FreeOf(PeriodKey(a, b), ':')
  {
    if PeriodKey(a, b) == PeriodKey(c, d) {
      PeriodKeyInjective(a, b, c, d);
    }
    DateTextCharacters(a, ':');
    DateTextCharacters(b, ':');
  }

  lemma PeriodKeyInjective(a: nat, b: nat, c: nat, d: nat)
    requires PeriodKey(a, b) == PeriodKey(c, d)
    ensures a == c && b == d
  {
    DateTextCharacters(a, '_');
    DateTextCharacters(c, '_');
    SeparatedParts(DateText(a), DateText(b), DateText(c), DateText(d), '_');
    DateTextInjective(a, c);
    DateTextInjective(b, d);
  }
}
