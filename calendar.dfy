/**
 * The proleptic Gregorian calendar as Python's datetime.date counts it: adding a number of
 * days to January 1 of a year, and the three strftime renderings the generator uses
 * ("%Y-%m-%d", "%m/%d/%Y" and "%d.%m.%Y").
 */
module Calendar {
  import opened Wrappers
  import opened Text

  datatype Date = Date(year: int, month: int, day: int)

  predicate IsLeap(y: int) {
    y % 4 == 0 && (y % 100 != 0 || y % 400 == 0)
  }

  function DaysInYear(y: int): nat {
    if IsLeap(y) then 366 else 365
  }

  function DaysInMonth(y: int, m: int): nat
    requires 1 <= m <= 12
  {
    if m == 2 then (if IsLeap(y) then 29 else 28)
    else if m == 4 || m == 6 || m == 9 || m == 11 then 30
    else 31
  }

  /** A real calendar date: a month of the year and a day of that month. */
  predicate ValidDate(d: Date) {
    1 <= d.month <= 12 && 1 <= d.day <= DaysInMonth(d.year, d.month)
  }

  /** The days of year y before the first of month m; m = 13 stands for the whole year. */
  function DaysBeforeMonth(y: int, m: int): nat
    requires 1 <= m <= 13
  {
    [0, 31, 59, 90, 120, 151, 181, 212, 243, 273, 304, 334, 365][m - 1]
      + (if m > 2 && IsLeap(y) then 1 else 0)
  }

  /** The month table agrees with the month lengths and with the length of the year. */
  lemma MonthTable(y: int, m: int)
    requires 1 <= m <= 12
    ensures DaysBeforeMonth(y, m + 1) == DaysBeforeMonth(y, m) + DaysInMonth(y, m)
    ensures DaysBeforeMonth(y, 1) == 0 && DaysBeforeMonth(y, 13) == DaysInYear(y)
  {
  }

  /** The days from January 1 of year lo to January 1 of year hi, for lo <= hi. */
  function YearDays(lo: int, hi: int): nat
    decreases hi - lo
  {
    if lo >= hi then 0 else DaysInYear(lo) + YearDays(lo + 1, hi)
  }

  /** Counting the days of a run of years in two parts gives the same total. */
  lemma {:induction false} YearDaysSplit(lo: int, mid: int, hi: int)
    requires lo <= mid <= hi
    ensures YearDays(lo, hi) == YearDays(lo, mid) + YearDays(mid, hi)
    decreases mid - lo
  {
    if lo < mid {
      YearDaysSplit(lo + 1, mid, hi);
    }
  }

  /** The date k days after the first of month m of year y, within that year. */
  function InYear(y: int, m: int, k: nat): (d: Date)
    requires 1 <= m <= 12 && DaysBeforeMonth(y, m) + k < DaysInYear(y)
    ensures ValidDate(d) && d.year == y && m <= d.month
    ensures DaysBeforeMonth(y, d.month) + d.day - 1 == DaysBeforeMonth(y, m) + k
    decreases 12 - m
  {
    MonthTable(y, m);
    if k < DaysInMonth(y, m) then Date(y, m, k + 1)
    else
      MonthTable(y, 12);
      InYear(y, m + 1, k - DaysInMonth(y, m))
  }

  /** date(y, 1, 1) + timedelta(days=k). */
  function AddDays(y: int, k: nat): (d: Date)
    ensures ValidDate(d) && y <= d.year
    decreases k
  {
    MonthTable(y, 1);
    if k < DaysInYear(y) then InYear(y, 1, k) else AddDays(y + 1, k - DaysInYear(y))
  }

  /** (d - date(y, 1, 1)).days, for a date d on or after January 1 of year y. */
  function DayOffset(y: int, d: Date): int
    requires ValidDate(d) && y <= d.year
  {
    YearDays(y, d.year) + DaysBeforeMonth(d.year, d.month) + d.day - 1
  }

  /** Counting back from the date reached recovers the number of days added. */
  lemma {:induction false} AddDaysOffset(y: int, k: nat)
    ensures DayOffset(y, AddDays(y, k)) == k
    decreases k
  {
    MonthTable(y, 1);
    if k >= DaysInYear(y) {
      AddDaysOffset(y + 1, k - DaysInYear(y));
    }
  }

  /** The month of a date reached by InYear from month m is found again from month m. */
  lemma {:induction false} InYearOf(m: int, d: Date)
    requires ValidDate(d) && 1 <= m <= d.month
    ensures DaysBeforeMonth(d.year, m) <= DaysBeforeMonth(d.year, d.month)
    ensures InYear(d.year, m, DaysBeforeMonth(d.year, d.month) - DaysBeforeMonth(d.year, m) + d.day - 1) == d
    decreases d.month - m
  {
    var y := d.year;
    MonthTable(y, m);
    MonthTable(y, d.month);
    if m < d.month {
      InYearOf(m + 1, d);
    }
  }

  /** A date is reached from January 1 of its own year by adding its day of the year. */
  lemma SameYear(d: Date)
    requires ValidDate(d)
    ensures DaysBeforeMonth(d.year, d.month) + d.day - 1 < DaysInYear(d.year)
    ensures AddDays(d.year, DaysBeforeMonth(d.year, d.month) + d.day - 1) == d
  {
    MonthTable(d.year, 1);
    MonthTable(d.year, d.month);
    InYearOf(1, d);
  }

  /** Every date on or after January 1 of year y is reached by adding its offset. */
  lemma {:induction false} OffsetAddDays(y: int, d: Date)
    requires ValidDate(d) && y <= d.year
    ensures DayOffset(y, d) >= 0 && AddDays(y, DayOffset(y, d)) == d
    decreases d.year - y
  {
    if d.year == y {
      SameYear(d);
    } else {
      OffsetAddDays(y + 1, d);
      assert DayOffset(y, d) == DaysInYear(y) + DayOffset(y + 1, d);
    }
  }

  /** Adding fewer days than lie between January 1 of y and January 1 of hi stays before hi. */
  lemma {:induction false} AddDaysBefore(y: int, k: nat, hi: int)
    requires k < YearDays(y, hi)
    ensures AddDays(y, k).year < hi
    decreases k
  {
    if k >= DaysInYear(y) {
      AddDaysBefore(y + 1, k - DaysInYear(y), hi);
    }
  }

  /** d.strftime("%Y-%m-%d"). */
  function Iso(d: Date): string
    requires ValidDate(d) && d.year >= 1
  {
    Decimal(d.year) + "-" + ZeroPad(d.month, 2) + "-" + ZeroPad(d.day, 2)
  }

  /** d.strftime("%m/%d/%Y"). */
  function Us(d: Date): string
    requires ValidDate(d) && d.year >= 1
  {
    ZeroPad(d.month, 2) + "/" + ZeroPad(d.day, 2) + "/" + Decimal(d.year)
  }

  /** d.strftime("%d.%m.%Y"). */
  function European(d: Date): string
    requires ValidDate(d) && d.year >= 1
  {
    ZeroPad(d.day, 2) + "." + ZeroPad(d.month, 2) + "." + Decimal(d.year)
  }

  /** Three digit fields of widths wa, wb, wc separated by sa and sb. */
  predicate FieldsAt(s: string, wa: nat, sa: char, wb: nat, sb: char, wc: nat) {
    && |s| == wa + wb + wc + 2
    && s[wa] == sa && s[wa + 1 + wb] == sb
    && AllDigits(s[..wa]) && AllDigits(s[wa + 1..wa + 1 + wb]) && AllDigits(s[wa + 2 + wb..])
  }

  /** Reads "YYYY-MM-DD". */
  function ParseIso(s: string): Option<Date> {
    if FieldsAt(s, 4, '-', 2, '-', 2)
    then Some(Date(ValueOf(s[..4]), ValueOf(s[5..7]), ValueOf(s[8..])))
    else None
  }

  /** Reads "MM/DD/YYYY". */
  function ParseUs(s: string): Option<Date> {
    if FieldsAt(s, 2, '/', 2, '/', 4)
    then Some(Date(ValueOf(s[6..]), ValueOf(s[..2]), ValueOf(s[3..5])))
    else None
  }

  /** Reads "DD.MM.YYYY". */
  function ParseEuropean(s: string): Option<Date> {
    if FieldsAt(s, 2, '.', 2, '.', 4)
    then Some(Date(ValueOf(s[6..]), ValueOf(s[3..5]), ValueOf(s[..2])))
    else None
  }

  lemma Fields(a: string, sa: char, b: string, sb: char, c: string)
    ensures var s := a + [sa] + b + [sb] + c;
      && |s| == |a| + |b| + |c| + 2
      && s[..|a|] == a && s[|a|] == sa
      && s[|a| + 1..|a| + 1 + |b|] == b && s[|a| + 1 + |b|] == sb
      && s[|a| + 2 + |b|..] == c
  {
    var s := a + [sa] + b + [sb] + c;
    assert s[..|a|] == a;
    assert s[|a| + 1..|a| + 1 + |b|] == b;
    assert s[|a| + 2 + |b|..] == c;
  }

  /** A four-digit year and a two-digit month and day are written at their full widths. */
  lemma Widths(d: Date)
    requires ValidDate(d) && 1000 <= d.year <= 9999
    ensures Decimal(d.year) == Fixed(d.year, 4)
    ensures ZeroPad(d.month, 2) == Fixed(d.month, 2) && ZeroPad(d.day, 2) == Fixed(d.day, 2)
  {
    assert Pow10(2) == 100 && Pow10(3) == 1000 && Pow10(4) == 10000;
    DecimalIsFixed(d.year, 4);
  }

  /** The ISO rendering is read back as the same year, month and day. */
  lemma IsoRoundTrip(d: Date)
    requires ValidDate(d) && 1000 <= d.year <= 9999
    ensures |Iso(d)| == 10 && ParseIso(Iso(d)) == Some(d)
  {
    Widths(d);
    Fields(Fixed(d.year, 4), '-', Fixed(d.month, 2), '-', Fixed(d.day, 2));
  }

  /** The US rendering is read back as the same year, month and day. */
  lemma UsRoundTrip(d: Date)
    requires ValidDate(d) && 1000 <= d.year <= 9999
    ensures |Us(d)| == 10 && ParseUs(Us(d)) == Some(d)
  {
    Widths(d);
    Fields(Fixed(d.month, 2), '/', Fixed(d.day, 2), '/', Fixed(d.year, 4));
  }

  /** The European rendering is read back as the same year, month and day. */
  lemma EuropeanRoundTrip(d: Date)
    requires ValidDate(d) && 1000 <= d.year <= 9999
    ensures |European(d)| == 10 && ParseEuropean(European(d)) == Some(d)
  {
    Widths(d);
    Fields(Fixed(d.day, 2), '.', Fixed(d.month, 2), '.', Fixed(d.year, 4));
  }
}
