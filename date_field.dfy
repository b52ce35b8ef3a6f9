/**
 * The joining-date corruptor. A day is drawn between January 1 of a start year and
 * January 1, 2024, and a draw r picks ISO "YYYY-MM-DD", US "MM/DD/YYYY", European
 * "DD.MM.YYYY", the text "Pending", or missing.
 */
module DateField {
  import opened Wrappers
  import opened Values
  import Calendar
  import Weighted
  import Text

  datatype Form = IsoForm | UsForm | EuropeanForm | Pending | Absent

  /**
   * Why dirty_date raises: datetime.date refuses a year outside 1..9999, and
   * random.randrange refuses a range with no days in it.
   */
  datatype DateError = YearOutOfRange | EmptyRange

  /** The fixed end of the span, January 1 of this year, excluded. */
  const EndYear: int := 2024

  /**
   * The start year dirty_date takes when called without one
   * (script_to_generate_data.py:50); the row loop passes Rows.JoiningYear instead.
   */
  const DefaultYearStart: int := 2015

  /** The branch weights of dirty_date, that is the differences of its thresholds, in Form order. */
  const Weights: seq<real> := [0.6, 0.2, 0.1, 0.05, 0.05]

  /** The rendering the draw r selects, by dirty_date's thresholds 0.6, 0.8, 0.9 and 0.95. */
  function FormOf(r: real): Form {
    if r < 0.6 then IsoForm
    else if r < 0.8 then UsForm
    else if r < 0.9 then EuropeanForm
    else if r < 0.95 then Pending
    else Absent
  }

  function Index(f: Form): nat {
    match f
    case IsoForm => 0
    case UsForm => 1
    case EuropeanForm => 2
    case Pending => 3
    case Absent => 4
  }

  /** dirty_date's threshold chain selects exactly as a weighted pick from Weights. */
  lemma FormIsWeighted(r: real)
    ensures Index(FormOf(r)) == Weighted.Pick(Weights, r)
  {
    Weighted.PickSixtyTwentyTen(r);
  }


  /** (date(2024, 1, 1) - date(yearStart, 1, 1)).days, negative for a later start. */
  function Span(yearStart: int): int {
    if yearStart <= EndYear then Calendar.YearDays(yearStart, EndYear)
    else -(Calendar.YearDays(EndYear, yearStart) as int)
  }

  /** The start year the generator uses spans 2191 days. */
  lemma SpanFrom2018()
    ensures Span(2018) == 2191
  {
    assert Calendar.YearDays(2023, 2024) == 365;
    assert Calendar.YearDays(2022, 2024) == 730;
    assert Calendar.YearDays(2021, 2024) == 1095;
    assert Calendar.YearDays(2020, 2024) == 1461;
    assert Calendar.YearDays(2019, 2024) == 1826;
  }

  /** The draw random.randrange(days) lies in [0, days) whenever the call is reached. */
  predicate OffsetFits(yearStart: int, k: int) {
    1 <= yearStart <= 9999 && Span(yearStart) > 0 ==> 0 <= k < Span(yearStart)
  }

  /** The cell rendering f writes for the date d. */
  function Render(d: Calendar.Date, f: Form): Value
    requires Calendar.ValidDate(d) && d.year >= 1
  {
    match f
    case IsoForm => Text(Calendar.Iso(d))
    case UsForm => Text(Calendar.Us(d))
    case EuropeanForm => Text(Calendar.European(d))
    case Pending => Text("Pending")
    case Absent => Missing
  }

  /** dirty_date(yearStart) with the day offset drawn as k and the rendering drawn as r. */
  function DirtyDate(yearStart: int, k: int, r: real): (res: Result<Value, DateError>)
    requires OffsetFits(yearStart, k) && 0.0 <= r < 1.0
    ensures res.Err? <==> !(1 <= yearStart < EndYear)
    ensures res == Err(YearOutOfRange) <==> !(1 <= yearStart <= 9999)
  {
    if !(1 <= yearStart <= 9999) then Err(YearOutOfRange)
    else if Span(yearStart) <= 0 then Err(EmptyRange)
    else
      Ok(Render(Calendar.AddDays(yearStart, k), FormOf(r)))
  }

  /**
   * The drawn day is a real date in [January 1 of yearStart, January 1 2024), lying k days
   * after the start.
   */
  lemma DrawnDate(yearStart: int, k: nat)
    requires 1 <= yearStart < EndYear && k < Span(yearStart)
    ensures var d := Calendar.AddDays(yearStart, k);
      && Calendar.ValidDate(d) && yearStart <= d.year < EndYear
      && Calendar.DayOffset(yearStart, d) == k
  {
    Calendar.AddDaysBefore(yearStart, k, EndYear);
    Calendar.AddDaysOffset(yearStart, k);
  }

  /** Every date in the span is the draw of exactly its own offset, which is in range. */
  lemma EveryDateDrawn(yearStart: int, d: Calendar.Date)
    requires 1 <= yearStart && Calendar.ValidDate(d) && yearStart <= d.year < EndYear
    ensures var k := Calendar.DayOffset(yearStart, d);
      0 <= k < Span(yearStart) && Calendar.AddDays(yearStart, k) == d
  {
    Calendar.OffsetAddDays(yearStart, d);
    Calendar.YearDaysSplit(yearStart, d.year, EndYear);
    Calendar.MonthTable(d.year, d.month);
    Calendar.MonthTable(d.year, 12);
    assert Calendar.DaysBeforeMonth(d.year, d.month + 1) <= Calendar.DaysBeforeMonth(d.year, 13);
  }

  /** How a reader takes a date cell: the first of the three layouts that fits the text. */
  function ReadDate(v: Value): Option<Calendar.Date> {
    match v
    case Text(s) =>
      if Calendar.ParseIso(s).Some? then Calendar.ParseIso(s)
      else if Calendar.ParseUs(s).Some? then Calendar.ParseUs(s)
      else Calendar.ParseEuropean(s)
    case _ => None
  }

  /** A ten-character text with a digit at position 4 is not in the ISO layout. */
  lemma NotIso(s: string)
    requires |s| == 10 && Text.IsDigit(s[4])
    ensures Calendar.ParseIso(s).None?
  {
  }

  /** A text with a dot at position 2 is not in the US layout. */
  lemma NotUs(s: string)
    requires |s| >= 3 && s[2] == '.'
    ensures Calendar.ParseUs(s).None?
  {
  }

  lemma ReadIso(d: Calendar.Date)
    requires Calendar.ValidDate(d) && 1000 <= d.year <= 9999
    ensures ReadDate(Text(Calendar.Iso(d))) == Some(d)
  {
    Calendar.IsoRoundTrip(d);
  }

  lemma ReadUs(d: Calendar.Date)
    requires Calendar.ValidDate(d) && 1000 <= d.year <= 9999
    ensures ReadDate(Text(Calendar.Us(d))) == Some(d)
  {
    Calendar.Widths(d);
    Calendar.UsRoundTrip(d);
    var dd := Text.Fixed(d.day, 2);
    Calendar.Fields(Text.Fixed(d.month, 2), '/', dd, '/', Text.Fixed(d.year, 4));
    var us := Calendar.Us(d);
    assert us[4] == dd[1];
    NotIso(us);
  }

  lemma ReadEuropean(d: Calendar.Date)
    requires Calendar.ValidDate(d) && 1000 <= d.year <= 9999
    ensures ReadDate(Text(Calendar.European(d))) == Some(d)
  {
    Calendar.Widths(d);
    Calendar.EuropeanRoundTrip(d);
    var m := Text.Fixed(d.month, 2);
    Calendar.Fields(Text.Fixed(d.day, 2), '.', m, '.', Text.Fixed(d.year, 4));
    var eu := Calendar.European(d);
    assert eu[4] == m[1];
    NotIso(eu);
    NotUs(eu);
  }

  /** A date written in any of the three layouts is read back as itself. */
  lemma ReadBack(d: Calendar.Date)
    requires Calendar.ValidDate(d) && 1000 <= d.year <= 9999
    ensures ReadDate(Text(Calendar.Iso(d))) == Some(d)
    ensures ReadDate(Text(Calendar.Us(d))) == Some(d)
    ensures ReadDate(Text(Calendar.European(d))) == Some(d)
  {
    ReadIso(d);
    ReadUs(d);
    ReadEuropean(d);
  }

  /** How a reader sees each rendering of a date with a four-digit year. */
  lemma RenderRead(d: Calendar.Date, f: Form)
    requires Calendar.ValidDate(d) && 1000 <= d.year <= 9999
    ensures f in {IsoForm, UsForm, EuropeanForm} ==> ReadDate(Render(d, f)) == Some(d)
    ensures Render(d, f) == Text("Pending") <==> f == Pending
    ensures Render(d, f) == Missing <==> f == Absent
  {
    ReadBack(d);
    Calendar.Widths(d);
    Calendar.IsoRoundTrip(d);
    Calendar.UsRoundTrip(d);
    Calendar.EuropeanRoundTrip(d);
    assert |"Pending"| == 7;
  }

  /**
   * Each of the three date layouts is read back as the drawn date; "Pending" comes from
   * [0.9, 0.95) and from nowhere else; missing comes from r >= 0.95 and never reads as "Pending".
   */
  lemma DateRendered(yearStart: int, k: nat, r: real)
    requires 1000 <= yearStart < EndYear && k < Span(yearStart) && 0.0 <= r < 1.0
    ensures DirtyDate(yearStart, k, r).Ok?
    ensures FormOf(r) in {IsoForm, UsForm, EuropeanForm} ==>
              ReadDate(DirtyDate(yearStart, k, r).value) == Some(Calendar.AddDays(yearStart, k))
    ensures DirtyDate(yearStart, k, r).value == Text("Pending") <==> 0.9 <= r < 0.95
    ensures DirtyDate(yearStart, k, r).value == Missing <==> r >= 0.95
  {
    DrawnDate(yearStart, k);
    RenderRead(Calendar.AddDays(yearStart, k), FormOf(r));
  }
}
