/**
 * The SSN corruptor. Three digit groups of 3, 2 and 4 digits are drawn and a draw r picks
 * "AAA-GG-SSSS", the nine digits run together, "AAA GG SSSS", the redacted "XXX-XX-SSSS",
 * or missing.
 */
module Ssn {
  import opened Wrappers
  import opened Values
  import opened Text
  import Weighted

  datatype Form = Dashed | Joined | Spaced | Redacted | Absent

  /** The branch weights of dirty_ssn, that is the differences of its thresholds, in Form order. */
  const Weights: seq<real> := [0.6, 0.2, 0.1, 0.05, 0.05]

  /** The layout the draw r selects, by dirty_ssn's thresholds 0.6, 0.8, 0.9 and 0.95. */
  function FormOf(r: real): Form {
    if r < 0.6 then Dashed
    else if r < 0.8 then Joined
    else if r < 0.9 then Spaced
    else if r < 0.95 then Redacted
    else Absent
  }

  function Index(f: Form): nat {
    match f
    case Dashed => 0
    case Joined => 1
    case Spaced => 2
    case Redacted => 3
    case Absent => 4
  }

  /** dirty_ssn's threshold chain selects exactly as a weighted pick from Weights. */
  lemma FormIsWeighted(r: real)
    ensures Index(FormOf(r)) == Weighted.Pick(Weights, r)
  {
    Weighted.PickSixtyTwentyTen(r);
  }


  /** The draws random.randint(100, 999), random.randint(10, 99), random.randint(1000, 9999). */
  predicate PartsInRange(p1: int, p2: int, p3: int) {
    100 <= p1 <= 999 && 10 <= p2 <= 99 && 1000 <= p3 <= 9999
  }

  /** The cell layout f writes for the digit groups a, g and s. */
  function Layout(a: string, g: string, s: string, f: Form): Value {
    match f
    case Dashed => Text(a + "-" + g + "-" + s)
    case Joined => Text(a + g + s)
    case Spaced => Text(a + " " + g + " " + s)
    case Redacted => Text("XXX-XX-" + s)
    case Absent => Missing
  }

  /**
   * dirty_ssn() with the groups drawn as p1, p2, p3 and the layout drawn as r. Below 0.9 the
   * cell shows the digits of the three groups in order; from 0.95 on, and only there, it is
   * missing.
   */
  function DirtySsn(p1: int, p2: int, p3: int, r: real): (v: Value)
    requires PartsInRange(p1, p2, p3) && 0.0 <= r < 1.0
    ensures r < 0.9 ==> v.Text? && DigitsOf(v.s) == Decimal(p1) + Decimal(p2) + Decimal(p3)
    ensures v.Missing? <==> r >= 0.95
  {
    LayoutDigits(Decimal(p1), Decimal(p2), Decimal(p3), FormOf(r));
    Layout(Decimal(p1), Decimal(p2), Decimal(p3), FormOf(r))
  }

  /** How a reader takes a full number apart: exactly nine digits, cut 3-2-4. */
  function ParseSsn(v: Value): Option<(nat, nat, nat)> {
    match v
    case Text(s) =>
      var d := DigitsOf(s);
      if |d| == 9 then Some((ValueOf(d[..3]), ValueOf(d[3..5]), ValueOf(d[5..]))) else None
    case _ => None
  }

  /** The last four digits a cell shows, when it shows at least four. */
  function LastFour(v: Value): Option<nat> {
    match v
    case Text(s) =>
      var d := DigitsOf(s);
      if |d| >= 4 then Some(ValueOf(d[|d| - 4..])) else None
    case _ => None
  }

  lemma PartWidths(p1: int, p2: int, p3: int)
    requires PartsInRange(p1, p2, p3)
    ensures Decimal(p1) == Fixed(p1, 3) && Decimal(p2) == Fixed(p2, 2)
    ensures Decimal(p3) == Fixed(p3, 4)
  {
    assert Pow10(1) == 10 && Pow10(2) == 100 && Pow10(3) == 1000 && Pow10(4) == 10000;
    DecimalIsFixed(p1, 3);
    DecimalIsFixed(p2, 2);
    DecimalIsFixed(p3, 4);
  }

  /** The digits of three digit runs joined by sep are the three runs. */
  lemma JoinedDigits(a: string, sep: string, g: string, s: string)
    requires AllDigits(a) && AllDigits(g) && AllDigits(s) && NoDigits(sep)
    ensures DigitsOf(a + sep + g + sep + s) == a + g + s
  {
    DigitsOfRuns(a, sep, g, sep, s);
  }

  /** The digits of the redacted layout are the last group. */
  lemma RedactedDigits(s: string)
    requires AllDigits(s)
    ensures DigitsOf("XXX-XX-" + s) == s
  {
    DigitsOfConcat("XXX-XX-", s);
    DigitsOfNone("XXX-XX-");
    DigitsOfDigits(s);
  }

  /** The digits a layout shows: all three groups in order, or only the last when redacted. */
  lemma LayoutDigits(a: string, g: string, s: string, f: Form)
    requires AllDigits(a) && AllDigits(g) && AllDigits(s)
    ensures f in {Dashed, Joined, Spaced} ==>
              Layout(a, g, s, f).Text? && DigitsOf(Layout(a, g, s, f).s) == a + g + s
    ensures f == Redacted ==> DigitsOf(Layout(a, g, s, f).s) == s
  {
    match f
    case Dashed => JoinedDigits(a, "-", g, s);
    case Joined =>
      assert a + [] + g + [] + s == a + g + s;
      JoinedDigits(a, [], g, s);
    case Spaced => JoinedDigits(a, " ", g, s);
    case Redacted => RedactedDigits(s);
    case Absent =>
  }

  /** The digits a cell shows: all three groups in order, or only the last when redacted. */
  lemma SsnDigits(p1: int, p2: int, p3: int, r: real)
    requires PartsInRange(p1, p2, p3) && 0.0 <= r < 1.0
    ensures var v := DirtySsn(p1, p2, p3, r);
      FormOf(r) in {Dashed, Joined, Spaced} ==>
        v.Text? && DigitsOf(v.s) == Decimal(p1) + Decimal(p2) + Decimal(p3)
    ensures var v := DirtySsn(p1, p2, p3, r);
      FormOf(r) == Redacted ==> v == Text("XXX-XX-" + Decimal(p3)) && DigitsOf(v.s) == Decimal(p3)
  {
    LayoutDigits(Decimal(p1), Decimal(p2), Decimal(p3), FormOf(r));
  }

  /** A full layout is read back as its three groups and shows the last as its last four digits. */
  lemma FullRead(a: string, g: string, s: string, f: Form)
    requires AllDigits(a) && AllDigits(g) && AllDigits(s)
    requires |a| == 3 && |g| == 2 && |s| == 4 && f in {Dashed, Joined, Spaced}
    ensures ParseSsn(Layout(a, g, s, f)) == Some((ValueOf(a), ValueOf(g), ValueOf(s)))
    ensures LastFour(Layout(a, g, s, f)) == Some(ValueOf(s))
  {
    LayoutDigits(a, g, s, f);
    var d := a + g + s;
    assert d[..3] == a && d[3..5] == g && d[5..] == s;
    assert d[|d| - 4..] == s;
  }

  /** The redacted layout has too few digits for a full number but shows the last group. */
  lemma RedactedRead(a: string, g: string, s: string)
    requires AllDigits(a) && AllDigits(g) && AllDigits(s) && |s| == 4
    ensures ParseSsn(Layout(a, g, s, Redacted)) == None
    ensures LastFour(Layout(a, g, s, Redacted)) == Some(ValueOf(s))
  {
    LayoutDigits(a, g, s, Redacted);
    assert s[|s| - 4..] == s;
  }

  /** How a reader sees each layout of digit groups of widths 3, 2 and 4. */
  lemma LayoutRead(a: string, g: string, s: string, f: Form)
    requires AllDigits(a) && AllDigits(g) && AllDigits(s)
    requires |a| == 3 && |g| == 2 && |s| == 4
    ensures f in {Dashed, Joined, Spaced} ==>
              ParseSsn(Layout(a, g, s, f)) == Some((ValueOf(a), ValueOf(g), ValueOf(s)))
    ensures f == Redacted ==> ParseSsn(Layout(a, g, s, f)) == None
    ensures f != Absent ==> LastFour(Layout(a, g, s, f)) == Some(ValueOf(s))
    ensures Layout(a, g, s, f).Missing? <==> f == Absent
  {
    if f == Redacted {
      RedactedRead(a, g, s);
    } else if f != Absent {
      FullRead(a, g, s, f);
    }
  }

  /**
   * The dashed, joined and spaced layouts are read back as the same three groups; the
   * redacted layout keeps only the last group, so no full number is read from it; every
   * non-missing layout shows the last group as its last four digits; and r >= 0.95, and
   * only such r, gives missing.
   */
  lemma SsnRoundTrip(p1: int, p2: int, p3: int, r: real)
    requires PartsInRange(p1, p2, p3) && 0.0 <= r < 1.0
    ensures FormOf(r) in {Dashed, Joined, Spaced} ==>
              ParseSsn(DirtySsn(p1, p2, p3, r)) == Some((p1, p2, p3))
    ensures FormOf(r) == Redacted ==> ParseSsn(DirtySsn(p1, p2, p3, r)) == None
    ensures FormOf(r) != Absent ==> LastFour(DirtySsn(p1, p2, p3, r)) == Some(p3)
    ensures DirtySsn(p1, p2, p3, r).Missing? <==> r >= 0.95
  {
    PartWidths(p1, p2, p3);
    assert Pow10(2) == 100 && Pow10(3) == 1000 && Pow10(4) == 10000;
    LayoutRead(Decimal(p1), Decimal(p2), Decimal(p3), FormOf(r));
  }
}
