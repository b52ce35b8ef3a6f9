/**
 * The phone corruptor. Three digit groups (area, exchange and line number) are drawn and a
 * draw r picks one of five layouts: "(AAA) MMM-LLLL", "AAA.MMM.LLLL", "AAA-MMM-LLLL",
 * "+1 AAA MMM LLLL" or the ten digits run together.
 */
module Phone {
  import opened Wrappers
  import opened Text
  import Weighted

  datatype Form = Parenthesized | Dotted | Dashed | International | Bare

  /** The branch weights of dirty_phone, that is the differences of its thresholds, in Form order. */
  const Weights: seq<real> := [0.4, 0.2, 0.2, 0.1, 0.1]

  /** The layout the draw r selects, by dirty_phone's thresholds 0.4, 0.6, 0.8 and 0.9. */
  function FormOf(r: real): Form {
    if r < 0.4 then Parenthesized
    else if r < 0.6 then Dotted
    else if r < 0.8 then Dashed
    else if r < 0.9 then International
    else Bare
  }

  function Index(f: Form): nat {
    match f
    case Parenthesized => 0
    case Dotted => 1
    case Dashed => 2
    case International => 3
    case Bare => 4
  }

  /** dirty_phone's threshold chain selects exactly as a weighted pick from Weights. */
  lemma FormIsWeighted(r: real)
    ensures Index(FormOf(r)) == Weighted.Pick(Weights, r)
  {
    var w0 := Weights;
    var w1 := [0.2, 0.2, 0.1, 0.1];
    var w2 := [0.2, 0.1, 0.1];
    var w3 := [0.1, 0.1];
    var w4 := [0.1];
    assert w0[1..] == w1 && w1[1..] == w2 && w2[1..] == w3 && w3[1..] == w4;
    var p3 := Weighted.Pick(w3, r - 0.8);
    assert p3 == if r - 0.8 < 0.1 then 0 else 1 + Weighted.Pick(w4, r - 0.8 - 0.1);
    var p2 := Weighted.Pick(w2, r - 0.6);
    assert p2 == if r - 0.6 < 0.2 then 0 else 1 + p3;
    var p1 := Weighted.Pick(w1, r - 0.4);
    assert p1 == if r - 0.4 < 0.2 then 0 else 1 + p2;
    assert Weighted.Pick(w0, r) == if r < 0.4 then 0 else 1 + p1;
  }

  /** The draws random.randint(100, 999), random.randint(100, 999), random.randint(1000, 9999). */
  predicate PartsInRange(area: int, mid: int, line: int) {
    100 <= area <= 999 && 100 <= mid <= 999 && 1000 <= line <= 9999
  }

  /** The text layout f writes for the digit groups a, m and l. */
  function Layout(a: string, m: string, l: string, f: Form): string {
    match f
    case Parenthesized => "(" + a + ") " + m + "-" + l
    case Dotted => a + "." + m + "." + l
    case Dashed => a + "-" + m + "-" + l
    case International => "+1 " + a + " " + m + " " + l
    case Bare => a + m + l
  }

  /**
   * dirty_phone() with the digit groups drawn as area, mid, line and the layout drawn as r.
   * Apart from a "+1 " country code the number shows the digits of the three groups in order.
   */
  function DirtyPhone(area: int, mid: int, line: int, r: real): (s: string)
    requires PartsInRange(area, mid, line) && 0.0 <= r < 1.0
    ensures DigitsOf(National(s)) == Decimal(area) + Decimal(mid) + Decimal(line)
  {
    LayoutDigits(Decimal(area), Decimal(mid), Decimal(line), FormOf(r));
    Layout(Decimal(area), Decimal(mid), Decimal(line), FormOf(r))
  }

  /** A number without its leading "+1 " country code, when it has one. */
  function National(s: string): string {
    if |s| >= 3 && s[..3] == "+1 " then s[3..] else s
  }

  /** How a reader takes a number apart: the ten digits of the national part, cut 3-3-4. */
  function ParsePhone(s: string): Option<(nat, nat, nat)> {
    var d := DigitsOf(National(s));
    if |d| == 10 then Some((ValueOf(d[..3]), ValueOf(d[3..6]), ValueOf(d[6..]))) else None
  }

  /** The three groups are written with exactly 3, 3 and 4 digits. */
  lemma PartWidths(area: int, mid: int, line: int)
    requires PartsInRange(area, mid, line)
    ensures Decimal(area) == Fixed(area, 3) && Decimal(mid) == Fixed(mid, 3)
    ensures Decimal(line) == Fixed(line, 4)
  {
    assert Pow10(2) == 100 && Pow10(3) == 1000 && Pow10(4) == 10000;
    DecimalIsFixed(area, 3);
    DecimalIsFixed(mid, 3);
    DecimalIsFixed(line, 4);
  }

  /** Apart from the country code, every layout holds exactly the digits of a, m, l in order. */
  lemma LayoutDigits(a: string, m: string, l: string, f: Form)
    requires a != [] && AllDigits(a) && AllDigits(m) && AllDigits(l)
    ensures DigitsOf(National(Layout(a, m, l, f))) == a + m + l
  {
    var s := Layout(a, m, l, f);
    match f
    case Parenthesized =>
      assert s[0] == '(';
      assert National(s) == "(" + a + ") " + m + "-" + l;
      DigitsOfThree("(", a, ") ", m, "-", l);
    case Dotted =>
      assert s[0] == a[0] && IsDigit(a[0]);
      DigitsOfRuns(a, ".", m, ".", l);
    case Dashed =>
      assert s[0] == a[0] && IsDigit(a[0]);
      DigitsOfRuns(a, "-", m, "-", l);
    case International =>
      assert s[..3] == "+1 ";
      assert National(s) == a + " " + m + " " + l;
      DigitsOfRuns(a, " ", m, " ", l);
    case Bare =>
      assert s[0] == a[0] && IsDigit(a[0]);
      assert s == a + [] + m + [] + l;
      DigitsOfRuns(a, [], m, [], l);
  }

  /**
   * Apart from the country code, every layout holds exactly the digits area, mid, line in
   * that order, ten of them; the bare layout is nothing but those ten digits.
   */
  lemma PhoneDigits(area: int, mid: int, line: int, r: real)
    requires PartsInRange(area, mid, line) && 0.0 <= r < 1.0
    ensures var s := DirtyPhone(area, mid, line, r);
      && DigitsOf(National(s)) == Decimal(area) + Decimal(mid) + Decimal(line)
      && |DigitsOf(National(s))| == 10
      && (FormOf(r) == Bare ==> |s| == 10 && AllDigits(s))
  {
    var a, m, l := Decimal(area), Decimal(mid), Decimal(line);
    PartWidths(area, mid, line);
    if FormOf(r) == Bare {
      var s := a + m + l;
      assert forall k :: 0 <= k < |s| ==> IsDigit(s[k]) by {
        forall k | 0 <= k < |s|
          ensures IsDigit(s[k])
        {
          if k < |a| {
            assert s[k] == a[k];
          } else if k < |a| + |m| {
            assert s[k] == m[k - |a|];
          } else {
            assert s[k] == l[k - |a| - |m|];
          }
        }
      }
    }
  }

  /** Every layout is read back as the same three groups. */
  lemma PhoneRoundTrip(area: int, mid: int, line: int, r: real)
    requires PartsInRange(area, mid, line) && 0.0 <= r < 1.0
    ensures ParsePhone(DirtyPhone(area, mid, line, r)) == Some((area, mid, line))
  {
    PhoneDigits(area, mid, line, r);
    PartWidths(area, mid, line);
    var d := Fixed(area, 3) + Fixed(mid, 3) + Fixed(line, 4);
    assert d[..3] == Fixed(area, 3) && d[3..6] == Fixed(mid, 3) && d[6..] == Fixed(line, 4);
    assert Pow10(3) == 1000 && Pow10(4) == 10000;
  }
}
