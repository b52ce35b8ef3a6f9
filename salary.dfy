/**
 * The salary corruptor. A base salary of k thousand is drawn, then a draw r picks one of
 * six renderings: the plain int, "$" with comma grouping, "<k>k", "<base> USD", the monthly
 * amount as a two-decimal float, or missing.
 */
module Salary {
  import opened Wrappers
  import opened Values
  import opened Text
  import Weighted

  datatype Form = Raw | Dollars | Thousands | Usd | Monthly | Absent

  /** The branch weights of dirty_salary, that is the differences of its thresholds, in Form order. */
  const Weights: seq<real> := [0.5, 0.2, 0.1, 0.1, 0.05, 0.05]

  /** The rendering the draw r selects, by dirty_salary's thresholds 0.5, 0.7, 0.8, 0.9 and 0.95. */
  function FormOf(r: real): Form {
    if r < 0.5 then Raw
    else if r < 0.7 then Dollars
    else if r < 0.8 then Thousands
    else if r < 0.9 then Usd
    else if r < 0.95 then Monthly
    else Absent
  }

  function Index(f: Form): nat {
    match f
    case Raw => 0
    case Dollars => 1
    case Thousands => 2
    case Usd => 3
    case Monthly => 4
    case Absent => 5
  }

  /** dirty_salary's threshold chain selects exactly as a weighted pick from Weights. */
  lemma FormIsWeighted(r: real)
    ensures Index(FormOf(r)) == Weighted.Pick(Weights, r)
  {
    var w0 := Weights;
    var w1 := [0.2, 0.1, 0.1, 0.05, 0.05];
    var w2 := [0.1, 0.1, 0.05, 0.05];
    var w3 := [0.1, 0.05, 0.05];
    var w4 := [0.05, 0.05];
    var w5 := [0.05];
    assert w0[1..] == w1 && w1[1..] == w2 && w2[1..] == w3 && w3[1..] == w4 && w4[1..] == w5;
    var p4 := Weighted.Pick(w4, r - 0.9);
    assert p4 == if r - 0.9 < 0.05 then 0 else 1 + Weighted.Pick(w5, r - 0.9 - 0.05);
    var p3 := Weighted.Pick(w3, r - 0.8);
    assert p3 == if r - 0.8 < 0.1 then 0 else 1 + p4;
    var p2 := Weighted.Pick(w2, r - 0.7);
    assert p2 == if r - 0.7 < 0.1 then 0 else 1 + p3;
    var p1 := Weighted.Pick(w1, r - 0.5);
    assert p1 == if r - 0.5 < 0.2 then 0 else 1 + p2;
    assert Weighted.Pick(w0, r) == if r < 0.5 then 0 else 1 + p1;
  }

  /** random.randint(40, 180) * 1000. */
  function Base(k: int): (base: nat)
    requires 40 <= k <= 180
    ensures base % 1000 == 0 && 40000 <= base <= 180000
    ensures base / 1000 == k
  {
    1000 * k
  }

  /**
   * round(base / 12, 2) counted in hundredths: the integer nearest to 100 * base / 12.
   * For a multiple of 1000 it lies strictly within half a hundredth, so how round breaks
   * ties never matters.
   */
  function MonthlyHundredths(base: nat): (h: nat)
    requires base % 1000 == 0
    ensures -6 < 12 * h - 100 * base < 6
  {
    MonthlyNoTie(base);
    (100 * base + 6) / 12
  }

  /** 100 * base + 6 is never a multiple of 12 when base is a whole number of thousands. */
  lemma MonthlyNoTie(base: nat)
    requires base % 1000 == 0
    ensures (100 * base + 6) % 12 in {2, 6, 10}
  {
    var x := 100 * base + 6;
    var j := base / 1000;
    var t, u := j / 3, j % 3;
    assert base == 1000 * j;
    assert j == 3 * t + u;
    assert x == 12 * (25000 * t + 8333 * u) + 4 * u + 6;
    if u == 2 {
      assert x == 12 * (25000 * t + 8333 * u + 1) + 2;
    }
  }

  /**
   * dirty_salary() with the base drawn as k and the branch drawn as r. The cell is a number
   * exactly in the plain and monthly bands, and missing exactly from 0.95 on; the amount each
   * rendering carries is stated by SalaryKept.
   */
  function DirtySalary(k: int, r: real): (v: Value)
    requires 40 <= k <= 180 && 0.0 <= r < 1.0
    ensures v.Num? <==> r < 0.5 || 0.9 <= r < 0.95
    ensures v.Missing? <==> r >= 0.95
    ensures v.Text? ==> |v.s| > 0
  {
    var base := Base(k);
    match FormOf(r)
    case Raw => Num(Int(base))
    case Dollars => Text("$" + Grouped(base))
    case Thousands => Text(Decimal(base / 1000) + "k")
    case Usd => Text(Decimal(base) + " USD")
    case Monthly => Num(Hundredths(MonthlyHundredths(base)))
    case Absent => Missing
  }

  /**
   * The annual amount a reader recovers from a cell: an int as it is, "$" followed by
   * comma-grouped digits, digits followed by "k" (thousands), or digits followed by " USD".
   */
  function Annual(v: Value): Option<int> {
    match v
    case Num(Int(i)) => Some(i)
    case Text(s) =>
      if |s| >= 1 && s[0] == '$' then
        match ParseNat(Without(s[1..], ','))
        case Some(n) => Some(n)
        case None => None
      else if |s| >= 1 && s[|s| - 1] == 'k' then
        match ParseNat(s[..|s| - 1])
        case Some(n) => Some(1000 * n)
        case None => None
      else if |s| >= 4 && s[|s| - 4..] == " USD" then
        match ParseNat(s[..|s| - 4])
        case Some(n) => Some(n)
        case None => None
      else None
    case _ => None
  }

  /** "$" and the comma-grouped digits of n read back as n. */
  lemma ReadDollars(n: nat)
    ensures Annual(Text("$" + Grouped(n))) == Some(n)
  {
    var s := "$" + Grouped(n);
    assert s[1..] == Grouped(n);
    GroupedDigits(n);
  }

  /** The digits of k followed by "k" read back as k thousand. */
  lemma ReadThousands(k: nat)
    ensures Annual(Text(Decimal(k) + "k")) == Some(1000 * k)
  {
    var s := Decimal(k) + "k";
    assert s[..|s| - 1] == Decimal(k);
    assert s[0] == Decimal(k)[0];
  }

  /** The digits of n followed by " USD" read back as n. */
  lemma ReadUsd(n: nat)
    ensures Annual(Text(Decimal(n) + " USD")) == Some(n)
  {
    var s := Decimal(n) + " USD";
    assert s[..|s| - 4] == Decimal(n) && s[|s| - 4..] == " USD";
    assert s[0] == Decimal(n)[0];
  }

  /**
   * Every rendering below the monthly threshold carries the annual base exactly; the monthly
   * rendering is the base divided by 12 to within half a hundredth; r >= 0.95, and only such r,
   * gives missing.
   */
  lemma SalaryKept(k: int, r: real)
    requires 40 <= k <= 180 && 0.0 <= r < 1.0
    ensures r < 0.9 ==> Annual(DirtySalary(k, r)) == Some(1000 * k)
    ensures 0.9 <= r < 0.95 ==>
              DirtySalary(k, r).Num? && DirtySalary(k, r).n.Hundredths? &&
              -6 < 12 * DirtySalary(k, r).n.h - 100000 * k < 6
    ensures DirtySalary(k, r).Missing? <==> r >= 0.95
  {
    var base := Base(k);
    assert base == 1000 * k;
    match FormOf(r)
    case Raw =>
    case Dollars => ReadDollars(base);
    case Thousands => ReadThousands(k);
    case Usd => ReadUsd(base);
    case Monthly =>
    case Absent =>
  }

  /** The "$" form is "$" and the comma-grouped base; deleting the commas leaves the base. */
  lemma DollarsForm(k: int, r: real)
    requires 40 <= k <= 180 && 0.5 <= r < 0.7
    ensures DirtySalary(k, r) == Text("$" + Grouped(1000 * k))
    ensures Without(Grouped(1000 * k), ',') == Decimal(1000 * k)
  {
    assert FormOf(r) == Dollars;
    GroupedDigits(1000 * k);
  }

  /** A base of k thousand is grouped as the digits of k, a comma, and "000". */
  lemma GroupedSalary(k: nat)
    requires 40 <= k <= 180
    ensures Grouped(1000 * k) == Decimal(k) + "," + "000"
  {
    assert (1000 * k) / 1000 == k && (1000 * k) % 1000 == 0;
    assert Grouped(k) == Decimal(k);
    FixedThree(0);
  }

  /** A base of 84000 in the "k" branch is the text "84k". */
  lemma ThousandsExample(r: real)
    requires 0.7 <= r < 0.8
    ensures DirtySalary(84, r) == Text("84k")
  {
    assert Decimal(84) == "84";
  }
}
