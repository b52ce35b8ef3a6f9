/**
 * String formatting as the generator's f-strings and str methods do it: decimal digits,
 * zero padding, comma grouping, ASCII case conversion and joining with a separator.
 * Beside each formatter stands the reading that undoes it (digit values, filters, a splitter),
 * so that the corruptors' renderings can be shown to keep their content.
 */
module Text {
  import opened Wrappers

  function Pow10(w: nat): (p: nat)
    ensures p >= 1
  {
    if w == 0 then 1 else 10 * Pow10(w - 1)
  }

  predicate IsDigit(c: char) {
    '0' <= c <= '9'
  }

  predicate AllDigits(s: string) {
    forall i :: 0 <= i < |s| ==> IsDigit(s[i])
  }

  function DigitValue(c: char): (d: nat)
    requires IsDigit(c)
    ensures d < 10
  {
    (c as int) - ('0' as int)
  }

  function DigitChar(d: nat): (c: char)
    requires d < 10
    ensures IsDigit(c) && DigitValue(c) == d
  {
    (('0' as int) + d) as char
  }

  /** The number a string of decimal digits denotes, most significant digit first. */
  function ValueOf(s: string): nat
    requires AllDigits(s)
  {
    if s == [] then 0 else 10 * ValueOf(s[..|s| - 1]) + DigitValue(s[|s| - 1])
  }

  /** A string that is a non-empty run of decimal digits, read as a number. */
  function ParseNat(s: string): (r: Option<nat>)
    ensures r.Some? <==> s != [] && AllDigits(s)
  {
    if s != [] && AllDigits(s) then Some(ValueOf(s)) else None
  }

  /** n in decimal without leading zeros, as str(n) and f"{n}" write a non-negative int. */
  function Decimal(n: nat): (s: string)
    ensures 1 <= |s| && AllDigits(s)
    ensures ValueOf(s) == n
  {
    if n < 10 then [DigitChar(n)] else Decimal(n / 10) + [DigitChar(n % 10)]
  }

  /** The w lowest decimal digits of n, most significant first, leading zeros kept. */
  function Fixed(n: nat, w: nat): (s: string)
    ensures |s| == w && AllDigits(s)
    ensures n < Pow10(w) ==> ValueOf(s) == n
  {
    if w == 0 then [] else Fixed(n / 10, w - 1) + [DigitChar(n % 10)]
  }

  /** n zero-padded to at least w digits, as f"{n:0wd}" writes it; a longer number is not cut. */
  function ZeroPad(n: nat, w: nat): (s: string)
    ensures AllDigits(s) && ValueOf(s) == n
    ensures n < Pow10(w) ==> |s| == w
    ensures n >= Pow10(w) ==> s == Decimal(n) && |s| > w
  {
    if n < Pow10(w) then Fixed(n, w) else DecimalLonger(n, w); Decimal(n)
  }

  /** A number of at least w + 1 digits takes more than w characters in decimal. */
  lemma {:induction false} DecimalLonger(n: nat, w: nat)
    requires n >= Pow10(w)
    ensures |Decimal(n)| > w
  {
    if w > 0 {
      DecimalLonger(n / 10, w - 1);
    }
  }

  /** A number of exactly w digits is written in decimal with exactly those w digits. */
  lemma {:induction false} DecimalIsFixed(n: nat, w: nat)
    requires 1 <= w && Pow10(w - 1) <= n < Pow10(w)
    ensures Decimal(n) == Fixed(n, w)
  {
    if w > 1 {
      DecimalIsFixed(n / 10, w - 1);
    }
  }

  /** Writing 1000 * a + b in decimal writes a, then the three digits of b. */
  lemma DecimalThousands(a: nat, b: nat)
    requires 1 <= a && b < 1000
    ensures Decimal(1000 * a + b) == Decimal(a) + Fixed(b, 3)
  {
    DecimalLastThree(a, b);
    FixedThree(b);
  }

  /** The last three decimal digits of 1000 * a + b are those of b. */
  lemma DecimalLastThree(a: nat, b: nat)
    requires 1 <= a && b < 1000
    ensures Decimal(1000 * a + b) ==
              Decimal(a) + [DigitChar(b / 100)] + [DigitChar((b / 10) % 10)] + [DigitChar(b % 10)]
  {
    var c := b / 10;
    assert c / 10 == b / 100;
    DecimalStep(1000 * a + b, 100 * a + c, b % 10);
    DecimalLastTwo(a, c);
  }

  /** The last two decimal digits of 100 * a + c are those of c. */
  lemma DecimalLastTwo(a: nat, c: nat)
    requires 1 <= a && c < 100
    ensures Decimal(100 * a + c) == Decimal(a) + [DigitChar(c / 10)] + [DigitChar(c % 10)]
  {
    DecimalStep(100 * a + c, 10 * a + c / 10, c % 10);
    DecimalStep(10 * a + c / 10, a, c / 10);
  }

  /** The three digits of b below 1000, hundreds first. */
  lemma FixedThree(b: nat)
    requires b < 1000
    ensures Fixed(b, 3) == [DigitChar(b / 100)] + [DigitChar((b / 10) % 10)] + [DigitChar(b % 10)]
  {
    assert (b / 10) / 10 == b / 100;
    FixedOne(b / 100);
    FixedStep(b / 10, 2);
    FixedStep(b, 3);
  }

  lemma FixedStep(n: nat, w: nat)
    requires w >= 1
    ensures Fixed(n, w) == Fixed(n / 10, w - 1) + [DigitChar(n % 10)]
  {
  }

  lemma FixedOne(d: nat)
    requires d < 10
    ensures Fixed(d, 1) == [DigitChar(d)]
  {
    FixedStep(d, 1);
    assert d / 10 == 0 && d % 10 == d;
    assert Fixed(0, 0) == [];
  }

  /** A number of two or more digits is its leading part followed by its last digit. */
  lemma DecimalStep(x: nat, y: nat, d: nat)
    requires x == 10 * y + d && d < 10 && y >= 1
    ensures Decimal(x) == Decimal(y) + [DigitChar(d)]
  {
    assert x / 10 == y && x % 10 == d;
  }

  /** The characters of s other than c, in order. */
  function Without(s: string, c: char): (t: string)
    ensures c !in t
  {
    if s == [] then [] else (if s[0] == c then [] else [s[0]]) + Without(s[1..], c)
  }

  lemma {:induction false} WithoutConcat(a: string, b: string, c: char)
    ensures Without(a + b, c) == Without(a, c) + Without(b, c)
  {
    if a == [] {
      assert a + b == b;
    } else {
      assert (a + b)[0] == a[0] && (a + b)[1..] == a[1..] + b;
      WithoutConcat(a[1..], b, c);
    }
  }

  lemma {:induction false} WithoutAbsent(s: string, c: char)
    requires c !in s
    ensures Without(s, c) == s
  {
    if s != [] {
      WithoutAbsent(s[1..], c);
    }
  }

  /** n with a comma between every group of three digits counted from the right, as f"{n:,}". */
  function Grouped(n: nat): string
  {
    if n < 1000 then Decimal(n) else Grouped(n / 1000) + "," + Fixed(n % 1000, 3)
  }

  /** A run of digits holds no comma. */
  lemma DigitsNoComma(s: string)
    requires AllDigits(s)
    ensures ',' !in s
  {
    forall k | 0 <= k < |s|
      ensures s[k] != ','
    {
      assert IsDigit(s[k]);
    }
  }

  /** Deleting the commas from x, a comma and a comma-free tail keeps the tail whole. */
  lemma CommaDropped(x: string, tail: string)
    requires ',' !in tail
    ensures Without(x + "," + tail, ',') == Without(x, ',') + tail
  {
    var comma := ",";
    assert comma[0] == ',' && comma[1..] == [];
    assert Without(comma, ',') == [];
    WithoutConcat(x, comma, ',');
    WithoutConcat(x + comma, tail, ',');
    WithoutAbsent(tail, ',');
  }

  /** Deleting the commas from the grouped form gives back the plain decimal form. */
  lemma {:induction false} GroupedDigits(n: nat)
    ensures Without(Grouped(n), ',') == Decimal(n)
  {
    if n < 1000 {
      DigitsNoComma(Decimal(n));
      WithoutAbsent(Decimal(n), ',');
    } else {
      var a, b := n / 1000, n % 1000;
      var tail := Fixed(b, 3);
      DigitsNoComma(tail);
      CommaDropped(Grouped(a), tail);
      GroupedDigits(a);
      DecimalThousands(a, b);
    }
  }

  /** The decimal digits of s, in order, every other character dropped. */
  function DigitsOf(s: string): (t: string)
    ensures AllDigits(t)
  {
    if s == [] then [] else (if IsDigit(s[0]) then [s[0]] else []) + DigitsOf(s[1..])
  }

  lemma {:induction false} DigitsOfConcat(a: string, b: string)
    ensures DigitsOf(a + b) == DigitsOf(a) + DigitsOf(b)
  {
    if a == [] {
      assert a + b == b;
    } else {
      var ab := a + b;
      assert DigitsOf(a) == (if IsDigit(a[0]) then [a[0]] else []) + DigitsOf(a[1..]);
      assert ab[0] == a[0];
      assert ab[1..] == a[1..] + b;
      DigitsOfConcat(a[1..], b);
      assert DigitsOf(ab) == (if IsDigit(a[0]) then [a[0]] else []) + DigitsOf(a[1..] + b);
    }
  }

  lemma {:induction false} DigitsOfDigits(s: string)
    requires AllDigits(s)
    ensures DigitsOf(s) == s
  {
    if s != [] {
      DigitsOfDigits(s[1..]);
    }
  }

  lemma {:induction false} DigitsOfNone(s: string)
    requires NoDigits(s)
    ensures DigitsOf(s) == []
  {
    if s != [] {
      DigitsOfNone(s[1..]);
    }
  }

  predicate NoDigits(s: string) {
    forall i :: 0 <= i < |s| ==> !IsDigit(s[i])
  }

  /** The digits of three digit runs with digit-free text between them are the three runs. */
  lemma DigitsOfRuns(a: string, p1: string, b: string, p2: string, c: string)
    requires NoDigits(p1) && NoDigits(p2)
    requires AllDigits(a) && AllDigits(b) && AllDigits(c)
    ensures DigitsOf(a + p1 + b + p2 + c) == a + b + c
  {
    DigitsOfDigits(a);
    var s2 := a + p1;
    DigitsOfConcat(a, p1);
    DigitsOfNone(p1);
    assert DigitsOf(s2) == a;
    var s3 := s2 + b;
    DigitsOfConcat(s2, b);
    DigitsOfDigits(b);
    assert DigitsOf(s3) == a + b;
    var s4 := s3 + p2;
    DigitsOfConcat(s3, p2);
    DigitsOfNone(p2);
    assert DigitsOf(s4) == a + b;
    DigitsOfConcat(s4, c);
    DigitsOfDigits(c);
  }

  /** The digits of three digit runs with digit-free text around them are the three runs. */
  lemma DigitsOfThree(p0: string, a: string, p1: string, b: string, p2: string, c: string)
    requires NoDigits(p0) && NoDigits(p1) && NoDigits(p2)
    requires AllDigits(a) && AllDigits(b) && AllDigits(c)
    ensures DigitsOf(p0 + a + p1 + b + p2 + c) == a + b + c
  {
    var s1 := p0 + a;
    DigitsOfConcat(p0, a);
    DigitsOfNone(p0);
    DigitsOfDigits(a);
    assert DigitsOf(s1) == a;
    var s2 := s1 + p1;
    DigitsOfConcat(s1, p1);
    DigitsOfNone(p1);
    assert DigitsOf(s2) == a;
    var s3 := s2 + b;
    DigitsOfConcat(s2, b);
    DigitsOfDigits(b);
    assert DigitsOf(s3) == a + b;
    var s4 := s3 + p2;
    DigitsOfConcat(s3, p2);
    DigitsOfNone(p2);
    assert DigitsOf(s4) == a + b;
    DigitsOfConcat(s4, c);
    DigitsOfDigits(c);
  }

  function LowerChar(c: char): char {
    if 'A' <= c <= 'Z' then (c as int + 32) as char else c
  }

  function UpperChar(c: char): char {
    if 'a' <= c <= 'z' then (c as int - 32) as char else c
  }

  predicate IsUpperChar(c: char) {
    'A' <= c <= 'Z'
  }

  /** str.lower() on ASCII letters. */
  function Lower(s: string): (t: string)
    ensures |t| == |s|
    ensures forall i :: 0 <= i < |t| ==> !IsUpperChar(t[i])
  {
    seq(|s|, i requires 0 <= i < |s| => LowerChar(s[i]))
  }

  /** str.upper() on ASCII letters. */
  function Upper(s: string): (t: string)
    ensures |t| == |s|
  {
    seq(|s|, i requires 0 <= i < |s| => UpperChar(s[i]))
  }

  lemma LowerConcat(a: string, b: string)
    ensures Lower(a + b) == Lower(a) + Lower(b)
  {
  }

  /** Lower-casing forgets any earlier change of case. */
  lemma LowerForgetsCase(s: string)
    ensures Lower(Upper(s)) == Lower(s)
    ensures Lower(Lower(s)) == Lower(s)
  {
  }

  /** sep.join(xs): the items of xs with sep between each neighbouring pair. */
  function Join(sep: string, xs: seq<string>): string
  {
    if |xs| == 0 then [] else if |xs| == 1 then xs[0] else xs[0] + sep + Join(sep, xs[1..])
  }

  /**
   * s.split(sep): s cut at every occurrence of sep, scanning from the left, so that
   * an empty string gives one empty piece.
   */
  function Split(s: string, sep: string): (parts: seq<string>)
    requires sep != []
    ensures |parts| >= 1
    decreases |s|
  {
    if |sep| <= |s| && s[..|sep|] == sep then [[]] + Split(s[|sep|..], sep)
    else if s == [] then [[]]
    else var rest := Split(s[1..], sep); [[s[0]] + rest[0]] + rest[1..]
  }

  /** No occurrence of sep starts inside x, even one that runs on into a following sep. */
  predicate SepFree(x: string, sep: string) {
    forall i :: 0 <= i < |x| ==> (x[i..] + sep)[..|sep|] != sep
  }

  /**
   * A character of sep at position j that neither x nor the part of sep before j holds
   * keeps every occurrence of sep out of x.
   */
  lemma SepFreeByWitness(x: string, sep: string, j: nat)
    requires j < |sep| && sep[j] !in x && sep[j] !in sep[..j]
    ensures SepFree(x, sep)
  {
    forall i | 0 <= i < |x|
      ensures (x[i..] + sep)[..|sep|] != sep
    {
      var window := (x[i..] + sep)[..|sep|];
      if i + j < |x| {
        assert window[j] == x[i + j];
      } else {
        assert window[j] == sep[i + j - |x|];
        assert sep[i + j - |x|] in sep[..j];
      }
    }
  }

  lemma {:induction false} SplitWhole(x: string, sep: string)
    requires sep != [] && SepFree(x, sep)
    ensures Split(x, sep) == [x]
    decreases |x|
  {
    if x != [] {
      assert (x[0..] + sep)[..|sep|] != sep;
      if |sep| <= |x| {
        assert x[..|sep|] == (x[0..] + sep)[..|sep|];
      }
      assert SepFree(x[1..], sep) by {
        forall i | 0 <= i < |x[1..]| ensures (x[1..][i..] + sep)[..|sep|] != sep {
          assert x[1..][i..] == x[i + 1..];
        }
      }
      SplitWhole(x[1..], sep);
      assert [x[0]] + x[1..] == x;
    }
  }

  lemma {:induction false} SplitPrefix(x: string, sep: string, y: string)
    requires sep != [] && SepFree(x, sep)
    ensures Split(x + sep + y, sep) == [x] + Split(y, sep)
    decreases |x|
  {
    var s := x + sep + y;
    if x == [] {
      assert s == sep + y;
      assert s[..|sep|] == sep;
      assert s[|sep|..] == y;
    } else {
      assert s[..|sep|] == (x[0..] + sep)[..|sep|];
      assert s[1..] == x[1..] + sep + y;
      assert SepFree(x[1..], sep) by {
        forall i | 0 <= i < |x[1..]| ensures (x[1..][i..] + sep)[..|sep|] != sep {
          assert x[1..][i..] == x[i + 1..];
        }
      }
      SplitPrefix(x[1..], sep, y);
      assert [x[0]] + x[1..] == x;
    }
  }

  /** Splitting a joined list at its separator gives the list back. */
  lemma {:induction false} SplitJoin(xs: seq<string>, sep: string)
    requires sep != [] && |xs| >= 1
    requires forall k :: 0 <= k < |xs| ==> SepFree(xs[k], sep)
    ensures Split(Join(sep, xs), sep) == xs
  {
    if |xs| == 1 {
      SplitWhole(xs[0], sep);
    } else {
      SplitPrefix(xs[0], sep, Join(sep, xs[1..]));
      SplitJoin(xs[1..], sep);
    }
  }
}
