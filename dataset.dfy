/**
 * Dataset assembly: the base rows, then 40 of them sampled again without replacement, then
 * 15 all-missing rows, the whole shuffled. The sample indices and the shuffle order are the
 * random draws; sampling 40 distinct rows from fewer than 40 is the error pandas raises.
 */
module Dataset {
  import opened Wrappers
  import opened Values
  import opened Rows

  /** NUM_ROWS. */
  const NumRows: nat := 2500

  /** The n of df.sample(n=40). */
  const DuplicateCount: nat := 40

  /** The passes of the loop appending blank rows. */
  const BlankCount: nat := 15

  datatype AssemblyError = SampleLargerThanPopulation

  /** 40 distinct row positions below n: what df.sample(n=40) draws from n rows. */
  predicate DistinctPicks(picks: seq<nat>, n: nat) {
    && |picks| == DuplicateCount
    && (forall j :: 0 <= j < |picks| ==> picks[j] < n)
    && (forall j, k :: 0 <= j < k < |picks| ==> picks[j] != picks[k])
  }

  /** An ordering of the positions 0 .. n - 1: what df.sample(frac=1) draws. */
  predicate IsPermutation(p: seq<nat>, n: nat) {
    && |p| == n
    && (forall j :: 0 <= j < |p| ==> p[j] < n)
    && (forall j, k :: 0 <= j < k < |p| ==> p[j] != p[k])
  }

  /** t copies of the blank row. */
  function Blanks(t: nat): (s: seq<Record>)
    ensures |s| == t
    ensures forall j :: 0 <= j < t ==> s[j] == Blank
  {
    seq(t, _ => Blank)
  }

  /**
   * The elements of s at the positions p, in the order of p: the rows df.sample(n=40) draws,
   * and, for a permutation p, the frame df.sample(frac=1) shuffles into.
   */
  function Gather<T>(s: seq<T>, p: seq<nat>): (t: seq<T>)
    requires forall j :: 0 <= j < |p| ==> p[j] < |s|
    ensures |t| == |p|
    ensures forall j :: 0 <= j < |t| ==> t[j] == s[p[j]]
  {
    seq(|p|, j requires 0 <= j < |p| => s[p[j]])
  }

  /** The positions p[..n] of a permutation of n + 1, renumbered once p[n] is removed. */
  function Renumbered(p: seq<nat>, n: nat): (q: seq<nat>)
    requires n < |p|
    ensures |q| == n
  {
    seq(n, j requires 0 <= j < n => if p[j] <= p[n] then p[j] else p[j] - 1)
  }

  lemma RenumberedPermutation(p: seq<nat>, n: nat)
    requires IsPermutation(p, n + 1)
    ensures IsPermutation(Renumbered(p, n), n)
  {
    var q := Renumbered(p, n);
    forall j, k | 0 <= j < k < n
      ensures q[j] != q[k]
    {
      assert p[j] != p[k] && p[j] != p[n] && p[k] != p[n];
    }
    forall j | 0 <= j < n
      ensures q[j] < n
    {
      assert p[j] != p[n];
    }
  }

  /** Gathering by p is gathering the rest by the renumbered positions, then the row at p[n]. */
  lemma GatherLast<T>(s: seq<T>, p: seq<nat>)
    requires |s| >= 1 && IsPermutation(p, |s|)
    ensures var n, m := |s| - 1, p[|s| - 1];
      Gather(s, p) == Gather(s[..m] + s[m + 1..], Renumbered(p, n)) + [s[m]]
  {
    var n, m := |s| - 1, p[|s| - 1];
    var rest, q := s[..m] + s[m + 1..], Renumbered(p, n);
    RenumberedPermutation(p, n);
    forall j | 0 <= j < n
      ensures Gather(rest, q)[j] == s[p[j]]
    {
      assert p[j] != m;
    }
  }

  /** Reordering by a permutation keeps every row and its number of copies. */
  lemma {:induction false} GatherPermutation<T>(s: seq<T>, p: seq<nat>)
    requires IsPermutation(p, |s|)
    ensures multiset(Gather(s, p)) == multiset(s)
    decreases |s|
  {
    if |s| > 0 {
      var n, m := |s| - 1, p[|s| - 1];
      var rest := s[..m] + s[m + 1..];
      RenumberedPermutation(p, n);
      GatherPermutation(rest, Renumbered(p, n));
      GatherLast(s, p);
      assert s == s[..m] + [s[m]] + s[m + 1..];
    }
  }

  /** The rows before the shuffle: the base, its sampled copies and the blank rows. */
  function Combined(base: seq<Record>, picks: seq<nat>): (c: seq<Record>)
    requires forall j :: 0 <= j < |picks| ==> picks[j] < |base|
    ensures |c| == |base| + |picks| + BlankCount
  {
    base + Gather(base, picks) + Blanks(BlankCount)
  }

  /**
   * Before the shuffle the frame is the base rows in order, then row j of the 40 copies equal
   * to the base row at the j-th sampled position, then the 15 rows with every column missing.
   */
  lemma CombinedLayout(base: seq<Record>, picks: seq<nat>)
    requires DistinctPicks(picks, |base|)
    ensures var c := Combined(base, picks);
      && c[..|base|] == base
      && (forall j :: 0 <= j < DuplicateCount ==> c[|base| + j] == base[picks[j]])
      && (forall k :: |base| + DuplicateCount <= k < |c| ==>
            forall col :: 0 <= col < |Columns| ==> Cells(c[k])[col] == Missing)
  {
    var c := Combined(base, picks);
    var n := |base|;
    assert c[..n] == base;
    forall k | n + DuplicateCount <= k < |c|
      ensures c[k] == Blank
    {
      assert c[k] == Blanks(BlankCount)[k - n - DuplicateCount];
    }
    BlankIsAllMissing();
  }

  /**
   * concat with df.sample(n=40), 15 appended blank rows, then df.sample(frac=1): an error
   * when there are fewer than 40 rows to sample from, otherwise the combined rows reordered.
   */
  method Assemble(base: seq<Record>, picks: seq<nat>, perm: seq<nat>)
    returns (res: Result<seq<Record>, AssemblyError>)
    requires |base| >= DuplicateCount ==>
               DistinctPicks(picks, |base|) && IsPermutation(perm, |base| + DuplicateCount + BlankCount)
    ensures res.Err? <==> |base| < DuplicateCount
    ensures res.Ok? ==> res.value == Gather(Combined(base, picks), perm)
  {
    if |base| < DuplicateCount {
      return Err(SampleLargerThanPopulation);
    }
    var df := base + Gather(base, picks);
    var t := 0;
    while t < BlankCount
      invariant 0 <= t <= BlankCount
      invariant df == base + Gather(base, picks) + Blanks(t)
    {
      assert Blanks(t + 1) == Blanks(t) + [Blank];
      df := df + [Blank];
      t := t + 1;
    }
    return Ok(Gather(df, perm));
  }

  /** A set of positions below n has at most n elements. */
  lemma {:induction false} BoundedSet(a: set<nat>, n: nat)
    requires forall x :: x in a ==> x < n
    ensures |a| <= n
  {
    if n > 0 {
      var rest := a - {n - 1};
      BoundedSet(rest, n - 1);
      assert a <= rest + {n - 1};
    } else {
      assert a == {};
    }
  }

  /** The positions a sequence holds. */
  function Elements(s: seq<nat>): set<nat> {
    set x | x in s
  }

  /** Distinct elements make a set as large as the sequence. */
  lemma {:induction false} DistinctSet(s: seq<nat>)
    requires forall j, k :: 0 <= j < k < |s| ==> s[j] != s[k]
    ensures |Elements(s)| == |s|
  {
    if s != [] {
      var n := |s| - 1;
      var prefix := s[..n];
      DistinctSet(prefix);
      assert s == prefix + [s[n]];
      assert s[n] !in prefix;
      assert Elements(s) == Elements(prefix) + {s[n]};
    } else {
      assert Elements(s) == {};
    }
  }

  /**
   * Sampling 40 rows without replacement needs at least 40 rows: 40 distinct positions below
   * n exist exactly when n >= 40, which is why the call fails on a smaller frame.
   */
  lemma SampleNeedsRoom(picks: seq<nat>, n: nat)
    requires DistinctPicks(picks, n)
    ensures n >= DuplicateCount
  {
    DistinctSet(picks);
    BoundedSet(Elements(picks), n);
  }

  /** From 40 rows or more, the first 40 positions are one possible sample. */
  lemma SampleFits(n: nat)
    requires n >= DuplicateCount
    ensures DistinctPicks(seq(DuplicateCount, j => j), n)
  {
  }

  /** The assembled frame has the base rows plus 55: 2555 rows from the 2500 generated. */
  lemma AssembledSize(base: seq<Record>, picks: seq<nat>, perm: seq<nat>)
    requires DistinctPicks(picks, |base|)
    requires IsPermutation(perm, |base| + DuplicateCount + BlankCount)
    ensures |Gather(Combined(base, picks), perm)| == |base| + 55
    ensures |base| == NumRows ==> |Gather(Combined(base, picks), perm)| == 2555
  {
  }

  /**
   * The shuffle loses and invents nothing: the output holds each base row, each sampled copy
   * and each blank row exactly as often as the frame before the shuffle.
   */
  lemma AssembledRows(base: seq<Record>, picks: seq<nat>, perm: seq<nat>)
    requires DistinctPicks(picks, |base|)
    requires IsPermutation(perm, |base| + DuplicateCount + BlankCount)
    ensures multiset(Gather(Combined(base, picks), perm)) ==
              multiset(base) + multiset(Gather(base, picks)) + multiset(Blanks(BlankCount))
    ensures forall x :: x in Gather(Combined(base, picks), perm) ==> x in base || x == Blank
  {
    var c := Combined(base, picks);
    GatherPermutation(c, perm);
    assert multiset(c) == multiset(base) + multiset(Gather(base, picks)) + multiset(Blanks(BlankCount));
    forall x | x in Gather(c, perm)
      ensures x in base || x == Blank
    {
      assert x in multiset(c);
      assert x in c;
    }
  }

  lemma {:induction false} BlanksCount(t: nat)
    ensures multiset(Blanks(t))[Blank] == t
  {
    if t > 0 {
      assert Blanks(t) == Blanks(t - 1) + [Blank];
      BlanksCount(t - 1);
    }
  }

  /** When no base row is blank, the output has exactly the 15 appended blank rows. */
  lemma BlankRows(base: seq<Record>, picks: seq<nat>, perm: seq<nat>)
    requires DistinctPicks(picks, |base|)
    requires IsPermutation(perm, |base| + DuplicateCount + BlankCount)
    requires Blank !in base
    ensures multiset(Gather(Combined(base, picks), perm))[Blank] == BlankCount
  {
    AssembledRows(base, picks, perm);
    BlanksCount(BlankCount);
    var s := Gather(base, picks);
    assert Blank !in s;
    assert multiset(s)[Blank] == 0;
    assert multiset(base)[Blank] == 0;
  }

  /** The whole generator: the row loop, then assembly of the frame that is written out. */
  method Generate(draws: seq<RowDraws>, picks: seq<nat>, perm: seq<nat>)
    returns (res: Result<seq<Record>, AssemblyError>)
    requires |draws| >= DuplicateCount ==>
               DistinctPicks(picks, |draws|) && IsPermutation(perm, |draws| + DuplicateCount + BlankCount)
    ensures res.Err? <==> |draws| < DuplicateCount
    ensures res.Ok? ==> res.value == Gather(Combined(Synthesized(draws), picks), perm)
    ensures res.Ok? ==> |res.value| == |draws| + 55 && multiset(res.value)[Blank] == BlankCount
  {
    var data := GenerateRows(draws);
    res := Assemble(data, picks, perm);
    if res.Ok? {
      assert Blank !in data by {
        forall j | 0 <= j < |data|
          ensures data[j] != Blank
        {
          SynthesizedAt(draws, j);
          RowNotBlank(j, draws[j]);
        }
      }
      BlankRows(data, picks, perm);
    }
  }
}
