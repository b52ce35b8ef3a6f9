/**
 * The skills corruptor. One to three distinct skills are sampled from a fixed pool; a loop
 * rewrites 'Excel', 'Python' and 'PowerBI' into a misspelling on a draw of its own, and the
 * list is joined with one of five separators.
 */
module Skills {
  import opened Text

  const Pool: seq<string> :=
    ["Python", "Excel", "SQL", "Java", "PowerBI", "Management", "Sales", "Communication"]

  const Separators: seq<string> := [", ", ";", " | ", ",", "/"]

  /**
   * random.sample(skills_pool, k=random.randint(1, 3)): between one and three distinct
   * positions of the pool, in the order drawn.
   */
  predicate ValidSelection(sel: seq<nat>) {
    && 1 <= |sel| <= 3
    && (forall i :: 0 <= i < |sel| ==> sel[i] < |Pool|)
    && (forall i, j :: 0 <= i < j < |sel| ==> sel[i] != sel[j])
  }

  /** One draw in [0, 1) for each selected skill; a skill no rule applies to ignores its draw. */
  predicate ValidFlips(flips: seq<real>, n: nat) {
    |flips| == n && forall i :: 0 <= i < |flips| ==> 0.0 <= flips[i] < 1.0
  }

  /** The loop body on one skill s, with f the draw made when s is 'Excel', 'Python' or 'PowerBI'. */
  function Misspell(s: string, f: real): string {
    var s1 := if s == "Excel" && f > 0.7 then "Excell" else s;
    var s2 := if s1 == "Python" && f > 0.8 then "python" else s1;
    if s2 == "PowerBI" && f > 0.7 then "Power BI" else s2
  }

  /** The selected skills after the loop, in the order drawn. */
  function Dirtied(sel: seq<nat>, flips: seq<real>): (out: seq<string>)
    requires (forall i :: 0 <= i < |sel| ==> sel[i] < |Pool|) && |flips| == |sel|
    ensures |out| == |sel|
  {
    seq(|sel|, i requires 0 <= i < |sel| => Misspell(Pool[sel[i]], flips[i]))
  }

  /**
   * The three rewrites of dirty_skills' loop body, applied in turn to the skill s with the
   * draw f, as its three if statements; proved equal to Misspell, and kept apart from the
   * loop so that their eight paths are not multiplied against the loop invariant.
   */
  method Respell(s: string, f: real) returns (t: string)
    ensures t == Misspell(s, f)
  {
    t := s;
    if t == "Excel" && f > 0.7 {
      t := "Excell";
    }
    if t == "Python" && f > 0.8 {
      t := "python";
    }
    if t == "PowerBI" && f > 0.7 {
      t := "Power BI";
    }
  }

  /** dirty_skills() with the sample drawn as sel, the rewrite draws as flips, the separator as sep. */
  method DirtySkills(sel: seq<nat>, flips: seq<real>, sep: nat) returns (skills: string)
    requires ValidSelection(sel) && ValidFlips(flips, |sel|) && sep < |Separators|
    ensures skills == Join(Separators[sep], Dirtied(sel, flips))
  {
    var dirtySelected: seq<string> := [];
    var i := 0;
    while i < |sel|
      invariant 0 <= i <= |sel|
      invariant |dirtySelected| == i
      invariant forall k :: 0 <= k < i ==> dirtySelected[k] == Misspell(Pool[sel[k]], flips[k])
    {
      var s := Respell(Pool[sel[i]], flips[i]);
      dirtySelected := dirtySelected + [s];
      i := i + 1;
    }
    assert dirtySelected == Dirtied(sel, flips);
    skills := Join(Separators[sep], dirtySelected);
  }

  /**
   * The loop rewrites only 'Excel' into 'Excell' (draw above 0.7), 'Python' into 'python'
   * (draw above 0.8) and 'PowerBI' into 'Power BI' (draw above 0.7); every other skill,
   * and these on a lower draw, pass through unchanged.
   */
  lemma MisspellRules(s: string, f: real)
    ensures Misspell(s, f) ==
              if s == "Excel" && f > 0.7 then "Excell"
              else if s == "Python" && f > 0.8 then "python"
              else if s == "PowerBI" && f > 0.7 then "Power BI"
              else s
  {
  }

  /** How a cleaner spells a skill again as the pool does. */
  function Canonical(t: string): string {
    if t == "Excell" then "Excel"
    else if t == "python" then "Python"
    else if t == "Power BI" then "PowerBI"
    else t
  }

  /** Cleaning the selected list gives back the sampled pool entries, in the order drawn. */
  lemma SelectionKept(sel: seq<nat>, flips: seq<real>)
    requires ValidSelection(sel) && ValidFlips(flips, |sel|)
    ensures forall i :: 0 <= i < |sel| ==> Canonical(Dirtied(sel, flips)[i]) == Pool[sel[i]]
    ensures forall i, j :: 0 <= i < j < |sel| ==> Dirtied(sel, flips)[i] != Dirtied(sel, flips)[j]
  {
    var out := Dirtied(sel, flips);
    forall i | 0 <= i < |sel|
      ensures Canonical(out[i]) == Pool[sel[i]]
    {
      MisspellRules(Pool[sel[i]], flips[i]);
      PoolEntry(sel[i]);
    }
    forall i, j | 0 <= i < j < |sel|
      ensures out[i] != out[j]
    {
      assert Canonical(out[i]) == Pool[sel[i]] && Canonical(out[j]) == Pool[sel[j]];
      PoolDistinct(sel[i], sel[j]);
    }
  }

  lemma PoolEntry(p: nat)
    requires p < |Pool|
    ensures Pool[p] in {"Python", "Excel", "SQL", "Java", "PowerBI", "Management", "Sales", "Communication"}
  {
  }

  lemma PoolDistinct(p: nat, q: nat)
    requires p < |Pool| && q < |Pool| && p != q
    ensures Pool[p] != Pool[q]
  {
  }

  /** Every spelling a skill can take after the loop. */
  const Spellings: set<string> :=
    {"Python", "Excel", "SQL", "Java", "PowerBI", "Management", "Sales", "Communication",
     "Excell", "python", "Power BI"}

  /** No character of t is one the separators use. */
  predicate Plain(t: string) {
    ',' !in t && ';' !in t && '|' !in t && '/' !in t
  }

  lemma PoolPlain(t: string)
    requires t in {"Python", "Excel", "SQL", "Java"}
    ensures Plain(t)
  {
  }

  lemma PoolPlainRest(t: string)
    requires t in {"PowerBI", "Management", "Sales", "Communication"}
    ensures Plain(t)
  {
  }

  lemma MisspellingsPlain(t: string)
    requires t in {"Excell", "python", "Power BI"}
    ensures Plain(t)
  {
  }

  /** No spelling holds ',', ';', '|' or '/'. */
  lemma SpellingsPlain(t: string)
    requires t in Spellings
    ensures ',' !in t && ';' !in t && '|' !in t && '/' !in t
  {
    if t in {"Python", "Excel", "SQL", "Java"} {
      PoolPlain(t);
    } else if t in {"PowerBI", "Management", "Sales", "Communication"} {
      PoolPlainRest(t);
    } else {
      MisspellingsPlain(t);
    }
  }

  /** No separator occurs in any spelling. */
  lemma SeparatorFree(t: string, sep: nat)
    requires t in Spellings && sep < |Separators|
    ensures SepFree(t, Separators[sep])
  {
    SpellingsPlain(t);
    var s := Separators[sep];
    if s == " | " {
      assert s[1] == '|' && s[..1] == " ";
      SepFreeByWitness(t, s, 1);
    } else {
      assert s[..0] == [];
      SepFreeByWitness(t, s, 0);
    }
  }

  /** Splitting the cell at its separator gives back the selected list after the loop. */
  lemma SplitRecovers(sel: seq<nat>, flips: seq<real>, sep: nat)
    requires ValidSelection(sel) && ValidFlips(flips, |sel|) && sep < |Separators|
    ensures Split(Join(Separators[sep], Dirtied(sel, flips)), Separators[sep]) == Dirtied(sel, flips)
  {
    var out := Dirtied(sel, flips);
    forall k | 0 <= k < |out|
      ensures SepFree(out[k], Separators[sep])
    {
      MisspellRules(Pool[sel[k]], flips[k]);
      PoolEntry(sel[k]);
      SeparatorFree(out[k], sep);
    }
    SplitJoin(out, Separators[sep]);
  }
}
