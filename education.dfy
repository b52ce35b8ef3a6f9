/**
 * The education corruptor. One of four education levels is chosen; with a draw r below 0.3
 * one of that level's variant spellings is written instead of its label.
 */
module Education {
  import opened Wrappers

  /** The levels: each label with its variant spellings. */
  const Options: seq<(string, seq<string>)> := [
    ("Bachelor", ["B.Sc", "BS", "Bachelors", "Bachelor Degree"]),
    ("Master", ["M.Sc", "Masters", "MBA", "Master's"]),
    ("PhD", ["Ph.D.", "Doctorate"]),
    ("High School", ["High School", "H.S.", "None"])
  ]

  /** The draw of random.choice(options) as c, and of random.choice(variants) as v. */
  predicate ValidChoice(c: nat, v: nat) {
    c < |Options| && v < |Options[c].1|
  }

  /** dirty_education() with the level drawn as c, the branch as r and the variant as v. */
  function DirtyEducation(c: nat, r: real, v: nat): (s: string)
    requires ValidChoice(c, v) && 0.0 <= r < 1.0
    ensures r >= 0.3 ==> s == Options[c].0
    ensures r < 0.3 ==> s in Options[c].1
  {
    var (base, variants) := Options[c];
    if r < 0.3 then variants[v] else base
  }

  /** A label or variant spelling belongs to level c. */
  predicate BelongsTo(s: string, c: nat)
    requires c < |Options|
  {
    s == Options[c].0 || s in Options[c].1
  }

  /** The label of the first level from c on that s belongs to. */
  function OwnerFrom(s: string, c: nat): Option<string>
    requires c <= |Options|
    decreases |Options| - c
  {
    if c == |Options| then None
    else if BelongsTo(s, c) then Some(Options[c].0)
    else OwnerFrom(s, c + 1)
  }

  /** How a cleaner maps an education cell back to its level's label. */
  function Canonical(s: string): Option<string> {
    OwnerFrom(s, 0)
  }

  /** No label or variant of one level belongs to another level. */
  lemma LevelsDisjoint(i: nat, j: nat, s: string)
    requires i < j < |Options| && BelongsTo(s, i)
    ensures !BelongsTo(s, j)
  {
  }

  lemma {:induction false} OwnerFinds(s: string, from: nat, c: nat)
    requires from <= c < |Options| && BelongsTo(s, c)
    requires forall h :: from <= h < c ==> !BelongsTo(s, h)
    ensures OwnerFrom(s, from) == Some(Options[c].0)
    decreases c - from
  {
    if from < c {
      OwnerFinds(s, from + 1, c);
    }
  }

  /** Whatever the draws, the cell maps back to the label of the level that was chosen. */
  lemma NeverCrosses(c: nat, r: real, v: nat)
    requires ValidChoice(c, v) && 0.0 <= r < 1.0
    ensures Canonical(DirtyEducation(c, r, v)) == Some(Options[c].0)
  {
    var s := DirtyEducation(c, r, v);
    forall h | 0 <= h < c
      ensures !BelongsTo(s, h)
    {
      if BelongsTo(s, h) {
        LevelsDisjoint(h, c, s);
      }
    }
    OwnerFinds(s, 0, c);
  }
}
