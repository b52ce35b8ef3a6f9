/**
 * The department corruptor. With a draw r above 0.15 the department name is kept; otherwise
 * one of that department's own misspellings, abbreviations or alternate names is chosen,
 * and a department without a variant list keeps its name.
 */
module Departments {
  import opened Wrappers

  /** The department names the rows draw from. */
  const Depts: seq<string> :=
    ["Engineering", "Marketing", "Sales", "HR", "Finance", "IT Support", "Legal"]

  /** The variant lists of the departments that have one. */
  const Mapping: map<string, seq<string>> := map[
    "Engineering" := ["Eng.", "Engineering Dept", "Enginering"],
    "Marketing" := ["Mktg", "Marketting"],
    "HR" := ["Human Resources", "H.R."],
    "Finance" := ["Fin.", "Fiance"],
    "IT Support" := ["IT", "Tech Support"]
  ]

  /** mapping.get(name, [name]): the names random.choice picks from. */
  function Variants(name: string): (vs: seq<string>)
    ensures |vs| >= 1
    ensures name !in Mapping ==> vs == [name]
  {
    if name in Mapping then Mapping[name] else [name]
  }

  /** messy_dept(name) with the keep-or-vary draw r and the variant drawn as index j. */
  function MessyDept(name: string, r: real, j: nat): (out: string)
    requires 0.0 <= r < 1.0 && j < |Variants(name)|
    ensures r > 0.15 ==> out == name
    ensures r <= 0.15 ==> out in Variants(name)
    ensures name in Mapping && r <= 0.15 ==> out != name
    ensures out == name || (name in Mapping && out in Mapping[name])
  {
    if r > 0.15 then name else Variants(name)[j]
  }

  /** The department a name or a variant spelling belongs to, looked up among ds. */
  function Owner(s: string, ds: seq<string>): Option<string> {
    if ds == [] then None
    else if s == ds[0] || (ds[0] in Mapping && s in Mapping[ds[0]]) then Some(ds[0])
    else Owner(s, ds[1..])
  }

  /** How a cleaner maps a department cell back to its department. */
  function Canonical(s: string): Option<string> {
    Owner(s, Depts)
  }

  /** No name or variant of one department is a name or variant of another. */
  lemma VariantsDisjoint(i: nat, j: nat, s: string)
    requires i < j < |Depts|
    requires s == Depts[i] || (Depts[i] in Mapping && s in Mapping[Depts[i]])
    ensures s != Depts[j] && !(Depts[j] in Mapping && s in Mapping[Depts[j]])
  {
  }

  lemma {:induction false} OwnerFinds(s: string, ds: seq<string>, i: nat)
    requires i < |ds| && (s == ds[i] || (ds[i] in Mapping && s in Mapping[ds[i]]))
    requires forall h :: 0 <= h < i ==> !(s == ds[h] || (ds[h] in Mapping && s in Mapping[ds[h]]))
    ensures Owner(s, ds) == Some(ds[i])
  {
    if i > 0 {
      OwnerFinds(s, ds[1..], i - 1);
    }
  }

  /** A corrupted department never crosses into another department: it maps back to its own. */
  lemma NeverCrosses(i: nat, r: real, j: nat)
    requires i < |Depts| && 0.0 <= r < 1.0 && j < |Variants(Depts[i])|
    ensures Canonical(MessyDept(Depts[i], r, j)) == Some(Depts[i])
  {
    var out := MessyDept(Depts[i], r, j);
    forall h | 0 <= h < i
      ensures !(out == Depts[h] || (Depts[h] in Mapping && out in Mapping[Depts[h]]))
    {
      if out == Depts[h] || (Depts[h] in Mapping && out in Mapping[Depts[h]]) {
        VariantsDisjoint(h, i, out);
      }
    }
    OwnerFinds(out, Depts, i);
  }

  /** 'Sales' and 'Legal' have no variants and are always kept. */
  lemma SalesAndLegalKept(r: real, j: nat)
    requires 0.0 <= r < 1.0 && j < 1
    ensures MessyDept("Sales", r, j) == "Sales" && MessyDept("Legal", r, j) == "Legal"
  {
  }

  /** 'IT Support' in the variant branch becomes 'IT' or 'Tech Support' and nothing else. */
  lemma ItSupportVariants(r: real, j: nat)
    requires 0.0 <= r <= 0.15 && j < |Variants("IT Support")|
    ensures MessyDept("IT Support", r, j) in {"IT", "Tech Support"}
  {
  }
}
