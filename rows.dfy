/**
 * The row synthesizer: one employee record of thirteen columns built from drawn names,
 * job level and role, and one call of each field corruptor; and the loop that builds the
 * base rows with sequential identifiers.
 */
module Rows {
  import opened Wrappers
  import opened Values
  import opened Text
  import Salary
  import Phone
  import Ssn
  import DateField
  import Departments
  import Education
  import Skills

  const FirstNames: seq<string> :=
    ["James", "Mary", "Robert", "Patricia", "John", "Jennifer", "Michael", "Linda", "David", "Elizabeth"]

  const LastNames: seq<string> :=
    ["Smith", "Johnson", "Williams", "Brown", "Jones", "Garcia", "Miller", "Davis"]

  const JobLevels: seq<string> := ["Junior", "Mid", "Senior", "Lead", "Manager", "Director"]

  const TitlesBase: seq<string> := ["Analyst", "Developer", "Specialist", "Consultant", "Officer"]

  const Locations: seq<string> :=
    ["New York, NY", "San Francisco, CA", "London, UK", "Austin, TX", "Remote", "Berlin, DE"]

  /** The mixed-type ratings random.choice picks from. */
  const Ratings: seq<Value> :=
    [Num(Int(1)), Num(Int(2)), Num(Int(3)), Num(Int(4)), Num(Int(5)),
     Text("3"), Text("4"), Text("A"), Text("B"), Missing]

  /** The start year every row passes to the date corruptor. */
  const JoiningYear: int := 2018

  /** The column header, in the order every record has its fields. */
  const Columns: seq<string> :=
    ["Employee_ID", "Full_Name", "SSN", "Department", "Job_Title", "Salary", "Joining_Date",
     "Education", "Skills", "Performance_Rating", "Email", "Phone", "Location"]

  datatype Record = Record(
    employeeId: Value, fullName: Value, ssn: Value, department: Value, jobTitle: Value,
    salary: Value, joiningDate: Value, education: Value, skills: Value,
    performanceRating: Value, email: Value, phone: Value, location: Value)

  /** The cells of a record under Columns, one per column. */
  function Cells(row: Record): (cs: seq<Value>)
    ensures |cs| == |Columns|
  {
    [row.employeeId, row.fullName, row.ssn, row.department, row.jobTitle, row.salary,
     row.joiningDate, row.education, row.skills, row.performanceRating, row.email,
     row.phone, row.location]
  }

  /** The row of [np.nan] * len(df.columns). */
  const Blank: Record :=
    Record(Missing, Missing, Missing, Missing, Missing, Missing, Missing, Missing, Missing,
           Missing, Missing, Missing, Missing)

  lemma BlankIsAllMissing()
    ensures |Cells(Blank)| == |Columns| == 13
    ensures forall c :: 0 <= c < |Cells(Blank)| ==> Cells(Blank)[c] == Missing
  {
  }

  /** Every random draw one pass of the row loop makes, in the order the pass draws them. */
  datatype Draws = Draws(
    first: nat, last: nat, casing: real,
    level: nat, role: nat, titleOrder: real,
    ssn1: int, ssn2: int, ssn3: int, ssnForm: real,
    dept: nat, deptKeep: real, deptVariant: nat,
    salaryThousands: int, salaryForm: real,
    dateOffset: int, dateForm: real,
    eduLevel: nat, eduBranch: real, eduVariant: nat,
    skillPicks: seq<nat>, skillFlips: seq<real>, skillSeparator: nat,
    rating: nat,
    area: int, mid: int, line: int, phoneForm: real,
    location: nat)

  predicate Unit(r: real) {
    0.0 <= r < 1.0
  }

  /** What the random source promises about each draw. */
  predicate ValidDraws(d: Draws) {
    && d.first < |FirstNames| && d.last < |LastNames| && Unit(d.casing)
    && d.level < |JobLevels| && d.role < |TitlesBase| && Unit(d.titleOrder)
    && Ssn.PartsInRange(d.ssn1, d.ssn2, d.ssn3) && Unit(d.ssnForm)
    && d.dept < |Departments.Depts| && Unit(d.deptKeep)
    && d.deptVariant < |Departments.Variants(Departments.Depts[d.dept])|
    && 40 <= d.salaryThousands <= 180 && Unit(d.salaryForm)
    && 0 <= d.dateOffset < 2191 && Unit(d.dateForm)
    && Education.ValidChoice(d.eduLevel, d.eduVariant) && Unit(d.eduBranch)
    && Skills.ValidSelection(d.skillPicks) && Skills.ValidFlips(d.skillFlips, |d.skillPicks|)
    && d.skillSeparator < |Skills.Separators|
    && d.rating < |Ratings|
    && Phone.PartsInRange(d.area, d.mid, d.line) && Unit(d.phoneForm)
    && d.location < |Locations|
  }

  /** The draws of one pass of the row loop, as the random source delivers them. */
  type RowDraws = d: Draws | ValidDraws(d)
    witness Draws(0, 0, 0.5, 0, 0, 0.5, 100, 10, 1000, 0.5, 0, 0.5, 0, 40, 0.5, 0, 0.5,
                  0, 0.5, 0, [0], [0.5], 0, 0, 100, 100, 1000, 0.5, 0)

  /** f"EMP-{i:04d}". */
  function EmployeeId(i: nat): string {
    "EMP-" + ZeroPad(i, 4)
  }

  /** The first name upper-cased and the last name lower-cased when casing < 0.1. */
  function FullName(fname: string, lname: string, casing: real): string {
    if casing < 0.1 then Upper(fname) + " " + Lower(lname) else fname + " " + lname
  }

  /** "<level> <role>" when order < 0.6, otherwise "<role> - <level>". */
  function JobTitle(lvl: string, role: string, order: real): string {
    if order < 0.6 then lvl + " " + role else role + " - " + lvl
  }

  /** f"{fname.lower()}.{lname.lower()}@company.com". */
  function Email(fname: string, lname: string): string {
    Lower(fname) + "." + Lower(lname) + "@company.com"
  }

  /** The record of row i from its draws, given the skills text dirty_skills() returned. */
  function RowOf(i: nat, d: RowDraws, skills: string): Record {
    DateField.SpanFrom2018();
    var fname, lname := FirstNames[d.first], LastNames[d.last];
    Record(
      employeeId := Text(EmployeeId(i)),
      fullName := Text(FullName(fname, lname, d.casing)),
      ssn := Ssn.DirtySsn(d.ssn1, d.ssn2, d.ssn3, d.ssnForm),
      department := Text(Departments.MessyDept(Departments.Depts[d.dept], d.deptKeep, d.deptVariant)),
      jobTitle := Text(JobTitle(JobLevels[d.level], TitlesBase[d.role], d.titleOrder)),
      salary := Salary.DirtySalary(d.salaryThousands, d.salaryForm),
      joiningDate := DateField.DirtyDate(JoiningYear, d.dateOffset, d.dateForm).value,
      education := Text(Education.DirtyEducation(d.eduLevel, d.eduBranch, d.eduVariant)),
      skills := Text(skills),
      performanceRating := Ratings[d.rating],
      email := Text(Email(fname, lname)),
      phone := Text(Phone.DirtyPhone(d.area, d.mid, d.line, d.phoneForm)),
      location := Text(Locations[d.location]))
  }

  /** The record one pass of the row loop builds for index i. */
  function SynthesizeRow(i: nat, d: RowDraws): Record {
    RowOf(i, d, Join(Skills.Separators[d.skillSeparator], Skills.Dirtied(d.skillPicks, d.skillFlips)))
  }

  /** One pass of the row loop: the skills cell is built by dirty_skills() and the rest drawn. */
  method BuildRow(i: nat, d: RowDraws) returns (row: Record)
    ensures row == SynthesizeRow(i, d)
  {
    var skills := Skills.DirtySkills(d.skillPicks, d.skillFlips, d.skillSeparator);
    row := RowOf(i, d, skills);
  }

  /** f applied to each element of ds together with its index. */
  function MapIndexed<D, R>(f: (nat, D) -> R, ds: seq<D>): (rs: seq<R>)
    ensures |rs| == |ds|
  {
    if ds == [] then [] else MapIndexed(f, ds[..|ds| - 1]) + [f(|ds| - 1, ds[|ds| - 1])]
  }

  /** Element i of the mapped sequence is f applied to i and element i. */
  lemma {:induction false} MapIndexedAt<D, R>(f: (nat, D) -> R, ds: seq<D>, i: nat)
    requires i < |ds|
    ensures MapIndexed(f, ds)[i] == f(i, ds[i])
  {
    var n := |ds| - 1;
    if i < n {
      assert ds[..n][i] == ds[i];
      MapIndexedAt(f, ds[..n], i);
    }
  }

  /** Mapping one more element appends f of its index and the element. */
  lemma MapIndexedSnoc<D, R>(f: (nat, D) -> R, ds: seq<D>, i: nat)
    requires i < |ds|
    ensures MapIndexed(f, ds[..i + 1]) == MapIndexed(f, ds[..i]) + [f(i, ds[i])]
  {
    assert ds[..i + 1][..i] == ds[..i];
  }

  /** The rows the loop builds from the draws of its passes, row i from the i-th draws. */
  function Synthesized(draws: seq<RowDraws>): (rows: seq<Record>)
    ensures |rows| == |draws|
  {
    MapIndexed(SynthesizeRow, draws)
  }

  /** Row i of the synthesized rows is the row built from the i-th draws with index i. */
  lemma SynthesizedAt(draws: seq<RowDraws>, i: nat)
    requires i < |draws|
    ensures Synthesized(draws)[i] == SynthesizeRow(i, draws[i])
  {
    MapIndexedAt(SynthesizeRow, draws, i);
  }

  /** The loop over range(NUM_ROWS): row i is built from the i-th draws and appended. */
  method GenerateRows(draws: seq<RowDraws>) returns (data: seq<Record>)
    ensures data == Synthesized(draws)
  {
    data := [];
    var i := 0;
    while i < |draws|
      invariant 0 <= i <= |draws|
      invariant data == MapIndexed(SynthesizeRow, draws[..i])
    {
      var row := BuildRow(i, draws[i]);
      MapIndexedSnoc(SynthesizeRow, draws, i);
      data := data + [row];
      i := i + 1;
    }
    assert draws[..i] == draws;
  }

  /** Below 10000 the identifier is "EMP-" and four digits, and it gives back the row index. */
  lemma {:induction false} IdentifierForm(i: nat)
    ensures EmployeeId(i)[..4] == "EMP-" && ValueOf(EmployeeId(i)[4..]) == i
    ensures i < 10000 ==> |EmployeeId(i)| == 8
  {
    assert Pow10(4) == 10000;
    assert EmployeeId(i)[4..] == ZeroPad(i, 4);
  }

  /** Different rows always get different identifiers. */
  lemma IdentifiersDistinct(i: nat, j: nat)
    requires i != j
    ensures EmployeeId(i) != EmployeeId(j)
  {
    IdentifierForm(i);
    IdentifierForm(j);
  }

  /**
   * The full name is "<FIRST> <last>" or "<First> <Last>": only the case of the letters
   * changes, so lower-casing it always gives the lower-cased names with a space between.
   */
  lemma FullNameCasing(fname: string, lname: string, casing: real)
    ensures FullName(fname, lname, casing) in {Upper(fname) + " " + Lower(lname), fname + " " + lname}
    ensures Lower(FullName(fname, lname, casing)) == Lower(fname) + " " + Lower(lname)
  {
    LowerForgetsCase(fname);
    LowerForgetsCase(lname);
    LowerConcat(fname + " ", lname);
    LowerConcat(fname, " ");
    LowerConcat(Upper(fname) + " ", Lower(lname));
    LowerConcat(Upper(fname), " ");
  }

  /** How a reader takes a job title apart into its level and its role. */
  function ReadTitle(t: string): Option<(string, string)> {
    var p := Split(t, " - ");
    if |p| == 2 then Some((p[1], p[0]))
    else
      var q := Split(t, " ");
      if |q| == 2 then Some((q[0], q[1])) else None
  }

  lemma WordsPlain(w: string)
    requires w in JobLevels || w in TitlesBase
    ensures ' ' !in w && '-' !in w
  {
  }

  /** "<level> <role>" splits at the space, and contains no " - " to split at. */
  lemma ReadLevelFirst(l: string, r: string)
    requires ' ' !in l && '-' !in l && ' ' !in r && '-' !in r
    ensures ReadTitle(l + " " + r) == Some((l, r))
  {
    assert " - "[1] == '-' && " - "[..1] == " ";
    assert " "[..0] == [];
    assert '-' !in l + " " + r;
    SepFreeByWitness(l + " " + r, " - ", 1);
    SplitWhole(l + " " + r, " - ");
    SepFreeByWitness(l, " ", 0);
    SepFreeByWitness(r, " ", 0);
    SplitPrefix(l, " ", r);
    SplitWhole(r, " ");
  }

  /** "<role> - <level>" splits at the " - " into exactly two parts. */
  lemma ReadRoleFirst(l: string, r: string)
    requires '-' !in l && '-' !in r
    ensures ReadTitle(r + " - " + l) == Some((l, r))
  {
    assert " - "[1] == '-' && " - "[..1] == " ";
    SepFreeByWitness(l, " - ", 1);
    SepFreeByWitness(r, " - ", 1);
    SplitPrefix(r, " - ", l);
    SplitWhole(l, " - ");
  }

  /** Both job title layouts read back as the level and the role that were drawn. */
  lemma JobTitleRoundTrip(lvl: nat, role: nat, order: real)
    requires lvl < |JobLevels| && role < |TitlesBase|
    ensures ReadTitle(JobTitle(JobLevels[lvl], TitlesBase[role], order)) ==
              Some((JobLevels[lvl], TitlesBase[role]))
  {
    var l, r := JobLevels[lvl], TitlesBase[role];
    WordsPlain(l);
    WordsPlain(r);
    if order < 0.6 {
      ReadLevelFirst(l, r);
    } else {
      ReadRoleFirst(l, r);
    }
  }

  /**
   * The e-mail is the lower-cased first and last name around a dot, at company.com; it has
   * no upper-case letter and is the same whichever casing the full name was given.
   */
  lemma EmailForm(i: nat, d: RowDraws, casing: real)
    requires Unit(casing)
    ensures var e := SynthesizeRow(i, d).email;
      && e == Text(Lower(FirstNames[d.first]) + "." + Lower(LastNames[d.last]) + "@company.com")
      && (forall k :: 0 <= k < |e.s| ==> !IsUpperChar(e.s[k]))
      && e == SynthesizeRow(i, d.(casing := casing)).email
  {
    var fname, lname := FirstNames[d.first], LastNames[d.last];
    LowerConcat(Lower(fname) + "." + Lower(lname), "@company.com");
    LowerConcat(Lower(fname) + ".", Lower(lname));
    LowerConcat(Lower(fname), ".");
    LowerForgetsCase(fname);
    LowerForgetsCase(lname);
    assert Lower("@company.com") == "@company.com";
    assert Lower(".") == ".";
    var e := Email(fname, lname);
    assert e == Lower(e);
  }

  /** A synthesized row is never the blank row: its identifier is always text. */
  lemma RowNotBlank(i: nat, d: RowDraws)
    ensures SynthesizeRow(i, d) != Blank
  {
  }
}
