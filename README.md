# Messy HR data generator, modelled in Dafny

The generator builds a table of fake employee records and corrupts it on purpose. It uses
seven field corruptors:

- salary, phone, joining date, department, skills, education and SSN.

Each corruptor picks one of several renderings of a clean value with a weighted random
branch, or writes a missing value. A loop builds 2500 rows with the identifiers
`EMP-0000`, `EMP-0001`, … . Each row has thirteen columns. The identifier comes from the
row index. The full name, job title, rating and location are drawn directly, and the e-mail
is derived from the drawn first and last names. The other seven cells come from the
corruptors. Assembly
then appends 40 sampled duplicates and 15 all-missing rows to the frame, and shuffles it.

The project models the generator with every random draw passed in as a parameter:

- an integer for `randint` and `randrange`;
- a real `r` in `[0, 1)` for `random()`;
- an index for `choice`;
- a list of distinct positions for `sample`;
- a permutation for the final shuffle.

Cells are tagged values: a number (`Int`, or `Hundredths` for the monthly salary), a text,
or `Missing` for `np.nan`.

What the model proves:

- The salary, phone, SSN and date chains are each a weighted pick (`Weighted.Pick`) from
  a table of weights, the differences of their thresholds. The department (`> 0.15`),
  education (`< 0.3`) and skills-misspelling thresholds are modelled as the direct comparisons the code makes.
- Each full rendering has a partner that recovers the clean value: a reader for the raw,
  "$", "k" and " USD" salary forms, for every phone layout, for the dashed, joined and
  spaced SSN and for the three date layouts; a cleaner for departments, education and
  skills; and `Split` for the joined skills. The exceptions are stated as such: the
  redacted SSN keeps only its last group and yields no full number; the monthly salary is
  the base over 12 to within half a hundredth; "Pending" and missing carry no value, and
  each comes from its own branch only.
- The row loop and the assembly are methods with loop invariants. Each is proved equal to
  a specification function, and separate lemmas state the size of the dataset, its
  content (a multiset equality) and its blank rows.

Modules: `Wrappers`, `Values`, `Text` (decimal, zero-padded and comma-grouped numbers,
digit extraction, case, join/split), `Weighted`, `Calendar` (proleptic Gregorian day
arithmetic and the three `strftime` layouts), one module per corruptor (`Salary`, `Phone`,
`DateField`, `Departments`, `Education`, `Skills`, `Ssn`), `Rows` and `Dataset`.

Two facts about the code that shape the model:

- `df.sample(n=40)` samples without replacement (pandas' default), so the model draws 40
  distinct positions and fails with `SampleLargerThanPopulation` below 40 base rows, where
  pandas raises.
- `dirty_date` defaults to a start year of 2015, but the row loop passes 2018, and the
  model uses 2018 (`Rows.JoiningYear`). `DateField.DirtyDate` takes any start year.

## Model

| member | source | states |
|---|---|---|
| Weighted.PickInterval | script_to_generate_data.py:19-29 | branch i of a weight table is selected exactly when r lies in [sum of the first i weights, sum of the first i+1), in both directions |
| Weighted.PickMonotone | script_to_generate_data.py:19-29 | a larger draw never selects an earlier branch of an if/elif chain |
| Salary.Base | script_to_generate_data.py:17 | the base is a multiple of 1000 in [40000, 180000] and equals k thousand |
| Salary.DirtySalary | script_to_generate_data.py:16-30 | the cell is a number exactly for r < 0.5 (plain) and 0.9 <= r < 0.95 (monthly), missing exactly for r >= 0.95, and a non-empty text otherwise; the amount each rendering carries is stated by Salary.SalaryKept |
| Weighted.PickSixtyTwentyTen | script_to_generate_data.py:115-124 | the pick from [0.6, 0.2, 0.1, 0.05, 0.05] is the chain at 0.6, 0.8, 0.9 and 0.95 that the SSN and date corruptors share |
| Salary.FormIsWeighted | script_to_generate_data.py:18-30 | the salary chain is the weighted pick from [0.5, 0.2, 0.1, 0.1, 0.05, 0.05] |
| Salary.MonthlyHundredths | script_to_generate_data.py:28 | round(base / 12, 2), in hundredths, lies strictly within half a hundredth of base / 12, so no tie arises |
| Salary.MonthlyNoTie | script_to_generate_data.py:28 | for a whole number of thousands, 100 * base + 6 is never a multiple of 12 (no rounding tie) |
| Salary.ReadDollars | script_to_generate_data.py:22 | "$" and the comma-grouped digits of n read back as n |
| Salary.ReadThousands | script_to_generate_data.py:24 | the digits of k followed by "k" read back as k thousand |
| Salary.ReadUsd | script_to_generate_data.py:26 | the digits of n followed by " USD" read back as n |
| Salary.SalaryKept | script_to_generate_data.py:16-30 | below r = 0.9 every rendering reads back as the annual base; the monthly branch is base / 12 to within half a hundredth; missing exactly when r >= 0.95 |
| Salary.DollarsForm | script_to_generate_data.py:21-22 | the "$" form is "$" plus the comma-grouped base, and deleting the commas leaves the decimal base |
| Salary.ThousandsExample | script_to_generate_data.py:23-24 | a base of 84000 in the "k" branch is "84k" |
| Salary.GroupedSalary | script_to_generate_data.py:22 | f"{base:,}" for a base of k thousand is the digits of k, one comma, then "000" |
| Text.GroupedDigits | script_to_generate_data.py:22 | deleting the commas from f"{n:,}" gives the plain decimal digits of n |
| Text.Grouped | script_to_generate_data.py:22 | f"{n:,}". It has no ensures of its own: Text.GroupedDigits states that deleting its commas gives the decimal digits, and Salary.GroupedSalary states where the comma goes for a salary |
| Phone.FormIsWeighted | script_to_generate_data.py:37-47 | the phone chain is the weighted pick from [0.4, 0.2, 0.2, 0.1, 0.1] |
| Phone.PartWidths | script_to_generate_data.py:34-36 | the area, exchange and line are written with exactly 3, 3 and 4 digits |
| Phone.DirtyPhone | script_to_generate_data.py:33-47 | apart from a "+1 " country code the number shows the digits of area, mid and end in that order; the read-back is Phone.PhoneRoundTrip |
| Phone.LayoutDigits | script_to_generate_data.py:38-47 | apart from the "+1 " prefix, each of the five layouts holds exactly the three digit groups in order |
| Phone.PhoneDigits | script_to_generate_data.py:33-47 | the national part of every phone carries area++mid++end, ten digits; the bare form is exactly those ten digits |
| Phone.PhoneRoundTrip | script_to_generate_data.py:33-47 | every layout is read back as the same (area, mid, end) |
| Ssn.FormIsWeighted | script_to_generate_data.py:114-124 | the SSN chain is the weighted pick from [0.6, 0.2, 0.1, 0.05, 0.05] |
| Ssn.PartWidths | script_to_generate_data.py:110-112 | the three groups are written with exactly 3, 2 and 4 digits |
| Ssn.DirtySsn | script_to_generate_data.py:109-124 | below r = 0.9 the cell is a text showing the digits of the three groups in order; it is missing exactly for r >= 0.95; the read-back is Ssn.SsnRoundTrip |
| Ssn.LayoutDigits | script_to_generate_data.py:115-122 | the dashed, joined and spaced layouts show the three groups in order; the redacted one shows only the last |
| Ssn.SsnDigits | script_to_generate_data.py:109-122 | the full forms carry part1++part2++part3; the redacted form is exactly "XXX-XX-" + part3 |
| Ssn.FullRead | script_to_generate_data.py:115-120 | a full layout reads back as its three groups and ends in the last group |
| Ssn.RedactedRead | script_to_generate_data.py:121-122 | the redacted layout yields no full number but still shows the last group |
| Ssn.LayoutRead | script_to_generate_data.py:115-124 | how a reader sees each of the five layouts, missing exactly for the missing branch |
| Ssn.SsnRoundTrip | script_to_generate_data.py:109-124 | full forms read back as (part1, part2, part3); redacted yields no full number; every non-missing form keeps part3; missing exactly when r >= 0.95 |
| Calendar.MonthTable | script_to_generate_data.py:54 | the table of days before each month agrees with the month lengths and the year length (leap rules) |
| Calendar.InYear | script_to_generate_data.py:54 | a day count within a year lands on a valid date of that year, at that day of the year |
| Calendar.AddDays | script_to_generate_data.py:54 | date(y, 1, 1) + timedelta(k) is a valid date in year y or later |
| Calendar.AddDaysOffset | script_to_generate_data.py:53-54 | subtracting January 1 from the date reached gives back the days added |
| Calendar.OffsetAddDays | script_to_generate_data.py:53-54 | every date on or after January 1 of y is reached by adding its own offset |
| Calendar.AddDaysBefore | script_to_generate_data.py:52-54 | adding fewer days than the span stays before the end year |
| Calendar.YearDaysSplit | script_to_generate_data.py:53 | counting years in two parts gives the same day count |
| Calendar.Iso | script_to_generate_data.py:57 | d.strftime("%Y-%m-%d"). It has no ensures of its own: its length and read-back are Calendar.IsoRoundTrip |
| Calendar.Us | script_to_generate_data.py:59 | d.strftime("%m/%d/%Y"). It has no ensures of its own: its length and read-back are Calendar.UsRoundTrip |
| Calendar.European | script_to_generate_data.py:61 | d.strftime("%d.%m.%Y"). It has no ensures of its own: its length and read-back are Calendar.EuropeanRoundTrip |
| Calendar.IsoRoundTrip | script_to_generate_data.py:57 | "%Y-%m-%d" is ten characters and reads back as the same date |
| Calendar.UsRoundTrip | script_to_generate_data.py:59 | "%m/%d/%Y" is ten characters and reads back as the same date |
| Calendar.EuropeanRoundTrip | script_to_generate_data.py:61 | "%d.%m.%Y" is ten characters and reads back as the same date |
| DateField.FormIsWeighted | script_to_generate_data.py:55-65 | the date chain is the weighted pick from [0.6, 0.2, 0.1, 0.05, 0.05] |
| DateField.SpanFrom2018 | script_to_generate_data.py:51-53 | from 2018 the span to January 1 2024 is 2191 days |
| DateField.DirtyDate | script_to_generate_data.py:50-65 | an error exactly when the start year is outside 1..2023; the year-out-of-range error exactly when it is outside 1..9999 |
| DateField.DrawnDate | script_to_generate_data.py:51-54 | the drawn day is a valid date in [January 1 of the start year, January 1 2024) lying k days after the start |
| DateField.EveryDateDrawn | script_to_generate_data.py:51-54 | every date in that span is drawn by exactly its own offset, which is within range |
| DateField.ReadBack | script_to_generate_data.py:56-61 | a reader that tries ISO, then US, then European recovers the date from each layout |
| DateField.Render | script_to_generate_data.py:56-65 | the cell each layout writes for a date. It has no ensures of its own: DateField.RenderRead states that each layout reads back as the date and that "Pending" and missing come only from their own branches |
| DateField.RenderRead | script_to_generate_data.py:56-65 | the three layouts read back as the date; "Pending" only from its branch; missing only from its branch |
| DateField.DateRendered | script_to_generate_data.py:50-65 | every rendering reads back as the drawn date; "Pending" exactly for r in [0.9, 0.95); missing exactly for r >= 0.95, never "Pending" |
| Departments.Variants | script_to_generate_data.py:70-77 | mapping.get(name, [name]) is never empty and is [name] for unmapped departments |
| Departments.MessyDept | script_to_generate_data.py:68-77 | r > 0.15 keeps the name; r <= 0.15 picks from mapping.get(name, [name]), so a department with variants never comes back unchanged, and the result is always the name or one of its own variants |
| Departments.NeverCrosses | script_to_generate_data.py:68-77 | a corrupted department maps back to the department it came from |
| Departments.SalesAndLegalKept | script_to_generate_data.py:77 | 'Sales' and 'Legal' are always returned unchanged |
| Departments.ItSupportVariants | script_to_generate_data.py:75-77 | in the variant branch 'IT Support' becomes 'IT' or 'Tech Support' |
| Education.DirtyEducation | script_to_generate_data.py:96-106 | r >= 0.3 gives the level's label; r < 0.3 gives one of that level's own variants |
| Education.NeverCrosses | script_to_generate_data.py:96-106 | whatever the draws, the cell maps back to the chosen level's label |
| Skills.Dirtied | script_to_generate_data.py:85-90 | the reference for the loop: the rewritten selection has one entry per selected skill, each the rewrite of its own pool entry |
| Skills.Respell | script_to_generate_data.py:87-89 | the three conditional rewrites in turn equal the rewrite rule of one skill |
| Skills.Misspell | script_to_generate_data.py:87-89 | the three conditional rewrites of one skill. It has no ensures of its own: Skills.MisspellRules states the single rewrite each skill can undergo, and Skills.Respell is the loop body proved equal to it |
| Skills.DirtySkills | script_to_generate_data.py:80-93 | the loop builds the rewritten selection in order and joins it with the drawn separator |
| Skills.MisspellRules | script_to_generate_data.py:87-89 | only 'Excel'->'Excell' (> 0.7), 'Python'->'python' (> 0.8) and 'PowerBI'->'Power BI' (> 0.7) are rewritten; all else passes through |
| Skills.SelectionKept | script_to_generate_data.py:83-90 | cleaning the rewritten list gives the sampled pool entries in draw order, and its entries stay distinct |
| Skills.SpellingsPlain | script_to_generate_data.py:81-89 | no spelling contains a comma, a semicolon, a vertical bar or a slash |
| Skills.SeparatorFree | script_to_generate_data.py:92 | none of the five separators occurs in any spelling |
| Skills.SplitRecovers | script_to_generate_data.py:92-93 | splitting the joined cell at its separator gives back the rewritten list |
| Text.SplitJoin | script_to_generate_data.py:93 | splitting a join of separator-free parts at the separator gives back the parts |
| Rows.Cells | script_to_generate_data.py:143-157 | every record has exactly one cell per column of the 13-column header |
| Rows.BlankIsAllMissing | script_to_generate_data.py:165 | the blank row has 13 cells, all missing |
| Rows.BuildRow | script_to_generate_data.py:130-157 | one pass of the loop builds the record the row specification gives, with the skills from the skills loop |
| Rows.RowOf | script_to_generate_data.py:143-157 | the row dictionary built from the draws and the skills text. It has no ensures of its own: its cells are stated through Rows.IdentifierForm, Rows.FullNameCasing, Rows.JobTitleRoundTrip and the corruptors' contracts, and about the whole record by Rows.EmailForm and Rows.RowNotBlank |
| Rows.SynthesizeRow | script_to_generate_data.py:130-157 | the row for index i with the skills built by the loop's specification. It has no ensures of its own: Rows.BuildRow is proved equal to it, and Rows.EmailForm and Rows.RowNotBlank state facts about it |
| Rows.MapIndexedAt | script_to_generate_data.py:129-158 | element i of the loop's output is built from index i and the i-th draws |
| Rows.SynthesizedAt | script_to_generate_data.py:129-158 | row i of the generated rows is the row for index i and the i-th draws |
| Rows.GenerateRows | script_to_generate_data.py:127-158 | the loop over range(NUM_ROWS) appends exactly the specified row for each index |
| Rows.EmployeeId | script_to_generate_data.py:144 | f"EMP-{i:04d}". It has no ensures of its own: Rows.IdentifierForm and Rows.IdentifiersDistinct state its form and that it tells rows apart |
| Rows.FullName | script_to_generate_data.py:134-137 | the two name casings. It has no ensures of its own: Rows.FullNameCasing states them |
| Rows.JobTitle | script_to_generate_data.py:139-141 | the two title layouts. It has no ensures of its own: Rows.JobTitleRoundTrip states that both read back |
| Rows.Email | script_to_generate_data.py:154 | the e-mail from the two names. It has no ensures of its own: Rows.EmailForm states its form and that it has no upper-case letter |
| Rows.IdentifierForm | script_to_generate_data.py:144 | the identifier is "EMP-" plus digits reading back as the row index, 8 characters below 10000 |
| Rows.IdentifiersDistinct | script_to_generate_data.py:144 | different rows get different identifiers |
| Rows.FullNameCasing | script_to_generate_data.py:134-137 | the full name is "FNAME lname" or "Fname Lname", equal under lower-casing to the lower-cased names |
| Rows.JobTitleRoundTrip | script_to_generate_data.py:139-141 | both title layouts read back as the level and the role drawn |
| Rows.EmailForm | script_to_generate_data.py:154 | the e-mail is lower(first) "." lower(last) "@company.com", has no upper-case letter, and does not depend on the name casing |
| Rows.RowNotBlank | script_to_generate_data.py:144 | no generated row is the all-missing row |
| Dataset.Gather | script_to_generate_data.py:162-167 | one row per position of p, position j holding the row at p[j]: the 40 sampled rows, and the shuffled frame |
| Dataset.GatherPermutation | script_to_generate_data.py:167 | shuffling by a permutation keeps every row with its number of copies |
| Dataset.Combined | script_to_generate_data.py:160-165 | before the shuffle the frame has the base rows plus the sample plus 15 rows |
| Dataset.CombinedLayout | script_to_generate_data.py:162-165 | before the shuffle: the base rows in order, then copies of the base rows at the 40 picked positions, then 15 rows with every column missing |
| Dataset.Assemble | script_to_generate_data.py:160-167 | an error exactly when fewer than 40 rows exist to sample; otherwise the combined frame shuffled |
| Dataset.SampleNeedsRoom | script_to_generate_data.py:162 | 40 distinct positions below n exist only when n >= 40 |
| Dataset.SampleFits | script_to_generate_data.py:162 | from 40 rows or more a valid sample exists |
| Dataset.AssembledSize | script_to_generate_data.py:160-167 | the output has N + 55 rows; 2555 for N = 2500 |
| Dataset.AssembledRows | script_to_generate_data.py:162-167 | the output's multiset is base + sample + 15 blanks; every output row is a base row or blank |
| Dataset.BlankRows | script_to_generate_data.py:164-167 | when no base row is blank, the output has exactly 15 blank rows |
| Dataset.Generate | script_to_generate_data.py:127-167 | the whole generator: the error exactly below 40 rows; otherwise the shuffled combined frame of the generated rows, N + 55 rows, 15 of them blank |

## Left out

- Random number generation and every distribution. Draws are parameters; the shuffle is
  any permutation and the sample is any 40 distinct positions. No claim about
  probabilities beyond the threshold intervals (`Weighted.PickInterval`) is made.
- Binary floating point in the thresholds. The draws and thresholds are exact reals, so
  a draw landing on a threshold's binary double edge (for example `float(0.7)`) is not
  modelled.
- Salary.MonthlyHundredths: the monthly salary is an exact number of hundredths, not the
  binary float `round(base / 12, 2)` returns. Its float representation and printed form
  are left out.
- How pandas writes a mixed column to CSV (an int salary next to texts, a float, `nan`).
  Cells stay tagged values.
- Calendar.Iso, Calendar.Us, Calendar.European write the year as plain decimal digits.
  `%Y` padding for years below 1000 is left out, and the round trips assume a four-digit
  year, as every year the generator reaches (2018–2023) is.
- Rows.ValidDraws bounds the date offset by 2191, the span from 2018 that
  `DateField.SpanFrom2018` proves. The general `dirty_date(year_start)` and its two error
  cases are modelled by `DateField.DirtyDate`, which takes the start year as an argument;
  its default of 2015 is the constant `DateField.DefaultYearStart`.
- Text.Lower, Text.Upper fold ASCII letters only. Python's Unicode case mapping is not
  modelled; every name in the pools is ASCII.
- The job level and role, first and last name, rating and location draws are indices
  into their lists; `random.choice` is not modelled beyond that.
- Skills.DirtySkills takes one rewrite draw per selected skill. The source draws only
  for 'Excel', 'Python' and 'PowerBI'; a skill no rule applies to ignores its draw here,
  so the outputs are the same but the draw count is not modelled.
- `df.to_csv` and the two console prints (lines 169–172) are output and are not modelled.
- pandas index handling (`ignore_index`, `reset_index(drop=True)`, `df.loc[len(df)]`) is
  modelled only as appending to and reordering a sequence of records.
