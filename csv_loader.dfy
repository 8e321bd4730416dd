/**
 * `transformCandidateData` and its helpers (lib/data/csvLoader.js): turn the rows of the
 * candidates CSV file, as the CSV parser delivers them, into the candidate objects the
 * application works with, filling in defaults for missing columns.
 */
module CsvLoader {
  import opened Wrappers
  import opened JsStrings
  import opened JsNumbers
  import opened JsValues
  import opened McpMatch
  import opened McpStats

  /**
   * One parsed CSV row: column name to cell text. A column the row lacks reads as
   * `undefined`; `undefined` and the empty cell behave alike everywhere below (both are
   * falsy and both parse to `NaN`), so both read as "".
   */
  type Row = map<string, string>

  function Cell(row: Row, column: string): string {
    if column in row then row[column] else ""
  }

  /** A candidate as the application holds it (the avatar URL is not part of this model). */
  datatype Candidate = Candidate(
    id: int,
    name: string,
    title: string,
    location: string,
    experience: int,
    skills: seq<string>,
    email: string,
    phone: string,
    salary: int,
    availability: string)

  /** `parseInt(text) || fallback`. */
  function IntOr(text: string, fallback: int): (r: int)
    ensures r == fallback || ParseLeadingInt(text) == Some(r)
    ensures ParseLeadingInt(text).Some? && ParseLeadingInt(text).value != 0 ==> r == ParseLeadingInt(text).value
    ensures ParseLeadingInt(text).None? || ParseLeadingInt(text) == Some(0) ==> r == fallback
  {
    match ParseLeadingInt(text)
    case Some(n) => if n != 0 then n else fallback
    case None => fallback
  }

  /** `a || b` on strings. */
  function Or(a: string, b: string): string {
    if a != "" then a else b
  }

  /** `skills ? skills.split(';').map(skill => skill.trim()) : []`. */
  function SkillsOf(skills: string): seq<string> {
    if skills == "" then [] else TrimAll(Split(skills, ';'))
  }

  /**
   * `generateEmail(fullName)`: the lower-cased name with each run of white space turned
   * into a dot, at `email.com`; `unknown@email.com` without a name.
   */
  function GenerateEmail(fullName: string): string {
    if fullName == "" then "unknown@email.com"
    else ReplaceSpaceRuns(Lower(fullName), '.') + "@email.com"
  }

  /** `parseAvailability(weeks)`: "0" and no value mean available now. */
  function ParseAvailability(weeks: string): string {
    if weeks == "0" then "Available"
    else if weeks != "" then weeks + " weeks notice"
    else "Available"
  }

  /** The object built for the row at position `index`. */
  function TransformRow(row: Row, index: nat): Candidate {
    Candidate(
      IntOr(Cell(row, "id"), index + 1),
      Or(Cell(row, "full_name"), Or(Cell(row, "name"), "")),
      Or(Cell(row, "title"), ""),
      Or(Cell(row, "location"), ""),
      IntOr(Cell(row, "years_experience"), 0),
      SkillsOf(Cell(row, "skills")),
      Or(Cell(row, "email"), GenerateEmail(Cell(row, "full_name"))),
      Or(Cell(row, "phone"), "+1-555-0000"),
      IntOr(Cell(row, "desired_salary_usd"), 60000),
      ParseAvailability(Cell(row, "availability_weeks")))
  }

  /** `rawData.map((row, index) => ...)`: one candidate per row, in order. */
  function TransformCandidateData(rows: seq<Row>): seq<Candidate> {
    seq(|rows|, i requires 0 <= i < |rows| => TransformRow(rows[i], i))
  }

  /**
   * One candidate per row, in the rows' order. No id is 0: a row's id is its parsed `id`
   * cell, or its position counted from 1 when that cell is missing, not a number or 0.
   */
  lemma TransformedIds(rows: seq<Row>)
    ensures |TransformCandidateData(rows)| == |rows|
    ensures forall i :: 0 <= i < |rows| ==>
      var id := TransformCandidateData(rows)[i].id;
      && id != 0
      && (ParseLeadingInt(Cell(rows[i], "id")) == Some(id) || id == i + 1)
  {
  }

  /** Rows without usable ids are numbered 1, 2, 3, ... in order, so their ids are distinct. */
  lemma PositionalIdsAreDistinct(rows: seq<Row>)
    requires forall i :: 0 <= i < |rows| ==> IntOr(Cell(rows[i], "id"), 0) == 0
    ensures forall i :: 0 <= i < |rows| ==> TransformCandidateData(rows)[i].id == i + 1
    ensures forall i, j :: 0 <= i < j < |rows| ==> TransformCandidateData(rows)[i].id != TransformCandidateData(rows)[j].id
  {
    forall i | 0 <= i < |rows| ensures TransformCandidateData(rows)[i].id == i + 1 {
      assert IntOr(Cell(rows[i], "id"), 0) == 0;
    }
  }

  /** A numeric cell written from a non-zero integer is read back as that integer. */
  lemma IntCellRoundTrip(n: int, fallback: int)
    requires n != 0
    ensures IntOr(IntToString(n), fallback) == n
  {
    ParseIntToString(n);
  }

  /** A row whose every cell is empty gets every default. */
  lemma EmptyRowDefaults(index: nat)
    ensures TransformRow(map[], index)
         == Candidate(index + 1, "", "", "", 0, [], "unknown@email.com", "+1-555-0000", 60000, "Available")
  {
    var row: Row := map[];
    forall column ensures Cell(row, column) == "" {
    }
    ParseRejects("");
    assert IntOr("", index + 1) == index + 1;
    assert IntOr("", 0) == 0;
    assert IntOr("", 60000) == 60000;
  }

  /** The name is `full_name`, or else `name`, or else empty. */
  lemma NameFallback(row: Row, index: nat)
    ensures var name := TransformRow(row, index).name;
      && (Cell(row, "full_name") != "" ==> name == Cell(row, "full_name"))
      && (Cell(row, "full_name") == "" ==> name == Cell(row, "name"))
  {
  }

  /**
   * Skills written to the cell joined with `;` are read back as the same list, provided
   * no skill contains `;` or has white space at either end.
   */
  lemma SkillsRoundTrip(skills: seq<string>)
    requires |skills| >= 1 && Join(skills, ';') != ""
    requires forall i :: 0 <= i < |skills| ==> ';' !in skills[i]
    requires forall i :: 0 <= i < |skills| ==>
      skills[i] == [] || (!IsSpace(skills[i][0]) && !IsSpace(skills[i][|skills[i]| - 1]))
    ensures SkillsOf(Join(skills, ';')) == skills
  {
    SplitJoin(skills, ';');
    forall i | 0 <= i < |skills| ensures Trim(skills[i]) == skills[i] {
      TrimProperties(skills[i]);
    }
  }

  /** Every generated address ends in `@email.com` and has no white space before it. */
  lemma EmailShape(fullName: string)
    ensures var e := GenerateEmail(fullName);
      && |e| >= 10 && e[|e| - 10..] == "@email.com"
      && forall i :: 0 <= i < |e| - 10 ==> !IsSpace(e[i])
  {
    var e := GenerateEmail(fullName);
    if fullName != "" {
      var local := ReplaceSpaceRuns(Lower(fullName), '.');
      assert e[..|local|] == local;
    }
  }

  /** Lower-casing keeps white space where it is. */
  lemma LowerKeepsSpaces(s: string)
    ensures forall i :: 0 <= i < |s| ==> (IsSpace(Lower(s)[i]) <==> IsSpace(s[i]))
  {
  }

  /**
   * Experience and salary are the parsed cells; a cell that is missing, not a number or
   * `0` gives 0 years and a salary of 60000.
   */
  lemma NumericDefaults(row: Row, index: nat)
    ensures var c := TransformRow(row, index);
      var years, salary := ParseLeadingInt(Cell(row, "years_experience")), ParseLeadingInt(Cell(row, "desired_salary_usd"));
      && (years.Some? && years.value != 0 ==> c.experience == years.value)
      && (years.None? || years == Some(0) ==> c.experience == 0)
      && (salary.Some? && salary.value != 0 ==> c.salary == salary.value)
      && (salary.None? || salary == Some(0) ==> c.salary == 60000)
  {
  }

  /** The skills are the `;`-separated pieces of the cell, each trimmed; no cell, no skills. */
  lemma SkillsMeaning(row: Row, index: nat)
    ensures var skills := TransformRow(row, index).skills;
      && (Cell(row, "skills") == "" ==> skills == [])
      && (Cell(row, "skills") != "" ==>
            && |skills| == |Split(Cell(row, "skills"), ';')|
            && forall i :: 0 <= i < |skills| ==> skills[i] == Trim(Split(Cell(row, "skills"), ';')[i]))
  {
  }

  /** A first and a last name separated by one space give `first.last@email.com`, lower-cased. */
  lemma EmailOfFirstAndLast(first: string, last: string)
    requires forall i :: 0 <= i < |first| ==> !IsSpace(first[i])
    requires forall i :: 0 <= i < |last| ==> !IsSpace(last[i])
    ensures GenerateEmail(first + ([' '] + last)) == Lower(first) + (['.'] + Lower(last)) + "@email.com"
  {
    var lf, ll := Lower(first), Lower(last);
    assert Lower(first + ([' '] + last)) == lf + ([' '] + ll);
    LowerKeepsSpaces(first);
    LowerKeepsSpaces(last);
    ReplaceSingleSpace(lf, ll, '.');
  }

  /** Notice is reported exactly when the cell holds something other than "0". */
  lemma AvailabilityMeaning(weeks: string)
    ensures ParseAvailability(weeks) == "Available" <==> weeks == "" || weeks == "0"
    ensures weeks != "" && weeks != "0" ==> ParseAvailability(weeks) == weeks + " weeks notice"
  {
    if weeks != "" && weeks != "0" {
      assert |ParseAvailability(weeks)| > |"Available"|;
    }
  }

  /** The candidate as the search tools see it: a record of JavaScript values. */
  function AsRecord(c: Candidate): Record {
    map[
      "name" := Str(c.name),
      "title" := Str(c.title),
      "location" := Str(c.location),
      "email" := Str(c.email),
      "phone" := Str(c.phone),
      "salary" := Num(c.salary),
      "availability" := Str(c.availability),
      "id" := Num(c.id),
      "experience" := Num(c.experience),
      "skills" := Arr(c.skills)]
  }

  /**
   * What the search tools read from a loaded candidate: its id, its experience (for the
   * average and for ranking) and its skills list (for the skill counts).
   */
  lemma LoadedCandidateAsSeenBySearch(rt: Runtime, c: Candidate)
    ensures Get(AsRecord(c), "id") == Num(c.id)
    ensures ExperienceOf(AsRecord(c)) == c.experience
    ensures GetFieldValue(rt, AsRecord(c), "experience") == KNum(c.experience)
    ensures SkillList(Get(AsRecord(c), "skills")) == c.skills
  {
    ParseNumberOfNum(c.experience);
    NumericFieldOfNumber(rt, AsRecord(c), "experience", c.experience);
  }
}
