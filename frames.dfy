/**
  The competency table as a value: column labels plus rows of string
  cells, the shape of a DataFrame built from `worksheet.get_all_values()`.
  Every cleaning step of page.py is a function from one such frame to the
  next; the `Table` class in module Tables performs the same steps in
  place.
 */
module Frames {
  import opened Wrappers
  import opened Text
  import opened Masks

  /** The title the first column always receives. */
  const Skill: string := "Навык"
  /** Marker of an unlabelled spreadsheet column. */
  const Unnamed: string := "Unnamed"
  /** Roster column with the interviewer's name. */
  const Employee: string := "Сотрудник"
  /** Roster column with the interviewer's grade. */
  const Level: string := "Уровень"
  /** Cohort markers, matched ignoring case. */
  const Consultant: string := "cnslt"
  const Staffing: string := "staff"
  const Laboratory: string := "laba"
  /** Index of the title row in a competency sheet; the body starts one row below. */
  const HeaderRow: nat := 5

  datatype Frame = Frame(header: seq<string>, rows: seq<seq<string>>)

  /** Every row has one cell per column. */
  predicate Rectangular(f: Frame) {
    forall i :: 0 <= i < |f.rows| ==> |f.rows[i]| == |f.header|
  }

  /** A cell grid as `get_all_values()` returns it: all rows of one width. */
  predicate IsGrid(grid: seq<seq<string>>) {
    forall i :: 0 <= i < |grid| ==> |grid[i]| == |grid[0]|
  }

  /** A competency sheet page.py can index: a title row at index 5 with at least one column. */
  predicate IsCompetencyGrid(grid: seq<seq<string>>) {
    IsGrid(grid) && |grid| > HeaderRow && |grid[HeaderRow]| > 0
  }

  /** A roster sheet page.py can index: a title row at index 0. */
  predicate IsRosterGrid(grid: seq<seq<string>>) {
    IsGrid(grid) && |grid| > 0
  }

  /** `pd.DataFrame(grid[h + 1:], columns=grid[h])`. */
  function FromGrid(grid: seq<seq<string>>, h: nat): (f: Frame)
    requires IsGrid(grid) && h < |grid|
    ensures Rectangular(f)
  {
    Frame(grid[h], grid[h + 1..])
  }

  /** `df.columns = ['Навык'] + list(df.columns[1:])`. */
  function RenameSkill(f: Frame): Frame
    requires |f.header| > 0
  {
    Frame([Skill] + f.header[1..], f.rows)
  }

  // ---------------------------------------------------------------------
  // Dropping columns
  // ---------------------------------------------------------------------

  /** The reasons page.py keeps a column, one per list comprehension that selects columns to drop. */
  datatype ColumnRule =
    | Named                           // the title does not contain "Unnamed"
    | OutsideCohort(marker: string)   // the title does not contain the marker, ignoring case
    | MentionsAny(names: seq<string>) // the title contains one of the names

  predicate Keeps(rule: ColumnRule, title: string) {
    match rule
    case Named => !Contains(title, Unnamed)
    case OutsideCohort(marker) => !Contains(Lower(title), Lower(marker))
    case MentionsAny(names) => exists k :: 0 <= k < |names| && Contains(title, names[k])
  }

  /** One flag per column: does the rule keep it? */
  function ColumnMask(header: seq<string>, rule: ColumnRule): seq<bool> {
    seq(|header|, j requires 0 <= j < |header| => Keeps(rule, header[j]))
  }

  /** Every row restricted to the columns whose flag is set. */
  function ProjectRows(rows: seq<seq<string>>, m: seq<bool>): (r: seq<seq<string>>)
    requires forall row :: row in rows ==> |row| == |m|
    ensures |r| == |rows| && forall i :: 0 <= i < |r| ==> |r[i]| == Count(m)
  {
    seq(|rows|, i requires 0 <= i < |rows| => Pick(m, rows[i]))
  }

  /** Keep the columns whose flag is set, cells and order unchanged. */
  function DropByMask(f: Frame, m: seq<bool>): (r: Frame)
    requires Rectangular(f) && |m| == |f.header|
    ensures Rectangular(r) && |r.rows| == |f.rows|
  {
    Frame(Pick(m, f.header), ProjectRows(f.rows, m))
  }

  /** `df.drop(columns=[c for c in df.columns if not keeps(c)], inplace=True)`. */
  function DropColumns(f: Frame, rule: ColumnRule): (r: Frame)
    requires Rectangular(f)
    ensures Rectangular(r) && |r.rows| == |f.rows|
  {
    DropByMask(f, ColumnMask(f.header, rule))
  }

  // ---------------------------------------------------------------------
  // Dropping rows
  // ---------------------------------------------------------------------

  /** The row's skill cell, stripped, is not empty. */
  predicate HasSkill(row: seq<string>) {
    |row| > 0 && !IsBlank(row[0])
  }

  function SkillMask(rows: seq<seq<string>>): seq<bool> {
    seq(|rows|, i requires 0 <= i < |rows| => HasSkill(rows[i]))
  }

  /** Drop every row whose skill cell is empty after `strip()`. */
  function DropBlankSkillRows(f: Frame): (r: Frame)
    requires Rectangular(f)
    ensures Rectangular(r) && r.header == f.header
  {
    PickAt(SkillMask(f.rows), f.rows);
    Frame(f.header, Pick(SkillMask(f.rows), f.rows))
  }

  /** The cleaning shared by both tabs: rename the skill column, drop unnamed columns, drop blank skill rows. */
  function Normalize(f: Frame): (r: Frame)
    requires Rectangular(f) && |f.header| > 0
    ensures Rectangular(r)
  {
    DropBlankSkillRows(DropColumns(RenameSkill(f), Named))
  }

  // ---------------------------------------------------------------------
  // Candidate cohorts
  // ---------------------------------------------------------------------

  /** Consultants always go; staffing and laboratory columns go unless their flag is set. */
  function CohortFilter(f: Frame, includeStaffing: bool, includeLaboratory: bool): (r: Frame)
    requires Rectangular(f)
    ensures Rectangular(r) && |r.rows| == |f.rows|
  {
    var noConsultants := DropColumns(f, OutsideCohort(Consultant));
    var staffed := if includeStaffing then noConsultants else DropColumns(noConsultants, OutsideCohort(Staffing));
    if includeLaboratory then staffed else DropColumns(staffed, OutsideCohort(Laboratory))
  }

  /** The candidate tab's table: the sheet, cleaned, without the excluded cohorts. */
  function CandidateFrame(grid: seq<seq<string>>, includeStaffing: bool, includeLaboratory: bool): Frame
    requires IsCompetencyGrid(grid)
  {
    CohortFilter(Normalize(FromGrid(grid, HeaderRow)), includeStaffing, includeLaboratory)
  }

  // ---------------------------------------------------------------------
  // Interviewer roster
  // ---------------------------------------------------------------------

  datatype RosterEntry = RosterEntry(name: string, level: string)

  /** The roster's rows in order; `hasLevel` records whether it has an "Уровень" column at all. */
  datatype Roster = Roster(entries: seq<RosterEntry>, hasLevel: bool)

  datatype PipelineError =
    | MissingColumn(title: string)    // KeyError on a roster column
    | DuplicateColumn(title: string)  // the name column selects a sub-frame, which has no `tolist`
    | NoRosterMatch(column: string)   // `.iloc[0]` on an empty selection

  /** The first index holding `x`. */
  function IndexOf(xs: seq<string>, x: string): (r: nat)
    requires x in xs
    ensures r < |xs| && xs[r] == x && x !in xs[..r]
  {
    if xs[0] == x then 0
    else
      assert xs == [xs[0]] + xs[1..];
      var r' := IndexOf(xs[1..], x);
      assert xs[..r' + 1] == [xs[0]] + xs[1..][..r'];
      r' + 1
  }

  /** The roster sheet read as a DataFrame with its title row at index 0. */
  function RosterFromGrid(grid: seq<seq<string>>): Result<Roster, PipelineError>
    requires IsRosterGrid(grid)
  {
    var labels := grid[0];
    if Employee !in labels then Err(MissingColumn(Employee))
    else
      var e := IndexOf(labels, Employee);
      if Employee in labels[e + 1..] then Err(DuplicateColumn(Employee))
      else
        var hasLevel := Level in labels;
        var l := if hasLevel then IndexOf(labels, Level) else e;
        Ok(Roster(
          seq(|grid| - 1, i requires 0 <= i < |grid| - 1 =>
            RosterEntry(grid[i + 1][e], if hasLevel then grid[i + 1][l] else "")),
          hasLevel))
  }

  function Names(roster: Roster): seq<string> {
    seq(|roster.entries|, k requires 0 <= k < |roster.entries| => roster.entries[k].name)
  }

  /** Keep the columns whose title contains the raw first title or a roster name, case-sensitively. */
  function RosterFilter(f: Frame, roster: Roster): (r: Frame)
    requires Rectangular(f) && |f.header| > 0
    ensures Rectangular(r) && |r.rows| == |f.rows|
    ensures |r.header| > 0 && r.header[0] == f.header[0]
  {
    var rule := MentionsAny([f.header[0]] + Names(roster));
    ContainsSelfAndEmpty(f.header[0]);
    assert Keeps(rule, f.header[0]) by { assert ([f.header[0]] + Names(roster))[0] == f.header[0]; }
    PickCons(ColumnMask(f.header, rule), f.header);
    DropColumns(f, rule)
  }

  /** The roster entry's lowered name occurs in the stripped, lowered column title. */
  predicate Matches(entry: RosterEntry, title: string) {
    Contains(Lower(Strip(title)), Lower(entry.name))
  }

  /** One flag per roster row, in roster order: does the entry match the title? */
  function MatchMask(entries: seq<RosterEntry>, title: string): seq<bool>
  {
    seq(|entries|, k requires 0 <= k < |entries| => Matches(entries[k], title))
  }

  /**
    One title after the level annotation: "Навык" as it is; any other
    title with the grade of the first selected roster row (`.iloc[0]`)
    appended, an error when no row is selected or the roster has no
    "Уровень" column.
   */
  function AnnotateLabel(title: string, roster: Roster): Result<string, PipelineError> {
    if title == Skill then Ok(title)
    else
      var selected := Pick(MatchMask(roster.entries, title), roster.entries);
      if |selected| == 0 then Err(NoRosterMatch(title))
      else if !roster.hasLevel then Err(MissingColumn(Level))
      else Ok(title + " (" + selected[0].level + ")")
  }

  /** The annotations of the titles in order, before any of them is applied. */
  function Labels(header: seq<string>, roster: Roster): seq<Result<string, PipelineError>>
  {
    seq(|header|, k requires 0 <= k < |header| => AnnotateLabel(header[k], roster))
  }

  /** The whole header annotated left to right; the first failing title stops it. */
  function Annotate(header: seq<string>, roster: Roster): Result<seq<string>, PipelineError> {
    Collect(Labels(header, roster))
  }

  /** The interviewer tab's table: roster filter, the shared cleaning, and the level annotation. */
  function InterviewerFrame(rosterGrid: seq<seq<string>>, grid: seq<seq<string>>): Result<Frame, PipelineError>
    requires IsRosterGrid(rosterGrid) && IsCompetencyGrid(grid)
  {
    var roster :- RosterFromGrid(rosterGrid);
    var clean := Normalize(RosterFilter(FromGrid(grid, HeaderRow), roster));
    var header :- Annotate(clean.header, roster);
    Ok(Frame(header, clean.rows))
  }
}
