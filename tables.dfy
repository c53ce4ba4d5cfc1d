/**
  The DataFrame that page.py mutates step by step. Each method performs
  one in-place step of the pipeline (a `columns` reassignment or a
  `drop(..., inplace=True)`) and is specified by the pure function of
  module Frames that computes the same step on values.
 */
module Tables {
  import opened Wrappers
  import opened Masks
  import opened Frames
  import opened FrameLaws
  import opened CandidateLaws
  import opened InterviewerLaws

  class Table {
    var header: seq<string>
    var rows: seq<seq<string>>

    /** The table's current contents as a value. */
    function Value(): Frame
      reads this
    {
      Frame(header, rows)
    }

    /** Every row has one cell per column. */
    ghost predicate Valid()
      reads this
    {
      Rectangular(Value())
    }

    /** `pd.DataFrame(grid[h + 1:], columns=grid[h])`. */
    constructor FromGrid(grid: seq<seq<string>>, h: nat)
      requires IsGrid(grid) && h < |grid|
      ensures Valid() && Value() == Frames.FromGrid(grid, h)
    {
      header := grid[h];
      rows := grid[h + 1..];
    }

    /** `df.columns = ['Навык'] + list(df.columns[1:])`: only the first title changes. */
    method RenameSkillColumn()
      requires Valid() && |header| > 0
      modifies this
      ensures Valid() && Value() == RenameSkill(old(Value()))
      ensures header[0] == Skill && header[1..] == old(header[1..]) && rows == old(rows)
    {
      header := [Skill] + header[1..];
    }

    /** `df.drop(columns=[c for c in df.columns if not keeps(c)], inplace=True)`. */
    method DropColumns(rule: ColumnRule)
      requires Valid()
      modifies this
      ensures Valid() && Value() == Frames.DropColumns(old(Value()), rule)
      ensures |rows| == |old(rows)|
      ensures forall k :: 0 <= k < |header| ==> Keeps(rule, header[k])
    {
      DropColumnsSpec(Value(), rule);
      var keep := ColumnMask(header, rule);
      header, rows := Pick(keep, header), ProjectRows(rows, keep);
    }

    /** `df.drop(index=df[df['Навык'].str.strip().str.len() == 0].index, inplace=True)`. */
    method DropBlankSkillRows()
      requires Valid()
      modifies this
      ensures Valid() && Value() == Frames.DropBlankSkillRows(old(Value()))
      ensures header == old(header)
      ensures forall i :: 0 <= i < |rows| ==> HasSkill(rows[i])
    {
      DropBlankSkillRowsSpec(Value());
      rows := Pick(SkillMask(rows), rows);
    }

    /**
      The level annotation of page.py:258-261. The comprehension is
      evaluated before `columns` is assigned, so a failing title leaves
      the table as it was.
     */
    method AnnotateLevels(roster: Roster) returns (err: Option<PipelineError>)
      requires Valid()
      modifies this
      ensures Valid() && rows == old(rows)
      ensures Annotate(old(header), roster).Ok? ==> err.None? && header == Annotate(old(header), roster).value
      ensures Annotate(old(header), roster).Err? ==> err == Some(Annotate(old(header), roster).error) && header == old(header)
    {
      AnnotateSpec(header, roster);
      var annotated := Annotate(header, roster);
      if annotated.Err? {
        return Some(annotated.error);
      }
      header := annotated.value;
      return None;
    }
  }

  /** The candidate tab's pipeline, page.py:137-161, on one table changed in place. */
  method BuildCandidateTable(grid: seq<seq<string>>, includeStaffing: bool, includeLaboratory: bool) returns (t: Table)
    requires IsCompetencyGrid(grid)
    ensures fresh(t) && t.Valid() && t.Value() == CandidateFrame(grid, includeStaffing, includeLaboratory)
  {
    t := new Table.FromGrid(grid, HeaderRow);
    t.RenameSkillColumn();
    t.DropColumns(Named);
    t.DropBlankSkillRows();
    t.DropColumns(OutsideCohort(Consultant));
    if !includeStaffing {
      t.DropColumns(OutsideCohort(Staffing));
    }
    if !includeLaboratory {
      t.DropColumns(OutsideCohort(Laboratory));
    }
  }

  /**
    The interviewer tab's pipeline, page.py:234-261: read the roster, keep
    the roster's columns, clean, annotate. Either the table it returns
    holds the value InterviewerFrame computes, or it fails with the same
    error.
   */
  method BuildInterviewerTable(rosterGrid: seq<seq<string>>, grid: seq<seq<string>>) returns (r: Result<Table, PipelineError>)
    requires IsRosterGrid(rosterGrid) && IsCompetencyGrid(grid)
    ensures r.Ok? ==> fresh(r.value) && r.value.Valid() && InterviewerFrame(rosterGrid, grid) == Ok(r.value.Value())
    ensures r.Err? ==> InterviewerFrame(rosterGrid, grid) == Err(r.error)
  {
    var read := RosterFromGrid(rosterGrid);
    if read.Err? {
      return Err(read.error);
    }
    var roster := read.value;
    var t := new Table.FromGrid(grid, HeaderRow);
    t.DropColumns(MentionsAny([t.header[0]] + Names(roster)));
    assert t.Value() == RosterFilter(Frames.FromGrid(grid, HeaderRow), roster);
    t.RenameSkillColumn();
    t.DropColumns(Named);
    t.DropBlankSkillRows();
    var err := t.AnnotateLevels(roster);
    if err.Some? {
      return Err(err.value);
    }
    return Ok(t);
  }
}
