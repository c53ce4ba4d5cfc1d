/**
  What the candidate tab's table is: the competency sheet with its skill
  column renamed, unnamed columns and blank skill rows dropped, and the
  excluded cohorts removed.
 */
module CandidateLaws {
  import opened Text
  import opened Masks
  import opened Frames
  import opened FrameLaws

  /** A character absent from the text rules out every word starting with it. */
  lemma AbsentFirstChar(s: string, sub: string)
    requires |sub| > 0 && sub[0] !in s
    ensures !Contains(s, sub)
  {
    if Contains(s, sub) {
      ContainsFirstChar(s, sub);
    }
  }

  /** The cohort markers are lower case already, so matching them ignoring case is matching the lowered title. */
  lemma MarkersAreLowerCase()
    ensures Lower(Consultant) == Consultant && Lower(Staffing) == Staffing && Lower(Laboratory) == Laboratory
  {
    assert Lower(Consultant) == "cnslt";
    assert Lower(Staffing) == "staff";
    assert Lower(Laboratory) == "laba";
  }

  /** "Навык" is kept by the unnamed-column rule and by every cohort rule. */
  lemma SkillSurvivesFilters()
    ensures Keeps(Named, Skill)
    ensures Keeps(OutsideCohort(Consultant), Skill)
    ensures Keeps(OutsideCohort(Staffing), Skill)
    ensures Keeps(OutsideCohort(Laboratory), Skill)
  {
    AbsentFirstChar(Skill, Unnamed);
    MarkersAreLowerCase();
    assert Lower(Skill) == "навык";
    AbsentFirstChar(Lower(Skill), Consultant);
    AbsentFirstChar(Lower(Skill), Staffing);
    AbsentFirstChar(Lower(Skill), Laboratory);
  }

  /** A title survives the cohort filter when it is outside every cohort that is not included. */
  predicate CohortKeeps(title: string, includeStaffing: bool, includeLaboratory: bool) {
    && Keeps(OutsideCohort(Consultant), title)
    && (includeStaffing || Keeps(OutsideCohort(Staffing), title))
    && (includeLaboratory || Keeps(OutsideCohort(Laboratory), title))
  }

  function CohortMask(header: seq<string>, includeStaffing: bool, includeLaboratory: bool): seq<bool> {
    seq(|header|, j requires 0 <= j < |header| => CohortKeeps(header[j], includeStaffing, includeLaboratory))
  }

  /** The combined rule's flags are the consultant flags and-ed with those of each excluded cohort. */
  lemma CohortMaskSteps(h: seq<string>, includeStaffing: bool, includeLaboratory: bool)
    ensures var m1 := ColumnMask(h, OutsideCohort(Consultant));
            var m2 := if includeStaffing then m1 else And(m1, ColumnMask(h, OutsideCohort(Staffing)));
            var m3 := if includeLaboratory then m2 else And(m2, ColumnMask(h, OutsideCohort(Laboratory)));
      CohortMask(h, includeStaffing, includeLaboratory) == m3
  {
  }

  /** The three successive cohort drops are one drop by the combined rule. */
  lemma CohortFilterSinglePass(f: Frame, includeStaffing: bool, includeLaboratory: bool)
    requires Rectangular(f)
    ensures CohortFilter(f, includeStaffing, includeLaboratory)
         == DropByMask(f, CohortMask(f.header, includeStaffing, includeLaboratory))
  {
    var h := f.header;
    var m1 := ColumnMask(h, OutsideCohort(Consultant));
    var f1 := DropColumns(f, OutsideCohort(Consultant));
    var m2 := if includeStaffing then m1 else And(m1, ColumnMask(h, OutsideCohort(Staffing)));
    var f2 := if includeStaffing then f1 else DropColumns(f1, OutsideCohort(Staffing));
    if !includeStaffing {
      DropAfterMask(f, m1, OutsideCohort(Staffing));
    }
    assert f2 == DropByMask(f, m2);
    var m3 := if includeLaboratory then m2 else And(m2, ColumnMask(h, OutsideCohort(Laboratory)));
    var f3 := if includeLaboratory then f2 else DropColumns(f2, OutsideCohort(Laboratory));
    if !includeLaboratory {
      DropAfterMask(f, m2, OutsideCohort(Laboratory));
    }
    assert f3 == DropByMask(f, m3);
    assert CohortFilter(f, includeStaffing, includeLaboratory) == f3;
    CohortMaskSteps(h, includeStaffing, includeLaboratory);
  }

  /** Every title that survives the cohort filter is one the combined rule keeps. */
  lemma CohortSurvivorsKept(f: Frame, includeStaffing: bool, includeLaboratory: bool)
    requires Rectangular(f)
    ensures var r := CohortFilter(f, includeStaffing, includeLaboratory);
      forall k :: 0 <= k < |r.header| ==> CohortKeeps(r.header[k], includeStaffing, includeLaboratory)
  {
    var m := CohortMask(f.header, includeStaffing, includeLaboratory);
    var P := Positions(m);
    CohortFilterSinglePass(f, includeStaffing, includeLaboratory);
    PickAt(m, f.header);
    PositionsSpec(m);
    forall k | 0 <= k < |P|
      ensures CohortKeeps(Pick(m, f.header)[k], includeStaffing, includeLaboratory)
    {
      assert P[k] in P;
    }
  }

  /**
    After the cohort filter no title contains "cnslt" ignoring case, none
    contains "staff" unless staffing is included, none contains "laba"
    unless the laboratory is included; a column survives exactly when its
    title is outside every excluded cohort, and rows and the cells of kept
    columns are untouched.
   */
  lemma CohortFilterSpec(f: Frame, includeStaffing: bool, includeLaboratory: bool)
    requires Rectangular(f)
    ensures var r, P := CohortFilter(f, includeStaffing, includeLaboratory),
                        Positions(CohortMask(f.header, includeStaffing, includeLaboratory));
      && (forall k :: 0 <= k < |r.header| ==> !Contains(Lower(r.header[k]), Consultant))
      && (!includeStaffing ==> forall k :: 0 <= k < |r.header| ==> !Contains(Lower(r.header[k]), Staffing))
      && (!includeLaboratory ==> forall k :: 0 <= k < |r.header| ==> !Contains(Lower(r.header[k]), Laboratory))
      && |r.rows| == |f.rows| && |r.header| == |P|
      && (forall j :: 0 <= j < |f.header| ==> (CohortKeeps(f.header[j], includeStaffing, includeLaboratory) <==> j in P))
      && (forall k :: 0 <= k < |P| ==> P[k] < |f.header| && r.header[k] == f.header[P[k]])
      && (forall i, k :: 0 <= i < |f.rows| && 0 <= k < |P| ==> r.rows[i][k] == f.rows[i][P[k]])
  {
    var m := CohortMask(f.header, includeStaffing, includeLaboratory);
    CohortFilterSinglePass(f, includeStaffing, includeLaboratory);
    CohortSurvivorsKept(f, includeStaffing, includeLaboratory);
    MarkersAreLowerCase();
    DropByMaskSpec(f, m);
  }

  /** Applying the cohort filter a second time with the same flags changes nothing. */
  lemma CohortFilterIdempotent(f: Frame, includeStaffing: bool, includeLaboratory: bool)
    requires Rectangular(f)
    ensures var r := CohortFilter(f, includeStaffing, includeLaboratory);
      CohortFilter(r, includeStaffing, includeLaboratory) == r
  {
    var r := CohortFilter(f, includeStaffing, includeLaboratory);
    CohortSurvivorsKept(f, includeStaffing, includeLaboratory);
    CohortFilterSinglePass(r, includeStaffing, includeLaboratory);
    DropByMaskAllSet(r, CohortMask(r.header, includeStaffing, includeLaboratory));
  }

  /** The cohort filter keeps the skill column first, with its cells. */
  lemma CohortKeepsSkillColumn(f: Frame, includeStaffing: bool, includeLaboratory: bool)
    requires Rectangular(f) && |f.header| > 0 && f.header[0] == Skill
    ensures var r := CohortFilter(f, includeStaffing, includeLaboratory);
      && |r.header| > 0 && r.header[0] == Skill
      && forall i :: 0 <= i < |r.rows| ==> |r.rows[i]| > 0 && r.rows[i][0] == f.rows[i][0]
  {
    SkillSurvivesFilters();
    CohortFilterSinglePass(f, includeStaffing, includeLaboratory);
    FirstColumnSurvives(f, CohortMask(f.header, includeStaffing, includeLaboratory));
  }

  /** Renaming the first title to "Навык" leaves it kept; the other flags are those of the original tail. */
  lemma RenamedFlags(header: seq<string>)
    requires |header| > 0
    ensures ColumnMask([Skill] + header[1..], Named) == [true] + ColumnMask(header[1..], Named)
  {
    SkillSurvivesFilters();
    var h, T := [Skill] + header[1..], ColumnMask(header[1..], Named);
    forall j | 0 < j < |h|
      ensures ColumnMask(h, Named)[j] == ([true] + T)[j]
    {
      assert h[j] == header[1..][j - 1];
    }
  }

  /** The unnamed-column drop after the rename keeps the skill column and the named columns of the tail, and no skill cell changes. */
  lemma RenamedNamedMask(f: Frame)
    requires Rectangular(f) && |f.header| > 0
    ensures var T, d := ColumnMask(f.header[1..], Named), DropColumns(RenameSkill(f), Named);
      && ColumnMask(RenameSkill(f).header, Named) == [true] + T
      && d.rows == ProjectRows(f.rows, [true] + T)
      && SkillMask(d.rows) == SkillMask(f.rows)
  {
    var T := ColumnMask(f.header[1..], Named);
    RenamedFlags(f.header);
    SkillMaskProject(f.rows, [true] + T);
  }

  /**
    The cleaning of a frame: the first title becomes "Навык", the other
    titles are those not containing "Unnamed", in order; the rows are those
    with a non-blank skill cell, restricted to the kept columns.
   */
  lemma NormalizeSpec(f: Frame)
    requires Rectangular(f) && |f.header| > 0
    ensures var T := ColumnMask(f.header[1..], Named);
      && Normalize(f).header == [Skill] + Pick(T, f.header[1..])
      && Normalize(f).rows == Pick(SkillMask(f.rows), ProjectRows(f.rows, [true] + T))
  {
    var tail := f.header[1..];
    var T := ColumnMask(tail, Named);
    RenamedNamedMask(f);
    PickAppend([true], [Skill], T, tail);
    assert Pick([true], [Skill]) == [Skill] by {
      assert Pick([true], [Skill]) == Pick([], []) + [Skill];
    }
  }

  /** The cleaned titles: "Навык" first, and none contains "Unnamed". */
  lemma NormalizeHeader(f: Frame)
    requires Rectangular(f) && |f.header| > 0
    ensures var r := Normalize(f);
      && |r.header| > 0 && r.header[0] == Skill
      && r.header[1..] == Pick(ColumnMask(f.header[1..], Named), f.header[1..])
      && forall k :: 0 <= k < |r.header| ==> !Contains(r.header[k], Unnamed)
  {
    NormalizeSpec(f);
    DropColumnsSpec(RenameSkill(f), Named);
  }

  /**
    The cleaned rows: exactly the rows with a non-blank skill cell, in
    order, each restricted to the kept columns.
   */
  lemma NormalizeRows(f: Frame)
    requires Rectangular(f) && |f.header| > 0
    ensures var r, T, P := Normalize(f), ColumnMask(f.header[1..], Named), Positions(SkillMask(f.rows));
      && |r.rows| == |P|
      && (forall i :: 0 <= i < |f.rows| ==> (HasSkill(f.rows[i]) <==> i in P))
      && (forall k, l :: 0 <= k < l < |P| ==> P[k] < P[l])
      && (forall k :: 0 <= k < |P| ==> P[k] < |f.rows| && r.rows[k] == Pick([true] + T, f.rows[P[k]]))
      && (forall k :: 0 <= k < |r.rows| ==> HasSkill(r.rows[k]))
  {
    var T := ColumnMask(f.header[1..], Named);
    var d := DropColumns(RenameSkill(f), Named);
    var S := SkillMask(f.rows);
    var r := Normalize(f);
    RenamedNamedMask(f);
    assert r.rows == Pick(S, d.rows);
    PickAt(S, d.rows);
    PositionsSpec(S);
    var P := Positions(S);
    forall k | 0 <= k < |P|
      ensures P[k] < |f.rows| && r.rows[k] == Pick([true] + T, f.rows[P[k]]) && HasSkill(r.rows[k])
    {
      assert r.rows[k] == d.rows[P[k]];
      assert P[k] in P;
      assert S[P[k]];
      PickCons([true] + T, f.rows[P[k]]);
    }
  }

  /** What the cleaning establishes: "Навык" first, no "Unnamed" title, no blank skill cell. */
  predicate IsClean(f: Frame) {
    && Rectangular(f) && |f.header| > 0 && f.header[0] == Skill
    && (forall k :: 0 <= k < |f.header| ==> !Contains(f.header[k], Unnamed))
    && (forall i :: 0 <= i < |f.rows| ==> HasSkill(f.rows[i]))
  }

  /** The cleaning produces a clean frame. */
  lemma NormalizeIsClean(f: Frame)
    requires Rectangular(f) && |f.header| > 0
    ensures IsClean(Normalize(f))
  {
    NormalizeHeader(f);
    NormalizeRows(f);
  }

  /** The cleaning leaves a clean frame as it is. */
  lemma CleanIsFixed(r: Frame)
    requires IsClean(r)
    ensures Normalize(r) == r
  {
    assert RenameSkill(r) == r by {
      assert [Skill] + r.header[1..] == r.header;
    }
    DropColumnsNoOp(r, Named);
    assert AllSet(SkillMask(r.rows));
    PickAllSet(SkillMask(r.rows), r.rows);
  }

  /** Cleaning a clean frame changes nothing. */
  lemma NormalizeIdempotent(f: Frame)
    requires Rectangular(f) && |f.header| > 0
    ensures var r := Normalize(f); |r.header| > 0 && Normalize(r) == r
  {
    NormalizeIsClean(f);
    CleanIsFixed(Normalize(f));
  }

  /**
    The cleaned competency sheet: "Навык" first, then the row-5 titles not
    containing "Unnamed" in their order; no title contains "Unnamed"; the
    rows are exactly the body rows (rows 6 on) whose skill cell is not
    blank, in order, each restricted to the kept columns, cells unchanged.
   */
  lemma NormalizedSheet(grid: seq<seq<string>>)
    requires IsCompetencyGrid(grid)
    ensures var r, title, body := Normalize(FromGrid(grid, HeaderRow)), grid[HeaderRow], grid[HeaderRow + 1..];
            var T, P := ColumnMask(title[1..], Named), Positions(SkillMask(body));
      && |r.header| > 0 && r.header[0] == Skill
      && r.header[1..] == Pick(T, title[1..])
      && (forall k :: 0 <= k < |r.header| ==> !Contains(r.header[k], Unnamed))
      && |r.rows| == |P|
      && (forall i :: 0 <= i < |body| ==> (HasSkill(body[i]) <==> i in P))
      && (forall k, l :: 0 <= k < l < |P| ==> P[k] < P[l])
      && (forall k :: 0 <= k < |P| ==> P[k] < |body| && r.rows[k] == Pick([true] + T, body[P[k]]))
      && (forall k :: 0 <= k < |r.rows| ==> HasSkill(r.rows[k]))
  {
    NormalizeHeader(FromGrid(grid, HeaderRow));
    NormalizeRows(FromGrid(grid, HeaderRow));
  }

  /** The cohort filter keeps a title free of `Unnamed` when all the input's titles are. */
  lemma CohortNoUnnamed(f: Frame, includeStaffing: bool, includeLaboratory: bool)
    requires Rectangular(f)
    requires forall k :: 0 <= k < |f.header| ==> !Contains(f.header[k], Unnamed)
    ensures var r := CohortFilter(f, includeStaffing, includeLaboratory);
      forall k :: 0 <= k < |r.header| ==> !Contains(r.header[k], Unnamed)
  {
    var r := CohortFilter(f, includeStaffing, includeLaboratory);
    var P := Positions(CohortMask(f.header, includeStaffing, includeLaboratory));
    CohortFilterSpec(f, includeStaffing, includeLaboratory);
    forall k | 0 <= k < |r.header|
      ensures !Contains(r.header[k], Unnamed)
    {
      assert r.header[k] == f.header[P[k]];
    }
  }

  /**
    On titles that start with `Навык` and have no `Unnamed`, the cohort
    filter's titles still do, and none of them is in an excluded cohort.
   */
  lemma CohortHeader(f: Frame, includeStaffing: bool, includeLaboratory: bool)
    requires Rectangular(f) && |f.header| > 0 && f.header[0] == Skill
    requires forall k :: 0 <= k < |f.header| ==> !Contains(f.header[k], Unnamed)
    ensures var r := CohortFilter(f, includeStaffing, includeLaboratory);
      && |r.header| > 0 && r.header[0] == Skill
      && (forall k :: 0 <= k < |r.header| ==> !Contains(r.header[k], Unnamed))
      && (forall k :: 0 <= k < |r.header| ==> !Contains(Lower(r.header[k]), Consultant))
      && (!includeStaffing ==> forall k :: 0 <= k < |r.header| ==> !Contains(Lower(r.header[k]), Staffing))
      && (!includeLaboratory ==> forall k :: 0 <= k < |r.header| ==> !Contains(Lower(r.header[k]), Laboratory))
  {
    CohortFilterSpec(f, includeStaffing, includeLaboratory);
    CohortKeepsSkillColumn(f, includeStaffing, includeLaboratory);
    CohortNoUnnamed(f, includeStaffing, includeLaboratory);
  }

  /**
    The candidate tab's titles: "Навык" first; none contains "Unnamed";
    none contains "cnslt" ignoring case, nor "staff" unless staffing is
    included, nor "laba" unless the laboratory is included.
   */
  lemma CandidateHeader(grid: seq<seq<string>>, includeStaffing: bool, includeLaboratory: bool)
    requires IsCompetencyGrid(grid)
    ensures var r := CandidateFrame(grid, includeStaffing, includeLaboratory);
      && |r.header| > 0 && r.header[0] == Skill
      && (forall k :: 0 <= k < |r.header| ==> !Contains(r.header[k], Unnamed))
      && (forall k :: 0 <= k < |r.header| ==> !Contains(Lower(r.header[k]), Consultant))
      && (!includeStaffing ==> forall k :: 0 <= k < |r.header| ==> !Contains(Lower(r.header[k]), Staffing))
      && (!includeLaboratory ==> forall k :: 0 <= k < |r.header| ==> !Contains(Lower(r.header[k]), Laboratory))
  {
    var f := FromGrid(grid, HeaderRow);
    NormalizeHeader(f);
    CohortHeader(Normalize(f), includeStaffing, includeLaboratory);
  }


  /** Every row of the candidate tab's table has a non-blank skill cell. */
  lemma CandidateRows(grid: seq<seq<string>>, includeStaffing: bool, includeLaboratory: bool)
    requires IsCompetencyGrid(grid)
    ensures var r := CandidateFrame(grid, includeStaffing, includeLaboratory);
      forall k :: 0 <= k < |r.rows| ==> HasSkill(r.rows[k])
  {
    var f := FromGrid(grid, HeaderRow);
    var n := Normalize(f);
    var r := CandidateFrame(grid, includeStaffing, includeLaboratory);
    NormalizeIsClean(f);
    CohortKeepsSkillColumn(n, includeStaffing, includeLaboratory);
    forall i | 0 <= i < |r.rows|
      ensures HasSkill(r.rows[i])
    {
      assert r.rows[i][0] == n.rows[i][0] && HasSkill(n.rows[i]);
    }
  }

  /**
    The candidate tab's table: "Навык" first; no title contains "Unnamed";
    no title contains "cnslt" ignoring case, nor "staff" unless staffing
    is included, nor "laba" unless the laboratory is included; every row
    has a non-blank skill cell; and it is the cleaned sheet with exactly
    the columns outside the excluded cohorts kept, as one drop.
   */
  lemma CandidateFrameSpec(grid: seq<seq<string>>, includeStaffing: bool, includeLaboratory: bool)
    requires IsCompetencyGrid(grid)
    ensures var n, r := Normalize(FromGrid(grid, HeaderRow)), CandidateFrame(grid, includeStaffing, includeLaboratory);
      && |r.header| > 0 && r.header[0] == Skill
      && (forall k :: 0 <= k < |r.header| ==> !Contains(r.header[k], Unnamed))
      && (forall k :: 0 <= k < |r.header| ==> !Contains(Lower(r.header[k]), Consultant))
      && (!includeStaffing ==> forall k :: 0 <= k < |r.header| ==> !Contains(Lower(r.header[k]), Staffing))
      && (!includeLaboratory ==> forall k :: 0 <= k < |r.header| ==> !Contains(Lower(r.header[k]), Laboratory))
      && (forall k :: 0 <= k < |r.rows| ==> HasSkill(r.rows[k]))
      && r == DropByMask(n, CohortMask(n.header, includeStaffing, includeLaboratory))
  {
    CandidateHeader(grid, includeStaffing, includeLaboratory);
    CandidateRows(grid, includeStaffing, includeLaboratory);
    CohortFilterSinglePass(Normalize(FromGrid(grid, HeaderRow)), includeStaffing, includeLaboratory);
  }
}
