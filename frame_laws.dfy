/**
  Laws of the two kinds of drop page.py performs: dropping columns by a
  rule on their titles and dropping rows with a blank skill cell.
 */
module FrameLaws {
  import opened Text
  import opened Masks
  import opened Frames

  /**
    DropByMask keeps the columns at the set positions of the mask, in
    their order, with every row's cells of those columns unchanged.
   */
  lemma DropByMaskSpec(f: Frame, m: seq<bool>)
    requires Rectangular(f) && |m| == |f.header|
    ensures var r, P := DropByMask(f, m), Positions(m);
      && |r.header| == |P|
      && (forall k :: 0 <= k < |P| ==> P[k] < |f.header| && r.header[k] == f.header[P[k]])
      && (forall i, k :: 0 <= i < |f.rows| && 0 <= k < |P| ==> r.rows[i][k] == f.rows[i][P[k]])
      && (forall k, l :: 0 <= k < l < |P| ==> P[k] < P[l])
      && (forall j :: 0 <= j < |f.header| ==> (m[j] <==> j in P))
  {
    var r, P := DropByMask(f, m), Positions(m);
    PickAt(m, f.header);
    PositionsSpec(m);
    forall i | 0 <= i < |f.rows|
      ensures forall k :: 0 <= k < |P| ==> r.rows[i][k] == f.rows[i][P[k]]
    {
      PickAt(m, f.rows[i]);
    }
  }

  /**
    A column survives DropColumns exactly when the rule keeps its title;
    the survivors keep their order and their cells, and every surviving
    title is one the rule keeps.
   */
  lemma DropColumnsSpec(f: Frame, rule: ColumnRule)
    requires Rectangular(f)
    ensures var r, P := DropColumns(f, rule), Positions(ColumnMask(f.header, rule));
      && |r.header| == |P|
      && (forall k :: 0 <= k < |P| ==> P[k] < |f.header| && r.header[k] == f.header[P[k]])
      && (forall i, k :: 0 <= i < |f.rows| && 0 <= k < |P| ==> r.rows[i][k] == f.rows[i][P[k]])
      && (forall k, l :: 0 <= k < l < |P| ==> P[k] < P[l])
      && (forall j :: 0 <= j < |f.header| ==> (Keeps(rule, f.header[j]) <==> j in P))
      && (forall k :: 0 <= k < |r.header| ==> Keeps(rule, r.header[k]))
  {
    DropByMaskSpec(f, ColumnMask(f.header, rule));
  }

  /** A mask with every flag set changes nothing. */
  lemma DropByMaskAllSet(f: Frame, m: seq<bool>)
    requires Rectangular(f) && |m| == |f.header| && AllSet(m)
    ensures DropByMask(f, m) == f
  {
    PickAllSet(m, f.header);
    forall i | 0 <= i < |f.rows|
      ensures ProjectRows(f.rows, m)[i] == f.rows[i]
    {
      PickAllSet(m, f.rows[i]);
    }
  }

  /** Dropping by a rule every title already satisfies changes nothing. */
  lemma DropColumnsNoOp(f: Frame, rule: ColumnRule)
    requires Rectangular(f)
    requires forall j :: 0 <= j < |f.header| ==> Keeps(rule, f.header[j])
    ensures DropColumns(f, rule) == f
  {
    DropByMaskAllSet(f, ColumnMask(f.header, rule));
  }

  /** Applying the same column filter a second time changes nothing. */
  lemma DropColumnsIdempotent(f: Frame, rule: ColumnRule)
    requires Rectangular(f)
    ensures DropColumns(DropColumns(f, rule), rule) == DropColumns(f, rule)
  {
    DropColumnsSpec(f, rule);
    DropColumnsNoOp(DropColumns(f, rule), rule);
  }

  /** The rule's flags over the surviving titles are the surviving flags. */
  lemma ColumnMaskPick(m: seq<bool>, header: seq<string>, rule: ColumnRule)
    requires |m| == |header|
    ensures ColumnMask(Pick(m, header), rule) == Pick(m, ColumnMask(header, rule))
  {
    PickAt(m, header);
    PickAt(m, ColumnMask(header, rule));
  }

  /** Two drops by mask in a row are one drop by both masks. */
  lemma DropTwice(f: Frame, m1: seq<bool>, m2: seq<bool>)
    requires Rectangular(f) && |m1| == |m2| == |f.header|
    ensures DropByMask(DropByMask(f, m1), Pick(m1, m2)) == DropByMask(f, And(m1, m2))
  {
    PickPick(m1, m2, f.header);
    forall i | 0 <= i < |f.rows|
      ensures ProjectRows(ProjectRows(f.rows, m1), Pick(m1, m2))[i] == ProjectRows(f.rows, And(m1, m2))[i]
    {
      PickPick(m1, m2, f.rows[i]);
    }
  }

  /** Dropping by a rule after a drop by mask is one drop by the mask and the rule's flags. */
  lemma DropAfterMask(f: Frame, m: seq<bool>, rule: ColumnRule)
    requires Rectangular(f) && |m| == |f.header|
    ensures DropColumns(DropByMask(f, m), rule) == DropByMask(f, And(m, ColumnMask(f.header, rule)))
  {
    ColumnMaskPick(m, f.header, rule);
    DropTwice(f, m, ColumnMask(f.header, rule));
  }

  /** Column filters commute: the order in which two rules are applied does not matter. */
  lemma DropColumnsCommute(f: Frame, r1: ColumnRule, r2: ColumnRule)
    requires Rectangular(f)
    ensures DropColumns(DropColumns(f, r1), r2) == DropColumns(DropColumns(f, r2), r1)
  {
    var m1, m2 := ColumnMask(f.header, r1), ColumnMask(f.header, r2);
    DropAfterMask(f, m1, r2);
    DropAfterMask(f, m2, r1);
    assert And(m1, m2) == And(m2, m1);
  }

  /** A column whose title the rule keeps, if it is the first, stays first with its cells. */
  lemma FirstColumnSurvives(f: Frame, m: seq<bool>)
    requires Rectangular(f) && |m| == |f.header| > 0 && m[0]
    ensures var r := DropByMask(f, m);
      && |r.header| > 0 && r.header[0] == f.header[0]
      && forall i :: 0 <= i < |r.rows| ==> |r.rows[i]| > 0 && r.rows[i][0] == f.rows[i][0]
  {
    PickCons(m, f.header);
    forall i | 0 <= i < |f.rows|
      ensures Pick(m, f.rows[i])[0] == f.rows[i][0]
    {
      PickCons(m, f.rows[i]);
    }
  }

  /**
    The rows that survive are exactly those with a non-blank skill cell,
    in their original order and unchanged; the header is untouched.
   */
  lemma DropBlankSkillRowsSpec(f: Frame)
    requires Rectangular(f)
    ensures var r, P := DropBlankSkillRows(f), Positions(SkillMask(f.rows));
      && r.header == f.header
      && |r.rows| == |P|
      && (forall k :: 0 <= k < |P| ==> P[k] < |f.rows| && r.rows[k] == f.rows[P[k]])
      && (forall k, l :: 0 <= k < l < |P| ==> P[k] < P[l])
      && (forall i :: 0 <= i < |f.rows| ==> (HasSkill(f.rows[i]) <==> i in P))
      && (forall k :: 0 <= k < |r.rows| ==> HasSkill(r.rows[k]))
  {
    PickAt(SkillMask(f.rows), f.rows);
    PositionsSpec(SkillMask(f.rows));
  }

  /** Dropping blank skill rows a second time changes nothing. */
  lemma DropBlankSkillRowsIdempotent(f: Frame)
    requires Rectangular(f)
    ensures DropBlankSkillRows(DropBlankSkillRows(f)) == DropBlankSkillRows(f)
  {
    var r := DropBlankSkillRows(f);
    DropBlankSkillRowsSpec(f);
    PickAllSet(SkillMask(r.rows), r.rows);
  }

  /** Whether a row is kept depends on its first cell only, so keeping the first column keeps the row mask. */
  lemma SkillMaskProject(rows: seq<seq<string>>, m: seq<bool>)
    requires forall row :: row in rows ==> |row| == |m|
    requires |m| > 0 && m[0]
    ensures SkillMask(ProjectRows(rows, m)) == SkillMask(rows)
  {
    forall i | 0 <= i < |rows|
      ensures HasSkill(Pick(m, rows[i])) == HasSkill(rows[i])
    {
      PickCons(m, rows[i]);
    }
  }

  /** Projecting the kept rows is keeping the projected rows. */
  lemma ProjectPickRows(rows: seq<seq<string>>, m: seq<bool>, s: seq<bool>)
    requires forall row :: row in rows ==> |row| == |m|
    requires |s| == |rows|
    ensures ProjectRows(Pick(s, rows), m) == Pick(s, ProjectRows(rows, m))
  {
    PickAt(s, rows);
    PickAt(s, ProjectRows(rows, m));
  }

  /**
    Dropping columns and dropping blank skill rows commute when the skill
    column is kept.
   */
  lemma ColumnsCommuteWithRows(f: Frame, m: seq<bool>)
    requires Rectangular(f) && |m| == |f.header| > 0 && m[0]
    ensures DropByMask(DropBlankSkillRows(f), m) == DropBlankSkillRows(DropByMask(f, m))
  {
    SkillMaskProject(f.rows, m);
    ProjectPickRows(f.rows, m, SkillMask(f.rows));
  }
}
