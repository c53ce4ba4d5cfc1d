/**
  What the interviewer tab's table is: the competency sheet restricted to
  the columns of the interviewers on the roster, cleaned as on the
  candidate tab, with each interviewer's grade appended to their title.
 */
module InterviewerLaws {
  import opened Wrappers
  import opened Text
  import opened Masks
  import opened Frames
  import opened FrameLaws
  import opened CandidateLaws

  /** `x` is at exactly one index of `xs`. */
  predicate OccursOnce(xs: seq<string>, x: string) {
    x in xs && forall a, b :: 0 <= a < b < |xs| && xs[a] == x ==> xs[b] != x
  }

  /** The first index of `x` is its only index exactly when `x` does not occur after it. */
  lemma IndexOfOnce(xs: seq<string>, x: string)
    requires x in xs
    ensures var e := IndexOf(xs, x);
      && (OccursOnce(xs, x) <==> x !in xs[e + 1..])
      && (OccursOnce(xs, x) ==> forall e' :: 0 <= e' < |xs| && xs[e'] == x ==> e' == e)
  {
    var e := IndexOf(xs, x);
    if x in xs[e + 1..] {
      var j :| 0 <= j < |xs[e + 1..]| && xs[e + 1..][j] == x;
      assert xs[e] == x && xs[e + 1 + j] == x;
    } else {
      assert forall b :: e < b < |xs| ==> xs[b] == xs[e + 1..][b - e - 1];
    }
  }

  /** An index holding `x` with no `x` before it is the first index of `x`. */
  lemma IndexOfFirst(xs: seq<string>, x: string, l: nat)
    requires l < |xs| && xs[l] == x && x !in xs[..l]
    ensures IndexOf(xs, x) == l
  {
  }

  /** Without one "Сотрудник" column the roster cannot be read; with one it can. */
  lemma RosterErrors(grid: seq<seq<string>>)
    requires IsRosterGrid(grid)
    ensures var labels, r := grid[0], RosterFromGrid(grid);
      && (Employee !in labels ==> r == Err(MissingColumn(Employee)))
      && (Employee in labels && !OccursOnce(labels, Employee) ==> r == Err(DuplicateColumn(Employee)))
      && (r.Ok? <==> OccursOnce(labels, Employee))
  {
    if Employee in grid[0] {
      IndexOfOnce(grid[0], Employee);
    }
  }

  /**
    A roster that reads (the error cases are RosterErrors): every row
    below the title row becomes an entry, in order, whose name is the cell
    of the one "Сотрудник" column and whose grade is the cell of the first
    "Уровень" column, or empty when there is none.
   */
  lemma RosterFromGridSpec(grid: seq<seq<string>>)
    requires IsRosterGrid(grid)
    ensures var labels, r := grid[0], RosterFromGrid(grid);
      r.Ok? ==>
        && |r.value.entries| == |grid| - 1
        && r.value.hasLevel == (Level in labels)
        && (forall i, e :: 0 <= i < |grid| - 1 && 0 <= e < |labels| && labels[e] == Employee
              ==> r.value.entries[i].name == grid[i + 1][e])
        && (forall i, l :: 0 <= i < |grid| - 1 && 0 <= l < |labels| && labels[l] == Level && Level !in labels[..l]
              ==> r.value.entries[i].level == grid[i + 1][l])
        && (!r.value.hasLevel ==> forall i :: 0 <= i < |grid| - 1 ==> r.value.entries[i].level == "")
  {
    var labels := grid[0];
    RosterErrors(grid);
    if OccursOnce(labels, Employee) {
      IndexOfOnce(labels, Employee);
      forall l | 0 <= l < |labels| && labels[l] == Level && Level !in labels[..l]
        ensures IndexOf(labels, Level) == l
      {
        IndexOfFirst(labels, Level, l);
      }
    }
  }

  /** The roster filter's rule keeps a title exactly when it contains the first title or some roster name. */
  lemma MentionsRoster(t: string, first: string, roster: Roster)
    ensures Keeps(MentionsAny([first] + Names(roster)), t) <==>
      (Contains(t, first) || exists k :: 0 <= k < |roster.entries| && Contains(t, roster.entries[k].name))
  {
    var names := [first] + Names(roster);
    if Keeps(MentionsAny(names), t) {
      var k :| 0 <= k < |names| && Contains(t, names[k]);
      if k > 0 {
        assert names[k] == roster.entries[k - 1].name;
      }
    }
    if Contains(t, first) {
      assert names[0] == first;
    } else if exists k :: 0 <= k < |roster.entries| && Contains(t, roster.entries[k].name) {
      var k :| 0 <= k < |roster.entries| && Contains(t, roster.entries[k].name);
      assert names[k + 1] == roster.entries[k].name;
    }
  }

  /**
    The roster filter keeps, in order and with their cells, exactly the
    columns whose title contains, case-sensitively, the sheet's raw first
    title or the name of some roster entry.
   */
  lemma RosterFilterSpec(f: Frame, roster: Roster)
    requires Rectangular(f) && |f.header| > 0
    ensures var r, P := RosterFilter(f, roster), Positions(ColumnMask(f.header, MentionsAny([f.header[0]] + Names(roster))));
      && |r.header| == |P| && |r.rows| == |f.rows|
      && (forall j :: 0 <= j < |f.header| ==>
            (j in P <==> Contains(f.header[j], f.header[0])
                         || exists k :: 0 <= k < |roster.entries| && Contains(f.header[j], roster.entries[k].name)))
      && (forall k :: 0 <= k < |P| ==> P[k] < |f.header| && r.header[k] == f.header[P[k]])
      && (forall i, k :: 0 <= i < |f.rows| && 0 <= k < |P| ==> r.rows[i][k] == f.rows[i][P[k]])
  {
    DropColumnsSpec(f, MentionsAny([f.header[0]] + Names(roster)));
    forall j | 0 <= j < |f.header|
      ensures Keeps(MentionsAny([f.header[0]] + Names(roster)), f.header[j]) <==>
        (Contains(f.header[j], f.header[0])
         || exists k :: 0 <= k < |roster.entries| && Contains(f.header[j], roster.entries[k].name))
    {
      MentionsRoster(f.header[j], f.header[0], roster);
    }
  }

  /** A roster entry with an empty name keeps every column. */
  lemma EmptyNameKeepsAll(f: Frame, roster: Roster, k: nat)
    requires Rectangular(f) && |f.header| > 0
    requires k < |roster.entries| && roster.entries[k].name == ""
    ensures RosterFilter(f, roster) == f
  {
    var names := [f.header[0]] + Names(roster);
    forall j | 0 <= j < |f.header|
      ensures Keeps(MentionsAny(names), f.header[j])
    {
      ContainsSelfAndEmpty(f.header[j]);
      assert names[k + 1] == "";
    }
    DropColumnsNoOp(f, MentionsAny(names));
  }

  /** An empty first title keeps every column, whatever the roster. */
  lemma EmptyFirstTitleKeepsAll(f: Frame, roster: Roster)
    requires Rectangular(f) && |f.header| > 0 && f.header[0] == ""
    ensures RosterFilter(f, roster) == f
  {
    var names := [f.header[0]] + Names(roster);
    forall j | 0 <= j < |f.header|
      ensures Keeps(MentionsAny(names), f.header[j])
    {
      ContainsSelfAndEmpty(f.header[j]);
      assert names[0] == "";
    }
    DropColumnsNoOp(f, MentionsAny(names));
  }

  /** The first entry of a title's match selection is its first matching entry in roster order. */
  lemma FirstMatchSelected(entries: seq<RosterEntry>, title: string)
    ensures var selected := Pick(MatchMask(entries, title), entries);
      && (|selected| > 0 <==> exists e :: 0 <= e < |entries| && Matches(entries[e], title))
      && (forall e :: 0 <= e < |entries| && Matches(entries[e], title)
                      && (forall e' :: 0 <= e' < e ==> !Matches(entries[e'], title))
            ==> |selected| > 0 && selected[0] == entries[e])
      && (|selected| > 0 ==> exists e :: (0 <= e < |entries| && Matches(entries[e], title)
            && (forall e' :: 0 <= e' < e ==> !Matches(entries[e'], title))
            && selected[0] == entries[e]))
  {
    var m := MatchMask(entries, title);
    assert |m| == |entries|;
    assert forall e :: 0 <= e < |entries| ==> m[e] == Matches(entries[e], title);
    FirstPicked(m, entries);
    if |Pick(m, entries)| > 0 {
      var p := Positions(m)[0];
      forall e | 0 <= e < |entries| && Matches(entries[e], title) && (forall e' :: 0 <= e' < e ==> !Matches(entries[e'], title))
        ensures e == p
      {
        assert m[e] && m[p];
      }
      assert Matches(entries[p], title);
    }
  }

  /**
    One title's annotation: "Навык" stays as it is; a title that no roster
    entry matches fails for want of a match; a matched title fails for
    want of an "Уровень" column when the roster has none, and otherwise
    gets " (<grade>)" with the grade of its first matching entry in roster
    order. It succeeds exactly in the first and the last case.
   */
  lemma AnnotateLabelSpec(title: string, roster: Roster)
    ensures var r, entries := AnnotateLabel(title, roster), roster.entries;
      && (title == Skill ==> r == Ok(Skill))
      && ((title != Skill && forall e :: 0 <= e < |entries| ==> !Matches(entries[e], title))
            ==> r == Err(NoRosterMatch(title)))
      && ((title != Skill && !roster.hasLevel && exists e :: 0 <= e < |entries| && Matches(entries[e], title))
            ==> r == Err(MissingColumn(Level)))
      && (title != Skill && roster.hasLevel ==>
            forall e :: 0 <= e < |entries| && Matches(entries[e], title)
                        && (forall e' :: 0 <= e' < e ==> !Matches(entries[e'], title))
              ==> r == Ok(title + " (" + entries[e].level + ")"))
      && (r.Ok? <==> title == Skill || (roster.hasLevel && exists e :: 0 <= e < |entries| && Matches(entries[e], title)))
  {
    FirstMatchSelected(roster.entries, title);
  }

  /**
    The level annotation succeeds exactly when every title does; the
    annotated titles are the titles' annotations in order, and a failure
    is the failure of the first title that fails.
   */
  lemma AnnotateSpec(header: seq<string>, roster: Roster)
    ensures var r := Annotate(header, roster);
      && (r.Ok? <==> forall k :: 0 <= k < |header| ==> AnnotateLabel(header[k], roster).Ok?)
      && (r.Ok? ==> |r.value| == |header| && forall k :: 0 <= k < |header| ==> r.value[k] == AnnotateLabel(header[k], roster).value)
      && (r.Err? ==> exists k :: (0 <= k < |header|
            && (forall l :: 0 <= l < k ==> AnnotateLabel(header[l], roster).Ok?)
            && AnnotateLabel(header[k], roster) == Err(r.error)))
  {
    var ls := Labels(header, roster);
    CollectSpec(ls);
    var r := Collect(ls);
    assert forall k :: 0 <= k < |header| ==> ls[k] == AnnotateLabel(header[k], roster);
    if r.Err? {
      var k :| 0 <= k < |ls| && (forall l :: 0 <= l < k ==> ls[l].Ok?) && ls[k] == Err(r.error);
      assert AnnotateLabel(header[k], roster) == Err(r.error);
    }
  }

  /** A name with no space at either end that occurs in a title matches it ignoring case and surrounding spaces. */
  lemma CleanNameMatches(entry: RosterEntry, title: string)
    requires Contains(title, entry.name)
    requires |entry.name| > 0 ==> !IsSpace(entry.name[0]) && !IsSpace(entry.name[|entry.name| - 1])
    ensures Matches(entry, title)
  {
    ContainsStrip(title, entry.name);
    ContainsLower(Strip(title), entry.name);
  }

  /** With an "Уровень" column, a title that some roster entry matches is annotated. */
  lemma MatchedTitleAnnotates(title: string, roster: Roster, e: nat)
    ensures roster.hasLevel && e < |roster.entries| && Matches(roster.entries[e], title) ==> AnnotateLabel(title, roster).Ok?
  {
    AnnotateLabelSpec(title, roster);
  }


  /**
    With an "Уровень" column, a header whose every title is "Навык" or
    contains the name, with no space at either end, of some roster entry
    is annotated without error.
   */
  lemma AnnotateSucceeds(header: seq<string>, roster: Roster)
    requires roster.hasLevel
    requires forall k :: 0 <= k < |header| ==> header[k] == Skill || exists e :: (0 <= e < |roster.entries|
      && Contains(header[k], roster.entries[e].name)
      && (|roster.entries[e].name| > 0 ==> !IsSpace(roster.entries[e].name[0]) && !IsSpace(roster.entries[e].name[|roster.entries[e].name| - 1])))
    ensures Annotate(header, roster).Ok?
  {
    forall k | 0 <= k < |header|
      ensures AnnotateLabel(header[k], roster).Ok?
    {
      if header[k] == Skill {
        AnnotateLabelSpec(header[k], roster);
      } else {
        var e :| 0 <= e < |roster.entries|
          && Contains(header[k], roster.entries[e].name)
          && (|roster.entries[e].name| > 0 ==> !IsSpace(roster.entries[e].name[0]) && !IsSpace(roster.entries[e].name[|roster.entries[e].name| - 1]));
        CleanNameMatches(roster.entries[e], header[k]);
        MatchedTitleAnnotates(header[k], roster, e);
      }
    }
    AnnotateSpec(header, roster);
  }

  /** An annotated title: the grade of the title's first matching roster entry, in parentheses. */
  lemma AnnotatedTitle(title: string, roster: Roster)
    requires title != Skill && AnnotateLabel(title, roster).Ok?
    ensures exists e :: (0 <= e < |roster.entries|
      && Matches(roster.entries[e], title)
      && (forall e' :: 0 <= e' < e ==> !Matches(roster.entries[e'], title))
      && AnnotateLabel(title, roster).value == title + " (" + roster.entries[e].level + ")")
  {
    FirstMatchSelected(roster.entries, title);
  }

  /**
    The interviewer tab's table. A roster that cannot be read fails the
    whole step with its error. Otherwise the sheet is filtered by the
    roster and cleaned; the result has the cleaned rows, and its titles
    are "Навык" for "Навык" and, for every other title, the title followed
    by the grade of the first roster entry, in roster order, whose lowered
    name occurs in the stripped, lowered title; the step fails exactly
    when some title cannot be annotated, with the first such title's error.
   */
  lemma InterviewerFrameSpec(rosterGrid: seq<seq<string>>, grid: seq<seq<string>>)
    requires IsRosterGrid(rosterGrid) && IsCompetencyGrid(grid)
    ensures var rr, r := RosterFromGrid(rosterGrid), InterviewerFrame(rosterGrid, grid);
      && (rr.Err? ==> r == Err(rr.error))
      && (rr.Ok? ==>
            var roster := rr.value;
            var n := Normalize(RosterFilter(FromGrid(grid, HeaderRow), roster));
            && (r.Ok? <==> forall k :: 0 <= k < |n.header| ==> AnnotateLabel(n.header[k], roster).Ok?)
            && (r.Ok? ==>
                  && r.value.rows == n.rows
                  && |r.value.header| == |n.header|
                  && (forall k :: 0 <= k < |n.header| && n.header[k] == Skill ==> r.value.header[k] == Skill)
                  && (forall k :: 0 <= k < |n.header| && n.header[k] != Skill ==>
                        exists e :: (0 <= e < |roster.entries|
                          && Matches(roster.entries[e], n.header[k])
                          && (forall e' :: 0 <= e' < e ==> !Matches(roster.entries[e'], n.header[k]))
                          && r.value.header[k] == n.header[k] + " (" + roster.entries[e].level + ")")))
            && (r.Err? ==> exists k :: (0 <= k < |n.header|
                  && (forall l :: 0 <= l < k ==> AnnotateLabel(n.header[l], roster).Ok?)
                  && AnnotateLabel(n.header[k], roster) == Err(r.error))))
  {
    var rr := RosterFromGrid(rosterGrid);
    if rr.Ok? {
      var roster := rr.value;
      var n := Normalize(RosterFilter(FromGrid(grid, HeaderRow), roster));
      AnnotateSpec(n.header, roster);
      var r := InterviewerFrame(rosterGrid, grid);
      if r.Ok? {
        forall k | 0 <= k < |n.header| && n.header[k] != Skill
          ensures exists e :: (0 <= e < |roster.entries|
            && Matches(roster.entries[e], n.header[k])
            && (forall e' :: 0 <= e' < e ==> !Matches(roster.entries[e'], n.header[k]))
            && r.value.header[k] == n.header[k] + " (" + roster.entries[e].level + ")")
        {
          AnnotatedTitle(n.header[k], roster);
        }
        forall k | 0 <= k < |n.header| && n.header[k] == Skill
          ensures r.value.header[k] == Skill
        {
          AnnotateLabelSpec(n.header[k], roster);
        }
      }
    }
  }

  /**
    The titles of the cleaned interviewer sheet: "Навык" first, then every
    title after the first that the roster filter kept and that does not
    contain "Unnamed", in the sheet's order; each of them is a title of the
    sheet that contains the raw first title or a roster name.
   */
  lemma InterviewerColumns(grid: seq<seq<string>>, roster: Roster)
    requires IsCompetencyGrid(grid)
    ensures var f := FromGrid(grid, HeaderRow);
            var g := RosterFilter(f, roster);
            var n := Normalize(g);
      && n.header == [Skill] + Pick(ColumnMask(g.header[1..], Named), g.header[1..])
      && |n.header| > 0 && n.header[0] == Skill
      && forall k :: 1 <= k < |n.header| ==>
           && n.header[k] in f.header
           && !Contains(n.header[k], Unnamed)
           && (Contains(n.header[k], f.header[0])
               || exists e :: 0 <= e < |roster.entries| && Contains(n.header[k], roster.entries[e].name))
  {
    var f := FromGrid(grid, HeaderRow);
    var g := RosterFilter(f, roster);
    var n := Normalize(g);
    NormalizeHeader(g);
    NormalizeSpec(g);
    RosterFilterSpec(f, roster);
    var P := Positions(ColumnMask(f.header, MentionsAny([f.header[0]] + Names(roster))));
    PositionsSpec(ColumnMask(f.header, MentionsAny([f.header[0]] + Names(roster))));
    var T := ColumnMask(g.header[1..], Named);
    PickAt(T, g.header[1..]);
    forall k | 1 <= k < |n.header|
      ensures && n.header[k] in f.header
              && (Contains(n.header[k], f.header[0])
                  || exists e :: 0 <= e < |roster.entries| && Contains(n.header[k], roster.entries[e].name))
    {
      var q := Positions(T)[k - 1];
      assert n.header[k] == g.header[1..][q] == g.header[q + 1];
      assert P[q + 1] in P;
    }
  }
}
