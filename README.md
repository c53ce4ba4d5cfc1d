# Competency-table cleaning, modelled in Dafny

The Streamlit page `page.py` ranks candidates and interviewers against a
job description. Before it asks a language model for the ranking, it
turns a raw competency sheet (the string grid `get_all_values()` returns)
into a clean table:

- **Candidate tab** (page.py:137-161): row 5 holds the titles and rows 6
  on the body; the first title becomes `Навык`; columns whose title
  contains `Unnamed` go; rows whose skill cell is blank after `strip()` go;
  consultant columns (`cnslt`, any case) always go, staffing (`staff`) and
  laboratory (`laba`) columns go unless their checkbox is ticked.
- **Interviewer tab** (page.py:234-261): a roster sheet (titles in row 0)
  lists interviewers under `Сотрудник` with their grade under `Уровень`.
  Only the competency columns whose title contains, case-sensitively, the
  sheet's raw first title or one roster name are kept; the same cleaning
  follows; every title but `Навык` then gets the grade of the first roster
  entry whose lowered name occurs in the stripped, lowered title, in
  parentheses. A title with no such entry makes `.iloc[0]` raise.
- **Results** (page.py:176-183): one display row per rated worker, in the
  rating's order, with the rating as `<n>%` and the skill lists joined with
  `, `.

Modules:

- `Wrappers` — `Option` and `Result`.
- `Text` — the Python string operations the pipeline relies on: `str.strip`
  with Python's whitespace set, `str.lower` on ASCII and Cyrillic,
  substring `in`, `str(int)` and `', '.join` with their inverses.
- `Masks` — order-keeping selection of a sequence by a boolean mask, the
  operation behind every `drop(..., inplace=True)`.
- `Frames` — the table as a value `Frame(header, rows)` and every step of
  both tabs as a function on it; the roster and the level annotation, with
  their failures as `PipelineError`.
- `FrameLaws`, `CandidateLaws`, `InterviewerLaws` — what each step
  guarantees, proved for all inputs.
- `Tables` — the mutable DataFrame as a class `Table`, whose methods make
  the in-place steps and are specified by the `Frames` functions, and the
  two pipelines as methods that build and mutate one table.
- `Results` — the result rows, built by the `append` loop, and reading a
  row back.

Failures of the code are modelled as `Err` values: a roster without a
`Сотрудник` column (`KeyError` in `dropna`, page.py:235), a roster with two
(`interviewers_df['Сотрудник']` is then a DataFrame, which has no
`tolist`, page.py:245), a kept title that matches no roster entry
(`.iloc[0]` on an empty selection, page.py:259) and a roster without
`Уровень` when a grade is needed (`KeyError`, page.py:259). Annotation
fails on the first failing title, left to right, as the comprehension
does; the table is then left as it was, since `columns` is assigned only
after the comprehension finishes.

Behaviour of `page.py` a reader may not expect, modelled as written:

- A competency grid with fewer than 6 rows, or a roster grid with no
  title row, makes the indexing at page.py:137 and page.py:234 raise; the
  model states the grid shape as a precondition.
- The roster filter at page.py:246-247 is case-sensitive and also keeps
  every column whose title contains the sheet's raw first title, while the
  annotation at page.py:259 ignores case and surrounding whitespace.
- A title that matches several roster rows takes the first row's grade,
  in roster order, without any warning.
- The interviewer path (page.py:242-261) applies no cohort filter: columns
  whose title contains `staff`, `laba` or `cnslt` are kept there.
- The interviewer tab's consultant flag (`include_consultant`,
  set to `False` at page.py:203) is never read.

## Model

| member | source | states |
|---|---|---|
| Text.TrimStart | page.py:142 | the result is a suffix of the input, everything cut is Python whitespace, and it does not start with whitespace |
| Text.TrimEnd | page.py:142 | the result is a prefix of the input, everything cut is Python whitespace, and it does not end with whitespace |
| Text.BlankIffAllSpace | page.py:142 | a cell's stripped length is 0 exactly when every character of it is whitespace |
| Text.NonSpaceNotBlank | page.py:142 | a cell with a character that is not whitespace keeps a non-empty stripped text |
| Text.StripIsSlice | page.py:142 | `strip()` removes a whitespace prefix and a whitespace suffix and keeps the middle unchanged |
| Text.ContainsIffOccurs | page.py:139 | the substring test holds exactly when the text occurs at some position |
| Text.ContainsLower | page.py:259 | a substring is still a substring after lowering both strings |
| Text.ContainsStrip | page.py:259 | a substring with no whitespace at either end is still a substring of the stripped text |
| Text.OccurrenceInside | page.py:259 | an occurrence that neither starts nor ends with whitespace lies within the part `strip()` keeps |
| Text.OccurrenceInSlice | page.py:259 | an occurrence lying within a slice is a substring of the slice |
| Text.OccursInSlice | page.py:259 | an occurrence within a slice is an occurrence in the slice, shifted by its start |
| Text.IntToStringRoundTrip | page.py:180 | the decimal numeral of every integer is a numeral whose value is that integer |
| Text.SplitJoin | page.py:181-182 | splitting a `, `-joined non-empty list whose items contain no comma gives the list back |
| Masks.Pick | page.py:140 | a drop keeps as many items as the mask has set flags, and only items of the input |
| Masks.PickAt | page.py:140 | the k-th kept item is the input's item at the k-th set index: drops keep items unchanged and in order |
| Masks.PositionsSpec | page.py:140 | the kept indices are strictly increasing and are exactly the indices whose flag is set |
| Masks.PickPick | page.py:148-155 | two successive drops are one drop by the conjunction of their masks |
| Masks.PickAppend | page.py:140 | dropping from two pieces is dropping from each piece and joining the results |
| Masks.FirstPicked | page.py:259 | a selection is non-empty exactly when some flag is set, and then its first item is the item at the first set flag |
| Frames.FromGrid | page.py:137 | the frame built from a rectangular grid has one cell per title in every row |
| Frames.ProjectRows | page.py:140 | dropping columns keeps the number of rows and gives every row one cell per kept column |
| Frames.DropColumns | page.py:139-140 | a column drop leaves a rectangular frame with the same number of rows |
| Frames.DropByMask | page.py:140 | a drop by mask leaves a rectangular frame with the same number of rows |
| Frames.DropBlankSkillRows | page.py:142-143 | a row drop leaves the titles unchanged |
| Frames.CohortFilter | page.py:147-161 | the cohort drops leave a rectangular frame with the same number of rows |
| Frames.Normalize | page.py:137-143 | the shared cleaning leaves a rectangular frame |
| Frames.RosterFilter | page.py:245-247 | the roster filter always keeps the first column, since its title contains itself |
| Frames.IndexOf | page.py:245 | the index found holds the label and no earlier index does |
| FrameLaws.DropByMaskSpec | page.py:140 | a drop by mask keeps exactly the columns whose flag is set, in order, with their cells |
| FrameLaws.DropColumnsSpec | page.py:139-140 | a column survives exactly when the rule keeps its title; survivors keep order and cells; the result's columns are a subsequence of the input's |
| FrameLaws.DropByMaskAllSet | page.py:140 | dropping nothing changes nothing |
| FrameLaws.DropColumnsNoOp | page.py:139-140 | dropping by a rule every title satisfies changes nothing |
| FrameLaws.DropColumnsIdempotent | page.py:148-149 | applying the same column filter twice is applying it once |
| FrameLaws.ColumnMaskPick | page.py:154 | a rule's flags over the surviving titles are the surviving flags |
| FrameLaws.DropTwice | page.py:149-155 | two drops by mask are one drop by both masks |
| FrameLaws.DropAfterMask | page.py:154-155 | a rule applied after a drop is one drop by the mask and the rule together |
| FrameLaws.DropColumnsCommute | page.py:148-161 | two column filters give the same table in either order |
| FrameLaws.FirstColumnSurvives | page.py:140 | a drop that keeps the first column keeps it first with its cells |
| FrameLaws.DropBlankSkillRowsSpec | page.py:142-143 | the surviving rows are exactly those whose skill cell is not blank after stripping, in order and unchanged; titles untouched |
| FrameLaws.DropBlankSkillRowsIdempotent | page.py:142-143 | dropping blank skill rows twice is dropping them once |
| FrameLaws.SkillMaskProject | page.py:142 | whether a row is blank depends only on its skill cell, so column drops that keep that cell do not change it |
| FrameLaws.ProjectPickRows | page.py:140-143 | projecting the kept rows is keeping the projected rows |
| FrameLaws.ColumnsCommuteWithRows | page.py:139-143 | dropping columns that keep the skill column and dropping blank skill rows commute |
| CandidateLaws.AbsentFirstChar | page.py:139 | a text without a word's first character does not contain the word |
| CandidateLaws.MarkersAreLowerCase | page.py:147-158 | `cnslt`, `staff` and `laba` are their own lower case |
| CandidateLaws.SkillSurvivesFilters | page.py:138-160 | `Навык` contains neither `Unnamed` nor, in any case, `cnslt`, `staff` or `laba`, so the skill column survives every filter |
| CandidateLaws.CohortMaskSteps | page.py:147-161 | the combined cohort mask is the consultant mask and-ed with the staffing and laboratory masks when those are excluded |
| CandidateLaws.CohortFilterSinglePass | page.py:147-161 | the three successive cohort drops are one drop by the combined rule |
| CandidateLaws.CohortSurvivorsKept | page.py:147-161 | every surviving title is outside every excluded cohort |
| CandidateLaws.CohortFilterSpec | page.py:147-161 | no surviving title contains `cnslt` ignoring case, nor `staff` unless staffing is included, nor `laba` unless the laboratory is; a column survives exactly when outside every excluded cohort; rows and kept cells untouched |
| CandidateLaws.CohortFilterIdempotent | page.py:147-161 | running the cohort filter again with the same flags changes nothing |
| CandidateLaws.CohortKeepsSkillColumn | page.py:147-161 | the cohort filter keeps `Навык` first with its cells |
| CandidateLaws.CohortNoUnnamed | page.py:147-161 | the cohort drops bring back no `Unnamed` title |
| CandidateLaws.CohortHeader | page.py:147-161 | on titles that start with `Навык` and have no `Unnamed`, the cohort filter keeps both facts and leaves no title of an excluded cohort |
| CandidateLaws.RenamedFlags | page.py:138-140 | after the rename the first title is kept by the `Unnamed` filter and the others are flagged as before |
| CandidateLaws.RenamedNamedMask | page.py:138-140 | after the rename the first column is kept and the others are flagged as in the raw titles |
| CandidateLaws.NormalizeSpec | page.py:137-143 | the cleaned titles are `Навык` then the raw titles without `Unnamed`, in order; the cleaned rows are the non-blank skill rows restricted to the kept columns |
| CandidateLaws.NormalizeHeader | page.py:138-140 | the first cleaned title is `Навык` and no cleaned title contains `Unnamed` |
| CandidateLaws.NormalizeRows | page.py:142-143 | the cleaned rows are exactly the body rows with a non-blank skill cell, in order, restricted to the kept columns, cells unchanged |
| CandidateLaws.NormalizeIsClean | page.py:137-143 | a cleaned table starts with `Навык`, has no `Unnamed` title and no blank skill cell |
| CandidateLaws.CleanIsFixed | page.py:137-143 | cleaning a table that is already clean changes nothing |
| CandidateLaws.NormalizeIdempotent | page.py:137-144 | cleaning a cleaned table changes nothing |
| CandidateLaws.NormalizedSheet | page.py:137-143 | on a competency grid: `Навык` first, then the row-5 titles without `Unnamed` in order; the rows are exactly the rows from 6 on whose skill cell is not blank, in order, cells unchanged |
| CandidateLaws.CandidateHeader | page.py:137-161 | the candidate titles start with `Навык` and none contains `Unnamed`, `cnslt` in any case, or an excluded `staff` / `laba` |
| CandidateLaws.CandidateRows | page.py:142-143 | every candidate row has a non-blank skill cell |
| CandidateLaws.CandidateFrameSpec | page.py:137-161 | the candidate table has `Навык` first, no `Unnamed` title, no excluded cohort in any title, a non-blank skill cell in every row, and exactly the cleaned sheet's rows and non-excluded columns with their cells |
| InterviewerLaws.IndexOfOnce | page.py:245 | the first index of a label is its only one exactly when the label does not occur after it |
| InterviewerLaws.IndexOfFirst | page.py:245 | a label found at an index with none before it is found at that index |
| InterviewerLaws.RosterErrors | page.py:234-245 | the roster reads without error exactly when it has one `Сотрудник` column; none is a missing column, two are a duplicate |
| InterviewerLaws.RosterFromGridSpec | page.py:234-245 | a roster that reads has one entry per row below the titles, in order, with the `Сотрудник` cell as name and the first `Уровень` column's cell as grade (empty when there is no such column) |
| InterviewerLaws.RosterFilterSpec | page.py:245-247 | a column survives exactly when its title contains, case-sensitively, the raw first title or a roster name; survivors keep order and cells |
| InterviewerLaws.MentionsRoster | page.py:246-247 | the roster filter keeps a title exactly when it contains the raw first title or some roster name |
| InterviewerLaws.EmptyNameKeepsAll | page.py:245-247 | a roster entry with an empty name keeps every column |
| InterviewerLaws.EmptyFirstTitleKeepsAll | page.py:245-247 | an empty first title keeps every column |
| InterviewerLaws.FirstMatchSelected | page.py:259 | the selection `interviewers_df[[intr.lower() in col.strip().lower() for intr in ...]]` by one boolean per roster row is non-empty exactly when some entry matches, and `.iloc[0]` is the first matching entry in roster order |
| InterviewerLaws.AnnotateLabelSpec | page.py:258-259 | `Навык` stays as it is; a title no entry matches fails for want of a match; a matched title fails without an `Уровень` column and otherwise gets ` (<grade>)` of its first matching entry; it succeeds exactly in the first and last case |
| InterviewerLaws.AnnotatedTitle | page.py:259 | an annotated title other than `Навык` is the title followed by the grade of its first matching entry in parentheses |
| InterviewerLaws.MatchedTitleAnnotates | page.py:259 | with an `Уровень` column, a title some entry matches is annotated |
| InterviewerLaws.AnnotateSpec | page.py:258-261 | the annotation succeeds exactly when every title does; the result has the same number of titles, each the annotation of the title in its place; a failure is the first failing title's |
| Wrappers.CollectSpec | page.py:258 | a comprehension whose element may fail succeeds exactly when every element does, with the values in order, and otherwise fails with the first failure |
| InterviewerLaws.CleanNameMatches | page.py:246-259 | a roster name with no whitespace at its ends that the roster filter finds in a title also matches the title in the annotation |
| InterviewerLaws.AnnotateSucceeds | page.py:258-261 | with an `Уровень` column, a header of `Навык` and titles containing such names is annotated without error |
| InterviewerLaws.InterviewerFrameSpec | page.py:234-261 | an unreadable roster fails the whole step; otherwise the result keeps the cleaned rows and gives every title but `Навык` the grade of its first matching roster entry, and fails exactly when some title has none |
| InterviewerLaws.InterviewerColumns | page.py:242-252 | the cleaned interviewer titles are exactly `Навык` followed by the roster-filtered titles after the first that do not contain `Unnamed`, in the sheet's order (which titles the roster filter keeps is `InterviewerLaws.RosterFilterSpec`); each of them is a sheet title containing the raw first title or a roster name |
| Tables.Table.FromGrid | page.py:137 | the new table holds the grid's row 5 as titles and the rows below as body |
| Tables.Table.RenameSkillColumn | page.py:138 | only the first title changes, to `Навык` |
| Tables.Table.DropColumns | page.py:139-140 | the table becomes the column-filtered table; every remaining title is one the rule keeps |
| Tables.Table.DropBlankSkillRows | page.py:142-143 | the table becomes the table without blank skill rows; titles untouched |
| Tables.Table.AnnotateLevels | page.py:258-261 | on success the titles become the annotated titles; on failure the error is returned and the table is unchanged |
| Tables.BuildCandidateTable | page.py:137-161 | the in-place pipeline leaves the table equal to the candidate table |
| Tables.BuildInterviewerTable | page.py:234-261 | the in-place pipeline returns the interviewer table, or the error the interviewer step fails with |
| Results.FormatRatingSpec | page.py:180 | the rating cell is a decimal numeral followed by `%`, and the numeral's value is the rating |
| Results.FormatResults | page.py:176-183 | one row per rated worker, in the rating's order, each the display row of its worker |
| Results.RatingRoundTrip | page.py:180 | the rating cell reads back as the rating |
| Results.FormatWorkerRoundTrip | page.py:179-182 | a display row reads back as its worker when both skill lists are non-empty and no skill contains a comma |
| Results.ResultsRoundTrip | page.py:176-183 | every row of the results reads back as the worker in the same place |

## Left out

- The Streamlit interface (tabs, widgets, tables on screen, the
  `selected_department != '1C'` gate at page.py:230): interactive
  presentation; the flags it yields are parameters of the model.
- Google Sheets access and authentication and the `SpreadsheetNotFound` /
  `APIError` handlers: network I/O to a foreign service; the model starts
  from the grids `get_all_values()` returns.
- `ranker.py` (the language-model call, its prompt templates and the
  pydantic schemas): a network call and library code. The rating list it
  returns is a parameter of `Results.FormatResults`; its 1–100 range is
  only a field description and is not modelled.
- `DataFrame.to_markdown`: foreign library serialisation.
- The `dropna` calls (page.py:144, 235, 255) drop no rows, since cells
  from `get_all_values()` are never null; the one at page.py:235 still
  raises `KeyError` without a `Сотрудник` column, which the model keeps
  as `MissingColumn`.
- Frames.FromGrid: grids too short to index (fewer than 6 rows, or no
  roster title row) are excluded by precondition rather than modelled as
  the `IndexError` they raise; so is a title row with no cells, on which
  the rename of page.py:138 raises `ValueError` on the candidate tab,
  while on the interviewer tab `columns[0]` at page.py:245 raises
  `IndexError` before the rename is reached. `IsGrid` also asks for a
  rectangular grid, which is what `get_all_values()` returns (it pads
  every row to one width), so that part excludes no input the program
  receives.
- Text.LowerChar: lower-cases ASCII and the Cyrillic block U+0400–U+042F
  only; other letters, and the special case folds of `re.IGNORECASE`
  (Kelvin sign, long s), are not modelled.
- Frames.DropBlankSkillRows: a second column also titled `Навык` makes
  `df['Навык']` a sub-frame whose `.str` fails; the model reads the first
  column only and does not model that failure.
- Frames.AnnotateLabel: with several `Уровень` columns `['Уровень']` gives
  a Series of those cells, whose printed form goes into the title; the
  model takes the first such column's cell.
- Tables.Table.DropColumns and the other in-place methods reassign whole
  sequences; pandas' internal block layout and index labels are not
  modelled.
