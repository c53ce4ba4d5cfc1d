/**
  The ranking results as page.py displays them: one row per rated worker,
  in the order of the rating, with the rating as a percentage and the two
  skill lists joined with ", ".
 */
module Results {
  import opened Wrappers
  import opened Text

  /** The separator `', '.join` puts between skills. */
  const ListSeparator: string := ", "

  /** A rated worker as the ranking returns it. */
  datatype Worker = Worker(name: string, rating: int, goods: seq<string>, bads: seq<string>)

  /** One display row: "Сотрудник", "Рейтинг", "Релевантные компетенции", "Что подтянуть". */
  datatype ResultRow = ResultRow(employee: string, rating: string, relevant: string, toImprove: string)

  /** `f'{worker.rating}%'`: the decimal numeral of the rating followed by a percent sign. */
  function FormatRating(n: int): string {
    IntToString(n) + "%"
  }

  /** The rating cell is a numeral followed by `%`, and the numeral's value is the rating. */
  lemma FormatRatingSpec(n: int)
    ensures var s := FormatRating(n);
      |s| > 1 && s[|s| - 1] == '%' && IsNumeral(s[..|s| - 1]) && NumeralValue(s[..|s| - 1]) == n
  {
    var digits := IntToString(n);
    IntToStringRoundTrip(n);
    assert (digits + "%")[..|digits|] == digits;
  }

  /** The display row of one worker. */
  function FormatWorker(w: Worker): ResultRow {
    ResultRow(w.name, FormatRating(w.rating), Join(w.goods, ListSeparator), Join(w.bads, ListSeparator))
  }

  /** The `append` loop of page.py:176-183: one row per worker, in the rating's order. */
  method FormatResults(rating: seq<Worker>) returns (data: seq<ResultRow>)
    ensures |data| == |rating|
    ensures forall i :: 0 <= i < |rating| ==> data[i] == FormatWorker(rating[i])
  {
    data := [];
    for i := 0 to |rating|
      invariant |data| == i
      invariant forall k :: 0 <= k < i ==> data[k] == FormatWorker(rating[k])
    {
      data := data + [FormatWorker(rating[i])];
    }
  }

  /** Reads a percentage back: the numeral before a trailing percent sign. */
  function ParseRating(s: string): Option<int>
  {
    if |s| > 1 && s[|s| - 1] == '%' && IsNumeral(s[..|s| - 1]) then Some(NumeralValue(s[..|s| - 1])) else None
  }

  /** Reads a display row back into the worker it shows. */
  function ParseRow(row: ResultRow): Option<Worker> {
    match ParseRating(row.rating)
    case None => None
    case Some(n) => Some(Worker(row.employee, n, Split(row.relevant, ListSeparator), Split(row.toImprove, ListSeparator)))
  }

  /** The percentage reads back as the rating it shows. */
  lemma RatingRoundTrip(n: int)
    ensures ParseRating(FormatRating(n)) == Some(n)
  {
    FormatRatingSpec(n);
  }

  /**
    A display row reads back as its worker when both skill lists are
    non-empty and no skill contains a comma; an empty list shows as an
    empty cell, which reads back as one empty skill.
   */
  lemma FormatWorkerRoundTrip(w: Worker)
    requires |w.goods| > 0 && |w.bads| > 0
    requires forall k :: 0 <= k < |w.goods| ==> ',' !in w.goods[k]
    requires forall k :: 0 <= k < |w.bads| ==> ',' !in w.bads[k]
    ensures ParseRow(FormatWorker(w)) == Some(w)
  {
    RatingRoundTrip(w.rating);
    SplitJoin(w.goods, ListSeparator);
    SplitJoin(w.bads, ListSeparator);
  }

  /** Every display row of the results reads back as the worker in the same place. */
  lemma ResultsRoundTrip(rating: seq<Worker>, data: seq<ResultRow>)
    requires |data| == |rating|
    requires forall i :: 0 <= i < |rating| ==> data[i] == FormatWorker(rating[i])
    requires forall i :: 0 <= i < |rating| ==> |rating[i].goods| > 0 && |rating[i].bads| > 0
    requires forall i, k :: 0 <= i < |rating| && 0 <= k < |rating[i].goods| ==> ',' !in rating[i].goods[k]
    requires forall i, k :: 0 <= i < |rating| && 0 <= k < |rating[i].bads| ==> ',' !in rating[i].bads[k]
    ensures forall i :: 0 <= i < |data| ==> ParseRow(data[i]) == Some(rating[i])
  {
    forall i | 0 <= i < |data|
      ensures ParseRow(data[i]) == Some(rating[i])
    {
      FormatWorkerRoundTrip(rating[i]);
    }
  }
}
