/** The derived ratio columns of the analysis table (app.py:95-96), computed
    per author after the group sums, as exact rationals. */
module Ratios {
  import opened Records
  import opened Selection
  import opened Summary
  import opened Aggregate

  /** "Shelf_Rate (%)": shelf-adds per view, as a percentage. */
  function ShelfRatePct(s: Counts): (p: Option<real>)
    ensures p.None? <==> s.views == 0
    ensures p.Some? ==> p.value * (s.views as real) == 100.0 * (s.shelf as real)
  {
    match Ratio(s.shelf, s.views)
    case None => None
    case Some(q) => Some(q * 100.0)
  }

  /** "Avg_Revenue_Per_View": revenue coins per view. */
  function RevenuePerView(s: Counts): (p: Option<real>)
    ensures p.None? <==> s.views == 0
    ensures p.Some? ==> p.value * (s.views as real) == s.revenue as real
  {
    Ratio(s.revenue, s.views)
  }

  /** One row of the rendered analysis table: the author's sums and the two
      ratios derived from them. */
  datatype AnalysisRow = AnalysisRow(group: AuthorSums, shelfRatePct: Option<real>,
                                     revenuePerView: Option<real>)

  /** Adds the two ratio columns to a group entry; both come from the
      entry's sums and both are undefined exactly when its Views sum is 0. */
  function Derive(g: AuthorSums): (row: AnalysisRow)
    ensures row.group == g
    ensures row.shelfRatePct.None? <==> g.sums.views == 0
    ensures row.revenuePerView.None? <==> g.sums.views == 0
    ensures row.shelfRatePct.Some? ==>
      row.shelfRatePct.value * (g.sums.views as real) == 100.0 * (g.sums.shelf as real)
    ensures row.revenuePerView.Some? ==>
      row.revenuePerView.value * (g.sums.views as real) == g.sums.revenue as real
  {
    AnalysisRow(g, ShelfRatePct(g.sums), RevenuePerView(g.sums))
  }

  /** The group entries underneath an analysis table. */
  function Groups(table: seq<AnalysisRow>): (gs: seq<AuthorSums>)
    ensures |gs| == |table|
    ensures forall i :: 0 <= i < |table| ==> gs[i] == table[i].group
  {
    seq(|table|, i requires 0 <= i < |table| => table[i].group)
  }

  /** The analysis table: the grouped sums with the two ratio columns added. */
  function Analyze(rows: seq<Record>): (r: seq<AnalysisRow>)
    ensures Groups(r) == GroupByAuthor(rows)
    ensures |r| == |RowAuthors(rows)|
    ensures forall i :: 0 <= i < |r| ==> r[i].group.sums == Total(Filter(rows, r[i].group.author))
  {
    var g := GroupByAuthor(rows);
    OneEntryPerAuthor(rows);
    GroupByAuthorEntries(rows);
    seq(|g|, i requires 0 <= i < |g| => Derive(g[i]))
  }

  /** Sum, then divide: each author's ratios are the ratios of that author's
      column totals, so they are undefined exactly when those views add up to 0. */
  lemma AnalyzeSumThenDivide(rows: seq<Record>, i: nat)
    requires i < |Analyze(rows)|
    ensures var row := Analyze(rows)[i];
      var t := Total(Filter(rows, row.group.author));
      && row.shelfRatePct == ShelfRatePct(t)
      && row.revenuePerView == RevenuePerView(t)
      && (row.shelfRatePct.None? <==> t.views == 0)
      && (row.revenuePerView.None? <==> t.views == 0)
  {
  }

  /** A concrete case where sum-then-divide and averaging per-row ratios differ:
      views 100 and 300 with 10 and 15 shelf-adds give a shelf rate of 6.25%,
      while the mean of the per-row rates (10% and 5%) would be 7.5%. */
  lemma ShelfRateIsNotMeanOfRowRates()
    ensures var rows := [Record("X", Counts(100, 10, 0, 0)), Record("X", Counts(300, 15, 0, 0))];
      && Analyze(rows)[0].shelfRatePct == Some(6.25)
      && ShelfRatePct(rows[0].counts) == Some(10.0)
      && ShelfRatePct(rows[1].counts) == Some(5.0)
      && (ShelfRatePct(rows[0].counts).value + ShelfRatePct(rows[1].counts).value) / 2.0
         != Analyze(rows)[0].shelfRatePct.value
  {
    var rows := [Record("X", Counts(100, 10, 0, 0)), Record("X", Counts(300, 15, 0, 0))];
    assert rows[..1] == [rows[0]];
    assert GroupByAuthor(rows) == [AuthorSums("X", Counts(400, 25, 0, 0))];
  }
}
