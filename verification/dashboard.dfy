/** One recomputation of the dashboard for a sidebar choice (app.py:50-60 and
    88-96): select the displayed rows, then derive the key metrics and the
    per-author analysis table from them. */
module Dashboard {
  import opened Records
  import opened Selection
  import opened Summary
  import opened Aggregate
  import opened Ratios

  /** Everything the page computes: the metric cards and the analysis table. */
  datatype View = View(summary: Metrics, table: seq<AnalysisRow>)

  function Render(df: seq<Record>, choice: string): View {
    var display := SelectRows(df, choice);
    View(Summarize(display), Analyze(display))
  }

  /** With one author chosen the table shows at most that author's row. */
  lemma SelectedAuthorView(df: seq<Record>, choice: string)
    requires choice != AllAuthors
    ensures var v := Render(df, choice);
      && |v.table| <= 1
      && forall i :: 0 <= i < |v.table| ==> v.table[i].group.author == choice
  {
    var display := Filter(df, choice);
    SelectedAuthorTable(df, choice);
    var g := GroupByAuthor(display);
    forall i | 0 <= i < |g|
      ensures g[i].author == choice
    {
      assert g[i] in g;
      assert g[i].author in RowAuthors(display);
    }
    assert Groups(Analyze(display)) == g;
  }

  /** The table reconciles with the metric cards: the per-author Views,
      Add_to_Shelf and Revenue_Coins columns add up to total_views,
      total_shelf and total_rev. */
  lemma TableReconcilesWithSummary(df: seq<Record>, choice: string)
    ensures var v := Render(df, choice);
      var t := GrandTotal(Groups(v.table));
      && t.views == v.summary.totalViews
      && t.shelf == v.summary.totalShelf
      && t.revenue == v.summary.totalRevenue
  {
    GroupByAuthorConservation(SelectRows(df, choice));
  }

  /** Choosing an author without rows shows zero totals, an undefined average
      comment count and an empty table; nothing fails. */
  lemma AbsentAuthorView(df: seq<Record>, choice: string)
    requires choice != AllAuthors && choice !in RowAuthors(df)
    ensures var v := Render(df, choice);
      && v.summary == Metrics(0, 0, 0, None)
      && v.table == []
  {
    FilterAbsentAuthor(df, choice);
  }

  /** A three-row example: two rows of A and one all-zero row of B. */
  function ExampleRows(): seq<Record> {
    [Record("A", Counts(100, 10, 5, 50)),
     Record("A", Counts(300, 15, 15, 150)),
     Record("B", Counts(0, 0, 0, 0))]
  }

  /** In the example, A's two rows are summed into one entry and B gets its own. */
  lemma ExampleGroups()
    ensures Total(ExampleRows()) == Counts(400, 25, 20, 200)
    ensures GroupByAuthor(ExampleRows())
      == [AuthorSums("A", Counts(400, 25, 20, 200)), AuthorSums("B", Counts(0, 0, 0, 0))]
  {
    var df := ExampleRows();
    var d1 := [df[0]];
    var d2 := [df[0], df[1]];
    assert d1[..0] == [];
    assert d2[..1] == d1;
    assert df[..2] == d2;
    assert Total(d1) == df[0].counts;
    assert Total(d2) == Counts(400, 25, 20, 200);
    assert GroupByAuthor(d1) == [AuthorSums("A", df[0].counts)];
    assert GroupByAuthor(d2) == [AuthorSums("A", Counts(400, 25, 20, 200))];
  }

  /** The example's metric cards: totals 400 views, 25 shelf-adds and 200
      coins, and an average of 20/3 comments per row. */
  lemma ExampleSummary()
    ensures Render(ExampleRows(), AllAuthors).summary == Metrics(400, 25, 200, Some(20.0 / 3.0))
  {
    var df := ExampleRows();
    ExampleGroups();
    assert SelectRows(df, AllAuthors) == df;
    assert Summarize(df) == Metrics(400, 25, 200, Ratio(20, 3));
  }

  /** The example's analysis table: A's shelf rate is 25/400 = 6.25% and its
      revenue per view 0.5; B has no views, so both of its ratios are undefined. */
  lemma ExampleTable()
    ensures Render(ExampleRows(), AllAuthors).table
      == [AnalysisRow(AuthorSums("A", Counts(400, 25, 20, 200)), Some(6.25), Some(0.5)),
          AnalysisRow(AuthorSums("B", Counts(0, 0, 0, 0)), None, None)]
  {
    var df := ExampleRows();
    ExampleGroups();
    assert SelectRows(df, AllAuthors) == df;
    var g := GroupByAuthor(df);
    var r := Analyze(df);
    assert |r| == 2;
    assert r[0] == Derive(g[0]);
    assert r[1] == Derive(g[1]);
    assert ShelfRatePct(g[0].sums) == Some(6.25);
    assert RevenuePerView(g[0].sums) == Some(0.5);
  }
}
