/** The key-metric cards (app.py:57-60): three column sums and the mean of
    Comments over the displayed rows. */
module Summary {
  import opened Records

  /** Column-wise sum of the metrics of `rows` (`display_df[col].sum()` for
      each metric column at once); the sum of no rows is zero. */
  function Total(rows: seq<Record>): Counts
    decreases |rows|
  {
    if |rows| == 0 then Zero
    else Total(rows[..|rows| - 1]).Plus(rows[|rows| - 1].counts)
  }

  /** The four key metrics: total_views, total_shelf, total_rev and avg_comment. */
  datatype Metrics = Metrics(totalViews: int, totalShelf: int, totalRevenue: int,
                             avgComment: Option<real>)

  /** The metric cards of a data set; the average comment count is undefined
      over no rows (pandas' `mean()` of an empty column is NaN). */
  function Summarize(rows: seq<Record>): (s: Metrics)
    ensures s.avgComment.None? <==> |rows| == 0
    ensures s.avgComment.Some? ==> s.avgComment.value * (|rows| as real) == Total(rows).comments as real
    ensures |rows| == 0 ==> s.totalViews == 0 && s.totalShelf == 0 && s.totalRevenue == 0
  {
    var t := Total(rows);
    Metrics(t.views, t.shelf, t.revenue, Ratio(t.comments, |rows|))
  }

  /** Totals of concatenated data sets add up. */
  lemma {:induction false} TotalAppend(xs: seq<Record>, ys: seq<Record>)
    ensures Total(xs + ys) == Total(xs).Plus(Total(ys))
    decreases |ys|
  {
    if |ys| == 0 {
      assert xs + ys == xs;
    } else {
      var n := |ys| - 1;
      assert (xs + ys)[..|xs + ys| - 1] == xs + ys[..n];
      assert (xs + ys)[|xs + ys| - 1] == ys[n];
      TotalAppend(xs, ys[..n]);
    }
  }

  /** Appending one row adds its metrics to the totals. */
  lemma TotalSnoc(xs: seq<Record>, y: Record)
    ensures Total(xs + [y]) == Total(xs).Plus(y.counts)
  {
    assert (xs + [y])[..|xs|] == xs;
  }

  /** Taking one row out of a data set lowers its totals by that row. */
  lemma TotalRemove(front: seq<Record>, y: Record, back: seq<Record>)
    ensures Total(front + [y] + back) == Total(front + back).Plus(y.counts)
  {
    TotalAppend(front + [y], back);
    TotalSnoc(front, y);
    TotalAppend(front, back);
    PlusSwap(Total(front), y.counts, Total(back));
  }

  /** Totals do not depend on row order: any permutation of the data set
      (same multiset of rows) has the same totals. */
  lemma {:induction false} TotalOrderIndependent(xs: seq<Record>, ys: seq<Record>)
    requires multiset(xs) == multiset(ys)
    ensures Total(xs) == Total(ys)
    decreases |ys|
  {
    if |ys| > 0 {
      var n := |ys| - 1;
      var y := ys[n];
      var ys' := ys[..n];
      assert ys == ys' + [y];
      assert y in multiset(xs);
      var i :| 0 <= i < |xs| && xs[i] == y;
      var rest := xs[..i] + xs[i + 1..];
      assert xs == xs[..i] + [y] + xs[i + 1..];
      assert multiset(rest) == multiset(xs) - multiset{y};
      assert multiset(ys') == multiset(ys) - multiset{y};
      TotalOrderIndependent(rest, ys');
      TotalRemove(xs[..i], y, xs[i + 1..]);
    } else {
      assert |multiset(xs)| == 0;
    }
  }

  /** The key metrics, too, are independent of the order of the rows. */
  lemma SummarizeOrderIndependent(xs: seq<Record>, ys: seq<Record>)
    requires multiset(xs) == multiset(ys)
    ensures Summarize(xs) == Summarize(ys)
  {
    TotalOrderIndependent(xs, ys);
    assert |xs| == |multiset(xs)| == |multiset(ys)| == |ys|;
  }
}
