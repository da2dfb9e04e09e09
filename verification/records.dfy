/** The rows of the dashboard's data frame (app.py), reduced to the columns
    that the filter and the aggregates read. */
module Records {

  /** The "undefined" value of a derived metric.  A pandas computation that
      divides by zero yields NaN, inf or -inf instead of raising; the model makes
      that case explicit so that no caller can confuse it with a real 0. */
  datatype Option<+T> = None | Some(value: T)

  /** The four summed metric columns: Views, Add_to_Shelf, Comments and
      Revenue_Coins.  They are plain integers: the mock data is drawn from
      unclamped normal distributions, so any of them may be negative. */
  datatype Counts = Counts(views: int, shelf: int, comments: int, revenue: int)
  {
    /** Column-wise addition, the step of every `sum` aggregate. */
    function Plus(other: Counts): Counts {
      Counts(views + other.views, shelf + other.shelf,
             comments + other.comments, revenue + other.revenue)
    }
  }

  /** Column sums may be taken in any order. */
  lemma PlusSwap(a: Counts, b: Counts, c: Counts)
    ensures a.Plus(b).Plus(c) == a.Plus(c).Plus(b)
  {
  }

  /** The sum of no rows in every column. */
  const Zero: Counts := Counts(0, 0, 0, 0)

  /** One daily observation: the author's pen name (the grouping and filter
      key, compared as an exact string) and that day's metrics. */
  datatype Record = Record(author: string, counts: Counts)

  /** Exact `num / den`, undefined when `den` is zero: pandas gives NaN, inf
      or -inf there (an empty mean, a ratio over zero views) rather than raising. */
  function Ratio(num: int, den: int): (q: Option<real>)
    ensures q.None? <==> den == 0
    ensures q.Some? ==> q.value * (den as real) == num as real
  {
    if den == 0 then None else Some(num as real / den as real)
  }

  /** The set of authors that occur in a data set. */
  function RowAuthors(rows: seq<Record>): set<string> {
    set x | x in rows :: x.author
  }
}
