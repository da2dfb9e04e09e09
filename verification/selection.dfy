/** The sidebar author filter (app.py:50-54). */
module Selection {
  import opened Records

  /** The first entry of the author select box: "all authors". */
  const AllAuthors: string := "ทั้งหมด"

  /** The rows whose author is exactly `a`, in their original order
      (the boolean mask `df["Author"] == author_choice`). */
  function Filter(rows: seq<Record>, a: string): (r: seq<Record>)
    ensures |r| <= |rows|
    ensures forall k :: 0 <= k < |r| ==> r[k].author == a
    decreases |rows|
  {
    if |rows| == 0 then []
    else
      var last := rows[|rows| - 1];
      Filter(rows[..|rows| - 1], a) + (if last.author == a then [last] else [])
  }

  /** A row is kept if and only if it is a row of the input with author `a`. */
  lemma {:induction false} FilterMembers(rows: seq<Record>, a: string, x: Record)
    ensures x in Filter(rows, a) <==> x in rows && x.author == a
    decreases |rows|
  {
    if |rows| > 0 {
      var n := |rows| - 1;
      FilterMembers(rows[..n], a, x);
      assert rows == rows[..n] + [rows[n]];
    }
  }

  /** The displayed data set: everything for the sentinel choice, otherwise
      the rows of the chosen author. */
  function SelectRows(rows: seq<Record>, choice: string): (r: seq<Record>)
    ensures choice == AllAuthors ==> r == rows
    ensures choice != AllAuthors ==> forall x :: x in r <==> x in rows && x.author == choice
  {
    if choice != AllAuthors then
      var r := Filter(rows, choice);
      assert forall x :: x in r <==> x in rows && x.author == choice by {
        forall x {
          FilterMembers(rows, choice, x);
        }
      }
      r
    else rows
  }

  /** The positions of the rows of author `a`, in increasing order. */
  function MatchIndices(rows: seq<Record>, a: string): (idx: seq<nat>)
    ensures forall k :: 0 <= k < |idx| ==> idx[k] < |rows| && rows[idx[k]].author == a
    ensures forall j, k :: 0 <= j < k < |idx| ==> idx[j] < idx[k]
    ensures forall i :: 0 <= i < |rows| && rows[i].author == a ==> i in idx
    decreases |rows|
  {
    if |rows| == 0 then []
    else
      var n := |rows| - 1;
      var pre := MatchIndices(rows[..n], a);
      assert forall i :: 0 <= i < n ==> rows[..n][i] == rows[i];
      pre + (if rows[n].author == a then [n] else [])
  }

  /** `r` is the subsequence of `rows` at the strictly increasing positions `idx`. */
  ghost predicate OrderedSubsequence(r: seq<Record>, rows: seq<Record>, idx: seq<nat>) {
    && |idx| == |r|
    && (forall k :: 0 <= k < |idx| ==> idx[k] < |rows| && r[k] == rows[idx[k]])
    && (forall j, k :: 0 <= j < k < |idx| ==> idx[j] < idx[k])
  }

  /** One kept row per matching position. */
  lemma {:induction false} FilterLength(rows: seq<Record>, a: string)
    ensures |Filter(rows, a)| == |MatchIndices(rows, a)|
    decreases |rows|
  {
    if |rows| > 0 {
      FilterLength(rows[..|rows| - 1], a);
    }
  }

  /** The filter keeps exactly the rows of author `a`: it is the ordered
      subsequence of the input at the positions of `a`'s rows.  Nothing else
      is kept, no matching row is dropped, and the relative order is that of
      the input. */
  lemma {:induction false} FilterIsOrderedSubsequence(rows: seq<Record>, a: string)
    ensures OrderedSubsequence(Filter(rows, a), rows, MatchIndices(rows, a))
    decreases |rows|
  {
    FilterLength(rows, a);
    if |rows| > 0 {
      var n := |rows| - 1;
      var pre := rows[..n];
      FilterIsOrderedSubsequence(pre, a);
      FilterLength(pre, a);
      var idx0, r0 := MatchIndices(pre, a), Filter(pre, a);
      var idx, r := MatchIndices(rows, a), Filter(rows, a);
      var keep := rows[n].author == a;
      assert idx == idx0 + (if keep then [n] else []);
      assert r == r0 + (if keep then [rows[n]] else []);
      forall k | 0 <= k < |idx0|
        ensures r[k] == rows[idx[k]]
      {
        assert r[k] == r0[k];
        assert idx[k] == idx0[k];
        assert r0[k] == pre[idx0[k]];
      }
    }
  }

  /** Concatenated data frames filter piecewise. */
  lemma {:induction false} FilterAppend(xs: seq<Record>, ys: seq<Record>, a: string)
    ensures Filter(xs + ys, a) == Filter(xs, a) + Filter(ys, a)
    decreases |ys|
  {
    if |ys| > 0 {
      var n := |ys| - 1;
      assert (xs + ys)[..|xs + ys| - 1] == xs + ys[..n];
      assert (xs + ys)[|xs + ys| - 1] == ys[n];
      FilterAppend(xs, ys[..n], a);
      var tail := if ys[n].author == a then [ys[n]] else [];
      assert Filter(ys, a) == Filter(ys[..n], a) + tail;
      assert Filter(xs + ys, a) == Filter(xs + ys[..n], a) + tail;
    } else {
      assert xs + ys == xs;
    }
  }

  /** A data set whose rows all belong to `a` passes the filter unchanged. */
  lemma {:induction false} FilterKeepsOwnRows(rows: seq<Record>, a: string)
    requires forall k :: 0 <= k < |rows| ==> rows[k].author == a
    ensures Filter(rows, a) == rows
    decreases |rows|
  {
    if |rows| > 0 {
      var n := |rows| - 1;
      var pre := rows[..n];
      FilterKeepsOwnRows(pre, a);
      assert Filter(rows, a) == Filter(pre, a) + [rows[n]];
      assert pre + [rows[n]] == rows;
    }
  }

  /** Filtering twice by the same author is filtering once. */
  lemma FilterIdempotent(rows: seq<Record>, a: string)
    ensures Filter(Filter(rows, a), a) == Filter(rows, a)
  {
    FilterKeepsOwnRows(Filter(rows, a), a);
  }

  /** Re-applying the sidebar selection to the displayed rows changes nothing. */
  lemma SelectRowsIdempotent(rows: seq<Record>, choice: string)
    ensures SelectRows(SelectRows(rows, choice), choice) == SelectRows(rows, choice)
  {
    if choice != AllAuthors {
      FilterIdempotent(rows, choice);
    }
  }

  /** An author with no rows selects the empty data set, not an error. */
  lemma FilterAbsentAuthor(rows: seq<Record>, a: string)
    requires a !in RowAuthors(rows)
    ensures Filter(rows, a) == []
  {
    var r := Filter(rows, a);
    if r != [] {
      FilterMembers(rows, a, r[0]);
    }
  }
}
