/** The per-author table `display_df.groupby("Author").agg(sum)`
    (app.py:88-93), modelled as a left fold that adds each row into the entry
    of its author, creating the entry on the author's first row. */
module Aggregate {
  import opened Records
  import opened Selection
  import opened Summary

  /** One row of the grouped table: an author and the column sums of
      Views, Add_to_Shelf, Comments and Revenue_Coins over that author's rows. */
  datatype AuthorSums = AuthorSums(author: string, sums: Counts)

  /** The authors that have an entry in `table`. */
  function AuthorSet(table: seq<AuthorSums>): set<string> {
    set g | g in table :: g.author
  }

  /** No author has two entries. */
  ghost predicate DistinctAuthors(table: seq<AuthorSums>) {
    forall j, k :: 0 <= j < k < |table| ==> table[j].author != table[k].author
  }

  /** The position of the first entry of author `a`, or `|table|` when there is none. */
  function IndexOf(table: seq<AuthorSums>, a: string): (i: nat)
    ensures i <= |table|
    ensures i < |table| ==> table[i].author == a
    ensures forall j :: 0 <= j < i ==> table[j].author != a
    decreases |table|
  {
    if |table| == 0 then 0
    else if table[0].author == a then 0
    else 1 + IndexOf(table[1..], a)
  }

  /** The three properties of `IndexOf`'s contract pin its result down. */
  lemma IndexOfUnique(table: seq<AuthorSums>, a: string, i: nat)
    requires i <= |table|
    requires i < |table| ==> table[i].author == a
    requires forall j :: 0 <= j < i ==> table[j].author != a
    ensures IndexOf(table, a) == i
  {
  }

  /** The sums recorded for author `a`; an author without an entry has summed no rows. */
  function Lookup(table: seq<AuthorSums>, a: string): Counts {
    var i := IndexOf(table, a);
    if i < |table| then table[i].sums else Zero
  }

  /** What `Lookup` reads: zero for an author without an entry, and in a table
      with distinct authors the sums of that author's one entry. */
  lemma LookupMeaning(table: seq<AuthorSums>, a: string)
    ensures a !in AuthorSet(table) ==> Lookup(table, a) == Zero
    ensures DistinctAuthors(table) ==>
      forall i :: 0 <= i < |table| && table[i].author == a ==> Lookup(table, a) == table[i].sums
  {
  }

  /** Adds one row into the table: into its author's entry if there is one,
      otherwise as a new entry at the end. */
  function Accumulate(table: seq<AuthorSums>, x: Record): seq<AuthorSums> {
    var i := IndexOf(table, x.author);
    if i < |table| then table[i := AuthorSums(x.author, table[i].sums.Plus(x.counts))]
    else table + [AuthorSums(x.author, x.counts)]
  }

  /** Accumulating a row adds its author to the table and, with distinct
      authors before, keeps them distinct; a new entry appears exactly when
      the author had none. */
  lemma AccumulateAuthors(table: seq<AuthorSums>, x: Record)
    ensures AuthorSet(Accumulate(table, x)) == AuthorSet(table) + {x.author}
    ensures DistinctAuthors(table) ==> DistinctAuthors(Accumulate(table, x))
    ensures |Accumulate(table, x)| == |table| + (if x.author in AuthorSet(table) then 0 else 1)
  {
    var i := IndexOf(table, x.author);
    var t := Accumulate(table, x);
    if i < |table| {
      assert table[i] in table;
      assert forall j :: 0 <= j < |t| ==> t[j].author == table[j].author;
    } else {
      assert x.author !in AuthorSet(table);
    }
  }

  /** Accumulating a row adds its metrics to its own author's sums ... */
  lemma AccumulateLookupOwn(table: seq<AuthorSums>, x: Record)
    ensures Lookup(Accumulate(table, x), x.author) == Lookup(table, x.author).Plus(x.counts)
  {
    var i := IndexOf(table, x.author);
    var t := Accumulate(table, x);
    if i < |table| {
      IndexOfUnique(t, x.author, i);
    } else {
      assert t == table + [AuthorSums(x.author, x.counts)];
      IndexOfUnique(t, x.author, |table|);
    }
  }

  /** ... and leaves every other author's sums as they were. */
  lemma AccumulateLookupOther(table: seq<AuthorSums>, x: Record, a: string)
    requires a != x.author
    ensures Lookup(Accumulate(table, x), a) == Lookup(table, a)
  {
    var i := IndexOf(table, x.author);
    var t := Accumulate(table, x);
    var k := IndexOf(table, a);
    if i < |table| {
      assert forall j :: 0 <= j < |t| ==> t[j].author == table[j].author;
      IndexOfUnique(t, a, k);
    } else {
      assert t == table + [AuthorSums(x.author, x.counts)];
      IndexOfUnique(t, a, if k < |table| then k else |t|);
    }
  }

  /** The grouped table of a data set, one entry per author in order of
      first appearance. */
  function GroupByAuthor(rows: seq<Record>): (t: seq<AuthorSums>)
    ensures DistinctAuthors(t)
    ensures AuthorSet(t) == RowAuthors(rows)
    decreases |rows|
  {
    if |rows| == 0 then []
    else
      var n := |rows| - 1;
      assert rows == rows[..n] + [rows[n]];
      assert RowAuthors(rows) == RowAuthors(rows[..n]) + {rows[n].author};
      AccumulateAuthors(GroupByAuthor(rows[..n]), rows[n]);
      Accumulate(GroupByAuthor(rows[..n]), rows[n])
  }

  /** The sums the table holds for any author are the totals over that
      author's rows only; an author absent from the data reads as zero. */
  lemma {:induction false} GroupByAuthorLookup(rows: seq<Record>, a: string)
    ensures Lookup(GroupByAuthor(rows), a) == Total(Filter(rows, a))
    decreases |rows|
  {
    if |rows| > 0 {
      var n := |rows| - 1;
      var last := rows[n];
      var pre := GroupByAuthor(rows[..n]);
      GroupByAuthorLookup(rows[..n], a);
      assert GroupByAuthor(rows) == Accumulate(pre, last);
      if last.author == a {
        assert Filter(rows, a) == Filter(rows[..n], a) + [last];
        TotalAppend(Filter(rows[..n], a), [last]);
        assert [last][..0] == [];
        AccumulateLookupOwn(pre, last);
      } else {
        assert Filter(rows, a) == Filter(rows[..n], a) + [];
        assert Filter(rows[..n], a) + [] == Filter(rows[..n], a);
        AccumulateLookupOther(pre, last, a);
      }
    }
  }

  /** Each table entry holds the column sums over its author's rows. */
  lemma GroupByAuthorEntries(rows: seq<Record>)
    ensures forall i :: 0 <= i < |GroupByAuthor(rows)| ==>
      GroupByAuthor(rows)[i].sums == Total(Filter(rows, GroupByAuthor(rows)[i].author))
  {
    var t := GroupByAuthor(rows);
    forall i | 0 <= i < |t|
      ensures t[i].sums == Total(Filter(rows, t[i].author))
    {
      assert IndexOf(t, t[i].author) == i;
      GroupByAuthorLookup(rows, t[i].author);
    }
  }

  /** Distinct entries: the table has as many rows as it has authors. */
  lemma {:induction false} DistinctAuthorsCount(table: seq<AuthorSums>)
    requires DistinctAuthors(table)
    ensures |AuthorSet(table)| == |table|
    decreases |table|
  {
    if |table| > 0 {
      var n := |table| - 1;
      var pre := table[..n];
      DistinctAuthorsCount(pre);
      assert table == pre + [table[n]];
      assert AuthorSet(table) == AuthorSet(pre) + {table[n].author};
      assert table[n].author !in AuthorSet(pre);
    } else {
      assert AuthorSet(table) == {};
    }
  }

  /** Exactly one table row per distinct author of the data set. */
  lemma OneEntryPerAuthor(rows: seq<Record>)
    ensures |GroupByAuthor(rows)| == |RowAuthors(rows)|
  {
    DistinctAuthorsCount(GroupByAuthor(rows));
  }

  /** With one author chosen the table has at most one row, and exactly one
      when that author has any rows. */
  lemma SelectedAuthorTable(rows: seq<Record>, a: string)
    ensures |GroupByAuthor(Filter(rows, a))| <= 1
    ensures |GroupByAuthor(Filter(rows, a))| == 1 <==> a in RowAuthors(rows)
  {
    var f := Filter(rows, a);
    OneEntryPerAuthor(f);
    if a in RowAuthors(rows) {
      var x :| x in rows && x.author == a;
      FilterMembers(rows, a, x);
      assert RowAuthors(f) == {a};
    } else {
      assert RowAuthors(f) == {};
    }
  }

  /** Column-wise sum over the entries of the grouped table. */
  function GrandTotal(table: seq<AuthorSums>): Counts
    decreases |table|
  {
    if |table| == 0 then Zero
    else GrandTotal(table[..|table| - 1]).Plus(table[|table| - 1].sums)
  }

  /** Replacing one entry's sums changes the grand total by the difference. */
  lemma {:induction false} GrandTotalUpdate(table: seq<AuthorSums>, i: nat, e: AuthorSums)
    requires i < |table|
    ensures GrandTotal(table[i := e]).Plus(table[i].sums) == GrandTotal(table).Plus(e.sums)
    decreases |table|
  {
    var n := |table| - 1;
    assert table[i := e][..n] == if i == n then table[..n] else table[..n][i := e];
    if i < n {
      GrandTotalUpdate(table[..n], i, e);
    }
  }

  /** Accumulating a row raises the grand total by exactly that row. */
  lemma AccumulateGrandTotal(table: seq<AuthorSums>, x: Record)
    ensures GrandTotal(Accumulate(table, x)) == GrandTotal(table).Plus(x.counts)
  {
    var i := IndexOf(table, x.author);
    if i < |table| {
      GrandTotalUpdate(table, i, AuthorSums(x.author, table[i].sums.Plus(x.counts)));
    } else {
      var t := table + [AuthorSums(x.author, x.counts)];
      assert t[..|table|] == table;
    }
  }

  /** Conservation: adding up every author's sums gives the sums over the
      whole data set, in each of the four columns. */
  lemma {:induction false} GroupByAuthorConservation(rows: seq<Record>)
    ensures GrandTotal(GroupByAuthor(rows)) == Total(rows)
    decreases |rows|
  {
    if |rows| > 0 {
      var n := |rows| - 1;
      GroupByAuthorConservation(rows[..n]);
      assert GroupByAuthor(rows) == Accumulate(GroupByAuthor(rows[..n]), rows[n]);
      AccumulateGrandTotal(GroupByAuthor(rows[..n]), rows[n]);
    }
  }
}
