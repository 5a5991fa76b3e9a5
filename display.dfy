/** The read-time view: a copy of the stored rows, most recent date first, and the summary over it. */
module Display {
  import opened Dates
  import opened Entries
  import opened Summaries

  /** Dates never increase along `rows`. */
  ghost predicate NewestFirst(rows: seq<Transaction>) {
    forall i, j :: 0 <= i < j < |rows| ==> NotAfter(rows[j].date, rows[i].date)
  }

  /** Places `x` into a newest-first sequence. */
  function Insert(x: Transaction, rows: seq<Transaction>): (r: seq<Transaction>)
    requires NewestFirst(rows)
    ensures NewestFirst(r)
    ensures multiset(r) == multiset(rows) + multiset{x}
  {
    if rows == [] then [x]
    else if NotAfter(rows[0].date, x.date) then [x] + rows
    else
      var tail := Insert(x, rows[1..]);
      assert rows == [rows[0]] + rows[1..];
      assert forall k :: 0 <= k < |tail| ==> NotAfter(tail[k].date, rows[0].date) by {
        forall k | 0 <= k < |tail|
          ensures NotAfter(tail[k].date, rows[0].date)
        {
          assert tail[k] in multiset(rows[1..]) + multiset{x};
          if tail[k] != x {
            assert tail[k] in rows[1..];
          } else {
            NotAfterTotal(rows[0].date, x.date);
          }
        }
      }
      [rows[0]] + tail
  }

  /** The stored rows ordered by date, most recent first (the order among equal dates is not promised). */
  function SortByDateDesc(rows: seq<Transaction>): (r: seq<Transaction>)
    ensures NewestFirst(r)
    ensures multiset(r) == multiset(rows)
    ensures |r| == |rows|
  {
    if rows == [] then []
    else
      assert rows == [rows[0]] + rows[1..];
      Insert(rows[0], SortByDateDesc(rows[1..]))
  }

  /** What the page shows below the entry form. */
  datatype Dashboard =
    | NoTransactions
    | Shown(table: seq<Transaction>, summary: Summary)

  /**
   * The summary and the table, computed only when the ledger has rows.
   * The figures are summed over the sorted copy and equal those of the stored rows.
   */
  function Render(rows: seq<Transaction>): (d: Dashboard)
    ensures d == NoTransactions <==> rows == []
    ensures d.Shown? ==> NewestFirst(d.table) && multiset(d.table) == multiset(rows)
    ensures d.Shown? ==> d.summary == Summarize(rows)
  {
    if rows == [] then NoTransactions
    else
      var table := SortByDateDesc(rows);
      SummarizePermutation(table, rows);
      Shown(table, Summarize(table))
  }
}
