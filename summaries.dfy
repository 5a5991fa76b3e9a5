/** The five totals shown above the transaction table. */
module Summaries {
  import opened Categories
  import opened Entries

  /** The rows of type `t`, in their order: the type filter applied before each sum. */
  function OfKind(rows: seq<Transaction>, t: TxType): (r: seq<Transaction>)
    ensures |r| <= |rows|
    ensures forall i :: 0 <= i < |r| ==> r[i].kind == t && r[i] in rows
  {
    if rows == [] then []
    else (if rows[0].kind == t then [rows[0]] else []) + OfKind(rows[1..], t)
  }

  /** The filter keeps every row of type `t`, as often as it occurs, and no other row. */
  lemma {:induction false} OfKindKeepsAll(rows: seq<Transaction>, t: TxType)
    ensures forall x :: multiset(OfKind(rows, t))[x] == if x.kind == t then multiset(rows)[x] else 0
  {
    if rows != [] {
      OfKindKeepsAll(rows[1..], t);
      assert rows == [rows[0]] + rows[1..];
    }
  }

  /** Sum of the Amount column; with positive amounts it is at least one cent per row. */
  function SumAmounts(rows: seq<Transaction>): (r: int)
    ensures AllPositive(rows) ==> r >= |rows|
  {
    assert AllPositive(rows) && rows != [] ==> AllPositive(rows[1..]) by {
      if AllPositive(rows) && rows != [] {
        forall i | 0 <= i < |rows[1..]| ensures rows[1..][i].amount > 0 {
          assert rows[1..][i] == rows[i + 1];
        }
      }
    }
    if rows == [] then 0 else rows[0].amount + SumAmounts(rows[1..])
  }

  /** The total of one type: the amounts of the rows of that type, summed. */
  function Total(rows: seq<Transaction>, t: TxType): (r: int)
    ensures r == KindSum(rows, t)
  {
    FilterSumIsKindSum(rows, t);
    SumAmounts(OfKind(rows, t))
  }

  /** What one row adds to the total of type `t`. */
  function Contribution(x: Transaction, t: TxType): int {
    if x.kind == t then x.amount else 0
  }

  /** An independent single-pass definition of a per-type total. */
  function KindSum(rows: seq<Transaction>, t: TxType): int {
    if rows == [] then 0 else Contribution(rows[0], t) + KindSum(rows[1..], t)
  }

  datatype Summary = Summary(income: int, expense: int, saving: int, net: int, available: int)

  /** The dashboard figures of a set of rows. */
  function Summarize(rows: seq<Transaction>): (s: Summary)
    ensures s.income == KindSum(rows, Income)
    ensures s.expense == KindSum(rows, Expense)
    ensures s.saving == KindSum(rows, Saving)
    ensures s.net == s.income - s.expense
    ensures s.available == s.net - s.saving
    ensures s.available == s.income - s.expense - s.saving
  {
    var income := Total(rows, Income);
    var expense := Total(rows, Expense);
    var saving := Total(rows, Saving);
    Summary(income, expense, saving, income - expense, income - expense - saving)
  }

  lemma {:induction false} SumAmountsAppend(a: seq<Transaction>, b: seq<Transaction>)
    ensures SumAmounts(a + b) == SumAmounts(a) + SumAmounts(b)
    decreases |a|
  {
    if a == [] {
      assert a + b == b;
    } else {
      assert (a + b)[1..] == a[1..] + b;
      SumAmountsAppend(a[1..], b);
    }
  }

  lemma {:induction false} KindSumAppend(a: seq<Transaction>, b: seq<Transaction>, t: TxType)
    ensures KindSum(a + b, t) == KindSum(a, t) + KindSum(b, t)
    decreases |a|
  {
    if a == [] {
      assert a + b == b;
    } else {
      assert (a + b)[1..] == a[1..] + b;
      KindSumAppend(a[1..], b, t);
    }
  }

  /** Filtering then summing agrees with the single-pass definition. */
  lemma {:induction false} FilterSumIsKindSum(rows: seq<Transaction>, t: TxType)
    ensures SumAmounts(OfKind(rows, t)) == KindSum(rows, t)
    decreases |rows|
  {
    if rows != [] {
      var head := if rows[0].kind == t then [rows[0]] else [];
      SumAmountsAppend(head, OfKind(rows[1..], t));
      FilterSumIsKindSum(rows[1..], t);
    }
  }

  /** Appending one row changes only the total of that row's type, by its amount. */
  lemma TotalAfterAppend(rows: seq<Transaction>, x: Transaction, t: TxType)
    ensures Total(rows + [x], t) == Total(rows, t) + (if x.kind == t then x.amount else 0)
  {
    KindSumAppend(rows, [x], t);
    assert [x][1..] == [];
  }

  /** Taking one row out of a sequence takes its contribution out of the per-type sum. */
  lemma KindSumRemove(b: seq<Transaction>, i: nat, t: TxType)
    requires i < |b|
    ensures KindSum(b, t) == Contribution(b[i], t) + KindSum(b[..i] + b[i + 1..], t)
  {
    assert b == b[..i] + ([b[i]] + b[i + 1..]);
    KindSumAppend(b[..i], [b[i]] + b[i + 1..], t);
    KindSumAppend(b[..i], b[i + 1..], t);
    assert ([b[i]] + b[i + 1..])[1..] == b[i + 1..];
  }

  lemma MultisetRemove(b: seq<Transaction>, i: nat)
    requires i < |b|
    ensures multiset(b[..i] + b[i + 1..]) == multiset(b) - multiset{b[i]}
  {
    assert b == b[..i] + [b[i]] + b[i + 1..];
  }

  /** A per-type sum does not depend on the order of the rows. */
  lemma {:induction false} KindSumPermutation(a: seq<Transaction>, b: seq<Transaction>, t: TxType)
    requires multiset(a) == multiset(b)
    ensures KindSum(a, t) == KindSum(b, t)
    decreases |a|
  {
    if a == [] {
      assert |b| == |multiset(b)| == 0;
    } else {
      var x := a[0];
      assert x in multiset(a);
      var i := IndexIn(b, x);
      var rest := b[..i] + b[i + 1..];
      assert multiset(a[1..]) == multiset(rest) by {
        MultisetRemove(b, i);
        assert a == [x] + a[1..];
        assert multiset(a) == multiset{x} + multiset(a[1..]);
      }
      KindSumPermutation(a[1..], rest, t);
      KindSumRemove(b, i, t);
    }
  }

  /** A position of `x` in `b`. */
  lemma IndexIn(b: seq<Transaction>, x: Transaction) returns (i: nat)
    requires x in multiset(b)
    ensures i < |b| && b[i] == x
  {
    i :| 0 <= i < |b| && b[i] == x;
  }

  lemma TotalPermutation(a: seq<Transaction>, b: seq<Transaction>, t: TxType)
    requires multiset(a) == multiset(b)
    ensures Total(a, t) == Total(b, t)
  {
    KindSumPermutation(a, b, t);
  }

  /** Reordering the rows leaves every figure of the summary unchanged. */
  lemma SummarizePermutation(a: seq<Transaction>, b: seq<Transaction>)
    requires multiset(a) == multiset(b)
    ensures Summarize(a) == Summarize(b)
  {
    TotalPermutation(a, b, Income);
    TotalPermutation(a, b, Expense);
    TotalPermutation(a, b, Saving);
  }

  /** Each row is counted in exactly one of the three type totals. */
  lemma {:induction false} TotalsPartition(rows: seq<Transaction>)
    ensures Total(rows, Income) + Total(rows, Expense) + Total(rows, Saving) == SumAmounts(rows)
    decreases |rows|
  {
    KindSumsPartition(rows);
  }

  lemma {:induction false} KindSumsPartition(rows: seq<Transaction>)
    ensures KindSum(rows, Income) + KindSum(rows, Expense) + KindSum(rows, Saving) == SumAmounts(rows)
    decreases |rows|
  {
    if rows != [] {
      KindSumsPartition(rows[1..]);
    }
  }

  /** With positive amounts, a type total is never negative, and is positive exactly when a row of that type exists. */
  lemma {:induction false} TotalSign(rows: seq<Transaction>, t: TxType)
    requires AllPositive(rows)
    ensures Total(rows, t) >= 0
    ensures Total(rows, t) > 0 <==> exists i :: 0 <= i < |rows| && rows[i].kind == t
    decreases |rows|
  {
    KindSumSign(rows, t);
  }

  lemma {:induction false} KindSumSign(rows: seq<Transaction>, t: TxType)
    requires AllPositive(rows)
    ensures KindSum(rows, t) >= 0
    ensures KindSum(rows, t) > 0 <==> exists i :: 0 <= i < |rows| && rows[i].kind == t
    decreases |rows|
  {
    if rows != [] {
      KindSumSign(rows[1..], t);
      if rows[0].kind != t && KindSum(rows, t) > 0 {
        var i :| 0 <= i < |rows[1..]| && rows[1..][i].kind == t;
        assert rows[i + 1].kind == t;
      }
      if exists i :: 0 <= i < |rows| && rows[i].kind == t {
        var i :| 0 <= i < |rows| && rows[i].kind == t;
        if i > 0 {
          assert rows[1..][i - 1].kind == t;
        }
      }
    }
  }
}
