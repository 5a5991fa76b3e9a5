/** One row of the ledger. */
module Entries {
  import opened Dates
  import opened Categories

  /** A stored transaction; `amount` is in integer cents. */
  datatype Transaction = Transaction(date: Date, kind: TxType, category: Category, amount: int, note: string)

  /** Every row has a positive amount. */
  ghost predicate AllPositive(rows: seq<Transaction>) {
    forall i :: 0 <= i < |rows| ==> rows[i].amount > 0
  }
}
