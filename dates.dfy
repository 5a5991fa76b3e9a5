/** Calendar dates as the ledger stores them: no time component. */
module Dates {

  /** A calendar date (year, month, day); "today" is always passed in as one of these. */
  datatype Date = Date(year: int, month: int, day: int)

  /** `a` is on or before `b`: years first, then months, then days. */
  predicate NotAfter(a: Date, b: Date) {
    a.year < b.year
    || (a.year == b.year && (a.month < b.month || (a.month == b.month && a.day <= b.day)))
  }

  /** `d` lies in the calendar month and year of `today`. */
  predicate SameMonth(d: Date, today: Date) {
    d.month == today.month && d.year == today.year
  }

  /** Any two dates are comparable. */
  lemma NotAfterTotal(a: Date, b: Date)
    ensures NotAfter(a, b) || NotAfter(b, a)
  {
  }
}
