/** Calendar dates, compared chronologically as Python's `date` objects are. */
module Dates {

  datatype Date = Date(year: int, month: int, day: int)

  /** `a` is on or before `b`. */
  predicate DateLe(a: Date, b: Date) {
    a.year < b.year
    || (a.year == b.year && (a.month < b.month || (a.month == b.month && a.day <= b.day)))
  }

  lemma DateLeTotal(a: Date, b: Date)
    ensures DateLe(a, b) || DateLe(b, a)
    ensures DateLe(a, b) && DateLe(b, a) ==> a == b
  {
  }
}
