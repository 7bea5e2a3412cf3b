/** Calendar dates as they appear after tolerant parsing. Only the ordering
    matters to the pipeline, so a date is a (year, month, day) triple compared
    lexicographically; whether a triple is a real calendar day is not modelled. */
module Dates {

  datatype Date = Date(year: int, month: int, day: int)

  /** `a` is on or before `b`. */
  predicate Le(a: Date, b: Date) {
    || a.year < b.year
    || (a.year == b.year && a.month < b.month)
    || (a.year == b.year && a.month == b.month && a.day <= b.day)
  }

  lemma LeTransitive(a: Date, b: Date, c: Date)
    requires Le(a, b) && Le(b, c)
    ensures Le(a, c)
  {
  }
}
