/**
  Show start times. A timestamp is kept as its six calendar fields (what the
  `'%Y-%m-%d %H:%M:%S'` form field carries) and compared lexicographically, which
  is how two naive datetimes compare once both are tagged with the same zone.
 */
module Timestamps {

  datatype Timestamp = Timestamp(year: int, month: int, day: int, hour: int, minute: int, second: int)

  /** The calendar date of a timestamp: what `datetime.date()` keeps. */
  datatype Date = Date(year: int, month: int, day: int)

  function DateOf(t: Timestamp): Date
  {
    Date(t.year, t.month, t.day)
  }

  /** Strict lexicographic order on (year, month, day, hour, minute, second). */
  predicate Before(a: Timestamp, b: Timestamp)
  {
    if a.year != b.year then a.year < b.year
    else if a.month != b.month then a.month < b.month
    else if a.day != b.day then a.day < b.day
    else if a.hour != b.hour then a.hour < b.hour
    else if a.minute != b.minute then a.minute < b.minute
    else a.second < b.second
  }

  /** Exactly one of a < b, a == b, b < a holds: the order is a strict total order. */
  lemma Trichotomy(a: Timestamp, b: Timestamp)
    ensures Before(a, b) || a == b || Before(b, a)
    ensures !(Before(a, b) && Before(b, a))
    ensures !Before(a, a)
  {
  }

  lemma BeforeTransitive(a: Timestamp, b: Timestamp, c: Timestamp)
    requires Before(a, b) && Before(b, c)
    ensures Before(a, c)
  {
  }
}
