/**
 * Calendar values: the date part of a sale's timestamp, the timestamp
 * itself, and the year-month bucket used for the monthly series.
 */
module Calendar {
  import opened Ordering

  datatype Date = Date(year: int, month: int, day: int)

  /** A sale timestamp: its calendar date and the second within that day. */
  datatype DateTime = DateTime(date: Date, secondOfDay: nat)

  /** A calendar month; stands for the "YYYY-MM" text of a monthly period. */
  datatype YearMonth = YearMonth(year: int, month: int)

  /** Chronological order of dates. */
  predicate DateLeq(a: Date, b: Date) {
    a.year < b.year || (a.year == b.year && (a.month < b.month || (a.month == b.month && a.day <= b.day)))
  }

  /**
   * Chronological order of months. For four-digit years it coincides with
   * the order of their "YYYY-MM" texts.
   */
  predicate YearMonthLeq(a: YearMonth, b: YearMonth) {
    a.year < b.year || (a.year == b.year && a.month <= b.month)
  }

  /** The monthly period a timestamp falls in. */
  function MonthOf(t: DateTime): (m: YearMonth)
    ensures m.year == t.date.year && m.month == t.date.month
  {
    YearMonth(t.date.year, t.date.month)
  }

  lemma YearMonthIsTotalOrder()
    ensures IsTotalOrder(YearMonthLeq)
  {
  }

  /** Bucketing by month is monotone: a later date never falls in an earlier month. */
  lemma MonthOfMonotone(a: DateTime, b: DateTime)
    requires DateLeq(a.date, b.date)
    ensures YearMonthLeq(MonthOf(a), MonthOf(b))
  {
  }
}
