/** Dates and periods of dates. A date is the number of its day, counted from 1970-01-01. */
module Dates {

  /** The days of the years -9999 to 9999, the range of dates of the time library. */
  const FIRST_DAY: int := -4371587
  const LAST_DAY: int := 2932896

  type Day = d: int | FIRST_DAY <= d <= LAST_DAY witness 0

  /** The days from the first of the year 1 to the first of that year, by the rules of the Gregorian calendar. */
  function DaysBefore(year: int): int {
    365 * (year - 1) + (year - 1) / 4 - (year - 1) / 100 + (year - 1) / 400
  }

  /** The range is the one from the first day of the year -9999 to the last of the year 9999. */
  lemma RangeOfDays()
    ensures FIRST_DAY == DaysBefore(-9999) - DaysBefore(1970)
    ensures LAST_DAY == DaysBefore(10_000) - DaysBefore(1970) - 1
  {}

  /** Both ends belong to the period. */
  datatype DateRange = DateRange(start: Day, end: Day) {
    predicate Valid() { start <= end }

    predicate Contains(day: int) { start <= day <= end }

    function DayCount(): nat
      requires Valid()
    {
      end - start + 1
    }
  }
}
