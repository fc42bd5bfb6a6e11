/**
 * Calendar periods used as bucket keys: month keys ("YYYY-MM") and quarter
 * keys ("YYYY-Qn"), both held as a (year, index) pair.
 */
module Periods {
  import opened Sorting

  /** A calendar month number, 1 for January through 12 for December. */
  type MonthNumber = m: int | 1 <= m <= 12 witness 1

  /**
   * A month key has `index` 1..12, a quarter key has `index` 1..4.
   * For four-digit years, comparing month keys as zero-padded "YYYY-MM"
   * strings is the same as comparing these pairs; quarter keys are sorted
   * numerically by (year, quarter).
   */
  datatype Period = Period(year: int, index: int)

  /** `a` comes strictly before `b`: earlier year, or same year and lower index. */
  predicate Before(a: Period, b: Period) {
    a.year < b.year || (a.year == b.year && a.index < b.index)
  }

  lemma BeforeIsStrictTotalOrder()
    ensures StrictTotalOrder(Before)
  {
  }

  /** The quarter of a month in a given year, `year-Q((month - 1) // 3 + 1)`. */
  function QuarterKey(year: int, month: MonthNumber): (q: Period)
    ensures q.year == year
    ensures 1 <= q.index <= 4
    ensures 3 * (q.index - 1) < month <= 3 * q.index
  {
    Period(year, (month - 1) / 3 + 1)
  }

  /**
   * Two months of one year get the same quarter key exactly when they lie in
   * the same block of months 1-3, 4-6, 7-9 or 10-12, that is, on the same
   * side of each of the three quarter boundaries.
   */
  lemma QuarterKeyGroupsMonths(year: int, m1: MonthNumber, m2: MonthNumber)
    ensures QuarterKey(year, m1) == QuarterKey(year, m2) <==>
      && (m1 <= 3 <==> m2 <= 3)
      && (m1 <= 6 <==> m2 <= 6)
      && (m1 <= 9 <==> m2 <= 9)
  {
  }

  /** The same month one year earlier: the key `f"{year - 1}-{month:02d}"`. */
  function PrevYear(k: Period): (p: Period)
    ensures p.index == k.index && p.year + 1 == k.year
    ensures Before(p, k)
  {
    Period(k.year - 1, k.index)
  }
}
