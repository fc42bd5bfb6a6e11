/** The rows the aggregation engine consumes. */
module Registrations {
  import opened Periods

  /** A calendar date, already parsed from its "YYYY-MM-DD" text. */
  datatype Date = Date(year: int, month: MonthNumber, day: int)

  /** The four summed columns of an "overall" row: "2W", "3W", "4W" and "total". */
  datatype Counts = Counts(twoW: int, threeW: int, fourW: int, total: int)

  /**
   * One input row, by its "type" field: "overall" carries vehicle-type
   * counts, "manufacturer" carries one manufacturer's registrations, and a
   * row of any other (or no) type carries nothing the engine reads.
   */
  datatype Row =
    | Overall(date: Date, counts: Counts)
    | Manufacturer(date: Date, manufacturer: string, registrations: int)
    | Other(date: Date)

  const Zero := Counts(0, 0, 0, 0)

  function Add(a: Counts, b: Counts): Counts {
    Counts(a.twoW + b.twoW, a.threeW + b.threeW, a.fourW + b.fourW, a.total + b.total)
  }

  /** The month key of a date, `strftime("%Y-%m")`. */
  function MonthOf(d: Date): Period {
    Period(d.year, d.month)
  }

  /** The quarter key of a date, `get_quarter_key(date)`. */
  function QuarterOf(d: Date): Period {
    QuarterKey(d.year, d.month)
  }

  /** The first day of a month key, the "YYYY-MM-01" date the series carry. */
  function MonthStart(k: Period): (d: Date)
    requires 1 <= k.index <= 12
    ensures MonthOf(d) == k && d.day == 1
  {
    Date(k.year, k.index, 1)
  }

  /** The quarter of a month key, read back from its first day as the engine does. */
  function QuarterOfMonth(k: Period): (q: Period)
    requires 1 <= k.index <= 12
    ensures forall d :: MonthOf(d) == k ==> QuarterOf(d) == q
  {
    QuarterOf(MonthStart(k))
  }
}
