/**
 * The first pass of `calculate_growth_metrics`: every row is filed under its
 * period key, "overall" rows summing their four counts per period and
 * "manufacturer" rows summing registrations per (period, manufacturer).
 * The key function is `MonthOf` for the monthly buckets and `QuarterOf`
 * for the quarterly ones.
 */
module Buckets {
  import opened Periods
  import opened Registrations
  import opened Tally

  /** Some "overall" row falls in period `k`. */
  predicate HasOverall(rows: seq<Row>, key: Date -> Period, k: Period) {
    exists i :: 0 <= i < |rows| && rows[i].Overall? && key(rows[i].date) == k
  }

  /** Some "manufacturer" row of manufacturer `m` falls in period `k`. */
  predicate HasManufacturer(rows: seq<Row>, key: Date -> Period, k: Period, m: string) {
    exists i :: 0 <= i < |rows| && rows[i].Manufacturer? && key(rows[i].date) == k && rows[i].manufacturer == m
  }

  lemma HasOverallSnoc(rows: seq<Row>, key: Date -> Period, k: Period)
    requires |rows| > 0
    ensures HasOverall(rows, key, k) <==>
      HasOverall(rows[..|rows| - 1], key, k) || (rows[|rows| - 1].Overall? && key(rows[|rows| - 1].date) == k)
  {
    var init := rows[..|rows| - 1];
    if HasOverall(init, key, k) {
      var i :| 0 <= i < |init| && init[i].Overall? && key(init[i].date) == k;
      assert rows[i] == init[i];
    }
  }

  lemma HasManufacturerSnoc(rows: seq<Row>, key: Date -> Period, k: Period, m: string)
    requires |rows| > 0
    ensures HasManufacturer(rows, key, k, m) <==>
      HasManufacturer(rows[..|rows| - 1], key, k, m) ||
      (rows[|rows| - 1].Manufacturer? && key(rows[|rows| - 1].date) == k && rows[|rows| - 1].manufacturer == m)
  {
    var init := rows[..|rows| - 1];
    if HasManufacturer(init, key, k, m) {
      var i :| 0 <= i < |init| && init[i].Manufacturer? && key(init[i].date) == k && init[i].manufacturer == m;
      assert rows[i] == init[i];
    }
  }

  /** The four counts summed over the "overall" rows of period `k`; all zero when there are none. */
  function OverallSum(rows: seq<Row>, key: Date -> Period, k: Period): (s: Counts)
    ensures !HasOverall(rows, key, k) ==> s == Zero
  {
    if |rows| == 0 then Zero
    else
      var last := rows[|rows| - 1];
      var s := OverallSum(rows[..|rows| - 1], key, k);
      HasOverallSnoc(rows, key, k);
      if last.Overall? && key(last.date) == k then Add(s, last.counts) else s
  }

  /** Registrations summed over the "manufacturer" rows of manufacturer `m` in period `k`. */
  function ManufacturerSum(rows: seq<Row>, key: Date -> Period, k: Period, m: string): int {
    if |rows| == 0 then 0
    else
      var last := rows[|rows| - 1];
      var s := ManufacturerSum(rows[..|rows| - 1], key, k, m);
      if last.Manufacturer? && key(last.date) == k && last.manufacturer == m then s + last.registrations else s
  }

  /** Registrations summed over every "manufacturer" row of period `k`. */
  function ManufacturerTotal(rows: seq<Row>, key: Date -> Period, k: Period): int {
    if |rows| == 0 then 0
    else
      var last := rows[|rows| - 1];
      var s := ManufacturerTotal(rows[..|rows| - 1], key, k);
      if last.Manufacturer? && key(last.date) == k then s + last.registrations else s
  }

  /**
   * `vehicle_type_data[key][col] += entry[col]` for every "overall" row: one
   * bucket per period that has an "overall" row, holding that period's sums.
   */
  function OverallBuckets(rows: seq<Row>, key: Date -> Period): (b: map<Period, Counts>)
    ensures forall k :: k in b <==> HasOverall(rows, key, k)
    ensures forall k :: k in b ==> b[k] == OverallSum(rows, key, k)
  {
    if |rows| == 0 then map[]
    else
      var b0 := OverallBuckets(rows[..|rows| - 1], key);
      var last := rows[|rows| - 1];
      assert forall k :: HasOverall(rows, key, k) <==>
        HasOverall(rows[..|rows| - 1], key, k) || (last.Overall? && key(last.date) == k) by {
        forall k ensures HasOverall(rows, key, k) <==>
          HasOverall(rows[..|rows| - 1], key, k) || (last.Overall? && key(last.date) == k) {
          HasOverallSnoc(rows, key, k);
        }
      }
      if last.Overall? then
        var k := key(last.date);
        b0[k := Add(if k in b0 then b0[k] else Zero, last.counts)]
      else b0
  }

  /** The tally of a period, read like a defaultdict: empty when the period has none. */
  function TallyAt(b: map<Period, seq<Entry<string>>>, k: Period): seq<Entry<string>> {
    if k in b then b[k] else []
  }

  /** `b` holds, per period, the tally of the "manufacturer" rows of `rows`. */
  ghost predicate TalliesRows(rows: seq<Row>, key: Date -> Period, b: map<Period, seq<Entry<string>>>) {
    && (forall k :: Wf(TallyAt(b, k)))
    && (forall k, m :: Has(TallyAt(b, k), m) <==> HasManufacturer(rows, key, k, m))
    && (forall k, m :: Get(TallyAt(b, k), m) == ManufacturerSum(rows, key, k, m))
    && (forall k :: Total(TallyAt(b, k)) == ManufacturerTotal(rows, key, k))
  }

  /** Files one row: a "manufacturer" row bumps its manufacturer in its period's tally. */
  function FileManufacturer(b: map<Period, seq<Entry<string>>>, row: Row, key: Date -> Period)
    : map<Period, seq<Entry<string>>>
  {
    if row.Manufacturer? then
      var k := key(row.date);
      b[k := Bump(TallyAt(b, k), row.manufacturer, row.registrations)]
    else b
  }

  /** After filing the last row, the tally of period `k` repeats no manufacturer and sums that period's rows. */
  lemma FilePeriod(rows: seq<Row>, key: Date -> Period, b0: map<Period, seq<Entry<string>>>, k: Period)
    requires |rows| > 0 && TalliesRows(rows[..|rows| - 1], key, b0)
    ensures var t := TallyAt(FileManufacturer(b0, rows[|rows| - 1], key), k);
      Wf(t) && Total(t) == ManufacturerTotal(rows, key, k)
  {
    var last := rows[|rows| - 1];
    if !(last.Manufacturer? && key(last.date) == k) {
      assert TallyAt(FileManufacturer(b0, last, key), k) == TallyAt(b0, k);
    }
  }

  /** After filing the last row, manufacturer `m` is in period `k`'s tally iff it has rows there, with their sum. */
  lemma FileEntry(rows: seq<Row>, key: Date -> Period, b0: map<Period, seq<Entry<string>>>, k: Period, m: string)
    requires |rows| > 0 && TalliesRows(rows[..|rows| - 1], key, b0)
    ensures var t := TallyAt(FileManufacturer(b0, rows[|rows| - 1], key), k);
      && (Has(t, m) <==> HasManufacturer(rows, key, k, m))
      && Get(t, m) == ManufacturerSum(rows, key, k, m)
  {
    var last := rows[|rows| - 1];
    HasManufacturerSnoc(rows, key, k, m);
    if !(last.Manufacturer? && key(last.date) == k) {
      assert TallyAt(FileManufacturer(b0, last, key), k) == TallyAt(b0, k);
    }
  }

  /** Filing the last row extends the tallies of the earlier rows to the tallies of all rows. */
  lemma FileManufacturerStep(rows: seq<Row>, key: Date -> Period, b0: map<Period, seq<Entry<string>>>)
    requires |rows| > 0 && TalliesRows(rows[..|rows| - 1], key, b0)
    ensures TalliesRows(rows, key, FileManufacturer(b0, rows[|rows| - 1], key))
  {
    var b := FileManufacturer(b0, rows[|rows| - 1], key);
    forall k ensures Wf(TallyAt(b, k)) && Total(TallyAt(b, k)) == ManufacturerTotal(rows, key, k) {
      FilePeriod(rows, key, b0, k);
    }
    forall k, m
      ensures Has(TallyAt(b, k), m) <==> HasManufacturer(rows, key, k, m)
      ensures Get(TallyAt(b, k), m) == ManufacturerSum(rows, key, k, m)
    {
      FileEntry(rows, key, b0, k, m);
    }
  }

  /**
   * `manufacturer_data[key][mfg]["registrations"] += entry["registrations"]`
   * for every "manufacturer" row: per period, a tally of manufacturers in
   * first-appearance order.
   */
  function ManufacturerBuckets(rows: seq<Row>, key: Date -> Period): (b: map<Period, seq<Entry<string>>>)
    ensures TalliesRows(rows, key, b)
  {
    if |rows| == 0 then map[]
    else
      var b0 := ManufacturerBuckets(rows[..|rows| - 1], key);
      FileManufacturerStep(rows, key, b0);
      FileManufacturer(b0, rows[|rows| - 1], key)
  }
}
