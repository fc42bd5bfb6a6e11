/**
 * `calculate_growth_metrics`: the month-ordered vehicle-type series, the
 * manufacturer series and the summary figures, each month carrying its
 * year-over-year (YoY) and quarter-over-quarter (QoQ) growth in percent.
 * Growth is computed exactly, as a real number.
 */
module Metrics {
  import opened Wrappers
  import opened Sorting
  import opened Periods
  import opened Registrations
  import opened Tally
  import opened Buckets

  /** One month of the vehicle-type series. */
  datatype VehicleTypePoint = VehicleTypePoint(date: Date, counts: Counts, yoyGrowth: real, qoqGrowth: real)

  /** One (month, manufacturer) entry of the manufacturer series. */
  datatype ManufacturerPoint =
    ManufacturerPoint(date: Date, manufacturer: string, registrations: int, yoyGrowth: real, qoqGrowth: real)

  /** The engine's result. */
  datatype Payload = Payload(
    vehicleTypeData: seq<VehicleTypePoint>,
    manufacturerData: seq<ManufacturerPoint>,
    totalRegistrations: int,
    totalYoYGrowth: real,
    totalQoQGrowth: real)

  /** The buckets of the first pass and the sorted month and quarter keys. */
  datatype Aggregates = Aggregates(
    monthly: map<Period, Counts>,
    quarterly: map<Period, Counts>,
    monthlyMfg: map<Period, seq<Entry<string>>>,
    quarterlyMfg: map<Period, seq<Entry<string>>>,
    months: seq<Period>,
    quarters: seq<Period>)

  /** The percentage change from `previous` to `current`, `(current - previous) / previous * 100`. */
  function Growth(current: int, previous: int): (g: real)
    requires previous > 0
    ensures g * previous as real == (current - previous) as real * 100.0
    ensures g > 0.0 <==> current > previous
    ensures g < 0.0 <==> current < previous
  {
    (current - previous) as real / previous as real * 100.0
  }

  /** The keys of the "overall" rows, in row order and with repeats. */
  function OverallKeys(rows: seq<Row>, key: Date -> Period): (ks: seq<Period>)
    ensures forall k :: k in ks <==> HasOverall(rows, key, k)
  {
    if |rows| == 0 then []
    else
      var last := rows[|rows| - 1];
      assert forall k :: HasOverall(rows, key, k) <==>
        HasOverall(rows[..|rows| - 1], key, k) || (last.Overall? && key(last.date) == k) by {
        forall k ensures HasOverall(rows, key, k) <==>
          HasOverall(rows[..|rows| - 1], key, k) || (last.Overall? && key(last.date) == k) {
          HasOverallSnoc(rows, key, k);
        }
      }
      OverallKeys(rows[..|rows| - 1], key) + (if last.Overall? then [key(last.date)] else [])
  }

  /** What the second pass relies on: the key lists list exactly the bucket keys, ascending. */
  ghost predicate Consistent(a: Aggregates) {
    && (forall k :: k in a.months <==> k in a.monthly)
    && SortedBy(a.months, Before)
    && (forall q :: q in a.quarters <==> q in a.quarterly)
    && SortedBy(a.quarters, Before)
    && (forall k :: k in a.monthly ==> 1 <= k.index <= 12 && QuarterOfMonth(k) in a.quarterly)
    && (forall k :: Wf(TallyAt(a.monthlyMfg, k)))
    && (forall q :: Wf(TallyAt(a.quarterlyMfg, q)))
  }

  /** The first pass (the loop over the rows) and the two sorts. */
  function Aggregate(rows: seq<Row>): (a: Aggregates)
    ensures Consistent(a)
  {
    BeforeIsStrictTotalOrder();
    var monthly := OverallBuckets(rows, MonthOf);
    var quarterly := OverallBuckets(rows, QuarterOf);
    var a := Aggregates(
      monthly, quarterly,
      ManufacturerBuckets(rows, MonthOf), ManufacturerBuckets(rows, QuarterOf),
      SortDistinct(OverallKeys(rows, MonthOf), Before),
      SortDistinct(OverallKeys(rows, QuarterOf), Before));
    assert forall k :: k in monthly ==> 1 <= k.index <= 12 && QuarterOfMonth(k) in quarterly by {
      forall k | k in monthly ensures 1 <= k.index <= 12 && QuarterOfMonth(k) in quarterly {
        var i :| 0 <= i < |rows| && rows[i].Overall? && MonthOf(rows[i].date) == k;
        assert QuarterOf(rows[i].date) == QuarterOfMonth(k);
      }
    }
    a
  }

  /** Python's `list.index`: the first position of `x`, or none. */
  function IndexOf(xs: seq<Period>, x: Period): (r: Option<nat>)
    ensures r.None? <==> x !in xs
    ensures r.Some? ==> r.value < |xs| && xs[r.value] == x && x !in xs[..r.value]
  {
    if |xs| == 0 then None
    else if xs[0] == x then Some(0)
    else match IndexOf(xs[1..], x)
      case None => None
      case Some(i) =>
        assert xs[..i + 1] == [xs[0]] + xs[1..][..i];
        Some(i + 1)
  }

  /** The entry just before `q` in the sorted quarter list, when `q` is listed and not first. */
  function PrevQuarter(quarters: seq<Period>, q: Period): (r: Option<Period>)
    ensures r.Some? ==> r.value in quarters
  {
    match IndexOf(quarters, q)
    case None => None
    case Some(i) => if i > 0 then Some(quarters[i - 1]) else None
  }

  /** YoY of a month: against the same month a year earlier when that month's total is positive, else 0. */
  function YoY(a: Aggregates, k: Period): real
    requires k in a.monthly
  {
    var p := PrevYear(k);
    if p in a.monthly && a.monthly[p].total > 0 then Growth(a.monthly[k].total, a.monthly[p].total)
    else 0.0
  }

  /** QoQ of a month: its quarter's total against the previous listed quarter's total when positive, else 0. */
  function QoQ(a: Aggregates, k: Period): real
    requires Consistent(a) && k in a.monthly
  {
    var cq := QuarterOfMonth(k);
    match PrevQuarter(a.quarters, cq)
    case None => 0.0
    case Some(pq) =>
      var prev := a.quarterly[pq].total;
      if prev > 0 then Growth(a.quarterly[cq].total, prev) else 0.0
  }

  function VehiclePoint(a: Aggregates, k: Period): VehicleTypePoint
    requires Consistent(a) && k in a.monthly
  {
    VehicleTypePoint(MonthStart(k), a.monthly[k], YoY(a, k), QoQ(a, k))
  }

  /** One vehicle-type entry per sorted month key. */
  function VehicleTypeSeries(a: Aggregates): (r: seq<VehicleTypePoint>)
    requires Consistent(a)
    ensures |r| == |a.months|
    ensures forall i :: 0 <= i < |r| ==>
      MonthOf(r[i].date) == a.months[i] && r[i].date.day == 1 && r[i].counts == a.monthly[a.months[i]]
  {
    seq(|a.months|, i requires 0 <= i < |a.months| => VehiclePoint(a, a.months[i]))
  }

  /** YoY of manufacturer `m` in month `k` with `regs` registrations. */
  function ManufacturerYoY(a: Aggregates, k: Period, m: string, regs: int): real {
    var prev := TallyAt(a.monthlyMfg, PrevYear(k));
    if Has(prev, m) && Get(prev, m) > 0 then Growth(regs, Get(prev, m)) else 0.0
  }

  /** QoQ of manufacturer `m` in month `k`, against the previous listed quarter. */
  function ManufacturerQoQ(a: Aggregates, k: Period, m: string): real
    requires 1 <= k.index <= 12
  {
    var cq := QuarterOfMonth(k);
    match PrevQuarter(a.quarters, cq)
    case None => 0.0
    case Some(pq) =>
      var prev := TallyAt(a.quarterlyMfg, pq);
      if Has(prev, m) && Get(prev, m) > 0 then Growth(Get(TallyAt(a.quarterlyMfg, cq), m), Get(prev, m))
      else 0.0
  }

  function ManufacturerEntry(a: Aggregates, k: Period, e: Entry<string>): ManufacturerPoint
    requires 1 <= k.index <= 12
  {
    ManufacturerPoint(MonthStart(k), e.key, e.count, ManufacturerYoY(a, k, e.key, e.count), ManufacturerQoQ(a, k, e.key))
  }

  /** `p` is dated the first of its month and carries its manufacturer's tallied count there. */
  ghost predicate TalliedEntry(a: Aggregates, p: ManufacturerPoint) {
    var t := TallyAt(a.monthlyMfg, MonthOf(p.date));
    && p.date.day == 1
    && Has(t, p.manufacturer)
    && p.registrations == Get(t, p.manufacturer)
  }

  /** `p` carries the growth figures the engine computes for its month, manufacturer and count. */
  ghost predicate GrowthOf(a: Aggregates, p: ManufacturerPoint) {
    && 1 <= p.date.month <= 12
    && p.yoyGrowth == ManufacturerYoY(a, MonthOf(p.date), p.manufacturer, p.registrations)
    && p.qoqGrowth == ManufacturerQoQ(a, MonthOf(p.date), p.manufacturer)
  }

  /** The manufacturer entries of one month, one per tally entry, in the tally's first-appearance order. */
  function MonthEntries(a: Aggregates, k: Period): (r: seq<ManufacturerPoint>)
    requires 1 <= k.index <= 12
    ensures |r| == |TallyAt(a.monthlyMfg, k)|
  {
    var t := TallyAt(a.monthlyMfg, k);
    seq(|t|, j requires 0 <= j < |t| => ManufacturerEntry(a, k, t[j]))
  }

  /** The months handed to the second pass are month keys. */
  ghost predicate MonthKeys(months: seq<Period>) {
    forall k :: k in months ==> 1 <= k.index <= 12
  }

  /** The manufacturer entries of the given months, month by month. */
  function ManufacturerSeries(a: Aggregates, months: seq<Period>): seq<ManufacturerPoint>
    requires MonthKeys(months)
  {
    if |months| == 0 then []
    else ManufacturerSeries(a, months[..|months| - 1]) + MonthEntries(a, months[|months| - 1])
  }

  /** Where an entry of the series comes from: tally entry `j` of month `months[mi]`. */
  ghost predicate EntryAt(a: Aggregates, months: seq<Period>, p: ManufacturerPoint, mi: nat, j: nat)
    requires MonthKeys(months)
  {
    && mi < |months|
    && j < |TallyAt(a.monthlyMfg, months[mi])|
    && p == ManufacturerEntry(a, months[mi], TallyAt(a.monthlyMfg, months[mi])[j])
  }

  /** Every entry of the series is some month's tally entry. */
  lemma {:induction false} SeriesLocate(a: Aggregates, months: seq<Period>, i: nat) returns (mi: nat, j: nat)
    requires MonthKeys(months)
    requires i < |ManufacturerSeries(a, months)|
    ensures EntryAt(a, months, ManufacturerSeries(a, months)[i], mi, j)
  {
    var init := months[..|months| - 1];
    var front := ManufacturerSeries(a, init);
    if i < |front| {
      mi, j := SeriesLocate(a, init, i);
      assert init[mi] == months[mi];
    } else {
      mi, j := |months| - 1, i - |front|;
    }
  }

  /**
   * Of two entries of the series, the earlier one comes from an earlier or
   * the same month, and within one month from an earlier tally entry.
   */
  lemma {:induction false} SeriesLocatePair(a: Aggregates, months: seq<Period>, i1: nat, i2: nat)
    returns (m1: nat, j1: nat, m2: nat, j2: nat)
    requires MonthKeys(months)
    requires i1 < i2 < |ManufacturerSeries(a, months)|
    ensures EntryAt(a, months, ManufacturerSeries(a, months)[i1], m1, j1)
    ensures EntryAt(a, months, ManufacturerSeries(a, months)[i2], m2, j2)
    ensures m1 <= m2 && (m1 == m2 ==> j1 < j2)
  {
    var init := months[..|months| - 1];
    var front := ManufacturerSeries(a, init);
    if i2 < |front| {
      m1, j1, m2, j2 := SeriesLocatePair(a, init, i1, i2);
      assert init[m1] == months[m1] && init[m2] == months[m2];
    } else if i1 < |front| {
      m1, j1 := SeriesLocate(a, init, i1);
      assert init[m1] == months[m1];
      m2, j2 := |months| - 1, i2 - |front|;
    } else {
      m1, j1, m2, j2 := |months| - 1, i1 - |front|, |months| - 1, i2 - |front|;
    }
  }

  /** Every tally entry of every given month appears in the series. */
  lemma {:induction false} SeriesFind(a: Aggregates, months: seq<Period>, mi: nat, j: nat) returns (i: nat)
    requires MonthKeys(months)
    requires mi < |months| && j < |TallyAt(a.monthlyMfg, months[mi])|
    ensures i < |ManufacturerSeries(a, months)|
    ensures ManufacturerSeries(a, months)[i] == ManufacturerEntry(a, months[mi], TallyAt(a.monthlyMfg, months[mi])[j])
  {
    var init := months[..|months| - 1];
    var front := ManufacturerSeries(a, init);
    if mi < |months| - 1 {
      assert init[mi] == months[mi];
      i := SeriesFind(a, init, mi, j);
    } else {
      i := |front| + j;
    }
  }

  /** A month's tally entry, as the engine emits it, carries that month, the tallied count and its growth. */
  lemma TallyEntryFaithful(a: Aggregates, k: Period, j: nat)
    requires 1 <= k.index <= 12
    requires Wf(TallyAt(a.monthlyMfg, k)) && j < |TallyAt(a.monthlyMfg, k)|
    ensures var p := ManufacturerEntry(a, k, TallyAt(a.monthlyMfg, k)[j]);
      MonthOf(p.date) == k && TalliedEntry(a, p) && GrowthOf(a, p)
  {
    var t := TallyAt(a.monthlyMfg, k);
    GetEntry(t, j);
    assert Has(t, t[j].key);
  }

  /** Every manufacturer entry belongs to one of the given months and carries that month's tallied count. */
  lemma ManufacturerSeriesCounts(a: Aggregates, months: seq<Period>)
    requires Consistent(a) && MonthKeys(months)
    ensures var r := ManufacturerSeries(a, months);
      forall i :: 0 <= i < |r| ==> MonthOf(r[i].date) in months && TalliedEntry(a, r[i])
  {
    var r := ManufacturerSeries(a, months);
    forall i | 0 <= i < |r| ensures MonthOf(r[i].date) in months && TalliedEntry(a, r[i]) {
      var mi, j := SeriesLocate(a, months, i);
      TallyEntryFaithful(a, months[mi], j);
    }
  }

  /**
   * Given strictly ascending months, the entries are in ascending month
   * order and no (month, manufacturer) pair has two entries.
   */
  lemma ManufacturerSeriesOrdered(a: Aggregates, months: seq<Period>)
    requires Consistent(a) && MonthKeys(months)
    requires SortedBy(months, Before)
    ensures var r := ManufacturerSeries(a, months);
      forall i1, i2 :: 0 <= i1 < i2 < |r| ==>
        && !Before(MonthOf(r[i2].date), MonthOf(r[i1].date))
        && (MonthOf(r[i1].date) != MonthOf(r[i2].date) || r[i1].manufacturer != r[i2].manufacturer)
  {
    var r := ManufacturerSeries(a, months);
    forall i1, i2 | 0 <= i1 < i2 < |r|
      ensures && !Before(MonthOf(r[i2].date), MonthOf(r[i1].date))
              && (MonthOf(r[i1].date) != MonthOf(r[i2].date) || r[i1].manufacturer != r[i2].manufacturer)
    {
      var m1, j1, m2, j2 := SeriesLocatePair(a, months, i1, i2);
      var t := TallyAt(a.monthlyMfg, months[m2]);
      if m1 < m2 {
        assert Before(months[m1], months[m2]);
      } else {
        assert t[j1].key != t[j2].key;
      }
    }
  }

  /** Some entry of `r` is for manufacturer `m` in month `k`. */
  ghost predicate Listed(r: seq<ManufacturerPoint>, k: Period, m: string) {
    exists i :: 0 <= i < |r| && MonthOf(r[i].date) == k && r[i].manufacturer == m
  }

  /** Every manufacturer tallied in one of the given months has an entry. */
  lemma ManufacturerSeriesComplete(a: Aggregates, months: seq<Period>)
    requires Consistent(a) && MonthKeys(months)
    ensures forall k, m :: k in months && Has(TallyAt(a.monthlyMfg, k), m) ==> Listed(ManufacturerSeries(a, months), k, m)
  {
    var r := ManufacturerSeries(a, months);
    forall k, m | k in months && Has(TallyAt(a.monthlyMfg, k), m) ensures Listed(r, k, m) {
      var mi :| 0 <= mi < |months| && months[mi] == k;
      var t := TallyAt(a.monthlyMfg, k);
      var j :| 0 <= j < |t| && t[j].key == m;
      var i := SeriesFind(a, months, mi, j);
      assert MonthOf(r[i].date) == k && r[i].manufacturer == m;
    }
  }

  /** The second pass over the sorted keys, and the summary figures of the latest month. */
  function Assemble(a: Aggregates): Payload
    requires Consistent(a)
  {
    ConsistentMonthKeys(a);
    var vehicle := VehicleTypeSeries(a);
    var manufacturer := ManufacturerSeries(a, a.months);
    if |vehicle| == 0 then Payload(vehicle, manufacturer, 0, 0.0, 0.0)
    else
      var latest := vehicle[|vehicle| - 1];
      Payload(vehicle, manufacturer, latest.counts.total, latest.yoyGrowth, latest.qoqGrowth)
  }

  /** `calculate_growth_metrics(data)`. */
  function CalculateGrowthMetrics(rows: seq<Row>): Payload {
    Assemble(Aggregate(rows))
  }

  lemma ConsistentMonthKeys(a: Aggregates)
    requires Consistent(a)
    ensures MonthKeys(a.months)
  {
  }

  /** The monthly buckets hold exactly the months that have "overall" rows, each with its summed counts. */
  ghost predicate MonthlySummary(rows: seq<Row>, a: Aggregates) {
    && (forall k :: k in a.monthly <==> HasOverall(rows, MonthOf, k))
    && (forall k :: k in a.monthly ==> a.monthly[k] == OverallSum(rows, MonthOf, k))
  }

  /** The quarterly buckets hold exactly the quarters that have "overall" rows, each with its summed counts. */
  ghost predicate QuarterlySummary(rows: seq<Row>, a: Aggregates) {
    && (forall q :: q in a.quarterly <==> HasOverall(rows, QuarterOf, q))
    && (forall q :: q in a.quarterly ==> a.quarterly[q] == OverallSum(rows, QuarterOf, q))
  }

  /** The manufacturer tallies of every month and quarter hold the summed registrations of its manufacturer rows. */
  ghost predicate ManufacturerSummary(rows: seq<Row>, a: Aggregates) {
    && (forall k, m :: Has(TallyAt(a.monthlyMfg, k), m) <==> HasManufacturer(rows, MonthOf, k, m))
    && (forall k, m :: Get(TallyAt(a.monthlyMfg, k), m) == ManufacturerSum(rows, MonthOf, k, m))
    && (forall q, m :: Has(TallyAt(a.quarterlyMfg, q), m) <==> HasManufacturer(rows, QuarterOf, q, m))
    && (forall q, m :: Get(TallyAt(a.quarterlyMfg, q), m) == ManufacturerSum(rows, QuarterOf, q, m))
  }

  /** The first pass summarises the rows. */
  lemma Summaries(rows: seq<Row>) returns (a: Aggregates)
    ensures Consistent(a)
    ensures MonthlySummary(rows, a) && QuarterlySummary(rows, a) && ManufacturerSummary(rows, a)
    ensures CalculateGrowthMetrics(rows) == Assemble(a)
  {
    a := Aggregate(rows);
  }

  /** The sorted month keys are bucket keys. */
  lemma MonthsListed(a: Aggregates)
    requires Consistent(a)
    ensures forall i :: 0 <= i < |a.months| ==> a.months[i] in a.monthly
  {
  }

  /** Some entry of `v` is dated in month `k`. */
  ghost predicate HasMonth(v: seq<VehicleTypePoint>, k: Period) {
    exists i :: 0 <= i < |v| && MonthOf(v[i].date) == k
  }

  /** Vehicle-type entry `i` is the point computed for the `i`-th sorted month key. */
  lemma VehicleEntryOf(a: Aggregates, i: int)
    requires Consistent(a) && 0 <= i < |Assemble(a).vehicleTypeData|
    ensures i < |a.months| && a.months[i] in a.monthly
    ensures Assemble(a).vehicleTypeData[i] == VehiclePoint(a, a.months[i])
  {
    MonthsListed(a);
  }

  /** `v` has one entry per month that has "overall" rows, in strictly ascending month order. */
  ghost predicate VehicleMonths(rows: seq<Row>, v: seq<VehicleTypePoint>) {
    && (forall i, j :: 0 <= i < j < |v| ==> Before(MonthOf(v[i].date), MonthOf(v[j].date)))
    && (forall k :: HasOverall(rows, MonthOf, k) <==> HasMonth(v, k))
  }

  /** The vehicle-type series has an entry for month `k` exactly when `k` has a bucket. */
  lemma VehicleSeriesHasMonth(a: Aggregates, k: Period)
    requires Consistent(a)
    ensures k in a.monthly <==> HasMonth(VehicleTypeSeries(a), k)
  {
    var v := VehicleTypeSeries(a);
    if k in a.monthly {
      assert k in a.months;
      var i :| 0 <= i < |a.months| && a.months[i] == k;
      assert MonthOf(v[i].date) == k;
    }
    if HasMonth(v, k) {
      var i :| 0 <= i < |v| && MonthOf(v[i].date) == k;
      assert a.months[i] in a.months;
    }
  }

  lemma VehicleSeriesMonthsOf(rows: seq<Row>, a: Aggregates)
    requires Consistent(a) && MonthlySummary(rows, a)
    ensures VehicleMonths(rows, Assemble(a).vehicleTypeData)
  {
    var v := Assemble(a).vehicleTypeData;
    assert v == VehicleTypeSeries(a);
    forall k ensures HasOverall(rows, MonthOf, k) <==> HasMonth(v, k) {
      VehicleSeriesHasMonth(a, k);
    }
  }

  lemma VehicleSeriesCountsOf(rows: seq<Row>, a: Aggregates)
    requires Consistent(a) && MonthlySummary(rows, a)
    ensures var v := Assemble(a).vehicleTypeData;
      forall i :: 0 <= i < |v| ==>
        && v[i].date.day == 1
        && HasOverall(rows, MonthOf, MonthOf(v[i].date))
        && v[i].counts == OverallSum(rows, MonthOf, MonthOf(v[i].date))
  {
    MonthsListed(a);
    assert Assemble(a).vehicleTypeData == VehicleTypeSeries(a);
  }

  /**
   * The vehicle-type series has one entry per month that has an "overall"
   * row, in strictly ascending month order.
   */
  lemma VehicleSeriesMonths(rows: seq<Row>)
    ensures VehicleMonths(rows, CalculateGrowthMetrics(rows).vehicleTypeData)
  {
    var a := Summaries(rows);
    VehicleSeriesMonthsOf(rows, a);
  }

  /**
   * Each vehicle-type entry is dated the first of its month and carries the
   * "2W", "3W", "4W" and "total" sums of that month's "overall" rows.
   */
  lemma VehicleSeriesCounts(rows: seq<Row>)
    ensures var v := CalculateGrowthMetrics(rows).vehicleTypeData;
      forall i :: 0 <= i < |v| ==> v[i].date.day == 1 && v[i].counts == OverallSum(rows, MonthOf, MonthOf(v[i].date))
  {
    var a := Summaries(rows);
    VehicleSeriesCountsOf(rows, a);
  }

  /**
   * `e` carries the YoY its month calls for: the change of the month's total
   * against the same month one year earlier, when that month has "overall"
   * rows whose totals sum to a positive number, and 0 otherwise.
   */
  ghost predicate FollowsYoY(rows: seq<Row>, e: VehicleTypePoint) {
    var k := MonthOf(e.date);
    var p := PrevYear(k);
    e.yoyGrowth ==
      if HasOverall(rows, MonthOf, p) && OverallSum(rows, MonthOf, p).total > 0
      then Growth(OverallSum(rows, MonthOf, k).total, OverallSum(rows, MonthOf, p).total)
      else 0.0
  }

  lemma YoYRuleOf(rows: seq<Row>, a: Aggregates)
    requires Consistent(a) && MonthlySummary(rows, a)
    ensures forall e :: e in Assemble(a).vehicleTypeData ==> FollowsYoY(rows, e)
  {
    var v := Assemble(a).vehicleTypeData;
    forall e | e in v ensures FollowsYoY(rows, e) {
      var i :| 0 <= i < |v| && v[i] == e;
      VehicleEntryOf(a, i);
    }
  }

  /** Every vehicle-type entry carries the YoY its month calls for. */
  lemma YoYRule(rows: seq<Row>)
    ensures forall e :: e in CalculateGrowthMetrics(rows).vehicleTypeData ==> FollowsYoY(rows, e)
  {
    var a := Summaries(rows);
    YoYRuleOf(rows, a);
  }

  /**
   * `pq` is the latest quarter before `q` among the quarters that have
   * "overall" rows: the entry before `q` in the sorted quarter list.
   */
  ghost predicate LatestEarlierQuarter(rows: seq<Row>, pq: Period, q: Period) {
    && HasOverall(rows, QuarterOf, pq)
    && Before(pq, q)
    && forall x :: HasOverall(rows, QuarterOf, x) && Before(x, q) ==> !Before(pq, x)
  }

  /** In an ascending list, the entry before `q` is the latest element before `q`; when `q` is first, none is before it. */
  lemma PrevQuarterIsLatestEarlier(xs: seq<Period>, q: Period)
    requires SortedBy(xs, Before) && q in xs
    ensures PrevQuarter(xs, q).Some? ==>
      var p := PrevQuarter(xs, q).value;
      p in xs && Before(p, q) && forall x :: x in xs && Before(x, q) ==> !Before(p, x)
    ensures PrevQuarter(xs, q).None? ==> forall x :: x in xs ==> !Before(x, q)
  {
    var i := IndexOf(xs, q).value;
    forall x | x in xs
      ensures Before(x, q) ==> i > 0 && (x == xs[i - 1] || Before(x, xs[i - 1]))
    {
      var j :| 0 <= j < |xs| && xs[j] == x;
      if j > i {
        assert Before(q, x);
      } else if j + 1 < i {
        assert Before(xs[j], xs[i - 1]);
      }
    }
  }

  /** There is at most one latest earlier quarter. */
  lemma LatestEarlierQuarterUnique(rows: seq<Row>, p1: Period, p2: Period, q: Period)
    requires LatestEarlierQuarter(rows, p1, q) && LatestEarlierQuarter(rows, p2, q)
    ensures p1 == p2
  {
  }

  /** The quarter of an entry's date is the quarter the engine looks up for its month. */
  lemma QuarterOfEntry(a: Aggregates, k: Period)
    requires Consistent(a) && k in a.monthly
    ensures QuarterOf(MonthStart(k)) == QuarterOfMonth(k) && QuarterOfMonth(k) in a.quarters
  {
  }

  /**
   * The quarter the engine compares a month's quarter against is the latest
   * earlier quarter that has "overall" rows; there is none when the lookup
   * finds none.
   */
  lemma PrevQuarterOf(rows: seq<Row>, a: Aggregates, cq: Period)
    requires Consistent(a) && QuarterlySummary(rows, a) && cq in a.quarters
    ensures PrevQuarter(a.quarters, cq).Some? ==>
      var pq := PrevQuarter(a.quarters, cq).value;
      && pq in a.quarterly
      && LatestEarlierQuarter(rows, pq, cq)
      && forall p' :: LatestEarlierQuarter(rows, p', cq) ==> p' == pq
    ensures PrevQuarter(a.quarters, cq).None? ==> forall pq :: !LatestEarlierQuarter(rows, pq, cq)
  {
    PrevQuarterIsLatestEarlier(a.quarters, cq);
    match PrevQuarter(a.quarters, cq)
    case None =>
    case Some(pq) =>
      assert LatestEarlierQuarter(rows, pq, cq);
      forall p' | LatestEarlierQuarter(rows, p', cq) ensures p' == pq {
        LatestEarlierQuarterUnique(rows, p', pq, cq);
      }
  }

  /**
   * `e` carries the QoQ its quarter calls for: the change of the quarter's
   * total against the latest earlier quarter that has "overall" rows, when
   * that quarter's total is positive; 0 when it is not, or when there is no
   * earlier quarter.
   */
  ghost predicate FollowsQoQ(rows: seq<Row>, e: VehicleTypePoint) {
    var cq := QuarterOf(e.date);
    && (forall pq :: LatestEarlierQuarter(rows, pq, cq) ==>
          e.qoqGrowth ==
            if OverallSum(rows, QuarterOf, pq).total > 0
            then Growth(OverallSum(rows, QuarterOf, cq).total, OverallSum(rows, QuarterOf, pq).total)
            else 0.0)
    && ((forall pq :: !LatestEarlierQuarter(rows, pq, cq)) ==> e.qoqGrowth == 0.0)
  }

  /** The QoQ the engine computes for month `k`, stated over the rows. */
  lemma QoQIs(rows: seq<Row>, a: Aggregates, k: Period)
    requires Consistent(a) && QuarterlySummary(rows, a) && k in a.monthly
    ensures FollowsQoQ(rows, VehiclePoint(a, k))
  {
    QuarterOfEntry(a, k);
    var cq := QuarterOfMonth(k);
    PrevQuarterOf(rows, a, cq);
    match PrevQuarter(a.quarters, cq)
    case None =>
    case Some(pq) =>
      assert LatestEarlierQuarter(rows, pq, cq);
  }

  lemma QoQRuleOf(rows: seq<Row>, a: Aggregates)
    requires Consistent(a) && QuarterlySummary(rows, a)
    ensures forall e :: e in Assemble(a).vehicleTypeData ==> FollowsQoQ(rows, e)
  {
    var v := Assemble(a).vehicleTypeData;
    forall e | e in v ensures FollowsQoQ(rows, e) {
      var i :| 0 <= i < |v| && v[i] == e;
      VehicleEntryOf(a, i);
      QoQIs(rows, a, a.months[i]);
    }
  }

  /** Every vehicle-type entry carries the QoQ its quarter calls for. */
  lemma QoQRule(rows: seq<Row>)
    ensures forall e :: e in CalculateGrowthMetrics(rows).vehicleTypeData ==> FollowsQoQ(rows, e)
  {
    var a := Summaries(rows);
    QoQRuleOf(rows, a);
  }

  /** Entries of `v` dated in the same quarter carry the same QoQ. */
  ghost predicate QoQPerQuarter(v: seq<VehicleTypePoint>) {
    forall i, j :: 0 <= i < |v| && 0 <= j < |v| && QuarterOf(v[i].date) == QuarterOf(v[j].date) ==>
      v[i].qoqGrowth == v[j].qoqGrowth
  }

  lemma QoQUniformWithinQuarterOf(a: Aggregates)
    requires Consistent(a)
    ensures QoQPerQuarter(Assemble(a).vehicleTypeData)
  {
    var v := Assemble(a).vehicleTypeData;
    forall i, j | 0 <= i < |v| && 0 <= j < |v| && QuarterOf(v[i].date) == QuarterOf(v[j].date)
      ensures v[i].qoqGrowth == v[j].qoqGrowth
    {
      VehicleEntryOf(a, i);
      VehicleEntryOf(a, j);
    }
  }

  /** All months of one quarter carry the same QoQ growth. */
  lemma QoQUniformWithinQuarter(rows: seq<Row>)
    ensures QoQPerQuarter(CalculateGrowthMetrics(rows).vehicleTypeData)
  {
    var a := Summaries(rows);
    QoQUniformWithinQuarterOf(a);
  }

  /**
   * Every entry of `md` is a month that has "overall" rows and a
   * manufacturer with rows in that month, carrying the summed registrations;
   * entries are in ascending month order; no (month, manufacturer) pair
   * repeats; and every such pair has an entry.
   */
  ghost predicate ManufacturerShape(rows: seq<Row>, md: seq<ManufacturerPoint>) {
    && (forall i :: 0 <= i < |md| ==>
          && md[i].date.day == 1
          && HasOverall(rows, MonthOf, MonthOf(md[i].date))
          && HasManufacturer(rows, MonthOf, MonthOf(md[i].date), md[i].manufacturer)
          && md[i].registrations == ManufacturerSum(rows, MonthOf, MonthOf(md[i].date), md[i].manufacturer))
    && (forall i, j :: 0 <= i < j < |md| ==> !Before(MonthOf(md[j].date), MonthOf(md[i].date)))
    && (forall i, j :: 0 <= i < j < |md| ==>
          MonthOf(md[i].date) != MonthOf(md[j].date) || md[i].manufacturer != md[j].manufacturer)
    && (forall k, m :: HasOverall(rows, MonthOf, k) && HasManufacturer(rows, MonthOf, k, m) ==> Listed(md, k, m))
  }

  lemma ManufacturerSeriesShapeOf(rows: seq<Row>, a: Aggregates)
    requires Consistent(a) && MonthlySummary(rows, a) && ManufacturerSummary(rows, a)
    ensures ManufacturerShape(rows, Assemble(a).manufacturerData)
  {
    ConsistentMonthKeys(a);
    assert Assemble(a).manufacturerData == ManufacturerSeries(a, a.months);
    ManufacturerSeriesCounts(a, a.months);
    ManufacturerSeriesOrdered(a, a.months);
    ManufacturerSeriesComplete(a, a.months);
  }

  /**
   * The manufacturer series: every entry is a month that has "overall" rows
   * and a manufacturer with rows in that month, carrying the summed
   * registrations; entries are in ascending month order; no (month,
   * manufacturer) pair repeats; and every such pair has an entry.
   */
  lemma ManufacturerSeriesShape(rows: seq<Row>)
    ensures ManufacturerShape(rows, CalculateGrowthMetrics(rows).manufacturerData)
  {
    var a := Summaries(rows);
    ManufacturerSeriesShapeOf(rows, a);
  }

  /**
   * `e` carries the YoY its month and manufacturer call for: against the
   * same manufacturer in the same month one year earlier, when it has rows
   * there summing to a positive number; 0 when it is absent there or its sum
   * is not positive.
   */
  ghost predicate FollowsManufacturerYoY(rows: seq<Row>, e: ManufacturerPoint) {
    var p := PrevYear(MonthOf(e.date));
    e.yoyGrowth ==
      if HasManufacturer(rows, MonthOf, p, e.manufacturer) && ManufacturerSum(rows, MonthOf, p, e.manufacturer) > 0
      then Growth(e.registrations, ManufacturerSum(rows, MonthOf, p, e.manufacturer))
      else 0.0
  }

  /** Every manufacturer entry carries the growth its tallies call for. */
  lemma ManufacturerGrowthAll(a: Aggregates)
    requires Consistent(a)
    ensures forall e :: e in Assemble(a).manufacturerData ==> GrowthOf(a, e)
  {
    ConsistentMonthKeys(a);
    var md := Assemble(a).manufacturerData;
    assert md == ManufacturerSeries(a, a.months);
    forall e | e in md ensures GrowthOf(a, e) {
      var i :| 0 <= i < |md| && md[i] == e;
      var mi, j := SeriesLocate(a, a.months, i);
      TallyEntryFaithful(a, a.months[mi], j);
    }
  }

  /** A manufacturer entry with the tallies' YoY has the YoY the rows call for. */
  lemma ManufacturerYoYIs(rows: seq<Row>, a: Aggregates, e: ManufacturerPoint)
    requires ManufacturerSummary(rows, a) && GrowthOf(a, e)
    ensures FollowsManufacturerYoY(rows, e)
  {
    var p := PrevYear(MonthOf(e.date));
    assert Has(TallyAt(a.monthlyMfg, p), e.manufacturer) <==> HasManufacturer(rows, MonthOf, p, e.manufacturer);
    assert Get(TallyAt(a.monthlyMfg, p), e.manufacturer) == ManufacturerSum(rows, MonthOf, p, e.manufacturer);
  }

  lemma ManufacturerYoYRuleOf(rows: seq<Row>, a: Aggregates)
    requires Consistent(a) && ManufacturerSummary(rows, a)
    ensures forall e :: e in Assemble(a).manufacturerData ==> FollowsManufacturerYoY(rows, e)
  {
    ManufacturerGrowthAll(a);
    forall e | e in Assemble(a).manufacturerData ensures FollowsManufacturerYoY(rows, e) {
      ManufacturerYoYIs(rows, a, e);
    }
  }

  /** Every manufacturer entry carries the YoY its month and manufacturer call for. */
  lemma ManufacturerYoYRule(rows: seq<Row>)
    ensures forall e :: e in CalculateGrowthMetrics(rows).manufacturerData ==> FollowsManufacturerYoY(rows, e)
  {
    var a := Summaries(rows);
    ManufacturerYoYRuleOf(rows, a);
  }

  /** Manufacturer entry `i` is a tally entry of a bucketed month, carrying that month's growth figures. */
  lemma ManufacturerEntryOf(a: Aggregates, i: int) returns (k: Period)
    requires Consistent(a) && 0 <= i < |Assemble(a).manufacturerData|
    ensures var e := Assemble(a).manufacturerData[i];
      && k in a.monthly && MonthOf(e.date) == k && QuarterOf(e.date) == QuarterOfMonth(k)
      && e.qoqGrowth == ManufacturerQoQ(a, k, e.manufacturer)
  {
    ConsistentMonthKeys(a);
    assert Assemble(a).manufacturerData == ManufacturerSeries(a, a.months);
    var mi, j := SeriesLocate(a, a.months, i);
    k := a.months[mi];
    TallyEntryFaithful(a, k, j);
    QuarterOfEntry(a, k);
  }

  /**
   * `e` carries the QoQ its quarter and manufacturer call for: its quarter's
   * registrations against the same manufacturer in the latest earlier
   * quarter that has "overall" rows, when it has rows there summing to a
   * positive number; 0 otherwise.
   */
  ghost predicate FollowsManufacturerQoQ(rows: seq<Row>, e: ManufacturerPoint) {
    var m := e.manufacturer;
    var cq := QuarterOf(e.date);
    && (forall pq :: LatestEarlierQuarter(rows, pq, cq) ==>
          e.qoqGrowth ==
            if HasManufacturer(rows, QuarterOf, pq, m) && ManufacturerSum(rows, QuarterOf, pq, m) > 0
            then Growth(ManufacturerSum(rows, QuarterOf, cq, m), ManufacturerSum(rows, QuarterOf, pq, m))
            else 0.0)
    && ((forall pq :: !LatestEarlierQuarter(rows, pq, cq)) ==> e.qoqGrowth == 0.0)
  }

  /** The QoQ the engine computes for manufacturer `m` in month `k`, stated over the rows. */
  lemma ManufacturerQoQIs(rows: seq<Row>, a: Aggregates, k: Period, m: string)
    requires Consistent(a) && QuarterlySummary(rows, a) && ManufacturerSummary(rows, a)
    requires k in a.monthly
    ensures forall e: ManufacturerPoint ::
      MonthOf(e.date) == k && e.manufacturer == m && e.qoqGrowth == ManufacturerQoQ(a, k, m) ==>
      FollowsManufacturerQoQ(rows, e)
  {
    QuarterOfEntry(a, k);
    var cq := QuarterOfMonth(k);
    PrevQuarterOf(rows, a, cq);
    match PrevQuarter(a.quarters, cq)
    case None =>
    case Some(pq) =>
      assert LatestEarlierQuarter(rows, pq, cq);
  }

  lemma ManufacturerQoQRuleOf(rows: seq<Row>, a: Aggregates)
    requires Consistent(a) && QuarterlySummary(rows, a) && ManufacturerSummary(rows, a)
    ensures forall e :: e in Assemble(a).manufacturerData ==> FollowsManufacturerQoQ(rows, e)
  {
    var md := Assemble(a).manufacturerData;
    forall e | e in md ensures FollowsManufacturerQoQ(rows, e) {
      var i :| 0 <= i < |md| && md[i] == e;
      var k := ManufacturerEntryOf(a, i);
      ManufacturerQoQIs(rows, a, k, e.manufacturer);
    }
  }

  /** Every manufacturer entry carries the QoQ its quarter and manufacturer call for. */
  lemma ManufacturerQoQRule(rows: seq<Row>)
    ensures forall e :: e in CalculateGrowthMetrics(rows).manufacturerData ==> FollowsManufacturerQoQ(rows, e)
  {
    var a := Summaries(rows);
    ManufacturerQoQRuleOf(rows, a);
  }

  lemma EmptyPayloadOf(rows: seq<Row>, a: Aggregates)
    requires Consistent(a) && MonthlySummary(rows, a)
    requires forall i :: 0 <= i < |rows| ==> !rows[i].Overall?
    ensures var p := Assemble(a);
      && p.vehicleTypeData == [] && p.manufacturerData == []
      && p.totalRegistrations == 0 && p.totalYoYGrowth == 0.0 && p.totalQoQGrowth == 0.0
  {
    HeadIn(a.months);
    assert |a.months| == 0;
  }

  /** Without "overall" rows both series are empty and every summary figure is zero. */
  lemma EmptyPayload(rows: seq<Row>)
    requires forall i :: 0 <= i < |rows| ==> !rows[i].Overall?
    ensures var p := CalculateGrowthMetrics(rows);
      && p.vehicleTypeData == [] && p.manufacturerData == []
      && p.totalRegistrations == 0 && p.totalYoYGrowth == 0.0 && p.totalQoQGrowth == 0.0
  {
    var a := Summaries(rows);
    EmptyPayloadOf(rows, a);
  }

  /** `k` is the latest month that has "overall" rows. */
  ghost predicate LatestMonth(rows: seq<Row>, k: Period) {
    && HasOverall(rows, MonthOf, k)
    && forall k' :: HasOverall(rows, MonthOf, k') ==> !Before(k, k')
  }

  /** The month list's part of `LastMonthOf`: only the facts about `a.months` it needs. */
  lemma LatestMonthListed(rows: seq<Row>, a: Aggregates, k: Period)
    requires (forall x :: x in a.months <==> x in a.monthly) && SortedBy(a.months, Before)
    requires MonthlySummary(rows, a) && LatestMonth(rows, k)
    ensures |a.months| > 0 && a.months[|a.months| - 1] == k
  {
    forall x | x in a.months ensures !Before(k, x) {
      assert HasOverall(rows, MonthOf, x);
    }
    SortedGreatestIsLast(a.months, Before, k);
  }

  /** The latest month that has "overall" rows is the last sorted month key. */
  lemma LastMonthOf(rows: seq<Row>, a: Aggregates, k: Period)
    requires Consistent(a) && MonthlySummary(rows, a) && LatestMonth(rows, k)
    ensures |a.months| > 0 && a.months[|a.months| - 1] == k
  {
    LatestMonthListed(rows, a, k);
  }

  /** The summary figures of `p` are the total of month `k` and the growth figures of its last vehicle-type entry. */
  ghost predicate LatestFigures(rows: seq<Row>, p: Payload, k: Period) {
    && |p.vehicleTypeData| > 0
    && p.totalRegistrations == OverallSum(rows, MonthOf, k).total
    && p.totalYoYGrowth == p.vehicleTypeData[|p.vehicleTypeData| - 1].yoyGrowth
    && p.totalQoQGrowth == p.vehicleTypeData[|p.vehicleTypeData| - 1].qoqGrowth
  }

  lemma LatestMonthTotalsOf(rows: seq<Row>, a: Aggregates, k: Period)
    requires Consistent(a) && MonthlySummary(rows, a) && LatestMonth(rows, k)
    ensures LatestFigures(rows, Assemble(a), k)
  {
    LastMonthOf(rows, a, k);
    var v := VehicleTypeSeries(a);
    assert Assemble(a).vehicleTypeData == v;
    assert k in a.monthly && a.monthly[k] == OverallSum(rows, MonthOf, k);
    assert v[|v| - 1].counts == a.monthly[k];
  }

  /**
   * The summary figures are those of the latest month that has "overall"
   * rows: `totalRegistrations` is that month's total, not the sum over all
   * months, and the two growth figures are that month's.
   */
  lemma LatestMonthTotals(rows: seq<Row>, k: Period)
    requires LatestMonth(rows, k)
    ensures LatestFigures(rows, CalculateGrowthMetrics(rows), k)
  {
    var a := Summaries(rows);
    LatestMonthTotalsOf(rows, a, k);
  }
}
