/**
 * `generate_synthetic_data`: per day, one "overall" row splitting a random
 * daily total into two-, three- and four-wheelers, then "manufacturer" rows
 * sharing the four-wheeler count among eight manufacturers. Random draws are
 * parameters: the two shares are reals in their uniform ranges, and every
 * `random.randint` / `random.choice` is an arbitrary integer folded into
 * its range by `RandInt`.
 */
module Synthetic {
  import opened Periods
  import opened Registrations
  import opened Tally
  import opened Buckets

  const Manufacturers: seq<string> :=
    ["Maruti Suzuki", "Hyundai", "Tata Motors", "Mahindra", "Honda", "Toyota", "Kia", "MG Motor"]

  /** `random.randint(lo, hi)` for an arbitrary draw `x`. */
  function RandInt(x: int, lo: int, hi: int): (r: int)
    requires lo <= hi
    ensures lo <= r <= hi
  {
    lo + x % (hi - lo + 1)
  }

  /** Every value in range is the result of some draw, so folding loses no behaviour. */
  lemma RandIntReachesAll(v: int, lo: int, hi: int)
    requires lo <= v <= hi
    ensures RandInt(v - lo, lo, hi) == v
  {
  }

  /** Python's `int(x)` on a float: truncation toward zero. */
  function Trunc(x: real): (n: int)
    ensures x >= 0.0 ==> n as real <= x < n as real + 1.0
    ensures x < 0.0 ==> n as real - 1.0 < x <= n as real
  {
    if x >= 0.0 then x.Floor else -((-x).Floor)
  }

  function Max0(n: int): int {
    if n < 0 then 0 else n
  }

  function Min(a: int, b: int): int {
    if a < b then a else b
  }

  lemma ScaleBetween(t: real, s: real, lo: real, hi: real)
    requires t >= 0.0 && lo <= s <= hi
    ensures t * lo <= t * s <= t * hi
  {
  }

  /** Truncated shares of at most 75% and 10% leave a positive remainder. */
  lemma SharesLeaveFourWheelers(two: int, three: int, total: int)
    requires total >= 1000
    requires two as real <= total as real * 0.75
    requires three as real <= total as real * 0.1
    ensures two + three < total
  {
  }

  /** The random inputs of one day. */
  datatype DayDraw = DayDraw(dailyTotal: int, twoShare: real, threeShare: real, picks: nat -> int)

  /** The ranges of `randint(1000, 5000)`, `uniform(0.6, 0.75)` and `uniform(0.05, 0.1)`. */
  predicate ValidDraw(d: DayDraw) {
    1000 <= d.dailyTotal <= 5000 && 0.6 <= d.twoShare <= 0.75 && 0.05 <= d.threeShare <= 0.1
  }

  /** The truncated share of a non-negative total is non-negative and at most the total's upper share. */
  lemma TruncShare(total: int, share: real, lo: real, hi: real)
    requires total >= 0 && 0.0 <= lo <= share <= hi
    ensures 0 <= Trunc(total as real * share)
    ensures Trunc(total as real * share) as real <= total as real * hi
  {
    ScaleBetween(total as real, share, lo, hi);
  }

  /** Within the share ranges both truncated shares are non-negative and leave a positive remainder. */
  lemma SharesInRange(dailyTotal: int, twoShare: real, threeShare: real)
    requires 1000 <= dailyTotal <= 5000
    requires 0.6 <= twoShare <= 0.75 && 0.05 <= threeShare <= 0.1
    ensures var two := Trunc(dailyTotal as real * twoShare);
      var three := Trunc(dailyTotal as real * threeShare);
      0 <= two && 0 <= three && two + three < dailyTotal
  {
    TruncShare(dailyTotal, twoShare, 0.6, 0.75);
    TruncShare(dailyTotal, threeShare, 0.05, 0.1);
    SharesLeaveFourWheelers(Trunc(dailyTotal as real * twoShare), Trunc(dailyTotal as real * threeShare), dailyTotal);
  }

  /**
   * The vehicle-type split of one day. Two- and three-wheelers are the
   * truncated shares of the daily total, four-wheelers the rest; within the
   * share ranges no count is negative, so the clamps to zero never fire and
   * the three counts add up to the total.
   */
  function SplitDay(dailyTotal: int, twoShare: real, threeShare: real): (c: Counts)
    requires 1000 <= dailyTotal <= 5000
    requires 0.6 <= twoShare <= 0.75 && 0.05 <= threeShare <= 0.1
    ensures c.total == dailyTotal
    ensures c.twoW == Trunc(dailyTotal as real * twoShare)
    ensures c.threeW == Trunc(dailyTotal as real * threeShare)
    ensures c.twoW + c.threeW + c.fourW == c.total
    ensures 0 <= c.twoW && 0 <= c.threeW && 0 < c.fourW
  {
    var two := Trunc(dailyTotal as real * twoShare);
    var three := Trunc(dailyTotal as real * threeShare);
    SharesInRange(dailyTotal, twoShare, threeShare);
    Counts(Max0(two), Max0(three), Max0(dailyTotal - two - three), dailyTotal)
  }

  /**
   * The manufacturer distribution of one day's four-wheelers:
   * a bounded random amount for each manufacturer in turn while any remain,
   * then random amounts of 1..200 to random manufacturers until none remain.
   * The result lists each manufacturer at most once, in first-assignment
   * order, with non-negative counts that add up exactly to the four-wheelers;
   * the final adjustment therefore never changes anything.
   */
  method DistributeFourWheelers(fourWheelers: int, picks: nat -> int) returns (t: seq<Entry<string>>)
    requires fourWheelers >= 0
    ensures Wf(t)
    ensures Total(t) == fourWheelers
    ensures forall j :: 0 <= j < |t| ==> t[j].count >= 0 && t[j].key in Manufacturers
  {
    t := [];
    var remaining := fourWheelers;
    var basePerManufacturer := Max0(remaining / |Manufacturers| / 2);
    var n := 0;
    var i := 0;
    while i < |Manufacturers|
      invariant 0 <= i <= |Manufacturers|
      invariant Wf(t) && 0 <= remaining && Total(t) + remaining == fourWheelers
      invariant forall m :: Has(t, m) ==> m in Manufacturers && Get(t, m) >= 0
    {
      if remaining <= 0 {
        break;
      }
      var assign := RandInt(picks(n), 0, Min(basePerManufacturer, remaining));
      n := n + 1;
      t := Bump(t, Manufacturers[i], assign);
      remaining := remaining - assign;
      i := i + 1;
    }
    while remaining > 0
      invariant Wf(t) && 0 <= remaining && Total(t) + remaining == fourWheelers
      invariant forall m :: Has(t, m) ==> m in Manufacturers && Get(t, m) >= 0
      decreases remaining
    {
      var m := Manufacturers[RandInt(picks(n), 0, |Manufacturers| - 1)];
      var assign := RandInt(picks(n + 1), 1, Min(remaining, 200));
      n := n + 2;
      t := Bump(t, m, assign);
      remaining := remaining - assign;
    }
    var diff := fourWheelers - Total(t);
    if diff != 0 && |t| > 0 {
      assert false;
    }
    forall j | 0 <= j < |t| ensures t[j].count >= 0 && t[j].key in Manufacturers {
      GetEntry(t, j);
      assert Has(t, t[j].key);
    }
  }

  /** The rows of one day: the "overall" row, then one "manufacturer" row per tallied manufacturer. */
  function DayRows(date: Date, c: Counts, t: seq<Entry<string>>): seq<Row> {
    [Overall(date, c)] + seq(|t|, j requires 0 <= j < |t| => Manufacturer(date, t[j].key, t[j].count))
  }

  /**
   * Under every bucketing, the manufacturer registrations of a period add up
   * to the four-wheelers of its "overall" rows.
   */
  ghost predicate Balanced(rows: seq<Row>) {
    forall key: Date -> Period, k :: ManufacturerTotal(rows, key, k) == OverallSum(rows, key, k).fourW
  }

  lemma {:induction false} TotalSnoc<K>(t: seq<Entry<K>>)
    requires |t| > 0
    ensures Total(t) == Total(t[..|t| - 1]) + t[|t| - 1].count
    decreases |t|
  {
    if |t| > 1 {
      TotalSnoc(t[1..]);
      assert t[1..][..|t[1..]| - 1] == t[..|t| - 1][1..];
    }
  }

  /** The sums over a concatenation are the sums over its parts. */
  lemma {:induction false} SumsAppend(a: seq<Row>, b: seq<Row>, key: Date -> Period, k: Period)
    ensures ManufacturerTotal(a + b, key, k) == ManufacturerTotal(a, key, k) + ManufacturerTotal(b, key, k)
    ensures OverallSum(a + b, key, k) == Add(OverallSum(a, key, k), OverallSum(b, key, k))
    decreases |b|
  {
    if |b| == 0 {
      assert a + b == a;
    } else {
      var ab := a + b;
      assert ab[..|ab| - 1] == a + b[..|b| - 1];
      assert ab[|ab| - 1] == b[|b| - 1];
      SumsAppend(a, b[..|b| - 1], key, k);
    }
  }

  /** The manufacturer rows of one date add up to their tally's total in that date's period. */
  lemma {:induction false} DayManufacturerTotal(date: Date, t: seq<Entry<string>>, key: Date -> Period, k: Period)
    ensures var rs := seq(|t|, j requires 0 <= j < |t| => Manufacturer(date, t[j].key, t[j].count));
      && ManufacturerTotal(rs, key, k) == (if key(date) == k then Total(t) else 0)
      && OverallSum(rs, key, k) == Zero
    decreases |t|
  {
    var rs := seq(|t|, j requires 0 <= j < |t| => Manufacturer(date, t[j].key, t[j].count));
    if |t| > 0 {
      var init := t[..|t| - 1];
      DayManufacturerTotal(date, init, key, k);
      assert rs[..|rs| - 1] == seq(|init|, j requires 0 <= j < |init| => Manufacturer(date, init[j].key, init[j].count));
      TotalSnoc(t);
    }
  }

  lemma DayRowsBalanced(date: Date, c: Counts, t: seq<Entry<string>>)
    requires Total(t) == c.fourW
    ensures Balanced(DayRows(date, c, t))
  {
    var rs := seq(|t|, j requires 0 <= j < |t| => Manufacturer(date, t[j].key, t[j].count));
    forall key: Date -> Period, k
      ensures ManufacturerTotal(DayRows(date, c, t), key, k) == OverallSum(DayRows(date, c, t), key, k).fourW
    {
      SumsAppend([Overall(date, c)], rs, key, k);
      DayManufacturerTotal(date, t, key, k);
      assert [Overall(date, c)][..0] == [];
    }
  }

  /**
   * One day of synthetic data: the "overall" row with the day's split,
   * followed by one "manufacturer" row per manufacturer that received
   * four-wheelers.
   */
  method GenerateDay(date: Date, d: DayDraw) returns (rows: seq<Row>)
    requires ValidDraw(d)
    ensures |rows| > 0 && rows[0] == Overall(date, SplitDay(d.dailyTotal, d.twoShare, d.threeShare))
    ensures forall i :: 1 <= i < |rows| ==>
      rows[i].Manufacturer? && rows[i].date == date &&
      rows[i].registrations >= 0 && rows[i].manufacturer in Manufacturers
    ensures forall i, j :: 1 <= i < j < |rows| ==> rows[i].manufacturer != rows[j].manufacturer
    ensures Balanced(rows)
  {
    var c := SplitDay(d.dailyTotal, d.twoShare, d.threeShare);
    var t := DistributeFourWheelers(c.fourW, d.picks);
    rows := DayRows(date, c, t);
    DayRowsBalanced(date, c, t);
  }

  /**
   * `generate_synthetic_data` over the given days (the dates from start to
   * end), with one draw per day. Every "overall" row splits its total
   * exactly, every manufacturer count is non-negative, and in every period
   * the manufacturer registrations add up to the four-wheelers.
   */
  method GenerateSynthetic(days: seq<Date>, draws: seq<DayDraw>) returns (data: seq<Row>)
    requires |draws| == |days|
    requires forall i :: 0 <= i < |draws| ==> ValidDraw(draws[i])
    ensures forall i :: 0 <= i < |data| && data[i].Overall? ==>
      && data[i].counts.twoW + data[i].counts.threeW + data[i].counts.fourW == data[i].counts.total
      && 1000 <= data[i].counts.total <= 5000
      && data[i].date in days
    ensures forall i :: 0 <= i < |data| && data[i].Manufacturer? ==>
      data[i].registrations >= 0 && data[i].date in days
    ensures forall d :: d in days ==> exists i :: 0 <= i < |data| && data[i].Overall? && data[i].date == d
    ensures Balanced(data)
  {
    data := [];
    var i := 0;
    while i < |days|
      invariant 0 <= i <= |days|
      invariant forall r :: 0 <= r < |data| && data[r].Overall? ==>
        && data[r].counts.twoW + data[r].counts.threeW + data[r].counts.fourW == data[r].counts.total
        && 1000 <= data[r].counts.total <= 5000
        && data[r].date in days
      invariant forall r :: 0 <= r < |data| && data[r].Manufacturer? ==>
        data[r].registrations >= 0 && data[r].date in days
      invariant forall d :: d in days[..i] ==> exists r :: 0 <= r < |data| && data[r].Overall? && data[r].date == d
      invariant Balanced(data)
    {
      var day := GenerateDay(days[i], draws[i]);
      forall key: Date -> Period, k
        ensures ManufacturerTotal(data + day, key, k) == OverallSum(data + day, key, k).fourW
      {
        SumsAppend(data, day, key, k);
      }
      var next := data + day;
      assert forall r :: 0 <= r < |data| ==> next[r] == data[r];
      assert forall r :: |data| <= r < |next| ==> next[r] == day[r - |data|];
      assert next[|data|] == day[0];
      assert days[..i + 1] == days[..i] + [days[i]];
      data := next;
      i := i + 1;
    }
    assert days[..i] == days;
  }
}
