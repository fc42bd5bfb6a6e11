/**
 * The pure selectors of the dashboard component: the date-range filters,
 * the manufacturer filter, the manufacturer drop-down list, the growth
 * colour and the "All" registrations sum. Dates are compared as day numbers;
 * turning an entry's date into a day number is the `dayOf` parameter.
 */
module Dashboard {
  import opened Wrappers
  import opened Sorting
  import opened Registrations
  import opened Metrics

  /** A picked date range; either end may be unset. */
  datatype DateRange = DateRange(from: Option<int>, to: Option<int>)

  /** The text colour of a growth figure. */
  datatype Color = Green | Red | Gray

  /** What the manufacturer card shows. */
  datatype CardValue = Count(n: int) | NotAvailable

  /** The selection that means every manufacturer. */
  const All := "All"

  /** `xs.filter(keep)`. */
  function Filter<T(!new)>(xs: seq<T>, keep: T -> bool): (r: seq<T>)
    ensures |r| <= |xs|
    ensures forall x :: x in r <==> x in xs && keep(x)
  {
    if |xs| == 0 then []
    else
      var last := xs[|xs| - 1];
      assert forall x :: x in xs <==> x in xs[..|xs| - 1] || x == last by {
        assert xs == xs[..|xs| - 1] + [last];
      }
      Filter(xs[..|xs| - 1], keep) + (if keep(last) then [last] else [])
  }

  /** `idx` lists increasing positions of `xs` whose items make up `r`, among them every kept position. */
  ghost predicate Positions<T>(xs: seq<T>, keep: T -> bool, r: seq<T>, idx: seq<int>) {
    && |idx| == |r|
    && (forall i :: 0 <= i < |idx| ==> 0 <= idx[i] < |xs| && r[i] == xs[idx[i]])
    && SortedBy(idx, (a: int, b: int) => a < b)
    && (forall j :: 0 <= j < |xs| && keep(xs[j]) ==> j in idx)
  }

  /** Positions of a prefix extend to the whole sequence by the last position when its item is kept. */
  lemma PositionsSnoc<T>(xs: seq<T>, keep: T -> bool, r: seq<T>, idx: seq<int>) returns (idx': seq<int>)
    requires |xs| > 0 && Positions(xs[..|xs| - 1], keep, r, idx)
    ensures var n := |xs| - 1;
      Positions(xs, keep, r + (if keep(xs[n]) then [xs[n]] else []), idx')
  {
    var n := |xs| - 1;
    var r' := r + (if keep(xs[n]) then [xs[n]] else []);
    idx' := idx + (if keep(xs[n]) then [n] else []);
    forall i | 0 <= i < |idx'| ensures 0 <= idx'[i] < |xs| && r'[i] == xs[idx'[i]] {
      if i < |idx| {
        assert idx'[i] == idx[i] && r'[i] == r[i];
        assert xs[..n][idx[i]] == xs[idx[i]];
      }
    }
    forall i, j | 0 <= i < j < |idx'| ensures idx'[i] < idx'[j] {
      assert idx'[i] == idx[i];
      if j < |idx| {
        assert idx'[j] == idx[j];
      }
    }
    forall j | 0 <= j < |xs| && keep(xs[j]) ensures j in idx' {
      if j < n {
        assert xs[..n][j] == xs[j];
        assert j in idx;
      } else {
        assert idx'[|idx'| - 1] == n;
      }
    }
  }

  /**
   * The filter keeps order and drops only rejected items: its result is the
   * subsequence of `xs` at the increasing positions `idx`, and every kept
   * item's position is among them.
   */
  lemma {:induction false} FilterIsSubsequence<T(!new)>(xs: seq<T>, keep: T -> bool) returns (idx: seq<int>)
    ensures Positions(xs, keep, Filter(xs, keep), idx)
  {
    if |xs| == 0 {
      idx := [];
    } else {
      var front := FilterIsSubsequence(xs[..|xs| - 1], keep);
      idx := PositionsSnoc(xs, keep, Filter(xs[..|xs| - 1], keep), front);
    }
  }

  /** Filtering twice is filtering once by both conditions. */
  lemma {:induction false} FilterTwice<T(!new)>(xs: seq<T>, p: T -> bool, q: T -> bool, both: T -> bool)
    requires forall x :: both(x) == (p(x) && q(x))
    ensures Filter(Filter(xs, p), q) == Filter(xs, both)
  {
    if |xs| > 0 {
      var n := |xs| - 1;
      FilterTwice(xs[..n], p, q, both);
      var tail := if p(xs[n]) then [xs[n]] else [];
      FilterConcat(Filter(xs[..n], p), tail, q);
      assert Filter(tail, q) == if both(xs[n]) then [xs[n]] else [] by {
        if p(xs[n]) {
          assert tail[..0] == [];
        }
      }
    }
  }

  /** A filter that keeps everything changes nothing. */
  lemma {:induction false} FilterKeepAll<T(!new)>(xs: seq<T>, keep: T -> bool)
    requires forall x :: x in xs ==> keep(x)
    ensures Filter(xs, keep) == xs
  {
    if |xs| > 0 {
      var n := |xs| - 1;
      assert xs[n] in xs;
      assert forall x :: x in xs[..n] ==> x in xs;
      FilterKeepAll(xs[..n], keep);
      assert xs == xs[..n] + [xs[n]];
    }
  }

  lemma {:induction false} FilterConcat<T(!new)>(a: seq<T>, b: seq<T>, keep: T -> bool)
    ensures Filter(a + b, keep) == Filter(a, keep) + Filter(b, keep)
    decreases |b|
  {
    if |b| == 0 {
      assert a + b == a;
    } else {
      var n := |b| - 1;
      assert (a + b)[..|a + b| - 1] == a + b[..n];
      assert (a + b)[|a + b| - 1] == b[n];
      FilterConcat(a, b[..n], keep);
    }
  }

  /** `(!range?.from || day >= range.from) && (!range?.to || day <= range.to)`. */
  predicate InDateRange(range: Option<DateRange>, day: int) {
    match range
    case None => true
    case Some(r) => (r.from.None? || day >= r.from.value) && (r.to.None? || day <= r.to.value)
  }

  /** `filteredVehicleTypeData`: the entries dated inside the range; none before the data arrives. */
  function FilteredVehicleTypeData(data: Option<Payload>, range: Option<DateRange>, dayOf: Date -> int)
    : (r: seq<VehicleTypePoint>)
    ensures data.None? ==> r == []
    ensures data.Some? ==> r == Filter(data.value.vehicleTypeData, (e: VehicleTypePoint) => InDateRange(range, dayOf(e.date)))
    ensures forall e :: e in r <==> data.Some? && e in data.value.vehicleTypeData && InDateRange(range, dayOf(e.date))
  {
    match data
    case None => []
    case Some(p) => Filter(p.vehicleTypeData, (e: VehicleTypePoint) => InDateRange(range, dayOf(e.date)))
  }

  /** Entries inside the range, by the same date test as the vehicle-type filter. */
  function DateFiltered(xs: seq<ManufacturerPoint>, range: Option<DateRange>, dayOf: Date -> int): seq<ManufacturerPoint> {
    Filter(xs, (e: ManufacturerPoint) => InDateRange(range, dayOf(e.date)))
  }

  /**
   * `filteredManufacturerData`: the date-filtered entries, narrowed to the
   * selected manufacturer unless "All" is selected.
   */
  function FilteredManufacturerData(data: Option<Payload>, range: Option<DateRange>, selected: string, dayOf: Date -> int)
    : (r: seq<ManufacturerPoint>)
    ensures data.None? ==> r == []
    ensures data.Some? && selected == All ==> r == DateFiltered(data.value.manufacturerData, range, dayOf)
    ensures forall e :: e in r <==>
      && data.Some? && e in data.value.manufacturerData && InDateRange(range, dayOf(e.date))
      && (selected == All || e.manufacturer == selected)
  {
    match data
    case None => []
    case Some(p) =>
      var filtered := DateFiltered(p.manufacturerData, range, dayOf);
      if selected != All then Filter(filtered, (e: ManufacturerPoint) => e.manufacturer == selected) else filtered
  }

  /** With a manufacturer selected, the two filters act as one order-preserving filter on both conditions. */
  lemma SelectedManufacturerFilter(p: Payload, range: Option<DateRange>, selected: string, dayOf: Date -> int)
    requires selected != All
    ensures FilteredManufacturerData(Some(p), range, selected, dayOf) ==
      Filter(p.manufacturerData, (e: ManufacturerPoint) => InDateRange(range, dayOf(e.date)) && e.manufacturer == selected)
  {
    FilterTwice(p.manufacturerData,
      (e: ManufacturerPoint) => InDateRange(range, dayOf(e.date)),
      (e: ManufacturerPoint) => e.manufacturer == selected,
      (e: ManufacturerPoint) => InDateRange(range, dayOf(e.date)) && e.manufacturer == selected);
  }

  /** An unset range, or one with both ends unset, keeps every entry. */
  lemma NoRangeKeepsAll(p: Payload, range: Option<DateRange>, dayOf: Date -> int)
    requires range.None? || (range.value.from.None? && range.value.to.None?)
    ensures FilteredVehicleTypeData(Some(p), range, dayOf) == p.vehicleTypeData
    ensures FilteredManufacturerData(Some(p), range, All, dayOf) == p.manufacturerData
  {
    forall d ensures InDateRange(range, d) {
    }
    FilterKeepAll(p.vehicleTypeData, (e: VehicleTypePoint) => InDateRange(range, dayOf(e.date)));
    FilterKeepAll(p.manufacturerData, (e: ManufacturerPoint) => InDateRange(range, dayOf(e.date)));
  }

  /** JavaScript's default string order: code unit by code unit, a proper prefix first. */
  predicate StrLess(a: string, b: string) {
    if |a| == 0 then |b| > 0
    else if |b| == 0 then false
    else if a[0] == b[0] then StrLess(a[1..], b[1..])
    else a[0] < b[0]
  }

  lemma {:induction false} StrLessIrreflexive(a: string)
    ensures !StrLess(a, a)
  {
    if |a| > 0 {
      StrLessIrreflexive(a[1..]);
    }
  }

  lemma {:induction false} StrLessTransitive(a: string, b: string, c: string)
    requires StrLess(a, b) && StrLess(b, c)
    ensures StrLess(a, c)
  {
    if |a| > 0 && |b| > 0 && |c| > 0 && a[0] == b[0] && b[0] == c[0] {
      StrLessTransitive(a[1..], b[1..], c[1..]);
    }
  }

  lemma {:induction false} StrLessTotal(a: string, b: string)
    requires a != b
    ensures StrLess(a, b) || StrLess(b, a)
  {
    if |a| > 0 && |b| > 0 && a[0] == b[0] {
      assert a == [a[0]] + a[1..] && b == [b[0]] + b[1..];
      StrLessTotal(a[1..], b[1..]);
    }
  }

  lemma StrLessIsStrictTotalOrder()
    ensures StrictTotalOrder(StrLess)
  {
    forall a ensures !StrLess(a, a) {
      StrLessIrreflexive(a);
    }
    forall a, b, c | StrLess(a, b) && StrLess(b, c) ensures StrLess(a, c) {
      StrLessTransitive(a, b, c);
    }
    forall a, b | a != b ensures StrLess(a, b) || StrLess(b, a) {
      StrLessTotal(a, b);
    }
  }

  /** The manufacturer names of the entries, in entry order. */
  function Names(xs: seq<ManufacturerPoint>): (ns: seq<string>)
    ensures forall m :: m in ns <==> exists i :: 0 <= i < |xs| && xs[i].manufacturer == m
  {
    var ns := seq(|xs|, i requires 0 <= i < |xs| => xs[i].manufacturer);
    assert forall i :: 0 <= i < |xs| ==> ns[i] == xs[i].manufacturer;
    ns
  }

  /**
   * `uniqueManufacturers`: "All", then every manufacturer name of the data
   * once, in ascending order; nothing before the data arrives.
   */
  function UniqueManufacturers(data: Option<Payload>): (r: seq<string>)
    ensures data.None? ==> r == []
    ensures data.Some? ==>
      && |r| >= 1 && r[0] == All
      && SortedBy(r[1..], StrLess)
      && (forall i, j :: 1 <= i < j < |r| ==> r[i] != r[j])
      && (forall m :: m in r[1..] <==>
            exists i :: 0 <= i < |data.value.manufacturerData| && data.value.manufacturerData[i].manufacturer == m)
  {
    match data
    case None => []
    case Some(p) =>
      StrLessIsStrictTotalOrder();
      var sorted := SortDistinct(Names(p.manufacturerData), StrLess);
      SortedIsDistinct(sorted, StrLess);
      var r := [All] + sorted;
      assert r[1..] == sorted;
      r
  }

  /** `getGrowthColor`. */
  function GrowthColor(value: real): (c: Color)
    ensures c == Green <==> value > 0.0
    ensures c == Red <==> value < 0.0
    ensures c == Gray <==> value == 0.0
  {
    if value > 0.0 then Green
    else if value < 0.0 then Red
    else Gray
  }

  /** `xs.reduce((sum, item) => sum + item.registrations, 0)`. */
  function SumRegistrations(xs: seq<ManufacturerPoint>): int {
    if |xs| == 0 then 0 else SumRegistrations(xs[..|xs| - 1]) + xs[|xs| - 1].registrations
  }

  /** The sum over a concatenation is the sum of the sums. */
  lemma {:induction false} SumRegistrationsAppend(a: seq<ManufacturerPoint>, b: seq<ManufacturerPoint>)
    ensures SumRegistrations(a + b) == SumRegistrations(a) + SumRegistrations(b)
    decreases |b|
  {
    if |b| == 0 {
      assert a + b == a;
    } else {
      assert (a + b)[..|a + b| - 1] == a + b[..|b| - 1];
      SumRegistrationsAppend(a, b[..|b| - 1]);
    }
  }

  /** With no negative count, the sum is at least any single count. */
  lemma {:induction false} SumRegistrationsBounds(xs: seq<ManufacturerPoint>)
    requires forall i :: 0 <= i < |xs| ==> xs[i].registrations >= 0
    ensures SumRegistrations(xs) >= 0
    ensures forall i :: 0 <= i < |xs| ==> xs[i].registrations <= SumRegistrations(xs)
  {
    if |xs| > 0 {
      SumRegistrationsBounds(xs[..|xs| - 1]);
      assert forall i :: 0 <= i < |xs| - 1 ==> xs[..|xs| - 1][i] == xs[i];
    }
  }

  /**
   * The manufacturer card's figure: with "All" the sum of registrations over
   * the filtered entries (0 when there are none); otherwise the latest
   * filtered entry's registrations, or "N/A" when there is none.
   */
  function ManufacturerCard(filtered: seq<ManufacturerPoint>, selected: string): (v: CardValue)
    ensures selected == All ==> v == Count(SumRegistrations(filtered))
    ensures selected == All && filtered == [] ==> v == Count(0)
    ensures selected != All ==>
      (v == NotAvailable <==> filtered == []) &&
      (filtered != [] ==> v == Count(filtered[|filtered| - 1].registrations))
  {
    if selected == All then Count(SumRegistrations(filtered))
    else if |filtered| > 0 then Count(filtered[|filtered| - 1].registrations)
    else NotAvailable
  }
}
