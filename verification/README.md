# Vehicle registration dashboard — growth-metrics engine and dashboard selectors

This project models the core of a vehicle-registration dashboard and proves
its behaviour in Dafny:

- **The aggregation engine** `calculate_growth_metrics` (`backend/process_data.py`).
  - Daily rows are filed into month and quarter buckets. "Overall" rows sum
    their `2W`, `3W`, `4W` and `total` counts. "Manufacturer" rows sum
    registrations per (period, manufacturer).
  - The month keys and quarter keys are sorted.
  - The engine emits a month-ordered vehicle-type series and a manufacturer
    series. Each entry carries its year-over-year (YoY) and
    quarter-over-quarter (QoQ) growth in percent.
  - Three summary figures are taken from the latest month.
- **The synthetic generator** `generate_synthetic_data`. Each day it splits
  a daily total into two-, three- and four-wheelers, then shares the
  four-wheelers among eight manufacturers. Random draws are parameters.
- **The dashboard selectors** (`frontend/components/dashboard.tsx`):
  - the date-range filter of the vehicle-type series;
  - the date and manufacturer filter of the manufacturer series;
  - the sorted list of manufacturer names behind the selector;
  - the sign-to-colour rule for growth figures;
  - the "All" registrations card.

## Files

| file | module | models |
|---|---|---|
| `wrappers.dfy` | `Wrappers` | `Option` |
| `sorting.dfy` | `Sorting` | strictly ascending, duplicate-free listings (`sorted(set(...))`) |
| `periods.dfy` | `Periods` | month and quarter keys as (year, index) pairs, their order, `get_quarter_key` |
| `registrations.dfy` | `Registrations` | input rows, dates, the four counts, the month and quarter key of a date |
| `tally.dfy` | `Tally` | an insertion-ordered `defaultdict(int)` |
| `buckets.dfy` | `Buckets` | the first pass: bucket sums as folds over the rows |
| `metrics.dfy` | `Metrics` | the second pass: series, growth rules, summary figures |
| `synthetic.dfy` | `Synthetic` | the per-day split and manufacturer distribution |
| `dashboard.dfy` | `Dashboard` | the dashboard selectors |

How the engine is modelled:

- Each bucket is specified by a reference definition over the rows. For
  example, `OverallSum(rows, MonthOf, k)` is the sum over the "overall" rows
  dated in month `k`.
- The engine's output is `CalculateGrowthMetrics(rows)`. The lemmas relate it
  to those reference definitions for every input.
- Each rows-level lemma (`YoYRule`, say) rests on a lemma ending in `Of`
  (`YoYRuleOf`). That lemma proves the same statement for any aggregates
  that summarise the rows. `Summaries` proves that the first pass produces
  such aggregates.

## Model

| member | source | states |
|---|---|---|
| Periods.QuarterKey | backend/process_data.py:82-84 | the quarter key keeps the year; its quarter is 1..4 and is the quarter whose three months contain the month |
| Periods.QuarterKeyGroupsMonths | backend/process_data.py:82-84 | two months of one year get the same quarter key exactly when they lie in the same block of months 1-3, 4-6, 7-9 or 10-12 |
| Periods.BeforeIsStrictTotalOrder | backend/process_data.py:111-112 | the order both sorts use on (year, index) keys is irreflexive, transitive and total |
| Periods.PrevYear | backend/process_data.py:115-117 | the previous-year key has the same month number, one year less, and sorts before the month |
| Registrations.MonthStart | backend/process_data.py:124 | the "YYYY-MM-01" date of a month key lies in that month on day 1 |
| Registrations.QuarterOfMonth | backend/process_data.py:124-125 | the quarter read back from a month's first day is the quarter of every date in that month |
| Sorting.Insert | backend/process_data.py:111-112 | inserting into an ascending list keeps it ascending and adds exactly the new element |
| Sorting.SortDistinct | backend/process_data.py:111-112 | `sorted` of the distinct keys: strictly ascending, with exactly the input's elements |
| Sorting.SortedIsDistinct | backend/process_data.py:111-112 | a strictly ascending key list has no repeats |
| Sorting.SortedUnique | backend/process_data.py:111-112 | two strictly ascending lists with the same elements are equal, so the sorted keys depend only on which keys occur |
| Sorting.SortedGreatestIsLast | backend/process_data.py:187-188 | in an ascending list, an element nothing is above is the last entry |
| Tally.Get | backend/process_data.py:93-108 | reading an absent key of the counting dict yields 0 |
| Tally.Bump | backend/process_data.py:107-108 | `d[k] += v`: k is present with its count raised by v; other keys keep their counts; an existing key keeps its place; a new key is appended; the total grows by v; keys stay unique |
| Tally.GetEntry | backend/process_data.py:160-163 | iterating the dict's items yields each key with the count a lookup of that key returns |
| Buckets.OverallSum | backend/process_data.py:101-104 | a period with no "overall" row sums to zero in all four counts |
| Buckets.OverallBuckets | backend/process_data.py:96-104 | there is one bucket per period with an "overall" row, holding the sum of those rows' four counts; other rows contribute nothing |
| Buckets.FileManufacturerStep | backend/process_data.py:105-108 | filing one more row keeps each period's tally equal to the sums over the "manufacturer" rows so far |
| Buckets.ManufacturerBuckets | backend/process_data.py:105-108 | each period's tally lists exactly the manufacturers with rows there, once each, with their summed registrations and the period's total |
| Metrics.Growth | backend/process_data.py:121-122 | growth times the previous value is 100 times the change; it is positive or negative exactly when the value rose or fell |
| Metrics.OverallKeys | backend/process_data.py:111 | the keys handed to the sort are exactly the periods that have "overall" rows |
| Metrics.Aggregate | backend/process_data.py:96-112 | the sorted month and quarter lists hold exactly the bucket keys, ascending; every month's quarter is a quarter bucket; every tally has unique keys |
| Metrics.IndexOf | backend/process_data.py:128-129 | `list.index`: absent exactly when the key is not listed, otherwise its first position |
| Metrics.PrevQuarter | backend/process_data.py:128-131 | the quarter compared against is a listed quarter |
| Metrics.VehicleTypeSeries | backend/process_data.py:114-144 | one entry per sorted month key, dated its first day and carrying that month's bucket |
| Metrics.TallyEntryFaithful | backend/process_data.py:160-181 | an emitted manufacturer entry carries its month, its tallied count and the growth computed for that month and manufacturer |
| Metrics.ManufacturerSeriesOrdered | backend/process_data.py:147-160 | with ascending months, entries are in month order and no (month, manufacturer) pair repeats |
| Metrics.ManufacturerSeriesComplete | backend/process_data.py:147-160 | every manufacturer tallied in a listed month has an entry |
| Metrics.Summaries | backend/process_data.py:96-112 | the first pass yields consistent aggregates whose buckets are the row sums of every month, quarter and (period, manufacturer) |
| Metrics.VehicleSeriesMonths | backend/process_data.py:111-114 | the vehicle-type series has an entry for a month iff that month has "overall" rows, in strictly ascending month order |
| Metrics.VehicleSeriesCounts | backend/process_data.py:136-144 | each vehicle-type entry is dated day 1 and carries the summed counts of its month's "overall" rows |
| Metrics.YoYRule | backend/process_data.py:117-122 | every vehicle-type entry's YoY is the change against the same month a year earlier when that month has rows with a positive total; otherwise 0.0 |
| Metrics.PrevQuarterIsLatestEarlier | backend/process_data.py:128-131 | the list entry before a quarter is the latest earlier listed quarter; with none before it there is no earlier quarter |
| Metrics.PrevQuarterOf | backend/process_data.py:124-131 | the quarter compared against is the unique latest earlier quarter with "overall" rows, and there is none when the lookup finds none |
| Metrics.QoQRule | backend/process_data.py:124-134 | every vehicle-type entry's QoQ is the change of the quarter total against the latest earlier quarter with rows, when that quarter's total is positive; 0.0 when it is not, or when there is no earlier quarter |
| Metrics.QoQUniformWithinQuarter | backend/process_data.py:124-134 | any two vehicle-type entries dated in the same quarter carry the same QoQ |
| Metrics.ManufacturerSeriesShape | backend/process_data.py:147-181 | each manufacturer entry is a month with "overall" rows and a manufacturer with rows that month, carrying its summed registrations; entries are in month order; pairs do not repeat; every such pair is listed |
| Metrics.ManufacturerYoYRule | backend/process_data.py:161-165 | every manufacturer entry's YoY is against the same manufacturer in the same month a year earlier, when present there with a positive sum; otherwise 0.0 |
| Metrics.ManufacturerQoQIs | backend/process_data.py:167-173 | the engine's manufacturer QoQ for a month equals the rule stated over the rows |
| Metrics.ManufacturerYoYIs | backend/process_data.py:161-165 | a manufacturer entry whose YoY is computed from the monthly tallies has the YoY the rows call for |
| Metrics.QoQIs | backend/process_data.py:124-134 | the QoQ computed for a month from the sorted quarter list is the QoQ the rows call for |
| Metrics.ManufacturerQoQRule | backend/process_data.py:167-173 | every manufacturer entry's QoQ is against the same manufacturer in the latest earlier quarter with "overall" rows, when present there with a positive sum; otherwise 0.0 |
| Metrics.EmptyPayload | backend/process_data.py:183-191 | without "overall" rows both series are empty, totalRegistrations is 0 and both total growths are 0.0 |
| Metrics.LastMonthOf | backend/process_data.py:187-188 | the last sorted month key is the latest month with "overall" rows |
| Metrics.LatestMonthTotals | backend/process_data.py:183-191 | totalRegistrations is the latest month's total, not the grand sum; the total growths are that month's YoY and QoQ |
| Synthetic.RandInt | backend/process_data.py:49-56 | a folded draw lies in [lo, hi] |
| Synthetic.RandIntReachesAll | backend/process_data.py:49-56 | every value in [lo, hi] is produced by some draw, so the folding leaves no value out |
| Synthetic.Trunc | backend/process_data.py:21-22 | `int(x)` truncates toward zero: within one of x, on the zero side |
| Synthetic.SharesLeaveFourWheelers | backend/process_data.py:21-23 | truncated shares of at most 75% and 10% of a total of 1000 or more leave a positive four-wheeler count |
| Synthetic.SplitDay | backend/process_data.py:17-28 | 2W and 3W are the truncated shares `int(daily_total * ratio)` themselves, 4W is the rest, the three add up to the day's total, and 4W is positive, so the clamps never fire |
| Synthetic.DistributeFourWheelers | backend/process_data.py:40-67 | each manufacturer appears at most once with a non-negative count, and the counts add up exactly to the four-wheelers, so the final adjustment never fires |
| Synthetic.SumsAppend | backend/process_data.py:96-108 | the bucket sums over two row lists placed end to end are the sums of the parts |
| Synthetic.DayRowsBalanced | backend/process_data.py:30-37 | a day's rows have manufacturer registrations that add up to its four-wheelers in every bucketing |
| Synthetic.GenerateDay | backend/process_data.py:14-75 | one "overall" row with the split, then manufacturer rows that are distinct, non-negative and balanced against 4W |
| Synthetic.GenerateSynthetic | backend/process_data.py:8-79 | every day has its "overall" row; every split is exact within 1000..5000; manufacturer counts are non-negative; every period is balanced |
| Dashboard.Filter | frontend/components/dashboard.tsx:118-124 | `Array.filter`: an element is kept iff it was there and passes the test |
| Dashboard.FilterIsSubsequence | frontend/components/dashboard.tsx:118-124 | the filtered list is the order-preserving subsequence of all passing elements |
| Dashboard.FilterTwice | frontend/components/dashboard.tsx:137-141 | filtering twice equals one filter on both tests |
| Dashboard.FilterKeepAll | frontend/components/dashboard.tsx:121-122 | a test every element passes keeps the list unchanged |
| Dashboard.FilterConcat | frontend/components/dashboard.tsx:118-124 | filtering a concatenation concatenates the filtered parts |
| Dashboard.FilteredVehicleTypeData | frontend/components/dashboard.tsx:116-125 | before data arrives the result is empty; otherwise it holds exactly the entries dated within the set bounds |
| Dashboard.FilteredManufacturerData | frontend/components/dashboard.tsx:127-143 | with "All" it is the date-filtered list; otherwise it holds exactly the entries in range for the selected manufacturer; empty before data arrives |
| Dashboard.SelectedManufacturerFilter | frontend/components/dashboard.tsx:137-141 | with a manufacturer selected, the result is one order-preserving filter on date and name |
| Dashboard.NoRangeKeepsAll | frontend/components/dashboard.tsx:121-122 | with no bound set, both filters (with "All") return the data unchanged |
| Dashboard.StrLessIsStrictTotalOrder | frontend/components/dashboard.tsx:150 | the default string order of `sort()` is a strict total order |
| Dashboard.Names | frontend/components/dashboard.tsx:148 | the mapped names are exactly the entries' manufacturers |
| Dashboard.UniqueManufacturers | frontend/components/dashboard.tsx:145-151 | "All" first, then each manufacturer name of the data exactly once, strictly ascending; empty before data arrives |
| Dashboard.GrowthColor | frontend/components/dashboard.tsx:153-157 | green iff the value is positive, red iff negative, gray iff zero |
| Dashboard.SumRegistrationsAppend | frontend/components/dashboard.tsx:343-344 | the reduce over a concatenation is the sum of the reduces over the parts |
| Dashboard.SumRegistrationsBounds | frontend/components/dashboard.tsx:343-344 | with non-negative counts the sum is non-negative and at least every single count |
| Dashboard.ManufacturerCard | frontend/components/dashboard.tsx:342-350 | with "All" the card shows the registrations summed over the filtered entries (0 when there are none); otherwise the latest entry's registrations, or N/A exactly when the list is empty |

## Left out

- Reading and printing: the JSON output and the exception wrapper (`backend/process_data.py:202-213`). These are I/O.
- The child process and HTTP handling in `frontend/app/api/data/route.ts`. This is I/O plumbing; that file is not part of this model.
- Date parsing and formatting (`strptime`, `strftime`, `new Date(...)`, `toLocaleString`, `toFixed`). Rows carry pre-parsed (year, month, day) dates. The dashboard compares day numbers that a `dayOf` parameter supplies, so time zones are not modelled.
- Years are taken to have four digits. The model orders month keys as (year, month) pairs, which matches the engine's string sort only for four-digit years.
- Floating point: growth percentages are exact reals, and the split shares are reals in their uniform ranges.
- Dashboard.SumRegistrations: the "All" card's `reduce` adds JavaScript doubles, while the model sums unbounded integers. The two agree while the sum stays below 2^53.
- Randomness: every `randint`, `uniform` and `choice` draw is a parameter. `RandIntReachesAll` shows that this loses no outcome.
- Synthetic.SplitDay: takes the product `daily_total * ratio` as an exact real, so float rounding of that product is not modelled.
- Synthetic.GenerateSynthetic: takes the list of days as a parameter; `datetime.now()` and the three-year window are not modelled.
- The JavaScript `sort()` compares UTF-16 code units. `StrLess` compares Dafny characters, which agree with code units for names in the Basic Multilingual Plane.
- React state, effects, data fetching, charts and the other UI files (`app-sidebar.tsx`, `layout.tsx`, `page.tsx`).
- The manufacturer order within a month follows dict insertion order (`backend/process_data.py:160`). The model keeps that order and claims nothing about it beyond first appearance.

Behaviour of the code that a reader might not expect:

- YoY is a lookup of the same month one year earlier, not the entry 12 positions back.
- QoQ compares whole-quarter totals against the previous quarter present in the sorted quarter list, not the entry 3 positions back.
- A missing or non-positive predecessor gives 0.0, not an absent marker.
- `totalRegistrations` is the latest month's total, not the sum over all records.
- A bucket's `total` is the sum of the rows' own `total` fields. It is not recomputed from the category counts.
- Nothing is validated. Negative counts and unknown row types are accepted, and rows of any other type are ignored.
- Months without rows are gaps, not zero-filled buckets.
- The manufacturer series is not sorted by name within a month.
