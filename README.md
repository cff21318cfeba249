# Longest continuous coverage

A Dafny model of the coverage-interval merger in `longest_continuous_coverage.py`.
The program takes coverage intervals `Cov(eff, term)`. Each interval is a closed range of day numbers.
It reports the longest run of continuous coverage and every merged period that reaches that length.

The model follows the program step by step:

- `Coverage`: the `Cov` record and `coverage_length`. The length counts both end days.
- `StableSort`: `sorted(coverages, key=eff)`, modelled as an insertion sort. It is proved to be the stable sort by `eff`.
- `Sweep`: the merge sweep as a function of the prefix read so far (`Periods`). A period absorbs an interval that starts no later than the day after the period ends. Otherwise the period is closed and a new one starts from that interval. The lemmas say what the sweep guarantees.
- `Ranking`: the running maximum of period lengths, which starts at 0, and the filter that keeps the periods of that length.
- `OrderIndependence`: the periods found depend only on which intervals are given, not on their order: their extents, their lengths and which intervals each holds. Only the order of members that start on the same day can change.
- `LongestCoverage`: the program's main block as one imperative method. It has the source's `for` loop, the `current_cov_period` / `covs_in_current_cov_period` state, the running maximum and the final filter. It is proved equal to the functions above.
- `Scenarios`: the program's sample inputs, plus two edge cases (a one-day interval and a one-day gap), worked through the model.

A result period is `Period(length, span, members)`, the source's tuple `(coverage_length, cov_period, covs)`.

Where the intended design and the code disagree, the model follows the code:

- The intended design asks for a validation error when `eff > term`. The code never checks this. The model makes `eff <= term` a precondition (`AllWellFormed`).
- The intended design takes a set of intervals. The code takes a list, so a repeated interval appears once per occurrence in the member lists. The model takes a sequence.
- The intended design calls the order among intervals with the same start irrelevant. With the stable sort it decides the order of members inside a period. `OrderIndependence.SweepIsOrderIndependent` therefore proves that each period keeps its extent, its length and its members as a multiset, not its member list. `Scenarios.SameStartKeepsInputOrder` shows the stable order.

## Model

| member | source | states |
|---|---|---|
| Coverage.CoverageLength | longest_continuous_coverage.py:19-21 | a well-formed interval has length at least 1; a one-day interval (`eff == term`) has length 1 |
| Coverage.CoverageLengthCountsDays | longest_continuous_coverage.py:19-21 | the length is exactly the number of days the interval covers (inclusive counting), and 0 days for a reversed interval |
| StableSort.SortByEffSorted | longest_continuous_coverage.py:77 | the sorted coverages are in ascending order of `eff` |
| StableSort.SortByEffPermutes | longest_continuous_coverage.py:77 | sorting neither loses nor duplicates an interval (same multiset) |
| StableSort.SortByEffStable | longest_continuous_coverage.py:77 | for every start day, the intervals starting that day keep their input order (Python's `sorted` is stable) |
| StableSort.StableSortIsUnique | longest_continuous_coverage.py:77 | any sorted sequence that keeps the input order among equal starts is the sort's result, so the model is the stable sort and no other |
| Sweep.Periods | longest_continuous_coverage.py:85-112 | the sweep forms no more periods than there are intervals, and at least one exactly when there is input |
| Sweep.ReadOne | longest_continuous_coverage.py:95-108 | an interval starting at most one day after the open period ends is absorbed (same start, end raised to the larger `term`, interval appended to the members, earlier periods unchanged); otherwise a new period starts from exactly that interval |
| Sweep.PeriodsPartition | longest_continuous_coverage.py:90-112 | the member lists, concatenated, are exactly the sorted input: every interval is in exactly one period, in the order absorbed |
| Sweep.PeriodsSeparated | longest_continuous_coverage.py:95-108 | each period starts at least two days after the previous one ends: there is a real gap between periods |
| Sweep.PeriodsWellShaped | longest_continuous_coverage.py:90-112 | each period has members, starts where its first member starts, ends where some member ends, contains all its members, has every day covered by a member, and has length equal to its extent's length |
| Sweep.PeriodsStartInside | longest_continuous_coverage.py:90-112 | on sorted, well-formed input every member of a period starts inside that period's extent |
| Sweep.PeriodsCoverSameDays | longest_continuous_coverage.py:90-112 | a day lies in some period exactly when some input interval covers it |
| Sweep.SeparatedAscending | longest_continuous_coverage.py:99-108 | periods separated from their neighbours lie wholly before every later period |
| Ranking.MaxLength | longest_continuous_coverage.py:103-115 | the running maximum, started at 0, is at least every period's length and is either 0 or the length of some period |
| Ranking.WithLength | longest_continuous_coverage.py:118 | every period kept by the filter has the requested length |
| Ranking.WithLengthMembers | longest_continuous_coverage.py:118 | the filter keeps all and only the periods of the requested length |
| Ranking.AlikeWinners | longest_continuous_coverage.py:118 | the filter looks only at lengths: periods that match one for one in extent, length and member multiset give winners that match in the same way |
| Ranking.WithLengthAscending | longest_continuous_coverage.py:118 | the filter keeps the periods in sweep order |
| OrderIndependence.SpansDeterminedByDays | longest_continuous_coverage.py:90-112 | ascending, separated extents are fixed by the set of days they cover |
| OrderIndependence.MembersByStart | longest_continuous_coverage.py:90-112 | on sorted input each period holds exactly the input intervals that start inside its extent, each as many times as the input lists it |
| OrderIndependence.SweepIsOrderIndependent | longest_continuous_coverage.py:77-118 | two listings of the same intervals give periods that match one for one in extent, length and member multiset, the same longest length, and winners that match in the same way |
| LongestCoverage.LongestContinuousCoverage | longest_continuous_coverage.py:76-118 | the method returns the maximum length over the sorted sweep's periods and exactly the periods of that length; empty input gives `(0, [])`; non-empty input gives a positive length and at least one winner; winners are in ascending order with gaps between them |
| LongestCoverage.Report | longest_continuous_coverage.py:79-118 | for the sorted sweep: no input gives longest 0 and no winners, any input gives a positive longest and a winner, and winners come in sweep order |
| Scenarios.EmptyInput | longest_continuous_coverage.py:79-85 | no intervals give longest coverage 0 and an empty result |
| Scenarios.OneDayInterval | longest_continuous_coverage.py:19-21 | `Cov(d, d)` has length 1 |
| Scenarios.AdjacentIntervalsMerge | longest_continuous_coverage.py:50-51 | `Cov(1,20), Cov(21,30)` form one period `Cov(1,30)` of 30 days holding both |
| Scenarios.OneDayGapSplits | longest_continuous_coverage.py:95-108 | `Cov(1,20), Cov(22,30)` form two periods of 20 and 9 days; only the first is reported |
| Scenarios.TiedPeriodsBothReported | longest_continuous_coverage.py:53-54 | `Cov(1,20), Cov(31,50)` are both reported with length 20 |
| Scenarios.SameStartKeepsInputOrder | longest_continuous_coverage.py:60 | `Cov(1,365), Cov(1,366)` form one period of 366 days, members in input order |
| Scenarios.LongestFirst | longest_continuous_coverage.py:66 | with `Cov(1,50), Cov(90,95)` the first period, 50 days, is the only winner |
| Scenarios.LongestLast | longest_continuous_coverage.py:68 | with `Cov(1,5), Cov(90,120)` the last period, 31 days, is the only winner |
| Scenarios.ExerciseData | longest_continuous_coverage.py:73 | the exercise data's longest coverage is 151 days, the single period `Cov(50,200)` made of `Cov(50,60), Cov(61,200)` |
| Scenarios.UnsortedInput | longest_continuous_coverage.py:70 | the out-of-order sample is sorted first and gives two tied winners of 48 days, `Cov(1,48)` and `Cov(81,128)` |

## Left out

- `Cov.coverage_dates` (day number to calendar date): it reads the wall clock for the current year and relies on `datetime`, so it is not deterministic.
- `__str__` and `__repr__`: display formatting only.
- The printing at the end of the program: console output only.
- The in-place update of `current_cov_period.term`: the model reassigns a `Cov` value. The object is never aliased while it is updated, because a new `Cov` is made each time a period closes, so nothing observable is lost.
- Python's `sorted` is a library routine. The model replaces it with an insertion sort proved to be the unique stable sort by `eff`. It does not model the library's algorithm or cost.
