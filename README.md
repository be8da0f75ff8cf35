# Time axes of ocean forcing files, in Dafny

This project models the time-axis logic of the ocean-nudge tools (`lib_util.py`): how the tools build one
time axis for a run out of several netCDF forcing files, and it proves properties of that model.
There are three steps:

- `get_time_origin` finds a file's origin date. It reads the `units` attribute of the file's time
  variable (`time_counter` if the file has one, otherwise `time`), for example
  `"days since 1990-01-01 00:00:00"`. The units must name days or hours. The first `DDDD-DD-DD` token
  in the units must be a real calendar date.
- `sort_by_date` pairs every file with its origin and sorts the pairs by origin with Python's stable
  `list.sort`. It returns the files in that order.
- `DaySeries(files)` sorts the files and takes the earliest origin as the series origin. It converts each
  file's time values to whole days and shifts them by the file's distance from the series origin. It
  joins the results in sorted order, then rejects the series unless consecutive days are more than one
  day apart.

A file is a value: a map from variable name to a variable, and each variable has units and whole-number
values. Every Python exception or failed `assert` of these functions becomes an `Error` of a `Result`,
with two exceptions, both listed under "## Left out": the TypeError of the hours branch (the model
converts hours as evidently intended, see "## Findings"), and the AttributeError of a time variable
without `units` (every modelled variable has units). `get_time_origin` and the unit conversion are pure
functions. `sort_by_date` is a method with the source's append loop. It is proved equal to a
specification function, `OriginOrder.ByOrigin`. `DaySeries` is a class with the source's fields `origin`
and `days`. Its construction, `DaySeries.Create`, runs the source's loop over the sorted files. It is
proved to end in the state that a specification function, `DaySeriesMerge.Merge`, describes.

Modules, one per file:

- `Wrappers`: `Option` and `Result`.
- `Calendar`: proleptic Gregorian dates, `datetime`'s day ordinal, date order and date differences.
- `NetCdf`: files, variables, errors, and the choice of the time variable.
- `TimeOrigin`: `get_time_origin`.
- `OriginOrder`: `sort_by_date`.
- `DaySeriesMerge`: `DaySeries.__init__`.
- `DaySeriesProperties`: lemmas about a constructed series.
- `TimeOriginExamples` and `DaySeriesExamples`: worked examples.

Two points about what the code does, as opposed to what its names suggest:

- **Sort key.** The docstring of `sort_by_date` says "increasing order of date" (`lib_util.py:51`), and
  the loop names each file's date `first_time` (`lib_util.py:56`), which suggests the file's first time
  value. The key is the origin date parsed from the units (`lib_util.py:56-59`), and the model sorts by
  that.
- **Order dependence.** The result can depend on the order of the input files. Files with the same
  origin keep their input order, and that order changes the joined days. So one order can pass the
  final gap check while another fails it; `DaySeriesExamples.OrderMatters` gives two such files.
  `MergeOrderIndependent` proves that two orders give the same series when both succeed.

## Model

| member | source | states |
|---|---|---|
| NetCdf.TimeVariable | lib_util.py:35-38 | The time variable is `time_counter` when the file has one, otherwise `time`. It fails with the KeyError case exactly when neither exists. |
| TimeOrigin.Contains | lib_util.py:40-41 | Python's `sub in s`: true exactly when `sub` occurs at some index of `s`. |
| TimeOrigin.HasUnitClause | lib_util.py:40-41 | No contract of its own: the assert's condition, `'days since' in units or 'hours since' in units` (also at lines 89-90). Its consequences are stated by `GetTimeOriginCases` and `UnknownUnitRejected`. |
| TimeOrigin.OccursAt | lib_util.py:40-41 | No contract of its own: the occurrence of a substring at an index, the reference against which `Contains` is specified. |
| TimeOrigin.SearchDateToken | lib_util.py:42-43 | `re.search` for `\d{4}-\d{2}-\d{2}`: the result is a match and no index before it matches. When there is no result, no index matches. |
| TimeOrigin.DateTokenAt | lib_util.py:42 | No contract of its own: the pattern `\d{4}-\d{2}-\d{2}` (ASCII digits) matches at an index. It is the reference for `SearchDateToken`. |
| TimeOrigin.FirstDateTokenAt | lib_util.py:42 | No contract of its own: the leftmost match, which `re.search` reports. `FirstDateTokenUnique` and `GetTimeOriginCases` use it. |
| TimeOrigin.DigitValue | lib_util.py:44 | The value of an ASCII digit lies in 0..9. |
| TimeOrigin.TokenDate | lib_util.py:44-46 | No contract of its own: the year, month and day that `strptime(token, '%Y-%m-%d')` reads. Which of them are accepted is stated by `GetTimeOriginCases` together with `Calendar.IsValid`, and by `NonLeapFebruaryRejected`, `YearZeroRejected` and `LeapDayAccepted`. |
| TimeOrigin.FirstDateTokenUnique | lib_util.py:42 | The leftmost match is unique. |
| TimeOrigin.GetTimeOrigin | lib_util.py:28-46 | A successful origin is a valid calendar date. The only errors are a missing time variable, a bad time unit, no date token, and an invalid date. |
| TimeOrigin.GetTimeOriginCases | lib_util.py:34-46 | Each case separately: no time variable; units naming neither "days since" nor "hours since"; no `DDDD-DD-DD` token; otherwise the date of the first token, which is accepted exactly when it is a valid date (`strptime`, `dt.date`). |
| TimeOrigin.Parses | lib_util.py:28-46 | No contract of its own: `get_time_origin` returns without raising. |
| TimeOrigin.Origin | lib_util.py:28-46 | No contract of its own: the date `get_time_origin` returns for a file that parses. |
| Calendar.IsValid | lib_util.py:44-46 | No contract of its own: the dates `strptime` and `dt.date` accept (years 1 to 9999, months 1 to 12, days up to the month's length). `GetTimeOriginCases` states that a token is accepted exactly when its date satisfies it. |
| Calendar.IsLeapYear | lib_util.py:44 | No contract of its own: the Gregorian leap-year rule. `Divisibility` and `DaysBeforeYearStep` relate it to the ordinal. |
| Calendar.DaysInMonth | lib_util.py:44 | A month has 28 to 31 days; this bounds the days `strptime` accepts. |
| Calendar.DaysInYear | lib_util.py:98 | No contract of its own: 366 days in a leap year, 365 otherwise. `DaysBeforeYearStep` ties it to the ordinal. |
| Calendar.DaysBeforeYear | lib_util.py:98 | No contract of its own: `datetime`'s count of the days before a year. `DaysBeforeYearStep` and `DaysBeforeYearMonotone` specify it. |
| Calendar.DaysBeforeMonth | lib_util.py:98 | No contract of its own: `datetime`'s cumulative month table, plus one after February in a leap year. `DaysBeforeMonthStep` specifies it against `DaysInMonth`. |
| Calendar.DaysFromCivil | lib_util.py:98 | `toordinal()`: 0001-01-01 is day 1. It is specified by `DaysFromCivilSuccessor` (the day after a date is one more), `DaysFromCivilStrictlyMonotone` and `DaysFromCivilOrder`. |
| Calendar.DaysBetween | lib_util.py:98 | No contract of its own: `(f_origin - self.origin).days`, the difference of the ordinals. `DaysFromCivilOrder` states that it is negative, zero or positive exactly as the first date is before, equal to or after the second. `JanuaryToMarch` gives an example. |
| Calendar.Le | lib_util.py:59 | No contract of its own: `a <= b` on dates, the comparison `list.sort` uses for the key. `DaysFromCivilOrder` states that it agrees with ordinal order. |
| Calendar.Lt | lib_util.py:59 | No contract of its own: `a < b` on dates. |
| Calendar.NextDay | lib_util.py:98 | No contract of its own: the next calendar day, by the calendar rules alone. It is the independent reference that `DaysFromCivilSuccessor` checks the ordinal against. |
| Calendar.DaysBeforeYearStep | lib_util.py:98 | The ordinal count of the years before `y + 1` is that before `y` plus the length of year `y`, leap years included. |
| Calendar.Divisibility | lib_util.py:98 | Divisible by 400 implies divisible by 100, which implies divisible by 4 (the leap-year rule is consistent). |
| Calendar.DivStep | lib_util.py:98 | How the quotients by 4, 100 and 400 change from `p` to `p + 1`. |
| Calendar.MultipleMod | lib_util.py:98 | For k = 4 or 100, a multiple of `q * k` is a multiple of `k`. |
| Calendar.DaysBeforeYearMonotone | lib_util.py:98 | A later year starts no earlier than an earlier year ends. |
| Calendar.DaysBeforeMonthStep | lib_util.py:98 | The ordinal offset of month `m + 1` is that of month `m` plus the length of month `m`. |
| Calendar.DaysBeforeMonthMonotone | lib_util.py:98 | Later months of a year start after earlier ones end. |
| Calendar.OrdinalWithinYear | lib_util.py:98 | A date's ordinal lies inside its own year's range. |
| Calendar.DaysFromCivilStrictlyMonotone | lib_util.py:98-99 | An earlier date has a smaller ordinal. |
| Calendar.DaysFromCivilOrder | lib_util.py:98-99 | Date order (the sort key) and ordinal order (the sign of `f_origin - self.origin`) agree in both directions. Equal dates are exactly those with equal ordinals. |
| Calendar.DaysFromCivilSuccessor | lib_util.py:98 | The day after a date has ordinal one more, so date subtraction counts calendar days. |
| OriginOrder.Files | lib_util.py:61 | `[f for f, _ in files_with_dates]`: the same length, and the files of the entries in order. |
| OriginOrder.PairWithOrigins | lib_util.py:54-57 | The loop's list succeeds exactly when every origin parses. It pairs each file with its own origin, in input order. Otherwise it fails with the error of a file before which all origins parse. |
| OriginOrder.Insert | lib_util.py:59 | No contract of its own: one step of the stable sort. `InsertSorted`, `InsertMultiset` and `InsertWithOrigin` specify it. |
| OriginOrder.StableSort | lib_util.py:59 | No contract of its own: `files_with_dates.sort(key=lambda x: x[1])`, as a stable insertion sort. `StableSortProperties` and `StableSortUnique` specify it. |
| OriginOrder.SortedByOrigin | lib_util.py:49-61 | No contract of its own: every file's origin parses and the origins do not decrease. It is the order `ByOriginIsStableSort` and `SortByDate` promise. |
| OriginOrder.ByOrigin | lib_util.py:49-61 | `sort_by_date` succeeds exactly when every file's origin parses. On failure it raises the error of the first file, in input order, whose origin does not parse. |
| OriginOrder.SortByDate | lib_util.py:49-61 | The method with the source's loop returns `ByOrigin(files)`: a permutation of the input, ordered by origin, keeping input order among files of equal origin. |
| OriginOrder.InsertSorted | lib_util.py:59 | Inserting into a sorted list keeps it sorted and adds one entry. |
| OriginOrder.InsertMultiset | lib_util.py:59 | Inserting adds exactly the inserted entry. |
| OriginOrder.InsertWithOrigin | lib_util.py:59 | Insertion puts the entry before every entry of its own origin (stability). |
| OriginOrder.StableSortProperties | lib_util.py:59 | The sort is ordered by origin and is a permutation. For every origin, it keeps that origin's entries in input order. |
| OriginOrder.StableSortUnique | lib_util.py:59 | Two sorted lists that agree, for every origin, on that origin's entries in order are equal. So every stable sort by origin, timsort included, gives the same list. |
| OriginOrder.NonEmptyWithOrigin | lib_util.py:59 | The head entry heads the entries of its origin. |
| OriginOrder.SameHead | lib_util.py:59 | Two such sorted lists have the same head. |
| OriginOrder.SameTails | lib_util.py:59 | Removing a common head keeps the per-origin agreement. |
| OriginOrder.WithOriginMember | lib_util.py:59 | An entry kept by the origin filter is in the list, has that origin, and is not before a sorted list's head. |
| OriginOrder.WithOriginConsistent | lib_util.py:56-57 | Filtering keeps every entry paired with its own file's origin. |
| OriginOrder.FilesConcat | lib_util.py:61 | Taking the files distributes over concatenation. |
| OriginOrder.FilesWithOriginOfEntries | lib_util.py:56-61 | Filtering files by origin agrees with filtering the entries, when entries carry their own files' origins. |
| OriginOrder.ConsistentByFiles | lib_util.py:56-57 | Paired lists with the same files are equal. |
| OriginOrder.InsertFilesMultiset | lib_util.py:59-61 | Insertion adds exactly the inserted file. |
| OriginOrder.StableSortFilesMultiset | lib_util.py:59-61 | Sorting permutes the files. |
| OriginOrder.FilesHead | lib_util.py:61 | The files of a list are its head's file plus the files of its tail. |
| OriginOrder.StableSortConsistent | lib_util.py:59 | Sorting keeps every entry paired with its own file's origin. |
| OriginOrder.SortedFiles | lib_util.py:59-61 | The files of a sorted paired list are ordered by origin. |
| OriginOrder.ByOriginIsStableSort | lib_util.py:49-61 | A successful `sort_by_date` is a permutation of its input and is ordered by origin. For every origin, it keeps that origin's files in input order. |
| OriginOrder.ByOriginUnique | lib_util.py:59-61 | Any arrangement of the files that is ordered by origin and stable is the one `sort_by_date` returns. |
| OriginOrder.PairWithOriginsStep | lib_util.py:55-57 | One pass of the loop: it appends (file, origin), or stops with the file's error. |
| OriginOrder.PairWithOriginsFailureExtends | lib_util.py:55-57 | Once the loop has raised, later files do not change the error. |
| OriginOrder.PairWithOriginsFirstFailure | lib_util.py:55-56 | The error raised is that of the first file whose origin does not parse. |
| DaySeriesMerge.HoursToDays | lib_util.py:94 | `int(h / 24.0)`: hours to whole days, truncated toward zero, for positive and negative hours. |
| DaySeriesMerge.ToDays | lib_util.py:91-94 | The conversion keeps one value per time value. |
| DaySeriesMerge.Shift | lib_util.py:101 | `days + base_delta.days` adds the delta to every value. |
| DaySeriesMerge.Merge | lib_util.py:71-104 | A successful construction has a valid origin, and its consecutive days are more than one day apart. |
| DaySeriesMerge.Segment | lib_util.py:80-101 | No contract of its own: one pass of the loop, giving the file's rebased days or the error the pass raises. `SortedStep` and `SegmentOfLaterFile` specify it. |
| DaySeriesMerge.Segments | lib_util.py:79-101 | No contract of its own: the loop over the files, giving the joined segments or the first error. `SegmentsStep` and `SegmentsSucceed` specify it. |
| DaySeriesMerge.GapsExceedOneDay | lib_util.py:103 | No contract of its own: `np.all(np.diff(days) > 1)`. `MergeStrictlyIncreasing`, `GapsSpread` and `MergeRebasedDistinct` state its consequences. |
| DaySeriesMerge.SegmentsStep | lib_util.py:79-101 | One pass of the loop extends the days by the file's segment. |
| DaySeriesMerge.SortedOriginBounds | lib_util.py:73-76 | In sorted files every origin parses, and none is before the first. |
| DaySeriesMerge.SortedStep | lib_util.py:79-101 | In one pass over sorted files: the re-parse succeeds, the unit check passes, `base_delta >= 0` holds, and the days are extended by the shifted, converted values. |
| DaySeriesMerge.MergeOfSorted | lib_util.py:73-104 | Once every pass has succeeded, the result is the series unless the final gap check fails. |
| DaySeriesMerge.DaySeries.constructor | lib_util.py:76-77 | `self.origin` is set and `self.days` is empty. |
| DaySeriesMerge.DaySeries.Create | lib_util.py:71-104 | The method with the source's loop and asserts fails with exactly `Merge`'s error. On success its `origin` and `days` are `Merge`'s. |
| DaySeriesMerge.HoursExtendAsWritten | lib_util.py:94-101 | No contract of its own: the hours branch as written, `int(time_var[:] / 24.0)` followed by `extend`. `HoursExtendAsWrittenFails` states that it always fails. |
| DaySeriesMerge.IntOfArray | lib_util.py:94 | No contract of its own: `int()` of a numpy array, which converts only a one-element array. |
| DaySeriesMerge.AddInt | lib_util.py:101 | No contract of its own: `days + base_delta.days` on a scalar or an array. |
| DaySeriesMerge.ExtendList | lib_util.py:101 | No contract of its own: `list.extend`, which cannot take a Python int. |
| DaySeriesMerge.HoursExtendAsWrittenFails | lib_util.py:94-101 | As written, the hours branch fails for every hours file and every `base_delta`. |
| DaySeriesMerge.HoursFileAsWrittenCounterexample | lib_util.py:94-101 | Two concrete hours files, one with one value and one with two, both fail as written. |
| DaySeriesProperties.MergeShape | lib_util.py:73-76 | A successful construction sorted a non-empty list whose origins all parse. The series origin is the first sorted file's origin. |
| DaySeriesProperties.MergeOriginIsEarliest | lib_util.py:75-99 | The series origin is some input file's origin, and no file's origin is earlier. So every `base_delta` is at least zero. |
| DaySeriesProperties.SegmentOfLaterFile | lib_util.py:81-101 | A pass over a file whose origin is not before the series origin succeeds with the file's rebased values. |
| DaySeriesProperties.SegmentsSucceed | lib_util.py:79-101 | When no origin is before the series origin, the loop succeeds. It yields the rebased files joined in order. |
| DaySeriesProperties.MergeErrors | lib_util.py:73-104 | The construction fails only with the error of `sort_by_date`, with `NoFiles` for an empty list, or at the final gap check. The `base_delta` assertion never fires. |
| DaySeriesProperties.MergeIsConcatenation | lib_util.py:79-101 | The days are the files' rebased values joined in sorted-file order. |
| DaySeriesProperties.RebasedValue | lib_util.py:89-101 | Each value is kept under "days since", even when "hours since" also occurs. Otherwise it is truncated from hours. Either way it is shifted by the days from the series origin to the file's origin. |
| DaySeriesProperties.Rebased | lib_util.py:89-101 | No contract of its own: a file's time values in whole days, shifted onto the series origin. `RebasedValue` states them value by value. |
| DaySeriesProperties.RebasedAll | lib_util.py:79-101 | No contract of its own: the rebased files joined in order. `MergeIsConcatenation` states that a constructed series' days are this for the sorted files. |
| DaySeriesProperties.StrictlyIncreasing | lib_util.py:103-104 | No contract of its own: each value is smaller than every later one. `MergeStrictlyIncreasing` states it of every constructed series. |
| DaySeriesProperties.CollectConcat | lib_util.py:101 | Gathering values distributes over concatenation. |
| DaySeriesProperties.CollectPermutation | lib_util.py:73-101 | Gathering values does not depend on the order of the files. |
| DaySeriesProperties.RemoveAt | lib_util.py:101 | Removing one element of a list. |
| DaySeriesProperties.CollectRemoveAt | lib_util.py:101 | Gathering over a list is gathering without one element plus that element. |
| DaySeriesProperties.BagConcat | lib_util.py:101 | The multiset of rebased values distributes over concatenation. |
| DaySeriesProperties.BagPermutation | lib_util.py:73-101 | Permuting the files keeps the multiset of their rebased values. |
| DaySeriesProperties.RebasedAllBag | lib_util.py:101 | The joined values have exactly the files' rebased values as a multiset. |
| DaySeriesProperties.BagSize | lib_util.py:101 | There are as many rebased values as the files have time values. |
| DaySeriesProperties.MergeLength | lib_util.py:79-101 | `len(self.days)` is the sum of the input files' time-axis lengths. |
| DaySeriesProperties.GapsSpread | lib_util.py:103 | Under the gap check, values `j - i` apart differ by at least `2 * (j - i)`. |
| DaySeriesProperties.MergeStrictlyIncreasing | lib_util.py:103-104 | A constructed series is strictly increasing, by more than one day per step. |
| DaySeriesProperties.StrictlyIncreasingDistinct | lib_util.py:103-104 | A strictly increasing list holds each value at most once. |
| DaySeriesProperties.StrictlyIncreasingUnique | lib_util.py:103 | Two strictly increasing lists with the same values are equal. |
| DaySeriesProperties.Tail | lib_util.py:103 | A strictly increasing list's tail is strictly increasing, with one value fewer. |
| DaySeriesProperties.SameLeast | lib_util.py:103 | Such lists start with the same least value. |
| DaySeriesProperties.MergeBag | lib_util.py:79-101 | The days are, as a multiset, the rebased values of the input files, in whatever order they came. |
| DaySeriesProperties.BagOfRepeated | lib_util.py:101 | A file given twice contributes its values twice. |
| DaySeriesProperties.BagSingleton | lib_util.py:101 | One file contributes exactly its rebased values. |
| DaySeriesProperties.MergeRejectsRepeatedFile | lib_util.py:103-104 | The same file given twice, with at least one time value, makes the construction fail. |
| DaySeriesProperties.MergeRebasedDistinct | lib_util.py:101-104 | After a successful construction, each rebased day value occurs at most once among all files' rebased values, whichever files they come from. |
| DaySeriesProperties.MergeOriginOrderIndependent | lib_util.py:73-76 | Two permutations of the same files that both succeed have the same origin. |
| DaySeriesProperties.MergeOrderIndependent | lib_util.py:71-104 | Two permutations of the same files that both succeed give the same origin and the same days. |
| TimeOriginExamples.DaysSinceOrigin | lib_util.py:38-46 | `"days since 1990-01-01"` gives origin 1990-01-01. |
| TimeOriginExamples.DaysSinceToken | lib_util.py:40-46 | "days since" followed by a date token gives that token's date, or `InvalidDate` when the date is invalid. |
| TimeOriginExamples.NonLeapFebruaryRejected | lib_util.py:44 | 1990-02-29 is rejected with `InvalidDate`. |
| TimeOriginExamples.YearZeroRejected | lib_util.py:44 | Year 0000 is rejected with `InvalidDate`. |
| TimeOriginExamples.LeapDayAccepted | lib_util.py:44-46 | 2000-02-29 is accepted. |
| TimeOriginExamples.UndashedDateRejected | lib_util.py:42-43 | `"days since 19900101"` has no date token, giving `NoDateInUnits`. |
| TimeOriginExamples.TimeCounterPreferred | lib_util.py:35-36 | With both variables present, the origin comes from `time_counter`. |
| TimeOriginExamples.AbsentHeadNotContained | lib_util.py:40-41 | A substring whose first character never occurs (where it could start) is not contained. |
| TimeOriginExamples.NoUnitClause | lib_util.py:40-41 | `"meters since nowhere"` names neither unit. |
| TimeOriginExamples.UnknownUnitRejected | lib_util.py:40-41 | Such units give `InvalidTimeUnits`. |
| DaySeriesExamples.DaysSinceUnits | lib_util.py:91 | Units that start with "days since" contain it. |
| DaySeriesExamples.PairTwo | lib_util.py:54-57 | The loop pairs two files with their origins, in input order. |
| DaySeriesExamples.SortEntriesTwo | lib_util.py:59 | Two entries in decreasing origin order are swapped. |
| DaySeriesExamples.SortTwo | lib_util.py:49-61 | `sort_by_date([later, earlier])` is `[earlier, later]`. |
| DaySeriesExamples.MergeTwo | lib_util.py:71-104 | Two "days since" files in reverse order: the origin is the earlier file's, and the later file's days are shifted by the origins' distance. |
| DaySeriesExamples.SegmentsTwo | lib_util.py:79-101 | The loop over two "days since" files, ordered by origin, joins their values shifted onto the first file's origin. |
| DaySeriesExamples.SortSameOrigin | lib_util.py:49-61 | Two files of the same origin keep their input order (the sort is stable). |
| DaySeriesExamples.MergeSameOrigin | lib_util.py:71-104 | Two "days since" files of the same origin give the first file's values followed by the second's, unshifted, or `RepeatedDates` when those fail the gap check. |
| DaySeriesExamples.OrderMatters | lib_util.py:71-104 | Two same-origin files with days 10 and 0 fail with `RepeatedDates` in that order and give days `[0, 10]` in the other. |
| DaySeriesExamples.DaysSinceTokenFile | lib_util.py:40-46 | A file whose units are exactly `"days since "` followed by a valid `DDDD-DD-DD` token has that origin and those values. |
| DaySeriesExamples.JanuaryFile | lib_util.py:40-46 | A file with units "days since 1990-01-01" has that origin and its values. |
| DaySeriesExamples.MarchFile | lib_util.py:40-46 | The same for 1990-03-01. |
| DaySeriesExamples.MergeTwoMonths | lib_util.py:71-104 | A March file given before a January file gives origin 1990-01-01 and days `[0, 31, 59, 89]`. |
| DaySeriesExamples.DaysSinceFile | lib_util.py:83-91 | A file whose `time` units start with "days since" takes the days branch. |
| DaySeriesExamples.JanuaryToMarch | lib_util.py:98 | 1990-03-01 is 59 days after 1990-01-01. |
| DaySeriesExamples.ShiftedMarch | lib_util.py:101-103 | The shifted March days joined to January's pass the gap check. |
| DaySeriesExamples.OverlapRejected | lib_util.py:103-104 | A January file whose last day falls on March 1 is rejected with `RepeatedDates`. |
| DaySeriesExamples.HoursUnitsAreNotDays | lib_util.py:91-94 | "hours since" units do not take the days branch. |
| DaySeriesExamples.HoursTruncated | lib_util.py:94 | Hours 48, 71 and -25 become days 2, 2 and -1 (truncation toward zero). |

## Left out

- DaySeriesMerge.Merge: models the "hours since" branch as evidently intended (each value divided by 24 and truncated). The source raises TypeError for every hours file (`lib_util.py:94`, `lib_util.py:101`), as `DaySeriesMerge.HoursExtendAsWritten` shows.
- DaySeriesMerge.DaySeries.Create: the same; its loop converts hours value by value, where the source raises TypeError on every hours file (see `DaySeriesMerge.HoursExtendAsWritten`).
- A time variable always carries a `units` attribute in this model, so the AttributeError that `time_var.units` raises for a variable without one (`lib_util.py:40`, `lib_util.py:89`) is not modelled.
- `compress_netcdf_file` (`lib_util.py:14-26`) runs the external `nccopy` program and moves files on disk. It is process and file I/O, with nothing to compute, so it is not part of this model.
- Opening netCDF files is not modelled. A file is its variables with their units and values, so `nc.Dataset(filename)` and the `with` blocks do not appear. Reading a file twice (lines 34 and 80) gives the same value.
- Time values are whole numbers. The source's values are numpy arrays, possibly masked and possibly floating point. The model has no fractional days, no masked entries, and no fixed integer width, so numpy overflow is not modelled. Hours are divided exactly, where `int(h / 24.0)` divides in double precision; the two differ only once |h| exceeds about 2^53.
- The time of day in the units (`00:00:00`) is ignored, as in the source, which parses only the `DDDD-DD-DD` token.
- Python's timsort is modelled by a stable insertion sort. `OriginOrder.ByOriginUnique` shows that every stable sort by origin gives the same list, so the choice of algorithm is not visible.
- `DaySeriesProperties.MergeOrderIndependent` requires both orders to succeed. For files with equal origins, the input order is kept and changes the joined days, so one order can fail the gap check while the other passes.
- Programs and modules outside `lib_util.py` are not part of this model. These are `makenudge.py`, `make_sponges_using_trend.py`, `file_util.py`, their multiprocessing and the test scripts.

## Findings

| source | as written | input that shows it | evidently intended | confidence | as-written member | corrected member |
|---|---|---|---|---|---|---|
| lib_util.py:94-101 | `days = int(time_var[:] / 24.0)` converts the whole hours array with one `int(...)`, then `self.days.extend(days + base_delta.days)` | Any file with "hours since" units and no "days since". For values `[48, 72]`, `int` of a two-element array raises TypeError. For `[48]`, `int` gives a Python int, which `extend` cannot iterate (TypeError). | Each hour value converted to whole days, truncated toward zero, giving `[2, 3]` | not executed | DaySeriesMerge.HoursExtendAsWritten (with DaySeriesMerge.HoursExtendAsWrittenFails and DaySeriesMerge.HoursFileAsWrittenCounterexample) | DaySeriesMerge.ToDays (with DaySeriesMerge.HoursToDays and DaySeriesProperties.RebasedValue) |
