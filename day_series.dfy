/**
 * `DaySeries.__init__`: sort the files by origin, take the earliest origin as
 * the series origin, rebase every file's time values (in whole days) onto it,
 * concatenate them in sorted order and reject the result unless consecutive
 * days are more than one day apart.
 */
module DaySeriesMerge {
  import opened Wrappers
  import opened Calendar
  import opened NetCdf
  import opened TimeOrigin
  import opened OriginOrder

  /** `int(h / 24.0)` for one value: hours to whole days, truncated toward zero. */
  function HoursToDays(h: int): (d: int)
    ensures 0 <= h ==> 0 <= 24 * d <= h < 24 * d + 24
    ensures h < 0 ==> 24 * d - 24 < h <= 24 * d <= 0
  {
    if h >= 0 then h / 24 else -((-h) / 24)
  }

  /**
   * The file's time values as whole days: unchanged for "days since" (which
   * wins when both units occur), each value divided by 24 and truncated for
   * "hours since". The source converts the hours array with one `int(...)`,
   * which fails; see `HoursExtendAsWritten`.
   */
  function ToDays(v: Variable): (days: seq<int>)
    ensures |days| == |v.values|
  {
    if Contains(v.units, DaysSince) then v.values
    else seq(|v.values|, k requires 0 <= k < |v.values| => HoursToDays(v.values[k]))
  }

  /** `days + base_delta.days`, element-wise. */
  function Shift(xs: seq<int>, delta: int): (ys: seq<int>)
    ensures |ys| == |xs| && forall k :: 0 <= k < |xs| ==> ys[k] == xs[k] + delta
  {
    seq(|xs|, k requires 0 <= k < |xs| => xs[k] + delta)
  }

  /** One pass of the loop over files: the file's rebased days, or the error the pass raises. */
  function Segment(f: Dataset, origin: Date): (r: Result<seq<int>, Error>)
    requires IsValid(origin)
  {
    match GetTimeOrigin(f)
    case Failure(e) => Failure(e)
    case Success(fOrigin) =>
      match TimeVariable(f)
      case Failure(e) => Failure(e)
      case Success(v) =>
        if !HasUnitClause(v.units) then Failure(InvalidTimeUnits)
        else
          var baseDelta := DaysBetween(fOrigin, origin);
          if baseDelta < 0 then Failure(InconsistentOrigin)
          else Success(Shift(ToDays(v), baseDelta))
  }

  /** The loop over files: the segments concatenated in order, or the first error. */
  function Segments(fs: seq<Dataset>, origin: Date): (r: Result<seq<int>, Error>)
    requires IsValid(origin)
  {
    if fs == [] then Success([])
    else
      match Segments(fs[..|fs| - 1], origin)
      case Failure(e) => Failure(e)
      case Success(prefix) =>
        match Segment(fs[|fs| - 1], origin)
        case Failure(e) => Failure(e)
        case Success(seg) => Success(prefix + seg)
  }

  /** `np.all(np.diff(days) > 1)` */
  predicate GapsExceedOneDay(days: seq<int>) {
    forall i :: 0 <= i < |days| - 1 ==> days[i + 1] - days[i] > 1
  }

  /** The state a successful `DaySeries(files)` ends in. */
  datatype Series = Series(origin: Date, days: seq<int>)

  /** What `DaySeries(files)` computes, or the error it raises. */
  function Merge(files: seq<Dataset>): (r: Result<Series, Error>)
    ensures r.Success? ==> IsValid(r.value.origin) && GapsExceedOneDay(r.value.days)
  {
    match ByOrigin(files)
    case Failure(e) => Failure(e)
    case Success(sorted) =>
      if |sorted| == 0 then Failure(NoFiles)
      else
        match GetTimeOrigin(sorted[0])
        case Failure(e) => Failure(e)
        case Success(origin) =>
          match Segments(sorted, origin)
          case Failure(e) => Failure(e)
          case Success(days) =>
            if GapsExceedOneDay(days) then Success(Series(origin, days)) else Failure(RepeatedDates)
  }

  lemma {:induction false} SegmentsStep(fs: seq<Dataset>, i: nat, origin: Date, days: seq<int>, seg: seq<int>)
    requires IsValid(origin) && i < |fs|
    requires Segments(fs[..i], origin) == Success(days) && Segment(fs[i], origin) == Success(seg)
    ensures Segments(fs[..i + 1], origin) == Success(days + seg)
  {
    assert fs[..i + 1][..i] == fs[..i];
  }

  /** In files sorted by origin, every origin parses and none is before the first. */
  lemma {:induction false} SortedOriginBounds(fs: seq<Dataset>, i: nat)
    requires SortedByOrigin(fs) && i < |fs|
    ensures Parses(fs[0]) && Parses(fs[i]) && Le(Origin(fs[0]), Origin(fs[i]))
  {
  }

  /**
   * One pass of the loop over files sorted by origin, rebasing onto the
   * first file's origin: the file's origin parses, its units name a unit,
   * its `base_delta` is not negative, and its segment extends the days.
   */
  lemma SortedStep(fs: seq<Dataset>, i: nat, origin: Date, days: seq<int>)
    requires SortedByOrigin(fs) && i < |fs| && GetTimeOrigin(fs[0]) == Success(origin)
    requires Segments(fs[..i], origin) == Success(days)
    ensures GetTimeOrigin(fs[i]).Success? && TimeVariable(fs[i]).Success?
    ensures HasUnitClause(TimeVariable(fs[i]).value.units)
    ensures DaysBetween(GetTimeOrigin(fs[i]).value, origin) >= 0
    ensures Segments(fs[..i + 1], origin) ==
            Success(days + Shift(ToDays(TimeVariable(fs[i]).value), DaysBetween(GetTimeOrigin(fs[i]).value, origin)))
  {
    SortedOriginBounds(fs, i);
    var fOrigin := GetTimeOrigin(fs[i]).value;
    DaysFromCivilOrder(origin, fOrigin);
    assert Segment(fs[i], origin) ==
           Success(Shift(ToDays(TimeVariable(fs[i]).value), DaysBetween(fOrigin, origin)));
    SegmentsStep(fs, i, origin, days, Shift(ToDays(TimeVariable(fs[i]).value), DaysBetween(fOrigin, origin)));
  }

  /** `Merge` once the files are sorted and every pass of the loop has succeeded. */
  lemma MergeOfSorted(files: seq<Dataset>, fs: seq<Dataset>, origin: Date, days: seq<int>)
    requires ByOrigin(files) == Success(fs) && |fs| > 0 && GetTimeOrigin(fs[0]) == Success(origin)
    requires Segments(fs, origin) == Success(days)
    ensures Merge(files) == if GapsExceedOneDay(days) then Success(Series(origin, days)) else Failure(RepeatedDates)
  {
  }

  class DaySeries {
    var origin: Date
    var days: seq<int>

    /** `self.origin = ...` and `self.days = []` */
    constructor (origin: Date)
      ensures this.origin == origin && days == []
    {
      this.origin := origin;
      days := [];
    }

    /**
     * `DaySeries(files)`. The origin of every sorted file was parsed once
     * already while sorting, so its re-parse and its unit check succeed, and
     * `base_delta >= 0` is proved rather than checked.
     */
    static method Create(files: seq<Dataset>) returns (r: Result<DaySeries, Error>)
      ensures Merge(files).Failure? ==> r.Failure? && r.error == Merge(files).error
      ensures Merge(files).Success? ==>
                r.Success? && r.value.origin == Merge(files).value.origin &&
                r.value.days == Merge(files).value.days
    {
      var sorted := SortByDate(files);
      if sorted.Failure? {
        return Failure(sorted.error);
      }
      var fs := sorted.value;
      if |fs| == 0 {
        return Failure(NoFiles);
      }
      var first := GetTimeOrigin(fs[0]);
      SortedOriginBounds(fs, 0);
      assert first.Success?;
      var series := new DaySeries(first.value);
      for i := 0 to |fs|
        invariant series.origin == first.value
        invariant Segments(fs[..i], series.origin) == Success(series.days)
      {
        SortedStep(fs, i, series.origin, series.days);
        var fOrigin := GetTimeOrigin(fs[i]);
        assert fOrigin.Success?;
        var timeVar := TimeVariable(fs[i]);
        var units := timeVar.value.units;
        assert Contains(units, DaysSince) || Contains(units, HoursSince);
        var days := ToDays(timeVar.value);
        var baseDelta := DaysBetween(fOrigin.value, series.origin);
        assert baseDelta >= 0;
        series.days := series.days + Shift(days, baseDelta);
      }
      assert fs[..|fs|] == fs;
      MergeOfSorted(files, fs, series.origin, series.days);
      if !GapsExceedOneDay(series.days) {
        return Failure(RepeatedDates);
      }
      r := Success(series);
    }
  }

  /** A value numpy hands back to Python code: a Python scalar or an array. */
  datatype PyValue = Scalar(x: int) | Array(xs: seq<int>)

  /** `int(a)` on a numpy array: only a one-element array converts; any other size raises TypeError (None). */
  function IntOfArray(a: seq<int>): (r: Option<PyValue>) {
    if |a| == 1 then Some(Scalar(a[0])) else None
  }

  /** `v + n`: element-wise on an array, plain addition on a scalar. */
  function AddInt(v: PyValue, n: int): (r: PyValue) {
    match v
    case Scalar(x) => Scalar(x + n)
    case Array(xs) => Array(Shift(xs, n))
  }

  /** `list.extend(v)`: needs an iterable; a Python int raises TypeError (None). */
  function ExtendList(days: seq<int>, v: PyValue): (r: Option<seq<int>>) {
    match v
    case Scalar(_) => None
    case Array(xs) => Some(days + xs)
  }

  /**
   * The "hours since" branch exactly as written:
   * `days = int(time_var[:] / 24.0)` and then `self.days.extend(days + base_delta.days)`.
   */
  function HoursExtendAsWritten(days: seq<int>, hours: seq<int>, baseDelta: int): (r: Option<seq<int>>) {
    var quotients := seq(|hours|, k requires 0 <= k < |hours| => HoursToDays(hours[k]));
    match IntOfArray(quotients)
    case None => None
    case Some(v) => ExtendList(days, AddInt(v, baseDelta))
  }

  /**
   * As written, the hours branch fails for every file: `int(...)` rejects an
   * array of any size but one, and the one-element case becomes an int that
   * `extend` cannot iterate.
   */
  lemma {:induction false} HoursExtendAsWrittenFails(days: seq<int>, hours: seq<int>, baseDelta: int)
    ensures HoursExtendAsWritten(days, hours, baseDelta) == None
  {
  }

  /** A two-value hours file (48 and 72 hours, days 2 and 3) and a one-value one both fail as written. */
  lemma HoursFileAsWrittenCounterexample()
    ensures HoursExtendAsWritten([], [48, 72], 0) == None
    ensures HoursExtendAsWritten([], [48], 0) == None
  {
  }
}

