/** Worked cases of `DaySeries(files)` on two monthly forcing files. */
module DaySeriesExamples {
  import opened Wrappers
  import opened Calendar
  import opened NetCdf
  import opened TimeOrigin
  import opened OriginOrder
  import opened DaySeriesMerge
  import opened TimeOriginExamples

  lemma {:induction false} DaysSinceUnits(units: string)
    requires |units| >= |DaysSince| && units[..|DaysSince|] == DaysSince
    ensures Contains(units, DaysSince)
  {
    assert OccursAt(units, DaysSince, 0);
  }

  lemma {:induction false} PairTwo(a: Dataset, b: Dataset)
    requires Parses(a) && Parses(b)
    ensures PairWithOrigins([b, a]) == Success([Entry(b, Origin(b)), Entry(a, Origin(a))])
  {
    var ea, eb := Entry(a, Origin(a)), Entry(b, Origin(b));
    assert [b, a][..1] == [b];
    assert [b][..0] == [];
    assert PairWithOrigins([]) == Success([]);
    assert [] + [eb] == [eb];
    assert PairWithOrigins([b]) == Success([eb]);
    assert [eb] + [ea] == [eb, ea];
  }

  lemma {:induction false} SortEntriesTwo(ea: Entry, eb: Entry)
    requires Lt(ea.origin, eb.origin)
    ensures StableSort([eb, ea]) == [ea, eb]
  {
    assert [eb, ea][1..] == [ea];
    assert [ea][1..] == [];
    assert StableSort([ea]) == Insert(ea, []) == [ea];
    assert !Le(eb.origin, ea.origin);
    assert [ea][1..] == [];
    assert Insert(eb, [ea]) == [ea] + Insert(eb, []);
  }

  /** Two files given latest first are sorted earliest first. */
  lemma {:induction false} SortTwo(a: Dataset, b: Dataset)
    requires Parses(a) && Parses(b) && Lt(Origin(a), Origin(b))
    ensures ByOrigin([b, a]) == Success([a, b])
  {
    PairTwo(a, b);
    SortEntriesTwo(Entry(a, Origin(a)), Entry(b, Origin(b)));
    assert Files([Entry(a, Origin(a)), Entry(b, Origin(b))]) == [a, b];
  }

  /**
   * Two "days since" files given latest first: the origin is the earlier
   * one's, and the later file's values follow, shifted by the days between
   * the two origins.
   */
  lemma {:induction false} MergeTwo(a: Dataset, b: Dataset)
    requires Parses(a) && Parses(b) && Lt(Origin(a), Origin(b))
    requires TimeVariable(a).Success? && Contains(TimeVariable(a).value.units, DaysSince)
    requires TimeVariable(b).Success? && Contains(TimeVariable(b).value.units, DaysSince)
    ensures var days := TimeVariable(a).value.values +
                        Shift(TimeVariable(b).value.values, DaysBetween(Origin(b), Origin(a)));
            Merge([b, a]) == if GapsExceedOneDay(days) then Success(Series(Origin(a), days)) else Failure(RepeatedDates)
  {
    SortTwo(a, b);
    SegmentsTwo(a, b);
  }

  lemma {:induction false} SegmentsTwo(a: Dataset, b: Dataset)
    requires Parses(a) && Parses(b) && Le(Origin(a), Origin(b))
    requires TimeVariable(a).Success? && Contains(TimeVariable(a).value.units, DaysSince)
    requires TimeVariable(b).Success? && Contains(TimeVariable(b).value.units, DaysSince)
    ensures Segments([a, b], Origin(a)) ==
            Success(TimeVariable(a).value.values +
                    Shift(TimeVariable(b).value.values, DaysBetween(Origin(b), Origin(a))))
  {
    var o := Origin(a);
    var va, vb := TimeVariable(a).value.values, TimeVariable(b).value.values;
    DaysFromCivilOrder(o, Origin(b));
    assert Segment(a, o) == Success(Shift(va, 0));
    assert Shift(va, 0) == va;
    assert Segment(b, o) == Success(Shift(vb, DaysBetween(Origin(b), o)));
    assert [a, b][..1] == [a];
    assert [a][..0] == [];
    assert Segments([], o) == Success([]);
    assert [] + va == va;
    assert Segments([a], o) == Success(va);
  }

  /** Two files of the same origin keep their input order. */
  lemma {:induction false} SortSameOrigin(a: Dataset, b: Dataset)
    requires Parses(a) && Parses(b) && Origin(a) == Origin(b)
    ensures ByOrigin([a, b]) == Success([a, b])
  {
    var ea, eb := Entry(a, Origin(a)), Entry(b, Origin(b));
    PairTwo(b, a);
    assert [ea, eb][1..] == [eb];
    assert [eb][1..] == [];
    assert StableSort([eb]) == Insert(eb, []) == [eb];
    assert StableSort([ea, eb]) == Insert(ea, [eb]) == [ea, eb];
    assert Files([ea, eb]) == [a, b];
  }

  /**
   * Two "days since" files of the same origin: the days are the first file's
   * values followed by the second's, unshifted, so the input order decides
   * the result.
   */
  lemma {:induction false} MergeSameOrigin(a: Dataset, b: Dataset)
    requires Parses(a) && Parses(b) && Origin(a) == Origin(b)
    requires TimeVariable(a).Success? && Contains(TimeVariable(a).value.units, DaysSince)
    requires TimeVariable(b).Success? && Contains(TimeVariable(b).value.units, DaysSince)
    ensures var days := TimeVariable(a).value.values + TimeVariable(b).value.values;
            Merge([a, b]) == if GapsExceedOneDay(days) then Success(Series(Origin(a), days)) else Failure(RepeatedDates)
  {
    SortSameOrigin(a, b);
    SegmentsTwo(a, b);
    var vb := TimeVariable(b).value.values;
    assert Shift(vb, DaysBetween(Origin(b), Origin(a))) == vb;
  }

  /**
   * The input order matters: two files of the same origin holding day 10 and
   * day 0 fail the gap check given in that order and succeed given the other
   * way round.
   */
  lemma {:induction false} OrderMatters(first: Dataset, second: Dataset)
    requires DaysFile(first, Date(1990, 1, 1), [10])
    requires DaysFile(second, Date(1990, 1, 1), [0])
    ensures Merge([first, second]) == Failure(RepeatedDates)
    ensures Merge([second, first]) == Success(Series(Date(1990, 1, 1), [0, 10]))
  {
    MergeSameOrigin(first, second);
    MergeSameOrigin(second, first);
    assert ([10] + [0])[1] - ([10] + [0])[0] <= 1;
    assert [0] + [10] == [0, 10];
    assert GapsExceedOneDay([0, 10]);
  }

  /** f is a "days since" file with the given origin and time values. */
  predicate DaysFile(f: Dataset, origin: Date, values: seq<int>) {
    GetTimeOrigin(f) == Success(origin) &&
    TimeVariable(f).Success? && TimeVariable(f).value.values == values &&
    Contains(TimeVariable(f).value.units, DaysSince)
  }

  /** "days since " and a valid DDDD-DD-DD token make a "days since" file with the token's date as origin. */
  lemma {:induction false} DaysSinceTokenFile(t: string, values: seq<int>)
    requires |t| == DateTokenLength && DateTokenAt(t, 0) && IsValid(TokenDate(t, 0))
    ensures DaysFile(FileWithUnits("days since " + t, values), TokenDate(t, 0), values)
  {
    var u := "days since " + t;
    assert u + "" == u;
    DaysSinceToken(FileWithUnits(u, values), t, "");
    assert u[..|DaysSince|] == DaysSince;
    DaysSinceFile(FileWithUnits(u, values), u, values);
  }

  /** A "days since 1990-01-01" file is a January file. */
  lemma {:induction false} JanuaryFile(values: seq<int>)
    ensures DaysFile(FileWithUnits("days since 1990-01-01", values), Date(1990, 1, 1), values)
  {
    var t := "1990-01-01";
    assert "days since " + t == "days since 1990-01-01";
    assert DateTokenAt(t, 0) && TokenDate(t, 0) == Date(1990, 1, 1) && IsValid(Date(1990, 1, 1));
    DaysSinceTokenFile(t, values);
  }

  /** A "days since 1990-03-01" file is a March file. */
  lemma {:induction false} MarchFile(values: seq<int>)
    ensures DaysFile(FileWithUnits("days since 1990-03-01", values), Date(1990, 3, 1), values)
  {
    var t := "1990-03-01";
    assert "days since " + t == "days since 1990-03-01";
    assert DateTokenAt(t, 0) && TokenDate(t, 0) == Date(1990, 3, 1) && IsValid(Date(1990, 3, 1));
    DaysSinceTokenFile(t, values);
  }

  /**
   * January (days 0 and 31 since 1990-01-01) and March (days 0 and 30 since
   * 1990-03-01), given March first, merge onto the January origin: March is
   * shifted by the 59 days of January and February. `JanuaryFile` and
   * `MarchFile` give two such files.
   */
  lemma {:induction false} MergeTwoMonths(january: Dataset, march: Dataset)
    requires DaysFile(january, Date(1990, 1, 1), [0, 31])
    requires DaysFile(march, Date(1990, 3, 1), [0, 30])
    ensures Merge([march, january]) == Success(Series(Date(1990, 1, 1), [0, 31, 59, 89]))
  {
    JanuaryToMarch();
    ShiftedMarch();
    MergeTwo(january, march);
  }

  /** A "days since" file with a single time variable. */
  lemma {:induction false} DaysSinceFile(f: Dataset, units: string, values: seq<int>)
    requires f == FileWithUnits(units, values)
    requires |units| >= |DaysSince| && units[..|DaysSince|] == DaysSince
    ensures TimeVariable(f) == Success(Variable(units, values))
    ensures Contains(TimeVariable(f).value.units, DaysSince)
  {
    DaysSinceUnits(units);
  }

  /** January and February 1990 have 59 days. */
  lemma JanuaryToMarch()
    ensures Lt(Date(1990, 1, 1), Date(1990, 3, 1))
    ensures DaysBetween(Date(1990, 3, 1), Date(1990, 1, 1)) == 59
  {
  }

  lemma ShiftedMarch()
    ensures [0, 31] + Shift([0, 30], 59) == [0, 31, 59, 89]
    ensures GapsExceedOneDay([0, 31, 59, 89])
  {
    var s := Shift([0, 30], 59);
    assert s[0] == 59 && s[1] == 89 && |s| == 2;
    assert s == [59, 89];
    var days := [0, 31, 59, 89];
    forall i | 0 <= i < |days| - 1 ensures days[i + 1] - days[i] > 1 {
      assert i == 0 || i == 1 || i == 2;
    }
  }

  /**
   * A January file that runs on to day 59 (1 March) overlaps the March file
   * by a day, and the construction fails.
   */
  lemma {:induction false} OverlapRejected(january: Dataset, march: Dataset)
    requires DaysFile(january, Date(1990, 1, 1), [0, 31, 59])
    requires DaysFile(march, Date(1990, 3, 1), [0, 30])
    ensures Merge([march, january]) == Failure(RepeatedDates)
  {
    JanuaryToMarch();
    MergeTwo(january, march);
    var days := [0, 31, 59] + Shift([0, 30], 59);
    assert days[3] == 59 && days[2] == 59;
  }

  lemma HoursUnitsAreNotDays()
    ensures !Contains("hours since 1990-01-01", DaysSince)
  {
    var u := "hours since 1990-01-01";
    assert u[..13] == "hours since 1" && 'd' !in u[..13];
    AbsentHeadNotContained(u, DaysSince);
  }

  /**
   * Without "days since" (as in "hours since 1990-01-01"), hours become whole
   * days, truncated toward zero: 48 and 71 hours are day 2, -25 hours is day -1.
   */
  lemma {:induction false} HoursTruncated(units: string)
    requires !Contains(units, DaysSince)
    ensures ToDays(Variable(units, [48, 71, -25])) == [2, 2, -1]
  {
    var hours := [48, 71, -25];
    var r := ToDays(Variable(units, hours));
    assert r[0] == HoursToDays(48) == 2;
    assert r[1] == HoursToDays(71) == 2;
    assert r[2] == HoursToDays(-25) == -1;
  }
}
