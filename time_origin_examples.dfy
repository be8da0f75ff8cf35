/** Worked cases of `get_time_origin` on concrete units strings, for any time values. */
module TimeOriginExamples {
  import opened Wrappers
  import opened Calendar
  import opened NetCdf
  import opened TimeOrigin

  function FileWithUnits(units: string, values: seq<int>): (r: Dataset) {
    Dataset(map[Time := Variable(units, values)])
  }

  /** "days since 1990-01-01" has origin 1990-01-01. */
  lemma {:induction false} DaysSinceOrigin(values: seq<int>)
    ensures GetTimeOrigin(FileWithUnits("days since 1990-01-01", values)) == Success(Date(1990, 1, 1))
  {
    var t := "1990-01-01";
    assert "days since " + t + "" == "days since 1990-01-01";
    assert DateTokenAt(t, 0) && TokenDate(t, 0) == Date(1990, 1, 1);
    assert IsValid(Date(1990, 1, 1));
    DaysSinceToken(FileWithUnits("days since 1990-01-01", values), t, "");
  }

  /**
   * "days since " followed by a DDDD-DD-DD token and anything else: the
   * token is the first one, and its date is the origin when it is valid.
   */
  lemma {:induction false} DaysSinceToken(f: Dataset, t: string, rest: string)
    requires |t| == DateTokenLength && DateTokenAt(t, 0)
    requires TimeVariable(f).Success? && TimeVariable(f).value.units == "days since " + t + rest
    ensures GetTimeOrigin(f) == (if IsValid(TokenDate(t, 0)) then Success(TokenDate(t, 0)) else Failure(InvalidDate))
  {
    var u := "days since " + t + rest;
    assert u[..10] == DaysSince;
    assert OccursAt(u, DaysSince, 0);
    assert u[10] == ' ';
    forall j | 0 <= j < 11 ensures !DateTokenAt(u, j) { }
    assert u[11..21] == t;
    assert FirstDateTokenAt(u, 11);
    assert TokenDate(u, 11) == TokenDate(t, 0);
  }

  /** A date past the end of its month is no origin. */
  lemma {:induction false} NonLeapFebruaryRejected(values: seq<int>)
    ensures GetTimeOrigin(FileWithUnits("days since 1990-02-29 00:00:00", values)) == Failure(InvalidDate)
  {
    var t := "1990-02-29";
    var rest := " 00:00:00";
    assert "days since " + t + rest == "days since 1990-02-29 00:00:00";
    assert DateTokenAt(t, 0) && TokenDate(t, 0) == Date(1990, 2, 29);
    assert !IsValid(Date(1990, 2, 29));
    DaysSinceToken(FileWithUnits("days since 1990-02-29 00:00:00", values), t, rest);
  }

  /** The year 0 is out of range. */
  lemma {:induction false} YearZeroRejected(values: seq<int>)
    ensures GetTimeOrigin(FileWithUnits("days since 0000-01-01", values)) == Failure(InvalidDate)
  {
    var t := "0000-01-01";
    assert DateTokenAt(t, 0) && TokenDate(t, 0) == Date(0, 1, 1);
    assert !IsValid(Date(0, 1, 1));
    assert "days since " + t + "" == "days since 0000-01-01";
    DaysSinceToken(FileWithUnits("days since 0000-01-01", values), t, "");
  }

  /** A leap day is a valid origin. */
  lemma {:induction false} LeapDayAccepted(values: seq<int>)
    ensures GetTimeOrigin(FileWithUnits("days since 2000-02-29", values)) == Success(Date(2000, 2, 29))
  {
    var t := "2000-02-29";
    assert DateTokenAt(t, 0) && TokenDate(t, 0) == Date(2000, 2, 29);
    assert IsLeapYear(2000) && IsValid(Date(2000, 2, 29));
    assert "days since " + t + "" == "days since 2000-02-29";
    DaysSinceToken(FileWithUnits("days since 2000-02-29", values), t, "");
  }

  /** A date written without dashes is not a DDDD-DD-DD token. */
  lemma {:induction false} UndashedDateRejected(values: seq<int>)
    ensures GetTimeOrigin(FileWithUnits("days since 19900101", values)) == Failure(NoDateInUnits)
  {
    var u := "days since 19900101";
    assert OccursAt(u, DaysSince, 0);
    forall j | 0 <= j < 10 ensures !DateTokenAt(u, j) { }
  }

  /** When both variables exist, `time_counter` gives the origin and `time` is ignored. */
  lemma {:induction false} TimeCounterPreferred(values: seq<int>)
    ensures var f := Dataset(map[TimeCounter := Variable("days since 2000-01-01", values),
                                 Time := Variable("days since 1990-01-01", values)]);
            GetTimeOrigin(f) == Success(Date(2000, 1, 1))
  {
    var f := Dataset(map[TimeCounter := Variable("days since 2000-01-01", values),
                         Time := Variable("days since 1990-01-01", values)]);
    var t := "2000-01-01";
    assert "days since " + t + "" == "days since 2000-01-01";
    assert DateTokenAt(t, 0) && TokenDate(t, 0) == Date(2000, 1, 1);
    DaysSinceToken(f, t, "");
  }

  /** sub cannot occur where its first character never stands. */
  lemma {:induction false} AbsentHeadNotContained(s: string, sub: string)
    requires 0 < |sub| <= |s| && sub[0] !in s[..|s| - |sub| + 1]
    ensures !Contains(s, sub)
  {
    forall i | 0 <= i && i + |sub| <= |s| ensures !OccursAt(s, sub, i) {
      assert s[i..i + |sub|][0] == s[..|s| - |sub| + 1][i];
    }
  }

  lemma NoUnitClause()
    ensures !HasUnitClause("meters since nowhere")
  {
    var u := "meters since nowhere";
    assert u[..11] == "meters sinc" && 'd' !in u[..11];
    assert u[..10] == "meters sin" && 'h' !in u[..10];
    AbsentHeadNotContained(u, DaysSince);
    AbsentHeadNotContained(u, HoursSince);
  }

  /** A units string with neither unit is rejected, whatever else it holds. */
  lemma {:induction false} UnknownUnitRejected(values: seq<int>)
    ensures GetTimeOrigin(FileWithUnits("meters since nowhere", values)) == Failure(InvalidTimeUnits)
  {
    NoUnitClause();
    assert TimeVariable(FileWithUnits("meters since nowhere", values)).value.units == "meters since nowhere";
  }
}
