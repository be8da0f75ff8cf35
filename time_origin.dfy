/**
 * `get_time_origin`: the origin date of a forcing file, parsed from the
 * units attribute of its time variable ("days since 1990-01-01 00:00:00").
 */
module TimeOrigin {
  import opened Wrappers
  import opened Calendar
  import opened NetCdf

  const DaysSince := "days since"
  const HoursSince := "hours since"

  /** sub occurs in s starting at index i. */
  predicate OccursAt(s: string, sub: string, i: int) {
    0 <= i && i + |sub| <= |s| && s[i..i + |sub|] == sub
  }

  /** Python's `sub in s`, by scanning s from the left. */
  function Contains(s: string, sub: string): (r: bool)
    ensures r <==> exists i :: OccursAt(s, sub, i)
    decreases |s|
  {
    if |s| < |sub| then false
    else if s[..|sub|] == sub then assert OccursAt(s, sub, 0); true
    else
      var rest := Contains(s[1..], sub);
      assert forall i :: OccursAt(s[1..], sub, i) <==> OccursAt(s, sub, i + 1) by {
        forall i ensures OccursAt(s[1..], sub, i) <==> OccursAt(s, sub, i + 1) {
          if 0 <= i && i + |sub| <= |s| - 1 {
            assert s[1..][i..i + |sub|] == s[i + 1..i + 1 + |sub|];
          }
        }
      }
      assert !OccursAt(s, sub, 0);
      assert (exists i :: OccursAt(s, sub, i)) ==> exists i :: OccursAt(s[1..], sub, i) by {
        if exists i :: OccursAt(s, sub, i) {
          var i :| OccursAt(s, sub, i);
          assert OccursAt(s[1..], sub, i - 1);
        }
      }
      rest
  }

  /** The units name one of the two recognised time units. */
  predicate HasUnitClause(units: string) {
    Contains(units, DaysSince) || Contains(units, HoursSince)
  }

  /** `\d` of a Python 2 byte-string pattern: an ASCII digit. */
  predicate IsDigit(c: char) {
    '0' <= c <= '9'
  }

  function DigitValue(c: char): (n: int)
    requires IsDigit(c)
    ensures 0 <= n <= 9
  {
    c as int - '0' as int
  }

  const DateTokenLength := 10

  /** The pattern `\d{4}-\d{2}-\d{2}` matches s at index i. */
  predicate DateTokenAt(s: string, i: int) {
    0 <= i && i + DateTokenLength <= |s| &&
    IsDigit(s[i]) && IsDigit(s[i + 1]) && IsDigit(s[i + 2]) && IsDigit(s[i + 3]) && s[i + 4] == '-' &&
    IsDigit(s[i + 5]) && IsDigit(s[i + 6]) && s[i + 7] == '-' &&
    IsDigit(s[i + 8]) && IsDigit(s[i + 9])
  }

  /** i is where `re.search` reports the match: the leftmost index at which the pattern matches. */
  predicate FirstDateTokenAt(s: string, i: int) {
    DateTokenAt(s, i) && forall j :: 0 <= j < i ==> !DateTokenAt(s, j)
  }

  /** `re.search(pattern, s)` with the scan started at index `from`: the start of the leftmost match. */
  function SearchDateToken(s: string, from: nat): (r: Option<nat>)
    ensures r.Some? ==> from <= r.value && DateTokenAt(s, r.value)
    ensures r.Some? ==> forall j :: from <= j < r.value ==> !DateTokenAt(s, j)
    ensures r.None? ==> forall j :: from <= j ==> !DateTokenAt(s, j)
    decreases |s| - from
  {
    if from + DateTokenLength > |s| then None
    else if DateTokenAt(s, from) then Some(from)
    else SearchDateToken(s, from + 1)
  }

  /** There is at most one leftmost match. */
  lemma {:induction false} FirstDateTokenUnique(s: string, i: int)
    requires FirstDateTokenAt(s, i)
    ensures forall j :: FirstDateTokenAt(s, j) ==> j == i
  {
  }

  /**
   * The year, month and day that `strptime(token, '%Y-%m-%d')` reads from the
   * token at index i. strptime then accepts exactly the valid dates: its
   * regular expression takes months 01..12 and days 01..31 and leaves a
   * trailing digit unconverted otherwise, and building the date rejects year
   * 0 and days past the end of the month.
   */
  function TokenDate(s: string, i: int): (r: Date)
    requires DateTokenAt(s, i)
  {
    Date(1000 * DigitValue(s[i]) + 100 * DigitValue(s[i + 1]) + 10 * DigitValue(s[i + 2]) + DigitValue(s[i + 3]),
         10 * DigitValue(s[i + 5]) + DigitValue(s[i + 6]),
         10 * DigitValue(s[i + 8]) + DigitValue(s[i + 9]))
  }

  /**
   * `get_time_origin(f)`: select the time variable, require a recognised unit,
   * find the first DDDD-DD-DD token and parse it as a calendar date.
   */
  function GetTimeOrigin(f: Dataset): (r: Result<Date, Error>)
    ensures r.Success? ==> IsValid(r.value)
    ensures r.Failure? ==> r.error in {MissingTimeVariable, InvalidTimeUnits, NoDateInUnits, InvalidDate}
  {
    match TimeVariable(f)
    case Failure(e) => Failure(e)
    case Success(v) =>
      if !HasUnitClause(v.units) then Failure(InvalidTimeUnits)
      else match SearchDateToken(v.units, 0)
        case None => Failure(NoDateInUnits)
        case Some(i) =>
          var d := TokenDate(v.units, i);
          if IsValid(d) then Success(d) else Failure(InvalidDate)
  }

  /**
   * What `get_time_origin` does with each kind of file: no time variable,
   * no recognised unit, no DDDD-DD-DD token, and otherwise the date of the
   * first token, when it is a valid date.
   */
  lemma {:induction false} GetTimeOriginCases(f: Dataset)
    ensures TimeVariable(f).Failure? ==> GetTimeOrigin(f) == Failure(MissingTimeVariable)
    ensures TimeVariable(f).Success? && !HasUnitClause(TimeVariable(f).value.units) ==>
              GetTimeOrigin(f) == Failure(InvalidTimeUnits)
    ensures (TimeVariable(f).Success? && HasUnitClause(TimeVariable(f).value.units) &&
             forall i :: !DateTokenAt(TimeVariable(f).value.units, i)) ==>
              GetTimeOrigin(f) == Failure(NoDateInUnits)
    ensures forall i ::
              (TimeVariable(f).Success? && HasUnitClause(TimeVariable(f).value.units) &&
               FirstDateTokenAt(TimeVariable(f).value.units, i)) ==>
                GetTimeOrigin(f) == (var d := TokenDate(TimeVariable(f).value.units, i);
                                     if IsValid(d) then Success(d) else Failure(InvalidDate))
  {
    if TimeVariable(f).Success? {
      var u := TimeVariable(f).value.units;
      match SearchDateToken(u, 0)
      case None =>
      case Some(i) => FirstDateTokenUnique(u, i);
    }
  }

  /** The file's origin parses. */
  predicate Parses(f: Dataset) {
    GetTimeOrigin(f).Success?
  }

  function Origin(f: Dataset): (r: Date)
    requires Parses(f)
  {
    GetTimeOrigin(f).value
  }
}
