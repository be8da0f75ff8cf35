/**
 * An abstract netCDF forcing file: only what the time-axis logic reads, the
 * variables by name, each with its `units` attribute and its values. Opening
 * and reading a real file is not part of this model.
 */
module NetCdf {
  import opened Wrappers

  /** A netCDF variable: its units attribute and its values (whole numbers here). */
  datatype Variable = Variable(units: string, values: seq<int>)

  /** A forcing file, as the mapping `f.variables` from variable name to variable. */
  datatype Dataset = Dataset(variables: map<string, Variable>)

  /** The ways the time-axis logic fails; each is a raise site of `lib_util.py`. */
  datatype Error =
    | MissingTimeVariable  // neither `time_counter` nor `time`: `f.variables['time']` raises KeyError
    | InvalidTimeUnits     // the units hold neither "days since" nor "hours since"
    | NoDateInUnits        // `re.search` found no DDDD-DD-DD token
    | InvalidDate          // `strptime(..., '%Y-%m-%d')` raised ValueError
    | NoFiles              // `files[0]` on an empty file list raises IndexError
    | InconsistentOrigin   // `assert base_delta >= dt.timedelta(0)`
    | RepeatedDates        // `assert np.all(np.diff(self.days) > 1)`

  const TimeCounter := "time_counter"
  const Time := "time"

  /** The time variable: `time_counter` when the file has one, otherwise `time`. */
  function TimeVariable(f: Dataset): (r: Result<Variable, Error>)
    ensures r.Success? <==> TimeCounter in f.variables || Time in f.variables
    ensures TimeCounter in f.variables ==> r == Success(f.variables[TimeCounter])
    ensures TimeCounter !in f.variables && Time in f.variables ==> r == Success(f.variables[Time])
    ensures r.Failure? ==> r.error == MissingTimeVariable
  {
    if TimeCounter in f.variables then Success(f.variables[TimeCounter])
    else if Time in f.variables then Success(f.variables[Time])
    else Failure(MissingTimeVariable)
  }
}
