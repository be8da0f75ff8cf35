/**
 * What a `DaySeries` built from a list of forcing files is, stated against
 * the files themselves: its origin is the earliest origin, the `base_delta`
 * assertion cannot fire, its days are the rebased time values of the files
 * concatenated in origin order, there are as many as the files have time
 * values, they increase by more than a day each step, a file given twice is
 * rejected, and the result does not depend on the order of the input.
 */
module DaySeriesProperties {
  import opened Wrappers
  import opened Calendar
  import opened NetCdf
  import opened TimeOrigin
  import opened OriginOrder
  import opened DaySeriesMerge

  /** All the files' origins parse. */
  predicate AllParse(fs: seq<Dataset>) {
    forall k :: 0 <= k < |fs| ==> Parses(fs[k])
  }

  /** The file's time values, in whole days relative to origin (none when its origin does not parse). */
  function Rebased(f: Dataset, origin: Date): (r: seq<int>)
    requires IsValid(origin)
  {
    match GetTimeOrigin(f)
    case Success(fOrigin) => Shift(ToDays(TimeVariable(f).value), DaysBetween(fOrigin, origin))
    case Failure(_) => []
  }

  /** The rebased files, concatenated in order. */
  function RebasedAll(fs: seq<Dataset>, origin: Date): (r: seq<int>)
    requires IsValid(origin)
  {
    if fs == [] then [] else RebasedAll(fs[..|fs| - 1], origin) + Rebased(fs[|fs| - 1], origin)
  }

  /** The number of time values of a file (0 when it has no time variable). */
  function TimeLength(f: Dataset): (r: nat) {
    match TimeVariable(f)
    case Success(v) => |v.values|
    case Failure(_) => 0
  }

  /** The sum of the files' time lengths. */
  function TotalLength(fs: seq<Dataset>): (r: nat) {
    if fs == [] then 0 else TotalLength(fs[..|fs| - 1]) + TimeLength(fs[|fs| - 1])
  }

  /** The union of what g gives for each element. */
  function Collect<T>(xs: seq<T>, g: T -> multiset<int>): (r: multiset<int>) {
    if xs == [] then multiset{} else Collect(xs[..|xs| - 1], g) + g(xs[|xs| - 1])
  }

  /** A file's rebased values, as a multiset. */
  function Contribution(origin: Date): (r: Dataset -> multiset<int>)
    requires IsValid(origin)
  {
    f => multiset(Rebased(f, origin))
  }

  /** The rebased values of all files, as a multiset. */
  function Bag(fs: seq<Dataset>, origin: Date): (r: multiset<int>)
    requires IsValid(origin)
  {
    Collect(fs, Contribution(origin))
  }

  predicate StrictlyIncreasing(xs: seq<int>) {
    forall i, j :: 0 <= i < j < |xs| ==> xs[i] < xs[j]
  }

  // ---------------------------------------------------------------------
  // The sorted files and the origin of a merge

  /** The origin `Merge` takes: that of the first sorted file. */
  lemma {:induction false} MergeShape(files: seq<Dataset>)
    requires Merge(files).Success?
    ensures ByOrigin(files).Success? && |ByOrigin(files).value| > 0
    ensures GetTimeOrigin(ByOrigin(files).value[0]) == Success(Merge(files).value.origin)
    ensures AllParse(ByOrigin(files).value) && AllParse(files)
  {
    ByOriginIsStableSort(files);
  }

  /**
   * The series origin is the earliest origin of all input files: it is the
   * origin of one of them and no file's origin precedes it, so every
   * `base_delta` is at least zero.
   */
  lemma {:induction false} MergeOriginIsEarliest(files: seq<Dataset>)
    requires Merge(files).Success?
    ensures exists k :: 0 <= k < |files| && GetTimeOrigin(files[k]) == Success(Merge(files).value.origin)
    ensures forall k :: 0 <= k < |files| ==>
              Parses(files[k]) && Le(Merge(files).value.origin, Origin(files[k])) &&
              DaysBetween(Origin(files[k]), Merge(files).value.origin) >= 0
  {
    MergeShape(files);
    var sorted := ByOrigin(files).value;
    var o := Merge(files).value.origin;
    ByOriginIsStableSort(files);
    assert sorted[0] in multiset(files);
    var k0 :| 0 <= k0 < |files| && files[k0] == sorted[0];
    forall k | 0 <= k < |files|
      ensures Parses(files[k]) && Le(o, Origin(files[k])) && DaysBetween(Origin(files[k]), o) >= 0
    {
      assert files[k] in multiset(sorted);
      var j :| 0 <= j < |sorted| && sorted[j] == files[k];
      DaysFromCivilOrder(o, Origin(files[k]));
    }
  }

  /** One pass for a file whose origin is not before `origin`: it succeeds with the rebased values. */
  lemma {:induction false} SegmentOfLaterFile(f: Dataset, origin: Date)
    requires Parses(f) && IsValid(origin) && Le(origin, Origin(f))
    ensures Segment(f, origin) == Success(Rebased(f, origin))
  {
    DaysFromCivilOrder(origin, Origin(f));
  }

  /**
   * The loop over files: when no file's origin is before `origin`, every pass
   * succeeds (the unit check and the `base_delta` check pass) and the loop
   * yields the rebased files concatenated.
   */
  lemma {:induction false} SegmentsSucceed(fs: seq<Dataset>, origin: Date)
    requires AllParse(fs) && IsValid(origin)
    requires forall k :: 0 <= k < |fs| ==> Le(origin, Origin(fs[k]))
    ensures Segments(fs, origin) == Success(RebasedAll(fs, origin))
  {
    if fs != [] {
      var n := |fs| - 1;
      var prefix := fs[..n];
      assert AllParse(prefix) && forall k :: 0 <= k < n ==> Le(origin, Origin(prefix[k])) by {
        forall k | 0 <= k < n ensures Parses(prefix[k]) && Le(origin, Origin(prefix[k])) {
          assert prefix[k] == fs[k];
        }
      }
      SegmentsSucceed(prefix, origin);
      SegmentOfLaterFile(fs[n], origin);
      assert Segments(fs, origin) == Success(RebasedAll(prefix, origin) + Rebased(fs[n], origin));
    }
  }

  /**
   * The only ways `DaySeries(files)` fails are the errors of `sort_by_date`,
   * an empty file list, and the final gap check: the re-parse, the second
   * unit check and the `base_delta` assertion never fire.
   */
  lemma {:induction false} MergeErrors(files: seq<Dataset>)
    ensures ByOrigin(files).Failure? ==> Merge(files) == Failure(ByOrigin(files).error)
    ensures files == [] ==> Merge(files) == Failure(NoFiles)
    ensures ByOrigin(files).Success? && files != [] ==> Merge(files).Success? || Merge(files) == Failure(RepeatedDates)
    ensures Merge(files) != Failure(InconsistentOrigin)
  {
    if ByOrigin(files).Success? {
      ByOriginIsStableSort(files);
      var sorted := ByOrigin(files).value;
      if files != [] {
        assert |sorted| == |files| by {
          assert |multiset(sorted)| == |multiset(files)|;
        }
        var o := Origin(sorted[0]);
        forall k | 0 <= k < |sorted| ensures Le(o, Origin(sorted[k])) { }
        SegmentsSucceed(sorted, o);
      } else {
        assert multiset(sorted) == multiset{};
      }
    }
  }

  /**
   * A successful merge keeps the earliest file's origin and its days are the
   * files' rebased time values concatenated in sorted-file order.
   */
  lemma {:induction false} MergeIsConcatenation(files: seq<Dataset>)
    requires Merge(files).Success?
    ensures Merge(files).value.days == RebasedAll(ByOrigin(files).value, Merge(files).value.origin)
  {
    MergeShape(files);
    var sorted := ByOrigin(files).value;
    ByOriginIsStableSort(files);
    var o := Origin(sorted[0]);
    forall k | 0 <= k < |sorted| ensures Le(o, Origin(sorted[k])) { }
    SegmentsSucceed(sorted, o);
  }

  /**
   * The unit conversion of one file: under "days since" (also when "hours
   * since" occurs too) a value is kept, under "hours since" it is divided by
   * 24 and truncated; either way it is shifted by the days from the series
   * origin to the file's origin.
   */
  lemma {:induction false} RebasedValue(f: Dataset, origin: Date, k: nat)
    requires Parses(f) && IsValid(origin) && k < TimeLength(f)
    ensures |Rebased(f, origin)| == TimeLength(f)
    ensures var v := TimeVariable(f).value;
            Rebased(f, origin)[k] ==
              (if Contains(v.units, DaysSince) then v.values[k] else HoursToDays(v.values[k])) +
              (DaysFromCivil(Origin(f)) - DaysFromCivil(origin))
    ensures var v := TimeVariable(f).value;
            !Contains(v.units, DaysSince) ==> Contains(v.units, HoursSince)
  {
  }

  // ---------------------------------------------------------------------
  // Multisets of rebased values

  lemma {:induction false} CollectConcat<T>(a: seq<T>, b: seq<T>, g: T -> multiset<int>)
    ensures Collect(a + b, g) == Collect(a, g) + Collect(b, g)
    decreases |b|
  {
    if b != [] {
      var n := |b| - 1;
      var ab := a + b;
      assert ab[..|ab| - 1] == a + b[..n];
      assert ab[|ab| - 1] == b[n];
      CollectConcat(a, b[..n], g);
    } else {
      assert a + b == a;
    }
  }

  lemma {:induction false} CollectPermutation<T>(a: seq<T>, b: seq<T>, g: T -> multiset<int>)
    requires multiset(a) == multiset(b)
    ensures Collect(a, g) == Collect(b, g)
    decreases |a|
  {
    if a == [] {
      assert |b| == |multiset(b)| == 0;
    } else {
      var n := |a| - 1;
      var x := a[n];
      assert a == a[..n] + [x];
      assert multiset(a[..n]) == multiset(a) - multiset{x};
      assert x in multiset(b);
      var j :| 0 <= j < |b| && b[j] == x;
      var rest := b[..j] + b[j + 1..];
      RemoveAt(b, j);
      CollectPermutation(a[..n], rest, g);
      CollectRemoveAt(b, j, g);
    }
  }

  /** Taking out the element at j removes one occurrence of it. */
  lemma RemoveAt<T>(b: seq<T>, j: nat)
    requires j < |b|
    ensures multiset(b[..j] + b[j + 1..]) == multiset(b) - multiset{b[j]}
  {
    assert b == b[..j] + [b[j]] + b[j + 1..];
  }

  /** Collecting over b is collecting over b without its element at j, plus that element. */
  lemma CollectRemoveAt<T>(b: seq<T>, j: nat, g: T -> multiset<int>)
    requires j < |b|
    ensures Collect(b, g) == Collect(b[..j] + b[j + 1..], g) + g(b[j])
  {
    var b1, b2 := b[..j], b[j + 1..];
    assert b == b1 + [b[j]] + b2;
    CollectConcat(b1, b2, g);
    CollectConcat(b1 + [b[j]], b2, g);
    CollectConcat(b1, [b[j]], g);
    assert [b[j]][..0] == [];
  }

  lemma {:induction false} BagConcat(a: seq<Dataset>, b: seq<Dataset>, origin: Date)
    requires IsValid(origin)
    ensures Bag(a + b, origin) == Bag(a, origin) + Bag(b, origin)
  {
    CollectConcat(a, b, Contribution(origin));
  }

  /** The rebased values of a list of files depend only on which files it holds, not on their order. */
  lemma {:induction false} BagPermutation(a: seq<Dataset>, b: seq<Dataset>, origin: Date)
    requires IsValid(origin) && multiset(a) == multiset(b)
    ensures Bag(a, origin) == Bag(b, origin)
  {
    CollectPermutation(a, b, Contribution(origin));
  }

  lemma {:induction false} RebasedAllBag(fs: seq<Dataset>, origin: Date)
    requires IsValid(origin)
    ensures multiset(RebasedAll(fs, origin)) == Bag(fs, origin)
  {
    if fs != [] {
      RebasedAllBag(fs[..|fs| - 1], origin);
    }
  }

  lemma {:induction false} BagSize(fs: seq<Dataset>, origin: Date)
    requires AllParse(fs) && IsValid(origin)
    ensures |Bag(fs, origin)| == TotalLength(fs)
  {
    if fs != [] {
      var n := |fs| - 1;
      assert AllParse(fs[..n]) by {
        assert forall k :: 0 <= k < n ==> fs[..n][k] == fs[k];
      }
      BagSize(fs[..n], origin);
      assert Parses(fs[n]);
    }
  }

  // ---------------------------------------------------------------------
  // Length, gaps and order

  /** The merged days hold exactly as many values as the input files' time axes together. */
  lemma {:induction false} MergeLength(files: seq<Dataset>)
    requires Merge(files).Success?
    ensures |Merge(files).value.days| == TotalLength(files)
  {
    MergeIsConcatenation(files);
    MergeShape(files);
    ByOriginIsStableSort(files);
    var sorted, o, days := ByOrigin(files).value, Merge(files).value.origin, Merge(files).value.days;
    RebasedAllBag(sorted, o);
    BagPermutation(sorted, files, o);
    BagSize(files, o);
    assert |days| == |multiset(days)|;
  }

  /** Consecutive gaps of more than one day add up: values j - i apart differ by at least 2 * (j - i). */
  lemma {:induction false} GapsSpread(days: seq<int>, i: nat, j: nat)
    requires GapsExceedOneDay(days) && i <= j < |days|
    ensures days[i] + 2 * (j - i) <= days[j]
    decreases j - i
  {
    if i < j {
      GapsSpread(days, i, j - 1);
    }
  }

  /** A successful construction's days are strictly increasing, at least two days apart per step. */
  lemma {:induction false} MergeStrictlyIncreasing(files: seq<Dataset>)
    requires Merge(files).Success?
    ensures forall i, j :: 0 <= i < j < |Merge(files).value.days| ==>
              Merge(files).value.days[i] + 2 * (j - i) <= Merge(files).value.days[j]
    ensures StrictlyIncreasing(Merge(files).value.days)
  {
    var days := Merge(files).value.days;
    forall i, j | 0 <= i < j < |days| ensures days[i] + 2 * (j - i) <= days[j] {
      GapsSpread(days, i, j);
    }
  }

  /** A strictly increasing sequence holds every value at most once. */
  lemma {:induction false} StrictlyIncreasingDistinct(xs: seq<int>, v: int)
    requires StrictlyIncreasing(xs)
    ensures multiset(xs)[v] <= 1
  {
    if xs != [] {
      assert xs == [xs[0]] + xs[1..];
      StrictlyIncreasingDistinct(xs[1..], v);
      if v == xs[0] {
        assert v !in xs[1..];
      }
    }
  }

  /** Two strictly increasing sequences with the same values are equal. */
  lemma {:induction false} StrictlyIncreasingUnique(a: seq<int>, b: seq<int>)
    requires StrictlyIncreasing(a) && StrictlyIncreasing(b) && multiset(a) == multiset(b)
    ensures a == b
    decreases |a|
  {
    if a != [] && b != [] {
      SameLeast(a, b);
      Tail(a);
      Tail(b);
      StrictlyIncreasingUnique(a[1..], b[1..]);
      assert a == [a[0]] + a[1..] && b == [b[0]] + b[1..];
    } else {
      assert |a| == |multiset(a)| == |multiset(b)| == |b|;
    }
  }

  /** Dropping the head of a strictly increasing sequence keeps it so and removes one value. */
  lemma Tail(xs: seq<int>)
    requires StrictlyIncreasing(xs) && xs != []
    ensures StrictlyIncreasing(xs[1..])
    ensures multiset(xs[1..]) == multiset(xs) - multiset{xs[0]}
  {
    assert xs == [xs[0]] + xs[1..];
    var t := xs[1..];
    forall i, j | 0 <= i < j < |t| ensures t[i] < t[j] {
      assert t[i] == xs[i + 1] && t[j] == xs[j + 1];
    }
  }

  /** Two strictly increasing sequences with the same values start with the same, least, value. */
  lemma {:induction false} SameLeast(a: seq<int>, b: seq<int>)
    requires StrictlyIncreasing(a) && StrictlyIncreasing(b) && multiset(a) == multiset(b)
    requires a != [] && b != []
    ensures a[0] == b[0]
  {
    assert a[0] in multiset(b) && b[0] in multiset(a);
    var k :| 0 <= k < |b| && b[k] == a[0];
    var m :| 0 <= m < |a| && a[m] == b[0];
    assert b[0] <= b[k] && a[0] <= a[m];
  }

  /** The merged days hold the rebased values of the input files, as a multiset, whatever their order. */
  lemma {:induction false} MergeBag(files: seq<Dataset>)
    requires Merge(files).Success?
    ensures multiset(Merge(files).value.days) == Bag(files, Merge(files).value.origin)
  {
    MergeIsConcatenation(files);
    MergeShape(files);
    ByOriginIsStableSort(files);
    var sorted, o := ByOrigin(files).value, Merge(files).value.origin;
    RebasedAllBag(sorted, o);
    BagPermutation(sorted, files, o);
  }

  /** A file that occurs twice contributes its rebased values twice. */
  lemma {:induction false} BagOfRepeated(files: seq<Dataset>, i: nat, j: nat, origin: Date)
    requires i < j < |files| && files[i] == files[j] && IsValid(origin)
    ensures multiset(Rebased(files[i], origin)) + multiset(Rebased(files[i], origin)) <= Bag(files, origin)
  {
    var f := files[i];
    var p1, p2, p3 := files[..i], files[i + 1..j], files[j + 1..];
    assert files == p1 + [f] + p2 + [f] + p3;
    BagConcat(p1, [f], origin);
    BagConcat(p1 + [f], p2, origin);
    BagConcat(p1 + [f] + p2, [f], origin);
    BagConcat(p1 + [f] + p2 + [f], p3, origin);
    BagSingleton(f, origin);
  }

  lemma {:induction false} BagSingleton(f: Dataset, origin: Date)
    requires IsValid(origin)
    ensures Bag([f], origin) == multiset(Rebased(f, origin))
  {
    assert [f][..0] == [];
    assert Collect([f], Contribution(origin)) == Collect([], Contribution(origin)) + Contribution(origin)(f);
  }

  /** The same file given twice (with at least one time value) makes the construction fail. */
  lemma {:induction false} MergeRejectsRepeatedFile(files: seq<Dataset>, i: nat, j: nat)
    requires i < j < |files| && files[i] == files[j] && TimeLength(files[i]) > 0
    ensures Merge(files).Failure?
  {
    if Merge(files).Success? {
      var o, days := Merge(files).value.origin, Merge(files).value.days;
      MergeShape(files);
      assert Parses(files[i]);
      MergeBag(files);
      BagOfRepeated(files, i, j, o);
      var v := Rebased(files[i], o)[0];
      assert multiset(Rebased(files[i], o))[v] >= 1;
      assert multiset(days)[v] >= 2;
      MergeStrictlyIncreasing(files);
      StrictlyIncreasingDistinct(days, v);
    }
  }

  /**
   * A successful construction never sees the same rebased day twice, whichever
   * files it comes from: every value occurs at most once among all the files'
   * rebased values.
   */
  lemma {:induction false} MergeRebasedDistinct(files: seq<Dataset>)
    requires Merge(files).Success?
    ensures forall v :: Bag(files, Merge(files).value.origin)[v] <= 1
  {
    var days := Merge(files).value.days;
    MergeBag(files);
    MergeStrictlyIncreasing(files);
    forall v ensures Bag(files, Merge(files).value.origin)[v] <= 1 {
      StrictlyIncreasingDistinct(days, v);
    }
  }

  /** Two successful permutations of the same files start at the same origin. */
  lemma {:induction false} MergeOriginOrderIndependent(a: seq<Dataset>, b: seq<Dataset>)
    requires multiset(a) == multiset(b)
    requires Merge(a).Success? && Merge(b).Success?
    ensures Merge(a).value.origin == Merge(b).value.origin
  {
    var oa, ob := Merge(a).value.origin, Merge(b).value.origin;
    MergeOriginIsEarliest(a);
    MergeOriginIsEarliest(b);
    var ka :| 0 <= ka < |a| && GetTimeOrigin(a[ka]) == Success(oa);
    var kb :| 0 <= kb < |b| && GetTimeOrigin(b[kb]) == Success(ob);
    assert a[ka] in multiset(b);
    assert b[kb] in multiset(a);
    var ia :| 0 <= ia < |b| && b[ia] == a[ka];
    var ib :| 0 <= ib < |a| && a[ib] == b[kb];
    assert Le(ob, oa);
    assert Le(oa, ob);
    DaysFromCivilOrder(oa, ob);
    DaysFromCivilOrder(ob, oa);
  }

  /**
   * The order of the input files is immaterial to a successful result: two
   * permutations of the same files that both succeed give the same origin
   * and the same days.
   */
  lemma {:induction false} MergeOrderIndependent(a: seq<Dataset>, b: seq<Dataset>)
    requires multiset(a) == multiset(b)
    requires Merge(a).Success? && Merge(b).Success?
    ensures Merge(a) == Merge(b)
  {
    MergeOriginOrderIndependent(a, b);
    var o := Merge(a).value.origin;
    MergeBag(a);
    MergeBag(b);
    BagPermutation(a, b, o);
    MergeStrictlyIncreasing(a);
    MergeStrictlyIncreasing(b);
    StrictlyIncreasingUnique(Merge(a).value.days, Merge(b).value.days);
  }
}
