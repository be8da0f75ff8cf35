/**
 * `sort_by_date`: pair every file with its parsed origin, sort the pairs by
 * origin with Python's stable `list.sort`, and return the files in that order.
 */
module OriginOrder {
  import opened Wrappers
  import opened Calendar
  import opened NetCdf
  import opened TimeOrigin

  /** One element of `files_with_dates`: a file and its origin. */
  datatype Entry = Entry(file: Dataset, origin: Date)

  /** Every entry carries the origin parsed from its own file. */
  predicate Consistent(es: seq<Entry>) {
    forall i :: 0 <= i < |es| ==> GetTimeOrigin(es[i].file) == Success(es[i].origin)
  }

  /** Non-decreasing by origin, as `list.sort(key=lambda x: x[1])` leaves them. */
  predicate Sorted(es: seq<Entry>) {
    forall i, j :: 0 <= i < j < |es| ==> Le(es[i].origin, es[j].origin)
  }

  /** The entries whose origin is d, in their order. */
  function WithOrigin(es: seq<Entry>, d: Date): (r: seq<Entry>) {
    if es == [] then []
    else (if es[0].origin == d then [es[0]] else []) + WithOrigin(es[1..], d)
  }

  /** The files whose origin is d, in their order. */
  function FilesWithOrigin(fs: seq<Dataset>, d: Date): (r: seq<Dataset>) {
    if fs == [] then []
    else (if GetTimeOrigin(fs[0]) == Success(d) then [fs[0]] else []) + FilesWithOrigin(fs[1..], d)
  }

  /** `[f for f, _ in files_with_dates]` */
  function Files(es: seq<Entry>): (fs: seq<Dataset>)
    ensures |fs| == |es| && forall i :: 0 <= i < |es| ==> fs[i] == es[i].file
  {
    seq(|es|, i requires 0 <= i < |es| => es[i].file)
  }

  /**
   * The list the loop of `sort_by_date` builds: the entries in input order,
   * or the error of the first file whose origin does not parse.
   */
  function PairWithOrigins(files: seq<Dataset>): (r: Result<seq<Entry>, Error>)
    ensures r.Success? <==> forall i :: 0 <= i < |files| ==> Parses(files[i])
    ensures r.Success? ==> Consistent(r.value) && Files(r.value) == files
    ensures r.Failure? ==>
              exists i :: 0 <= i < |files| && GetTimeOrigin(files[i]) == Failure(r.error) &&
                          forall j :: 0 <= j < i ==> Parses(files[j])
  {
    if files == [] then Success([])
    else
      var n := |files| - 1;
      assert files[..n] + [files[n]] == files;
      match PairWithOrigins(files[..n])
      case Failure(e) => Failure(e)
      case Success(es) =>
        match GetTimeOrigin(files[n])
        case Failure(e) => Failure(e)
        case Success(d) => Success(es + [Entry(files[n], d)])
  }

  /** Insert e before the first entry whose origin is not earlier than its own. */
  function Insert(e: Entry, es: seq<Entry>): (r: seq<Entry>) {
    if es == [] then [e]
    else if Le(e.origin, es[0].origin) then [e] + es
    else [es[0]] + Insert(e, es[1..])
  }

  /**
   * A stable sort by origin (insertion sort). `list.sort` is timsort;
   * `StableSortUnique` shows that every stable sort by origin yields this list.
   */
  function StableSort(es: seq<Entry>): (r: seq<Entry>) {
    if es == [] then [] else Insert(es[0], StableSort(es[1..]))
  }

  /** The files are ordered by origin: every origin parses and none is earlier than the one before it. */
  predicate SortedByOrigin(fs: seq<Dataset>) {
    (forall i :: 0 <= i < |fs| ==> Parses(fs[i])) &&
    forall i, j :: 0 <= i < j < |fs| ==> Le(Origin(fs[i]), Origin(fs[j]))
  }

  /**
   * The value `sort_by_date(files)` returns, or the error it raises: the
   * error of the first file, in input order, whose origin does not parse.
   */
  function ByOrigin(files: seq<Dataset>): (r: Result<seq<Dataset>, Error>)
    ensures r.Success? <==> forall i :: 0 <= i < |files| ==> Parses(files[i])
    ensures r.Failure? ==>
              exists i :: 0 <= i < |files| && GetTimeOrigin(files[i]) == Failure(r.error) &&
                          forall j :: 0 <= j < i ==> Parses(files[j])
  {
    match PairWithOrigins(files)
    case Failure(e) => Failure(e)
    case Success(es) => Success(Files(StableSort(es)))
  }

  lemma {:induction false} InsertSorted(e: Entry, es: seq<Entry>)
    requires Sorted(es)
    ensures Sorted(Insert(e, es))
    ensures |Insert(e, es)| == |es| + 1
    ensures Insert(e, es)[0] == e || Insert(e, es)[0] == es[0]
  {
    if es != [] && !Le(e.origin, es[0].origin) {
      InsertSorted(e, es[1..]);
      var ins := Insert(e, es[1..]);
      assert Insert(e, es) == [es[0]] + ins;
      forall j | 0 <= j < |ins| ensures Le(es[0].origin, ins[j].origin) {
        InsertMultiset(e, es[1..]);
        assert ins[j] in multiset(ins);
        assert ins[j] == e || ins[j] in es[1..];
      }
    }
  }

  lemma {:induction false} InsertMultiset(e: Entry, es: seq<Entry>)
    ensures multiset(Insert(e, es)) == multiset(es) + multiset{e}
  {
    if es != [] && !Le(e.origin, es[0].origin) {
      InsertMultiset(e, es[1..]);
      assert es == [es[0]] + es[1..];
    }
  }

  lemma {:induction false} InsertWithOrigin(e: Entry, es: seq<Entry>, d: Date)
    requires Sorted(es)
    ensures WithOrigin(Insert(e, es), d) == (if e.origin == d then [e] else []) + WithOrigin(es, d)
  {
    if es == [] {
    } else if Le(e.origin, es[0].origin) {
      assert ([e] + es)[1..] == es;
    } else {
      InsertWithOrigin(e, es[1..], d);
      var ins := Insert(e, es[1..]);
      assert Insert(e, es) == [es[0]] + ins;
      assert Insert(e, es)[1..] == ins;
      assert WithOrigin(Insert(e, es), d) ==
             (if es[0].origin == d then [es[0]] else []) + WithOrigin(ins, d);
    }
  }

  lemma {:induction false} StableSortProperties(es: seq<Entry>)
    ensures Sorted(StableSort(es))
    ensures multiset(StableSort(es)) == multiset(es)
    ensures forall d :: WithOrigin(StableSort(es), d) == WithOrigin(es, d)
  {
    if es != [] {
      StableSortProperties(es[1..]);
      InsertSorted(es[0], StableSort(es[1..]));
      InsertMultiset(es[0], StableSort(es[1..]));
      forall d ensures WithOrigin(StableSort(es), d) == WithOrigin(es, d) {
        InsertWithOrigin(es[0], StableSort(es[1..]), d);
      }
      assert es == [es[0]] + es[1..];
    }
  }

  /** Two sorted lists that agree on their entries of every origin are equal: the stable sort is unique. */
  lemma {:induction false} StableSortUnique(a: seq<Entry>, b: seq<Entry>)
    requires Sorted(a) && Sorted(b)
    requires forall d :: WithOrigin(a, d) == WithOrigin(b, d)
    ensures a == b
  {
    if a != [] && b != [] {
      SameHead(a, b);
      SameTails(a, b);
      StableSortUnique(a[1..], b[1..]);
      assert a == [a[0]] + a[1..] && b == [b[0]] + b[1..];
    } else if a != [] {
      assert WithOrigin(a, a[0].origin) != WithOrigin(b, a[0].origin);
    } else if b != [] {
      assert WithOrigin(a, b[0].origin) != WithOrigin(b, b[0].origin);
    }
  }

  lemma {:induction false} NonEmptyWithOrigin(es: seq<Entry>)
    requires es != []
    ensures WithOrigin(es, es[0].origin) == [es[0]] + WithOrigin(es[1..], es[0].origin)
  {
  }

  lemma {:induction false} SameHead(a: seq<Entry>, b: seq<Entry>)
    requires Sorted(a) && Sorted(b) && a != [] && b != []
    requires forall d :: WithOrigin(a, d) == WithOrigin(b, d)
    ensures a[0] == b[0]
  {
    var k, k' := a[0].origin, b[0].origin;
    NonEmptyWithOrigin(a);
    NonEmptyWithOrigin(b);
    assert a[0] in WithOrigin(b, k);
    WithOriginMember(b, k, a[0]);
    assert b[0] in WithOrigin(a, k');
    WithOriginMember(a, k', b[0]);
    assert k == k';
    assert WithOrigin(a, k)[0] == a[0];
    assert WithOrigin(b, k)[0] == b[0];
  }

  lemma {:induction false} SameTails(a: seq<Entry>, b: seq<Entry>)
    requires a != [] && b != [] && a[0] == b[0]
    requires forall d :: WithOrigin(a, d) == WithOrigin(b, d)
    ensures forall d :: WithOrigin(a[1..], d) == WithOrigin(b[1..], d)
  {
    forall d ensures WithOrigin(a[1..], d) == WithOrigin(b[1..], d) {
      var h := if a[0].origin == d then [a[0]] else [];
      assert WithOrigin(a, d) == h + WithOrigin(a[1..], d);
      assert WithOrigin(b, d) == h + WithOrigin(b[1..], d);
      assert WithOrigin(a[1..], d) == WithOrigin(a, d)[|h|..];
    }
  }

  /** An entry that the filter keeps is an entry of the list, with that origin; in a sorted list it is not before the head. */
  lemma {:induction false} WithOriginMember(es: seq<Entry>, d: Date, x: Entry)
    requires x in WithOrigin(es, d)
    ensures x in es && x.origin == d
    ensures Sorted(es) ==> Le(es[0].origin, d)
  {
    assert WithOrigin(es, d) == (if es[0].origin == d then [es[0]] else []) + WithOrigin(es[1..], d);
    if x in WithOrigin(es[1..], d) {
      WithOriginMember(es[1..], d, x);
      assert es[1..][0] == es[1];
      if Sorted(es) {
        assert Le(es[0].origin, es[1].origin);
      }
    }
  }

  lemma {:induction false} WithOriginConsistent(es: seq<Entry>, d: Date)
    requires Consistent(es)
    ensures Consistent(WithOrigin(es, d))
  {
    var w := WithOrigin(es, d);
    forall i | 0 <= i < |w| ensures GetTimeOrigin(w[i].file) == Success(w[i].origin) {
      WithOriginMember(es, d, w[i]);
    }
  }

  lemma {:induction false} FilesConcat(a: seq<Entry>, b: seq<Entry>)
    ensures Files(a + b) == Files(a) + Files(b)
  {
  }

  /** The file filter and the entry filter agree on entries that carry their own files' origins. */
  lemma {:induction false} FilesWithOriginOfEntries(es: seq<Entry>, d: Date)
    requires Consistent(es)
    ensures FilesWithOrigin(Files(es), d) == Files(WithOrigin(es, d))
  {
    if es != [] {
      var fs, rest := Files(es), es[1..];
      assert fs[1..] == Files(rest);
      assert Consistent(rest) by {
        forall i | 0 <= i < |rest| ensures GetTimeOrigin(rest[i].file) == Success(rest[i].origin) {
          assert rest[i] == es[i + 1];
        }
      }
      FilesWithOriginOfEntries(rest, d);
      var h := if es[0].origin == d then [es[0]] else [];
      assert GetTimeOrigin(fs[0]) == Success(es[0].origin);
      assert (if GetTimeOrigin(fs[0]) == Success(d) then [fs[0]] else []) == Files(h);
      FilesConcat(h, WithOrigin(rest, d));
    }
  }

  /** Consistent entry lists are determined by their files. */
  lemma {:induction false} ConsistentByFiles(a: seq<Entry>, b: seq<Entry>)
    requires Consistent(a) && Consistent(b) && Files(a) == Files(b)
    ensures a == b
  {
    assert |a| == |Files(a)| == |b|;
    forall i | 0 <= i < |a| ensures a[i] == b[i] {
      assert a[i].file == Files(a)[i] == b[i].file;
    }
  }

  lemma {:induction false} InsertFilesMultiset(e: Entry, es: seq<Entry>)
    ensures multiset(Files(Insert(e, es))) == multiset(Files(es)) + multiset{e.file}
  {
    if es == [] {
    } else if Le(e.origin, es[0].origin) {
      FilesConcat([e], es);
    } else {
      InsertFilesMultiset(e, es[1..]);
      FilesConcat([es[0]], Insert(e, es[1..]));
      FilesConcat([es[0]], es[1..]);
      assert es == [es[0]] + es[1..];
    }
  }

  lemma {:induction false} StableSortFilesMultiset(es: seq<Entry>)
    ensures multiset(Files(StableSort(es))) == multiset(Files(es))
  {
    if es != [] {
      var tail := StableSort(es[1..]);
      assert StableSort(es) == Insert(es[0], tail);
      StableSortFilesMultiset(es[1..]);
      InsertFilesMultiset(es[0], tail);
      FilesHead(es);
    }
  }

  lemma {:induction false} FilesHead(es: seq<Entry>)
    requires es != []
    ensures multiset(Files(es)) == multiset{es[0].file} + multiset(Files(es[1..]))
  {
    var fs, rest := Files(es), Files(es[1..]);
    assert fs == [es[0].file] + rest by {
      assert |fs| == |rest| + 1;
      forall i | 0 <= i < |fs| ensures fs[i] == ([es[0].file] + rest)[i] {
        if i > 0 {
          assert rest[i - 1] == es[1..][i - 1].file;
        }
      }
    }
  }

  lemma {:induction false} StableSortConsistent(es: seq<Entry>)
    requires Consistent(es)
    ensures Consistent(StableSort(es))
  {
    var sorted := StableSort(es);
    StableSortProperties(es);
    forall i | 0 <= i < |sorted| ensures GetTimeOrigin(sorted[i].file) == Success(sorted[i].origin) {
      assert sorted[i] in multiset(es);
      var j :| 0 <= j < |es| && es[j] == sorted[i];
    }
  }

  lemma {:induction false} SortedFiles(es: seq<Entry>)
    requires Consistent(es) && Sorted(es)
    ensures SortedByOrigin(Files(es))
  {
    var fs := Files(es);
    assert forall i :: 0 <= i < |fs| ==> Parses(fs[i]) && Origin(fs[i]) == es[i].origin;
  }

  /**
   * `sort_by_date` returns a permutation of its input, ordered by origin,
   * with files of equal origin in their input order.
   */
  lemma {:induction false} ByOriginIsStableSort(files: seq<Dataset>)
    requires ByOrigin(files).Success?
    ensures multiset(ByOrigin(files).value) == multiset(files)
    ensures SortedByOrigin(ByOrigin(files).value)
    ensures forall d :: FilesWithOrigin(ByOrigin(files).value, d) == FilesWithOrigin(files, d)
  {
    var es := PairWithOrigins(files).value;
    var sorted := StableSort(es);
    assert ByOrigin(files).value == Files(sorted);
    StableSortProperties(es);
    StableSortFilesMultiset(es);
    StableSortConsistent(es);
    SortedFiles(sorted);
    forall d ensures FilesWithOrigin(Files(sorted), d) == FilesWithOrigin(files, d) {
      FilesWithOriginOfEntries(sorted, d);
      FilesWithOriginOfEntries(es, d);
    }
  }

  /**
   * Every arrangement of the files that is ordered by origin and keeps the
   * input order among equal origins is the one `sort_by_date` returns, so
   * Python's timsort and the insertion sort of this model agree.
   */
  lemma {:induction false} ByOriginUnique(files: seq<Dataset>, r: seq<Dataset>)
    requires ByOrigin(files).Success?
    requires SortedByOrigin(r)
    requires forall d :: FilesWithOrigin(r, d) == FilesWithOrigin(files, d)
    ensures r == ByOrigin(files).value
  {
    var es := PairWithOrigins(files).value;
    var sorted := StableSort(es);
    ByOriginIsStableSort(files);
    StableSortProperties(es);
    var er := seq(|r|, i requires 0 <= i < |r| && Parses(r[i]) => Entry(r[i], Origin(r[i])));
    assert Files(er) == r;
    StableSortConsistent(es);
    forall d ensures WithOrigin(er, d) == WithOrigin(sorted, d) {
      FilesWithOriginOfEntries(er, d);
      FilesWithOriginOfEntries(sorted, d);
      WithOriginConsistent(er, d);
      WithOriginConsistent(sorted, d);
      ConsistentByFiles(WithOrigin(er, d), WithOrigin(sorted, d));
    }
    StableSortUnique(er, sorted);
  }

  lemma {:induction false} PairWithOriginsStep(files: seq<Dataset>, i: nat, es: seq<Entry>)
    requires i < |files| && PairWithOrigins(files[..i]) == Success(es)
    ensures PairWithOrigins(files[..i + 1]) ==
              match GetTimeOrigin(files[i])
              case Failure(e) => Failure(e)
              case Success(d) => Success(es + [Entry(files[i], d)])
  {
    assert files[..i + 1][..i] == files[..i];
  }

  /** Once a prefix fails, every longer prefix fails with the same error. */
  lemma {:induction false} PairWithOriginsFailureExtends(files: seq<Dataset>, n: nat)
    requires n <= |files| && PairWithOrigins(files[..n]).Failure?
    ensures PairWithOrigins(files) == PairWithOrigins(files[..n])
    decreases |files| - n
  {
    if n < |files| {
      assert files[..n + 1][..n] == files[..n];
      PairWithOriginsFailureExtends(files, n + 1);
    } else {
      assert files[..n] == files;
    }
  }

  /** The error of `sort_by_date` is that of the first file whose origin does not parse. */
  lemma {:induction false} PairWithOriginsFirstFailure(files: seq<Dataset>, i: nat)
    requires i < |files| && GetTimeOrigin(files[i]).Failure?
    requires PairWithOrigins(files[..i]).Success?
    ensures PairWithOrigins(files) == Failure(GetTimeOrigin(files[i]).error)
  {
    PairWithOriginsStep(files, i, PairWithOrigins(files[..i]).value);
    PairWithOriginsFailureExtends(files, i + 1);
  }

  /**
   * `sort_by_date(forcing_files)`: build `files_with_dates` by appending
   * (file, origin) in input order, sort it by origin, and keep the files.
   */
  method SortByDate(files: seq<Dataset>) returns (r: Result<seq<Dataset>, Error>)
    ensures r == ByOrigin(files)
    ensures r.Success? ==> multiset(r.value) == multiset(files) && SortedByOrigin(r.value)
    ensures r.Success? ==> forall d :: FilesWithOrigin(r.value, d) == FilesWithOrigin(files, d)
  {
    var filesWithDates: seq<Entry> := [];
    for i := 0 to |files|
      invariant PairWithOrigins(files[..i]) == Success(filesWithDates)
    {
      var firstTime := GetTimeOrigin(files[i]);
      PairWithOriginsStep(files, i, filesWithDates);
      if firstTime.Failure? {
        PairWithOriginsFirstFailure(files, i);
        return Failure(firstTime.error);
      }
      filesWithDates := filesWithDates + [Entry(files[i], firstTime.value)];
    }
    assert files[..|files|] == files;
    filesWithDates := StableSort(filesWithDates);
    r := Success(Files(filesWithDates));
    ByOriginIsStableSort(files);
  }
}
