/** File-name tests of the Citrix downloader: which files in the download directory
    are new, which count as a finished Citrix RPM, which as a download in progress,
    and the quicker test the download attempts use between methods. */
module DownloadFiles {
  import opened Base
  import opened Text

  /** Files of the current listing that were not in the initial listing, in listing order. */
  function NewFiles(initial: set<string>, current: seq<string>): (r: seq<string>)
    ensures forall f :: f in r <==> f in current && f !in initial
  {
    var r := Filter(current, f => f !in initial);
    forall f | f in current && f !in initial ensures f in r {
      FilterComplete(current, f => f !in initial, f);
    }
    r
  }

  /** The monitor's test for a finished download: a lower-cased name ending in `.rpm`
      that mentions `citrix`, `ica`, `workspace` or `ctx`. */
  predicate IsCompletedRpm(f: string)
  {
    var l := Lower(f);
    EndsWith(l, ".rpm") &&
    (Contains(l, "citrix") || Contains(l, "ica") || Contains(l, "workspace") || Contains(l, "ctx"))
  }

  /** The monitor's test for a download in progress (letter case matters). */
  predicate IsPartial(f: string)
  {
    EndsWith(f, ".crdownload") || EndsWith(f, ".part") || EndsWith(f, ".download") || EndsWith(f, ".incomplete")
  }

  /** `checkDownloadStatus`'s test for a download in progress: only two of the suffixes. */
  predicate IsStatusPartial(f: string)
  {
    EndsWith(f, ".crdownload") || EndsWith(f, ".part")
  }

  /** `checkDownloadStatus`'s test for a finished download: only `citrix` or `ica`. */
  predicate IsStatusRpm(f: string)
  {
    var l := Lower(f);
    EndsWith(l, ".rpm") && (Contains(l, "citrix") || Contains(l, "ica"))
  }

  /** `checkDownloadStatus`: some new file is in progress, else some new file is a
      finished Citrix RPM. */
  function DownloadStatus(initial: set<string>, current: seq<string>): (r: bool)
  {
    var added := NewFiles(initial, current);
    if |Filter(added, IsStatusPartial)| > 0 then true
    else |Filter(added, IsStatusRpm)| > 0
  }

  lemma FilterNonEmpty<T>(s: seq<T>, p: T -> bool)
    ensures |Filter(s, p)| > 0 <==> exists x :: x in s && p(x)
  {
    if exists x :: x in s && p(x) {
      var x :| x in s && p(x);
      FilterComplete(s, p, x);
    }
  }

  /** The status is true exactly when some file absent from the initial listing passes
      one of its two tests. */
  lemma DownloadStatusSpec(initial: set<string>, current: seq<string>)
    ensures DownloadStatus(initial, current) <==>
              exists f :: f in current && f !in initial && (IsStatusPartial(f) || IsStatusRpm(f))
  {
    var added := NewFiles(initial, current);
    FilterNonEmpty(added, IsStatusPartial);
    FilterNonEmpty(added, IsStatusRpm);
  }

  /** Each of the status tests implies the corresponding monitor test. */
  lemma StatusImpliesMonitor(f: string)
    ensures IsStatusPartial(f) ==> IsPartial(f)
    ensures IsStatusRpm(f) ==> IsCompletedRpm(f)
  {
  }

  /** A positive status means the monitor, too, sees a new file in progress or finished. */
  lemma StatusSeenByMonitor(initial: set<string>, current: seq<string>)
    requires DownloadStatus(initial, current)
    ensures exists f :: f in NewFiles(initial, current) && (IsPartial(f) || IsCompletedRpm(f))
  {
    DownloadStatusSpec(initial, current);
    var f :| f in current && f !in initial && (IsStatusPartial(f) || IsStatusRpm(f));
    StatusImpliesMonitor(f);
    assert f in NewFiles(initial, current);
  }

  /** The converse fails: a new `.download` file is a download in progress for the
      monitor but leaves the status false, so the next download method still runs. */
  lemma StatusNarrowerThanMonitor()
    ensures IsPartial("a.download")
    ensures !DownloadStatus({}, ["a.download"])
  {
    var f := "a.download";
    assert f[|f| - 9..] == ".download";
    assert f[|f| - 5..] != ".part";
    assert !EndsWith(Lower(f), ".rpm") by {
      assert Lower(f)[|f| - 4] == 'l';
    }
    assert NewFiles({}, [f]) == [f];
    assert Filter([f], IsStatusPartial) == [];
    assert Filter([f], IsStatusRpm) == [];
  }

  /** Checks without progress after which the monitor gives up (two minutes). */
  const StallLimit := 240
  /** Milliseconds that must pass before a size comparison. */
  const MeasureGap := 450
  /** The size assumed for an ICAClient package: 450 MiB. */
  const EstimatedTotal := 450 * 1024 * 1024

  /** A reported file: its name and size (0 when its size could not be read). */
  datatype FileDetail = FileDetail(name: string, size: nat)

  /** What one check sees: the time, the listing (`None` when listing fails) and the size
      of each file (`None` when it cannot be read). */
  datatype Observation = Observation(now: int, listing: Option<seq<string>>, size: string -> Option<nat>)

  /** The names whose size could be read: those `reportedFiles.add` is reached for. */
  function Readable(size: string -> Option<nat>, names: seq<string>): set<string>
  {
    set f | f in names && size(f).Some?
  }

  /** `initialFiles`, or the directory's listing when none (or an empty list) is given. */
  function InitialNames(given: seq<string>, listing: seq<string>): (r: set<string>)
    ensures forall f :: f in r <==> f in (if given == [] then listing else given)
  {
    var names := if given == [] then listing else given;
    set f | f in names
  }

  /** A partial download whose name suggests the full ICAClient package. */
  predicate IsEstimated(p: string)
  {
    Contains(p, "ICAClient") && (Contains(p, "rhel") || Contains(p, "x86_64"))
  }

  /** `currentSize >= totalSize * pct / 100`, in exact arithmetic. */
  predicate AtLeastPercent(size: nat, total: nat, pct: nat)
  {
    100 * size >= pct * total
  }

  function Detail(size: string -> Option<nat>, f: string): FileDetail
  {
    FileDetail(f, size(f).GetOr(0))
  }
}
