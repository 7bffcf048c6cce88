/** The start of the later Citrix downloader (`extras/temp`): before any download it
    looks for a Citrix RPM already in the download directory and, when one is there,
    reports the newest and ends the process with status 0. */
module ExistingRpm {
  import opened Base
  import opened Text
  import DownloadFiles

  /** A file taken as an existing Citrix package: `.rpm` with this exact letter case,
      and `citrix`, `ica` or `workspace` in the lower-cased name. */
  predicate IsExistingRpm(f: string)
  {
    var l := Lower(f);
    EndsWith(f, ".rpm") && (Contains(l, "citrix") || Contains(l, "ica") || Contains(l, "workspace"))
  }

  /** The modification times of `files`, or `None` as soon as one of them cannot be read
      (`fs.statSync` throws, and the whole check answers `null`). */
  function Mtimes(files: seq<string>, mtime: string -> Option<int>): (r: Option<seq<int>>)
    ensures r.Some? <==> forall i :: 0 <= i < |files| ==> mtime(files[i]).Some?
    ensures r.Some? ==> |r.value| == |files| && forall i :: 0 <= i < |files| ==> r.value[i] == mtime(files[i]).value
  {
    if files == [] then Some([])
    else
      match (mtime(files[0]), Mtimes(files[1..], mtime))
      case (Some(m), Some(ms)) => Some([m] + ms)
      case _ => None
  }

  /** The position `fullPaths[0]` takes after the stable sort on decreasing time: the
      first of the newest entries. */
  function NewestIndex(ms: seq<int>): (r: nat)
    requires |ms| > 0
    ensures r < |ms|
    ensures forall j :: 0 <= j < |ms| ==> ms[j] <= ms[r]
    ensures forall j :: 0 <= j < r ==> ms[j] < ms[r]
  {
    if |ms| == 1 then 0
    else
      var k := 1 + NewestIndex(ms[1..]);
      assert forall j :: 1 <= j < |ms| ==> ms[j] == ms[1..][j - 1];
      if ms[0] >= ms[k] then 0 else k
  }

  /** The two properties single out one position: the first element of any stable
      sort by decreasing time. */
  lemma NewestUnique(ms: seq<int>, i: nat)
    requires i < |ms|
    requires forall j :: 0 <= j < |ms| ==> ms[j] <= ms[i]
    requires forall j :: 0 <= j < i ==> ms[j] < ms[i]
    ensures NewestIndex(ms) == i
  {
  }

  /** `checkForExistingRpm`: `None` for a missing directory (which it then creates), a
      failing listing, no candidate, or a candidate whose time cannot be read; otherwise
      the name of the newest candidate, the first of them in listing order on a tie. */
  function CheckForExistingRpm(dirExists: bool, listing: Option<seq<string>>, mtime: string -> Option<int>): Option<string>
  {
    if !dirExists || listing.None? then None
    else
      var candidates := Filter(listing.value, IsExistingRpm);
      if |candidates| == 0 then None
      else
        match Mtimes(candidates, mtime)
        case None => None
        case Some(ms) => Some(candidates[NewestIndex(ms)])
  }

  /** The candidates are exactly the Citrix RPMs of the listing. */
  lemma CandidatesExact(files: seq<string>)
    ensures forall f :: f in Filter(files, IsExistingRpm) <==> f in files && IsExistingRpm(f)
  {
    forall f | f in files && IsExistingRpm(f) ensures f in Filter(files, IsExistingRpm) {
      FilterComplete(files, IsExistingRpm, f);
    }
  }

  /** With every time readable, the newest candidate is no older than any candidate. */
  lemma NewestCandidate(candidates: seq<string>, mtime: string -> Option<int>, ms: seq<int>)
    requires |candidates| > 0 && Mtimes(candidates, mtime) == Some(ms)
    ensures forall f :: f in candidates ==>
              mtime(f).Some? && mtime(f).value <= mtime(candidates[NewestIndex(ms)]).value
  {
    var k := NewestIndex(ms);
    forall f | f in candidates
      ensures mtime(f).Some? && mtime(f).value <= mtime(candidates[k]).value
    {
      var j :| 0 <= j < |candidates| && candidates[j] == f;
      assert ms[j] <= ms[k];
    }
  }

  /** A found file is a Citrix RPM of the listing that is no older than any other
      candidate (`NewestIndex` settles ties by listing order); nothing is
      found exactly when the directory or its listing is missing, no file qualifies, or
      the time of one candidate cannot be read. */
  lemma ExistingRpmSpec(dirExists: bool, listing: Option<seq<string>>, mtime: string -> Option<int>)
    ensures var r := CheckForExistingRpm(dirExists, listing, mtime);
      r.None? <==>
        !dirExists || listing.None? ||
        (forall f :: f in listing.value ==> !IsExistingRpm(f)) ||
        (exists f :: f in listing.value && IsExistingRpm(f) && mtime(f).None?)
    ensures var r := CheckForExistingRpm(dirExists, listing, mtime);
      r.Some? ==>
        dirExists && listing.Some? && r.value in listing.value && IsExistingRpm(r.value) &&
        mtime(r.value).Some? &&
        forall f :: f in listing.value && IsExistingRpm(f) ==>
          mtime(f).Some? && mtime(f).value <= mtime(r.value).value
  {
    if dirExists && listing.Some? {
      var candidates := Filter(listing.value, IsExistingRpm);
      CandidatesExact(listing.value);
      if |candidates| > 0 {
        match Mtimes(candidates, mtime)
        case None =>
          var i :| 0 <= i < |candidates| && mtime(candidates[i]).None?;
          assert candidates[i] in candidates;
        case Some(ms) =>
          NewestCandidate(candidates, mtime, ms);
          assert candidates[NewestIndex(ms)] in candidates;
      } else {
        assert forall f :: f in candidates ==> false;
      }
    }
  }

  /** A name found here would also be a finished RPM for the download monitor. */
  lemma ExistingIsCompleted(f: string)
    requires IsExistingRpm(f)
    ensures DownloadFiles.IsCompletedRpm(f)
  {
    var l := Lower(f);
    assert l[|l| - 4..] == ".rpm" by {
      forall i | |l| - 4 <= i < |l| ensures l[i] == f[i] {
        assert f[i] == f[|f| - 4..][i - (|f| - 4)];
      }
    }
  }

  /** The converse fails: an upper-case extension is finished for the monitor but not
      an existing package here. */
  lemma UpperCaseExtensionNotExisting()
    ensures DownloadFiles.IsCompletedRpm("ica.RPM")
    ensures !IsExistingRpm("ica.RPM")
  {
    var f := "ica.RPM";
    assert f[|f| - 4..] != ".rpm" by {
      assert f[|f| - 3] == 'R';
    }
    var l := Lower(f);
    assert l == "ica.rpm";
    assert l[..3] == "ica";
    assert l[|l| - 4..] == ".rpm";
  }

  /** What `downloadCitrix` does first: stop with status 0 when a package is there, or go
      on to the download. */
  datatype Start = Found(file: string) | Download

  function Begin(dirExists: bool, listing: Option<seq<string>>, mtime: string -> Option<int>): Start
  {
    match CheckForExistingRpm(dirExists, listing, mtime)
    case Some(f) => Found(f)
    case None => Download
  }

  function StartExitCode(s: Start): (code: Option<int>)
    ensures code.Some? <==> s.Found?
    ensures code.Some? ==> code.value == 0
  {
    if s.Found? then Some(0) else None
  }

  /** A readable listing holding one Citrix RPM whose time can be read ends the run with
      status 0, without a download. */
  lemma NoDownloadWhenPresent(listing: seq<string>, mtime: string -> Option<int>, f: string)
    requires f in listing && IsExistingRpm(f)
    requires forall g :: g in listing && IsExistingRpm(g) ==> mtime(g).Some?
    ensures Begin(true, Some(listing), mtime).Found?
    ensures StartExitCode(Begin(true, Some(listing), mtime)) == Some(0)
  {
    ExistingRpmSpec(true, Some(listing), mtime);
  }
}
