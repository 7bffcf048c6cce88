/** The download monitor of the later Citrix downloader (`extras/temp`): like the first
    one it reports finished Citrix RPMs and follows the first partial download, but it
    also declares a partial download finished once its size has been stable for six
    checks near the expected size, watches files that are downloaded without a partial
    suffix, and ends the process: status 0 after a completion, status 1 after 240 checks
    without progress. */
module TempMonitor {
  import opened Base
  import opened Text
  import opened DownloadFiles

  /** Checks with an unchanged size before a file may be declared finished. */
  const StableThreshold := 6

  /** How the process ends: `process.exit(0)` after the completion message, or
      `process.exit(1)` after the stall message. */
  datatype Exit = Success(files: seq<FileDetail>) | Failure

  function ExitCode(e: Exit): (code: int)
    ensures code == 0 <==> e.Success?
    ensures code == 1 <==> e.Failure?
  {
    if e.Success? then 0 else 1
  }

  /** The monitor's closure variables that decide anything (the progress line, the
      stable size and its time only feed the output). */
  datatype State = State(
    initial: set<string>,
    lastSizeCheckTime: int,
    lastFileSize: nat,
    lastFileName: Option<string>,
    noProgressCount: nat,
    totalSize: nat,
    downloadReported: bool,
    startReported: bool,
    completedFilesFound: bool,
    rpmCompletionDetected: bool,
    downloadingFileSize: nat,
    stableCount: nat,
    reportedFiles: set<string>,
    exit: Option<Exit>)

  function Initial(initial: set<string>, now: int): State
  {
    State(initial, now, 0, None, 0, 0, false, false, false, false, 0, 0, {}, None)
  }

  function Finish(s: State, files: seq<FileDetail>): State
  {
    s.(downloadReported := true, exit := Some(Success(files)))
  }

  /** `partialFile.replace(/\.(crdownload|part|download|incomplete)$/, '')`. */
  function StripPartialSuffix(p: string): string
  {
    if EndsWith(p, ".crdownload") then p[..|p| - 11]
    else if EndsWith(p, ".part") then p[..|p| - 5]
    else if EndsWith(p, ".download") then p[..|p| - 9]
    else if EndsWith(p, ".incomplete") then p[..|p| - 11]
    else p
  }

  /** Exactly one partial suffix is removed, and a name without one is kept. */
  lemma StripPartialSuffixSpec(p: string)
    ensures IsPartial(p) ==>
              exists sfx :: sfx in [".crdownload", ".part", ".download", ".incomplete"] &&
                StripPartialSuffix(p) + sfx == p
    ensures !IsPartial(p) ==> StripPartialSuffix(p) == p
  {
    var r := StripPartialSuffix(p);
    if EndsWith(p, ".crdownload") {
      assert r + ".crdownload" == p;
    } else if EndsWith(p, ".part") {
      assert r + ".part" == p;
    } else if EndsWith(p, ".download") {
      assert r + ".download" == p;
    } else if EndsWith(p, ".incomplete") {
      assert r + ".incomplete" == p;
    }
  }

  /** Only the last suffix goes: `a.part.part` is reported as `a.part`. */
  lemma StripOnlyOnce()
    ensures StripPartialSuffix("a.part.part") == "a.part"
  {
    var p := "a.part.part";
    assert p[|p| - 5..] == ".part";
    assert p[|p| - 11..] != ".crdownload" by {
      assert p[|p| - 11] == 'a';
    }
  }

  /** The file types accepted as finished without a partial suffix. */
  predicate IsKnownPackage(f: string)
  {
    EndsWith(f, ".exe") || EndsWith(f, ".dmg") || EndsWith(f, ".zip") || EndsWith(f, ".tar.gz") || EndsWith(f, ".deb")
  }

  /** New files that may be downloading under their final name. */
  predicate IsPotential(f: string)
  {
    !IsPartial(f) && !EndsWith(Lower(f), ".rpm")
  }

  /** The finished RPMs of this check not reported before. */
  function FreshRpms(s: State, added: seq<string>): seq<string>
  {
    Filter(Filter(added, IsCompletedRpm), f => f !in s.reportedFiles)
  }

  /** First part of a check: finished Citrix RPMs end the run at once. */
  function ReportPhase(s: State, size: string -> Option<nat>, added: seq<string>): State
  {
    if |Filter(added, IsCompletedRpm)| > 0 && !s.downloadReported then
      var newRpms := FreshRpms(s, added);
      var s1 := s.(completedFilesFound := true, rpmCompletionDetected := true,
                   reportedFiles := s.reportedFiles + Readable(size, newRpms));
      if |newRpms| > 0 then Finish(s1, Map(f => Detail(size, f), newRpms)) else s1
    else s
  }

  function Restart(s: State, p: string, size: nat, now: int): State
  {
    if s.lastFileName != Some(p) || !s.startReported then
      s.(startReported := true,
         totalSize := if IsEstimated(p) then EstimatedTotal else s.totalSize,
         lastFileName := Some(p), lastFileSize := size, lastSizeCheckTime := now, noProgressCount := 0)
    else s
  }

  /** The size comparison; a size that stayed put for six checks close to the expected
      total counts as a finished download named without its partial suffix. */
  function Measure(s: State, p: string, size: nat, now: int): State
  {
    if now - s.lastSizeCheckTime >= MeasureGap then
      if size > s.lastFileSize then
        s.(lastFileSize := size, noProgressCount := 0, stableCount := 0, lastSizeCheckTime := now)
      else if size == s.lastFileSize && size > 0 then
        var s1 := s.(noProgressCount := s.noProgressCount + 1, stableCount := s.stableCount + 1);
        if s1.stableCount >= StableThreshold && s1.totalSize > 0 && AtLeastPercent(size, s1.totalSize, 98) then
          Finish(s1, [FileDetail(StripPartialSuffix(p), size)])
        else s1.(lastSizeCheckTime := now)
      else s.(lastSizeCheckTime := now)
    else s
  }

  function Settle(s: State): State
  {
    if s.exit.None? && s.noProgressCount >= StallLimit then s.(exit := Some(Failure)) else s
  }

  function Track(s: State, p: string, size: nat, now: int): State
  {
    Settle(Measure(Restart(s, p, size, now), p, size, now))
  }

  /** One file downloading under its final name. */
  function Watch(s: State, f: string, size: nat): State
  {
    if s.lastFileName != Some(f) || size > s.downloadingFileSize then
      s.(downloadingFileSize := size, stableCount := 0, lastFileName := Some(f), startReported := true)
    else if size == s.downloadingFileSize then
      var s1 := s.(stableCount := s.stableCount + 1);
      if s1.stableCount >= StableThreshold && !s1.rpmCompletionDetected && IsKnownPackage(f) then
        Finish(s1, [FileDetail(f, size)])
      else s1
    else s
  }

  /** The loop over the potential downloads, stopping at a completion; a file whose size
      cannot be read is skipped. */
  function Scan(s: State, files: seq<string>, size: string -> Option<nat>): State
    decreases |files|
  {
    if files == [] || s.exit.Some? then s
    else
      var s1 := if size(files[0]).Some? then Watch(s, files[0], size(files[0]).value) else s;
      Scan(s1, files[1..], size)
  }

  /** One call of `checkForNewFiles`. */
  function Step(s: State, o: Observation): State
  {
    match o.listing
    case None => s
    case Some(files) =>
      var added := NewFiles(s.initial, files);
      var s1 := ReportPhase(s, o.size, added);
      if s1.exit.Some? then s1
      else
        var partial := Filter(added, IsPartial);
        if |partial| > 0 then
          match o.size(partial[0])
          case None => s1
          case Some(n) => Track(s1, partial[0], n, o.now)
        else Scan(s1, Filter(added, IsPotential), o.size)
  }

  /** What holds between checks: a running monitor has fewer than 240 checks without
      progress and has not reported, the expected total is unknown or the 450 MiB
      estimate, and a successful end reports at least one file. */
  ghost predicate Sound(s: State)
  {
    (s.exit.None? ==> s.noProgressCount < StallLimit && !s.downloadReported) &&
    (s.totalSize == 0 || s.totalSize == EstimatedTotal) &&
    (s.rpmCompletionDetected ==> s.completedFilesFound) &&
    (s.exit.Some? && s.exit.value.Success? ==> |s.exit.value.files| > 0)
  }

  lemma {:induction false} ScanSound(s: State, files: seq<string>, size: string -> Option<nat>)
    requires Sound(s)
    ensures Sound(Scan(s, files, size))
    ensures Scan(s, files, size).noProgressCount == s.noProgressCount
    ensures Scan(s, files, size).initial == s.initial
    ensures Scan(s, files, size).reportedFiles == s.reportedFiles
    ensures Scan(s, files, size).exit != Some(Failure) || s.exit == Some(Failure)
    decreases |files|
  {
    if files != [] && s.exit.None? {
      var s1 := if size(files[0]).Some? then Watch(s, files[0], size(files[0]).value) else s;
      ScanSound(s1, files[1..], size);
    }
  }

  lemma FreshRpmsGood(s: State, files: seq<string>)
    ensures forall f :: f in FreshRpms(s, NewFiles(s.initial, files)) ==>
              IsCompletedRpm(f) && f !in s.initial && f in files && f !in s.reportedFiles
  {
  }

  lemma ReportPhaseFacts(s: State, size: string -> Option<nat>, files: seq<string>)
    requires Sound(s) && s.exit.None?
    ensures var r := ReportPhase(s, size, NewFiles(s.initial, files));
      Sound(r) && r.initial == s.initial && r.noProgressCount == s.noProgressCount &&
      s.reportedFiles <= r.reportedFiles &&
      (forall f :: f in r.reportedFiles - s.reportedFiles ==> f in FreshRpms(s, NewFiles(s.initial, files))) &&
      r.exit != Some(Failure)
  {
  }

  lemma TrackFacts(s: State, p: string, size: nat, now: int)
    requires Sound(s) && s.exit.None?
    ensures var r := Track(s, p, size, now);
      Sound(r) && r.initial == s.initial && r.reportedFiles == s.reportedFiles &&
      (r.exit == Some(Failure) ==> r.noProgressCount == StallLimit)
  {
  }

  /** Every check keeps the invariant and the initial listing, never forgets a reported
      name, adds only finished RPMs new in this check, and exits with status 1 only once
      240 checks without progress have been counted. */
  lemma {:induction false} StepSound(s: State, o: Observation)
    requires Sound(s) && s.exit.None?
    ensures Sound(Step(s, o))
    ensures Step(s, o).initial == s.initial
    ensures s.reportedFiles <= Step(s, o).reportedFiles
    ensures o.listing.Some? ==>
              forall f :: f in Step(s, o).reportedFiles - s.reportedFiles ==>
                f in o.listing.value && f !in s.initial && IsCompletedRpm(f) && f !in s.reportedFiles
    ensures Step(s, o).exit == Some(Failure) ==> Step(s, o).noProgressCount == StallLimit
  {
    if o.listing.Some? {
      var files := o.listing.value;
      var added := NewFiles(s.initial, files);
      ReportPhaseFacts(s, o.size, files);
      FreshRpmsGood(s, files);
      var s1 := ReportPhase(s, o.size, added);
      if s1.exit.None? {
        var partial := Filter(added, IsPartial);
        if |partial| > 0 {
          if o.size(partial[0]).Some? {
            TrackFacts(s1, partial[0], o.size(partial[0]).value, o.now);
          }
        } else {
          ScanSound(s1, Filter(added, IsPotential), o.size);
        }
      }
    }
  }

  /** Finished RPMs are reported at most once: a report names only finished RPMs that
      are new and were not reported before, and any finished RPM in a check before the
      run has reported marks an RPM completion. */
  lemma ReportOnce(s: State, size: string -> Option<nat>, files: seq<string>)
    requires s.exit.None? && !s.downloadReported
    ensures var r := ReportPhase(s, size, NewFiles(s.initial, files));
      (r.exit.Some? ==>
         r.exit.value.Success? && |r.exit.value.files| > 0 &&
         forall d :: d in r.exit.value.files ==>
           d.name in files && d.name !in s.initial && IsCompletedRpm(d.name) && d.name !in s.reportedFiles) &&
      ((exists f :: f in files && f !in s.initial && IsCompletedRpm(f)) ==> r.rpmCompletionDetected)
  {
    var added := NewFiles(s.initial, files);
    var newRpms := FreshRpms(s, added);
    FreshRpmsGood(s, files);
    var details := Map(f => Detail(size, f), newRpms);
    forall d | d in details
      ensures d.name in files && d.name !in s.initial && IsCompletedRpm(d.name) && d.name !in s.reportedFiles
    {
      var i :| 0 <= i < |details| && details[i] == d;
      assert newRpms[i] in newRpms;
    }
    FilterNonEmpty(added, IsCompletedRpm);
  }

  /** A partial file is declared finished only after at least six stable checks, with
      a known expected total it has reached to 98 %, under its name without the partial
      suffix. */
  lemma StableCompletion(s: State, p: string, size: nat, now: int)
    requires Sound(s) && s.exit.None?
    requires Track(s, p, size, now).exit.Some? && Track(s, p, size, now).exit.value.Success?
    ensures var t := Track(s, p, size, now);
      t.stableCount >= StableThreshold && t.totalSize > 0 && AtLeastPercent(size, t.totalSize, 98) &&
      t.exit.value.files == [FileDetail(StripPartialSuffix(p), size)]
  {
  }

  /** A file downloading under its final name is declared finished only after six
      stable checks, if no RPM was seen, and only for the known package types; a new name
      or a growing size starts the count again. */
  lemma WatchRules(s: State, f: string, size: nat)
    requires s.exit.None?
    ensures var t := Watch(s, f, size);
      (t.exit.Some? ==> t.stableCount >= StableThreshold && !s.rpmCompletionDetected && IsKnownPackage(f) &&
                        t.exit.value == Success([FileDetail(f, size)])) &&
      (s.lastFileName != Some(f) || size > s.downloadingFileSize ==> t.stableCount == 0 && t.exit.None?) &&
      (s.lastFileName == Some(f) && size == s.downloadingFileSize ==> t.stableCount == s.stableCount + 1)
  {
  }

  /** Once an RPM was detected, no file without a partial suffix ends the run. */
  lemma {:induction false} NoScanCompletionAfterRpm(s: State, files: seq<string>, size: string -> Option<nat>)
    requires s.exit.None? && s.rpmCompletionDetected
    ensures Scan(s, files, size).exit.None?
    decreases |files|
  {
    if files != [] {
      var s1 := if size(files[0]).Some? then Watch(s, files[0], size(files[0]).value) else s;
      NoScanCompletionAfterRpm(s1, files[1..], size);
    }
  }

  /** The 450 MiB estimate comes only from a partial ICAClient `rhel` or `x86_64` name. */
  lemma EstimateOnlyForIcaClient(s: State, p: string, size: nat, now: int)
    requires s.exit.None?
    ensures Track(s, p, size, now).totalSize != s.totalSize ==>
              Track(s, p, size, now).totalSize == EstimatedTotal && IsEstimated(p)
  {
  }

  /** The monitor's closure state, updated in place by each check. */
  class Monitor {
    var initial: set<string>
    var lastSizeCheckTime: int
    var lastFileSize: nat
    var lastFileName: Option<string>
    var noProgressCount: nat
    var totalSize: nat
    var downloadReported: bool
    var startReported: bool
    var completedFilesFound: bool
    var rpmCompletionDetected: bool
    var downloadingFileSize: nat
    var stableCount: nat
    var reportedFiles: set<string>
    var exit: Option<Exit>

    function Snapshot(): State
      reads this
    {
      State(initial, lastSizeCheckTime, lastFileSize, lastFileName, noProgressCount, totalSize,
            downloadReported, startReported, completedFilesFound, rpmCompletionDetected,
            downloadingFileSize, stableCount, reportedFiles, exit)
    }

    ghost predicate Valid()
      reads this
    {
      Sound(Snapshot())
    }

    constructor (given: seq<string>, listing: seq<string>, now: int)
      ensures Snapshot() == Initial(InitialNames(given, listing), now)
      ensures Valid() && exit.None?
    {
      initial := InitialNames(given, listing);
      lastSizeCheckTime := now;
      lastFileSize := 0;
      lastFileName := None;
      noProgressCount := 0;
      totalSize := 0;
      downloadReported := false;
      startReported := false;
      completedFilesFound := false;
      rpmCompletionDetected := false;
      downloadingFileSize := 0;
      stableCount := 0;
      reportedFiles := {};
      exit := None;
    }

    method Complete(files: seq<FileDetail>)
      modifies this
      ensures Snapshot() == Finish(old(Snapshot()), files)
    {
      downloadReported := true;
      exit := Some(Success(files));
    }

    method ReportRpms(size: string -> Option<nat>, added: seq<string>)
      modifies this
      ensures Snapshot() == ReportPhase(old(Snapshot()), size, added)
    {
      if |Filter(added, IsCompletedRpm)| > 0 && !downloadReported {
        var newRpms := FreshRpms(Snapshot(), added);
        completedFilesFound := true;
        rpmCompletionDetected := true;
        reportedFiles := reportedFiles + Readable(size, newRpms);
        if |newRpms| > 0 {
          Complete(Map(f => Detail(size, f), newRpms));
        }
      }
    }

    method StartFollowing(p: string, size: nat, now: int)
      modifies this
      ensures Snapshot() == Restart(old(Snapshot()), p, size, now)
    {
      if lastFileName != Some(p) || !startReported {
        startReported := true;
        if IsEstimated(p) {
          totalSize := EstimatedTotal;
        }
        lastFileName := Some(p);
        lastFileSize := size;
        lastSizeCheckTime := now;
        noProgressCount := 0;
      }
    }

    method CompareSize(p: string, size: nat, now: int)
      modifies this
      ensures Snapshot() == Measure(old(Snapshot()), p, size, now)
    {
      if now - lastSizeCheckTime >= MeasureGap {
        if size > lastFileSize {
          lastFileSize := size;
          noProgressCount := 0;
          stableCount := 0;
        } else if size == lastFileSize && size > 0 {
          noProgressCount := noProgressCount + 1;
          stableCount := stableCount + 1;
          if stableCount >= StableThreshold && totalSize > 0 && AtLeastPercent(size, totalSize, 98) {
            Complete([FileDetail(StripPartialSuffix(p), size)]);
            return;
          }
        }
        lastSizeCheckTime := now;
      }
    }

    method Follow(p: string, size: nat, now: int)
      modifies this
      ensures Snapshot() == Track(old(Snapshot()), p, size, now)
    {
      StartFollowing(p, size, now);
      CompareSize(p, size, now);
      if exit.None? && noProgressCount >= StallLimit {
        exit := Some(Failure);
      }
    }

    method WatchFile(f: string, size: nat)
      modifies this
      ensures Snapshot() == Watch(old(Snapshot()), f, size)
    {
      if lastFileName != Some(f) || size > downloadingFileSize {
        downloadingFileSize := size;
        stableCount := 0;
        lastFileName := Some(f);
        startReported := true;
      } else if size == downloadingFileSize {
        stableCount := stableCount + 1;
        if stableCount >= StableThreshold && !rpmCompletionDetected && IsKnownPackage(f) {
          Complete([FileDetail(f, size)]);
        }
      }
    }

    /** `for (const file of potentialDownloads)`, returning at a completion. */
    method ScanPotential(files: seq<string>, size: string -> Option<nat>)
      requires exit.None?
      modifies this
      ensures Snapshot() == Scan(old(Snapshot()), files, size)
    {
      var i := 0;
      while i < |files|
        invariant 0 <= i <= |files|
        invariant Scan(old(Snapshot()), files, size) == Scan(Snapshot(), files[i..], size)
      {
        if exit.Some? {
          return;
        }
        var n := size(files[i]);
        if n.Some? {
          WatchFile(files[i], n.value);
        }
        assert files[i..][1..] == files[i + 1..];
        i := i + 1;
      }
    }

    /** `checkForNewFiles`. */
    method Tick(o: Observation)
      requires exit.None?
      modifies this
      ensures Snapshot() == Step(old(Snapshot()), o)
    {
      if o.listing.None? {
        return;
      }
      var added := NewFiles(initial, o.listing.value);
      ReportRpms(o.size, added);
      if exit.Some? {
        return;
      }
      var partial := Filter(added, IsPartial);
      if |partial| > 0 {
        var n := o.size(partial[0]);
        if n.Some? {
          Follow(partial[0], n.value, o.now);
        }
        return;
      }
      ScanPotential(Filter(added, IsPotential), o.size);
    }
  }

  /** The checks of a run, one after the other, until the process exits. */
  function Run(s: State, obs: seq<Observation>): State
    decreases |obs|
  {
    if obs == [] || s.exit.Some? then s else Run(Step(s, obs[0]), obs[1..])
  }

  lemma {:induction false} RunSound(s: State, obs: seq<Observation>)
    requires Sound(s)
    ensures Sound(Run(s, obs))
    decreases |obs|
  {
    if obs != [] && s.exit.None? {
      StepSound(s, obs[0]);
      RunSound(Step(s, obs[0]), obs[1..]);
    }
  }

  /** The polling loop: checks until the process exits or the observations run out. */
  method Poll(given: seq<string>, listing: seq<string>, start: int, obs: seq<Observation>)
    returns (e: Option<Exit>)
    ensures e == Run(Initial(InitialNames(given, listing), start), obs).exit
    ensures e.Some? && e.value.Success? ==> |e.value.files| > 0
  {
    var m := new Monitor(given, listing, start);
    ghost var s0 := m.Snapshot();
    var i := 0;
    while i < |obs| && m.exit.None?
      invariant 0 <= i <= |obs|
      invariant m.Valid()
      invariant Run(s0, obs) == Run(m.Snapshot(), obs[i..])
    {
      ghost var before := m.Snapshot();
      m.Tick(obs[i]);
      assert m.Valid() by {
        StepSound(before, obs[i]);
      }
      assert obs[i..][1..] == obs[i + 1..];
      i := i + 1;
    }
    RunSound(s0, obs);
    e := m.exit;
  }
}
