/** The download monitor of the Citrix downloader (`monitorDownloads`): every 500 ms it
    lists the download directory, reports finished Citrix RPMs once, follows the first
    partial download, and gives up after 240 checks without progress. The clock, the
    directory listing and the file sizes are inputs of each check. */
module RpmMonitor {
  import opened Base
  import opened Text
  import opened DownloadFiles

  /** How the monitor's promise settles. */
  datatype Resolution = Completed(files: seq<FileDetail>) | Stalled

  /** The monitor's closure variables; `barShown` is whether a progress line is on screen. */
  datatype State = State(
    initial: set<string>,
    lastSizeCheckTime: int,
    lastFileSize: nat,
    lastFileName: Option<string>,
    noProgressCount: nat,
    totalSize: nat,
    downloadReported: bool,
    startReported: bool,
    completedFilesFound: bool,
    pendingDisplay: bool,
    pendingFiles: seq<FileDetail>,
    reportedFiles: set<string>,
    barShown: bool,
    resolved: Option<Resolution>)

  /** The state at the start: nothing seen yet. */
  function Initial(initial: set<string>, now: int): State
  {
    State(initial, now, 0, None, 0, 0, false, false, false, false, [], {}, false, None)
  }

  /** `displayCompletionMessage`: the bar is cleared and the promise resolves. */
  function Complete(s: State, files: seq<FileDetail>): State
  {
    s.(barShown := false, downloadReported := true, resolved := Some(Completed(files)))
  }

  /** The finished RPMs of this check not reported before. */
  function FreshRpms(s: State, added: seq<string>): seq<string>
  {
    Filter(Filter(added, IsCompletedRpm), f => f !in s.reportedFiles)
  }

  /** First part of a check: finished Citrix RPMs. */
  function ReportPhase(s: State, size: string -> Option<nat>, added: seq<string>): State
  {
    if |Filter(added, IsCompletedRpm)| > 0 && !s.downloadReported then
      var newRpms := FreshRpms(s, added);
      var details := Map(f => Detail(size, f), newRpms);
      var s1 := s.(completedFilesFound := true, reportedFiles := s.reportedFiles + Readable(size, newRpms));
      if |details| > 0 then ShowCompletion(s1, details) else s1
    else s
  }

  /** Fresh RPMs with their details: they are kept as pending and, unless the bar is shown
      with a completion already pending, the completion message resolves the promise. */
  function ShowCompletion(s: State, details: seq<FileDetail>): State
    requires |details| > 0
  {
    var s2 := s.(pendingFiles := details);
    if s2.barShown && !s2.pendingDisplay then
      var total := if details[0].size > s2.totalSize then details[0].size else s2.totalSize;
      Complete(s2.(pendingDisplay := true, totalSize := total), details)
    else if !s2.barShown then Complete(s2, details)
    else s2
  }

  /** A partial file seen for the first time (or before any start was reported). */
  function Restart(s: State, p: string, size: nat, now: int): State
  {
    if s.lastFileName != Some(p) || !s.startReported then
      s.(barShown := true, startReported := true,
         totalSize := if IsEstimated(p) then EstimatedTotal else s.totalSize,
         lastFileName := Some(p), lastFileSize := size, lastSizeCheckTime := now, noProgressCount := 0)
    else s
  }

  /** The size comparison, made once at least 450 ms have passed since the last one. */
  function Measure(s: State, size: nat, now: int): State
  {
    if now - s.lastSizeCheckTime >= MeasureGap then
      var s1 :=
        if size > s.lastFileSize then
          s.(barShown := true, lastFileSize := size, noProgressCount := 0,
             pendingDisplay := s.pendingDisplay ||
               (s.completedFilesFound && s.totalSize > 0 && AtLeastPercent(size, s.totalSize, 98)))
        else if size == s.lastFileSize && size > 0 then
          var n := s.noProgressCount + 1;
          s.(noProgressCount := n, barShown := if n % 20 == 0 then true else s.barShown)
        else s;
      s1.(lastSizeCheckTime := now)
    else s
  }

  /** After the comparison: give up at 240 checks without progress, else note a nearly
      complete partial file. */
  function Settle(s: State, size: nat): State
  {
    if s.noProgressCount >= StallLimit then s.(barShown := false, resolved := Some(Stalled))
    else s.(pendingDisplay := s.pendingDisplay ||
              (s.completedFilesFound && s.totalSize > 0 && AtLeastPercent(size, s.totalSize, 99)))
  }

  /** Following the partial file `p` of size `size`. */
  function Track(s: State, p: string, size: nat, now: int): State
  {
    Settle(Measure(Restart(s, p, size, now), size, now), size)
  }

  /** Second part of a check: partial downloads, then a delayed completion. */
  function ProgressPhase(s: State, o: Observation, added: seq<string>): State
  {
    var partial := Filter(added, IsPartial);
    if s.pendingDisplay && |partial| == 0 && |s.pendingFiles| > 0 then Complete(s, s.pendingFiles)
    else if |partial| > 0 && o.size(partial[0]).Some? then
      Track(s, partial[0], o.size(partial[0]).value, o.now)
    else if s.completedFilesFound && |s.pendingFiles| > 0 && !s.downloadReported then
      Complete(s, s.pendingFiles)
    else s
  }

  /** One call of `checkForNewFiles`. */
  function Step(s: State, o: Observation): State
  {
    match o.listing
    case None => s
    case Some(files) =>
      var added := NewFiles(s.initial, files);
      var s1 := ReportPhase(s, o.size, added);
      if s1.resolved.Some? then s1 else ProgressPhase(s1, o, added)
  }

  /** A reported file is a finished Citrix RPM that was not there at the start. */
  ghost predicate GoodDetail(s: State, d: FileDetail)
  {
    IsCompletedRpm(d.name) && d.name !in s.initial
  }

  /** What holds between checks: a running monitor has fewer than 240 checks without
      progress and has not reported, and everything it holds for reporting, or has
      reported, is a finished Citrix RPM that appeared during the run. */
  ghost predicate Sound(s: State)
  {
    (s.resolved.None? ==> s.noProgressCount < StallLimit && !s.downloadReported) &&
    (forall d :: d in s.pendingFiles ==> GoodDetail(s, d)) &&
    (s.resolved.Some? && s.resolved.value.Completed? ==>
       |s.resolved.value.files| > 0 && forall d :: d in s.resolved.value.files ==> GoodDetail(s, d))
  }

  lemma InitialValid(initial: set<string>, now: int)
    ensures Sound(Initial(initial, now))
    ensures Initial(initial, now).resolved.None?
  {
  }

  lemma FreshRpmsGood(s: State, files: seq<string>)
    ensures forall f :: f in FreshRpms(s, NewFiles(s.initial, files)) ==>
              IsCompletedRpm(f) && f !in s.initial && f in files && f !in s.reportedFiles
  {
  }

  lemma ReportPhaseFacts(s: State, size: string -> Option<nat>, files: seq<string>)
    requires Sound(s) && s.resolved.None?
    ensures var r := ReportPhase(s, size, NewFiles(s.initial, files));
      Sound(r) && r.initial == s.initial && r.noProgressCount == s.noProgressCount &&
      s.reportedFiles <= r.reportedFiles &&
      (forall f :: f in r.reportedFiles - s.reportedFiles ==> f in FreshRpms(s, NewFiles(s.initial, files))) &&
      (r.resolved.Some? ==> r.resolved == Some(Completed(Map(f => Detail(size, f), FreshRpms(s, NewFiles(s.initial, files))))))
  {
    var added := NewFiles(s.initial, files);
    var newRpms := FreshRpms(s, added);
    FreshRpmsGood(s, files);
    var details := Map(f => Detail(size, f), newRpms);
    forall d | d in details ensures GoodDetail(s, d) {
      var i :| 0 <= i < |details| && details[i] == d;
      assert newRpms[i] in newRpms;
    }
  }

  lemma TrackFacts(s: State, p: string, size: nat, now: int)
    requires Sound(s) && s.resolved.None?
    ensures var r := Track(s, p, size, now);
      Sound(r) && r.initial == s.initial && r.reportedFiles == s.reportedFiles &&
      r.pendingFiles == s.pendingFiles &&
      (r.resolved.Some? ==> r.resolved == Some(Stalled) && r.noProgressCount == StallLimit)
  {
  }

  /** Every check keeps the invariant, never forgets a reported name, and adds to the
      reported names only finished RPMs that are new in this check. */
  lemma {:induction false} StepValid(s: State, o: Observation)
    requires Sound(s) && s.resolved.None?
    ensures Sound(Step(s, o))
    ensures Step(s, o).initial == s.initial
    ensures s.reportedFiles <= Step(s, o).reportedFiles
    ensures o.listing.Some? ==>
              forall f :: f in Step(s, o).reportedFiles - s.reportedFiles ==>
                f in o.listing.value && f !in s.initial && IsCompletedRpm(f) && f !in s.reportedFiles
    ensures Step(s, o).resolved == Some(Stalled) ==> Step(s, o).noProgressCount == StallLimit
  {
    if o.listing.Some? {
      var files := o.listing.value;
      var added := NewFiles(s.initial, files);
      ReportPhaseFacts(s, o.size, files);
      FreshRpmsGood(s, files);
      var s1 := ReportPhase(s, o.size, added);
      if s1.resolved.None? {
        var partial := Filter(added, IsPartial);
        if s1.pendingDisplay && |partial| == 0 && |s1.pendingFiles| > 0 {
        } else if |partial| > 0 && o.size(partial[0]).Some? {
          TrackFacts(s1, partial[0], o.size(partial[0]).value, o.now);
        }
      }
    }
  }

  /** The stall counter while a partial file `p` is followed: it restarts at 0 for a new
      file or a growing one, grows by one for an unchanged non-empty size measured at
      least 450 ms after the previous measurement, and is otherwise left alone. */
  lemma StallCounterRules(s: State, p: string, size: nat, now: int)
    requires Sound(s) && s.resolved.None?
    ensures var r := Track(s, p, size, now);
      (s.lastFileName != Some(p) || !s.startReported ==> r.noProgressCount == 0 && r.resolved.None?) &&
      (s.lastFileName == Some(p) && s.startReported ==>
        r.noProgressCount ==
          if now - s.lastSizeCheckTime < MeasureGap then s.noProgressCount
          else if size > s.lastFileSize then 0
          else if size == s.lastFileSize && size > 0 then s.noProgressCount + 1
          else s.noProgressCount) &&
      (r.resolved == Some(Stalled) <==> r.noProgressCount >= StallLimit)
  {
  }

  /** The 450 MiB estimate is only ever taken from a partial ICAClient `rhel` or `x86_64`
      file name, while the monitor keeps running. */
  lemma EstimateOnlyForIcaClient(s: State, p: string, size: nat, now: int)
    requires Sound(s) && s.resolved.None?
    ensures var r := Track(s, p, size, now);
      r.totalSize != s.totalSize ==> r.totalSize == EstimatedTotal && IsEstimated(p)
  {
  }

  /** A check, made at least 450 ms after `since`, that sees the partial file `p` first
      among the new partial files, with size `size > 0`, and no new finished RPM. */
  ghost predicate QuietCheck(o: Observation, initial: set<string>, p: string, size: nat, since: int)
  {
    o.listing.Some? &&
    Filter(NewFiles(initial, o.listing.value), IsCompletedRpm) == [] &&
    Filter(NewFiles(initial, o.listing.value), IsPartial) != [] &&
    Filter(NewFiles(initial, o.listing.value), IsPartial)[0] == p &&
    o.size(p) == Some(size) && size > 0 &&
    o.now - since >= MeasureGap
  }

  /** The time of the check before check `i`: `start` for the first one. */
  function Since(obs: seq<Observation>, i: nat, start: int): int
    requires i <= |obs|
  {
    if i == 0 then start else obs[i - 1].now
  }

  /** Every check of `obs` is quiet for `p` at size `size`. */
  ghost predicate QuietRun(obs: seq<Observation>, initial: set<string>, p: string, size: nat, start: int)
  {
    forall i :: 0 <= i < |obs| ==> QuietCheck(obs[i], initial, p, size, Since(obs, i, start))
  }

  /** The monitor is following `p` and last measured it at `s.lastFileSize`. */
  ghost predicate Following(s: State, p: string)
  {
    s.lastFileName == Some(p) && s.startReported
  }

  /** A quiet check adds exactly one to the stall counter, and gives up when that
      reaches 240. */
  lemma QuietStep(s: State, o: Observation, p: string)
    requires Sound(s) && s.resolved.None? && Following(s, p)
    requires QuietCheck(o, s.initial, p, s.lastFileSize, s.lastSizeCheckTime)
    ensures Step(s, o).noProgressCount == s.noProgressCount + 1
    ensures Following(Step(s, o), p)
    ensures Step(s, o).lastFileSize == s.lastFileSize
    ensures Step(s, o).lastSizeCheckTime == o.now
    ensures Step(s, o).initial == s.initial
    ensures Step(s, o).resolved == (if s.noProgressCount + 1 >= StallLimit then Some(Stalled) else None)
  {
    var added := NewFiles(s.initial, o.listing.value);
    assert ReportPhase(s, o.size, added) == s;
  }

  /** The checks of a run, one after the other, until the promise settles. */
  function Run(s: State, obs: seq<Observation>): State
    requires s.resolved.None? ==> Sound(s)
    decreases |obs|
  {
    if obs == [] || s.resolved.Some? then s
    else
      StepValid(s, obs[0]);
      Run(Step(s, obs[0]), obs[1..])
  }

  /** An unresolved run takes one check and goes on from the state it leaves. */
  lemma RunStep(s: State, obs: seq<Observation>)
    requires Sound(s) && s.resolved.None? && obs != []
    ensures Sound(Step(s, obs[0])) && Step(s, obs[0]).initial == s.initial
    ensures Run(s, obs) == Run(Step(s, obs[0]), obs[1..])
  {
    StepValid(s, obs[0]);
  }

  lemma {:induction false} RunValid(s: State, obs: seq<Observation>)
    requires Sound(s)
    ensures Sound(Run(s, obs))
    decreases |obs|
  {
    if obs != [] && s.resolved.None? {
      StepValid(s, obs[0]);
      RunValid(Step(s, obs[0]), obs[1..]);
    }
  }

  /** A download that stops growing is given up after exactly as many quiet checks as
      the counter still lacks from 240. */
  lemma {:induction false} QuietRunStalls(s: State, obs: seq<Observation>, p: string)
    requires Sound(s) && s.resolved.None? && Following(s, p)
    requires |obs| == StallLimit - s.noProgressCount
    requires QuietRun(obs, s.initial, p, s.lastFileSize, s.lastSizeCheckTime)
    ensures Run(s, obs).resolved == Some(Stalled)
    decreases |obs|
  {
    assert QuietCheck(obs[0], s.initial, p, s.lastFileSize, Since(obs, 0, s.lastSizeCheckTime));
    QuietStep(s, obs[0], p);
    var s1 := Step(s, obs[0]);
    StepValid(s, obs[0]);
    if s.noProgressCount + 1 < StallLimit {
      var rest := obs[1..];
      forall i | 0 <= i < |rest|
        ensures QuietCheck(rest[i], s1.initial, p, s1.lastFileSize, Since(rest, i, s1.lastSizeCheckTime))
      {
        assert rest[i] == obs[i + 1];
        assert QuietCheck(obs[i + 1], s.initial, p, s.lastFileSize, Since(obs, i + 1, s.lastSizeCheckTime));
        if i > 0 {
          assert rest[i - 1] == obs[i];
        }
      }
      QuietRunStalls(s1, rest, p);
    }
  }

  /** The monitor's closure state, updated in place by each check. */
  class Monitor {
    var initial: set<string>
    var lastSizeCheckTime: int
    var lastFileSize: nat
    var lastFileName: Option<string>
    var noProgressCount: nat
    var totalSize: nat
    var downloadReported: bool
    var startReported: bool
    var completedFilesFound: bool
    var pendingDisplay: bool
    var pendingFiles: seq<FileDetail>
    var reportedFiles: set<string>
    var barShown: bool
    var resolved: Option<Resolution>

    function Snapshot(): State
      reads this
    {
      State(initial, lastSizeCheckTime, lastFileSize, lastFileName, noProgressCount, totalSize,
            downloadReported, startReported, completedFilesFound, pendingDisplay, pendingFiles,
            reportedFiles, barShown, resolved)
    }

    ghost predicate Valid()
      reads this
    {
      Sound(Snapshot())
    }

    /** The initial listing is the one given, or the directory's own when none is given. */
    constructor (given: seq<string>, listing: seq<string>, now: int)
      ensures Snapshot() == Initial(InitialNames(given, listing), now)
      ensures Valid() && resolved.None?
    {
      initial := InitialNames(given, listing);
      lastSizeCheckTime := now;
      lastFileSize := 0;
      lastFileName := None;
      noProgressCount := 0;
      totalSize := 0;
      downloadReported := false;
      startReported := false;
      completedFilesFound := false;
      pendingDisplay := false;
      pendingFiles := [];
      reportedFiles := {};
      barShown := false;
      resolved := None;
    }

    method Finish(files: seq<FileDetail>)
      modifies this
      ensures Snapshot() == Complete(old(Snapshot()), files)
    {
      barShown := false;
      downloadReported := true;
      resolved := Some(Completed(files));
    }

    method ReportRpms(size: string -> Option<nat>, added: seq<string>)
      modifies this
      ensures Snapshot() == ReportPhase(old(Snapshot()), size, added)
    {
      if |Filter(added, IsCompletedRpm)| > 0 && !downloadReported {
        var newRpms := FreshRpms(Snapshot(), added);
        var details := Map(f => Detail(size, f), newRpms);
        completedFilesFound, reportedFiles := true, reportedFiles + Readable(size, newRpms);
        if |details| > 0 {
          Show(details);
        }
      }
    }

    method Show(details: seq<FileDetail>)
      requires |details| > 0
      modifies this
      ensures Snapshot() == ShowCompletion(old(Snapshot()), details)
    {
      pendingFiles := details;
      if barShown && !pendingDisplay {
        var total := if details[0].size > totalSize then details[0].size else totalSize;
        pendingDisplay, totalSize := true, total;
        Finish(details);
      } else if !barShown {
        Finish(details);
      }
    }

    method StartFollowing(p: string, size: nat, now: int)
      modifies this
      ensures Snapshot() == Restart(old(Snapshot()), p, size, now)
    {
      if lastFileName != Some(p) || !startReported {
        var total := if IsEstimated(p) then EstimatedTotal else totalSize;
        barShown, startReported, totalSize, lastFileName, lastFileSize, lastSizeCheckTime, noProgressCount :=
          true, true, total, Some(p), size, now, 0;
      }
    }

    method CompareSize(size: nat, now: int)
      modifies this
      ensures Snapshot() == Measure(old(Snapshot()), size, now)
    {
      if now - lastSizeCheckTime >= MeasureGap {
        if size > lastFileSize {
          barShown := true;
          lastFileSize := size;
          noProgressCount := 0;
          if completedFilesFound && totalSize > 0 && AtLeastPercent(size, totalSize, 98) {
            pendingDisplay := true;
          }
        } else if size == lastFileSize && size > 0 {
          noProgressCount := noProgressCount + 1;
          if noProgressCount % 20 == 0 {
            barShown := true;
          }
        }
        lastSizeCheckTime := now;
      }
    }

    method Conclude(size: nat)
      modifies this
      ensures Snapshot() == Settle(old(Snapshot()), size)
    {
      if noProgressCount >= StallLimit {
        barShown := false;
        resolved := Some(Stalled);
        return;
      }
      if completedFilesFound && totalSize > 0 && AtLeastPercent(size, totalSize, 99) {
        pendingDisplay := true;
      }
    }

    method Follow(p: string, size: nat, now: int)
      modifies this
      ensures Snapshot() == Track(old(Snapshot()), p, size, now)
    {
      StartFollowing(p, size, now);
      CompareSize(size, now);
      Conclude(size);
    }

    /** `checkForNewFiles`. */
    method Tick(o: Observation)
      requires resolved.None?
      modifies this
      ensures Snapshot() == Step(old(Snapshot()), o)
    {
      if o.listing.None? {
        return;
      }
      var added := NewFiles(initial, o.listing.value);
      ReportRpms(o.size, added);
      if resolved.Some? {
        return;
      }
      var partial := Filter(added, IsPartial);
      if pendingDisplay && |partial| == 0 && |pendingFiles| > 0 {
        Finish(pendingFiles);
        return;
      }
      if |partial| > 0 && o.size(partial[0]).Some? {
        Follow(partial[0], o.size(partial[0]).value, o.now);
        return;
      }
      if completedFilesFound && |pendingFiles| > 0 && !downloadReported {
        Finish(pendingFiles);
      }
    }
  }

  /** The polling loop: the first check runs at once, the others every 500 ms until the
      promise settles or the observations run out. */
  method Poll(given: seq<string>, listing: seq<string>, start: int, obs: seq<Observation>)
    returns (r: Option<Resolution>)
    ensures r == Run(Initial(InitialNames(given, listing), start), obs).resolved
    ensures r.Some? && r.value.Completed? ==>
              |r.value.files| > 0 &&
              forall d :: d in r.value.files ==> IsCompletedRpm(d.name) && d.name !in (if given == [] then listing else given)
  {
    var m := new Monitor(given, listing, start);
    ghost var s0 := m.Snapshot();
    var i := 0;
    while i < |obs| && m.resolved.None?
      invariant 0 <= i <= |obs|
      invariant m.Valid()
      invariant m.initial == s0.initial
      invariant Run(s0, obs) == Run(m.Snapshot(), obs[i..])
    {
      ghost var rest := obs[i..];
      RunStep(m.Snapshot(), rest);
      assert rest[0] == obs[i] && rest[1..] == obs[i + 1..];
      m.Tick(obs[i]);
      i := i + 1;
    }
    RunValid(s0, obs);
    r := m.resolved;
  }
}
