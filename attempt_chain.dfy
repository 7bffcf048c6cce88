/** The chain of download methods of the Citrix downloader: direct URLs, the page's
    download links, license acceptance, and clicking every download element, each
    guarded by `checkDownloadStatus`. The answers of the successive status checks and
    whether each method throws come from the browser and the file system, so they are
    parameters: `status(n)` is the answer of the n-th check, `throws(k)` whether method
    `k` (numbered 0 to 3 in that order) throws. */
module AttemptChain {

  /** The number of download methods tried. */
  const Methods := 4

  /** One observable step: a status check and its answer, or a method being run. */
  datatype Event = Checked(result: bool) | Ran(index: nat)

  /** The events, whether `downloadDetectedByMainLogic` ended up set, and how many status
      checks were made. */
  datatype Chain = Chain(events: seq<Event>, detected: bool, checks: nat)

  /** `attemptDownload(k)` starting at check number `c`: a positive check skips the method
      and marks the download as detected; otherwise the method runs, and unless it throws
      one more check decides. */
  function Attempt(k: nat, c: nat, status: nat -> bool, throws: nat -> bool): (r: Chain)
    ensures r.checks > c && |r.events| > 0 && r.events[0] == Checked(status(c))
  {
    if status(c) then Chain([Checked(true)], true, c + 1)
    else if throws(k) then Chain([Checked(false), Ran(k)], false, c + 1)
    else Chain([Checked(false), Ran(k), Checked(status(c + 1))], status(c + 1), c + 2)
  }

  /** A later method: `if (!await checkDownloadStatus()) await attemptDownload(...)`. */
  function Guarded(k: nat, c: nat, status: nat -> bool, throws: nat -> bool): (r: Chain)
    ensures r.checks > c && |r.events| > 0 && r.events[0] == Checked(status(c))
  {
    if status(c) then Chain([Checked(true)], false, c + 1)
    else
      var a := Attempt(k, c + 1, status, throws);
      Chain([Checked(false)] + a.events, a.detected, a.checks)
  }

  /** Two parts of the chain one after the other. */
  function Then(a: Chain, b: Chain): Chain
  {
    Chain(a.events + b.events, a.detected || b.detected, b.checks)
  }

  /** The guarded methods `k` to 3, starting at check number `c`. */
  function ChainFrom(k: nat, c: nat, status: nat -> bool, throws: nat -> bool): (r: Chain)
    ensures r.checks >= c
    ensures k < Methods ==> |r.events| > 0 && r.events[0].Checked?
    decreases Methods - k
  {
    if k >= Methods then Chain([], false, c)
    else
      var g := Guarded(k, c, status, throws);
      Then(g, ChainFrom(k + 1, g.checks, status, throws))
  }

  /** One guarded method followed by the rest of the chain. */
  lemma ChainFromStep(k: nat, c: nat, status: nat -> bool, throws: nat -> bool)
    requires k < Methods
    ensures var g := Guarded(k, c, status, throws);
      var rest := ChainFrom(k + 1, g.checks, status, throws);
      ChainFrom(k, c, status, throws).events == g.events + rest.events &&
      ChainFrom(k, c, status, throws).detected == (g.detected || rest.detected)
  {
  }

  /** The method numbers from `k` to the last one. */
  lemma CountFrom(k: nat)
    requires k < Methods
    ensures [k] + seq(Methods - (k + 1), i => k + 1 + i) == seq(Methods - k, i => k + i)
  {
  }

  /** The whole chain: the direct-URL method is attempted at once, the others guarded. */
  function RunChain(status: nat -> bool, throws: nat -> bool): Chain
  {
    var a := Attempt(0, 0, status, throws);
    Then(a, ChainFrom(1, a.checks, status, throws))
  }

  /** The methods run, in the order they run. */
  function RanMethods(events: seq<Event>): seq<nat>
  {
    if events == [] then []
    else (if events[0].Ran? then [events[0].index] else []) + RanMethods(events[1..])
  }

  lemma {:induction false} RanMethodsAppend(a: seq<Event>, b: seq<Event>)
    ensures RanMethods(a + b) == RanMethods(a) + RanMethods(b)
  {
    var whole := a + b;
    if a == [] {
      assert whole == b;
    } else {
      assert whole[0] == a[0];
      assert whole[1..] == a[1..] + b;
      RanMethodsAppend(a[1..], b);
    }
  }

  /** Every method run comes straight after a status check that answered no. */
  ghost predicate RunsOnlyAfterNo(events: seq<Event>)
  {
    forall i :: 0 <= i < |events| && events[i].Ran? ==> i > 0 && events[i - 1] == Checked(false)
  }

  lemma RunsOnlyAfterNoAppend(a: seq<Event>, b: seq<Event>)
    requires RunsOnlyAfterNo(a) && RunsOnlyAfterNo(b)
    requires b == [] || b[0].Checked?
    ensures RunsOnlyAfterNo(a + b)
  {
    var e := a + b;
    forall i | 0 <= i < |e| && e[i].Ran? ensures i > 0 && e[i - 1] == Checked(false) {
      if i >= |a| {
        assert e[i] == b[i - |a|];
        if i > |a| {
          assert e[i - 1] == b[i - |a| - 1];
        }
      } else {
        assert e[i] == a[i];
        assert a[i].Ran?;
      }
    }
  }

  /** No method runs. */
  ghost predicate NoRun(events: seq<Event>)
  {
    forall j :: 0 <= j < |events| ==> !events[j].Ran?
  }

  /** No method runs after a status check that answered yes. */
  ghost predicate NoRunAfterYes(events: seq<Event>)
  {
    forall i, j :: 0 <= i < j < |events| && events[i] == Checked(true) ==> !events[j].Ran?
  }

  lemma NoRunAfterYesAppend(a: seq<Event>, b: seq<Event>)
    requires NoRunAfterYes(a) && NoRunAfterYes(b)
    requires Checked(true) in a ==> NoRun(b)
    ensures NoRunAfterYes(a + b)
  {
    var e := a + b;
    forall i, j | 0 <= i < j < |e| && e[i] == Checked(true) ensures !e[j].Ran? {
      if j >= |a| {
        assert e[j] == b[j - |a|];
        if i < |a| {
          assert a[i] == Checked(true);
        } else {
          assert b[i - |a|] == Checked(true);
        }
      } else {
        assert a[i] == Checked(true) && e[j] == a[j];
      }
    }
  }

  /** What one attempt shows: it runs its method exactly when its first check says no,
      a run follows a no, and a yes is its last check. */
  lemma AttemptFacts(k: nat, c: nat, status: nat -> bool, throws: nat -> bool)
    ensures var a := Attempt(k, c, status, throws);
      RanMethods(a.events) == (if status(c) then [] else [k]) &&
      RunsOnlyAfterNo(a.events) && NoRunAfterYes(a.events) &&
      (a.detected ==> Checked(true) in a.events) &&
      (Checked(true) in a.events ==> status(a.checks - 1))
  {
    var a := Attempt(k, c, status, throws);
    if status(c) {
      assert RanMethods(a.events) == [] + RanMethods([]);
    } else if throws(k) {
      RanMethodsAppend([Checked(false)], [Ran(k)]);
      assert [Checked(false)] + [Ran(k)] == a.events;
    } else {
      RanMethodsAppend([Checked(false)] + [Ran(k)], [Checked(status(c + 1))]);
      RanMethodsAppend([Checked(false)], [Ran(k)]);
      assert [Checked(false)] + [Ran(k)] + [Checked(status(c + 1))] == a.events;
    }
  }

  lemma GuardedFacts(k: nat, c: nat, status: nat -> bool, throws: nat -> bool)
    ensures var g := Guarded(k, c, status, throws);
      RanMethods(g.events) == (if status(c) || status(c + 1) then [] else [k]) &&
      RunsOnlyAfterNo(g.events) && NoRunAfterYes(g.events) &&
      (g.detected ==> Checked(true) in g.events) &&
      (Checked(true) in g.events ==> status(g.checks - 1))
  {
    var g := Guarded(k, c, status, throws);
    if !status(c) {
      var a := Attempt(k, c + 1, status, throws);
      AttemptFacts(k, c + 1, status, throws);
      RanMethodsAppend([Checked(false)], a.events);
      RunsOnlyAfterNoAppend([Checked(false)], a.events);
      NoRunAfterYesAppend([Checked(false)], a.events);
    } else {
      assert RanMethods(g.events) == [] + RanMethods([]);
    }
  }

  /** Strictly increasing method numbers from `k` up to the last method. */
  ghost predicate Increasing(ms: seq<nat>, k: nat)
  {
    (forall i :: 0 <= i < |ms| ==> k <= ms[i] < Methods) &&
    (forall i, j :: 0 <= i < j < |ms| ==> ms[i] < ms[j])
  }

  lemma IncreasingPrepend(m: seq<nat>, rest: seq<nat>, k: nat)
    requires k < Methods && (m == [] || m == [k]) && Increasing(rest, k + 1)
    ensures Increasing(m + rest, k)
  {
    var e := m + rest;
    forall i, j | 0 <= i < j < |e| ensures e[i] < e[j] {
      if i >= |m| {
        assert e[i] == rest[i - |m|] && e[j] == rest[j - |m|];
      } else {
        assert e[j] == rest[j - 1];
      }
    }
  }

  /** A yes somewhere in the second part is a yes in the whole. */
  lemma YesInSuffix(a: seq<Event>, b: seq<Event>)
    requires Checked(true) in b
    ensures Checked(true) in a + b
  {
    var i :| 0 <= i < |b| && b[i] == Checked(true);
    assert (a + b)[|a| + i] == Checked(true);
  }

  lemma {:induction false} ChainFromRunsAfterNo(k: nat, c: nat, status: nat -> bool, throws: nat -> bool)
    ensures RunsOnlyAfterNo(ChainFrom(k, c, status, throws).events)
    decreases Methods - k
  {
    if k < Methods {
      var g := Guarded(k, c, status, throws);
      var rest := ChainFrom(k + 1, g.checks, status, throws);
      ChainFromStep(k, c, status, throws);
      assert RunsOnlyAfterNo(g.events) by {
        GuardedFacts(k, c, status, throws);
      }
      ChainFromRunsAfterNo(k + 1, g.checks, status, throws);
      RunsOnlyAfterNoAppend(g.events, rest.events);
    }
  }

  lemma {:induction false} ChainFromIncreasing(k: nat, c: nat, status: nat -> bool, throws: nat -> bool)
    ensures Increasing(RanMethods(ChainFrom(k, c, status, throws).events), k)
    decreases Methods - k
  {
    if k < Methods {
      var g := Guarded(k, c, status, throws);
      var rest := ChainFrom(k + 1, g.checks, status, throws);
      ChainFromStep(k, c, status, throws);
      assert RanMethods(g.events) == [] || RanMethods(g.events) == [k] by {
        GuardedFacts(k, c, status, throws);
      }
      ChainFromIncreasing(k + 1, g.checks, status, throws);
      RanMethodsAppend(g.events, rest.events);
      IncreasingPrepend(RanMethods(g.events), RanMethods(rest.events), k);
    }
  }

  lemma {:induction false} ChainFromDetected(k: nat, c: nat, status: nat -> bool, throws: nat -> bool)
    ensures ChainFrom(k, c, status, throws).detected ==> Checked(true) in ChainFrom(k, c, status, throws).events
    decreases Methods - k
  {
    if k < Methods {
      var g := Guarded(k, c, status, throws);
      var rest := ChainFrom(k + 1, g.checks, status, throws);
      ChainFromStep(k, c, status, throws);
      assert g.detected ==> Checked(true) in g.events by {
        GuardedFacts(k, c, status, throws);
      }
      ChainFromDetected(k + 1, g.checks, status, throws);
      if rest.detected {
        YesInSuffix(g.events, rest.events);
      }
    }
  }

  /** Each method runs only right after a status check that answered no, the methods
      run in their fixed order and each at most once, and a detected download was seen
      by some check. */
  lemma ChainShape(status: nat -> bool, throws: nat -> bool)
    ensures RunsOnlyAfterNo(RunChain(status, throws).events)
    ensures Increasing(RanMethods(RunChain(status, throws).events), 0)
    ensures RunChain(status, throws).detected ==> Checked(true) in RunChain(status, throws).events
  {
    var a := Attempt(0, 0, status, throws);
    var rest := ChainFrom(1, a.checks, status, throws);
    AttemptFacts(0, 0, status, throws);
    ChainFromRunsAfterNo(1, a.checks, status, throws);
    ChainFromIncreasing(1, a.checks, status, throws);
    ChainFromDetected(1, a.checks, status, throws);
    RunsOnlyAfterNoAppend(a.events, rest.events);
    RanMethodsAppend(a.events, rest.events);
    IncreasingPrepend(RanMethods(a.events), RanMethods(rest.events), 0);
    if rest.detected {
      YesInSuffix(a.events, rest.events);
    }
  }

  lemma {:induction false} NothingSeenFrom(k: nat, c: nat, status: nat -> bool, throws: nat -> bool)
    requires k <= Methods
    requires forall n :: !status(n)
    ensures RanMethods(ChainFrom(k, c, status, throws).events) == seq(Methods - k, i => k + i)
    ensures !ChainFrom(k, c, status, throws).detected
    decreases Methods - k
  {
    if k < Methods {
      var g := Guarded(k, c, status, throws);
      var rest := ChainFrom(k + 1, g.checks, status, throws);
      ChainFromStep(k, c, status, throws);
      GuardedFacts(k, c, status, throws);
      NothingSeenFrom(k + 1, g.checks, status, throws);
      RanMethodsAppend(g.events, rest.events);
      assert !status(c) && !status(c + 1);
      assert RanMethods(g.events) == [k];
      CountFrom(k);
      assert !g.detected by {
        AttemptFacts(k, c + 1, status, throws);
      }
    }
  }

  /** While no check ever sees a download, every method is tried, in order, whatever
      each of them throws, and nothing is marked as detected. */
  lemma NothingSeen(status: nat -> bool, throws: nat -> bool)
    requires forall n :: !status(n)
    ensures RanMethods(RunChain(status, throws).events) == [0, 1, 2, 3]
    ensures !RunChain(status, throws).detected
  {
    var a := Attempt(0, 0, status, throws);
    AttemptFacts(0, 0, status, throws);
    NothingSeenFrom(1, a.checks, status, throws);
    RanMethodsAppend(a.events, ChainFrom(1, a.checks, status, throws).events);
    assert !status(0) && !status(1);
    CountFrom(0);
    assert seq(Methods - 0, i => 0 + i) == [0, 1, 2, 3];
  }

  /** A status that stays true once true (the download keeps its file). */
  ghost predicate Persistent(status: nat -> bool)
  {
    forall n, m :: n <= m && status(n) ==> status(m)
  }

  lemma {:induction false} NoneRunFrom(k: nat, c: nat, status: nat -> bool, throws: nat -> bool)
    requires Persistent(status) && status(c)
    ensures NoRun(ChainFrom(k, c, status, throws).events)
    decreases Methods - k
  {
    if k < Methods {
      var g := Guarded(k, c, status, throws);
      assert g.events == [Checked(true)];
      assert status(c + 1) by {
        assert c <= c + 1;
      }
      NoneRunFrom(k + 1, c + 1, status, throws);
    }
  }

  /** A yes inside one guarded method keeps every later method from running. */
  lemma YesStopsRest(k: nat, c: nat, status: nat -> bool, throws: nat -> bool)
    requires Persistent(status)
    ensures var g := Guarded(k, c, status, throws);
      Checked(true) in g.events ==> NoRun(ChainFrom(k + 1, g.checks, status, throws).events)
  {
    var g := Guarded(k, c, status, throws);
    if Checked(true) in g.events {
      assert status(g.checks - 1) by {
        GuardedFacts(k, c, status, throws);
      }
      assert status(g.checks) by {
        assert g.checks - 1 <= g.checks;
      }
      NoneRunFrom(k + 1, g.checks, status, throws);
    }
  }

  lemma {:induction false} StopsAfterYesFrom(k: nat, c: nat, status: nat -> bool, throws: nat -> bool)
    requires Persistent(status)
    ensures NoRunAfterYes(ChainFrom(k, c, status, throws).events)
    decreases Methods - k
  {
    if k < Methods {
      var g := Guarded(k, c, status, throws);
      var rest := ChainFrom(k + 1, g.checks, status, throws);
      ChainFromStep(k, c, status, throws);
      assert NoRunAfterYes(g.events) by {
        GuardedFacts(k, c, status, throws);
      }
      StopsAfterYesFrom(k + 1, g.checks, status, throws);
      YesStopsRest(k, c, status, throws);
      NoRunAfterYesAppend(g.events, rest.events);
    }
  }

  /** Once a status that stays true has answered yes, no further method runs. */
  lemma StopsAfterYes(status: nat -> bool, throws: nat -> bool)
    requires Persistent(status)
    ensures NoRunAfterYes(RunChain(status, throws).events)
  {
    var a := Attempt(0, 0, status, throws);
    var rest := ChainFrom(1, a.checks, status, throws);
    AttemptFacts(0, 0, status, throws);
    StopsAfterYesFrom(1, a.checks, status, throws);
    if Checked(true) in a.events {
      assert status(a.checks) by {
        assert a.checks - 1 <= a.checks;
      }
      NoneRunFrom(1, a.checks, status, throws);
    }
    NoRunAfterYesAppend(a.events, rest.events);
  }
}
