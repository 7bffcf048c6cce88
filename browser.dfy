/** Browser discovery of the Citrix downloader: a fixed-priority search over
    candidate executable paths, driven by the command-line options and a
    `pathExists` oracle for `fileExists` (`fs.existsSync`, which a directory
    passes as well as a file; an error counts as absent). */
module Browser {
  import opened Base
  import opened Text

  datatype Kind = Chrome | Firefox

  /** `{ type, path }` as returned by the searches. */
  datatype Found = Found(kind: Kind, path: string)

  /** The options the search reads; an absent option is `None` (JavaScript `null`). */
  datatype Options = Options(
    browser: Option<string>,
    chromePath: Option<string>,
    firefoxPath: Option<string>,
    home: string)

  /** What `findBrowser` does: it returns a value (possibly `null`) or throws. */
  datatype Outcome = Returned(found: Option<Found>) | Threw

  /** JavaScript truthiness of an optional string: `null` and `''` are false. */
  predicate Truthy(o: Option<string>)
  {
    o.Some? && o.value != ""
  }

  /** `browserPath && fileExists(browserPath)`. */
  predicate Usable(pathExists: string -> bool, c: Option<string>)
  {
    Truthy(c) && pathExists(c.value)
  }

  function FirefoxCandidates(opts: Options): (r: seq<Option<string>>)
    ensures |r| == 8 && r[0] == opts.firefoxPath
  {
    [opts.firefoxPath,
     Some("/usr/bin/firefox"),
     Some("/usr/lib/firefox/firefox"),
     Some("/usr/lib64/firefox/firefox"),
     Some("/usr/local/bin/firefox"),
     Some("/Applications/Firefox.app/Contents/MacOS/firefox"),
     Some("/snap/bin/firefox"),
     Some("/run/current-system/sw/bin/firefox")]
  }

  function ChromeCandidates(opts: Options): (r: seq<Option<string>>)
    ensures |r| == 13 && r[0] == opts.chromePath
  {
    [opts.chromePath,
     Some("/usr/bin/google-chrome"),
     Some("/usr/bin/google-chrome-stable"),
     Some("/usr/bin/chromium"),
     Some("/usr/bin/chromium-browser"),
     Some("/usr/bin/brave-browser"),
     Some("/Applications/Google Chrome.app/Contents/MacOS/Google Chrome"),
     Some("/Applications/Brave Browser.app/Contents/MacOS/Brave Browser"),
     Some("/snap/bin/chromium"),
     Some("/run/current-system/sw/bin/google-chrome-stable"),
     Some("/run/current-system/sw/bin/chromium"),
     Some("/run/current-system/sw/bin/brave"),
     Some(opts.home + "/.nix-profile/bin/brave")]
  }

  /** The first usable candidate, or `None` when no candidate is usable. */
  function FirstExisting(pathExists: string -> bool, cands: seq<Option<string>>): Option<string>
  {
    match FirstIndex(cands, c => Usable(pathExists, c))
    case None => None
    case Some(k) => Some(cands[k].value)
  }

  /** The search loop of `findChromePath` and `findFirefoxPath`: it stops at the first
      usable entry. */
  method SearchPaths(pathExists: string -> bool, cands: seq<Option<string>>) returns (r: Option<string>)
    ensures r == FirstExisting(pathExists, cands)
    ensures r.Some? <==> exists i :: 0 <= i < |cands| && Usable(pathExists, cands[i])
    ensures r.Some? ==> exists i :: 0 <= i < |cands| && Usable(pathExists, cands[i]) && cands[i].value == r.value
                          && forall j :: 0 <= j < i ==> !Usable(pathExists, cands[j])
  {
    var i := 0;
    while i < |cands|
      invariant 0 <= i <= |cands|
      invariant forall j :: 0 <= j < i ==> !Usable(pathExists, cands[j])
    {
      if Usable(pathExists, cands[i]) {
        assert FirstIndex(cands, c => Usable(pathExists, c)) == Some(i);
        return Some(cands[i].value);
      }
      i := i + 1;
    }
    return None;
  }

  function FindFirefox(pathExists: string -> bool, opts: Options): Option<Found>
  {
    match FirstExisting(pathExists, FirefoxCandidates(opts))
    case None => None
    case Some(p) => Some(Found(Firefox, p))
  }

  function FindChrome(pathExists: string -> bool, opts: Options): Option<Found>
  {
    match FirstExisting(pathExists, ChromeCandidates(opts))
    case None => None
    case Some(p) => Some(Found(Chrome, p))
  }

  /** `findBrowser`: an explicit `--browser` decides the search (and may yield `null`);
      otherwise an existing explicit path, then detection of Chrome, then of Firefox,
      and failing all of them an error. */
  function FindBrowser(pathExists: string -> bool, opts: Options): Outcome
  {
    if Truthy(opts.browser) then
      if Lower(opts.browser.value) == "firefox" then Returned(FindFirefox(pathExists, opts))
      else Returned(FindChrome(pathExists, opts))
    else if Usable(pathExists, opts.chromePath) then Returned(Some(Found(Chrome, opts.chromePath.value)))
    else if Usable(pathExists, opts.firefoxPath) then Returned(Some(Found(Firefox, opts.firefoxPath.value)))
    else match FindChrome(pathExists, opts)
      case Some(f) => Returned(Some(f))
      case None =>
        match FindFirefox(pathExists, opts)
        case Some(f) => Returned(Some(f))
        case None => Threw
  }

  /** The first usable candidate wins, whatever comes after it. */
  lemma FirstExistingPicksFirst(pathExists: string -> bool, cands: seq<Option<string>>, i: nat)
    requires i < |cands| && Usable(pathExists, cands[i])
    requires forall j :: 0 <= j < i ==> !Usable(pathExists, cands[j])
    ensures FirstExisting(pathExists, cands) == Some(cands[i].value)
  {
  }

  /** The search finds something exactly when some candidate is usable, and what it
      finds is one of the candidates. */
  lemma FirstExistingSpec(pathExists: string -> bool, cands: seq<Option<string>>)
    ensures FirstExisting(pathExists, cands).Some? <==> exists i :: 0 <= i < |cands| && Usable(pathExists, cands[i])
    ensures FirstExisting(pathExists, cands).Some? ==>
              exists i :: 0 <= i < |cands| && Usable(pathExists, cands[i]) && cands[i].value == FirstExisting(pathExists, cands).value
  {
    var k := FirstIndex(cands, c => Usable(pathExists, c));
    if k.Some? {
      assert Usable(pathExists, cands[k.value]);
    }
  }

  /** An explicit `--browser` never throws: `firefox` in any letter case selects the
      Firefox search, any other value the Chrome search. */
  lemma ExplicitBrowser(pathExists: string -> bool, opts: Options)
    requires Truthy(opts.browser)
    ensures FindBrowser(pathExists, opts) != Threw
    ensures Lower(opts.browser.value) == "firefox" ==>
              FindBrowser(pathExists, opts) == Returned(FindFirefox(pathExists, opts))
    ensures Lower(opts.browser.value) != "firefox" ==>
              FindBrowser(pathExists, opts) == Returned(FindChrome(pathExists, opts))
    ensures FindBrowser(pathExists, opts).found.Some? ==>
              FindBrowser(pathExists, opts).found.value.kind == (if Lower(opts.browser.value) == "firefox" then Firefox else Chrome)
  {
    var r := FindBrowser(pathExists, opts);
    if Lower(opts.browser.value) == "firefox" {
      var f := FindFirefox(pathExists, opts);
      assert r == Returned(f);
      assert f.Some? ==> f.value.kind == Firefox;
    } else {
      var c := FindChrome(pathExists, opts);
      assert r == Returned(c);
      assert c.Some? ==> c.value.kind == Chrome;
    }
  }

  /** Without `--browser`: an existing `--firefox-path` is preferred to any detected
      Chrome, unless an existing `--chrome-path` is given too. */
  lemma ExplicitPathsFirst(pathExists: string -> bool, opts: Options)
    requires !Truthy(opts.browser)
    ensures Usable(pathExists, opts.chromePath) ==>
              FindBrowser(pathExists, opts) == Returned(Some(Found(Chrome, opts.chromePath.value)))
    ensures !Usable(pathExists, opts.chromePath) && Usable(pathExists, opts.firefoxPath) ==>
              FindBrowser(pathExists, opts) == Returned(Some(Found(Firefox, opts.firefoxPath.value)))
  {
  }

  /** No candidate of the list is usable. */
  predicate NoneUsable(pathExists: string -> bool, cands: seq<Option<string>>)
  {
    forall i :: 0 <= i < |cands| ==> !Usable(pathExists, cands[i])
  }

  /** Without `--browser`, the run fails exactly when no candidate of either list is usable,
      and, unless an existing `--firefox-path` is given, any usable Chrome candidate wins
      over every Firefox one. */
  lemma DetectionOrder(pathExists: string -> bool, opts: Options)
    requires !Truthy(opts.browser)
    ensures FindBrowser(pathExists, opts) == Threw <==>
              NoneUsable(pathExists, ChromeCandidates(opts)) && NoneUsable(pathExists, FirefoxCandidates(opts))
    ensures !NoneUsable(pathExists, ChromeCandidates(opts)) && !Usable(pathExists, opts.firefoxPath) ==>
              FindBrowser(pathExists, opts).Returned? && FindBrowser(pathExists, opts).found.Some? &&
              FindBrowser(pathExists, opts).found.value.kind == Chrome
  {
    var ch, ff := ChromeCandidates(opts), FirefoxCandidates(opts);
    FirstExistingSpec(pathExists, ch);
    FirstExistingSpec(pathExists, ff);
    assert FindChrome(pathExists, opts).Some? <==> !NoneUsable(pathExists, ch);
    assert FindFirefox(pathExists, opts).Some? <==> !NoneUsable(pathExists, ff);
    assert ch[0] == opts.chromePath && ff[0] == opts.firefoxPath;
  }
}
