/** Notebook references parsed from SharePoint/OneDrive URLs and the first-match lookups
    that try to open them (test_specific_notebooks.py). */
module Specific {
  import opened Base
  import opened Text
  import opened Graph

  /** One URL with its query string as `parse_qs` sees it: the decoded `(name, value)` pairs,
      in order, blank values included (`parse_qs` drops those itself). */
  datatype UrlInput = UrlInput(text: string, query: seq<(string, string)>)

  /** `parse_qs(query).get(key, [])`: the non-blank values of `key`, in order. */
  function Values(query: seq<(string, string)>, key: string): (r: seq<string>)
    ensures forall v :: v in r ==> v != "" && (key, v) in query
    ensures r == Map(Second, Filter(query, (q: (string, string)) => Given(q, key)))
  {
    if query == [] then []
    else
      var rest := Values(query[1..], key);
      var kept := Filter(query[1..], (q: (string, string)) => Given(q, key));
      MapAppend(Second, if Given(query[0], key) then [query[0]] else [], kept);
      (if Given(query[0], key) then [query[0].1] else []) + rest
  }

  /** A query pair that `parse_qs` keeps for `key`: the key matches and the value is not blank. */
  predicate Given(q: (string, string), key: string)
  {
    q.0 == key && q.1 != ""
  }

  function Second(q: (string, string)): string
  {
    q.1
  }

  /** Every non-blank value given for `key` is among the values, and the first value is the
      one the earliest such pair gives: `[0]` reads the first occurrence in the query. */
  lemma {:induction false} ValuesCompleteInOrder(query: seq<(string, string)>, key: string)
    ensures forall j :: 0 <= j < |query| && Given(query[j], key) ==> query[j].1 in Values(query, key)
    ensures Values(query, key) != [] ==>
      exists j :: 0 <= j < |query| && query[j] == (key, Values(query, key)[0])
        && forall i :: 0 <= i < j ==> !Given(query[i], key)
  {
    if query != [] {
      var tail := query[1..];
      ValuesCompleteInOrder(tail, key);
      var r, rest := Values(query, key), Values(tail, key);
      assert r == (if Given(query[0], key) then [query[0].1] else []) + rest;
      forall j | 0 < j < |query| && Given(query[j], key) ensures query[j].1 in r {
        assert query[j] == tail[j - 1];
      }
      if !Given(query[0], key) && rest != [] {
        var j :| 0 <= j < |tail| && tail[j] == (key, rest[0]) && forall i :: 0 <= i < j ==> !Given(tail[i], key);
        assert query[j + 1] == (key, r[0]);
        forall i | 0 <= i < j + 1 ensures !Given(query[i], key) {
          if i > 0 { assert query[i] == tail[i - 1]; }
        }
      }
    }
  }

  /** Removes URL-encoded and literal braces from a sourcedoc value, in the source's order. */
  function StripBraces(raw: string): string
  {
    Remove(Remove(Remove(Remove(raw, "%7B"), "%7D"), "{"), "}")
  }

  /** The sourcedoc id: the first `sourcedoc` value without braces, `None` when absent. */
  function SourcedocId(query: seq<(string, string)>): Option<string>
  {
    var values := Values(query, "sourcedoc");
    if values == [] then None else Some(StripBraces(values[0]))
  }

  /** A sourcedoc id never contains a brace, and is never longer than the raw value. */
  lemma SourcedocHasNoBraces(query: seq<(string, string)>)
    ensures var id := SourcedocId(query);
      id.Some? ==> '{' !in id.value && '}' !in id.value && |id.value| <= |Values(query, "sourcedoc")[0]|
  {
    var values := Values(query, "sourcedoc");
    if values != [] {
      var a := Remove(values[0], "%7B");
      var b := Remove(a, "%7D");
      var c := Remove(b, "{");
      RemoveShrinks(values[0], "%7B");
      RemoveShrinks(a, "%7D");
      RemoveShrinks(b, "{");
      RemoveShrinks(c, "}");
      RemoveCharGone(b, '{');
      RemoveCharGone(c, '}');
    }
  }

  /** The fixed site path given to every personal URL. */
  const PersonalSitePath := "personal/emil_isacson_compose_se"

  /** `personal` if the URL mentions `personal/`, else `site` if it mentions `/sites/`,
      else `unknown`: a personal marker wins over a site marker. */
  function SiteType(url: string): string
  {
    if Contains(url, "personal/") then "personal"
    else if Contains(url, "/sites/") then "site"
    else "unknown"
  }

  /** The characters `[^/_]` matches. */
  predicate IsSegmentChar(c: char)
  {
    c != '/' && c != '_'
  }

  /** The end of the longest run of segment characters starting at `j`: where the greedy
      `[^/_]+` stops. */
  function RunEnd(s: string, j: nat): (r: nat)
    requires j <= |s|
    ensures j <= r <= |s|
    ensures forall k :: j <= k < r ==> IsSegmentChar(s[k])
    ensures r == |s| || !IsSegmentChar(s[r])
    decreases |s| - j
  {
    if j < |s| && IsSegmentChar(s[j]) then RunEnd(s, j + 1) else j
  }

  /** `/sites/([^/_]+)` matches at position `i`. */
  predicate SitesMatchAt(s: string, i: int)
  {
    OccursAt(s, "/sites/", i) && i + 7 < |s| && IsSegmentChar(s[i + 7])
  }

  /** `re.search(r'/sites/([^/_]+)', url).group(1)`: the greedy group at the leftmost
      position where the pattern matches. */
  function SitesGroup(s: string): Option<string>
  {
    var positions := seq(|s|, i requires 0 <= i < |s| => i);
    match FirstIndex(positions, (i: int) => SitesMatchAt(s, i))
    case None => None
    case Some(i) => Some(s[i + 7..RunEnd(s, i + 7)])
  }

  /** The group is non-empty, free of `/` and `_`, follows the leftmost match of the
      pattern, and runs up to the end of the URL or to the next `/` or `_`; without a match
      there is no position where `/sites/` is followed by a segment character. */
  lemma SitesGroupShape(s: string)
    ensures SitesGroup(s).Some? ==>
      var g := SitesGroup(s).value;
      g != [] && (forall c :: c in g ==> IsSegmentChar(c))
      && (exists i :: SitesMatchAt(s, i) && (forall j :: 0 <= j < i ==> !SitesMatchAt(s, j))
           && s[i + 7..i + 7 + |g|] == g && (i + 7 + |g| == |s| || !IsSegmentChar(s[i + 7 + |g|])))
    ensures SitesGroup(s).None? ==> forall i :: !SitesMatchAt(s, i)
  {
    var positions := seq(|s|, i requires 0 <= i < |s| => i);
    var p := (i: int) => SitesMatchAt(s, i);
    match FirstIndex(positions, p)
    case None =>
      forall i | 0 <= i < |s| ensures !SitesMatchAt(s, i) {
        assert positions[i] == i;
      }
    case Some(i) =>
      assert positions[i] == i;
      var e := RunEnd(s, i + 7);
      var g := s[i + 7..e];
      forall c | c in g ensures IsSegmentChar(c) {
        var k :| 0 <= k < |g| && g[k] == c;
        assert s[i + 7 + k] == c;
      }
      forall j | 0 <= j < i ensures !SitesMatchAt(s, j) {
        assert positions[j] == j;
      }
  }

  /** `site_path`: the fixed personal path, `sites/<group>` for a site URL whose pattern
      matches, `unknown` otherwise. */
  function SitePath(url: string): string
  {
    if Contains(url, "personal/") then PersonalSitePath
    else if Contains(url, "/sites/") then
      match SitesGroup(url)
      case Some(g) => "sites/" + g
      case None => "unknown"
    else "unknown"
  }

  /** `file_name`: the unquoted first non-blank `file` value when the URL mentions `file=`,
      `Unknown` otherwise. */
  function FileName(url: UrlInput, unquote: string -> string): string
  {
    if Contains(url.text, "file=") then
      var values := Filter(Values(url.query, "file"), (v: string) => v != "");
      if values != [] then unquote(values[0]) else "Unknown"
    else "Unknown"
  }

  /** One entry of `extract_notebook_info_from_urls`. */
  datatype NotebookRef = NotebookRef(url: string, sourcedocId: Option<string>, siteType: string, sitePath: string, fileName: string)

  function ParseUrl(url: UrlInput, unquote: string -> string): NotebookRef
  {
    NotebookRef(url.text, SourcedocId(url.query), SiteType(url.text), SitePath(url.text), FileName(url, unquote))
  }

  /** `extract_notebook_info_from_urls`: exactly one entry per URL, in input order. */
  method ExtractNotebookInfo(urls: seq<UrlInput>, unquote: string -> string) returns (notebooks: seq<NotebookRef>)
    ensures |notebooks| == |urls|
    ensures forall i :: 0 <= i < |urls| ==> notebooks[i] == ParseUrl(urls[i], unquote)
  {
    notebooks := [];
    var i := 0;
    while i < |urls|
      invariant 0 <= i <= |urls|
      invariant |notebooks| == i
      invariant forall k :: 0 <= k < i ==> notebooks[k] == ParseUrl(urls[k], unquote)
    {
      notebooks := notebooks + [ParseUrl(urls[i], unquote)];
      i := i + 1;
    }
  }

  /** The site type and path agree: a personal URL gets the fixed personal path, a site URL a
      path `sites/<segment>` with a non-empty segment free of `/` and `_` (or `unknown`), and
      any other URL `unknown`. */
  lemma SitePathMatchesType(url: string)
    ensures SiteType(url) == "personal" <==> SitePath(url) == PersonalSitePath
    ensures SiteType(url) == "site" ==>
      SitePath(url) == "unknown"
      || exists g :: g != [] && (forall c :: c in g ==> IsSegmentChar(c)) && SitePath(url) == "sites/" + g
    ensures SiteType(url) == "unknown" ==> SitePath(url) == "unknown"
  {
    SitesGroupShape(url);
    assert PersonalSitePath[0] == 'p' && "unknown"[0] == 'u';
    if SiteType(url) == "site" && SitesGroup(url).Some? {
      var g := SitesGroup(url).value;
      assert SitePath(url) == "sites/" + g;
      assert SitePath(url)[0] == 's';
    }
  }

  /** What one attempt decides: the notebook was opened, it was not, or the attempt raised
      (`None.lower()` on a missing sourcedoc id), which ends the whole run. */
  datatype Verdict = Accessible | Inaccessible | Raised

  /** How a first-match loop over notebooks ends. */
  datatype Scan = Found(notebook: Obj) | NotFound | Crashed

  predicate IdContains(nb: Obj, needle: string)
  {
    Contains(Lower(nb.id.GetOr("")), Lower(needle))
  }

  predicate NameContains(nb: Obj, needle: string)
  {
    Contains(Lower(nb.displayName.GetOr("")), Lower(needle))
  }

  /** The personal loop: with a sourcedoc id, the first notebook whose id contains it,
      ignoring case; without one, the first iteration raises. */
  function PersonalScan(notebooks: seq<Obj>, sourcedoc: Option<string>): (r: Scan)
    ensures sourcedoc.None? ==> r == if notebooks == [] then NotFound else Crashed
    ensures sourcedoc.Some? ==>
      var k := FirstIndex(notebooks, (nb: Obj) => IdContains(nb, sourcedoc.value));
      r == if k.Some? then Found(notebooks[k.value]) else NotFound
  {
    if notebooks == [] then NotFound
    else if sourcedoc.None? then Crashed
    else if IdContains(notebooks[0], sourcedoc.value) then Found(notebooks[0])
    else
      var rest := PersonalScan(notebooks[1..], sourcedoc);
      var k := FirstIndex(notebooks[1..], (nb: Obj) => IdContains(nb, sourcedoc.value));
      assert k.Some? ==> notebooks[1..][k.value] == notebooks[k.value + 1];
      rest
  }

  /** The site notebook loop: with a sourcedoc id, the first notebook whose display name
      contains the file name or whose id contains the sourcedoc id, ignoring case; without
      one, the name is tested first and the id test raises at the first notebook whose name
      does not match. */
  function SiteNotebookScan(notebooks: seq<Obj>, fileName: string, sourcedoc: Option<string>): (r: Scan)
    ensures sourcedoc.None? ==>
      r == if notebooks == [] then NotFound
           else if NameContains(notebooks[0], fileName) then Found(notebooks[0])
           else Crashed
    ensures sourcedoc.Some? ==>
      var k := FirstIndex(notebooks, (nb: Obj) => NameContains(nb, fileName) || IdContains(nb, sourcedoc.value));
      r == if k.Some? then Found(notebooks[k.value]) else NotFound
  {
    if notebooks == [] then NotFound
    else if NameContains(notebooks[0], fileName) then Found(notebooks[0])
    else if sourcedoc.None? then Crashed
    else if IdContains(notebooks[0], sourcedoc.value) then Found(notebooks[0])
    else
      var rest := SiteNotebookScan(notebooks[1..], fileName, sourcedoc);
      var k := FirstIndex(notebooks[1..], (nb: Obj) => NameContains(nb, fileName) || IdContains(nb, sourcedoc.value));
      assert k.Some? ==> notebooks[1..][k.value] == notebooks[k.value + 1];
      rest
  }

  /** `site_path.split('/')[-1]`. */
  function LastSegment(path: string): (r: string)
    ensures '/' !in r
    ensures |r| <= |path|
    ensures r == path || (|r| < |path| && path[|path| - |r| - 1] == '/' && path[|path| - |r|..] == r)
    decreases |path|
  {
    if path == [] then []
    else if path[|path| - 1] == '/' then []
    else LastSegment(path[..|path| - 1]) + [path[|path| - 1]]
  }

  /** A followed site matches when the site name occurs in its displayName or name, ignoring case. */
  predicate SiteMatches(site: Obj, siteName: string)
  {
    Contains(Lower(site.displayName.GetOr("")), Lower(siteName)) || Contains(Lower(site.name.GetOr("")), Lower(siteName))
  }

  function Decide(scan: Scan): Verdict
  {
    match scan
    case Crashed => Raised
    case NotFound => Inaccessible
    case Found(nb) => if Truthy(nb) then Accessible else Inaccessible
  }

  /** `test_notebook_access_by_id` as a decision: the section listing it makes after a match
      is only printed and does not change the answer. */
  function AccessSpec(get: Provider, info: NotebookRef): Verdict
  {
    if info.siteType == "personal" then
      var reply := get("/me/onenote/notebooks");
      if !Succeeded(reply) then Inaccessible
      else Decide(PersonalScan(Items(reply.body), info.sourcedocId))
    else if info.siteType == "site" then
      var siteName := LastSegment(info.sitePath);
      var sites := get("/me/followedSites");
      if !Succeeded(sites) then Inaccessible
      else match FirstWhere(Items(sites.body), (s: Obj) => SiteMatches(s, siteName))
        case None => Inaccessible
        case Some(site) =>
          if !Truthy(site) then Inaccessible
          else
            var notebooks := get("/sites/" + Show(site.id) + "/onenote/notebooks");
            if !Succeeded(notebooks) then Inaccessible
            else Decide(SiteNotebookScan(Items(notebooks.body), info.fileName, info.sourcedocId))
    else Inaccessible
  }

  /** What the access test decides, stated against the listings it reads. Any other site
      type, or a notebook or followed-site listing that fails, gives `Inaccessible`; only a
      missing sourcedoc id can raise. A personal notebook opens exactly when the listing
      succeeded and the first notebook whose id contains the sourcedoc id, ignoring case, is
      truthy; without a sourcedoc id it raises exactly when that listing is not empty. A site
      notebook opens exactly when the first followed site matching the site name
      is truthy, its notebook listing succeeded, and the first notebook whose name contains the
      file name or whose id contains the sourcedoc id is truthy (without a sourcedoc id, only a
      first notebook whose name matches can open, and one whose name does not raises). */
  lemma AccessSpecCharacterised(get: Provider, info: NotebookRef)
    ensures info.siteType != "personal" && info.siteType != "site" ==> AccessSpec(get, info) == Inaccessible
    ensures info.siteType == "personal" && !Succeeded(get("/me/onenote/notebooks")) ==>
      AccessSpec(get, info) == Inaccessible
    ensures info.siteType == "site" && !Succeeded(get("/me/followedSites")) ==>
      AccessSpec(get, info) == Inaccessible
    ensures AccessSpec(get, info) == Raised ==> info.sourcedocId.None?
    ensures info.siteType == "personal" && info.sourcedocId.Some? ==>
      (AccessSpec(get, info) == Accessible <==>
        var reply := get("/me/onenote/notebooks");
        Succeeded(reply)
        && var notebooks := Items(reply.body);
        var k := FirstIndex(notebooks, (nb: Obj) => IdContains(nb, info.sourcedocId.value));
        k.Some? && Truthy(notebooks[k.value]))
    ensures info.siteType == "personal" && info.sourcedocId.None? ==>
      (AccessSpec(get, info) == Raised <==>
        var reply := get("/me/onenote/notebooks");
        Succeeded(reply) && Items(reply.body) != [])
    ensures info.siteType == "personal" && info.sourcedocId.None? ==> AccessSpec(get, info) != Accessible
    ensures info.siteType == "site" ==>
      (AccessSpec(get, info) == Accessible <==>
        var sites := get("/me/followedSites");
        Succeeded(sites)
        && var site := FirstWhere(Items(sites.body), (s: Obj) => SiteMatches(s, LastSegment(info.sitePath)));
        site.Some? && Truthy(site.value)
        && var reply := get("/sites/" + Show(site.value.id) + "/onenote/notebooks");
        Succeeded(reply)
        && var notebooks := Items(reply.body);
        if info.sourcedocId.Some? then
          var k := FirstIndex(notebooks, (nb: Obj) => NameContains(nb, info.fileName) || IdContains(nb, info.sourcedocId.value));
          k.Some? && Truthy(notebooks[k.value])
        else
          notebooks != [] && NameContains(notebooks[0], info.fileName) && Truthy(notebooks[0]))
    ensures info.siteType == "site" && info.sourcedocId.None? ==>
      (AccessSpec(get, info) == Raised <==>
        var sites := get("/me/followedSites");
        Succeeded(sites)
        && var site := FirstWhere(Items(sites.body), (s: Obj) => SiteMatches(s, LastSegment(info.sitePath)));
        site.Some? && Truthy(site.value)
        && var reply := get("/sites/" + Show(site.value.id) + "/onenote/notebooks");
        Succeeded(reply)
        && var notebooks := Items(reply.body);
        notebooks != [] && !NameContains(notebooks[0], info.fileName))
  {
  }

  method FindPersonalNotebook(notebooks: seq<Obj>, sourcedoc: Option<string>) returns (r: Scan)
    ensures r == PersonalScan(notebooks, sourcedoc)
  {
    var i := 0;
    while i < |notebooks|
      invariant 0 <= i <= |notebooks|
      invariant i > 0 ==> sourcedoc.Some?
      invariant PersonalScan(notebooks, sourcedoc) == PersonalScan(notebooks[i..], sourcedoc)
    {
      assert notebooks[i..][1..] == notebooks[i + 1..];
      if sourcedoc.None? {
        return Crashed;
      }
      if IdContains(notebooks[i], sourcedoc.value) {
        return Found(notebooks[i]);
      }
      i := i + 1;
    }
    return NotFound;
  }

  method FindSiteNotebook(notebooks: seq<Obj>, fileName: string, sourcedoc: Option<string>) returns (r: Scan)
    ensures r == SiteNotebookScan(notebooks, fileName, sourcedoc)
  {
    var i := 0;
    while i < |notebooks|
      invariant 0 <= i <= |notebooks|
      invariant SiteNotebookScan(notebooks, fileName, sourcedoc) == SiteNotebookScan(notebooks[i..], fileName, sourcedoc)
    {
      assert notebooks[i..][1..] == notebooks[i + 1..];
      var nb := notebooks[i];
      if NameContains(nb, fileName) {
        return Found(nb);
      }
      if sourcedoc.None? {
        return Crashed;
      }
      if IdContains(nb, sourcedoc.value) {
        return Found(nb);
      }
      i := i + 1;
    }
    return NotFound;
  }

  method FindFollowedSite(sites: seq<Obj>, siteName: string) returns (found: Option<Obj>)
    ensures found == FirstWhere(sites, (s: Obj) => SiteMatches(s, siteName))
  {
    var i := 0;
    while i < |sites|
      invariant 0 <= i <= |sites|
      invariant forall j :: 0 <= j < i ==> !SiteMatches(sites[j], siteName)
    {
      if SiteMatches(sites[i], siteName) {
        FirstWhereIs(sites, (s: Obj) => SiteMatches(s, siteName), i);
        return Some(sites[i]);
      }
      i := i + 1;
    }
    return None;
  }

  /** The element at the first index satisfying `p` is what `FirstWhere` returns. */
  lemma FirstWhereIs<T>(s: seq<T>, p: T -> bool, i: nat)
    requires i < |s| && p(s[i]) && forall j :: 0 <= j < i ==> !p(s[j])
    ensures FirstWhere(s, p) == Some(s[i])
  {
    var k := FirstIndex(s, p);
    assert k.Some?;
    assert !(k.value < i) && !(i < k.value);
  }

  /** `test_notebook_access_by_id`. */
  method TestNotebookAccessById(get: Provider, info: NotebookRef) returns (v: Verdict)
    ensures v == AccessSpec(get, info)
  {
    if info.siteType == "personal" {
      var result := get("/me/onenote/notebooks");
      if !Succeeded(result) {
        return Inaccessible;
      }
      var found := FindPersonalNotebook(Items(result.body), info.sourcedocId);
      return Decide(found);
    } else if info.siteType == "site" {
      var siteName := LastSegment(info.sitePath);
      var sitesResult := get("/me/followedSites");
      if !Succeeded(sitesResult) {
        return Inaccessible;
      }
      var foundSite := FindFollowedSite(Items(sitesResult.body), siteName);
      if foundSite.None? || !Truthy(foundSite.value) {
        return Inaccessible;
      }
      var notebooksResult := get("/sites/" + Show(foundSite.value.id) + "/onenote/notebooks");
      if !Succeeded(notebooksResult) {
        return Inaccessible;
      }
      var found := FindSiteNotebook(Items(notebooksResult.body), info.fileName, info.sourcedocId);
      return Decide(found);
    }
    return Inaccessible;
  }

  /** The end of `main`: the lists of opened and unopened notebooks, or a run that an
      uncaught exception ended. */
  datatype RunOutcome = Completed(successful: seq<NotebookRef>, failed: seq<NotebookRef>) | Aborted

  /** `main`'s two lists after a run whose attempts gave `verdicts`, in order: a raising
      attempt ends the run. */
  function Partition(notebooks: seq<NotebookRef>, verdicts: seq<Verdict>): RunOutcome
    requires |verdicts| == |notebooks|
  {
    if notebooks == [] then Completed([], [])
    else
      var n := notebooks[|notebooks| - 1];
      var v := verdicts[|verdicts| - 1];
      match Partition(notebooks[..|notebooks| - 1], verdicts[..|verdicts| - 1])
      case Aborted => Aborted
      case Completed(successful, failed) =>
        if v == Raised then Aborted
        else if v == Accessible then Completed(successful + [n], failed)
        else Completed(successful, failed + [n])
  }

  /** A run completes exactly when no attempt raised. */
  lemma {:induction false} PartitionCompletes(notebooks: seq<NotebookRef>, verdicts: seq<Verdict>)
    requires |verdicts| == |notebooks|
    ensures Partition(notebooks, verdicts).Completed? <==> forall j :: 0 <= j < |verdicts| ==> verdicts[j] != Raised
  {
    if notebooks != [] {
      var k := |notebooks| - 1;
      PartitionCompletes(notebooks[..k], verdicts[..k]);
      assert forall j :: 0 <= j < k ==> verdicts[..k][j] == verdicts[j];
    }
  }

  /** In a completed run every notebook is in exactly one of the two lists, the successful
      list holding the opened ones and the failed list the others. */
  lemma {:induction false} PartitionSplits(notebooks: seq<NotebookRef>, verdicts: seq<Verdict>)
    requires |verdicts| == |notebooks|
    requires Partition(notebooks, verdicts).Completed?
    ensures var r := Partition(notebooks, verdicts);
      |r.successful| + |r.failed| == |notebooks|
      && multiset(r.successful) + multiset(r.failed) == multiset(notebooks)
      && (forall n :: n in r.successful ==> exists j :: 0 <= j < |notebooks| && notebooks[j] == n && verdicts[j] == Accessible)
      && (forall n :: n in r.failed ==> exists j :: 0 <= j < |notebooks| && notebooks[j] == n && verdicts[j] == Inaccessible)
  {
    if notebooks != [] {
      var k := |notebooks| - 1;
      var init, vinit := notebooks[..k], verdicts[..k];
      PartitionSplits(init, vinit);
      assert notebooks == init + [notebooks[k]];
      var r := Partition(notebooks, verdicts);
      var r0 := Partition(init, vinit);
      forall n | n in r.successful
        ensures exists j :: 0 <= j < |notebooks| && notebooks[j] == n && verdicts[j] == Accessible
      {
        if n in r0.successful {
          var j :| 0 <= j < |init| && init[j] == n && vinit[j] == Accessible;
          assert notebooks[j] == n && verdicts[j] == Accessible;
        } else {
          assert notebooks[k] == n && verdicts[k] == Accessible;
        }
      }
      forall n | n in r.failed
        ensures exists j :: 0 <= j < |notebooks| && notebooks[j] == n && verdicts[j] == Inaccessible
      {
        if n in r0.failed {
          var j :| 0 <= j < |init| && init[j] == n && vinit[j] == Inaccessible;
          assert notebooks[j] == n && verdicts[j] == Inaccessible;
        } else {
          assert notebooks[k] == n && verdicts[k] == Inaccessible;
        }
      }
    }
  }

  /** `main` after authentication: every notebook is tried in order. */
  method RunAll(get: Provider, notebooks: seq<NotebookRef>) returns (r: RunOutcome)
    ensures r == Partition(notebooks, Map((n: NotebookRef) => AccessSpec(get, n), notebooks))
  {
    ghost var verdicts := Map((n: NotebookRef) => AccessSpec(get, n), notebooks);
    var successful: seq<NotebookRef> := [];
    var failed: seq<NotebookRef> := [];
    var i := 0;
    while i < |notebooks|
      invariant 0 <= i <= |notebooks|
      invariant Partition(notebooks[..i], verdicts[..i]) == Completed(successful, failed)
    {
      var v := TestNotebookAccessById(get, notebooks[i]);
      assert v == verdicts[i];
      PartitionStep(notebooks, verdicts, i);
      if v == Raised {
        PartitionAbortsForever(notebooks, verdicts, i + 1);
        return Aborted;
      }
      if v == Accessible {
        successful := successful + [notebooks[i]];
      } else {
        failed := failed + [notebooks[i]];
      }
      i := i + 1;
    }
    assert notebooks[..i] == notebooks;
    assert verdicts[..i] == verdicts;
    return Completed(successful, failed);
  }

  /** One more attempt extends the prefix run by that attempt's verdict. */
  lemma PartitionStep(notebooks: seq<NotebookRef>, verdicts: seq<Verdict>, i: nat)
    requires |verdicts| == |notebooks| && i < |notebooks|
    ensures Partition(notebooks[..i + 1], verdicts[..i + 1]) ==
      match Partition(notebooks[..i], verdicts[..i])
      case Aborted => Aborted
      case Completed(successful, failed) =>
        if verdicts[i] == Raised then Aborted
        else if verdicts[i] == Accessible then Completed(successful + [notebooks[i]], failed)
        else Completed(successful, failed + [notebooks[i]])
  {
    assert notebooks[..i + 1][..i] == notebooks[..i];
    assert verdicts[..i + 1][..i] == verdicts[..i];
  }

  lemma {:induction false} PartitionAbortsForever(notebooks: seq<NotebookRef>, verdicts: seq<Verdict>, i: nat)
    requires |verdicts| == |notebooks| && i <= |notebooks|
    requires Partition(notebooks[..i], verdicts[..i]) == Aborted
    ensures Partition(notebooks, verdicts) == Aborted
    decreases |notebooks| - i
  {
    if i == |notebooks| {
      assert notebooks[..i] == notebooks && verdicts[..i] == verdicts;
    } else {
      PartitionStep(notebooks, verdicts, i);
      PartitionAbortsForever(notebooks, verdicts, i + 1);
    }
  }
}
