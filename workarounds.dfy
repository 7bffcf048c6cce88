/** `test_rate_limited_workarounds` (test_rate_limited_workarounds.py): after resolving the
    SharePoint personal site, four ways of reaching a rate-limited notebook's content are
    tried in a fixed order, and the first that works ends the run. */
module Workarounds {
  import opened Base
  import opened Text
  import opened Graph
  import opened Emil

  function RecentPagesEndpoint(siteId: string): string
  {
    "/sites/" + siteId + "/onenote/pages?$top=20&$orderby=lastModifiedDateTime desc"
  }

  function SearchPagesEndpoint(siteId: string): string
  {
    "/sites/" + siteId + "/onenote/pages?$search=*"
  }

  function LimitedSectionsEndpoint(siteId: string, notebookId: string): string
  {
    SectionsEndpoint(siteId, notebookId) + "?$top=3"
  }

  function LimitedPagesEndpoint(siteId: string, sectionId: string): string
  {
    PagesEndpoint(siteId, sectionId) + "?$top=5"
  }

  function DriveRootEndpoint(siteId: string): string
  {
    "/sites/" + siteId + "/drive/root/children"
  }

  /** Whether one method worked, and the endpoints it requested, in order. */
  datatype Attempt = Attempt(ok: bool, requests: seq<string>)

  predicate Works(a: Attempt)
  {
    a.ok
  }

  function RequestsOf(a: Attempt): seq<string>
  {
    a.requests
  }

  /** The content of the first page of a listing; nothing to try when the listing is empty. */
  function ProbeFirstPage(raw: RawProvider, siteId: string, pages: seq<Obj>): Attempt
  {
    if pages == [] then Attempt(false, [])
    else
      var content := ContentEndpoint(siteId, Show(pages[0].id));
      Attempt(RawSucceeded(raw(content)), [content])
  }

  /** Methods 1 and 2: a page listing, then the first listed page's content. */
  function ListingThenProbe(get: Provider, raw: RawProvider, siteId: string, endpoint: string): Attempt
  {
    var reply := get(endpoint);
    if !Succeeded(reply) then Attempt(false, [endpoint])
    else
      var probe := ProbeFirstPage(raw, siteId, Items(reply.body));
      Attempt(probe.ok, [endpoint] + probe.requests)
  }

  /** `'Emil @ Compose IT Nordic AB' in nb.get('displayName', '')`. */
  predicate IsTargetNamed(notebook: Obj)
  {
    Contains(notebook.displayName.GetOr(""), TargetName)
  }

  /** Method 3 after the target notebook was found: at most three sections, at most five
      pages of the first one, then the first page's content. */
  function LimitedProbe(get: Provider, raw: RawProvider, siteId: string, notebook: Obj): Attempt
  {
    var sectionsEndpoint := LimitedSectionsEndpoint(siteId, Show(notebook.id));
    var sections := get(sectionsEndpoint);
    if !Succeeded(sections) || Items(sections.body) == [] then Attempt(false, [sectionsEndpoint])
    else
      var pagesEndpoint := LimitedPagesEndpoint(siteId, Show(Items(sections.body)[0].id));
      var pages := get(pagesEndpoint);
      if !Succeeded(pages) then Attempt(false, [sectionsEndpoint, pagesEndpoint])
      else
        var probe := ProbeFirstPage(raw, siteId, Items(pages.body));
        Attempt(probe.ok, [sectionsEndpoint, pagesEndpoint] + probe.requests)
  }

  /** Method 3: the first notebook named as the target, then `LimitedProbe`. */
  function Method3(get: Provider, raw: RawProvider, siteId: string): Attempt
  {
    var endpoint := NotebooksEndpoint(siteId);
    var reply := get(endpoint);
    if !Succeeded(reply) then Attempt(false, [endpoint])
    else match FirstWhere(Items(reply.body), IsTargetNamed)
      case None => Attempt(false, [endpoint])
      case Some(notebook) =>
        var probe := LimitedProbe(get, raw, siteId, notebook);
        Attempt(probe.ok, [endpoint] + probe.requests)
  }

  /** The method 4 test on a drive item: `onenote` or `emil` in the lower-cased name, or a
      name ending with `.one` as written. */
  predicate DriveItemMatches(item: Obj)
  {
    var name := item.name.GetOr("");
    Contains(Lower(name), "onenote") || Contains(Lower(name), "emil") || EndsWith(name, ".one")
  }

  /** Method 4: the drive root's children, and whether any of them matches. */
  function Method4(get: Provider, siteId: string): Attempt
  {
    var endpoint := DriveRootEndpoint(siteId);
    var reply := get(endpoint);
    Attempt(Succeeded(reply) && Filter(Items(reply.body), DriveItemMatches) != [], [endpoint])
  }

  /** The four methods, in the order they are tried. */
  function Methods(get: Provider, raw: RawProvider, siteId: string): seq<Attempt>
  {
    [ListingThenProbe(get, raw, siteId, RecentPagesEndpoint(siteId)),
     ListingThenProbe(get, raw, siteId, SearchPagesEndpoint(siteId)),
     Method3(get, raw, siteId),
     Method4(get, siteId)]
  }

  /** Trying methods in order until one works. */
  function Chain(attempts: seq<Attempt>): Run
  {
    if attempts == [] then Run(Returned(false), [])
    else if attempts[0].ok then Run(Returned(true), attempts[0].requests)
    else Then(attempts[0].requests, Chain(attempts[1..]))
  }

  /** `test_rate_limited_workarounds()`, with sign-in reduced to whether it succeeded. */
  function WorkaroundsRun(authenticated: bool, get: Provider, raw: RawProvider): Run
  {
    if !authenticated then Run(Returned(false), [])
    else
      var site := get(EmilSiteEndpoint);
      if !Succeeded(site) then Run(Returned(false), [EmilSiteEndpoint])
      else if site.body.id.None? then Run(Raised, [EmilSiteEndpoint])
      else Then([EmilSiteEndpoint], Chain(Methods(get, raw, site.body.id.value)))
  }

  /** The chain passes exactly when some method works. */
  lemma {:induction false} ChainPasses(attempts: seq<Attempt>)
    ensures Chain(attempts).outcome == Returned(exists i :: 0 <= i < |attempts| && attempts[i].ok)
  {
    if attempts != [] && !attempts[0].ok {
      var rest := attempts[1..];
      ChainPasses(rest);
      if exists i :: 0 <= i < |rest| && rest[i].ok {
        var i :| 0 <= i < |rest| && rest[i].ok;
        assert attempts[i + 1].ok;
      }
      if exists i :: 0 <= i < |attempts| && attempts[i].ok {
        var i :| 0 <= i < |attempts| && attempts[i].ok;
        assert rest[i - 1].ok;
      }
    }
  }

  /** The chain stops at the first method that works: its requests are those of the methods
      up to that one, or of all of them when none works. */
  lemma {:induction false} ChainStops(attempts: seq<Attempt>)
    ensures match FirstIndex(attempts, Works)
      case Some(k) => Chain(attempts).requests == Flatten(Map(RequestsOf, attempts[..k + 1]))
      case None => Chain(attempts).requests == Flatten(Map(RequestsOf, attempts))
  {
    if attempts != [] {
      var rest := attempts[1..];
      if attempts[0].ok {
        assert attempts[..1] == [attempts[0]];
        assert Map(RequestsOf, attempts[..1]) == [attempts[0].requests];
        assert attempts[0].requests + [] == attempts[0].requests;
      } else {
        ChainStops(rest);
        match FirstIndex(rest, Works)
        case Some(k) =>
          assert attempts[..k + 2] == [attempts[0]] + rest[..k + 1];
          assert Map(RequestsOf, attempts[..k + 2]) == [attempts[0].requests] + Map(RequestsOf, rest[..k + 1]);
        case None =>
          assert Map(RequestsOf, attempts) == [attempts[0].requests] + Map(RequestsOf, rest);
      }
    }
  }

  /** A site that cannot be resolved fails the run before any method is tried. Otherwise the
      run passes exactly when one of the four methods works, and a method is tried only when
      every method before it failed. */
  lemma FallbackOrder(authenticated: bool, get: Provider, raw: RawProvider)
    requires authenticated
    ensures !Succeeded(get(EmilSiteEndpoint)) ==> WorkaroundsRun(authenticated, get, raw) == Run(Returned(false), [EmilSiteEndpoint])
    ensures Succeeded(get(EmilSiteEndpoint)) && get(EmilSiteEndpoint).body.id.Some? ==>
      var m := Methods(get, raw, get(EmilSiteEndpoint).body.id.value);
      var r := WorkaroundsRun(authenticated, get, raw);
      r.outcome == Returned(m[0].ok || m[1].ok || m[2].ok || m[3].ok)
      && (m[0].ok ==> r.requests == [EmilSiteEndpoint] + m[0].requests)
      && (!m[0].ok && m[1].ok ==> r.requests == [EmilSiteEndpoint] + m[0].requests + m[1].requests)
      && (!m[0].ok && !m[1].ok && m[2].ok ==> r.requests == [EmilSiteEndpoint] + m[0].requests + m[1].requests + m[2].requests)
      && (!m[0].ok && !m[1].ok && !m[2].ok ==>
            r.requests == [EmilSiteEndpoint] + m[0].requests + m[1].requests + m[2].requests + m[3].requests)
  {
    var site := get(EmilSiteEndpoint);
    if Succeeded(site) && site.body.id.Some? {
      PrefixedChainOfFour([EmilSiteEndpoint], Methods(get, raw, site.body.id.value));
    }
  }

  /** Four methods tried in order: the chain passes when one of them works, and its
      requests are those of the methods up to the first that works. */
  lemma ChainOfFour(m: seq<Attempt>)
    requires |m| == 4
    ensures Chain(m).outcome == Returned(m[0].ok || m[1].ok || m[2].ok || m[3].ok)
    ensures m[0].ok ==> Chain(m).requests == m[0].requests
    ensures !m[0].ok && m[1].ok ==> Chain(m).requests == m[0].requests + m[1].requests
    ensures !m[0].ok && !m[1].ok && m[2].ok ==> Chain(m).requests == m[0].requests + m[1].requests + m[2].requests
    ensures !m[0].ok && !m[1].ok && !m[2].ok ==>
      Chain(m).requests == m[0].requests + m[1].requests + m[2].requests + m[3].requests
  {
    var m1 := m[1..];
    var m2 := m1[1..];
    var m3 := m2[1..];
    assert m1[0] == m[1] && m2[0] == m[2] && m3[0] == m[3] && m3[1..] == [];
    var a, b, c, d := m[0].requests, m[1].requests, m[2].requests, m[3].requests;
    var r3 := Chain(m3);
    assert Chain(m3[1..]) == Run(Returned(false), []);
    assert d + [] == d;
    assert r3 == if m[3].ok then Run(Returned(true), d) else Then(d, Chain(m3[1..]));
    assert r3 == Run(Returned(m[3].ok), d);
    var r2 := Chain(m2);
    assert r2 == if m[2].ok then Run(Returned(true), c) else Then(c, r3);
    var r1 := Chain(m1);
    assert r1 == if m[1].ok then Run(Returned(true), b) else Then(b, r2);
    assert Chain(m) == if m[0].ok then Run(Returned(true), a) else Then(a, r1);
    if !m[0].ok && !m[1].ok {
      ConcatRegroup(a, b, c, d);
    }
  }

  /** The same four methods after the requests `e` that came before them. */
  lemma PrefixedChainOfFour(e: seq<string>, m: seq<Attempt>)
    requires |m| == 4
    ensures var r := Then(e, Chain(m));
      r.outcome == Returned(m[0].ok || m[1].ok || m[2].ok || m[3].ok)
      && (m[0].ok ==> r.requests == e + m[0].requests)
      && (!m[0].ok && m[1].ok ==> r.requests == e + m[0].requests + m[1].requests)
      && (!m[0].ok && !m[1].ok && m[2].ok ==> r.requests == e + m[0].requests + m[1].requests + m[2].requests)
      && (!m[0].ok && !m[1].ok && !m[2].ok ==>
            r.requests == e + m[0].requests + m[1].requests + m[2].requests + m[3].requests)
  {
    ChainOfFour(m);
    var a, b, c, d := m[0].requests, m[1].requests, m[2].requests, m[3].requests;
    ConcatRegroup(e, a + b, c, d);
    ConcatRegroup(e, a, b, []);
    assert e + (a + b + c + d) == e + a + b + c + d;
  }

  /** Methods 1 to 3 work only by fetching a page's content: the last endpoint they request
      is a content endpoint, and its reply has text. */
  lemma ContentNeeded(get: Provider, raw: RawProvider, siteId: string, k: nat)
    requires k < 3 && Methods(get, raw, siteId)[k].ok
    ensures var a := Methods(get, raw, siteId)[k];
      a.requests != []
      && (exists pageId :: a.requests[|a.requests| - 1] == ContentEndpoint(siteId, pageId))
      && RawSucceeded(raw(a.requests[|a.requests| - 1]))
  {
    if k == 2 {
      var reply := get(NotebooksEndpoint(siteId));
      var notebook := FirstWhere(Items(reply.body), IsTargetNamed).value;
      var probe := LimitedProbe(get, raw, siteId, notebook);
      assert probe.ok;
    }
  }

  /** Method 4 works exactly when the drive root lists an item that matches. */
  lemma Method4Spec(get: Provider, siteId: string)
    ensures Method4(get, siteId).ok <==>
      Succeeded(get(DriveRootEndpoint(siteId)))
      && exists item :: item in Items(get(DriveRootEndpoint(siteId)).body) && DriveItemMatches(item)
  {
    var reply := get(DriveRootEndpoint(siteId));
    if Succeeded(reply) && exists item :: item in Items(reply.body) && DriveItemMatches(item) {
      var item :| item in Items(reply.body) && DriveItemMatches(item);
      FilterComplete(Items(reply.body), DriveItemMatches, item);
    }
    if Method4(get, siteId).ok {
      var kept := Filter(Items(reply.body), DriveItemMatches);
      assert kept[0] in kept;
    }
  }

  /** Both scripts pick the same notebooks as the target: the defaults `'Unknown'` and `''`
      of a missing display name never contain the target name. */
  lemma SameTarget(notebook: Obj)
    ensures IsTargetNamed(notebook) <==> IsTarget(notebook)
  {
    if notebook.displayName.None? {
      ContainsAt("", TargetName);
      ContainsAt("Unknown", TargetName);
    }
  }

  /** Method 3's loop over the notebooks: the first one named as the target (`break`). */
  method FindTargetNotebook(notebooks: seq<Obj>) returns (found: Option<Obj>)
    ensures found == FirstWhere(notebooks, IsTargetNamed)
  {
    found := None;
    var i := 0;
    while i < |notebooks|
      invariant 0 <= i <= |notebooks|
      invariant forall j :: 0 <= j < i ==> !IsTargetNamed(notebooks[j])
    {
      if Contains(notebooks[i].displayName.GetOr(""), TargetName) {
        found := Some(notebooks[i]);
        return;
      }
      i := i + 1;
    }
  }

  /** Method 4's loop: the matching items of the drive root, in order. */
  method CollectDriveMatches(items: seq<Obj>) returns (onenoteItems: seq<Obj>)
    ensures onenoteItems == Filter(items, DriveItemMatches)
  {
    onenoteItems := [];
    var i := 0;
    while i < |items|
      invariant 0 <= i <= |items|
      invariant onenoteItems == Filter(items[..i], DriveItemMatches)
    {
      FilterSnoc(items, i, DriveItemMatches);
      var name := items[i].name.GetOr("");
      if Contains(Lower(name), "onenote") || Contains(Lower(name), "emil") || EndsWith(name, ".one") {
        onenoteItems := onenoteItems + [items[i]];
      }
      i := i + 1;
    }
    assert items[..i] == items;
  }

  /** The content request that ends methods 1 to 3. */
  method TryFirstPage(raw: RawProvider, siteId: string, pages: seq<Obj>) returns (ok: bool)
    ensures ok == ProbeFirstPage(raw, siteId, pages).ok
  {
    if pages == [] {
      return false;
    }
    var contentResult := raw(ContentEndpoint(siteId, Show(pages[0].id)));
    return RawSucceeded(contentResult);
  }

  method TryListing(get: Provider, raw: RawProvider, siteId: string, endpoint: string) returns (ok: bool)
    ensures ok == ListingThenProbe(get, raw, siteId, endpoint).ok
  {
    var result := get(endpoint);
    if !Succeeded(result) {
      return false;
    }
    ok := TryFirstPage(raw, siteId, Items(result.body));
  }

  method TryLimitedSections(get: Provider, raw: RawProvider, siteId: string) returns (ok: bool)
    ensures ok == Method3(get, raw, siteId).ok
  {
    var notebooksResult := get(NotebooksEndpoint(siteId));
    if !Succeeded(notebooksResult) {
      return false;
    }
    var emilNotebook := FindTargetNotebook(Items(notebooksResult.body));
    if emilNotebook.None? {
      return false;
    }
    var sectionsResult := get(LimitedSectionsEndpoint(siteId, Show(emilNotebook.value.id)));
    if !Succeeded(sectionsResult) || Items(sectionsResult.body) == [] {
      return false;
    }
    var section := Items(sectionsResult.body)[0];
    var pagesResult := get(LimitedPagesEndpoint(siteId, Show(section.id)));
    if !Succeeded(pagesResult) {
      return false;
    }
    ok := TryFirstPage(raw, siteId, Items(pagesResult.body));
  }

  method TryDriveRoot(get: Provider, siteId: string) returns (ok: bool)
    ensures ok == Method4(get, siteId).ok
  {
    var driveResult := get(DriveRootEndpoint(siteId));
    if !Succeeded(driveResult) {
      return false;
    }
    var onenoteItems := CollectDriveMatches(Items(driveResult.body));
    return onenoteItems != [];
  }

  /** `test_rate_limited_workarounds()`: the same sequence of early returns. */
  method TestRateLimitedWorkarounds(authenticated: bool, get: Provider, raw: RawProvider) returns (outcome: Outcome)
    ensures outcome == WorkaroundsRun(authenticated, get, raw).outcome
  {
    if !authenticated {
      return Returned(false);
    }
    var siteResult := get(EmilSiteEndpoint);
    if !Succeeded(siteResult) {
      return Returned(false);
    }
    if siteResult.body.id.None? {
      return Raised;
    }
    var siteId := siteResult.body.id.value;
    FallbackOrder(authenticated, get, raw);
    var ok := TryListing(get, raw, siteId, RecentPagesEndpoint(siteId));
    if ok {
      return Returned(true);
    }
    ok := TryListing(get, raw, siteId, SearchPagesEndpoint(siteId));
    if ok {
      return Returned(true);
    }
    ok := TryLimitedSections(get, raw, siteId);
    if ok {
      return Returned(true);
    }
    ok := TryDriveRoot(get, siteId);
    return Returned(ok);
  }
}
