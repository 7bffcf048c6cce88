/** `test_rate_limited_export` (test_emil_specific.py): a chain of early returns that checks
    the signed-in account, resolves one SharePoint personal site, picks the target notebook
    and probes its first section, that section's first page and the page's content. A
    sections error that signals the 5,000-item limit counts as a pass. */
module Emil {
  import opened Base
  import opened Text
  import opened Graph

  const MeEndpoint := "/me"
  const EmilSitePath := "/personal/emil_isacson_compose_se"
  const EmilSiteEndpoint := "/sites/composeit-my.sharepoint.com:" + EmilSitePath
  const TargetName := "Emil @ Compose IT Nordic AB"

  function NotebooksEndpoint(siteId: string): string
  {
    "/sites/" + siteId + "/onenote/notebooks"
  }

  function SectionsEndpoint(siteId: string, notebookId: string): string
  {
    "/sites/" + siteId + "/onenote/notebooks/" + notebookId + "/sections"
  }

  function PagesEndpoint(siteId: string, sectionId: string): string
  {
    "/sites/" + siteId + "/onenote/sections/" + sectionId + "/pages"
  }

  function ContentEndpoint(siteId: string, pageId: string): string
  {
    "/sites/" + siteId + "/onenote/pages/" + pageId + "/content"
  }

  /** What the run returns, or an uncaught exception (`site_id[:30]` on a site without an id). */
  datatype Outcome = Returned(passed: bool) | Raised

  /** The outcome together with the endpoints requested, in order. */
  datatype Run = Run(outcome: Outcome, requests: seq<string>)

  function Then(first: seq<string>, rest: Run): Run
  {
    Run(rest.outcome, first + rest.requests)
  }

  /** `'Emil @ Compose IT Nordic AB' in nb.get('displayName', 'Unknown')`. */
  predicate IsTarget(notebook: Obj)
  {
    Contains(notebook.displayName.GetOr("Unknown"), TargetName)
  }

  /** The rate-limit signal: `"10008"` or `"5,000"` in the error text. */
  predicate RateLimitSignal(error: string)
  {
    Contains(error, "10008") || Contains(error, "5,000")
  }

  /** The first section's pages, and the first page's content. */
  function PageStage(get: Provider, raw: RawProvider, siteId: string, section: Obj): Run
  {
    var endpoint := PagesEndpoint(siteId, Show(section.id));
    var reply := get(endpoint);
    if !Succeeded(reply) then Run(Returned(false), [endpoint])
    else
      var pages := Items(reply.body);
      if pages == [] then Run(Returned(true), [endpoint])
      else
        var content := ContentEndpoint(siteId, Show(pages[0].id));
        Run(Returned(RawSucceeded(raw(content))), [endpoint, content])
  }

  /** The target notebook's sections. */
  function SectionStage(get: Provider, raw: RawProvider, siteId: string, notebook: Obj): Run
  {
    var endpoint := SectionsEndpoint(siteId, Show(notebook.id));
    var reply := get(endpoint);
    if !Succeeded(reply) then Run(Returned(RateLimitSignal(ErrorText(reply))), [endpoint])
    else
      var sections := Items(reply.body);
      if sections == [] then Run(Returned(true), [endpoint])
      else Then([endpoint], PageStage(get, raw, siteId, sections[0]))
  }

  /** The site's notebooks and the choice of the target among them. */
  function NotebookStage(get: Provider, raw: RawProvider, siteId: string): Run
  {
    var endpoint := NotebooksEndpoint(siteId);
    var reply := get(endpoint);
    if !Succeeded(reply) then Run(Returned(false), [endpoint])
    else
      var notebooks := Items(reply.body);
      match LastIndex(notebooks, IsTarget)
      case None => Run(Returned(false), [endpoint])
      case Some(k) => Then([endpoint], SectionStage(get, raw, siteId, notebooks[k]))
  }

  /** The SharePoint site lookup. */
  function SiteStage(get: Provider, raw: RawProvider): Run
  {
    var reply := get(EmilSiteEndpoint);
    if !Succeeded(reply) then Run(Returned(false), [EmilSiteEndpoint])
    else if reply.body.id.None? then Run(Raised, [EmilSiteEndpoint])
    else Then([EmilSiteEndpoint], NotebookStage(get, raw, reply.body.id.value))
  }

  /** The account check: `'emil' in user_email.lower()`. */
  predicate IsEmil(me: Obj)
  {
    Contains(Lower(me.userPrincipalName.GetOr("Unknown")), "emil")
  }

  /** `test_rate_limited_export()`, with sign-in reduced to whether it succeeded. */
  function EmilRun(authenticated: bool, get: Provider, raw: RawProvider): Run
  {
    if !authenticated then Run(Returned(false), [])
    else
      var me := get(MeEndpoint);
      if !Succeeded(me) || !IsEmil(me.body) then Run(Returned(false), [MeEndpoint])
      else Then([MeEndpoint], SiteStage(get, raw))
  }

  /** The loop over the site's notebooks: it keeps reassigning `emil_notebook` and never
      breaks, so the last matching notebook is the one chosen. */
  method SelectTarget(notebooks: seq<Obj>) returns (chosen: Option<Obj>)
    ensures chosen.None? <==> forall j :: 0 <= j < |notebooks| ==> !IsTarget(notebooks[j])
    ensures chosen.Some? ==> exists k :: LastIndex(notebooks, IsTarget) == Some(k) && chosen.value == notebooks[k]
  {
    chosen := None;
    ghost var at: nat := 0;
    var i := 0;
    while i < |notebooks|
      invariant 0 <= i <= |notebooks|
      invariant chosen.None? ==> LastIndex(notebooks[..i], IsTarget).None?
      invariant chosen.Some? ==> LastIndex(notebooks[..i], IsTarget) == Some(at) && at < i && chosen.value == notebooks[at]
    {
      assert notebooks[..i + 1][..i] == notebooks[..i];
      var name := notebooks[i].displayName.GetOr("Unknown");
      if Contains(name, TargetName) {
        chosen := Some(notebooks[i]);
        at := i;
      }
      i := i + 1;
    }
    assert notebooks[..i] == notebooks;
  }

  /** `test_rate_limited_export()`: the same chain of early returns. */
  method TestRateLimitedExport(authenticated: bool, get: Provider, raw: RawProvider) returns (outcome: Outcome)
    ensures outcome == EmilRun(authenticated, get, raw).outcome
  {
    if !authenticated {
      return Returned(false);
    }
    var result := get(MeEndpoint);
    if !Succeeded(result) {
      return Returned(false);
    }
    var userEmail := result.body.userPrincipalName.GetOr("Unknown");
    if !Contains(Lower(userEmail), "emil") {
      return Returned(false);
    }
    var siteResult := get(EmilSiteEndpoint);
    if !Succeeded(siteResult) {
      return Returned(false);
    }
    if siteResult.body.id.None? {
      return Raised;
    }
    var siteId := siteResult.body.id.value;
    var notebooksResult := get(NotebooksEndpoint(siteId));
    if !Succeeded(notebooksResult) {
      return Returned(false);
    }
    var emilNotebook := SelectTarget(Items(notebooksResult.body));
    if emilNotebook.None? {
      return Returned(false);
    }
    outcome := ProbeNotebook(get, raw, siteId, emilNotebook.value);
  }

  /** The sections, pages and content probes of the chosen notebook. */
  method ProbeNotebook(get: Provider, raw: RawProvider, siteId: string, notebook: Obj) returns (outcome: Outcome)
    ensures outcome == SectionStage(get, raw, siteId, notebook).outcome
  {
    var sectionsResult := get(SectionsEndpoint(siteId, Show(notebook.id)));
    if !Succeeded(sectionsResult) {
      var error := ErrorText(sectionsResult);
      return Returned(Contains(error, "10008") || Contains(error, "5,000"));
    }
    var sections := Items(sectionsResult.body);
    if sections == [] {
      return Returned(true);
    }
    var pagesResult := get(PagesEndpoint(siteId, Show(sections[0].id)));
    if !Succeeded(pagesResult) {
      return Returned(false);
    }
    var pages := Items(pagesResult.body);
    if pages == [] {
      return Returned(true);
    }
    var contentResult := raw(ContentEndpoint(siteId, Show(pages[0].id)));
    return Returned(RawSucceeded(contentResult));
  }

  /** A pass needs a successful sign-in, an answered `/me` naming an `emil` account, the
      site, and a target notebook in its listing. */
  lemma PassNeedsEmilAndTarget(authenticated: bool, get: Provider, raw: RawProvider)
    requires EmilRun(authenticated, get, raw).outcome == Returned(true)
    ensures authenticated && Succeeded(get(MeEndpoint)) && IsEmil(get(MeEndpoint).body)
    ensures Succeeded(get(EmilSiteEndpoint)) && get(EmilSiteEndpoint).body.id.Some?
    ensures var siteId := get(EmilSiteEndpoint).body.id.value;
      Succeeded(get(NotebooksEndpoint(siteId)))
      && exists j :: 0 <= j < |Items(get(NotebooksEndpoint(siteId)).body)| && IsTarget(Items(get(NotebooksEndpoint(siteId)).body)[j])
  {
    var siteId := get(EmilSiteEndpoint).body.id.value;
    var notebooks := Items(get(NotebooksEndpoint(siteId)).body);
    match LastIndex(notebooks, IsTarget)
    case None =>
    case Some(k) =>
      assert IsTarget(notebooks[k]);
  }

  /** A failed sections request ends the run, which passes exactly when the error text
      mentions `10008` or `5,000`; every error that mentions `5,000` passes. */
  lemma SectionErrorsClassified(get: Provider, raw: RawProvider, siteId: string, notebook: Obj)
    requires !Succeeded(get(SectionsEndpoint(siteId, Show(notebook.id))))
    ensures var e := ErrorText(get(SectionsEndpoint(siteId, Show(notebook.id))));
      SectionStage(get, raw, siteId, notebook) == Run(Returned(RateLimitSignal(e)), [SectionsEndpoint(siteId, Show(notebook.id))])
    ensures forall e :: Contains(e, "5,000") ==> RateLimitSignal(e)
  {
  }

  /** The Graph error code alone is a signal: the text `10008`, which does not mention
      `5,000`, still counts as the rate limit. */
  lemma CodeAloneSignals()
    ensures RateLimitSignal("10008") && !Contains("10008", "5,000")
  {
    assert StartsWith("10008", "10008");
    assert !StartsWith("10008", "5,000");
  }

  /** After the listing, the run requests the sections, the first section's pages only, and
      the content of the first page only: at most three requests, each stage at most once. */
  lemma OnlyFirstSectionAndPage(get: Provider, raw: RawProvider, siteId: string, notebook: Obj)
    ensures var r := SectionStage(get, raw, siteId, notebook);
      var reply := get(SectionsEndpoint(siteId, Show(notebook.id)));
      |r.requests| <= 3
      && (|r.requests| >= 2 ==>
            Succeeded(reply) && Items(reply.body) != []
            && r.requests[1] == PagesEndpoint(siteId, Show(Items(reply.body)[0].id)))
      && (|r.requests| == 3 ==>
            var pages := Items(get(r.requests[1]).body);
            pages != [] && r.requests[2] == ContentEndpoint(siteId, Show(pages[0].id)))
  {
  }

  /** Two providers that agree on every endpoint a run requests give the same run: nothing
      beyond the first section and its first page is ever consulted. */
  predicate Agree(get: Provider, get2: Provider, raw: RawProvider, raw2: RawProvider, requests: seq<string>)
  {
    forall u :: u in requests ==> get(u) == get2(u) && raw(u) == raw2(u)
  }

  lemma AgreeSplit(get: Provider, get2: Provider, raw: RawProvider, raw2: RawProvider, first: seq<string>, rest: seq<string>)
    requires Agree(get, get2, raw, raw2, first + rest)
    ensures Agree(get, get2, raw, raw2, first) && Agree(get, get2, raw, raw2, rest)
  {
    forall u | u in first ensures get(u) == get2(u) && raw(u) == raw2(u) {
      assert u in first + rest;
    }
    forall u | u in rest ensures get(u) == get2(u) && raw(u) == raw2(u) {
      assert u in first + rest;
    }
  }

  lemma PageStageLocal(get: Provider, get2: Provider, raw: RawProvider, raw2: RawProvider, siteId: string, section: Obj)
    requires Agree(get, get2, raw, raw2, PageStage(get, raw, siteId, section).requests)
    ensures PageStage(get2, raw2, siteId, section) == PageStage(get, raw, siteId, section)
  {
    assert PagesEndpoint(siteId, Show(section.id)) in PageStage(get, raw, siteId, section).requests;
  }

  lemma SectionStageLocal(get: Provider, get2: Provider, raw: RawProvider, raw2: RawProvider, siteId: string, notebook: Obj)
    requires Agree(get, get2, raw, raw2, SectionStage(get, raw, siteId, notebook).requests)
    ensures SectionStage(get2, raw2, siteId, notebook) == SectionStage(get, raw, siteId, notebook)
  {
    var endpoint := SectionsEndpoint(siteId, Show(notebook.id));
    var r := SectionStage(get, raw, siteId, notebook);
    assert r.requests[0] == endpoint;
    var reply := get(endpoint);
    if Succeeded(reply) && Items(reply.body) != [] {
      AgreeSplit(get, get2, raw, raw2, [endpoint], PageStage(get, raw, siteId, Items(reply.body)[0]).requests);
      PageStageLocal(get, get2, raw, raw2, siteId, Items(reply.body)[0]);
    }
  }

  lemma NotebookStageLocal(get: Provider, get2: Provider, raw: RawProvider, raw2: RawProvider, siteId: string)
    requires Agree(get, get2, raw, raw2, NotebookStage(get, raw, siteId).requests)
    ensures NotebookStage(get2, raw2, siteId) == NotebookStage(get, raw, siteId)
  {
    var endpoint := NotebooksEndpoint(siteId);
    var r := NotebookStage(get, raw, siteId);
    assert r.requests[0] == endpoint;
    var reply := get(endpoint);
    if Succeeded(reply) {
      var notebooks := Items(reply.body);
      match LastIndex(notebooks, IsTarget)
      case None =>
      case Some(k) =>
        AgreeSplit(get, get2, raw, raw2, [endpoint], SectionStage(get, raw, siteId, notebooks[k]).requests);
        SectionStageLocal(get, get2, raw, raw2, siteId, notebooks[k]);
    }
  }

  lemma EmilRunLocal(authenticated: bool, get: Provider, get2: Provider, raw: RawProvider, raw2: RawProvider)
    requires Agree(get, get2, raw, raw2, EmilRun(authenticated, get, raw).requests)
    ensures EmilRun(authenticated, get2, raw2) == EmilRun(authenticated, get, raw)
  {
    if authenticated {
      var r := EmilRun(authenticated, get, raw);
      assert r.requests[0] == MeEndpoint;
      var me := get(MeEndpoint);
      if Succeeded(me) && IsEmil(me.body) {
        var s := SiteStage(get, raw);
        AgreeSplit(get, get2, raw, raw2, [MeEndpoint], s.requests);
        assert s.requests[0] == EmilSiteEndpoint;
        var site := get(EmilSiteEndpoint);
        if Succeeded(site) && site.body.id.Some? {
          AgreeSplit(get, get2, raw, raw2, [EmilSiteEndpoint], NotebookStage(get, raw, site.body.id.value).requests);
          NotebookStageLocal(get, get2, raw, raw2, site.body.id.value);
        }
      }
    }
  }
}
