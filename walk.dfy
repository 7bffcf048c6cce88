/** The notebook → section → page walk and the content-reading bookkeeping of
    `test_reading_notebook_content` (test_onenote_access_detailed.py). */
module Walk {
  import opened Base
  import opened Text
  import opened Graph

  /** `{'page_data', 'section_name', 'section_id', 'site_id'}` for one page found by the walk. */
  datatype PageInfo = PageInfo(page: Obj, sectionName: string, sectionId: string, siteId: Option<string>)

  /** The root every OneNote endpoint of the walk hangs from: the site's when a site id is
      set, the signed-in user's otherwise. */
  function OneNoteRoot(siteId: Option<string>): string
  {
    if Present(siteId) then "/sites/" + siteId.value + "/onenote/" else "/me/onenote/"
  }

  function SectionsEndpoint(notebookId: string, siteId: Option<string>): string
  {
    OneNoteRoot(siteId) + "notebooks/" + notebookId + "/sections"
  }

  function PagesEndpoint(sectionId: string, siteId: Option<string>): string
  {
    OneNoteRoot(siteId) + "sections/" + sectionId + "/pages"
  }

  /** A page without an id is requested as `.../pages/None/content`. */
  function ContentEndpoint(pageId: Option<string>, siteId: Option<string>): string
  {
    OneNoteRoot(siteId) + "pages/" + Show(pageId) + "/content"
  }

  lemma PrefixStartsWith(root: string, rest: string)
    ensures StartsWith(root + rest, root)
  {
    assert (root + rest)[..|root|] == root;
  }

  /** Every endpoint of the walk goes to the site when a site id is set and to the signed-in
      user's notebooks otherwise. */
  lemma EndpointsFollowSite(notebookId: string, sectionId: string, pageId: Option<string>, siteId: Option<string>)
    ensures Present(siteId) ==>
      var root := "/sites/" + siteId.value + "/onenote/";
      StartsWith(SectionsEndpoint(notebookId, siteId), root)
      && StartsWith(PagesEndpoint(sectionId, siteId), root)
      && StartsWith(ContentEndpoint(pageId, siteId), root)
    ensures !Present(siteId) ==>
      StartsWith(SectionsEndpoint(notebookId, siteId), "/me/onenote/")
      && StartsWith(PagesEndpoint(sectionId, siteId), "/me/onenote/")
      && StartsWith(ContentEndpoint(pageId, siteId), "/me/onenote/")
  {
    var root := OneNoteRoot(siteId);
    assert SectionsEndpoint(notebookId, siteId) == root + ("notebooks/" + notebookId + "/sections");
    assert PagesEndpoint(sectionId, siteId) == root + ("sections/" + sectionId + "/pages");
    assert ContentEndpoint(pageId, siteId) == root + ("pages/" + Show(pageId) + "/content");
    PrefixStartsWith(root, "notebooks/" + notebookId + "/sections");
    PrefixStartsWith(root, "sections/" + sectionId + "/pages");
    PrefixStartsWith(root, "pages/" + Show(pageId) + "/content");
  }

  function SectionName(section: Obj): string
  {
    section.displayName.GetOr("Unnamed Section")
  }

  /** The page records of one section's pages, in listing order. */
  function Tag(pages: seq<Obj>, sectionName: string, sectionId: string, siteId: Option<string>): seq<PageInfo>
  {
    Map((p: Obj) => PageInfo(p, sectionName, sectionId, siteId), pages)
  }

  /** What one section adds: nothing without an id or when its pages cannot be listed. */
  function SectionPages(get: Provider, section: Obj, siteId: Option<string>): seq<PageInfo>
  {
    if !Present(section.id) then []
    else
      var reply := get(PagesEndpoint(section.id.value, siteId));
      if Succeeded(reply) then Tag(Items(reply.body), SectionName(section), section.id.value, siteId) else []
  }

  /** The pages of a run of sections, in section order. */
  function WalkSections(get: Provider, sections: seq<Obj>, siteId: Option<string>): seq<PageInfo>
  {
    Flatten(Map((s: Obj) => SectionPages(get, s, siteId), sections))
  }

  /** `(all_pages, None)` or `([], error)`. */
  datatype Walked = Walked(pages: seq<PageInfo>, error: Option<string>)

  /** `get_all_pages_from_notebook`: a falsy sections reply stops the walk with its error,
      which is `None` when the reply was an empty 200 body. */
  function WalkNotebook(get: Provider, notebookId: string, siteId: Option<string>): Walked
  {
    var reply := get(SectionsEndpoint(notebookId, siteId));
    if Succeeded(reply) then Walked(WalkSections(get, Items(reply.body), siteId), None)
    else Walked([], if reply.Fail? then Some(reply.message) else None)
  }

  lemma WalkSectionsSnoc(get: Provider, sections: seq<Obj>, s: Obj, siteId: Option<string>)
    ensures WalkSections(get, sections + [s], siteId) == WalkSections(get, sections, siteId) + SectionPages(get, s, siteId)
  {
    var f := (t: Obj) => SectionPages(get, t, siteId);
    MapAppend(f, sections, [s]);
    FlattenAppend(Map(f, sections), f(s));
    assert Map(f, [s]) == [f(s)];
  }

  /** The walk over a concatenation of section lists is the concatenation of the walks. */
  lemma WalkSectionsAppend(get: Provider, a: seq<Obj>, b: seq<Obj>, siteId: Option<string>)
    ensures WalkSections(get, a + b, siteId) == WalkSections(get, a, siteId) + WalkSections(get, b, siteId)
  {
    var f := (t: Obj) => SectionPages(get, t, siteId);
    MapAppend(f, a, b);
    FlattenConcat(Map(f, a), Map(f, b));
  }

  /** One section's failure does not stop its siblings: a section without an id, or whose
      page listing fails, contributes no page and leaves the pages of the sections before and
      after it exactly as they would be without it. */
  lemma SectionFailureSkipped(get: Provider, before: seq<Obj>, s: Obj, after: seq<Obj>, siteId: Option<string>)
    requires !Present(s.id) || !Succeeded(get(PagesEndpoint(s.id.value, siteId)))
    ensures WalkSections(get, before + [s] + after, siteId)
         == WalkSections(get, before, siteId) + WalkSections(get, after, siteId)
  {
    WalkSectionsAppend(get, before + [s], after, siteId);
    WalkSectionsSnoc(get, before, s, siteId);
  }

  /** A page record comes from a listed section that has an id and whose pages were listed:
      it carries that section's name and id and the walk's site id. */
  ghost predicate FromSection(get: Provider, info: PageInfo, sections: seq<Obj>, siteId: Option<string>)
  {
    info.siteId == siteId
    && (exists s :: s in sections && Present(s.id) && s.id.value == info.sectionId && SectionName(s) == info.sectionName)
    && Succeeded(get(PagesEndpoint(info.sectionId, siteId)))
    && info.page in Items(get(PagesEndpoint(info.sectionId, siteId)).body)
  }

  lemma WalkProvenance(get: Provider, sections: seq<Obj>, siteId: Option<string>)
    ensures forall info :: info in WalkSections(get, sections, siteId) ==> FromSection(get, info, sections, siteId)
  {
    var f := (t: Obj) => SectionPages(get, t, siteId);
    forall info | info in WalkSections(get, sections, siteId) ensures FromSection(get, info, sections, siteId) {
      FlattenMember(Map(f, sections), info);
      var k :| 0 <= k < |sections| && info in Map(f, sections)[k];
      var s := sections[k];
      assert info in SectionPages(get, s, siteId);
      var items := Items(get(PagesEndpoint(s.id.value, siteId)).body);
      var j :| 0 <= j < |items| && Tag(items, SectionName(s), s.id.value, siteId)[j] == info;
      assert info.page == items[j];
    }
  }

  /** Every page of every section that has an id and whose pages were listed is in the walk. */
  lemma WalkComplete(get: Provider, sections: seq<Obj>, siteId: Option<string>, s: Obj, p: Obj)
    requires s in sections && Present(s.id)
    requires Succeeded(get(PagesEndpoint(s.id.value, siteId)))
    requires p in Items(get(PagesEndpoint(s.id.value, siteId)).body)
    ensures PageInfo(p, SectionName(s), s.id.value, siteId) in WalkSections(get, sections, siteId)
  {
    var f := (t: Obj) => SectionPages(get, t, siteId);
    var items := Items(get(PagesEndpoint(s.id.value, siteId)).body);
    var j :| 0 <= j < |items| && items[j] == p;
    var info := PageInfo(p, SectionName(s), s.id.value, siteId);
    assert Tag(items, SectionName(s), s.id.value, siteId)[j] == info;
    var k :| 0 <= k < |sections| && sections[k] == s;
    assert info in Map(f, sections)[k];
    FlattenMember(Map(f, sections), info);
  }

  /** The inner loop of the walk: one record per page of a section, in listing order. */
  method TagPages(pages: seq<Obj>, sectionName: string, sectionId: string, siteId: Option<string>)
    returns (infos: seq<PageInfo>)
    ensures infos == Tag(pages, sectionName, sectionId, siteId)
  {
    infos := [];
    var j := 0;
    while j < |pages|
      invariant 0 <= j <= |pages|
      invariant |infos| == j
      invariant forall k :: 0 <= k < j ==> infos[k] == PageInfo(pages[k], sectionName, sectionId, siteId)
    {
      infos := infos + [PageInfo(pages[j], sectionName, sectionId, siteId)];
      j := j + 1;
    }
  }

  method AllPagesFromNotebook(get: Provider, notebookId: string, siteId: Option<string>)
    returns (allPages: seq<PageInfo>, error: Option<string>)
    ensures Walked(allPages, error) == WalkNotebook(get, notebookId, siteId)
  {
    allPages := [];
    var result := get(SectionsEndpoint(notebookId, siteId));
    if !Succeeded(result) {
      return [], if result.Fail? then Some(result.message) else None;
    }
    var sections := Items(result.body);
    var i := 0;
    while i < |sections|
      invariant 0 <= i <= |sections|
      invariant allPages == WalkSections(get, sections[..i], siteId)
    {
      var section := sections[i];
      assert sections[..i + 1] == sections[..i] + [section];
      WalkSectionsSnoc(get, sections[..i], section, siteId);
      if Present(section.id) {
        var pagesResult := get(PagesEndpoint(section.id.value, siteId));
        if Succeeded(pagesResult) {
          var infos := TagPages(Items(pagesResult.body), SectionName(section), section.id.value, siteId);
          allPages := allPages + infos;
        }
      }
      i := i + 1;
    }
    assert sections[..i] == sections;
    error := None;
  }

  /** The record `test_page_content` returns: with `content_length` when the content was
      read, with an `error` key (whose value may be `None`) otherwise. */
  datatype PageResult =
    | Readable(notebook: string, section: string, page: string, contentLength: nat, kind: string, site: string)
    | Unreadable(notebook: string, section: string, page: string, error: Option<string>, kind: string, site: string)

  function Kind(siteId: Option<string>): string
  {
    if Present(siteId) then "sharepoint" else "personal"
  }

  /** `test_page_content`, given the `site_name` of the page record (`'Personal'` when unset). */
  function TestPageContent(raw: RawProvider, info: PageInfo, notebookName: string, siteLabel: string): (r: PageResult)
    ensures r.Readable? <==> RawSucceeded(raw(ContentEndpoint(info.page.id, info.siteId)))
    ensures r.Readable? ==> r.contentLength == |raw(ContentEndpoint(info.page.id, info.siteId)).content| > 0
    ensures r.Unreadable? ==> r.error == RawError(raw(ContentEndpoint(info.page.id, info.siteId)))
    ensures r.notebook == notebookName && r.section == info.sectionName && r.site == siteLabel
    ensures r.kind == "sharepoint" <==> Present(info.siteId)
  {
    var reply := raw(ContentEndpoint(info.page.id, info.siteId));
    var title := info.page.title.GetOr("Untitled Page");
    if RawSucceeded(reply) then Readable(notebookName, info.sectionName, title, |reply.content|, Kind(info.siteId), siteLabel)
    else Unreadable(notebookName, info.sectionName, title, RawError(reply), Kind(info.siteId), siteLabel)
  }

  /** `random.sample(population, min(5, n))` as seen by the bookkeeping: `min(5, n)` distinct
      positions of a population of size `n`. Which positions are drawn is left open. */
  ghost predicate IsSample(picks: seq<nat>, n: nat)
  {
    |picks| == Min(5, n)
    && (forall i :: 0 <= i < |picks| ==> picks[i] < n)
    && (forall i, j :: 0 <= i < j < |picks| ==> picks[i] != picks[j])
  }

  /** A source of samples: one draw for every population size. */
  ghost predicate Sampler(pick: nat -> seq<nat>)
  {
    forall n: nat :: IsSample(pick(n), n)
  }

  /** An entry of `content_results['failed']`: a page that could not be read, or a site
      notebook whose listing failed. */
  datatype Failure =
    | PageFailed(result: PageResult)
    | ListingFailed(notebook: string, error: string, site: string)

  predicate IsPageFailure(f: Failure)
  {
    f.PageFailed?
  }

  predicate IsReadable(r: PageResult)
  {
    r.Readable?
  }

  predicate IsUnreadable(r: PageResult)
  {
    r.Unreadable?
  }

  function AsFailure(r: PageResult): Failure
  {
    PageFailed(r)
  }

  lemma PartitionSnoc(results: seq<PageResult>, r: PageResult)
    ensures Filter(results + [r], IsReadable) == Filter(results, IsReadable) + (if r.Readable? then [r] else [])
    ensures Map(AsFailure, Filter(results + [r], IsUnreadable))
         == Map(AsFailure, Filter(results, IsUnreadable)) + (if r.Unreadable? then [PageFailed(r)] else [])
  {
    FilterAppend(results, [r], IsReadable);
    assert Filter([r], IsReadable) == (if r.Readable? then [r] else []) by {
      assert [r][1..] == [];
    }
    var t := Filter([r], IsUnreadable);
    FilterAppend(results, [r], IsUnreadable);
    assert t == (if r.Unreadable? then [r] else []) by {
      assert [r][1..] == [];
    }
    MapAppend(AsFailure, Filter(results, IsUnreadable), t);
    assert Map(AsFailure, t) == (if r.Unreadable? then [PageFailed(r)] else []);
  }

  /** What testing one notebook adds to each list and counter of `content_results`. */
  datatype Effect = Effect(accessible: seq<PageResult>, restricted: seq<string>, failed: seq<Failure>, found: nat, tested: nat)

  const NoEffect := Effect([], [], [], 0, 0)

  /** The results of probing the sampled pages, in sample order. */
  function Probe(raw: RawProvider, pages: seq<PageInfo>, picks: seq<nat>, notebookName: string, siteLabel: string): (r: seq<PageResult>)
    requires forall i :: 0 <= i < |picks| ==> picks[i] < |pages|
    ensures |r| == |picks|
  {
    seq(|picks|, i requires 0 <= i < |picks| => TestPageContent(raw, pages[picks[i]], notebookName, siteLabel))
  }

  lemma ProbeSnoc(raw: RawProvider, pages: seq<PageInfo>, picks: seq<nat>, k: nat, notebookName: string, siteLabel: string)
    requires k < |picks|
    requires forall i :: 0 <= i < |picks| ==> picks[i] < |pages|
    ensures Probe(raw, pages, picks[..k + 1], notebookName, siteLabel)
         == Probe(raw, pages, picks[..k], notebookName, siteLabel) + [TestPageContent(raw, pages[picks[k]], notebookName, siteLabel)]
  {
  }

  /** Probing a sample: readable pages go to `accessible`, the others to `failed`. */
  function SampleEffect(raw: RawProvider, pages: seq<PageInfo>, picks: seq<nat>, notebookName: string, siteLabel: string): Effect
    requires forall i :: 0 <= i < |picks| ==> picks[i] < |pages|
  {
    var results := Probe(raw, pages, picks, notebookName, siteLabel);
    Effect(Filter(results, IsReadable), [], Map(AsFailure, Filter(results, IsUnreadable)), |pages|, |picks|)
  }

  /** A listed notebook: its pages are counted as found and, when there are any, a sample
      of `min(5, n)` of them is probed. */
  function PagesEffect(raw: RawProvider, pages: seq<PageInfo>, pick: nat -> seq<nat>, notebookName: string, siteLabel: string): Effect
    requires Sampler(pick)
  {
    if pages == [] then NoEffect
    else
      assert IsSample(pick(|pages|), |pages|);
      SampleEffect(raw, pages, pick(|pages|), notebookName, siteLabel)
  }

  function NotebookName(notebook: Obj): string
  {
    notebook.displayName.GetOr("Unknown")
  }

  /** The record of a personal notebook whose listing hit the 5,000-item limit. */
  const RateLimitedNote := "Rate limited (>5000 items)"

  /** A personal notebook: needs an id; a listing error is kept only as `restricted` and only
      when it mentions `5,000`; otherwise up to five sampled pages are probed. */
  function PersonalEffect(get: Provider, raw: RawProvider, notebook: Obj, pick: nat -> seq<nat>): Effect
    requires Sampler(pick)
  {
    if !Present(notebook.id) then NoEffect
    else
      var w := WalkNotebook(get, notebook.id.value, None);
      if Present(w.error) then
        if Contains(w.error.value, "5,000") then Effect([], [NotebookName(notebook)], [], 0, 0) else NoEffect
      else PagesEffect(raw, w.pages, pick, NotebookName(notebook), "Personal")
  }

  /** `{'notebook', 'site', 'site_id'}` of a SharePoint notebook found earlier. */
  datatype SiteNotebook = SiteNotebook(notebook: Obj, site: string, siteId: Option<string>)

  /** A site notebook: needs an id and a site id; a listing error always goes to `failed`. */
  function SiteEffect(get: Provider, raw: RawProvider, entry: SiteNotebook, pick: nat -> seq<nat>): Effect
    requires Sampler(pick)
  {
    if !(Present(entry.notebook.id) && Present(entry.siteId)) then NoEffect
    else
      var w := WalkNotebook(get, entry.notebook.id.value, entry.siteId);
      if Present(w.error) then Effect([], [], [ListingFailed(NotebookName(entry.notebook), w.error.value, entry.site)], 0, 0)
      else PagesEffect(raw, w.pages, pick, NotebookName(entry.notebook), entry.site)
  }

  /** The loop over the sampled pages of one notebook: each probed page, in sample order,
      goes to the readable list or, wrapped as a failure, to the unreadable list. */
  method ProbeSample(raw: RawProvider, pages: seq<PageInfo>, picks: seq<nat>, notebookName: string, siteLabel: string)
    returns (readable: seq<PageResult>, unreadable: seq<Failure>)
    requires forall i :: 0 <= i < |picks| ==> picks[i] < |pages|
    ensures var e := SampleEffect(raw, pages, picks, notebookName, siteLabel);
      readable == e.accessible && unreadable == e.failed
  {
    readable, unreadable := [], [];
    var k := 0;
    while k < |picks|
      invariant 0 <= k <= |picks|
      invariant readable == Filter(Probe(raw, pages, picks[..k], notebookName, siteLabel), IsReadable)
      invariant unreadable == Map(AsFailure, Filter(Probe(raw, pages, picks[..k], notebookName, siteLabel), IsUnreadable))
    {
      var result := TestPageContent(raw, pages[picks[k]], notebookName, siteLabel);
      ghost var probed := Probe(raw, pages, picks[..k], notebookName, siteLabel);
      ghost var next := Probe(raw, pages, picks[..k + 1], notebookName, siteLabel);
      assert Filter(next, IsReadable) == Filter(probed, IsReadable) + (if result.Readable? then [result] else [])
        && Map(AsFailure, Filter(next, IsUnreadable))
           == Map(AsFailure, Filter(probed, IsUnreadable)) + (if result.Unreadable? then [PageFailed(result)] else []) by {
        ProbeSnoc(raw, pages, picks, k, notebookName, siteLabel);
        PartitionSnoc(probed, result);
      }
      if result.Unreadable? {
        unreadable := unreadable + [PageFailed(result)];
      } else {
        readable := readable + [result];
      }
      k := k + 1;
    }
    assert picks[..k] == picks;
  }

  /** The bookkeeping identities one notebook keeps: no more pages tested than found, at most
      five, at least one whenever any was found, and every tested page lands in exactly one of
      `accessible` and `failed`. */
  ghost predicate Balanced(e: Effect)
  {
    e.tested <= e.found && e.tested <= 5 && (e.found > 0 ==> e.tested > 0)
    && |e.accessible| + Count(e.failed, IsPageFailure) == e.tested
  }

  lemma SampleEffectPartition(raw: RawProvider, pages: seq<PageInfo>, picks: seq<nat>, notebookName: string, siteLabel: string)
    requires pages != [] && IsSample(picks, |pages|)
    ensures var e := SampleEffect(raw, pages, picks, notebookName, siteLabel);
      Balanced(e)
      && (forall r :: r in e.accessible ==> r.Readable?)
      && (forall f :: f in e.failed ==> f.PageFailed? && f.result.Unreadable?)
  {
    var results := Probe(raw, pages, picks, notebookName, siteLabel);
    var e := SampleEffect(raw, pages, picks, notebookName, siteLabel);
    CountSplit(results, IsReadable, IsUnreadable);
    FilterLength(results, IsReadable);
    FilterLength(results, IsUnreadable);
    var failures := Filter(results, IsUnreadable);
    forall f | f in e.failed ensures f.PageFailed? && f.result.Unreadable? {
      var k :| 0 <= k < |failures| && e.failed[k] == f;
      assert failures[k] in failures;
    }
    AllPageFailures(e.failed);
  }

  lemma PagesEffectBalanced(raw: RawProvider, pages: seq<PageInfo>, pick: nat -> seq<nat>, notebookName: string, siteLabel: string)
    requires Sampler(pick)
    ensures var e := PagesEffect(raw, pages, pick, notebookName, siteLabel);
      Balanced(e) && e.restricted == [] && e.found == |pages|
      && (forall r :: r in e.accessible ==> r.Readable?)
      && (forall f :: f in e.failed ==> f.PageFailed? && f.result.Unreadable?)
  {
    if pages != [] {
      assert IsSample(pick(|pages|), |pages|);
      SampleEffectPartition(raw, pages, pick(|pages|), notebookName, siteLabel);
    }
  }

  lemma {:induction false} AllPageFailures(failed: seq<Failure>)
    requires forall f :: f in failed ==> f.PageFailed?
    ensures Count(failed, IsPageFailure) == |failed|
  {
    if failed != [] {
      assert failed[0] in failed;
      AllPageFailures(failed[1..]);
    }
  }

  /** A personal notebook keeps the bookkeeping balanced, never records a listing failure,
      and is recorded as restricted exactly when its listing error mentions `5,000`. */
  lemma PersonalEffectBalanced(get: Provider, raw: RawProvider, notebook: Obj, pick: nat -> seq<nat>)
    requires Sampler(pick)
    ensures var e := PersonalEffect(get, raw, notebook, pick);
      Balanced(e)
      && (forall f :: f in e.failed ==> f.PageFailed?)
      && (e.restricted != [] <==>
            Present(notebook.id) && var w := WalkNotebook(get, notebook.id.value, None);
            Present(w.error) && Contains(w.error.value, "5,000"))
  {
    if Present(notebook.id) {
      var w := WalkNotebook(get, notebook.id.value, None);
      if !Present(w.error) {
        PagesEffectBalanced(raw, w.pages, pick, NotebookName(notebook), "Personal");
      }
    }
  }

  /** A site notebook keeps the bookkeeping balanced, is never recorded as restricted, and
      records a listing failure exactly when its listing returned an error. */
  lemma SiteEffectBalanced(get: Provider, raw: RawProvider, entry: SiteNotebook, pick: nat -> seq<nat>)
    requires Sampler(pick)
    ensures var e := SiteEffect(get, raw, entry, pick);
      Balanced(e) && e.restricted == []
      && ((exists f :: f in e.failed && f.ListingFailed?) <==>
            Present(entry.notebook.id) && Present(entry.siteId)
            && Present(WalkNotebook(get, entry.notebook.id.value, entry.siteId).error))
  {
    var e := SiteEffect(get, raw, entry, pick);
    if Present(entry.notebook.id) && Present(entry.siteId) {
      var w := WalkNotebook(get, entry.notebook.id.value, entry.siteId);
      if Present(w.error) {
        assert e.failed[0] in e.failed;
      } else {
        PagesEffectBalanced(raw, w.pages, pick, NotebookName(entry.notebook), entry.site);
      }
    }
  }

  /** Two effects one after the other: the lists joined in order, the counts added. */
  function Plus(a: Effect, b: Effect): Effect
  {
    Effect(a.accessible + b.accessible, a.restricted + b.restricted, a.failed + b.failed, a.found + b.found, a.tested + b.tested)
  }

  /** A fresh draw for every notebook and every population size. */
  ghost predicate Samplers(pick: (nat, nat) -> seq<nat>)
  {
    forall k: nat, n: nat :: IsSample(pick(k, n), n)
  }

  /** The draws made for the `k`-th notebook tested: a source of samples itself. */
  function Draw(pick: (nat, nat) -> seq<nat>, k: nat): (r: nat -> seq<nat>)
    requires Samplers(pick)
    ensures Sampler(r)
  {
    (n: nat) => pick(k, n)
  }

  /** Effects one after the other, in order. */
  function Sum(es: seq<Effect>): Effect
  {
    if es == [] then NoEffect else Plus(Sum(es[..|es| - 1]), es[|es| - 1])
  }

  lemma SumSnoc(es: seq<Effect>, i: nat)
    requires i < |es|
    ensures Sum(es[..i + 1]) == Plus(Sum(es[..i]), es[i])
  {
    assert es[..i + 1][..i] == es[..i];
  }

  /** What each personal notebook adds, in loop order; the first is the `k0`-th tested. */
  function PersonalEffects(get: Provider, raw: RawProvider, personal: seq<Obj>, pick: (nat, nat) -> seq<nat>, k0: nat): (r: seq<Effect>)
    requires Samplers(pick)
    ensures |r| == |personal|
  {
    seq(|personal|, i requires 0 <= i < |personal| => PersonalEffect(get, raw, personal[i], Draw(pick, k0 + i)))
  }

  /** What each site notebook adds, in loop order; the first is the `k0`-th tested. */
  function SiteEffects(get: Provider, raw: RawProvider, sites: seq<SiteNotebook>, pick: (nat, nat) -> seq<nat>, k0: nat): (r: seq<Effect>)
    requires Samplers(pick)
    ensures |r| == |sites|
  {
    seq(|sites|, j requires 0 <= j < |sites| => SiteEffect(get, raw, sites[j], Draw(pick, k0 + j)))
  }

  lemma PersonalEffectAt(get: Provider, raw: RawProvider, personal: seq<Obj>, pick: (nat, nat) -> seq<nat>, k0: nat, i: nat, k: nat)
    requires Samplers(pick) && i < |personal| && k == k0 + i
    ensures PersonalEffects(get, raw, personal, pick, k0)[i] == PersonalEffect(get, raw, personal[i], Draw(pick, k))
  {
  }

  lemma SiteEffectAt(get: Provider, raw: RawProvider, sites: seq<SiteNotebook>, pick: (nat, nat) -> seq<nat>, k0: nat, j: nat, k: nat)
    requires Samplers(pick) && j < |sites| && k == k0 + j
    ensures SiteEffects(get, raw, sites, pick, k0)[j] == SiteEffect(get, raw, sites[j], Draw(pick, k))
  {
  }

  /** Both loops: every personal notebook, then every site notebook. */
  function Effects(get: Provider, raw: RawProvider, personal: seq<Obj>, sites: seq<SiteNotebook>, pick: (nat, nat) -> seq<nat>, k0: nat): Effect
    requires Samplers(pick)
  {
    Plus(Sum(PersonalEffects(get, raw, personal, pick, k0)), Sum(SiteEffects(get, raw, sites, pick, k0 + |personal|)))
  }

  /** The bookkeeping identities add up over any run of notebooks: no more pages tested than
      found, at most five per notebook, some tested whenever some were found, and every tested
      page either accessible or a page failure. */
  lemma {:induction false} SumBalanced(es: seq<Effect>)
    requires forall i :: 0 <= i < |es| ==> Balanced(es[i])
    ensures var e := Sum(es);
      e.tested <= e.found && e.tested <= 5 * |es| && (e.found > 0 ==> e.tested > 0)
      && |e.accessible| + Count(e.failed, IsPageFailure) == e.tested
  {
    if es != [] {
      var n := |es| - 1;
      SumBalanced(es[..n]);
      var e, d := Sum(es[..n]), es[n];
      assert Balanced(d);
      CountAppend(e.failed, d.failed, IsPageFailure);
    }
  }

  /** Over both loops, every tested page is accessible or a page failure, at most five pages
      are tested per notebook, and only personal notebooks are ever recorded as restricted. */
  lemma EffectsBalanced(get: Provider, raw: RawProvider, personal: seq<Obj>, sites: seq<SiteNotebook>, pick: (nat, nat) -> seq<nat>, k0: nat)
    requires Samplers(pick)
    ensures var e := Effects(get, raw, personal, sites, pick, k0);
      e.tested <= e.found && e.tested <= 5 * (|personal| + |sites|) && (e.found > 0 ==> e.tested > 0)
      && |e.accessible| + Count(e.failed, IsPageFailure) == e.tested
      && e.restricted == Sum(PersonalEffects(get, raw, personal, pick, k0)).restricted
  {
    var ps := PersonalEffects(get, raw, personal, pick, k0);
    var ss := SiteEffects(get, raw, sites, pick, k0 + |personal|);
    var p, q := Sum(ps), Sum(ss);
    assert p.tested <= p.found && p.tested <= 5 * |personal| && (p.found > 0 ==> p.tested > 0)
      && |p.accessible| + Count(p.failed, IsPageFailure) == p.tested by {
      PersonalEffectsBalanced(get, raw, personal, pick, k0);
      SumBalanced(ps);
    }
    assert q.tested <= q.found && q.tested <= 5 * |sites| && (q.found > 0 ==> q.tested > 0)
      && |q.accessible| + Count(q.failed, IsPageFailure) == q.tested && q.restricted == [] by {
      SiteEffectsBalanced(get, raw, sites, pick, k0 + |personal|);
      SumBalanced(ss);
      SumRestrictedEmpty(ss);
    }
    CountAppend(p.failed, q.failed, IsPageFailure);
  }

  lemma PersonalEffectsBalanced(get: Provider, raw: RawProvider, personal: seq<Obj>, pick: (nat, nat) -> seq<nat>, k0: nat)
    requires Samplers(pick)
    ensures var ps := PersonalEffects(get, raw, personal, pick, k0);
      forall i :: 0 <= i < |ps| ==> Balanced(ps[i])
  {
    var ps := PersonalEffects(get, raw, personal, pick, k0);
    forall i | 0 <= i < |ps| ensures Balanced(ps[i]) {
      var e := PersonalEffect(get, raw, personal[i], Draw(pick, k0 + i));
      assert Balanced(e) by {
        PersonalEffectBalanced(get, raw, personal[i], Draw(pick, k0 + i));
      }
      assert ps[i] == e by {
        PersonalEffectAt(get, raw, personal, pick, k0, i, k0 + i);
      }
    }
  }

  lemma SiteEffectsBalanced(get: Provider, raw: RawProvider, sites: seq<SiteNotebook>, pick: (nat, nat) -> seq<nat>, k0: nat)
    requires Samplers(pick)
    ensures var ss := SiteEffects(get, raw, sites, pick, k0);
      forall j :: 0 <= j < |ss| ==> Balanced(ss[j]) && ss[j].restricted == []
  {
    var ss := SiteEffects(get, raw, sites, pick, k0);
    forall j | 0 <= j < |ss| ensures Balanced(ss[j]) && ss[j].restricted == [] {
      var e := SiteEffect(get, raw, sites[j], Draw(pick, k0 + j));
      assert Balanced(e) && e.restricted == [] by {
        SiteEffectBalanced(get, raw, sites[j], Draw(pick, k0 + j));
      }
      assert ss[j] == e by {
        SiteEffectAt(get, raw, sites, pick, k0, j, k0 + j);
      }
    }
  }

  lemma {:induction false} SumRestrictedEmpty(es: seq<Effect>)
    requires forall i :: 0 <= i < |es| ==> es[i].restricted == []
    ensures Sum(es).restricted == []
  {
    if es != [] {
      SumRestrictedEmpty(es[..|es| - 1]);
    }
  }

  /** `content_results`: the lists and counters `test_reading_notebook_content` fills in. */
  class ContentTally {
    var accessible: seq<PageResult>
    var restricted: seq<string>
    var failed: seq<Failure>
    var notebooksTested: nat
    var totalPagesFound: nat
    var totalPagesTested: nat

    /** The bookkeeping identities, summed over all notebooks tested so far. */
    ghost predicate Valid()
      reads this
    {
      totalPagesTested <= totalPagesFound && totalPagesTested <= 5 * notebooksTested
      && (totalPagesFound > 0 ==> totalPagesTested > 0)
      && |accessible| + Count(failed, IsPageFailure) == totalPagesTested
    }

    constructor()
      ensures Valid()
      ensures accessible == [] && restricted == [] && failed == []
      ensures notebooksTested == 0 && totalPagesFound == 0 && totalPagesTested == 0
    {
      accessible := [];
      restricted := [];
      failed := [];
      notebooksTested := 0;
      totalPagesFound := 0;
      totalPagesTested := 0;
    }

    /** Adds one notebook's effect: the lists grow by its records, the counters by its counts. */
    ghost predicate Added(e: Effect, a: seq<PageResult>, r: seq<string>, f: seq<Failure>, n: nat, found: nat, tested: nat)
      reads this
    {
      accessible == a + e.accessible && restricted == r + e.restricted && failed == f + e.failed
      && notebooksTested == n + 1 && totalPagesFound == found + e.found && totalPagesTested == tested + e.tested
    }

    /** The pages a notebook listing returned: all counted as found, a sample probed. */
    method RecordPages(raw: RawProvider, allPages: seq<PageInfo>, pick: nat -> seq<nat>, notebookName: string, siteLabel: string)
      requires Sampler(pick)
      modifies this
      ensures var e := PagesEffect(raw, allPages, pick, notebookName, siteLabel);
        accessible == old(accessible) + e.accessible && failed == old(failed) + e.failed
        && totalPagesFound == old(totalPagesFound) + e.found && totalPagesTested == old(totalPagesTested) + e.tested
      ensures restricted == old(restricted) && notebooksTested == old(notebooksTested)
    {
      totalPagesFound := totalPagesFound + |allPages|;
      if allPages != [] {
        var sampled := pick(|allPages|);
        assert IsSample(sampled, |allPages|);
        totalPagesTested := totalPagesTested + |sampled|;
        var readable, unreadable := ProbeSample(raw, allPages, sampled, notebookName, siteLabel);
        accessible := accessible + readable;
        failed := failed + unreadable;
      }
    }

    /** One iteration of the personal-notebook loop. */
    method TestPersonalNotebook(get: Provider, raw: RawProvider, notebook: Obj, pick: nat -> seq<nat>)
      requires Valid() && Sampler(pick)
      modifies this
      ensures Added(PersonalEffect(get, raw, notebook, pick), old(accessible), old(restricted), old(failed),
                    old(notebooksTested), old(totalPagesFound), old(totalPagesTested))
      ensures Valid()
    {
      ghost var e := PersonalEffect(get, raw, notebook, pick);
      PersonalEffectBalanced(get, raw, notebook, pick);
      notebooksTested := notebooksTested + 1;
      if Present(notebook.id) {
        var allPages, error := AllPagesFromNotebook(get, notebook.id.value, None);
        if Present(error) {
          if Contains(error.value, "5,000") {
            restricted := restricted + [NotebookName(notebook)];
          }
        } else {
          RecordPages(raw, allPages, pick, NotebookName(notebook), "Personal");
        }
      }
      CountAppend(old(failed), e.failed, IsPageFailure);
    }

    /** One iteration of the SharePoint-notebook loop. */
    method TestSiteNotebook(get: Provider, raw: RawProvider, entry: SiteNotebook, pick: nat -> seq<nat>)
      requires Valid() && Sampler(pick)
      modifies this
      ensures Added(SiteEffect(get, raw, entry, pick), old(accessible), old(restricted), old(failed),
                    old(notebooksTested), old(totalPagesFound), old(totalPagesTested))
      ensures Valid()
    {
      ghost var e := SiteEffect(get, raw, entry, pick);
      SiteEffectBalanced(get, raw, entry, pick);
      notebooksTested := notebooksTested + 1;
      if Present(entry.notebook.id) && Present(entry.siteId) {
        var allPages, error := AllPagesFromNotebook(get, entry.notebook.id.value, entry.siteId);
        if Present(error) {
          failed := failed + [ListingFailed(NotebookName(entry.notebook), error.value, entry.site)];
        } else {
          RecordPages(raw, allPages, pick, NotebookName(entry.notebook), entry.site);
        }
      }
      CountAppend(old(failed), e.failed, IsPageFailure);
    }

    /** The lists and counters hold `a`, `r`, `f`, `found` and `tested` followed by `e`. */
    ghost predicate Tallied(e: Effect, a: seq<PageResult>, r: seq<string>, f: seq<Failure>, found: nat, tested: nat)
      reads this
    {
      accessible == a + e.accessible && restricted == r + e.restricted && failed == f + e.failed
      && totalPagesFound == found + e.found && totalPagesTested == tested + e.tested
    }

    /** The two loops of `test_reading_notebook_content`: every personal notebook, then every
        site notebook; `pick(k, n)` is the draw made for the `k`-th notebook tested. Each list
        grows by the records of every notebook in loop order, and each counter by their
        counts. */
    method TestAll(get: Provider, raw: RawProvider, personal: seq<Obj>, sites: seq<SiteNotebook>, pick: (nat, nat) -> seq<nat>)
      requires Valid()
      requires Samplers(pick)
      modifies this
      ensures Valid()
      ensures notebooksTested == old(notebooksTested) + |personal| + |sites|
      ensures var e := Effects(get, raw, personal, sites, pick, old(notebooksTested));
        accessible == old(accessible) + e.accessible && restricted == old(restricted) + e.restricted
        && failed == old(failed) + e.failed
        && totalPagesFound == old(totalPagesFound) + e.found && totalPagesTested == old(totalPagesTested) + e.tested
    {
      ghost var k0 := notebooksTested;
      ghost var a0, r0, f0, found0, tested0 := accessible, restricted, failed, totalPagesFound, totalPagesTested;
      ghost var ps := PersonalEffects(get, raw, personal, pick, k0);
      TestPersonalNotebooks(get, raw, personal, pick);
      ghost var a1, r1, f1, found1, tested1 := accessible, restricted, failed, totalPagesFound, totalPagesTested;
      ghost var ss := SiteEffects(get, raw, sites, pick, k0 + |personal|);
      TestSiteNotebooks(get, raw, sites, pick);
      assert Tallied(Sum(ss), a1, r1, f1, found1, tested1);
      TalliedPlus(Sum(ps), Sum(ss), a0, r0, f0, found0, tested0);
    }

    /** The personal-notebook loop: each notebook adds its effect, in order. */
    method TestPersonalNotebooks(get: Provider, raw: RawProvider, personal: seq<Obj>, pick: (nat, nat) -> seq<nat>)
      requires Valid()
      requires Samplers(pick)
      modifies this
      ensures Valid()
      ensures notebooksTested == old(notebooksTested) + |personal|
      ensures Tallied(Sum(PersonalEffects(get, raw, personal, pick, old(notebooksTested))),
                      old(accessible), old(restricted), old(failed), old(totalPagesFound), old(totalPagesTested))
    {
      ghost var k0 := notebooksTested;
      ghost var a0, r0, f0, found0, tested0 := accessible, restricted, failed, totalPagesFound, totalPagesTested;
      ghost var ps := PersonalEffects(get, raw, personal, pick, k0);
      var i := 0;
      while i < |personal|
        invariant 0 <= i <= |personal|
        invariant Valid()
        invariant notebooksTested == k0 + i
        invariant Tallied(Sum(ps[..i]), a0, r0, f0, found0, tested0)
      {
        var k := notebooksTested;
        ghost var sofar, e := Sum(ps[..i]), ps[i];
        assert e == PersonalEffect(get, raw, personal[i], Draw(pick, k)) by {
          PersonalEffectAt(get, raw, personal, pick, k0, i, k);
        }
        ghost var pa, pr, pf, pfound, ptested := accessible, restricted, failed, totalPagesFound, totalPagesTested;
        TestPersonalNotebook(get, raw, personal[i], Draw(pick, k));
        assert Tallied(Sum(ps[..i + 1]), a0, r0, f0, found0, tested0) by {
          assert Tallied(e, pa, pr, pf, pfound, ptested);
          SumSnoc(ps, i);
          TalliedPlus(sofar, e, a0, r0, f0, found0, tested0);
        }
        i := i + 1;
      }
      assert ps[..i] == ps;
    }

    /** The site-notebook loop: each notebook adds its effect, in order. */
    method TestSiteNotebooks(get: Provider, raw: RawProvider, sites: seq<SiteNotebook>, pick: (nat, nat) -> seq<nat>)
      requires Valid()
      requires Samplers(pick)
      modifies this
      ensures Valid()
      ensures notebooksTested == old(notebooksTested) + |sites|
      ensures Tallied(Sum(SiteEffects(get, raw, sites, pick, old(notebooksTested))),
                      old(accessible), old(restricted), old(failed), old(totalPagesFound), old(totalPagesTested))
    {
      ghost var k0 := notebooksTested;
      ghost var a0, r0, f0, found0, tested0 := accessible, restricted, failed, totalPagesFound, totalPagesTested;
      ghost var ss := SiteEffects(get, raw, sites, pick, k0);
      var j := 0;
      while j < |sites|
        invariant 0 <= j <= |sites|
        invariant Valid()
        invariant notebooksTested == k0 + j
        invariant Tallied(Sum(ss[..j]), a0, r0, f0, found0, tested0)
      {
        var k := notebooksTested;
        ghost var sofar, e := Sum(ss[..j]), ss[j];
        assert e == SiteEffect(get, raw, sites[j], Draw(pick, k)) by {
          SiteEffectAt(get, raw, sites, pick, k0, j, k);
        }
        ghost var pa, pr, pf, pfound, ptested := accessible, restricted, failed, totalPagesFound, totalPagesTested;
        TestSiteNotebook(get, raw, sites[j], Draw(pick, k));
        assert Tallied(Sum(ss[..j + 1]), a0, r0, f0, found0, tested0) by {
          assert Tallied(e, pa, pr, pf, pfound, ptested);
          SumSnoc(ss, j);
          TalliedPlus(sofar, e, a0, r0, f0, found0, tested0);
        }
        j := j + 1;
      }
      assert ss[..j] == ss;
    }

    /** A tally of `e` followed by a tally of `d` is a tally of `e` then `d`. */
    lemma TalliedPlus(e: Effect, d: Effect, a: seq<PageResult>, r: seq<string>, f: seq<Failure>, found: nat, tested: nat)
      requires Tallied(d, a + e.accessible, r + e.restricted, f + e.failed, found + e.found, tested + e.tested)
      ensures Tallied(Plus(e, d), a, r, f, found, tested)
    {
      ConcatRegroup(a, e.accessible, d.accessible, []);
      ConcatRegroup(r, e.restricted, d.restricted, []);
      ConcatRegroup(f, e.failed, d.failed, []);
    }

    /** The summary's success rate: reported only when some page was found, and then
        well defined (some page was tested) and between 0 and 100 percent. */
    function SuccessRate(): (r: Option<real>)
      reads this
      requires Valid()
      ensures r.Some? <==> totalPagesFound > 0
      ensures r.Some? ==> 0.0 <= r.value <= 100.0
    {
      if totalPagesFound > 0 then
        var a := |accessible| as real;
        var t := totalPagesTested as real;
        assert 0.0 <= a <= t && t > 0.0;
        assert a / t <= 1.0 by {
          assert a / t * t == a;
        }
        Some(a / t * 100.0)
      else None
    }
  }
}
