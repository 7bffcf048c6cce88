/** Searching notebooks by name (test_compose_gemensam.py): personal notebooks, then the
    notebooks of each followed SharePoint site, matched case-insensitively against a list
    of search terms; the reference listing of every notebook name; and the shortened id
    shown in the result table. */
module Compose {
  import opened Base
  import opened Text
  import opened Graph

  const PersonalNotebooksEndpoint := "/me/onenote/notebooks"
  const FollowedSitesEndpoint := "/me/followedSites"

  function SiteNotebooksEndpoint(siteId: string): string
  {
    "/sites/" + siteId + "/onenote/notebooks"
  }

  /** `{'name', 'id', 'location', 'site'}` of one match; `id` is `notebook.get('id')`. */
  datatype Hit = Hit(name: string, id: Option<string>, location: string, site: string)

  /** `term.lower() in name.lower()`. */
  predicate Matches(term: string, name: string)
  {
    Contains(Lower(name), Lower(term))
  }

  /** `notebook.get('displayName', '')`. */
  function NameOf(notebook: Obj): string
  {
    notebook.displayName.GetOr("")
  }

  /** The records the loop over `search_terms` appends for one notebook. */
  function NotebookHits(notebook: Obj, terms: seq<string>, location: string, site: string): seq<Hit>
  {
    if terms == [] then []
    else
      NotebookHits(notebook, terms[..|terms| - 1], location, site)
      + (if Matches(terms[|terms| - 1], NameOf(notebook)) then [Hit(NameOf(notebook), notebook.id, location, site)] else [])
  }

  /** The records appended for one listing of notebooks. */
  function ListingHits(notebooks: seq<Obj>, terms: seq<string>, location: string, site: string): seq<Hit>
  {
    if notebooks == [] then []
    else ListingHits(notebooks[..|notebooks| - 1], terms, location, site)
         + NotebookHits(notebooks[|notebooks| - 1], terms, location, site)
  }

  /** `site.get('displayName', '')` and `site.get('id', '')`. */
  function SiteName(site: Obj): string
  {
    site.displayName.GetOr("")
  }

  function SiteId(site: Obj): string
  {
    site.id.GetOr("")
  }

  /** The records of one followed site: none when its notebook listing fails. */
  function SiteHits(get: Provider, site: Obj, terms: seq<string>): seq<Hit>
  {
    var reply := get(SiteNotebooksEndpoint(SiteId(site)));
    if reply.Ok? then ListingHits(Items(reply.body), terms, "SharePoint", SiteName(site)) else []
  }

  /** The records of the followed sites, site by site in listing order. */
  function SitesHits(get: Provider, sites: seq<Obj>, terms: seq<string>): seq<Hit>
  {
    Flatten(Map((site: Obj) => SiteHits(get, site, terms), sites))
  }

  /** The personal part of `search_notebooks_by_name`. */
  function PersonalHits(get: Provider, terms: seq<string>): seq<Hit>
  {
    var reply := get(PersonalNotebooksEndpoint);
    if reply.Ok? then ListingHits(Items(reply.body), terms, "Personal", "N/A") else []
  }

  /** The SharePoint part of `search_notebooks_by_name`. */
  function SharePointHits(get: Provider, terms: seq<string>): seq<Hit>
  {
    var reply := get(FollowedSitesEndpoint);
    if reply.Ok? then SitesHits(get, Items(reply.body), terms) else []
  }

  /** `search_notebooks_by_name(token, search_terms)`. */
  function SearchByName(get: Provider, terms: seq<string>): seq<Hit>
  {
    PersonalHits(get, terms) + SharePointHits(get, terms)
  }

  /** The loop over `search_terms` for one notebook. */
  method AppendTermHits(found: seq<Hit>, notebook: Obj, terms: seq<string>, location: string, site: string)
    returns (r: seq<Hit>)
    ensures r == found + NotebookHits(notebook, terms, location, site)
  {
    r := found;
    var name := notebook.displayName.GetOr("");
    var i := 0;
    while i < |terms|
      invariant 0 <= i <= |terms|
      invariant r == found + NotebookHits(notebook, terms[..i], location, site)
    {
      assert terms[..i + 1][..i] == terms[..i];
      if Contains(Lower(name), Lower(terms[i])) {
        r := r + [Hit(name, notebook.id, location, site)];
      }
      i := i + 1;
    }
    assert terms[..i] == terms;
  }

  /** The loop over the notebooks of one listing. */
  method AppendListingHits(found: seq<Hit>, notebooks: seq<Obj>, terms: seq<string>, location: string, site: string)
    returns (r: seq<Hit>)
    ensures r == found + ListingHits(notebooks, terms, location, site)
  {
    r := found;
    var i := 0;
    while i < |notebooks|
      invariant 0 <= i <= |notebooks|
      invariant r == found + ListingHits(notebooks[..i], terms, location, site)
    {
      assert notebooks[..i + 1][..i] == notebooks[..i];
      r := AppendTermHits(r, notebooks[i], terms, location, site);
      i := i + 1;
    }
    assert notebooks[..i] == notebooks;
  }

  /** The body of the loop over followed sites, for one site. */
  method AppendSiteHits(get: Provider, found: seq<Hit>, site: Obj, terms: seq<string>) returns (r: seq<Hit>)
    ensures r == found + SiteHits(get, site, terms)
  {
    r := found;
    var siteName := site.displayName.GetOr("");
    var siteId := site.id.GetOr("");
    var notebooksResponse := get(SiteNotebooksEndpoint(siteId));
    if notebooksResponse.Ok? {
      r := AppendListingHits(r, Items(notebooksResponse.body), terms, "SharePoint", siteName);
    }
  }

  /** The loop over followed sites. */
  method AppendSitesHits(get: Provider, found: seq<Hit>, sites: seq<Obj>, terms: seq<string>) returns (r: seq<Hit>)
    ensures r == found + SitesHits(get, sites, terms)
  {
    r := found;
    var i := 0;
    while i < |sites|
      invariant 0 <= i <= |sites|
      invariant r == found + SitesHits(get, sites[..i], terms)
    {
      assert sites[..i + 1] == sites[..i] + [sites[i]];
      SitesHitsSnoc(get, sites[..i], sites[i], terms);
      r := AppendSiteHits(get, r, sites[i], terms);
      i := i + 1;
    }
    assert sites[..i] == sites;
  }

  /** `search_notebooks_by_name`: each failed request only skips its own part. */
  method SearchNotebooksByName(get: Provider, terms: seq<string>) returns (found: seq<Hit>)
    ensures found == SearchByName(get, terms)
  {
    found := [];
    var response := get(PersonalNotebooksEndpoint);
    if response.Ok? {
      found := AppendListingHits(found, Items(response.body), terms, "Personal", "N/A");
    }
    response := get(FollowedSitesEndpoint);
    if response.Ok? {
      found := AppendSitesHits(get, found, Items(response.body), terms);
    }
  }

  /** The positions of the terms that match `name`. */
  function MatchingPositions(terms: seq<string>, name: string): set<nat>
  {
    set i: nat | i < |terms| && Matches(terms[i], name)
  }

  /** A notebook is recorded once per matching search term (so twice when two terms match
      its name), each time with the same name, id and labels. */
  lemma {:induction false} OncePerTerm(notebook: Obj, terms: seq<string>, location: string, site: string)
    ensures |NotebookHits(notebook, terms, location, site)| == |MatchingPositions(terms, NameOf(notebook))|
    ensures forall h :: h in NotebookHits(notebook, terms, location, site) ==>
      h == Hit(NameOf(notebook), notebook.id, location, site)
  {
    var name := NameOf(notebook);
    if terms != [] {
      var k := |terms| - 1;
      OncePerTerm(notebook, terms[..k], location, site);
      var before := MatchingPositions(terms[..k], name);
      assert forall i :: 0 <= i < k ==> terms[..k][i] == terms[i];
      if Matches(terms[k], name) {
        assert MatchingPositions(terms, name) == before + {k};
      } else {
        assert MatchingPositions(terms, name) == before;
      }
    }
  }

  /** Every record of a listing is one of its notebooks, carrying the listing's labels and
      a name that one of the terms matches case-insensitively; every notebook that some
      term matches is recorded. */
  lemma ListingHitsSound(notebooks: seq<Obj>, terms: seq<string>, location: string, site: string)
    ensures forall h :: h in ListingHits(notebooks, terms, location, site) ==>
      h.location == location && h.site == site
      && (exists j :: 0 <= j < |notebooks| && h.name == NameOf(notebooks[j]) && h.id == notebooks[j].id)
      && (exists t :: t in terms && Matches(t, h.name))
    ensures forall j, t :: 0 <= j < |notebooks| && t in terms && Matches(t, NameOf(notebooks[j])) ==>
      Hit(NameOf(notebooks[j]), notebooks[j].id, location, site) in ListingHits(notebooks, terms, location, site)
  {
    ListingHitsFrom(notebooks, terms, location, site);
    ListingHitsComplete(notebooks, terms, location, site);
  }

  /** `h` could be recorded for a notebook of `notebooks` under the given labels. */
  ghost predicate HitOf(h: Hit, notebooks: seq<Obj>, terms: seq<string>, location: string, site: string)
  {
    h.location == location && h.site == site
    && (exists j :: 0 <= j < |notebooks| && h.name == NameOf(notebooks[j]) && h.id == notebooks[j].id)
    && (exists t :: t in terms && Matches(t, h.name))
  }

  lemma {:induction false} ListingHitsFrom(notebooks: seq<Obj>, terms: seq<string>, location: string, site: string)
    ensures forall h :: h in ListingHits(notebooks, terms, location, site) ==> HitOf(h, notebooks, terms, location, site)
  {
    if notebooks != [] {
      var k := |notebooks| - 1;
      var init := notebooks[..k];
      ListingHitsFrom(init, terms, location, site);
      NotebookHitsSound(notebooks[k], terms, location, site);
      forall h | h in ListingHits(notebooks, terms, location, site)
        ensures HitOf(h, notebooks, terms, location, site)
      {
        if h in ListingHits(init, terms, location, site) {
          assert HitOf(h, init, terms, location, site);
          var j :| 0 <= j < k && h.name == NameOf(init[j]) && h.id == init[j].id;
          assert init[j] == notebooks[j];
        } else {
          assert h in NotebookHits(notebooks[k], terms, location, site);
        }
      }
    }
  }

  lemma {:induction false} ListingHitsComplete(notebooks: seq<Obj>, terms: seq<string>, location: string, site: string)
    ensures forall j, t :: 0 <= j < |notebooks| && t in terms && Matches(t, NameOf(notebooks[j])) ==>
      Hit(NameOf(notebooks[j]), notebooks[j].id, location, site) in ListingHits(notebooks, terms, location, site)
  {
    if notebooks != [] {
      var k := |notebooks| - 1;
      var init := notebooks[..k];
      var whole := ListingHits(notebooks, terms, location, site);
      var front := ListingHits(init, terms, location, site);
      var back := NotebookHits(notebooks[k], terms, location, site);
      assert whole == front + back;
      ListingHitsComplete(init, terms, location, site);
      NotebookHitsSound(notebooks[k], terms, location, site);
      forall j, t | 0 <= j < |notebooks| && t in terms && Matches(t, NameOf(notebooks[j]))
        ensures Hit(NameOf(notebooks[j]), notebooks[j].id, location, site) in whole
      {
        if j < k {
          assert init[j] == notebooks[j];
          assert Hit(NameOf(notebooks[j]), notebooks[j].id, location, site) in front;
        } else {
          assert Hit(NameOf(notebooks[j]), notebooks[j].id, location, site) in back;
        }
      }
    }
  }

  lemma {:induction false} NotebookHitsSound(notebook: Obj, terms: seq<string>, location: string, site: string)
    ensures forall h :: h in NotebookHits(notebook, terms, location, site) ==>
      h == Hit(NameOf(notebook), notebook.id, location, site) && exists t :: t in terms && Matches(t, h.name)
    ensures (exists t :: t in terms && Matches(t, NameOf(notebook))) ==>
      Hit(NameOf(notebook), notebook.id, location, site) in NotebookHits(notebook, terms, location, site)
  {
    if terms != [] {
      var k := |terms| - 1;
      NotebookHitsSound(notebook, terms[..k], location, site);
      assert terms == terms[..k] + [terms[k]];
      forall h | h in NotebookHits(notebook, terms, location, site)
        ensures exists t :: t in terms && Matches(t, h.name)
      {
        if h in NotebookHits(notebook, terms[..k], location, site) {
          var t :| t in terms[..k] && Matches(t, h.name);
          assert t in terms;
        } else {
          assert terms[k] in terms;
        }
      }
      if exists t :: t in terms && Matches(t, NameOf(notebook)) {
        var t :| t in terms && Matches(t, NameOf(notebook));
        if t != terms[k] {
          assert t in terms[..k];
        }
      }
    }
  }

  lemma SitesHitsSnoc(get: Provider, sites: seq<Obj>, site: Obj, terms: seq<string>)
    ensures SitesHits(get, sites + [site], terms) == SitesHits(get, sites, terms) + SiteHits(get, site, terms)
  {
    var f := (s: Obj) => SiteHits(get, s, terms);
    MapAppend(f, sites, [site]);
    FlattenAppend(Map(f, sites), f(site));
    assert Map(f, [site]) == [f(site)];
  }

  lemma SitesHitsAppend(get: Provider, a: seq<Obj>, b: seq<Obj>, terms: seq<string>)
    ensures SitesHits(get, a + b, terms) == SitesHits(get, a, terms) + SitesHits(get, b, terms)
  {
    var f := (s: Obj) => SiteHits(get, s, terms);
    MapAppend(f, a, b);
    FlattenConcat(Map(f, a), Map(f, b));
  }

  /** All personal records come first; then the records of each followed site in the
      order the sites are listed; a site whose notebook listing fails adds nothing and the
      sites after it are still searched. */
  lemma SearchOrder(get: Provider, terms: seq<string>, before: seq<Obj>, site: Obj, after: seq<Obj>)
    requires get(FollowedSitesEndpoint).Ok? && Items(get(FollowedSitesEndpoint).body) == before + [site] + after
    ensures SearchByName(get, terms)
         == PersonalHits(get, terms) + SitesHits(get, before, terms) + SiteHits(get, site, terms) + SitesHits(get, after, terms)
    ensures get(SiteNotebooksEndpoint(SiteId(site))).Fail? ==>
      SearchByName(get, terms) == PersonalHits(get, terms) + SitesHits(get, before, terms) + SitesHits(get, after, terms)
  {
    var p, b, s, a := PersonalHits(get, terms), SitesHits(get, before, terms), SiteHits(get, site, terms), SitesHits(get, after, terms);
    SitesHitsAppend(get, before + [site], after, terms);
    SitesHitsSnoc(get, before, site, terms);
    assert SharePointHits(get, terms) == (b + s) + a;
    assert p + ((b + s) + a) == p + b + s + a;
  }

  /** Personal records are labelled `Personal`/`N/A`, a site's records `SharePoint` and
      that site's name. */
  lemma SearchLabels(get: Provider, terms: seq<string>, site: Obj)
    ensures forall h :: h in PersonalHits(get, terms) ==> h.location == "Personal" && h.site == "N/A"
    ensures forall h :: h in SiteHits(get, site, terms) ==> h.location == "SharePoint" && h.site == SiteName(site)
  {
    var personal := get(PersonalNotebooksEndpoint);
    if personal.Ok? {
      ListingHitsSound(Items(personal.body), terms, "Personal", "N/A");
    }
    var listing := get(SiteNotebooksEndpoint(SiteId(site)));
    if listing.Ok? {
      ListingHitsSound(Items(listing.body), terms, "SharePoint", SiteName(site));
    }
  }

  /** `{'name', 'location'}` of the reference listing. */
  datatype NameRow = NameRow(name: string, location: string)

  function PersonalRows(notebooks: seq<Obj>): seq<NameRow>
  {
    if notebooks == [] then []
    else PersonalRows(notebooks[..|notebooks| - 1]) + [NameRow(NameOf(notebooks[|notebooks| - 1]), "Personal")]
  }

  /** `f'SharePoint ({site_name})'`. */
  function SharePointLabel(siteName: string): string
  {
    "SharePoint (" + siteName + ")"
  }

  function SiteRows(notebooks: seq<Obj>, siteName: string): seq<NameRow>
  {
    if notebooks == [] then []
    else SiteRows(notebooks[..|notebooks| - 1], siteName)
         + [NameRow(NameOf(notebooks[|notebooks| - 1]), SharePointLabel(siteName))]
  }

  function AllSiteRows(get: Provider, sites: seq<Obj>): seq<NameRow>
  {
    if sites == [] then []
    else
      var site := sites[|sites| - 1];
      var reply := get(SiteNotebooksEndpoint(SiteId(site)));
      AllSiteRows(get, sites[..|sites| - 1]) + (if reply.Ok? then SiteRows(Items(reply.body), SiteName(site)) else [])
  }

  /** `list_all_notebook_names(token)`, without the table. */
  function AllNames(get: Provider): seq<NameRow>
  {
    var personal := get(PersonalNotebooksEndpoint);
    var followed := get(FollowedSitesEndpoint);
    (if personal.Ok? then PersonalRows(Items(personal.body)) else [])
    + (if followed.Ok? then AllSiteRows(get, Items(followed.body)) else [])
  }

  /** `list_all_notebook_names`: one row per listed notebook. */
  method ListAllNotebookNames(get: Provider) returns (all: seq<NameRow>)
    ensures all == AllNames(get)
  {
    all := [];
    var response := get(PersonalNotebooksEndpoint);
    if response.Ok? {
      all := PersonalListing(Items(response.body));
    }
    response := get(FollowedSitesEndpoint);
    if response.Ok? {
      var rows := SitesListing(get, Items(response.body));
      all := all + rows;
    }
  }

  /** The loop over the personal notebooks. */
  method PersonalListing(notebooks: seq<Obj>) returns (rows: seq<NameRow>)
    ensures rows == PersonalRows(notebooks)
  {
    rows := [];
    var i := 0;
    while i < |notebooks|
      invariant 0 <= i <= |notebooks|
      invariant rows == PersonalRows(notebooks[..i])
    {
      assert notebooks[..i + 1][..i] == notebooks[..i];
      rows := rows + [NameRow(notebooks[i].displayName.GetOr(""), "Personal")];
      i := i + 1;
    }
    assert notebooks[..i] == notebooks;
  }

  /** The loop over the followed sites: a site whose listing fails adds no row. */
  method SitesListing(get: Provider, sites: seq<Obj>) returns (rows: seq<NameRow>)
    ensures rows == AllSiteRows(get, sites)
  {
    rows := [];
    var i := 0;
    while i < |sites|
      invariant 0 <= i <= |sites|
      invariant rows == AllSiteRows(get, sites[..i])
    {
      assert sites[..i + 1][..i] == sites[..i];
      var siteName := sites[i].displayName.GetOr("");
      var notebooksResponse := get(SiteNotebooksEndpoint(sites[i].id.GetOr("")));
      if notebooksResponse.Ok? {
        var siteRows := SiteListing(Items(notebooksResponse.body), siteName);
        rows := rows + siteRows;
      }
      i := i + 1;
    }
    assert sites[..i] == sites;
  }

  method SiteListing(notebooks: seq<Obj>, siteName: string) returns (rows: seq<NameRow>)
    ensures rows == SiteRows(notebooks, siteName)
  {
    rows := [];
    var i := 0;
    while i < |notebooks|
      invariant 0 <= i <= |notebooks|
      invariant rows == SiteRows(notebooks[..i], siteName)
    {
      assert notebooks[..i + 1][..i] == notebooks[..i];
      rows := rows + [NameRow(notebooks[i].displayName.GetOr(""), SharePointLabel(siteName))];
      i := i + 1;
    }
    assert notebooks[..i] == notebooks;
  }

  /** The reference listing has one row per notebook of each listing that answered, personal
      rows labelled `Personal` first, then each site's rows labelled with its name. */
  lemma {:induction false} RowsPerNotebook(notebooks: seq<Obj>, siteName: string)
    ensures |PersonalRows(notebooks)| == |notebooks| && |SiteRows(notebooks, siteName)| == |notebooks|
    ensures forall j :: 0 <= j < |notebooks| ==>
      PersonalRows(notebooks)[j] == NameRow(NameOf(notebooks[j]), "Personal")
      && SiteRows(notebooks, siteName)[j] == NameRow(NameOf(notebooks[j]), "SharePoint (" + siteName + ")")
  {
    if notebooks != [] {
      var k := |notebooks| - 1;
      RowsPerNotebook(notebooks[..k], siteName);
      assert forall j :: 0 <= j < k ==> notebooks[..k][j] == notebooks[j];
    }
  }

  /** The id cell of the result table: `id[:20] + '...'` when longer than 20 characters;
      `None` when the match has no id, where `len(None)` raises. */
  function DisplayId(id: Option<string>): (r: Option<string>)
  {
    match id
    case None => None
    case Some(s) => Some(if |s| > 20 then s[..20] + "..." else s)
  }

  /** A shown id is never longer than 23 characters and starts with the first (up to) 20
      characters of the id; an id of at most 20 characters is shown unchanged, a longer one
      is cut to 20 characters followed by `...`. */
  lemma DisplayIdShape(s: string)
    ensures var r := DisplayId(Some(s)).value;
      |r| <= 23 && StartsWith(r, s[..Min(|s|, 20)])
      && (|s| <= 20 ==> r == s)
      && (|s| > 20 ==> |r| == 23 && EndsWith(r, "..."))
  {
    var r := DisplayId(Some(s)).value;
    if |s| > 20 {
      assert r[..20] == s[..20];
      assert r[20..] == "...";
    }
  }
}
