/** Discovery of OneNote files outside the OneNote API (test_onenote_access_detailed.py):
    a paginated drive search filtered by MIME type, and a keyword scan of recently used
    documents. */
module Discovery {
  import opened Base
  import opened Text
  import opened Graph
  import opened Paginator

  /** The three drive search queries, tried in this order. */
  const SearchQueries: seq<string> := ["*.one", "*.onetoc2", "name:OneNote"]

  /** Page cap for each drive search. */
  const SearchMaxPages := 20

  /** The MIME types that mark a drive item as a OneNote file. */
  const OneNoteMimeTypes: seq<string> :=
    ["application/msonenote", "application/onenote", "application/x-msonenote", "application/vnd.ms-onenote"]

  function SearchEndpoint(query: string): string
  {
    "/me/drive/search(q='" + query + "')"
  }

  /** One record of the drive search: name, URL, MIME type and where it was found. */
  datatype DriveFind = DriveFind(name: string, url: string, mimeType: string, source: string)

  /** `item.get('file', {}).get('mimeType', '') in onenote_mime_types`. */
  predicate IsOneNoteFile(item: Obj)
  {
    item.mimeType.GetOr("") in OneNoteMimeTypes
  }

  function DriveFindOf(item: Obj): DriveFind
  {
    DriveFind(item.name.GetOr("Unknown"), item.webUrl.GetOr("No URL"), item.mimeType.GetOr("Unknown type"), "drive_search")
  }

  /** The records one search yields from its collected items. */
  function DriveFinds(items: seq<Obj>): seq<DriveFind>
  {
    Map(DriveFindOf, Filter(items, IsOneNoteFile))
  }

  /** The records of one query: nothing when its paginated search failed. */
  function QueryFinds(get: Provider, query: string): seq<DriveFind>
  {
    match Follow(get, GraphRoot + SearchEndpoint(query), SearchMaxPages)
    case Failed(_) => []
    case Collected(p) => DriveFinds(p.value)
  }

  /** The records of several queries, concatenated in query order without de-duplication. */
  function SearchAll(get: Provider, queries: seq<string>): seq<DriveFind>
  {
    if queries == [] then []
    else SearchAll(get, queries[..|queries| - 1]) + QueryFinds(get, queries[|queries| - 1])
  }

  method OneNoteItems(items: seq<Obj>) returns (onenote: seq<Obj>)
    ensures onenote == Filter(items, IsOneNoteFile)
  {
    onenote := [];
    var i := 0;
    while i < |items|
      invariant 0 <= i <= |items|
      invariant onenote == Filter(items[..i], IsOneNoteFile)
    {
      FilterSnoc(items, i, IsOneNoteFile);
      if IsOneNoteFile(items[i]) {
        onenote := onenote + [items[i]];
      }
      i := i + 1;
    }
    assert items[..i] == items;
  }

  /** The records of one search's OneNote items, in order. */
  method TagDriveFinds(onenote: seq<Obj>) returns (finds: seq<DriveFind>)
    ensures finds == Map(DriveFindOf, onenote)
  {
    finds := [];
    var i := 0;
    while i < |onenote|
      invariant 0 <= i <= |onenote|
      invariant finds == Map(DriveFindOf, onenote[..i])
    {
      MapSnoc(DriveFindOf, onenote, i);
      finds := finds + [DriveFindOf(onenote[i])];
      i := i + 1;
    }
    assert onenote[..i] == onenote;
  }

  lemma SearchAllSnoc(get: Provider, queries: seq<string>, q: string)
    ensures SearchAll(get, queries + [q]) == SearchAll(get, queries) + QueryFinds(get, q)
  {
    assert (queries + [q])[..|queries|] == queries;
  }

  /** `test_onenote_via_drive_search`. */
  method SearchDrive(get: Provider) returns (found: seq<DriveFind>)
    ensures found == SearchAll(get, SearchQueries)
  {
    found := [];
    var q := 0;
    while q < |SearchQueries|
      invariant 0 <= q <= |SearchQueries|
      invariant found == SearchAll(get, SearchQueries[..q])
    {
      var query := SearchQueries[q];
      assert SearchQueries[..q + 1] == SearchQueries[..q] + [query];
      SearchAllSnoc(get, SearchQueries[..q], query);
      var result, _ := CollectAll(get, SearchEndpoint(query), SearchMaxPages);
      if result.Collected? {
        var onenote := OneNoteItems(result.paged.value);
        var finds := TagDriveFinds(onenote);
        found := found + finds;
      }
      q := q + 1;
    }
    assert SearchQueries[..q] == SearchQueries;
  }

  /** An item of a search is reported exactly when its MIME type is a OneNote type, and
      each such item is reported once per search that returns it. */
  lemma DriveFindsExact(items: seq<Obj>, x: Obj)
    requires x in items
    ensures DriveFindOf(x) in DriveFinds(items) <==> IsOneNoteFile(x)
    ensures |DriveFinds(items)| == Count(items, IsOneNoteFile)
  {
    FilterLength(items, IsOneNoteFile);
    var kept := Filter(items, IsOneNoteFile);
    if IsOneNoteFile(x) {
      FilterComplete(items, IsOneNoteFile, x);
      var k :| 0 <= k < |kept| && kept[k] == x;
      assert DriveFinds(items)[k] == DriveFindOf(x);
    }
    if DriveFindOf(x) in DriveFinds(items) {
      var k :| 0 <= k < |kept| && DriveFinds(items)[k] == DriveFindOf(x);
      var y := kept[k];
      assert y in kept;
      assert IsOneNoteFile(y);
      assert y.mimeType.Some?;
      assert x.mimeType.GetOr("Unknown type") == y.mimeType.value;
      assert "Unknown type" !in OneNoteMimeTypes;
    }
  }

  lemma DriveFindsTagged(items: seq<Obj>)
    ensures forall f :: f in DriveFinds(items) ==> f.mimeType in OneNoteMimeTypes && f.source == "drive_search"
  {
    var kept := Filter(items, IsOneNoteFile);
    forall f | f in DriveFinds(items) ensures f.mimeType in OneNoteMimeTypes && f.source == "drive_search" {
      var k :| 0 <= k < |kept| && DriveFinds(items)[k] == f;
      assert kept[k] in kept;
    }
  }

  /** Every record of the drive search carries a OneNote MIME type and the `drive_search` tag. */
  lemma {:induction false} SearchAllTagged(get: Provider, queries: seq<string>)
    ensures forall f :: f in SearchAll(get, queries) ==> f.mimeType in OneNoteMimeTypes && f.source == "drive_search"
  {
    if queries != [] {
      var q := queries[|queries| - 1];
      SearchAllTagged(get, queries[..|queries| - 1]);
      var r := Follow(get, GraphRoot + SearchEndpoint(q), SearchMaxPages);
      if r.Collected? {
        DriveFindsTagged(r.paged.value);
      }
    }
  }

  /** A query whose search fails contributes nothing; the other queries are unaffected. */
  lemma SearchFailureIsolated(get: Provider, queries: seq<string>, q: string)
    requires Follow(get, GraphRoot + SearchEndpoint(q), SearchMaxPages).Failed?
    ensures SearchAll(get, queries + [q]) == SearchAll(get, queries)
  {
    assert (queries + [q])[..|queries|] == queries;
  }

  /** One record of the recent-files scan. */
  datatype RecentFind = RecentFind(name: string, url: string, source: string)

  /** `resource.get('displayName', resource.get('name', 'Unknown'))`. */
  function RecentName(item: Obj): string
  {
    var resource := item.resource.GetOr(EmptyObj);
    resource.displayName.GetOr(resource.name.GetOr("Unknown"))
  }

  /** `resource.get('webUrl', '')`. */
  function RecentUrl(item: Obj): string
  {
    item.resource.GetOr(EmptyObj).webUrl.GetOr("")
  }

  /** The keyword test: `onenote` or `.one` in the lower-cased name, or `onenote` in the
      lower-cased URL. */
  predicate IsOneNoteRecent(item: Obj)
  {
    Contains(Lower(RecentName(item)), "onenote") || Contains(Lower(RecentName(item)), ".one")
    || Contains(Lower(RecentUrl(item)), "onenote")
  }

  function RecentFindOf(item: Obj): RecentFind
  {
    RecentFind(RecentName(item), RecentUrl(item), "recent_files")
  }

  /** The records of the recent-files scan for one reply of `/me/insights/used`. */
  function RecentFinds(reply: Reply): seq<RecentFind>
  {
    if Succeeded(reply) then Map(RecentFindOf, Filter(Items(reply.body), IsOneNoteRecent)) else []
  }

  /** `test_recent_files_for_onenote`. */
  method RecentOneNoteFiles(get: Provider) returns (found: seq<RecentFind>)
    ensures found == RecentFinds(get("/me/insights/used"))
  {
    var result := get("/me/insights/used");
    found := [];
    if !Succeeded(result) {
      return;
    }
    var items := Items(result.body);
    var i := 0;
    while i < |items|
      invariant 0 <= i <= |items|
      invariant found == Map(RecentFindOf, Filter(items[..i], IsOneNoteRecent))
    {
      FilterMapSnoc(items, i, IsOneNoteRecent, RecentFindOf);
      if IsOneNoteRecent(items[i]) {
        found := found + [RecentFindOf(items[i])];
      }
      i := i + 1;
    }
    assert items[..i] == items;
  }

  /** Each recent-files record names a OneNote keyword in its name or URL, and each recent
      item that has one is recorded; a failed or empty reply yields no record. */
  lemma RecentFindsExact(reply: Reply)
    ensures forall f :: f in RecentFinds(reply) ==>
      f.source == "recent_files"
      && (Contains(Lower(f.name), "onenote") || Contains(Lower(f.name), ".one") || Contains(Lower(f.url), "onenote"))
    ensures Succeeded(reply) ==> forall x :: x in Items(reply.body) && IsOneNoteRecent(x) ==> RecentFindOf(x) in RecentFinds(reply)
    ensures !Succeeded(reply) ==> RecentFinds(reply) == []
  {
    if Succeeded(reply) {
      var kept := Filter(Items(reply.body), IsOneNoteRecent);
      forall f | f in RecentFinds(reply)
        ensures f.source == "recent_files"
        ensures Contains(Lower(f.name), "onenote") || Contains(Lower(f.name), ".one") || Contains(Lower(f.url), "onenote")
      {
        var k :| 0 <= k < |kept| && RecentFinds(reply)[k] == f;
        assert kept[k] in kept;
      }
      forall x | x in Items(reply.body) && IsOneNoteRecent(x) ensures RecentFindOf(x) in RecentFinds(reply) {
        FilterComplete(Items(reply.body), IsOneNoteRecent, x);
        var k :| 0 <= k < |kept| && kept[k] == x;
        assert RecentFinds(reply)[k] == RecentFindOf(x);
      }
    }
  }

  /** The name falls back from `displayName` to `name` to `Unknown`, and the keyword test
      ignores case: an item whose display name is `Project.ONE` is a OneNote item. */
  lemma RecentKeywordIgnoresCase(item: Obj)
    requires item.resource.Some? && item.resource.value.displayName == Some("Project.ONE")
    ensures IsOneNoteRecent(item)
  {
    var lowered := Lower("Project.ONE");
    assert lowered == "project.one";
    assert OccursAt(lowered, ".one", 7);
    ContainsAt(lowered, ".one");
  }
}
