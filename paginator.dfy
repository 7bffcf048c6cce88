/** `make_graph_request_with_pagination` (test_onenote_access_detailed.py): follow the
    `@odata.nextLink` control field of each page (section 4.5.5 of OData JSON Format
    Version 4.01) while a link is left and fewer than `max_pages` pages were fetched. */
module Paginator {
  import opened Base
  import opened Graph

  const GraphRoot := "https://graph.microsoft.com/v1.0"

  /** `{'value': all_items, 'total_pages': page_count}`. */
  datatype Paged = Paged(value: seq<Obj>, totalPages: nat)

  /** `(result, None)` or `(None, error)`. */
  datatype Outcome = Collected(paged: Paged) | Failed(error: string)

  /** `url = data.get('@odata.nextLink')`; the empty string stands for every falsy url. */
  function NextUrl(page: Obj): string
  {
    page.nextLink.GetOr("")
  }

  /** The URLs the loop requests when it is at `url` with `budget` more pages allowed. */
  function Requested(get: Provider, url: string, budget: int): (r: seq<string>)
    ensures |r| <= if budget < 0 then 0 else budget
    ensures r != [] ==> r[0] == url
    decreases if budget < 0 then 0 else budget
  {
    if url == "" || budget <= 0 then []
    else [url] + match get(url)
      case Fail(_) => []
      case Ok(page) => Requested(get, NextUrl(page), budget - 1)
  }

  /** What the loop returns when it is at `url` with `budget` more pages allowed. */
  function Follow(get: Provider, url: string, budget: int): Outcome
    decreases if budget < 0 then 0 else budget
  {
    if url == "" || budget <= 0 then Collected(Paged([], 0))
    else match get(url)
      case Fail(e) => Failed(e)
      case Ok(page) => Prepend(Items(page), 1, Follow(get, NextUrl(page), budget - 1))
  }

  /** Items and a page count gathered before a continuation. */
  function Prepend(items: seq<Obj>, pages: nat, rest: Outcome): Outcome
  {
    match rest
    case Failed(e) => Failed(e)
    case Collected(p) => Collected(Paged(items + p.value, pages + p.totalPages))
  }

  lemma PrependTwice(a: seq<Obj>, m: nat, b: seq<Obj>, n: nat, rest: Outcome)
    ensures Prepend(a, m, Prepend(b, n, rest)) == Prepend(a + b, m + n, rest)
  {
    if rest.Collected? {
      assert a + (b + rest.paged.value) == (a + b) + rest.paged.value;
    }
  }

  /** One page of the loop: an answered page contributes its items and a count of one
      ahead of what the continuation collects; a failing page ends the request list. */
  lemma FollowStep(get: Provider, url: string, budget: int)
    requires url != "" && budget > 0
    ensures get(url).Fail? ==> Follow(get, url, budget) == Failed(get(url).message)
    ensures get(url).Fail? ==> Requested(get, url, budget) == [url]
    ensures get(url).Ok? ==>
      Follow(get, url, budget) == Prepend(Items(get(url).body), 1, Follow(get, NextUrl(get(url).body), budget - 1))
    ensures get(url).Ok? ==>
      Requested(get, url, budget) == [url] + Requested(get, NextUrl(get(url).body), budget - 1)
  {
  }

  /** Where the loop stops: nothing more is requested or collected. */
  lemma FollowDone(get: Provider, url: string, budget: int)
    requires url == "" || budget <= 0
    ensures Follow(get, url, budget) == Collected(Paged([], 0))
    ensures Requested(get, url, budget) == []
  {
  }

  /** One answered page moves its items and a count of one from the continuation into
      what the loop has gathered. */
  lemma GatherStep(get: Provider, url: string, left: int, gathered: seq<Obj>, pages: nat, requested: seq<string>)
    requires url != "" && left > 0 && get(url).Ok?
    ensures Prepend(gathered, pages, Follow(get, url, left))
         == Prepend(gathered + Items(get(url).body), pages + 1, Follow(get, NextUrl(get(url).body), left - 1))
    ensures requested + Requested(get, url, left)
         == (requested + [url]) + Requested(get, NextUrl(get(url).body), left - 1)
  {
    var page := get(url).body;
    FollowStep(get, url, left);
    PrependTwice(gathered, pages, Items(page), 1, Follow(get, NextUrl(page), left - 1));
    var rest := Requested(get, NextUrl(page), left - 1);
    assert requested + ([url] + rest) == (requested + [url]) + rest;
  }

  method CollectAll(get: Provider, endpoint: string, maxPages: int) returns (r: Outcome, ghost requested: seq<string>)
    ensures r == Follow(get, GraphRoot + endpoint, maxPages)
    ensures requested == Requested(get, GraphRoot + endpoint, maxPages)
    ensures |requested| <= if maxPages < 0 then 0 else maxPages
  {
    var allItems: seq<Obj> := [];
    var url := GraphRoot + endpoint;
    var pageCount: nat := 0;
    requested := [];
    ghost var left := maxPages;
    ghost var whole := Follow(get, url, left);
    ghost var wholeRequested := Requested(get, url, left);
    while url != "" && pageCount < maxPages
      invariant left == maxPages - pageCount
      invariant whole == Prepend(allItems, pageCount, Follow(get, url, left))
      invariant wholeRequested == requested + Requested(get, url, left)
      decreases left
    {
      var reply := get(url);
      if reply.Fail? {
        FollowStep(get, url, left);
        assert wholeRequested == requested + [url];
        return Failed(reply.message), requested + [url];
      }
      GatherStep(get, url, left, allItems, pageCount, requested);
      requested := requested + [url];
      allItems := allItems + Items(reply.body);
      url := NextUrl(reply.body);
      pageCount := pageCount + 1;
      left := left - 1;
    }
    FollowDone(get, url, left);
    r := Collected(Paged(allItems, pageCount));
    assert allItems + [] == allItems;
    assert requested + [] == requested;
  }

  /** Every requested URL answered with a 200 reply. */
  ghost predicate AllOk(get: Provider, urls: seq<string>)
  {
    forall i :: 0 <= i < |urls| ==> get(urls[i]).Ok?
  }

  /** The `value` lists of the replies to `urls`, concatenated in request order. */
  function PageItems(get: Provider, urls: seq<string>): seq<Obj>
  {
    if urls == [] then []
    else (match get(urls[0]) case Fail(_) => [] case Ok(page) => Items(page)) + PageItems(get, urls[1..])
  }

  /** The paginator succeeds exactly when every page it requested answered; then `value` is
      the in-order concatenation of the fetched pages' `value` lists and `total_pages` is the
      number of pages fetched. On failure the error is that of the last requested page and
      nothing collected before it is returned. */
  lemma {:induction false} FollowCharacterised(get: Provider, url: string, budget: int)
    ensures Follow(get, url, budget).Collected? <==> AllOk(get, Requested(get, url, budget))
    ensures Follow(get, url, budget).Collected? ==>
      Follow(get, url, budget).paged == Paged(PageItems(get, Requested(get, url, budget)), |Requested(get, url, budget)|)
    ensures Follow(get, url, budget).Failed? ==>
      var rq := Requested(get, url, budget);
      rq != [] && get(rq[|rq| - 1]) == Fail(Follow(get, url, budget).error)
    decreases if budget < 0 then 0 else budget
  {
    if url == "" || budget <= 0 {
    } else {
      match get(url)
      case Fail(e) =>
        assert Requested(get, url, budget) == [url];
      case Ok(page) =>
        var rest := Requested(get, NextUrl(page), budget - 1);
        FollowCharacterised(get, NextUrl(page), budget - 1);
        assert Requested(get, url, budget) == [url] + rest;
        assert ([url] + rest)[1..] == rest;
        if AllOk(get, rest) {
          assert AllOk(get, [url] + rest);
        }
        if AllOk(get, [url] + rest) {
          forall i | 0 <= i < |rest| ensures get(rest[i]).Ok? {
            assert rest[i] == ([url] + rest)[i + 1];
          }
        }
    }
  }

  /** Paging stops early only at a page without a next link: if fewer than `budget` pages
      were requested and the last one answered, that page carried no `@odata.nextLink`. */
  lemma {:induction false} StopsOnlyWithoutNextLink(get: Provider, url: string, budget: int)
    requires url != ""
    ensures var rq := Requested(get, url, budget);
      0 < |rq| < budget && get(rq[|rq| - 1]).Ok? ==> NextUrl(get(rq[|rq| - 1]).body) == ""
    decreases if budget < 0 then 0 else budget
  {
    if budget > 0 {
      match get(url)
      case Fail(_) =>
      case Ok(page) =>
        var rest := Requested(get, NextUrl(page), budget - 1);
        assert Requested(get, url, budget) == [url] + rest;
        if NextUrl(page) != "" {
          StopsOnlyWithoutNextLink(get, NextUrl(page), budget - 1);
        }
    }
  }

  /** A provider whose next link never runs out (the looping mock of a regression test):
      the loop stops after exactly `max_pages` requests and still reports success, with
      `total_pages == max_pages`; the truncation is only printed. */
  lemma {:induction false} EndlessLinksStopAtCap(get: Provider, url: string, budget: nat)
    requires url != ""
    requires forall u :: get(u).Ok? && NextUrl(get(u).body) != ""
    ensures |Requested(get, url, budget)| == budget
    ensures Follow(get, url, budget).Collected?
    ensures Follow(get, url, budget).paged.totalPages == budget
    decreases budget
  {
    if budget > 0 {
      var page := get(url).body;
      EndlessLinksStopAtCap(get, NextUrl(page), budget - 1);
    }
  }
}
