/** Download URLs of the Citrix downloader: normalising the `.rpm` links found in the
    page, choosing the main ICAClient package among the direct URLs, and the verdict
    of `downloadWithDirectUrls`. */
module DownloadUrls {
  import opened Base
  import opened Text
  import DownloadFiles

  /** What the link pattern `(?:https?:|/)/[^"']+\.rpm(\?[^"']+)?` can match at its start:
      `http:/`, `https:/` or `//`. */
  predicate IsLinkMatch(m: string)
  {
    StartsWith(m, "http:/") || StartsWith(m, "https:/") || StartsWith(m, "//")
  }

  /** A protocol-relative link gets `https:` in front; any other link is kept. */
  function Normalize(url: string): (r: string)
    ensures StartsWith(url, "//") ==> r == "https:" + url
    ensures !StartsWith(url, "//") ==> r == url
  {
    if StartsWith(url, "//") then "https:" + url else url
  }

  /** `extractDownloadUrlsFromHtml` once the pattern's matches are known, in match order. */
  function ExtractUrls(matches: seq<string>): (r: seq<string>)
    ensures |r| == |matches|
    ensures forall i :: 0 <= i < |matches| ==> r[i] == Normalize(matches[i])
  {
    Map(Normalize, matches)
  }

  /** Every extracted URL carries a scheme: it starts with `http`. */
  lemma {:induction false} ExtractedHaveScheme(matches: seq<string>)
    requires forall i :: 0 <= i < |matches| ==> IsLinkMatch(matches[i])
    ensures forall i :: 0 <= i < |matches| ==> StartsWith(ExtractUrls(matches)[i], "http")
  {
    forall i | 0 <= i < |matches|
      ensures StartsWith(ExtractUrls(matches)[i], "http")
    {
      var m := matches[i];
      if StartsWith(m, "//") {
        assert ("https:" + m)[..4] == "http";
      } else if StartsWith(m, "http:/") {
        assert m[..4] == m[..6][..4];
      } else {
        assert m[..4] == m[..7][..4];
      }
    }
  }

  /** Normalising twice is normalising once. */
  lemma NormalizeIdempotent(url: string)
    ensures Normalize(Normalize(url)) == Normalize(url)
  {
    if StartsWith(url, "//") {
      assert ("https:" + url)[0] == 'h';
    }
  }

  /** The link the direct download looks for: the main `ICAClient` package. */
  predicate IsMainRpm(url: string)
  {
    Contains(url, "ICAClient") && Contains(url, ".rpm")
  }

  /** The address finally opened: `https:` in front unless the URL starts with `http`. */
  function FullUrl(url: string): (r: string)
    ensures StartsWith(r, "http")
  {
    if StartsWith(url, "http") then url
    else
      assert ("https:" + url)[..4] == "http";
      "https:" + url
  }

  /** The URL `downloadWithDirectUrls` opens, or `None` when it gives up at once. */
  function SelectUrl(urls: seq<string>): Option<string>
  {
    match FirstWhere(urls, IsMainRpm)
    case None => None
    case Some(u) => Some(FullUrl(u))
  }

  /** The selection fails exactly when no URL names the main package (in particular
      for an empty list); otherwise it opens the first such URL, with a scheme, and the
      opened address still names the main package. */
  lemma SelectUrlSpec(urls: seq<string>)
    ensures SelectUrl(urls).None? <==> forall i :: 0 <= i < |urls| ==> !IsMainRpm(urls[i])
    ensures urls == [] ==> SelectUrl(urls).None?
    ensures SelectUrl(urls).Some? ==>
              exists i :: 0 <= i < |urls| && IsMainRpm(urls[i]) &&
                (forall j :: 0 <= j < i ==> !IsMainRpm(urls[j])) &&
                SelectUrl(urls).value == FullUrl(urls[i])
    ensures SelectUrl(urls).Some? ==>
              StartsWith(SelectUrl(urls).value, "http") && IsMainRpm(SelectUrl(urls).value)
  {
    var k := FirstIndex(urls, IsMainRpm);
    if k.Some? {
      var u := urls[k.value];
      assert SelectUrl(urls).value == FullUrl(u);
      if !StartsWith(u, "http") {
        ContainsInMiddle("https:", u, "", "ICAClient");
        ContainsInMiddle("https:", u, "", ".rpm");
        assert "https:" + u + "" == "https:" + u;
      }
    }
  }

  /** On extracted links the scheme fix of the selection changes nothing. */
  lemma FullUrlOfExtracted(m: string)
    requires IsLinkMatch(m)
    ensures FullUrl(Normalize(m)) == Normalize(m)
  {
    ExtractedHaveScheme([m]);
    assert ExtractUrls([m])[0] == Normalize(m);
  }

  /** `downloadWithDirectUrls` after it has opened the URL: `failed` stands for an
      exception from the second directory listing, the one after navigation, which the
      `try` catches. The first listing, taken before the `try`, is assumed to succeed: when
      it throws, the whole call throws instead of answering `false`. The new-file checks
      lead to `true` on every path, so only the selection and the exception decide the
      answer. */
  function DirectDownload(urls: seq<string>, initial: set<string>, current: seq<string>, failed: bool): (r: bool)
  {
    match SelectUrl(urls)
    case None => false
    case Some(_) =>
      if failed then false
      else
        var added := DownloadFiles.NewFiles(initial, current);
        if |Filter(added, DownloadFiles.IsStatusPartial)| > 0 then true
        else if |Filter(added, DownloadFiles.IsStatusRpm)| > 0 then true
        else true
  }

  /** The answer does not depend on the files found after opening the URL. */
  lemma DirectDownloadIgnoresFiles(urls: seq<string>, initial: set<string>, current: seq<string>, failed: bool)
    ensures DirectDownload(urls, initial, current, failed) <==> SelectUrl(urls).Some? && !failed
  {
  }
}
