# OneNote export probes and Citrix downloader, modelled in Dafny

The repository holds two groups of scripts.

The first group is Python scripts that probe Microsoft Graph for OneNote notebooks. They find notebooks by name and across SharePoint sites. They walk notebooks down to sections and pages, sample page content, and count notebooks. They try alternative routes when an endpoint is rate-limited. The model covers the decision logic of these scripts:

- paging over `@odata.nextLink` (section 4.5.5 of OData JSON Format Version 4.01);
- which items are kept, in which order, and under which names and tags;
- how a failing request is isolated;
- when a fallback chain stops;
- how the success and failure tallies add up.

Every Graph request is an input function, `get: string -> Reply`, keyed by endpoint. Its reply is `Ok(body)` for a 200 response and `Fail(message)` otherwise.

The second group is the Citrix Workspace downloader, `extras/auto-download-citrix.js`, with its later variant `extras/temp/auto-download-citrix.js`. The model covers:

- which browser executable is chosen;
- how `.rpm` links in the page are normalised;
- which URL the direct download opens;
- the order in which the download methods are tried;
- the download-directory monitor, ticked every 500 ms, which reports finished Citrix RPMs, follows a partial download, and gives up after 240 checks without progress.

The later variant adds:

- a search for an RPM already in the directory, which ends the run with status 0;
- completion of a partial download whose size has been stable for six checks near the expected size;
- completion of a package that is downloaded under its final name;
- `process.exit(1)` after a stall.

Its browser search, link extraction and URL selection are the same as in the first script, and `DownloadFiles`, `Browser` and `DownloadUrls` model both.

Each monitor is a `class` whose fields are the closure variables of `monitorDownloads`. Its `Tick` method is one call of `checkForNewFiles`, and it is proved equal to a pure `Step` function on a `State` datatype. The invariants and the stall and completion rules are lemmas about `Step`. A directory listing, a file's size or modification time, and the clock are inputs to each check.

Modules: `Base` and `Text` (generic list and string operations), `Graph` (the JSON fields and replies), `Paginator`, `Discovery`, `Walk`, `Specific`, `NotebookCount`, `Compose`, `Emil`, `Workarounds` (the OneNote scripts), and `Browser`, `DownloadFiles`, `DownloadUrls`, `AttemptChain`, `RpmMonitor`, `TempMonitor`, `ExistingRpm` (the downloader).

## Model

| member | source | states |
|---|---|---|
| Paginator.Requested | test_onenote_access_detailed.py:107-118 | The paginator requests at most `max_pages` URLs, starting with the endpoint's URL. |
| Paginator.CollectAll | test_onenote_access_detailed.py:96-135 | The paging loop returns what `Follow` defines, and it requests at most `max_pages` pages. |
| Paginator.FollowCharacterised | test_onenote_access_detailed.py:107-130 | Paging succeeds exactly when every requested page answered 200. On success, `value` is the in-order concatenation of the pages' `value` lists and `total_pages` is the number of pages fetched. On failure, the error is the last page's, and the items gathered so far are dropped. |
| Paginator.StopsOnlyWithoutNextLink | test_onenote_access_detailed.py:107-123 | Paging ends before the cap, without an error, only at a page that has no `@odata.nextLink`. |
| Paginator.EndlessLinksStopAtCap | test_onenote_access_detailed.py:107-135 | With next links that never run out, exactly `max_pages` pages are fetched and the result is still a success with `total_pages == max_pages`. |
| Discovery.OneNoteItems | test_onenote_access_detailed.py:294-299 | The loop keeps exactly the items whose MIME type is a OneNote type, in order. |
| Discovery.TagDriveFinds | test_onenote_access_detailed.py:303-317 | The loop builds one record per kept item, in order. |
| Discovery.SearchDrive | test_onenote_access_detailed.py:261-335 | The drive search returns the records of the three queries, concatenated in query order. |
| Discovery.DriveFindsExact | test_onenote_access_detailed.py:295-317 | An item is recorded exactly when its MIME type is a OneNote type. A search yields as many records as it has OneNote items. |
| Discovery.DriveFindsTagged | test_onenote_access_detailed.py:312-317 | Every record of the drive search has a OneNote MIME type and the source tag `drive_search`. |
| Discovery.SearchAllTagged | test_onenote_access_detailed.py:282-317 | Every drive-search record has a OneNote MIME type and the source `drive_search`. |
| Discovery.SearchFailureIsolated | test_onenote_access_detailed.py:287-333 | A query whose paginated search fails adds nothing, and the records of the other queries are unchanged. |
| Discovery.RecentOneNoteFiles | test_onenote_access_detailed.py:339-373 | The recent-files scan returns the keyword-matching items of `/me/insights/used`, in order, or nothing when the request fails. |
| Discovery.RecentFindsExact | test_onenote_access_detailed.py:346-373 | Each record has a OneNote keyword in its lower-cased name or URL and the source `recent_files`. Every matching item is recorded, and a failed reply yields no record. |
| Discovery.RecentKeywordIgnoresCase | test_onenote_access_detailed.py:354-358 | The name falls back from `displayName`, and the keyword test ignores case: `Project.ONE` is found. |
| Walk.EndpointsFollowSite | test_onenote_access_detailed.py:447-505 | The sections, pages and content endpoints all go to `/sites/{site_id}/onenote/` when a site id is set, and to `/me/onenote/` otherwise. |
| Walk.WalkSectionsAppend | test_onenote_access_detailed.py:459-482 | The walk over two runs of sections is the concatenation of the two walks, so each section's pages stay in section order. |
| Walk.SectionFailureSkipped | test_onenote_access_detailed.py:461-483 | A section without an id, or whose page listing fails, adds no page and leaves the pages of its siblings unchanged. |
| Walk.WalkProvenance | test_onenote_access_detailed.py:459-482 | Every page record comes from a listed section with an id whose pages were listed. It carries that section's name and id and the walk's site id. |
| Walk.WalkComplete | test_onenote_access_detailed.py:459-482 | Every page of every listed section that has an id and whose pages were listed is in the walk. |
| Walk.TagPages | test_onenote_access_detailed.py:476-482 | The inner loop builds one record per page of a section, in listing order. |
| Walk.AllPagesFromNotebook | test_onenote_access_detailed.py:442-488 | `get_all_pages_from_notebook` returns the walk over the listed sections with no error. When the sections reply is an error or an empty object it returns no page and the reply's error, which is `None` for an empty object. |
| Walk.TestPageContent | test_onenote_access_detailed.py:490-533 | A page counts as readable exactly when its content request succeeded, and then `content_length` is that content's positive length. Otherwise the record carries the request's error. The notebook, section and site labels are copied, and the type is `sharepoint` exactly when a site id is set. |
| Walk.ProbeSample | test_onenote_access_detailed.py:568-573 | The loop over the sampled pages sends each readable result to `accessible` and each unreadable one to `failed`, in sample order. |
| Walk.SampleEffectPartition | test_onenote_access_detailed.py:560-573 | For a non-empty notebook, a sample of `min(5, n)` distinct pages is tested. Every tested page lands in exactly one of `accessible` and `failed`, and the kind of result matches the list. |
| Walk.PagesEffectBalanced | test_onenote_access_detailed.py:557-573 | Every listed page is counted as found. At most five and at least one of them are tested, and each tested page is recorded once. |
| Walk.PersonalEffectBalanced | test_onenote_access_detailed.py:537-573 | A personal notebook keeps the counts balanced and never adds a listing failure. It is restricted exactly when its listing error mentions `5,000`. |
| Walk.SiteEffectBalanced | test_onenote_access_detailed.py:577-616 | A site notebook keeps the counts balanced and is never restricted. It adds a listing failure exactly when it has an id and a site id and its listing returned an error. |
| Walk.ContentTally.constructor | test_onenote_access_detailed.py:433-440 | `content_results` starts with empty lists and zero counters, which satisfies the tally invariant. |
| Walk.ContentTally.RecordPages | test_onenote_access_detailed.py:557-573 | The found and tested counters grow by the notebook's page count and sample size. The lists grow by the sample's readable and unreadable results. |
| Walk.ContentTally.TestPersonalNotebook | test_onenote_access_detailed.py:537-573 | One personal-notebook iteration adds exactly that notebook's effect to every list and counter, and keeps the tally invariant. |
| Walk.ContentTally.TestSiteNotebook | test_onenote_access_detailed.py:577-616 | One site-notebook iteration adds exactly that notebook's effect and keeps the tally invariant. |
| Walk.ContentTally.TestAll | test_onenote_access_detailed.py:535-616 | The two loops, personal notebooks first and then site notebooks, count every notebook once. Each list grows by exactly the records of every notebook in loop order, and each counter by their counts, with the `k`-th notebook tested using the `k`-th draw. The tally invariant is kept. |
| Walk.ContentTally.TestPersonalNotebooks | test_onenote_access_detailed.py:535-573 | The personal loop adds the effects of its notebooks in order, one draw per notebook, and keeps the tally invariant. |
| Walk.ContentTally.TestSiteNotebooks | test_onenote_access_detailed.py:575-616 | The site loop adds the effects of its notebooks in order, one draw per notebook, and keeps the tally invariant. |
| Walk.Draw | test_onenote_access_detailed.py:563 | Each notebook's draws form a valid sampler: `min(5, n)` distinct pages in range for every page count `n`. |
| Walk.SumBalanced | test_onenote_access_detailed.py:535-616 | Over any run of notebooks, at most as many pages are tested as found and at most five per notebook. Some page is tested whenever one was found, and every tested page is accessible or a page failure. |
| Walk.EffectsBalanced | test_onenote_access_detailed.py:535-616 | Over both loops, the pages tested are at most those found and at most five per notebook, every tested page is accessible or a page failure, and only personal notebooks are ever recorded as restricted. |
| Walk.ContentTally.SuccessRate | test_onenote_access_detailed.py:635-636 | The success rate is reported exactly when some page was found. It is then well defined and between 0 and 100 percent. |
| Specific.Values | test_specific_notebooks.py:31-36 | The values `parse_qs` yields for a key are exactly the non-blank values given for that key, in query order. |
| Specific.ValuesCompleteInOrder | test_specific_notebooks.py:34-35 | No non-blank value of the key is lost, and `[0]` is the value of the earliest such pair in the query. |
| Specific.SourcedocHasNoBraces | test_specific_notebooks.py:33-38 | The sourcedoc id has no `{` or `}` left after the four removals, and it is never longer than the raw value. |
| Specific.SitesGroupShape | test_specific_notebooks.py:46-47 | The `/sites/([^/_]+)` group is non-empty and free of `/` and `_`. It starts at the leftmost match and runs greedily to the end of the URL or to the next `/` or `_`. Without a group, no position matches the pattern. |
| Specific.RunEnd | test_specific_notebooks.py:46-47 | The greedy `[^/_]+` run stops at the end of the URL or at the first `/` or `_`, and every character before that stop belongs to the run. |
| Specific.SitePathMatchesType | test_specific_notebooks.py:40-50 | A URL is `personal` exactly when it gets the fixed personal path, a `site` URL gets `sites/<segment>` or `unknown`, and any other URL gets `unknown`. A personal marker wins over a site marker. |
| Specific.ExtractNotebookInfo | test_specific_notebooks.py:17-67 | The URL loop yields exactly one record per URL, in input order, each parsed from its own URL. |
| Specific.PersonalScan | test_specific_notebooks.py:143-148 | With a sourcedoc id, the personal loop finds the first notebook whose id contains it, ignoring case. Without one, `None.lower()` raises at the first notebook, so only an empty list gets through. |
| Specific.SiteNotebookScan | test_specific_notebooks.py:206-213 | With a sourcedoc id, the site loop finds the first notebook whose name contains the file name or whose id contains the sourcedoc id, ignoring case. Without one, the first notebook either matches by name or raises. |
| Specific.LastSegment | test_specific_notebooks.py:179 | `split('/')[-1]` returns a suffix of the path with no `/`, preceded by a `/` unless it is the whole path. |
| Specific.FindPersonalNotebook | test_specific_notebooks.py:143-148 | The `for … break` loop over personal notebooks gives the result `PersonalScan` defines. |
| Specific.FindSiteNotebook | test_specific_notebooks.py:206-213 | The `for … break` loop over site notebooks gives the result `SiteNotebookScan` defines. |
| Specific.FindFollowedSite | test_specific_notebooks.py:188-191 | The loop over followed sites returns the first site whose display name or name contains the site name, ignoring case, or none. |
| Specific.TestNotebookAccessById | test_specific_notebooks.py:128-254 | The access test answers what `AccessSpec` decides, with the loops replaced by the searches proved equal to the scans. The section listing after a match does not change the answer. |
| Specific.AccessSpecCharacterised | test_specific_notebooks.py:135-254 | An unknown site type or a failed notebook or followed-site listing gives no access. Only a missing sourcedoc id can raise. A personal notebook opens exactly when the listing succeeded and the first notebook whose id contains the sourcedoc id is truthy. A site notebook opens exactly when the first matching followed site is truthy, its notebook listing succeeded, and the first notebook matching by name or id is truthy. Without a sourcedoc id, it raises exactly when the listing reached has a first notebook that does not match by name. |
| Specific.PartitionCompletes | test_specific_notebooks.py:278-283 | The run over all notebooks completes exactly when no attempt raised. |
| Specific.PartitionSplits | test_specific_notebooks.py:275-307 | In a completed run every notebook lands in exactly one of `successful` and `failed`, as a multiset, according to its own verdict. |
| Specific.PartitionAbortsForever | test_specific_notebooks.py:275-283 | Once an attempt has raised, the run over all notebooks has aborted, whatever the later verdicts are. |
| Specific.RunAll | test_specific_notebooks.py:256-307 | `main` tries every notebook in order and builds the two lists from the attempts' verdicts, or ends at the first attempt that raises. |
| Specific.PartitionStep | test_specific_notebooks.py:256-307 | One more attempt either ends the run, when it raised, or adds its notebook to the successful or the failed list according to its verdict. |
| NotebookCount.RecordedCount | final_notebook_count.py:66-72 | The number of listed notebooks recorded before a `KeyError` is at most the length of the listing. |
| NotebookCount.ListDirect | final_notebook_count.py:62-77 | Method 1's loop records the listed notebooks in order and stops at the first one missing `id` or `displayName`, keeping the records made before it. |
| NotebookCount.DirectEntriesSpec | final_notebook_count.py:66-72 | The direct records are the listed notebooks up to the first malformed one, each with source `direct`, its own id and name, and a section count exactly when the listing carries `sections`. |
| NotebookCount.AddHitNames | final_notebook_count.py:98-101 | The innermost loop adds, for each hit named `*.one`, that name with `.one` removed. |
| NotebookCount.AddResultNames | final_notebook_count.py:97-101 | The middle loop adds the names of the hits of every hits container of a result. |
| NotebookCount.CollectSearchNames | final_notebook_count.py:95-101 | The three nested loops collect `SearchNames`: the names of all `.one` hits of the reply. |
| NotebookCount.SearchNamesExact | final_notebook_count.py:95-101 | A name is collected exactly when some hit's name ends with `.one` and the name is that hit's name with every `.one` removed. |
| NotebookCount.InnerOccurrenceRemoved | final_notebook_count.py:101 | `replace('.one', '')` removes every occurrence: `My.onenote.one` is collected as `Mynote`. |
| NotebookCount.SortNames | final_notebook_count.py:104 | `sorted(drive_notebooks)` lists each collected name once, in strictly increasing order. |
| NotebookCount.MergeNames | final_notebook_count.py:104-111 | The final loop appends a `drive-search` record for each name that no record carries yet. |
| NotebookCount.MergeCharacterised | final_notebook_count.py:104-111 | With distinct names, the final loop appends, in name order, a `drive-search` record for exactly the names that no direct record carries. |
| NotebookCount.LastNameNotAdded | final_notebook_count.py:104-111 | With distinct names, a name already merged in is one that a direct record carries, since the search records added before it carry other names. |
| NotebookCount.DirectEntriesWin | final_notebook_count.py:104-111 | The direct records come first and unchanged. Each search record names a collected name that no direct record has, each such name gets a record, and the search records are in sorted name order. |
| NotebookCount.FailureIsolated | final_notebook_count.py:62-115 | A failed search leaves the direct records alone, and a failed listing leaves one search record per collected name, in sorted order. |
| NotebookCount.GetAllNotebooks | final_notebook_count.py:55-117 | `get_all_notebooks` returns the direct records followed by the merged search records. |
| Compose.AppendTermHits | test_compose_gemensam.py:67-75 | The loop over the search terms appends one record for each term that matches the notebook's name, in term order. |
| Compose.AppendListingHits | test_compose_gemensam.py:66-75 | The loop over one listing appends the records of each notebook, in listing order. |
| Compose.AppendSiteHits | test_compose_gemensam.py:96-123 | One followed site adds the records of its notebook listing, labelled `SharePoint` with the site's name, or nothing when that listing fails. |
| Compose.AppendSitesHits | test_compose_gemensam.py:95-123 | The loop over the followed sites appends the records of each site, in site order. |
| Compose.SearchNotebooksByName | test_compose_gemensam.py:49-129 | `search_notebooks_by_name` returns the personal records followed by the SharePoint records. Each failed request skips only its own part. |
| Compose.OncePerTerm | test_compose_gemensam.py:66-75 | A notebook is recorded once per matching term (twice when two terms match), each time with the same name, id and labels. |
| Compose.ListingHitsSound | test_compose_gemensam.py:66-75 | Every record is a notebook of the listing, carries the listing's labels, and has a name that some term matches case-insensitively. Every notebook that some term matches is recorded. |
| Compose.SearchOrder | test_compose_gemensam.py:56-127 | The personal records come first, then each site's records in site order. A site whose notebook listing fails adds nothing, and the sites after it are still searched. |
| Compose.SearchLabels | test_compose_gemensam.py:70-118 | Personal records are labelled `Personal`/`N/A`, and a site's records are labelled `SharePoint` with that site's name. |
| Compose.ListAllNotebookNames | test_compose_gemensam.py:131-196 | `list_all_notebook_names` returns a row per notebook of the personal listing, then a row per notebook of each followed site whose listing answered. |
| Compose.PersonalListing | test_compose_gemensam.py:145-151 | The loop over the personal listing yields one `Personal` row per notebook, in listing order, each named by the notebook's display name or the empty string. |
| Compose.SitesListing | test_compose_gemensam.py:163-182 | The loop over the followed sites yields, site by site in order, the rows of every site whose notebook listing answered; a site whose listing fails adds no row. |
| Compose.SiteListing | test_compose_gemensam.py:176-180 | One site's loop yields one row per notebook, labelled `SharePoint (<site name>)`. |
| Compose.RowsPerNotebook | test_compose_gemensam.py:147-180 | Personal and site rows correspond one-to-one to the listing's notebooks, in order, with the notebook's name and the right label. |
| Compose.DisplayIdShape | test_compose_gemensam.py:235 | The shown id is the id itself when it has at most 20 characters. Otherwise it is the first 20 characters followed by `...`, 23 characters in all. |
| Emil.SelectTarget | test_emil_specific.py:62-68 | The loop picks nothing exactly when no notebook's name contains `Emil @ Compose IT Nordic AB`. Otherwise it picks the last notebook that matches, because the loop never breaks. |
| Emil.TestRateLimitedExport | test_emil_specific.py:13-138 | The chain of early returns yields the outcome of the reference run `EmilRun`. A site that answers without an id raises. |
| Emil.ProbeNotebook | test_emil_specific.py:76-132 | The sections, pages and content probes of the chosen notebook yield the outcome of the reference `SectionStage`. |
| Emil.PassNeedsEmilAndTarget | test_emil_specific.py:22-73 | A passing run had a successful sign-in, a `/me` answer naming an `emil` account, an answered site with an id, and a target notebook in that site's listing. |
| Emil.SectionErrorsClassified | test_emil_specific.py:125-132 | A failed sections request ends the run. The run passes exactly when the error text mentions `10008` or `5,000`. |
| Emil.CodeAloneSignals | test_emil_specific.py:126 | The error code `10008` on its own, without any mention of `5,000`, counts as the rate limit. |
| Emil.OnlyFirstSectionAndPage | test_emil_specific.py:85-118 | After the listing, the run makes at most three requests: the sections, the first section's pages, and the first page's content. |
| Emil.EmilRunLocal | test_emil_specific.py:13-138 | The outcome depends only on the answers to the endpoints the run requested: two backends that agree on those endpoints give the same run. |
| Workarounds.ChainPasses | test_rate_limited_workarounds.py:39-192 | The fallback chain passes exactly when some method in it works. |
| Workarounds.ChainStops | test_rate_limited_workarounds.py:39-192 | The chain stops at the first method that works. Its requests are those of the methods up to and including that one, or of every method when none works. |
| Workarounds.FallbackOrder | test_rate_limited_workarounds.py:25-192 | A site that cannot be resolved fails the run before any method is tried. Otherwise the run passes exactly when one of the four methods works, and each method runs only after all earlier ones failed. |
| Workarounds.ChainOfFour | test_rate_limited_workarounds.py:36-192 | Four methods tried in order pass exactly when one of them works, and the requests made are those of the methods up to the first that works, or of all four when none works. |
| Workarounds.ContentNeeded | test_rate_limited_workarounds.py:48-61 | Methods 1 to 3 work only when their last request is a page-content endpoint that answered with text. |
| Workarounds.Method4Spec | test_rate_limited_workarounds.py:167-185 | Method 4 works exactly when the drive root is listed and lists an item whose lower-cased name contains `onenote` or `emil`, or whose name ends with `.one`. |
| Workarounds.SameTarget | test_rate_limited_workarounds.py:108 | Method 3's target test agrees with the one in `test_emil_specific.py`: the defaults for a missing name never contain the target name. |
| Workarounds.FindTargetNotebook | test_rate_limited_workarounds.py:105-110 | The loop with `break` finds the first notebook named as the target, or nothing. |
| Workarounds.CollectDriveMatches | test_rate_limited_workarounds.py:175-180 | The loop keeps exactly the matching drive items, in order. |
| Workarounds.TryFirstPage | test_rate_limited_workarounds.py:48-61 | The probe of the first listed page agrees with the reference `ProbeFirstPage`. An empty listing does not work. |
| Workarounds.TryListing | test_rate_limited_workarounds.py:41-67 | Methods 1 and 2 agree with the reference `ListingThenProbe`. |
| Workarounds.TryLimitedSections | test_rate_limited_workarounds.py:101-163 | Method 3 agrees with the reference `Method3`. |
| Workarounds.TryDriveRoot | test_rate_limited_workarounds.py:167-189 | Method 4 agrees with the reference `Method4`. |
| Workarounds.TestRateLimitedWorkarounds | test_rate_limited_workarounds.py:13-192 | The whole script yields the outcome of the reference run `WorkaroundsRun`. A site that answers without an id raises. |
| Browser.SearchPaths | extras/auto-download-citrix.js:106-113 | The search loop finds a path exactly when some candidate is non-empty and exists. What it returns is the first such candidate; every earlier one is absent, empty or missing. |
| Browser.FirstExistingPicksFirst | extras/auto-download-citrix.js:106-111 | The first usable candidate is returned, whatever follows it. |
| Browser.FirstExistingSpec | extras/auto-download-citrix.js:93-144 | `findChromePath`/`findFirefoxPath` answer `null` exactly when no candidate is usable. What they return is one of the candidates. |
| Browser.ExplicitBrowser | extras/auto-download-citrix.js:48-54 | With `--browser`, the search never throws. `firefox` in any letter case runs the Firefox search, and any other value runs the Chrome search. |
| Browser.ExplicitPathsFirst | extras/auto-download-citrix.js:57-65 | Without `--browser`, an existing `--chrome-path` wins. Failing that, an existing `--firefox-path` wins over any detected browser. |
| Browser.DetectionOrder | extras/auto-download-citrix.js:46-90 | Without `--browser`, `findBrowser` throws exactly when no Chrome and no Firefox candidate is usable. A usable Chrome candidate wins over Firefox unless an existing `--firefox-path` was given. |
| DownloadFiles.NewFiles | extras/auto-download-citrix.js:236 | A file is new exactly when the current listing has it and the initial listing does not. |
| DownloadFiles.InitialNames | extras/auto-download-citrix.js:163-166 | The initial set is the given list, or the directory's own listing when the list is missing or empty. |
| DownloadFiles.DownloadStatusSpec | extras/auto-download-citrix.js:656-663 | `checkDownloadStatus` is true exactly when some file absent from the initial listing ends with `.crdownload` or `.part`, or is a lower-cased `.rpm` naming `citrix` or `ica`. |
| DownloadFiles.StatusImpliesMonitor | extras/auto-download-citrix.js:239-246 | The status tests are narrower than the monitor's: a status partial is a monitor partial, and a status RPM is a completed RPM. |
| DownloadFiles.StatusSeenByMonitor | extras/auto-download-citrix.js:656-663 | When the status is true, the monitor also sees a new file that is in progress or finished. |
| DownloadFiles.StatusNarrowerThanMonitor | extras/auto-download-citrix.js:292-297 | The converse fails: a new `a.download` is in progress for the monitor but leaves the status false. |
| DownloadUrls.ExtractUrls | extras/auto-download-citrix.js:404-414 | The extraction keeps one URL per link match, in match order, each normalised. |
| DownloadUrls.Normalize | extras/auto-download-citrix.js:407-413 | A scheme-relative URL (`//…`) gets `https:` in front, and any other URL is kept unchanged. |
| DownloadUrls.ExtractedHaveScheme | extras/auto-download-citrix.js:405-413 | Every URL extracted from a match of the link pattern starts with `http`. |
| DownloadUrls.NormalizeIdempotent | extras/auto-download-citrix.js:409-412 | Normalising twice is the same as normalising once. |
| DownloadUrls.FullUrl | extras/auto-download-citrix.js:538 | The address that is opened always starts with `http`. |
| DownloadUrls.SelectUrlSpec | extras/auto-download-citrix.js:529-538 | The direct download gives up exactly when no URL contains both `ICAClient` and `.rpm`, in particular for an empty list. Otherwise it opens the first such URL with a scheme, and the opened address still names the main package. |
| DownloadUrls.FullUrlOfExtracted | extras/auto-download-citrix.js:404-414 | On extracted links the scheme fix of the selection changes nothing (the selection is at line 538). |
| DownloadUrls.DirectDownloadIgnoresFiles | extras/auto-download-citrix.js:528-570 | `downloadWithDirectUrls` answers true exactly when a main-package URL was selected and the directory listing after navigation, inside the `try`, did not throw. The new-file checks never change the answer. The earlier listing outside the `try` is taken to succeed. |
| AttemptChain.RanMethodsAppend | extras/auto-download-citrix.js:665-738 | The methods run by two consecutive stretches of the chain are those of the first stretch followed by those of the second. |
| AttemptChain.AttemptFacts | extras/auto-download-citrix.js:665-686 | `attemptDownload` runs its method exactly when its first status check says no. A run always follows a no, and a detection is always backed by a yes. |
| AttemptChain.GuardedFacts | extras/auto-download-citrix.js:698-738 | A guarded method runs only when both the guard's check and the attempt's own check say no. |
| AttemptChain.ChainShape | extras/auto-download-citrix.js:688-738 | Each method runs only right after a status check that answered no. The methods run in their fixed order, each at most once, and a detection is always backed by a check that answered yes. |
| AttemptChain.NothingSeen | extras/auto-download-citrix.js:688-738 | While no check sees a download, all four methods run in order, whether or not they throw, and nothing is marked detected. |
| AttemptChain.StopsAfterYes | extras/auto-download-citrix.js:688-738 | When a status that stays true has answered yes, no further method runs. |
| RpmMonitor.InitialValid | extras/auto-download-citrix.js:149-166 | The monitor starts with nothing seen and unresolved, and its invariant holds. |
| RpmMonitor.FreshRpmsGood | extras/auto-download-citrix.js:239-254 | A file reported by a check is a finished Citrix RPM of the current listing that is not in the initial listing and was not reported before. |
| RpmMonitor.ReportPhaseFacts | extras/auto-download-citrix.js:248-289 | The report phase keeps the invariant and the stall counter. It only adds reported names, all of them fresh RPMs. When it resolves, the result lists exactly the fresh RPMs with their sizes, 0 for a size that cannot be read. |
| RpmMonitor.TrackFacts | extras/auto-download-citrix.js:305-377 | Following a partial file keeps the invariant and the reported names. The only way it resolves is a stall with the counter at 240. |
| RpmMonitor.StepValid | extras/auto-download-citrix.js:232-393 | Every check keeps the invariant and the initial listing, and never forgets a reported name. It adds only finished RPMs that are new in this check, and it resolves as a stall only at 240. A failing listing changes nothing. |
| RpmMonitor.StallCounterRules | extras/auto-download-citrix.js:312-369 | The stall counter restarts at 0 for a new file or a growing one. It grows by one for an unchanged non-empty size measured at least 450 ms after the previous measurement, and is otherwise unchanged. The monitor stalls exactly when the counter reaches 240. |
| RpmMonitor.EstimateOnlyForIcaClient | extras/auto-download-citrix.js:321-323 | The expected total changes only to 450 MiB, and only for a partial file whose name holds `ICAClient` and `rhel` or `x86_64`. |
| RpmMonitor.QuietStep | extras/auto-download-citrix.js:334-369 | A check that sees the followed file with an unchanged non-empty size, at least 450 ms later and with no new RPM, adds exactly one to the counter. It gives up when the counter reaches 240. |
| RpmMonitor.RunValid | extras/auto-download-citrix.js:395-399 | The invariant holds after any sequence of checks. |
| RpmMonitor.QuietRunStalls | extras/auto-download-citrix.js:345-369 | A download that stops growing is given up as stalled after exactly as many quiet checks as the counter lacks from 240. |
| RpmMonitor.Monitor.constructor | extras/auto-download-citrix.js:147-166 | The closure state starts as `Initial`, with the given initial list or the directory's listing. |
| RpmMonitor.Monitor.Finish | extras/auto-download-citrix.js:202-230 | `displayCompletionMessage` clears the bar, marks the download reported and resolves with the files. |
| RpmMonitor.Monitor.ReportRpms | extras/auto-download-citrix.js:248-289 | The report phase updates the state as `ReportPhase` does. |
| RpmMonitor.Monitor.Show | extras/auto-download-citrix.js:267-287 | Fresh RPM details are stored as pending; with the bar shown and no completion pending, the total is raised to the first file's size and the completion resolves the promise; without a bar it resolves at once; otherwise only the details are stored. |
| RpmMonitor.Monitor.StartFollowing | extras/auto-download-citrix.js:312-330 | Starting to follow a partial file resets the measurement as `Restart` does. |
| RpmMonitor.Monitor.CompareSize | extras/auto-download-citrix.js:334-358 | The size comparison updates the state as `Measure` does. |
| RpmMonitor.Monitor.Conclude | extras/auto-download-citrix.js:360-375 | The stall check and the near-completion note update the state as `Settle` does. |
| RpmMonitor.Monitor.Follow | extras/auto-download-citrix.js:305-377 | Following a partial file is `Restart`, then `Measure`, then `Settle`. |
| RpmMonitor.Monitor.Tick | extras/auto-download-citrix.js:232-393 | One call of `checkForNewFiles` updates the closure state as `Step` does. |
| RpmMonitor.Poll | extras/auto-download-citrix.js:395-399 | The polling loop settles as the reference `Run` does. A completion lists at least one file, and every listed file is a finished Citrix RPM absent from the initial listing. |
| TempMonitor.ExitCode | extras/temp/auto-download-citrix.js:293 | The process ends with status 0 exactly after a completion and with status 1 exactly after a stall (the `process.exit(1)` at line 427). |
| TempMonitor.StripPartialSuffixSpec | extras/temp/auto-download-citrix.js:393 | Removing the partial suffix takes off exactly one trailing `.crdownload`, `.part`, `.download` or `.incomplete`, and leaves any other name unchanged. |
| TempMonitor.StripOnlyOnce | extras/temp/auto-download-citrix.js:393 | Only one suffix is removed: `a.part.part` becomes `a.part`. |
| TempMonitor.FreshRpmsGood | extras/temp/auto-download-citrix.js:304-330 | A file reported by a check is a finished Citrix RPM of the current listing that is not in the initial listing and was not reported before. |
| TempMonitor.ReportPhaseFacts | extras/temp/auto-download-citrix.js:313-336 | The report phase keeps the invariant and the stall counter, only adds reported names, all of them fresh RPMs, and never ends in failure. |
| TempMonitor.TrackFacts | extras/temp/auto-download-citrix.js:346-431 | Following a partial file keeps the invariant and the reported names. It ends in failure only with the counter at 240. |
| TempMonitor.ScanSound | extras/temp/auto-download-citrix.js:446-488 | Watching the files without a partial suffix keeps the invariant, the stall counter, the initial listing and the reported names, and never ends in failure. |
| TempMonitor.StepSound | extras/temp/auto-download-citrix.js:297-494 | Every check keeps the invariant and the initial listing, and never forgets a reported name. It adds only finished RPMs new in this check, and it exits with status 1 only at 240 checks without progress. |
| TempMonitor.ReportOnce | extras/temp/auto-download-citrix.js:313-336 | A report ends the run with success and lists only finished RPMs of the listing that are new and not reported before. Any new finished RPM, while nothing was reported yet, marks an RPM completion. |
| TempMonitor.StableCompletion | extras/temp/auto-download-citrix.js:381-405 | A partial file is declared finished only after at least six stable checks, with a known total it has reached to 98 %. It is reported under its name without the partial suffix, at its current size. |
| TempMonitor.WatchRules | extras/temp/auto-download-citrix.js:453-483 | A file under its final name is declared finished only after six stable checks, with no RPM seen, and only for `.exe`, `.dmg`, `.zip`, `.tar.gz` or `.deb`. A new name or a growing size restarts the count, and an unchanged size adds one. |
| TempMonitor.NoScanCompletionAfterRpm | extras/temp/auto-download-citrix.js:468 | Once an RPM completion was detected, no file without a partial suffix ends the run. |
| TempMonitor.EstimateOnlyForIcaClient | extras/temp/auto-download-citrix.js:363-365 | The expected total changes only to 450 MiB, and only for a partial file whose name holds `ICAClient` and `rhel` or `x86_64`. |
| TempMonitor.RunSound | extras/temp/auto-download-citrix.js:496-503 | The invariant holds after any sequence of checks. |
| TempMonitor.Monitor.constructor | extras/temp/auto-download-citrix.js:203-228 | The closure state starts as `Initial`, with the given initial list or the directory's listing. |
| TempMonitor.Monitor.Complete | extras/temp/auto-download-citrix.js:264-294 | `displayCompletionMessage` marks the download reported and ends the process with success and the files. |
| TempMonitor.Monitor.ReportRpms | extras/temp/auto-download-citrix.js:313-336 | The report phase updates the state as `ReportPhase` does. |
| TempMonitor.Monitor.StartFollowing | extras/temp/auto-download-citrix.js:354-371 | Starting to follow a partial file resets the measurement as `Restart` does. |
| TempMonitor.Monitor.CompareSize | extras/temp/auto-download-citrix.js:373-418 | The size comparison, with its stable-size completion, updates the state as `Measure` does. |
| TempMonitor.Monitor.Follow | extras/temp/auto-download-citrix.js:346-431 | Following a partial file is `Restart`, then `Measure`, then the stall check. |
| TempMonitor.Monitor.WatchFile | extras/temp/auto-download-citrix.js:449-484 | One file without a partial suffix updates the state as `Watch` does. |
| TempMonitor.Monitor.ScanPotential | extras/temp/auto-download-citrix.js:446-488 | The loop over those files updates the state as `Scan` does, and stops at the first completion. |
| TempMonitor.Monitor.Tick | extras/temp/auto-download-citrix.js:297-494 | One call of `checkForNewFiles` updates the closure state as `Step` does. |
| TempMonitor.Poll | extras/temp/auto-download-citrix.js:496-503 | The polling loop ends as the reference `Run` does, and a success lists at least one file. |
| ExistingRpm.Mtimes | extras/temp/auto-download-citrix.js:66-78 | The times are known exactly when every candidate's time can be read, and then they are the candidates' times in order. |
| ExistingRpm.NewestIndex | extras/temp/auto-download-citrix.js:66-78 | The chosen position holds the greatest time, and every earlier position has a strictly smaller one. That is the first entry after a stable sort by decreasing time. |
| ExistingRpm.NewestUnique | extras/temp/auto-download-citrix.js:66-78 | Those two properties single out one position. |
| ExistingRpm.ExistingRpmSpec | extras/temp/auto-download-citrix.js:47-86 | `checkForExistingRpm` finds nothing exactly when the directory is missing, the listing fails, no file is a Citrix RPM, or one candidate's time cannot be read. Otherwise it returns a Citrix RPM of the listing that no candidate is newer than. |
| ExistingRpm.CandidatesExact | extras/temp/auto-download-citrix.js:58-62 | The candidates are exactly the files of the listing that are Citrix RPMs. |
| ExistingRpm.NewestCandidate | extras/temp/auto-download-citrix.js:66-78 | When every candidate's time can be read, the file picked after sorting by decreasing time is no older than any candidate. |
| ExistingRpm.ExistingIsCompleted | extras/temp/auto-download-citrix.js:58-64 | A package found at the start would also count as a finished RPM for the monitor (its test is at lines 304-311). |
| ExistingRpm.UpperCaseExtensionNotExisting | extras/temp/auto-download-citrix.js:58-64 | The converse fails: `ica.RPM` is finished for the monitor but is not an existing package, because the `.rpm` test is case-sensitive. |
| ExistingRpm.StartExitCode | extras/temp/auto-download-citrix.js:684-696 | The run stops with status 0 exactly when a package was found, and otherwise goes on to download. |
| ExistingRpm.NoDownloadWhenPresent | extras/temp/auto-download-citrix.js:684-696 | A readable directory holding a Citrix RPM whose time can be read ends the run with status 0, without a download. |

The attempt chain and `checkDownloadStatus` of `extras/temp/auto-download-citrix.js` (lines 777-859) are the same code as in the first script, and `AttemptChain` and `DownloadFiles.DownloadStatus` model both.

## Left out

- Sign-in, tokens and the HTTP transport of the OneNote scripts: `authenticate` is a boolean input, and every request is a function from endpoint to reply.
- Printing, summary tables, emoji output and JSON report files: they only show what the modelled values already hold.
- `random.sample` in the content test: a sampler function stands in for it. Its requires says what Python guarantees: distinct picks, in range, `min(5, n)` of them.
- URL parsing (`urlparse`, `parse_qs`) and percent-decoding (`unquote`): the query pairs and the decoded file name are inputs.
- Lower-casing is ASCII only. Python's and JavaScript's Unicode case mapping is not modelled.
- The regular expression of `extractDownloadUrlsFromHtml`: its matches are an input, and `IsLinkMatch` states only the start the pattern guarantees (`http:/`, `https:/` or `//`).
- `fs`, `process.exit`, `setInterval` and `setTimeout`: directory listings, sizes, modification times and the clock are inputs to each check. The 500 ms delay before the completion message is modelled as resolving at once, since no check can change the outcome in between.
- `TempMonitor.Measure`, `RpmMonitor.Measure`, `RpmMonitor.Settle`: `totalSize * 0.98` and `* 0.99` are compared in exact arithmetic (`100 * size >= 98 * total`). Double rounding is not modelled.
- The progress bar, `stableFileSize`, `stableSizeTime` and `pendingCompletionFiles` output: they are drawn or stored but decide nothing the model does not already hold.
- `path.join` and `path.resolve`: names are returned instead of full paths.
- The creation of a missing download directory (`fs.mkdirSync`) in `checkForExistingRpm`, and a file that changes between two `statSync` calls on it.
- Browser automation: `getDirectDownloadUrls`, `forceClickAllDownloadLinks`, the UI and license steps, `openManualDownload`, `safeWait`, the page navigation and the cookie banner. Whether each download method throws, and what each status check answers, are inputs of `AttemptChain`. A `checkDownloadStatus` call whose `fs.readdirSync` throws is not modelled. At the first check of an attempt, which is outside the `try`, that throw would reject `attemptDownload` and end the chain. At the second check, inside the `try`, it would count the attempt as failed.
- The keep-alive and browser-closing decisions at the end of `downloadCitrix`: they depend on the monitor's result and on the debug and headless flags, and they only print or hold the process open.
- `minimist` argument parsing: the options are a record of optional strings.
- `DownloadUrls.DirectDownload`: the directory listing taken before the `try` is taken to succeed. When it throws, `downloadWithDirectUrls` throws instead of answering `false`, and `attemptDownload` takes its catch branch without a second check.
- JSON `null` values in Graph replies: each field of `Graph.Obj` is an `Option`, so a key whose value is `null` is modelled like an absent key. The scripts treat the two differently in places, and those raise paths are not covered:
  - `notebook['id']` in `final_notebook_count.py` accepts a `null` id that `NotebookCount.Malformed` treats as a `KeyError`.
  - `.get('displayName', '')` returns `None` for a `null` name, so the `.lower()` in `test_compose_gemensam.py` raises where `Compose.NameOf` uses `''`.
  - The same holds for every `.get(key, default)` that `Emil` and `Workarounds` model with `GetOr`.
- `test_rate_limited_export.py` is not part of this model. It calls exporter methods (`get_personal_notebooks`, `get_notebook_structure`) whose code is not part of this model.
