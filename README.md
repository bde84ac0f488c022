# Google Maps business scraper: a verified model of its core

The scraper searches Google Maps for businesses. It has two entry points, `escrape.py` and
`main33_efnt4.py`. For each listing in the results it reads the listing's name, address,
website, phone number and coordinates. It then looks for an email address on the business's
website and saves the rows under a file stem.

This project models the logic of both entry points in Dafny and proves what that logic
promises. The browser is an oracle: a function from a URL to what loading that page gives
(the body text, a failed navigation, or a failed read). Each email search returns its outcome
together with a trace of the pages it opened, navigated and closed. That makes the order of
the visits, the short-circuits and the cleanup statable.

The modules follow the program:

- `Text` holds ASCII character classes and Python's `startswith`, `rstrip(c)`, `strip()` and
  `replace(" ", "_")`.
- `EmailPattern` is a hand-written matcher for the email regex. Its specification is "leftmost
  start, longest at that start", which is what `re.findall(...)[0]` returns for this pattern.
- `UrlShape` holds `is_valid_url` and the callers' rule that prefixes `https://` to a website
  without a scheme.
- `Coordinates` holds the string split of `extract_coordinates_from_url`.
- `Filenames` holds `sanitize_filename` and the output stems of both entry points.
- `Browser` holds the page-load oracle and a `Session` class that records the event trace.
- `ContactSweep` holds the seven-path contact sweep both variants share.
- `Discovery` holds `escrape.py`'s `search_email_on_website` and
  `perform_site_specific_google_search`. The site search runs on a second tab.
- `OnePageDiscovery` holds `main33_efnt4.py`'s variant of the same two functions. It uses one
  page, has no scheme check and guards only the extraction step.
- `Scroll` holds `scroll_to_load_more`.
- `Records` holds `Business`, `BusinessList` and Python's `[:total]`.
- `Listings` holds the click and the field reads of one listing.
- `EscrapeScrape` holds `scrape_google_maps`: validation, truncation, and the per-listing loop
  as written, whose `finally` appends whatever `business` is bound to. A corrected loop, with a
  fresh record per listing, stands beside it.
- `Main33Scrape` holds `main`: the search terms, the default total, the per-listing loop that
  appends only on success, and the output stems.
- `SeqFacts` holds two generic facts about sequences: regrouping a concatenation, and the
  positions at which a sequence of flags is set, listed in increasing order.

Each imperative piece of the source is a method proved against a function. This covers:

- the contact loop;
- the scroll loop;
- both per-listing loops;
- the loop over search terms;
- the page open, visit and close steps.

Lemmas then prove the promised properties of those functions.

Three behaviours of the code are easy to misread, and the model keeps them as written:

- The field lookups of a listing are not guarded one by one. They share one `try`
  (escrape.py:332-337, main33_efnt4.py:163-167), so the first lookup that raises leaves every
  later field unset.
- A URL without `/@` still parses. `split('/@')[-1]` then gives the whole URL, and its text
  before the first `/` is split on commas (escrape.py:47-48).
- In `main33_efnt4.py` a failed navigation to the search page propagates out of
  `search_email_on_website`. The navigation sits outside the `try` (main33_efnt4.py:57-65).

## Model

| member | source | states |
|---|---|---|
| Text.RStrip | escrape.py:116 | the result is a prefix of the input with no trailing `c`, and everything cut off is `c` |
| Text.Strip | escrape.py:233 | the result neither starts nor ends with whitespace, and is the input with only whitespace cut from each end |
| Text.SpacesToUnderscores | escrape.py:254 | the length is kept; each space becomes `_` and every other character is unchanged |
| EmailPattern.MatchEndCorrect | escrape.py:52 | the matcher's end at a start is the longest match of the pattern there, and none is reported where no match starts |
| EmailPattern.ScanFromCorrect | escrape.py:54 | scanning from `i` finds the match with the leftmost start at or after `i`, longest at that start, or reports that no match starts from `i` |
| EmailPattern.ExtractEmailCorrect | escrape.py:50-55 | the extraction is `None` exactly when the text has no match of the pattern, and otherwise is the first match `findall` reports |
| EmailPattern.FirstMatchDeterminesResult | escrape.py:54-55 | the first match is unique: any leftmost-longest match is the result |
| EmailPattern.MatchIsEmailAddress | escrape.py:52 | every match, cut out of its text, is an address of the pattern's shape |
| EmailPattern.ExtractedIsEmailAddress | main33_efnt4.py:47-52 | whatever the extraction returns has the pattern's shape |
| EmailPattern.NoAtNoEmail | main33_efnt4.py:49-52 | a text without `@` yields no email |
| EmailPattern.WholeAddressFound | escrape.py:52-55 | any text that is exactly one address of the pattern's shape yields the whole text |
| Browser.PageEmailIsAddress | main33_efnt4.py:47-52 | an email read from a page comes from a page whose body loaded, and has the pattern's shape |
| Browser.Session.OpenPage | escrape.py:96 | opening a tab appends exactly that event to the trace |
| Browser.Session.Visit | escrape.py:105-107 | a visit returns what the oracle gives for the URL and appends exactly that navigation to the trace |
| Browser.Session.ClosePage | escrape.py:134-135 | closing a tab appends exactly that event to the trace |
| UrlShape.HostStartsAtCorrect | escrape.py:139 | checking the dot at the end of the label run decides whether any `label.tld` host starts at that position |
| UrlShape.MatchesFromCorrect | escrape.py:139-140 | trying the prefix alternatives in order succeeds exactly when some alternative is followed by a host |
| UrlShape.IsValidUrlCorrect | escrape.py:137-140 | `is_valid_url` is true exactly when one of `http://www.`, `https://www.`, `http://`, `https://` or nothing starts the string and is followed by a label, a dot and two letters |
| UrlShape.ValidUrlHasNoEndAnchor | escrape.py:139 | anything appended to a valid URL leaves it valid |
| UrlShape.NormalizeWebsite | escrape.py:344-345 | the result always has a scheme; a website with one is unchanged, and one without gets `https://` in front |
| UrlShape.NormalizeIdempotent | main33_efnt4.py:174-175 | prefixing a second time changes nothing |
| UrlShape.NormalizedBareHostIsValid | escrape.py:344-350 | a website starting with a bare `label.tld` host passes the URL check after the prefix rule |
| UrlShape.BareHostPasses | main33_efnt4.py:105-108 | `example.com` passes |
| UrlShape.HttpHostPasses | escrape.py:137-140 | `http://example.com` passes |
| UrlShape.HttpsWwwHostPasses | escrape.py:137-140 | `https://www.example.co.uk` passes |
| UrlShape.NotApplicableFails | escrape.py:137-140 | `N/A` fails |
| UrlShape.EmptyFails | main33_efnt4.py:105-108 | the empty string fails |
| UrlShape.WordsFail | main33_efnt4.py:105-108 | `not a url` fails |
| UrlShape.NormalizedNotApplicableFails | main33_efnt4.py:172-180 | `N/A` still fails after the `https://` prefix, so no email search runs for it |
| Coordinates.SegmentStart | escrape.py:47 | the position found follows a `/@` (or is 0) and no `/@` starts between it and the end |
| Coordinates.AfterLastMarker | escrape.py:47 | the last piece of `split('/@')` is a suffix of the URL without `/@`, preceded by a `/@` unless it is the whole URL |
| Coordinates.BeforeFirst | escrape.py:47 | the first piece of `split(c)` is a prefix without `c`, cut just before the first `c` |
| Coordinates.CommaFields | escrape.py:48 | the two comma fields exist exactly when the segment has a comma, and neither contains a comma |
| Coordinates.CommaFieldsSplit | main33_efnt4.py:45 | the fields are the text before the first comma and the text from there to the next comma or the end |
| Coordinates.AfterLastMarkerOf | escrape.py:47 | whatever precedes the last `/@` is ignored |
| Coordinates.PlaceSegmentOf | escrape.py:47 | the place segment of `.../@body` is `body` when followed by `/` or nothing, and extends to the next `/` when followed by `,` |
| Coordinates.CommaFieldsOf | escrape.py:48 | `lat,lon` followed by nothing or by `,...` gives exactly `lat` and `lon` |
| Coordinates.PlaceUrlFields | escrape.py:46-48 | a place URL `.../@lat,lon` followed by `/...`, `,...` or nothing yields exactly its embedded latitude and longitude fields |
| Coordinates.NoMarkerStillSplits | main33_efnt4.py:43-45 | a URL without `/@` is not rejected: a bare `lat,lon` still yields two fields |
| Filenames.KeepFilenameChars | escrape.py:233 | only letters, digits, space, `_` and `-` are kept, each as often as it occurs in the input |
| Filenames.KeepOneChar | escrape.py:233 | one character is kept exactly when it is a filename character |
| Filenames.KeepFilenameCharsAppend | escrape.py:233 | the filter keeps the input's order: filtering a concatenation concatenates the filtered parts |
| Filenames.SanitizeFilename | escrape.py:232-233 | the result holds only filename characters, has no space at either end, and is the kept characters with only whitespace cut from their ends |
| Filenames.KeepAllKept | escrape.py:233 | a string of filename characters passes the filter unchanged |
| Filenames.StripUntrimmed | escrape.py:233 | stripping a string without whitespace at its ends changes nothing |
| Filenames.SanitizeIdempotent | escrape.py:232-233 | sanitizing twice is the same as sanitizing once |
| Filenames.SuburbStem | escrape.py:375-376 | the stem made from `{suburb}_{state}` holds only letters, digits, `_` and `-` |
| Filenames.SearchTermStemShape | main33_efnt4.py:192-193 | the stem starts with `google_maps_data_`, has no space, and keeps every other character of the stripped term |
| Filenames.SearchTermStemKeepsSlash | main33_efnt4.py:192-193 | a `/` in the term survives into the stem, since nothing is sanitized |
| ContactSweep.ContactUrlIgnoresTrailingSlash | escrape.py:116 | a trailing slash on the website does not change a contact URL |
| ContactSweep.ContactUrlShape | escrape.py:116 | a contact URL is the website without its trailing slashes, followed by the path |
| ContactSweep.SweepFrom | escrape.py:113-125 | the sweep makes at most one visit per remaining path |
| ContactSweep.SweepVisitsInOrder | escrape.py:113-118 | the sweep's visits are the contact URLs of the paths, in the paths' order |
| ContactSweep.SweepStopsAtFirstEmail | escrape.py:119-125 | every page before the last one visited yielded nothing, including pages that failed; an email comes from the last page; no email means every path was visited |
| ContactSweep.SweepFacts | main33_efnt4.py:83-95 | the sweep over all paths visits a prefix of the contact URLs in order and stops at the first page with an email |
| ContactSweep.SweepContactPaths | escrape.py:113-125 | the loop returns the sweep's email and appends exactly the sweep's visits to the trace |
| Discovery.PerformSiteSearch | escrape.py:57-90 | the site search returns the search function's email and trace: nothing without a scheme, and no email on any failure |
| Discovery.SweepThenSearch | escrape.py:113-132 | the sweep runs, then the search on its own tab when the sweep found nothing, as the run function says |
| Discovery.AfterHomePage | escrape.py:107-132 | after the home page, the outcome and trace are those of the specification |
| Discovery.SearchEmailOnWebsite | escrape.py:94-135 | `search_email_on_website` returns the specified outcome and leaves exactly the specified trace |
| Discovery.HomeEmailShortCircuits | escrape.py:105-110 | an email on the home page is returned; no contact path is visited and no search tab is opened |
| Discovery.HomeFailurePropagates | escrape.py:99-135 | a home page that fails raises; nothing else is visited, and the site tab is still closed |
| Discovery.DiscoverTrace | escrape.py:96-135 | the trace opens the site tab, navigates it to the website, and ends by closing the site tab |
| Discovery.SweepThenSearchTrace | escrape.py:113-132 | after the home page comes the sweep, then, only when it found nothing, the search tab opened, used and closed |
| Discovery.DiscoverNavs | escrape.py:94-135 | the URLs visited are the website alone, or the website and the sweep, or these followed by the search URL, by case |
| Discovery.SiteSearchNavs | escrape.py:63-70 | the site search visits its search URL only when the website has a scheme |
| Discovery.SweptUrls | escrape.py:113-130 | once the sweep is reached, the visits are the website, then contact URLs in path order, then the search URL only if the website has a scheme |
| Discovery.SweptNavs | escrape.py:113-130 | once the sweep is reached, the URLs visited are the website, the sweep's URLs and the search's URLs, in that order |
| Discovery.DiscoveryVisitsInOrder | escrape.py:99-132 | the order is the website, then contact URLs in path order, then at most the search URL, each stage only when the ones before found nothing |
| Discovery.FirstSuccessWins | escrape.py:107-125 | every page visited before the last one gave nothing; an email found comes from the last page visited; a failed home page raises |
| Discovery.SearchTabOpened | escrape.py:127-131 | the search tab is opened exactly when the home page loaded without an email and the sweep found nothing |
| Discovery.SearchAfterEmptySweep | escrape.py:113-130 | once the search tab is open, the home page and all seven contact pages gave nothing |
| Discovery.EmptySweepSearches | escrape.py:113-132 | a loaded home page and contact pages that all gave nothing lead to the search |
| Discovery.SearchOnlyAfterSweep | escrape.py:127-132 | the search runs only after the sweep found nothing, and its email is returned unchanged |
| Discovery.TabsClosed | escrape.py:129-135 | the site tab is opened first and closed last, and the search tab, when opened, is closed again |
| Discovery.FoundIsEmailAddress | escrape.py:107-132 | an email found at any stage has the pattern's shape |
| Discovery.SearchNeedsScheme | escrape.py:63-65 | for a website without a scheme the site search returns nothing and visits nothing |
| OnePageDiscovery.SearchOutcome | main33_efnt4.py:54-65 | a failed navigation to the search page raises, a failed read gives `None`, and a loaded page gives its email |
| OnePageDiscovery.SearchOnPage | main33_efnt4.py:54-65 | the search navigates the site tab once to the search URL and returns the outcome above |
| OnePageDiscovery.SweepThenSearchOnTab | main33_efnt4.py:83-100 | the sweep, then the search on the same tab when the sweep found nothing, as the run function says |
| OnePageDiscovery.AfterHomePage | main33_efnt4.py:75-100 | after the home page, the outcome and trace are those of the specification |
| OnePageDiscovery.SearchEmailOnWebsite | main33_efnt4.py:67-103 | this variant returns the specified outcome and leaves exactly the specified trace |
| OnePageDiscovery.AfterHomeNavigatesSiteTab | main33_efnt4.py:75-100 | between the home page and the close, only the site tab is navigated |
| OnePageDiscovery.SingleTab | main33_efnt4.py:69-103 | everything happens on one tab, opened first and closed last |
| OnePageDiscovery.VariantsAgree | main33_efnt4.py:54-103 | for a website with a scheme both variants visit the same URLs; their outcomes agree except when this variant raises on the search navigation |
| Scroll.ScrollStep | escrape.py:172-219 | a pass that scrolls is followed by the rest of the loop, and any other pass is the last |
| Scroll.ScrollShape | escrape.py:165-219 | only the last pass may end without scrolling; ending on a scroll means the budget ran out or a count raised; a found panel is never reported missing |
| Scroll.ScrollStopsAtTarget | escrape.py:178-180 | a count at or above the target ends the loop as reached, and every earlier count is below it |
| Scroll.ScrollRechecksOnStall | escrape.py:183-192 | a count is taken again exactly when it is below the target and equals `previous_count` |
| Scroll.StallEndsOnRecheck | escrape.py:183-189 | the loop stops as stalled exactly when the last pass's re-count equals `previous_count` |
| Scroll.ScrollWithinBudget | escrape.py:172-219 | at most `max_scrolls` scrolls are done, and the loop ends by exhausting the budget only after using all of it |
| Scroll.ScrollToLoadMore | escrape.py:142-229 | the loop with its variables ends as the specification function says, with the same passes |
| Scroll.ScrollLoadRules | escrape.py:165-229 | from the start state: a missing panel stops at once, the budget holds, the target stops the loop, and each stall gets exactly one re-check |
| Scroll.RecheckAtTargetStillScrolls | escrape.py:183-192 | a re-count that reaches the target is not compared with it, so the loop scrolls once more |
| Records.BusinessList.constructor | escrape.py:25-27 | a new list holds no records |
| Records.BusinessList.Append | escrape.py:370 | appending adds exactly that record at the end |
| Records.Slice | escrape.py:320 | `[:total]` is a prefix of the listings: at most `total` long, or all but the last `-total` when `total` is negative |
| Records.SliceAtMostTotal | main33_efnt4.py:150 | at most `total` listings are processed, and none when `total` is zero |
| Listings.ReadDetailsFacts | escrape.py:332-337 | each field is set exactly when every lookup before it and its own succeeded, to the value read; the coordinates are set exactly when all reads succeed |
| Listings.NameFailureLeavesAllUnset | main33_efnt4.py:162-167 | a name lookup that raises leaves every field of the record unset |
| EscrapeScrape.WebsiteStepFacts | escrape.py:342-365 | the website step sets an email only when the website, given its scheme, passed the URL check and the search found that address; everything else stays as read |
| EscrapeScrape.EmailOnlyFromValidSite | escrape.py:342-362 | a record carries an email only when its website, given its scheme, passed the URL check and the email search returned that address |
| EscrapeScrape.RecordedEmailIsAddress | escrape.py:362 | with the scraper's email search, a recorded email has the pattern's shape |
| EscrapeScrape.RaisedSearchKeepsDetails | escrape.py:332-370 | a listing whose website step raised keeps everything it read, with its website given a scheme |
| EscrapeScrape.CollectedOnePerListing | escrape.py:327-370 | with the corrected loop (a fresh record per listing) there is exactly one record per listing, the k-th being the k-th listing's |
| EscrapeScrape.TryListing | escrape.py:328-370 | one listing's `try`/`finally`: `business` is rebound only after a successful click, then appended; an unbound `business` raises and appends nothing |
| EscrapeScrape.CollectListings | escrape.py:327-370 | the loop as written raises exactly when the specification function fails, appending nothing then, and otherwise appends exactly the records it lists |
| EscrapeScrape.AsWrittenFailure | escrape.py:327-370 | the loop as written raises exactly when the first listing's click fails while `business` is still unbound |
| EscrapeScrape.AsWrittenShape | escrape.py:327-370 | when the loop as written does not raise, there is one record per listing; a listing that clicked has its own record, and one whose click failed repeats the record before it |
| EscrapeScrape.StaleRecordAppendedAgain | escrape.py:327-370 | as written, a listing whose click fails gets the previous listing's record appended again |
| EscrapeScrape.FailedClickRepeats | escrape.py:329-370 | as written, a failed click appends the last bound record, where the corrected loop appends an empty one |
| EscrapeScrape.FirstClickFailureRaises | escrape.py:327-370 | as written, a failed click on the first listing raises out of the loop |
| EscrapeScrape.AsWrittenAgreesWhenClicksSucceed | escrape.py:327-370 | when every click succeeds, the loop as written and the corrected loop give the same records |
| EscrapeScrape.ProxyCheckIsPrefixCheck | escrape.py:247-248 | the proxy check accepts exactly the proxies starting with `http://`; its second half never rejects anything |
| EscrapeScrape.ScrapeGoogleMaps | escrape.py:241-376 | the call ends as the specification function says: a validation error, an abort (the loop's `UnboundLocalError` included), or the records of the loop as written saved under the stem |
| EscrapeScrape.ValidationBeforeBrowsing | escrape.py:247-250 | a bad proxy or an empty user agent ends the call before any browsing, whatever the browser would do |
| EscrapeScrape.LoopAbortsOnFirstFailedClick | escrape.py:327-376 | after validation and setup, the call aborts exactly when the first listing kept by `[:total]` fails to click |
| EscrapeScrape.SavedRecordsMatchListings | escrape.py:318-376 | a saved run has one record per listing among the first `total` loaded; the first listing clicked, each listing that clicked has its own record, each later one whose click failed repeats the record before it, and the stem has filename characters only |
| Main33Scrape.KeptRecordIsComplete | main33_efnt4.py:157-185 | a kept record has every field read, coordinates included; it carries an email only when its website, given its scheme, passed the URL check and the search found it |
| Main33Scrape.RaisingSearchDropsListing | main33_efnt4.py:180-187 | a listing whose email search raises is dropped, even though all its reads succeeded |
| Main33Scrape.KeptComesFromListings | main33_efnt4.py:157-187 | the records kept are exactly those of the listings whose `try` completes, in the listings' order: a strictly increasing list of positions holds each such listing and no other, and the j-th record is the record of the listing at its j-th position; a listing that raises loses only its own row |
| Main33Scrape.NothingDroppedWithoutFailures | main33_efnt4.py:157-187 | when no listing raises, every listing has its record, in order |
| Main33Scrape.TryListing | main33_efnt4.py:158-187 | one listing's `try` appends its record only when nothing in it raised |
| Main33Scrape.CollectCompleted | main33_efnt4.py:157-187 | the loop appends exactly the records of the listings that did not raise, in order |
| Main33Scrape.EscrapeKeepsWhatThisKeeps | main33_efnt4.py:157-187 | for a listing whose IP probe succeeds, every record this loop keeps is the record the `escrape.py` loop gives, without raising |
| Main33Scrape.SameRecordsAsEscrape | main33_efnt4.py:157-187 | when every listing's IP probe succeeds and no listing raises here, this loop keeps the records of the corrected `escrape.py` loop, and the `escrape.py` loop as written returns the same records without raising |
| Main33Scrape.EffectiveTotal | main33_efnt4.py:120 | a missing or zero total means one million; any other total is used as given |
| Main33Scrape.SearchTerms | main33_efnt4.py:119-129 | a non-empty `--search` is the one term; otherwise the lines of `input.txt` are the terms, and having none exits |
| Main33Scrape.RunFromShape | main33_efnt4.py:142-193 | files already written stay first; without a crash every remaining term adds one file; a crash comes from the hover of the first unsaved term |
| Main33Scrape.RunFromFileAt | main33_efnt4.py:142-193 | each file written is the one of the term in the same position |
| Main33Scrape.SavedInTermOrder | main33_efnt4.py:142-193 | the k-th file saved is the k-th term's |
| Main33Scrape.TermFileWithinTotal | main33_efnt4.py:150-193 | a term's file is under that term's stem and has at most `total` rows |
| Main33Scrape.SavedFilesAreTermFiles | main33_efnt4.py:142-193 | the k-th file `main` saves is under the k-th term's stem, with the kept records of the first `total` listings loaded for that term |
| Main33Scrape.SearchTerm | main33_efnt4.py:149-193 | one term's search saves the kept records of the first `total` listings under the term's stem |
| Main33Scrape.RunSearches | main33_efnt4.py:142-193 | the loop over the terms saves the files the specification function lists and stops at the first failed hover |
| Main33Scrape.RunMain | main33_efnt4.py:113-195 | `main` picks the terms and the total, then runs the searches as the specification function says |
| Main33Scrape.SearchArgumentWins | main33_efnt4.py:119-129 | with a non-empty `--search`, `input.txt` is ignored; the single file saved is that term's, exactly when its hover succeeds |

## Left out

- Playwright is not modelled: browser launch, contexts, locators, `wait_for_*` and the JavaScript scroll and panel scripts. Each becomes an oracle answer (a page load, a count, a flag).
- Timeouts and sleeps are left out. They only affect timing.
- The float conversion of the coordinates is left out, because floating point is out of scope. The two fields are kept as text. The `Listing` oracle says whether `float()` accepts both.
- Writing Excel and CSV files through pandas, and creating the `output` directory, are left out as file I/O. The model returns the stem and the rows that would be saved.
- The random viewport sizes and the random user agent are left out. They have no logic to state.
- `main_uat1.py` is not part of this model. It is a driver that reads configuration files and calls `scrape_google_maps`.
- Argument parsing and the reading of `input.txt` are left out as I/O. The `--search` and `--total` values and the file's lines are parameters of `Main33Scrape.MainRun`.
- All `print` logging is left out, including the final count check after the scroll loop (escrape.py:221-226), which only prints.
- The Google Maps query string and the search-box typing are left out. Each is a single browser action, folded into the `MapsSession` and `ResultsPage` oracles.
- The maps page and IP check before the first search in `escrape.py` are folded into `MapsSession.setupOk`. `main33_efnt4.py`'s initial navigation is likewise not modelled.
- The IP probe on the local browser before each email search in `escrape.py` becomes the listing's `probeOk` flag. The local context is left open when the probe or the search raises, and that leak is not modelled.
- Scroll.ScrollToLoadMore: a pass cut short by an exception is not recorded in the returned passes. The loop's end is reported as `Crashed`.
- The number of listings loaded is a separate oracle answer. The model does not link it to the counts the scroll loop saw.
- Filenames.SanitizeFilename keeps only ASCII letters and digits. Python's `isalnum` also keeps other Unicode letters and digits.

## Findings

| source | as written | input that shows it | evidently intended | confidence | as-written member | corrected member |
|---|---|---|---|---|---|---|
| escrape.py:327-370 | `business` is bound only after `listing.click()` succeeds, and `finally` appends whatever `business` holds | a first listing that clicks, then a second whose click raises: the first record is appended twice; a failed click on the very first listing raises `UnboundLocalError` out of the loop | one fresh record per listing, appended whether or not its extraction raised | not executed | EscrapeScrape.StaleRecordAppendedAgain | EscrapeScrape.CollectedOnePerListing |

`EscrapeScrape.Scrape` and `EscrapeScrape.ScrapeGoogleMaps` keep the loop as written, so the end-to-end model of `scrape_google_maps` shows the repeated records and the abort. The corrected loop is `EscrapeScrape.Collected`; `EscrapeScrape.AsWrittenAgreesWhenClicksSucceed` shows the two agree whenever every click succeeds.
