# Hackathon scraper: merge, deduplication, adapters and Devpost scrolling

This project models `scraper_flask/flaskr/scraping.py`, the multi-source
hackathon scraper, in Dafny and proves properties of the model.

- **Merge** (`fetch_all_hackathons`). The four futures finish in some order.
  Each one either returns a list of records or raises. A returned list is
  appended to `results`. A future that raised is logged and skipped. The
  thread pool is replaced by an input: the completion order, a sequence that
  names every registered source once (`Merge.IsCompletionOrder`).
- **Deduplication**. The merged list goes through a first-occurrence filter.
  Its key is the string `f"{title}|{link}"`, and a missing field prints as
  `None`. The model builds the key exactly that way (`Records.Key`).
- **Adapters**. Devpost, Devfolio, MLH and Hackathon.com are modelled over
  abstract pages. A Devpost tile or a Hackathon.com card is a datatype with
  optional parts: a part is absent when BeautifulSoup's `find` finds nothing.
  An API body is the decoded JSON. A browser failure raises out of the
  adapter (`Adapters.Browser`). An HTTP or JSON failure is caught by the
  adapter, which then returns `[]` (`Adapters.Api`).
- **Devpost scrolling** (`_fast_scroll_devpost`). The browser is replaced by
  the sequence of `(scrollHeight, tile count)` pairs that the scroll rounds
  observe. That sequence also serves as fuel for the loop.

Each imperative loop of the source is a Dafny `method` with a loop. Its
`ensures` ties the result to a specification function: `KeepFirst`, `Merged`,
`Scroll`, `Collect`, `DevfolioAll` or `MlhRecords`. Lemmas then prove what the
source promises about those functions.

Facts about the code that the model keeps and states:

- The identity key is one concatenated string, `f"{title}|{link}"`.
  Two different title/link pairs can share a key when a title contains `|`
  (`Records.BarInTitleCollides`). A missing title and the text `"None"` also
  share a key (`Records.MissingTitleCollidesWithNoneText`). The key is
  injective only for titles without a bar (`Records.KeyInjectiveWithoutBar`).
- Links are not always absolute. Only links that begin with `/` get a host.
  MLH's `event_link` is kept as it is, and it may be missing.
- Titles may be empty (the text of an empty tag), or `None` (MLH `name`,
  Devfolio `null`).
- Each HTTP request has `timeout=20` and the Devpost page wait has a 10-second
  limit, but `fetch_all_hackathons` sets no deadline on any future, and
  Devpost's scroll loop has no bound on its rounds. The only limit on
  concurrency is `max_workers=4`. The result carries no per-source outcome and no count
  of dropped duplicates. A Devfolio or MLH failure returns `[]`, which looks
  the same as a source that found nothing.

## Model

| member | source | states |
|---|---|---|
| Records.ShowAgreesOnlyForNone | scraper_flask/flaskr/scraping.py:226 | Two optional texts render alike in the f-string exactly when they are equal, or are a missing value and the text "None" |
| Records.Key | scraper_flask/flaskr/scraping.py:226 | The key is the rendered title, a bar, then the rendered link; it has no contract of its own, and its meaning is stated by KeyRoundTrip, KeyInjectiveWithoutBar and the two collision lemmas |
| Records.SplitKey | scraper_flask/flaskr/scraping.py:226 | Splitting a key at its first bar gives a bar-free first part, and the two parts joined by a bar give the key back |
| Records.KeyRoundTrip | scraper_flask/flaskr/scraping.py:226 | Splitting the key at its first bar gives back the rendered title and link whenever the title has no bar |
| Records.KeyInjectiveWithoutBar | scraper_flask/flaskr/scraping.py:226 | For bar-free titles, two records share a key iff their rendered titles and links are equal |
| Records.BarInTitleCollides | scraper_flask/flaskr/scraping.py:226 | For all strings a, b, c: the title a|b with link c and the title a with link b|c differ in both fields yet have the same key |
| Records.MissingTitleCollidesWithNoneText | scraper_flask/flaskr/scraping.py:226 | A record without a title and one titled "None" with the same link have the same key |
| Dedupe.KeepFirst | scraper_flask/flaskr/scraping.py:223-229 | The filtered list is never longer than the merged input |
| Dedupe.KeepFirstKeys | scraper_flask/flaskr/scraping.py:223-229 | The filtered list holds exactly the keys of the merged input: no key is lost and none is invented |
| Dedupe.KeepFirstExtend | scraper_flask/flaskr/scraping.py:225-229 | One loop round appends the record iff its key was not seen, and adds its key to `seen` |
| Dedupe.FirstIndices | scraper_flask/flaskr/scraping.py:225-229 | The kept positions increase strictly and each is the first position of its key |
| Dedupe.FirstIndicesComplete | scraper_flask/flaskr/scraping.py:225-229 | Every first occurrence of a key is among the kept positions |
| Dedupe.KeepFirstIsFirstOccurrences | scraper_flask/flaskr/scraping.py:225-229 | The output is the input at the first-occurrence positions, in input order (a subsequence in which each key's earliest record wins) |
| Dedupe.KeepFirstSubset | scraper_flask/flaskr/scraping.py:225-229 | Every kept record is a record of the merged input |
| Dedupe.KeepFirstDistinct | scraper_flask/flaskr/scraping.py:223-229 | The output never holds two records with the same key |
| Dedupe.KeepFirstOfDistinct | scraper_flask/flaskr/scraping.py:223-229 | A list whose keys are already distinct passes through unchanged |
| Dedupe.KeepFirstIdempotent | scraper_flask/flaskr/scraping.py:223-229 | Filtering twice gives the same list as filtering once |
| Merge.MergedExtend | scraper_flask/flaskr/scraping.py:215-221 | One loop round extends `results` by what that future returned |
| Merge.Merged | scraper_flask/flaskr/scraping.py:212-221 | `results` after the loop: the completed lists concatenated in the order given, a raising future adding nothing; it has no contract of its own, and its meaning is stated by MergedExtend, MergedAppend, RaisedIsIsolated, CompletedIsContiguous and MergedMembership |
| Merge.MergedAppend | scraper_flask/flaskr/scraping.py:212-221 | Merging a concatenation of outcome lists is the concatenation of their merges |
| Merge.RaisedIsIsolated | scraper_flask/flaskr/scraping.py:217-221 | A raising source contributes nothing and leaves the results of the sources before and after it unchanged |
| Merge.CompletedIsContiguous | scraper_flask/flaskr/scraping.py:218-219 | A successful source's list appears whole and in its own order between the earlier and later contributions |
| Merge.MergedMembership | scraper_flask/flaskr/scraping.py:212-221 | A record is in `results` iff some completed source returned it |
| Merge.CompletionOrderIsInjective | scraper_flask/flaskr/scraping.py:214-215 | `as_completed` yields each future at most once: two positions of a completion order never name the same future |
| Merge.MergedInAnyOrder | scraper_flask/flaskr/scraping.py:214-221 | Whatever the completion order, `results` holds exactly the records the successful sources returned |
| Scrolling.Step | scraper_flask/flaskr/scraping.py:51-59 | One round: stagnant becomes 0 iff the tile count grew and the height changed; without growth the tile size is kept and stagnant rises by 2 when the height is unchanged and by 1 otherwise; with growth the tile size becomes the new count and stagnant is 1 exactly when the height is unchanged |
| Scrolling.Scroll | scraper_flask/flaskr/scraping.py:44-59 | The loop never takes more rounds than there are observations |
| Scrolling.ScrollStopsOnlyAtLimit | scraper_flask/flaskr/scraping.py:44 | If the loop ends before the observations run out, stagnant is at least 5 |
| Scrolling.ScrollRoundsBelowLimit | scraper_flask/flaskr/scraping.py:44 | Every round taken began with stagnant below 5 |
| Scrolling.ScrollTilesIsMax | scraper_flask/flaskr/scraping.py:42-53 | The final tile size is the maximum of the starting size and every count observed in the rounds taken |
| Scrolling.ScrollStagnantBounded | scraper_flask/flaskr/scraping.py:44-58 | stagnant never exceeds 6 |
| Scrolling.ScrollNeedsRounds | scraper_flask/flaskr/scraping.py:41-58 | A round adds at most 2, so a stop needs at least (5 - stagnant) / 2 rounds; from the start that is 3 |
| Scrolling.ScrollStopsOnPlateau | scraper_flask/flaskr/scraping.py:44-58 | n rounds without new tiles that add up to the limit end the loop within those n rounds; five such rounds always end it |
| Scrolling.FastScrollDevpost | scraper_flask/flaskr/scraping.py:40-61 | The loop returns the tile size, the rounds taken and whether it stopped, as the Scroll specification gives them |
| Adapters.ResolveLink | scraper_flask/flaskr/scraping.py:87-88 | A link beginning with "/" becomes the host followed by the link; any other link is kept; the link is always a suffix of the result; with a host not beginning with "/" the result never begins with "/" |
| Adapters.ResolveLinkIdempotent | scraper_flask/flaskr/scraping.py:179-180 | Resolving an already resolved link changes nothing |
| Adapters.DateRange | scraper_flask/flaskr/scraping.py:124 | The text f"{start} → {end}"; it has no contract of its own, and DateRangeRoundTrip states that both ends can be read back |
| Adapters.DateRangeRoundTrip | scraper_flask/flaskr/scraping.py:124 | Splitting "start → end" at its first arrow gives back both ends whenever start contains no arrow |
| Adapters.CollectMembership | scraper_flask/flaskr/scraping.py:74-92 | A loop that appends the usable items' records emits a record iff some item yields it |
| Adapters.CollectEmpty | scraper_flask/flaskr/scraping.py:171-196 | Such a loop emits nothing iff no item is usable |
| Adapters.CollectAppend | scraper_flask/flaskr/scraping.py:182-191 | The loop over a concatenation collects the two parts in turn |
| Adapters.Collect | scraper_flask/flaskr/scraping.py:74-92 | The list an append loop builds, skipped items left out, is never longer than its input; CollectMembership and CollectEmpty state its contents |
| Adapters.DevpostTile | scraper_flask/flaskr/scraping.py:76-90 | A tile yields a record iff its title, period and link tag are present and the tag has an href; the record keeps the title and period, and its link is the href resolved against https://devpost.com, which never begins with "/" |
| Adapters.DevpostRun | scraper_flask/flaskr/scraping.py:64-95 | The Devpost future raises exactly on a browser failure, and is still running exactly when the page rendered, every observation was used and stagnant is still below 5 |
| Adapters.DevpostRecordsComplete | scraper_flask/flaskr/scraping.py:74-92 | A record is emitted iff some tile yields it; every emitted record has a title and a link that does not begin with "/" |
| Adapters.ScrapeDevpost | scraper_flask/flaskr/scraping.py:64-95 | A browser failure raises; otherwise, once scrolling stops, the loop returns the records of the complete tiles in page order |
| Adapters.Value | scraper_flask/flaskr/scraping.py:125 | A stored JSON value is None exactly when the member is null, and renders exactly as the f-string renders the same member |
| Adapters.DevfolioRecord | scraper_flask/flaskr/scraping.py:122-125 | A hackathon yields a record iff all four keys exist; its title is the stored title value (null kept as None); its link is the hackathons URL prefix followed by the slug |
| Adapters.DevfolioDateRoundTrip | scraper_flask/flaskr/scraping.py:124 | A Devfolio date splits back into the rendered starts_at and ends_at whenever starts_at contains no arrow |
| Adapters.DevfolioAll | scraper_flask/flaskr/scraping.py:121-128 | The loop succeeds iff every element has all keys; then it gives one record per element, in order |
| Adapters.DevfolioAllExtend | scraper_flask/flaskr/scraping.py:121-125 | One round of the Devfolio loop appends the element's record when all keys are present, and abandons the list when one is missing |
| Adapters.DevfolioResult | scraper_flask/flaskr/scraping.py:116-132 | A failed request, or one element missing a key, gives the empty list; otherwise there is one record per element, in order, each the record that element yields |
| Adapters.ScrapeDevfolio | scraper_flask/flaskr/scraping.py:101-132 | The loop returns the Devfolio result, abandoning the partial list on a missing key |
| Adapters.MlhRecord | scraper_flask/flaskr/scraping.py:146-152 | An event's record keeps its name and link as they are |
| Adapters.MlhDateRoundTrip | scraper_flask/flaskr/scraping.py:149 | An MLH date splits back into the rendered start_date and end_date (a missing one as "None") whenever the start date contains no arrow |
| Adapters.MlhRecords | scraper_flask/flaskr/scraping.py:144-153 | One record per event, in event order |
| Adapters.MlhResult | scraper_flask/flaskr/scraping.py:139-159 | A failed request or a missing events key gives the empty list; otherwise record i is the record of event i, for every event |
| Adapters.ScrapeMlh | scraper_flask/flaskr/scraping.py:135-159 | The loop returns the MLH result |
| Adapters.BlockText | scraper_flask/flaskr/scraping.py:184-191 | A date block yields text iff its title, day and month are all present; that text is the three parts joined by single spaces, so never empty |
| Adapters.JoinSpace | scraper_flask/flaskr/scraping.py:192 | Joining a single part gives that part; joining non-empty parts gives the empty string iff there are no parts |
| Adapters.JoinSpaceAppend | scraper_flask/flaskr/scraping.py:192 | Joining two non-empty lists of parts is their two joins with one space between them |
| Adapters.CardDate | scraper_flask/flaskr/scraping.py:182-192 | The complete date blocks' texts space-joined; it has no contract of its own, and CardDateOfBlock, CardDateAppend and CardDateEmptyIff state its text |
| Adapters.CardDateEmptyIff | scraper_flask/flaskr/scraping.py:182-192 | A card's date is empty iff none of its date blocks is complete |
| Adapters.CardDateOfBlock | scraper_flask/flaskr/scraping.py:182-192 | A card with one complete block is dated "title day month" |
| Adapters.CardDateAppend | scraper_flask/flaskr/scraping.py:182-192 | The date of consecutive runs of blocks is the two runs' dates joined by one space when both are non-empty, and the other run's date when one is empty |
| Adapters.CardRecord | scraper_flask/flaskr/scraping.py:173-194 | A card yields a record iff its title anchor exists and has an href; the record has the anchor text, the joined complete dates, and the href resolved against https://www.hackathon.com as its link, which never begins with "/" |
| Adapters.HackathonComRun | scraper_flask/flaskr/scraping.py:161-199 | The Hackathon.com future raises exactly on a browser failure |
| Adapters.HackathonComRecordsComplete | scraper_flask/flaskr/scraping.py:171-196 | A record is emitted iff some card yields it; every emitted record has a title and a link that does not begin with "/" |
| Adapters.ScrapeHackathonCom | scraper_flask/flaskr/scraping.py:161-199 | A browser failure raises; otherwise the nested loops return the records of the usable cards in page order |
| Orchestrator.RegisteredOutcomes | scraper_flask/flaskr/scraping.py:205-215 | Four outcomes in registration order; Devfolio and MLH always complete with their results; Devpost and Hackathon.com raise exactly on a browser failure and otherwise complete with the records of their usable tiles or cards; the run does not finish only when Devpost rendered and its scroll did not stop |
| Orchestrator.FetchAllHackathons | scraper_flask/flaskr/scraping.py:201-233 | The function returns the first-occurrence filter of the completed lists concatenated in completion order |
| Orchestrator.CollectFinished | scraper_flask/flaskr/scraping.py:214-221 | The `as_completed` loop returns the completed lists concatenated in completion order, skipping futures that raised |
| Orchestrator.DropRepeatedKeys | scraper_flask/flaskr/scraping.py:223-229 | The `seen`/`unique` loop returns the first-occurrence filter of its input |
| Orchestrator.FetchAllDistinct | scraper_flask/flaskr/scraping.py:223-229 | The result of a run has distinct keys and is unchanged by a second filter pass |
| Orchestrator.FetchAllKeysIndependentOfOrder | scraper_flask/flaskr/scraping.py:212-229 | For any completion order, the result's keys are exactly the keys of all records the successful sources returned |
| Orchestrator.ApiSourcesAlwaysReachResult | scraper_flask/flaskr/scraping.py:205-229 | Every key Devfolio or MLH produces reaches the result of a finished run, whatever the other sources do and whatever the order |

## Left out

- Selenium: driver creation, page loads, `execute_script`, `WebDriverWait` and `time.sleep`. They are browser I/O. A failure of any of them is the `BrowserFailed` case, and the scroll rounds are given as observations.
- `requests`, the GraphQL query and JSON decoding. A failure of any of them, or a body without the expected shape, is the `Unavailable` case.
- BeautifulSoup querying and `get_text(strip=True)`. Tiles and cards are given with the texts already extracted and stripped.
- `ThreadPoolExecutor` and `as_completed` scheduling. The completion order is an input.
- Printing, logging and the elapsed-time measurement.
- JSON values that are not strings (numbers, objects). They would be rendered by `str()`, which the model does not reproduce. An MLH event or a Devfolio element that is not a JSON object is modelled like a missing key (`Unavailable` for MLH).
- Scrolling.FastScrollDevpost: the observations are fuel. When they run out before `stagnant` reaches 5, the model reports that the loop has not stopped. The real loop keeps polling and may never end.
- Scrolling.FastScrollDevpost: returns the size of the tile set, not the set. It assumes that `find_elements` returns distinct elements, so the set is as large as the list. `scrape_devpost` ignores the returned set anyway.
- The Flask application, the runner script that writes the JSON file, the older scraper variants and the front-end are not part of this model.
