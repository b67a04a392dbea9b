# Redline news-ingestion pipeline, modelled in Dafny

This project models the backend ingestion pipeline of Redline. The pipeline has two halves: scraping and AI enrichment.

**Scraping.**
- A scraper finds candidate article URLs on The Daily Star and pulls title, content, author and date out of each page with ordered selector chains.
- It stores each article in `news_articles` with an upsert keyed on the URL.
- It reports what happened to every URL.

**AI enrichment.**
- An OpenAI classifier and a Gemini classifier label articles for political violence. A unified front chooses between them from the environment.
- A location extractor asks the model for the places an article mentions and stores one `article_locations` row per place. It then flags the article as processed.
- Three batch runners drive these calls with progress reports and pauses.

**Outside world.** Everything outside the pipeline enters as a value:
- the HTTP fetches;
- the parsed page (`Html.Document`, a map from selector to the matched elements);
- the database errors;
- the AI providers' replies;
- `JSON.parse`;
- the clock and the date parser.

What remains is modelled as the source writes it:
- the bookkeeping;
- the validation rules and error messages;
- the selector fallbacks;
- the URL heuristics;
- the upsert;
- the counters;
- the pacing.

**Modules.**

| module | models |
|---|---|
| `Text`, `Seqs`, `Json`, `Wrappers` | JavaScript string operations (`trim`, `replace` with a string pattern, `includes`, `indexOf`), `[...new Set(xs)]` and `slice(0, n)`, parsed JSON values with `typeof`, truthiness, numeric coercion and object spread |
| `Html` | the cheerio queries and the selector loops shared by both Daily Star scrapers |
| `BaseScraper` | `backend/scrapers/base-scraper.js`: `ArticleStore` is the `news_articles`/`news_sources` tables as a class; plus the retry loop, `cleanText` and `parseDate` |
| `ScrapeRun` | the per-URL loop of `run`, shared by the three scrapers through a `RunPolicy` (skip check, minimum content length, `contentLength` reporting) |
| `ArticleUrl` | `isArticleUrl` of the improved scraper, each regular expression a predicate on characters |
| `DailyStarImproved`, `DailyStarScraper` | the two adapters: discovery, extraction, `run` |
| `AiConfig`, `Prompts`, `Pacing` | the environment and provider oracles, prompt substitution, and the group/progress/pause skeleton shared by the batch runners |
| `Classifier`, `GeminiClassifier`, `UnifiedClassifier`, `LocationExtractor` | the four AI modules |

**Form.** The imperative code keeps its form:
- The loops of the source are `method`s with `while` loops, proved against functions: `GetLatestNewsUrls`, the selector loops, `makeRequest`, the `run` loops, the insert loop and the batch loops.
- The two databases are classes whose methods update their fields: `BaseScraper.ArticleStore` and `LocationExtractor.LocationStore`.
- Validation, bucketing, provider selection, fence stripping and text cleaning are functions.

## Model

| member | source | states |
|---|---|---|
| `AiConfig.OrDefault` | backend/src/ai/classifier.js:17 | `value \|\| fallback` on an environment variable: a set, non-empty variable gives its own value, an unset or empty one gives the fallback, so a non-empty fallback never gives an empty result |
| `AiConfig.Stamp` | backend/src/ai/classifier.js:116-121 | the added fields are exactly `model_version`, `processing_time_ms` and `processed_at`, holding the model name, the measured time and the timestamp |
| `Json.Prop` | backend/src/ai/location-extractor.js:129 | a property read yields a value exactly when the value is an object holding the key |
| `Json.Read` | backend/src/ai/classifier.js:108 | reading a property of `null` throws the `TypeError` message; otherwise it is the plain property read |
| `Json.OptProp` | backend/src/ai/location-extractor.js:255 | optional chaining `o?.key` yields a value only when `o` is an object holding the key |
| `Json.TypeOf` | backend/src/ai/classifier.js:108-109 | `typeof` is `"boolean"` exactly for booleans and `"number"` exactly for numbers |
| `Json.ToNumber` | backend/src/ai/location-extractor.js:181-185 | JavaScript's numeric coercion in a comparison: a number is itself, `undefined` and objects are NaN, a string is read as a decimal literal, `[]` is 0 and an array of two or more elements is NaN |
| `Json.WrappedNumber` | backend/src/ai/location-extractor.js:181-185 | a number nested in any depth of one-element arrays compares as the number itself (`[0.8] >= 0.7`) |
| `Json.StringToNumber` | backend/src/ai/location-extractor.js:181-185 | `Number` of a blank string (only whitespace) is 0 |
| `Json.DecimalString` | backend/src/ai/location-extractor.js:181-185 | digits, a point and digits (`"0.8"`) read as the decimal number they spell |
| `Json.Spread` | backend/src/ai/classifier.js:116-121 | `{...fields, ...extra}` has the keys of both; `extra` wins on shared keys, and the other keys keep their parsed values |
| `Text.IndexOf` | backend/src/ai/classifier.js:67-73 | `indexOf` finds no occurrence exactly when the pattern does not occur, and otherwise the first one |
| `Text.ReplaceFirst` | backend/src/ai/classifier.js:67-73 | `replace` with a string pattern leaves text without the pattern unchanged, and with a `$`-free replacement swaps exactly the first occurrence, keeping the text before and after it |
| `Text.Expand` | backend/src/ai/classifier.js:67-73 | a replacement without `$` is inserted literally |
| `Text.Trim` | backend/scrapers/base-scraper.js:131 | the trimmed text is the slice of the input between its leading and its trailing whitespace, and has no whitespace at either end |
| `Text.TrimKeeps` | backend/scrapers/base-scraper.js:131 | text without whitespace at either end is its own trim |
| `Text.LowerAscii` | backend/scrapers/dailystar-improved.js:146 | the `i` flag of the asset pattern: each character lower-cased, the length unchanged |
| `Seqs.Dedup` | backend/scrapers/dailystar-improved.js:117 | `[...new Set(s)]` has no duplicates and the same members as `s` |
| `Seqs.DedupOfNoDup` | backend/scrapers/dailystar-improved.js:117 | a list without duplicates passes through the `Set` unchanged |
| `Seqs.DedupPrefix` | backend/scrapers/dailystar-scraper.js:93 | first-seen order: deduplicating a prefix gives a prefix of deduplicating the whole |
| `Seqs.DedupSnoc` | backend/scrapers/dailystar-scraper.js:93 | an appended element is kept by the `Set` exactly when it is new |
| `Seqs.Slice0` | backend/scrapers/dailystar-scraper.js:93 | `slice(0, limit)` is a prefix of length `min(limit, n)`, or for a negative limit the list without its last `-limit` elements |
| `Seqs.SliceKeepsNoDup` | backend/scrapers/dailystar-scraper.js:93 | slicing keeps a list duplicate-free |
| `BaseScraper.Upsert` | backend/scrapers/base-scraper.js:74-85 | the upsert keeps the table well formed (rows under their URL, distinct ids), adds only the draft's URL and leaves every other row alone; a new URL gets a row with the draft's columns, the given source and the next id, which is returned and the counter advanced; a stored URL keeps the counter and returns its row's id |
| `BaseScraper.UpsertExistingKeepsIdentity` | backend/scrapers/base-scraper.js:78-84 | an upsert on a stored URL adds no row and returns the old id; it rewrites title, content, author, published date and `updated_at`, and keeps `source_id` and `language` |
| `BaseScraper.UpsertTwiceKeepsLast` | backend/scrapers/base-scraper.js:74-85 | two saves of a new URL leave one new row with the second draft's title and content, the first save's source and language, and the same id |
| `BaseScraper.ArticleStore.constructor` | backend/scrapers/base-scraper.js:6-28 | a new store is well formed and empty, with the given sources |
| `BaseScraper.ArticleStore.GetSourceId` | backend/scrapers/base-scraper.js:33-49 | `getSourceId` succeeds exactly when the query works and the name is present, with that source's id; an absent name throws `News source '<name>' not found in database` |
| `BaseScraper.ArticleStore.ArticleExists` | backend/scrapers/base-scraper.js:109-120 | the check is true exactly when the query works and the URL is stored; a failed query reports "not present" |
| `BaseScraper.ArticleStore.SaveArticle` | backend/scrapers/base-scraper.js:72-104 | a failed query changes nothing and is rethrown; otherwise the table becomes the upsert's table and the upsert's id is returned; the store stays well formed |
| `BaseScraper.Backoff` | backend/scrapers/base-scraper.js:64 | the wait after failed attempt `i` is `1000 * (i + 1)` ms |
| `BaseScraper.MakeRequest` | backend/scrapers/base-scraper.js:54-67 | at most `retries` attempts; all but the last made failed; a response is the first successful attempt's; after `retries` failures the last error is rethrown; the waits are the backoff between attempts; no attempt when `retries <= 0` |
| `BaseScraper.CollapseSpaces` | backend/scrapers/base-scraper.js:129 | after `/\s+/g → ' '` every whitespace character is a single space and none is doubled; the result starts with a space only when the input does |
| `BaseScraper.CollapseSpacesWord` | backend/scrapers/base-scraper.js:129 | a non-whitespace character is kept as it is, in front of the collapsed rest |
| `BaseScraper.CollapseSpacesRun` | backend/scrapers/base-scraper.js:129 | a maximal whitespace run (any length, any `\s` characters) becomes exactly one space |
| `BaseScraper.CollapseSpacesSplit` | backend/scrapers/base-scraper.js:129 | the pass works piecewise: cut anywhere but inside a whitespace run, the halves collapse independently; with the two rows above this fixes the result on every input |
| `BaseScraper.CollapseBlankLinesNoNewline` | backend/scrapers/base-scraper.js:130 | the blank-line pass leaves text without newlines unchanged |
| `BaseScraper.CollapseBlankLines` | backend/scrapers/base-scraper.js:130 | the pass `/\n\s*\n/g → '\n\n'`: each run from a newline through the last newline of the whitespace after it becomes one blank line, and every other character is kept; the result is never longer than the input |
| `BaseScraper.CleanText` | backend/scrapers/base-scraper.js:125-132 | `''` for a falsy argument; otherwise the result is the trimmed whitespace-collapsed text (the blank-line pass has no newline left to act on), so it has single spaces only, none doubled, and no whitespace at either end |
| `BaseScraper.TrimKeepsSpacing` | backend/scrapers/base-scraper.js:129-131 | trimming single-spaced text leaves clean text |
| `BaseScraper.CollapseSpacesKeeps` | backend/scrapers/base-scraper.js:129 | single-spaced text passes the whitespace pass unchanged |
| `BaseScraper.CleanTextIdempotent` | backend/scrapers/base-scraper.js:125-132 | cleaning twice gives the same text as cleaning once |
| `BaseScraper.CleanTextKeepsClean` | backend/scrapers/base-scraper.js:125-132 | clean non-empty text is left unchanged |
| `BaseScraper.ParseDate` | backend/scrapers/base-scraper.js:137-150 | never fails; a falsy or unparseable string gives "now", and a string that parses gives exactly the parsed date |
| `BaseScraper.ScrapingDelay` | backend/scrapers/base-scraper.js:156 | `parseInt(SCRAPING_DELAY_MS) \|\| 2000`: the configured value unless it is unset, NaN or 0, and exactly 2000 in those cases; never 0 |
| `ScrapeRun.Step` | backend/scrapers/base-scraper.js:194-230 | one URL only adds rows, and a URL that is not saved leaves the table as it was |
| `ScrapeRun.RunPrefix` | backend/scrapers/base-scraper.js:194-230 | one outcome per URL examined |
| `ScrapeRun.RunStep` | backend/scrapers/base-scraper.js:194-230 | each URL's outcome and table come from the table the earlier URLs left |
| `ScrapeRun.RunKeepsValid` | backend/scrapers/base-scraper.js:215 | every iteration keeps the table well formed |
| `ScrapeRun.SummarizeSnoc` | backend/scrapers/base-scraper.js:197-222 | one more URL increments exactly the counter of its outcome, appends a saved article, and adds a delay unless it was skipped |
| `ScrapeRun.SummaryCounts` | backend/scrapers/base-scraper.js:186-230 | `successful + failed + skipped == total == number of URLs`, `articles` has `successful` entries, and one delay is taken per URL not skipped |
| `ScrapeRun.Summarize` | backend/scrapers/base-scraper.js:186-230 | the results object: `total` is the number of URLs examined, each outcome bumps its own counter, and saved articles are listed in order (`SummaryCounts` relates the counters) |
| `ScrapeRun.Pauses` | backend/scrapers/base-scraper.js:203-204 | one `delay()` after every URL that was not skipped: never more pauses than URLs, each of the configured length, none when every URL was skipped (`SummaryCounts` counts them exactly) |
| `ScrapeRun.NoSkipWithoutCheck` | backend/scrapers/dailystar-improved.js:294-325 | a run without the existence check never counts a skipped URL |
| `ScrapeRun.OutcomesPrefix` | backend/scrapers/base-scraper.js:194-230 | later URLs do not change the outcomes of earlier ones |
| `ScrapeRun.OutcomeIsStep` | backend/scrapers/base-scraper.js:194-230 | the outcome of URL `i` is one iteration on the table after the first `i` URLs |
| `ScrapeRun.KeysGrow` | backend/scrapers/base-scraper.js:215 | a stored URL stays stored for the rest of the run |
| `ScrapeRun.Outcomes` | backend/scrapers/base-scraper.js:197-222 | a URL is skipped exactly when the check is on, its query works and the URL is stored; a skipped or failed URL changes nothing; a saved one had a scraped draft with a title and enough content and a save that worked, and its URL is now stored |
| `ScrapeRun.RepeatedUrlSkipped` | backend/scrapers/base-scraper.js:197-201 | once a URL is saved, a later occurrence of it is skipped whenever its existence query works |
| `ScrapeRun.ArticleUrls` | backend/scrapers/base-scraper.js:217-222 | the URLs of the reported articles, one per article |
| `ScrapeRun.ArticlesInDiscoveryOrder` | backend/scrapers/base-scraper.js:215-222 | when drafts carry the URL they were scraped from, the reported articles' URLs are a subsequence of the discovered URLs, in discovery order |
| `ScrapeRun.SubsequenceSnoc` | backend/scrapers/base-scraper.js:217-222 | a URL found after all earlier picks extends the subsequence |
| `ScrapeRun.ProcessUrl` | backend/scrapers/base-scraper.js:195-229 | the loop body (skip check, scrape, validation, save) computes one step of the specification on the store, and keeps the store well formed |
| `ScrapeRun.ProcessUrls` | backend/scrapers/base-scraper.js:186-230 | the loop's counters, `articles` list, final table and delays are those of the specification over all URLs |
| `ScrapeRun.Run` | backend/scrapers/base-scraper.js:179-244 | a source-lookup or discovery error aborts the run before any URL, with no delay and no change; otherwise the report and table are those of the loop under the skip-and-non-empty policy, and each delay is `delay()`'s default: the configured `SCRAPING_DELAY_MS`, or 2000 |
| `ArticleUrl.HasIndicator` | backend/scrapers/dailystar-improved.js:131-138 | `hasArticleIndicators.some`: a `/yyyy/mm/dd/` date, a trailing `-` and six or more digits, a `/news/…/slug`, `/city/slug` or `/politics/slug` ending |
| `ArticleUrl.IsSectionPage` | backend/scrapers/dailystar-improved.js:141 | the URL ends in `/news`, `/city`, `/politics`, `/business` or `/sports`, with or without a slash |
| `ArticleUrl.IsListing` | backend/scrapers/dailystar-improved.js:142-145 | the URL contains `/tags/`, `/search/`, `/author/` or `/category/` |
| `ArticleUrl.IsAsset` | backend/scrapers/dailystar-improved.js:146 | the URL ends in `.jpg`, `.jpeg`, `.png`, `.gif`, `.pdf`, `.css` or `.js`, in any ASCII case |
| `ArticleUrl.IsArticleUrl` | backend/scrapers/dailystar-improved.js:130-152 | some indicator matches and no exclusion does; the lemmas below derive which URL shapes pass and fail |
| `ArticleUrl.SlugNotSectionPage` | backend/scrapers/dailystar-improved.js:141 | a URL whose last segment is a slug that is not a section name is not a section page |
| `ArticleUrl.SlugNotAsset` | backend/scrapers/dailystar-improved.js:146 | a URL whose last segment has no `.` does not end in an asset extension |
| `ArticleUrl.NewsSlugAccepted` | backend/scrapers/dailystar-improved.js:130-152 | `…/news/<path>/<slug>` is an article URL when the path has no line terminator, the slug is a dot-free, slash-free final segment other than a section name, and no listing pattern matches |
| `ArticleUrl.LongIdAccepted` | backend/scrapers/dailystar-improved.js:134-152 | a URL ending in `-` and six or more digits is an article URL unless a listing pattern matches |
| `ArticleUrl.SectionRootsRejected` | backend/scrapers/dailystar-improved.js:141 | the five section roots, with or without a trailing slash, are never article URLs |
| `ArticleUrl.AssetRejected` | backend/scrapers/dailystar-improved.js:146 | a URL ending in an asset extension in any letter case is never an article URL |
| `Html.Select` | backend/scrapers/dailystar-scraper.js:129 | a selector that matches nothing gives no elements |
| `Html.FirstText` | backend/scrapers/dailystar-scraper.js:114-115 | `.first().text().trim()`: absent exactly when nothing matches, else the first match's trimmed text |
| `Html.TrimmedTexts` | backend/scrapers/dailystar-scraper.js:131-133 | one trimmed text per element, in order |
| `Html.LongerThan` | backend/scrapers/dailystar-improved.js:193 | the filter keeps exactly the texts longer than the bound |
| `Html.LongerThanSingle` | backend/scrapers/dailystar-improved.js:193 | one text is kept exactly when it is longer than the bound |
| `Html.LongerThanAppend` | backend/scrapers/dailystar-improved.js:193 | filtering a concatenation concatenates the filtered parts, so kept texts stay in order and keep their multiplicity |
| `Html.DateText` | backend/scrapers/dailystar-improved.js:214-216 | a date candidate exists exactly when the selector matches |
| `Html.Overwrite` | backend/scrapers/dailystar-improved.js:168-174 | an overwrite-until-long-enough loop ends with the first long candidate; failing that, the last present candidate; failing that, the start value |
| `Html.FirstPresent` | backend/scrapers/dailystar-scraper.js:148-154 | a take-first-and-break loop ends with the first present candidate, and with none exactly when none is present |
| `Html.FirstParsed` | backend/scrapers/dailystar-scraper.js:166-177 | the date loop takes the first candidate that parses, passing over unparseable ones, and finds none exactly when none parses |
| `Html.FullUrl` | backend/scrapers/dailystar-improved.js:79 | an `href` starting with `http` is kept; any other is appended to the base, so the `href` is always a suffix and the URL is absolute when the base is |
| `Html.FullUrlKeepsSubstring` | backend/scrapers/dailystar-improved.js:109 | making an `href` absolute keeps every substring of it |
| `Html.OverwriteStep` | backend/scrapers/dailystar-improved.js:168-174 | one pass of an overwrite loop |
| `Html.FirstPresentStep` | backend/scrapers/dailystar-scraper.js:148-154 | one pass of a take-first loop |
| `Html.FirstParsedAt` | backend/scrapers/dailystar-scraper.js:166-177 | the first candidate that parses gives the date |
| `Html.FirstParsedIsFirst` | backend/scrapers/dailystar-scraper.js:166-177 | the same, for every position at once |
| `Html.FirstParsedStep` | backend/scrapers/dailystar-scraper.js:166-177 | one pass of the date loop |
| `Html.SelectorCandidates` | backend/scrapers/dailystar-improved.js:168-174 | what a selector loop sees: one candidate per selector, in the selectors' order |
| `Html.FirstLongCandidate` | backend/scrapers/dailystar-improved.js:168-174 | in an overwrite loop over selectors, the first selector whose candidate is long enough gives the result |
| `Html.AuthorCandidates` | backend/scrapers/dailystar-scraper.js:141-146 | one candidate per author selector |
| `Html.DateCandidates` | backend/scrapers/dailystar-scraper.js:158-164 | one candidate per date selector |
| `Html.AuthorOf` | backend/scrapers/dailystar-scraper.js:140-154 | the author is the trimmed text of the first match of the first author selector that matches, even if empty, and `""` when none matches |
| `Html.PublishedAt` | backend/scrapers/dailystar-scraper.js:157-182 | the date is the first date selector's candidate (the `datetime` attribute when truthy, else the trimmed text) that parses; "now" when none does |
| `Html.ExtractAuthor` | backend/scrapers/dailystar-improved.js:200-208 | the author loop computes `AuthorOf` |
| `Html.PublishedAtFromCandidates` | backend/scrapers/dailystar-improved.js:211-223 | the date is read off the candidate list |
| `Html.ExtractPublishedAt` | backend/scrapers/dailystar-improved.js:211-223 | the date loop computes `PublishedAt` |
| `DailyStarImproved.Harvest` | backend/scrapers/dailystar-improved.js:76-86 | the section-page anchor loop keeps the list duplicate-free, loses nothing it already had, and adds only URLs that pass `isArticleUrl` |
| `DailyStarImproved.HarvestAppends` | backend/scrapers/dailystar-improved.js:76-86 | the loop only appends with `push`: the list it started from stays a prefix of the result |
| `DailyStarImproved.HarvestComplete` | backend/scrapers/dailystar-improved.js:76-86 | no qualifying link is missed: every anchor with a truthy `href` whose absolute URL passes `isArticleUrl` ends up in the list |
| `DailyStarImproved.Sections` | backend/scrapers/dailystar-improved.js:68-97 | the section loop keeps the list duplicate-free and adds only article URLs; it pauses at most once per section |
| `DailyStarImproved.SectionsStopAtLimit` | backend/scrapers/dailystar-improved.js:95-96 | the `break`: once the sections up to some point have collected `limit` URLs, the later sections change neither the URLs nor the pause count, so they are not fetched |
| `DailyStarImproved.Fallback` | backend/scrapers/dailystar-improved.js:106-114 | the homepage loop keeps the list duplicate-free and adds only links to `/news/`, `/city/` or `/politics/` |
| `DailyStarImproved.FallbackAppends` | backend/scrapers/dailystar-improved.js:106-114 | the loop only appends: the starting list stays a prefix of the result, and a list that started within `limit` ends within it |
| `DailyStarImproved.FallbackComplete` | backend/scrapers/dailystar-improved.js:106-114 | when the loop ends under `limit`, every anchor with a truthy `href` containing `/news/`, `/city/` or `/politics/` has its absolute URL in the list |
| `DailyStarImproved.Discover` | backend/scrapers/dailystar-improved.js:57-125 | the section loop, the homepage fallback when it found nothing, `[...new Set(urls)].slice(0, limit)` and the count of section pauses; an error escapes only from the homepage fetch and is that fetch's error (`DiscoverFacts` states the rest) |
| `DailyStarImproved.DiscoverFacts` | backend/scrapers/dailystar-improved.js:57-125 | discovery fails exactly when no section gave a URL and the homepage fetch fails. Its result has no duplicates and, for a non-negative `limit`, at most `limit` URLs. Section URLs all pass `isArticleUrl`; homepage URLs are links to the three sections, and the homepage is used only when the sections gave nothing. The result is exactly the first `limit` distinct URLs of the section list, or of the homepage list when the sections gave none. At most three section pauses |
| `DailyStarImproved.GetLatestNewsUrls` | backend/scrapers/dailystar-improved.js:57-125 | the nested loops with their early break compute the discovery specification |
| `DailyStarImproved.TitleCandidates` | backend/scrapers/dailystar-improved.js:167-171 | one title candidate per selector |
| `DailyStarImproved.ContentCandidates` | backend/scrapers/dailystar-improved.js:178-194 | one content candidate per selector |
| `DailyStarImproved.ContentCandidate` | backend/scrapers/dailystar-improved.js:187-192 | a selector gives a candidate exactly when it matches at least three paragraphs |
| `DailyStarImproved.ContentOfFallback` | backend/scrapers/dailystar-improved.js:186-195 | when no candidate exceeds 200 characters the loop never breaks: the content is the candidate of the last selector with three or more paragraphs, or `""` when there is none |
| `DailyStarImproved.TitleOf` | backend/scrapers/dailystar-improved.js:166-174 | the title is never empty, is the first candidate longer than ten characters, and is `Untitled` when no title selector matches (`TitleOfFallback` gives the remaining case) |
| `DailyStarImproved.TitleOfFallback` | backend/scrapers/dailystar-improved.js:166-174 | when no candidate exceeds ten characters the loop never breaks: the title is the candidate of the last selector that matched, and `Untitled` when that text is empty or nothing matched |
| `DailyStarImproved.ContentOf` | backend/scrapers/dailystar-improved.js:177-197 | the content is the first candidate longer than 200 characters built from a selector with three or more paragraphs (only those over 20 characters, joined by a blank line); `""` when no selector has three |
| `DailyStarImproved.ArticleFrom` | backend/scrapers/dailystar-improved.js:225-232 | the returned article has a non-empty title, the URL it was scraped from and the adapter's language |
| `DailyStarImproved.ExtractTitle` | backend/scrapers/dailystar-improved.js:166-174 | the title loop computes the overwrite chain |
| `DailyStarImproved.ExtractContent` | backend/scrapers/dailystar-improved.js:177-197 | the content loop computes the overwrite chain |
| `DailyStarImproved.ScrapeArticle` | backend/scrapers/dailystar-improved.js:158-238 | `scrapeArticle` rethrows a fetch error and otherwise computes the specified article |
| `DailyStarImproved.Run` | backend/scrapers/dailystar-improved.js:280-338 | a lookup or discovery error aborts with no change to the table; a discovery error still leaves the one-second pause after each section page fetched. Otherwise the report and table are those of the shared loop with the 100-character content rule, no skip path and reported content lengths, and the delays are the section pauses followed by the loop's |
| `DailyStarImproved.RunArticlesFromDiscovery` | backend/scrapers/dailystar-improved.js:294-325 | the reported articles come from the discovered URLs in discovery order, and nothing is ever counted as skipped |
| `DailyStarScraper.FullUrlIsAbsolute` | backend/scrapers/dailystar-scraper.js:84-86 | every collected URL starts with `http` |
| `DailyStarScraper.PushDedup` | backend/scrapers/dailystar-scraper.js:82-87 | testing the raw `href` against absolute URLs loses nothing after the final `Set`: one anchor keeps the collected list's dedup equal to that of all candidates |
| `DailyStarScraper.CollectDedup` | backend/scrapers/dailystar-scraper.js:80-89 | the same for one selector's loop |
| `DailyStarScraper.CollectAllDedup` | backend/scrapers/dailystar-scraper.js:79-90 | the same for all five selectors |
| `DailyStarScraper.MatchingLinks` | backend/scrapers/dailystar-scraper.js:72-77 | every URL a selector collects contains that selector's path |
| `DailyStarScraper.CandidateLinks` | backend/scrapers/dailystar-scraper.js:71-90 | every candidate URL contains one of the five section paths |
| `DailyStarScraper.Discover` | backend/scrapers/dailystar-scraper.js:61-101 | fails exactly when the homepage fetch fails, with that error; otherwise the first `limit` distinct links the pattern loops collect (`DiscoverFacts` states their properties) |
| `DailyStarScraper.DiscoverFacts` | backend/scrapers/dailystar-scraper.js:61-101 | discovery fails exactly when the homepage fetch does. Its result is the first distinct candidate URLs in selector order, cut to `limit`, with no duplicates, each containing a section path |
| `DailyStarScraper.GetLatestNewsUrls` | backend/scrapers/dailystar-scraper.js:61-101 | the nested `forEach`/`each` loops compute the discovery specification |
| `DailyStarScraper.CollectPattern` | backend/scrapers/dailystar-scraper.js:72-92 | one selector's `each` loop appends exactly the URLs the `Collect` specification lists, in anchor order |
| `DailyStarScraper.TitleOf` | backend/scrapers/dailystar-scraper.js:114-116 | the first `h1`'s trimmed text when non-empty, otherwise the `<title>` text with ` \| The Daily Star` removed, then trimmed |
| `DailyStarScraper.ContentCandidates` | backend/scrapers/dailystar-scraper.js:120-126 | one content candidate per selector |
| `DailyStarScraper.ContentOf` | backend/scrapers/dailystar-scraper.js:128-137 | the trimmed paragraphs of the first selector that matches, joined by a blank line; later selectors are ignored; `""` when none matches |
| `DailyStarScraper.ArticleFrom` | backend/scrapers/dailystar-scraper.js:184-191 | the returned article carries the URL it was scraped from and the adapter's language |
| `DailyStarScraper.ScrapeArticle` | backend/scrapers/dailystar-scraper.js:106-196 | `scrapeArticle` rethrows a fetch error and otherwise computes the specified article |
| `DailyStarScraper.Run` | backend/scrapers/dailystar-scraper.js:237-301 | a lookup or homepage error aborts with no change to the table and no pause. Otherwise the report, table and delays are those of the shared loop with the non-empty rule and no skip path |
| `DailyStarScraper.RunSavesOnlyComplete` | backend/scrapers/dailystar-scraper.js:261-282 | a saved article had a non-empty title and content, and the reported articles follow discovery order |
| `Prompts.OrEmpty` | backend/src/ai/classifier.js:69 | `field \|\| ""`: the field when present, `""` when missing |
| `Prompts.ClassificationValues` | backend/src/ai/classifier.js:67-73 | title, content, source and date, each `""` when missing, in placeholder order |
| `Prompts.LocationValues` | backend/src/ai/location-extractor.js:92-95 | title and content, each `""` when missing |
| `Prompts.NoBraceConcat` | backend/src/ai/classifier.js:67-73 | brace-free texts stay brace-free when joined |
| `Prompts.ReplaceAtFirstBrace` | backend/src/ai/classifier.js:67-73 | a placeholder preceded by brace-free text is replaced right there |
| `Prompts.FillLayout` | backend/src/ai/classifier.js:67-73 | for a template made of brace-free text around the placeholders, the `replace` chain puts each value where its placeholder was, provided the values have no brace and no `$` |
| `Prompts.PlaceholdersAreHoles` | backend/src/ai/classifier.js:37-40 | every placeholder starts with a brace |
| `Prompts.Fill` | backend/src/ai/classifier.js:67-73 | the `.replace` chain, each placeholder in turn replaced once in the text the earlier replacements produced; a template containing none of the placeholders comes back unchanged (`FillLayout` states the general case) |
| `Prompts.FillFour` | backend/src/ai/classifier.js:67-73 | the chain on a four-placeholder template puts the four values in the four places |
| `Prompts.MissingFieldsEmpty` | backend/src/ai/classifier.js:67-73 | an article with no title, content, source or date gives the template with its placeholders removed |
| `Prompts.TitleCapturesPlaceholder` | backend/src/ai/location-extractor.js:92-95 | the chain works on the text built so far: a title that is itself `{content}` receives the content, and the template's own `{content}` stays in the prompt |
| `Pacing.Min` | backend/src/ai/classifier.js:169 | `Math.min` |
| `Pacing.Schedule` | backend/src/ai/classifier.js:140-179 | the passes of a batch loop from a group start: there are none exactly when no article is left (`ScheduleShape` states the whole trace) |
| `Pacing.ScheduleStep` | backend/src/ai/classifier.js:140-179 | one pass of a batch loop: the report, then a pause only if more articles follow and the delay is positive |
| `Pacing.ScheduleAdvance` | backend/src/ai/classifier.js:140-179 | the passes made so far followed by the remaining ones form the whole schedule |
| `Pacing.ScheduleShape` | backend/src/ai/classifier.js:140-179 | `ceil(n / batchSize)` reports; report `g` says `min((g + 1) * batchSize, n)` articles are processed; a pause follows every group but the last when the delay is positive |
| `Pacing.LastReportComplete` | backend/src/ai/classifier.js:166-173 | the last progress report counts every article |
| `Pacing.EntriesOf` | backend/src/ai/classifier.js:142-164 | one result entry per article |
| `Pacing.CountSuccess` | backend/src/ai/classifier.js:186 | the success count never exceeds the entries |
| `Pacing.SuccessPlusErrors` | backend/src/ai/classifier.js:184-188 | successes plus errors equal the entries |
| `Pacing.ErrorsAreFailures` | backend/src/ai/classifier.js:150-159 | the error list holds exactly the failed articles' ids and messages |
| `Pacing.ErrorsOf` | backend/src/ai/classifier.js:150-159 | the `errors` list: never longer than the batch, and empty when every entry succeeded (`ErrorsAreFailures`, `SuccessPlusErrors` state the rest) |
| `Pacing.AppendEntry` | backend/src/ai/gemini-classifier.js:143-160 | one more entry adds one to successes or one error |
| `Classifier.ModelVersion` | backend/src/ai/classifier.js:17 | `OPENAI_MODEL` when set and non-empty, otherwise `gpt-4` |
| `Classifier.Valid` | backend/src/ai/classifier.js:106-114 | an accepted reply has a boolean `is_political_violence` and a numeric `confidence` between 0 and 1 inclusive, so it is an object holding both keys |
| `Classifier.Classify` | backend/src/ai/classifier.js:58-126 | every error carries `Classification failed: `. A reply is accepted exactly when the client exists, the request succeeds, the text parses, and the verdict is boolean with a confidence in [0, 1]. An accepted reply keeps its fields, and the model version, time and timestamp override same-named ones |
| `Classifier.ClassifyErrors` | backend/src/ai/classifier.js:61-114 | every error path with its message, each behind the `Classification failed: ` prefix: no client; a failed provider call passes its own message through; an unparseable reply gives `Invalid AI response format`; a `null` reply gives the TypeError of reading `is_political_violence`; any other invalid value gives the invalid-structure message |
| `Classifier.ConfidenceOutOfRange` | backend/src/ai/classifier.js:110-111 | a confidence below 0 or above 1 is rejected |
| `Classifier.Marks` | backend/src/ai/classifier.js:168-172 | the report once `p` articles are processed: `p`, the total and the errors so far |
| `Classifier.ClassifyGroup` | backend/src/ai/classifier.js:141-164 | one group's entries, in input order, and the error list extended by its failures |
| `Classifier.RunGroups` | backend/src/ai/classifier.js:134-190 | the loop yields one entry per article in input order and the error list of the failures. `successful + failed == total`. The progress and pause trace is the group schedule |
| `Classifier.ClassifyBatch` | backend/src/ai/classifier.js:134-190 | the same for `classifyArticle` |
| `GeminiClassifier.ModelVersion` | backend/src/ai/gemini-classifier.js:12 | `GEMINI_MODEL` when set and non-empty, otherwise `gemini-1.5-flash` |
| `GeminiClassifier.Valid` | backend/src/ai/gemini-classifier.js:97-99 | an accepted reply needs only a boolean `is_political_violence`, so it is an object holding that key; `confidence` is not checked |
| `GeminiClassifier.StripFences` | backend/src/ai/gemini-classifier.js:89 | stripping never lengthens the reply and leaves backtick-free text alone |
| `GeminiClassifier.ClosingFenceStripped` | backend/src/ai/gemini-classifier.js:89 | a closing fence is removed with its newline |
| `GeminiClassifier.PlainCharKept` | backend/src/ai/gemini-classifier.js:89 | a character that cannot start a fence is kept |
| `GeminiClassifier.FencedBlockStripped` | backend/src/ai/gemini-classifier.js:89 | a reply fenced as a JSON code block comes out as its body |
| `GeminiClassifier.Clean` | backend/src/ai/gemini-classifier.js:89 | the cleaned text is never longer than the reply |
| `GeminiClassifier.Extra` | backend/src/ai/gemini-classifier.js:101-107 | the four added fields: model version, time, timestamp and `provider: "gemini"` |
| `GeminiClassifier.Classify` | backend/src/ai/gemini-classifier.js:60-113 | every error carries `Classification failed: `. A reply is accepted exactly when the client exists, the request succeeds, the cleaned text parses and the verdict is boolean. An accepted reply gains the four added fields over its own |
| `GeminiClassifier.ClassifyErrors` | backend/src/ai/gemini-classifier.js:63-99 | every error path with its message, each behind the `Classification failed: ` prefix: no client; a failed provider call passes its own message through; an unparseable reply; a `null` reply gives the TypeError of reading `is_political_violence`; a non-boolean verdict gives the invalid-structure message |
| `GeminiClassifier.AnyConfidenceAccepted` | backend/src/ai/gemini-classifier.js:97-99 | any confidence, even a missing or out-of-range one, is accepted once the verdict is boolean |
| `GeminiClassifier.Marks` | backend/src/ai/gemini-classifier.js:166-172 | the report once `p` articles are processed: the counts so far |
| `GeminiClassifier.RunGroup` | backend/src/ai/gemini-classifier.js:137-162 | the articles of one group in order, each counted as a success or as both a failure and an error |
| `GeminiClassifier.RunGroups` | backend/src/ai/gemini-classifier.js:121-182 | one entry per article in input order; `successful + failed == total`; `failed == errors`; the trace is the group schedule |
| `GeminiClassifier.ClassifyBatch` | backend/src/ai/gemini-classifier.js:121-182 | the same for `classifyArticleWithGemini` |
| `UnifiedClassifier.Name` | backend/src/ai/unified-classifier.js:31 | each provider has its own name: `openai`, `gemini` or `none` |
| `UnifiedClassifier.AvailableProvider` | backend/src/ai/unified-classifier.js:33-52 | Gemini exactly when its key is usable, whatever the OpenAI key. OpenAI exactly when Gemini's key is not usable and the OpenAI key is set, not the placeholder and starts with `sk-`. Otherwise none |
| `UnifiedClassifier.ChosenProviderReady` | backend/src/ai/unified-classifier.js:33-52 | a selected provider always has its client |
| `UnifiedClassifier.KeyWithoutPrefixIgnored` | backend/src/ai/unified-classifier.js:43-49 | an OpenAI key without `sk-` creates the client but is never selected |
| `UnifiedClassifier.Status` | backend/src/ai/unified-classifier.js:58-82 | `any_configured` exactly when the active provider is not `none`. The active provider is `gemini` exactly when Gemini is configured, and `openai` exactly when OpenAI is configured and Gemini is not. The model names fall back to their defaults. Each `configured` flag is the value of its `&&` chain: `undefined` for an unset key, `""` for an empty one, and the boolean check otherwise |
| `UnifiedClassifier.KeyAnd` | backend/src/ai/unified-classifier.js:59-66 | `key && rest` is `undefined`, `""` or the boolean `rest`, and is truthy exactly when the key is non-empty and `rest` holds |
| `UnifiedClassifier.ClassifyUnified` | backend/src/ai/unified-classifier.js:12-27 | the article goes to the selected provider; with none the call fails with the configuration message |
| `UnifiedClassifier.NoProviderMessageOnlyWithoutProvider` | backend/src/ai/unified-classifier.js:22-25 | the configuration message appears exactly when no provider is selected |
| `LocationExtractor.ModelVersion` | backend/src/ai/location-extractor.js:17 | `OPENAI_MODEL` when set and non-empty, otherwise `gpt-4o-mini` |
| `LocationExtractor.Valid` | backend/src/ai/location-extractor.js:129-131 | an accepted reply is an object whose `locations` property is an array |
| `LocationExtractor.Extract` | backend/src/ai/location-extractor.js:83-143 | every error carries `Location extraction failed: `. A reply is accepted exactly when the client exists, the request succeeds, the text parses and `locations` is an array. An accepted reply keeps its fields and its locations, and gains the model version, the measured processing time and the clock's `processed_at` timestamp |
| `LocationExtractor.ExtractErrors` | backend/src/ai/location-extractor.js:86-131 | every error path with its message, each behind the extraction prefix: no client; a failed provider call passes its own message through; an unparseable reply; a `null` reply gives the TypeError of reading `locations`; `locations` missing or not an array gives the invalid-structure message |
| `LocationExtractor.Bucket` | backend/src/ai/location-extractor.js:181-185 | `high` exactly from 0.7, `medium` exactly from 0.4 to below 0.7, `low` exactly below 0.4 |
| `LocationExtractor.BucketMonotone` | backend/src/ai/location-extractor.js:181-185 | a higher confidence never gets a lower bucket |
| `LocationExtractor.ConfidenceBucket` | backend/src/ai/location-extractor.js:181-185 | a confidence that is NaN to JavaScript is `low`; otherwise the bucket of its number |
| `LocationExtractor.WrappedConfidenceBucket` | backend/src/ai/location-extractor.js:181-185 | a confidence wrapped in one-element arrays gets the bucket of the number itself |
| `LocationExtractor.StringConfidenceBucket` | backend/src/ai/location-extractor.js:181-185 | a confidence sent as a decimal string gets the bucket of the number it spells |
| `LocationExtractor.Coordinates` | backend/src/ai/location-extractor.js:167-174 | a point exactly when `coordinates`, `lat` and `lng` are all truthy, holding `lng` then `lat` |
| `LocationExtractor.RowFor` | backend/src/ai/location-extractor.js:167-188 | the row fails exactly for a `null` location; a row carries its id, the article and method `ai` |
| `LocationExtractor.BuildIs` | backend/src/ai/location-extractor.js:176-188 | the row builder is `RowFor` |
| `LocationExtractor.InsertFrom` | backend/src/ai/location-extractor.js:156-192 | the insert loop inserts at most one row per location and, without an error, one for each |
| `LocationExtractor.InsertStep` | backend/src/ai/location-extractor.js:156-192 | one pass of the insert loop |
| `LocationExtractor.InsertedRows` | backend/src/ai/location-extractor.js:156-192 | the inserted rows are the rows of the first locations, in order with consecutive ids; every location gets a row exactly when no insert fails; a failure is at the first location whose row or insert failed |
| `LocationExtractor.MarkProcessed` | backend/src/ai/location-extractor.js:195-198 | the update sets the article's flag and touches no other article; an unknown id changes nothing |
| `LocationExtractor.Ids` | backend/src/ai/location-extractor.js:191 | consecutive ids from the first |
| `LocationExtractor.BuildFacts` | backend/src/ai/location-extractor.js:176-190 | the row builder gives a row the id it was handed and fails exactly on `null` |
| `LocationExtractor.SavedRows` | backend/src/ai/location-extractor.js:152-205 | whatever the outcome, old rows stay in front and each new row is the one built for the location at its position, with the next id |
| `LocationExtractor.AppendedRows` | backend/src/ai/location-extractor.js:156-192 | the inserted rows after the old ones are the built rows, in order |
| `LocationExtractor.SaveOutcome` | backend/src/ai/location-extractor.js:152-205 | a save succeeds exactly when no location is `null` and no query fails. On success there is one row per location, the returned ids are those rows' ids, and the article is flagged even with no locations. On failure no flag is set |
| `LocationExtractor.LocationStore.constructor` | backend/src/ai/location-extractor.js:152 | a new store has no location rows, ids from 1, and the given articles' flags |
| `LocationExtractor.LocationStore.InsertAll` | backend/src/ai/location-extractor.js:156-192 | the insert loop on the store appends exactly the specified rows, advances the id sequence by their number, and returns their ids and the first error |
| `LocationExtractor.LocationStore.SaveExtractedLocations` | backend/src/ai/location-extractor.js:152-205 | the method leaves the store and returns the result that the save specification gives |
| `LocationExtractor.ProcessOne` | backend/src/ai/location-extractor.js:232-275 | a failed extraction touches no table and gives an error entry. A successful one is saved. The entry records the locations found and the primary location exactly when the save succeeds |
| `LocationExtractor.ProcessPrefix` | backend/src/ai/location-extractor.js:229-291 | one entry per article processed |
| `LocationExtractor.EntriesInOrder` | backend/src/ai/location-extractor.js:249-274 | entry `j` is article `j`'s, an error entry when its extraction failed, and a success only with the extraction's location count |
| `LocationExtractor.PrefixEntries` | backend/src/ai/location-extractor.js:229-291 | later articles only append entries |
| `LocationExtractor.CountExtracted` | backend/src/ai/location-extractor.js:249 | the success count never exceeds the entries |
| `LocationExtractor.NoSuccessNoLocations` | backend/src/ai/location-extractor.js:250 | a batch with no success has extracted no locations |
| `LocationExtractor.Marks` | backend/src/ai/location-extractor.js:279-284 | the report after `p` articles: `p`, the total, the successes and failures so far |
| `LocationExtractor.ProcessArticle` | backend/src/ai/location-extractor.js:232-275 | the loop body computes one step of the specification on the store |
| `LocationExtractor.ProcessStep` | backend/src/ai/location-extractor.js:229-291 | one more article is one more pass |
| `LocationExtractor.AppendResult` | backend/src/ai/location-extractor.js:249-274 | one more entry adds to the success count and the location count only when it is a success |
| `LocationExtractor.Passes` | backend/src/ai/location-extractor.js:277-290 | one report per article processed |
| `LocationExtractor.PassesSnoc` | backend/src/ai/location-extractor.js:277-290 | one more article adds one report and a pause unless it was the last |
| `LocationExtractor.PassesTake` | backend/src/ai/location-extractor.js:277-290 | the same, on prefixes |
| `LocationExtractor.PassesAreSchedule` | backend/src/ai/location-extractor.js:277-290 | the per-article reports and pauses are the group schedule with groups of one, so the last report counts every article and no pause follows it |
| `LocationExtractor.RunLocations` | backend/src/ai/location-extractor.js:214-294 | the loop leaves the store and returns the entries and counters the specification gives. `successful + failed == total`, and `locations_extracted` sums the successful entries. One report per article, with `processed = i + 1`, and a pause between articles only |
| `LocationExtractor.ProcessArticles` | backend/src/ai/location-extractor.js:214-294 | the same for `extractLocations` |

## Left out

**External systems, represented as values:**
- HTTP (`axios.get`), the cheerio parse, the PostgreSQL pool, and the OpenAI and Gemini SDK calls. The model does not look inside them:
  - a fetch gives a `Document` or an error message;
  - a provider call gives a reply text or an error;
  - `JSON.parse` gives a value or a syntax error;
  - each query may fail with a given message.
- Timers and the clock.
  - `setTimeout` pauses are recorded as a trace of delays rather than waited for.
  - `Date.now()`, `new Date()` and `toISOString()` are values given per call.
  - `new Date(text)` is a parser oracle, with an invalid date as `None`.
- Console logging.
- The request headers and timeout.
- The `max_tokens` and `temperature` settings.
- The prompt texts. A prompt template is a parameter; only the placement of its placeholders is modelled.
- Closing the connection pool.

**Runtime details not modelled:**
- Environment variables are read once, when each module loads. Here they are an `Env` value per call.
- The actual concurrency of `Promise.all` in `classifyArticlesBatch`.
  - Its results keep input order, so a group is modelled sequentially.
  - The order of the `errors` list within a group is then input order, which the source does not promise.
- JavaScript strings are UTF-16; here a string is a sequence of Unicode scalar values.
- The text of the `POINT(lng lat)` column. The point keeps its two JSON values; their number formatting is not modelled.
- Object key order in spread results.
- Default arguments. Each default is a plain parameter that the caller supplies:
  - `limit`: 10 for the base scraper's `run` and for both Daily Star `getLatestNewsUrls`, 5 for the two Daily Star `run`s;
  - `batchSize` and `delayMs` of the batch functions: 5 and 1000 ms for OpenAI classification, 1 and 2000 ms for Gemini, 2000 ms for location extraction.
- The optional `onProgress` callback. Without it the source reports no progress at all. The model always records the progress reports in its trace, as if a callback were given.

**Database:**
- Only the columns the pipeline writes or reads are modelled: `news_articles`, `news_sources` and `article_locations`.
- `created_at` and the `ai_processed_at` timestamp are not modelled.
- The `news_sources` table is read-only here.

**Members and contracts:**
- `BaseScraper.MakeRequest`: `run` never calls it. It is modelled on its own, over an attempt oracle.
- `LocationExtractor.RowFor`: its contract states only the row's id, article and method, plus when it fails. The `coordinates` and `confidence` columns are stated by `Coordinates` and `ConfidenceBucket`. The other columns are copied from the location.
- `LocationExtractor.SaveOutcome`: stated for any row builder that numbers its rows and fails only on `null`. `BuildFacts` shows that the builder of `saveExtractedLocations` is one.
- `Classifier.RunGroups`, `GeminiClassifier.RunGroups`: they require `batchSize > 0`. With 0, the JavaScript loop never ends. A negative or fractional batch size is not modelled.
- `BaseScraper.ArticleStore.SaveArticle`: requires the store to be well formed (rows under their URL, distinct ids). Every constructor and method keeps this as a class invariant.
- `Prompts.FillLayout`: stated for values without `{` or `$`. `Text.Expand` models the `$` patterns of `replace`. `Prompts.TitleCapturesPlaceholder` shows what a field holding a placeholder does.
- The OpenAI client of `classifier.js` and `location-extractor.js` is created without the `sk-` test that `getAvailableProvider` applies. `UnifiedClassifier.KeyWithoutPrefixIgnored` states the difference.
- `getProviderStatus` reports OpenAI's model with the fallback `gpt-4o-mini`, while `classifier.js` falls back to `gpt-4`. Both constants are kept as written.
- The `delay(ms)` method of the base scraper is modelled only through `BaseScraper.ScrapingDelay`, the value it waits for.
- `Json.ToNumber`: the strings `Infinity`, `+Infinity` and `-Infinity` and the hexadecimal, octal and binary literals (`0x…`, `0o…`, `0b…`) count as NaN here; JavaScript converts them. Numbers are exact reals rather than IEEE doubles, so rounding at the 0.4 and 0.7 boundaries is not modelled.
- `LocationExtractor.ConfidenceBucket`: inherits the two gaps of `Json.ToNumber` above. A confidence of `"Infinity"` or `"0x1"` is `low` here and `high` in JavaScript.
- `ScrapeRun.Summarize`: the report always carries a `skipped` count. The results objects of the improved and the plain Daily Star scrapers have no `skipped` key; for them the count is always 0 (`ScrapeRun.NoSkipWithoutCheck`), and the key is not removed.
- `BaseScraper.Upsert`: ids are handed out without gaps. A PostgreSQL `SERIAL` sequence also consumes a value on an `ON CONFLICT` update and on a failed insert, so real ids can skip numbers; only their distinctness is relied on here.
- `LocationExtractor.Ids`: consecutive ids for the same reason as `BaseScraper.Upsert`; a failed insert would consume a sequence value in PostgreSQL.
- `UnifiedClassifier.ChosenProviderReady`: proved over one `Env` for both moments. In the source the OpenAI client of `classifier.js` is created when that module loads, after `dotenv` read only `./.env`. The provider is selected later, after `gemini-classifier.js` also loaded `../../../.env`. A key present only in the outer file is seen by the selection but not by the client, so OpenAI can be chosen with no client; this two-environment case is not modelled.
