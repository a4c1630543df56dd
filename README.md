# iTunes podcasts crawler, modelled in Dafny

This project models the core of `itunes.podcasts`, a Go command-line crawler of the iTunes podcast catalogue. The crawler runs in four stages, each writing JSON for the next:

- **genres** scrapes the genre index page, turning each scraped label and link into a genre whose ID is the number at the end of the link.
- **shows** scrapes every genre page for show links. For each link it asks the iTunes lookup API, and the show's RSS feed when the answer names one. Each show is built from the first API result and the feed's channel.
- **details** fetches the lookup answer of every show not already in the details cache, at most `chunk` of them, through a rate-limited single worker five seconds apart, and appends the new details to the cache unless some lookup failed. As written, every error-free lookup is rejected (see "## Findings"), so a non-empty batch never saves anything; the model's details round uses the corrected lookup.
- **feed** fetches every show's RSS feed at once and turns each into a feed record: the show ID (found by feed URL), the language code, the description and the last episode.

The `compact` records combine shows, details, feeds and genres through ID-keyed maps.

The model keeps the program's own structure: one Dafny module per Go file.

- `Requester`: `app/crawler/requester.go`.
- `Crawler`: `app/crawler/crawler.go`.
- `Genres`: `app/genre/genre.go`.
- `Shows`: `app/show/show.go`.
- `Details`: `app/show/details.go`.
- `Feeds`: `app/show/feed.go`.
- `Compact`: `app/compact.go`.
- `Actions`: the details stage of `app/actions.go`.
- `AppOptions`: `app/options.go`.

Support modules:

- `ShowRecords` holds the record types shared by `details.go` and `feed.go`.
- `Channels` models a buffered Go channel: a class with a buffer, a capacity and a closed flag.
- `Seqs` holds the shared facts about splitting results into successes and errors, mapping, building ID-keyed maps, and walking a map in arbitrary order.
- `Text` models the parts of Go's `fmt`, `strconv` and `strings` packages that the core uses.
- `Errors` models Go error values and `errors.Wrapf`/`errors.Cause`.
- `Wrappers` holds `Option` and `Result`.

How the outside world is modelled:

- **Network.** The network is a parameter `net: string -> Response`. A response is a transport failure, or a status code with a body that is readable or not.
- **Decoding.** `json.Unmarshal` and `xml.Unmarshal` are parameters returning a `Result`.
- **Goroutines.** Goroutines that each send one value are loops. Each step picks an arbitrary pending item with `:|`, so results arrive in an arbitrary order. Ghost out-parameters name that order, and the contracts hold for every order.
- **The rate-limited worker** is a method of its own that drains the input channel in order.

## Model

| member | source | states |
|---|---|---|
| Requester.GetEntitiesFromRequest | app/crawler/requester.go:84-102 | the result names its URL; a transport or read failure is returned as the error; a status other than 200 gives "Unreachable URL: <url>"; only a readable 200 reaches the decoder, whose two outputs are returned unchanged |
| Requester.NoErrorOnlyFromDecodedBody | app/crawler/requester.go:84-102 | a result without error implies the URL answered 200 with a readable body and the decoder reported no error |
| Requester.DecoderOnlyOnReadable200 | app/crawler/requester.go:84-102 | unless the answer is a readable 200, the decoder has no influence on the result |
| Requester.FetchAll | app/crawler/requester.go:30-50 | one result per URL, in URL order, each that URL's fetch |
| Requester.URLsOfFetchAll | app/crawler/requester.go:84-102 | the results name exactly the requested URLs, in order |
| Requester.FetchAllPermutation | app/crawler/requester.go:30-50 | fetching a permutation of the URLs gives a permutation of the results |
| Requester.RequestEntities | app/crawler/requester.go:30-50 | the channel comes back closed holding one result per URL, as a multiset equal to the sequential fetch, in some completion order |
| Requester.RequestEntitiesWithLimiter | app/crawler/requester.go:52-82 | with a positive duration, or with no URLs at all, the output channel comes back closed holding every URL's result in input order |
| Requester.LimitedWorker | app/crawler/requester.go:63-79 | the worker empties the closed input channel in order, appends one result per URL to the output and closes it |
| Requester.LimiterIsOrderedDispatch | app/crawler/requester.go:30-82 | both dispatchers produce the same multiset of results; the limited one keeps URL order |
| Crawler.GetEntityIDFromURL | app/crawler/crawler.go:84-95 | a failure is the Atoi syntax error on the last '/'-segment with one leading "id" removed, wrapped with "ID cannot be parsed from URL: <url>", and that Atoi error is its cause |
| Crawler.IDDependsOnLastSegment | app/crawler/crawler.go:86-89 | URLs with the same last segment give the same outcome and ID |
| Crawler.IDOfEntityURL | app/crawler/crawler.go:84-95 | a URL ending in "/id" plus the decimal form of n gives n, whatever precedes it |
| Crawler.IDOfBareNumber | app/crawler/crawler.go:84-95 | a URL ending in "/" plus the decimal form of n also gives n, since the prefix is optional |
| Crawler.OneIDPrefixRemoved | app/crawler/crawler.go:89 | only one "id" is trimmed: ".../idid<n>" is an error |
| Crawler.NonNumericID | app/crawler/crawler.go:84-95 | ".../idd" fails with the Atoi message `strconv.Atoi: parsing "d": invalid syntax` as its cause, wrapped with the URL |
| Crawler.MergeScrapes | app/crawler/crawler.go:46-62 | the merged map and error list equal the fold of the pages in delivery order |
| Crawler.MergedKeys | app/crawler/crawler.go:55-59 | a label is merged exactly when some page has it |
| Crawler.FirstPageWins | app/crawler/crawler.go:55-59 | a label gets the link of the first page that has it; later pages never overwrite |
| Crawler.MergedErrorsConcat | app/crawler/crawler.go:51-53 | errors of consecutive page groups concatenate |
| Crawler.MergedErrorsInOrder | app/crawler/crawler.go:51-53 | every page's errors appear whole, after those of the pages delivered before it |
| Genres.NewGenre | app/genre/genre.go:17-20 | the genre carries the given ID, label and link |
| Genres.GenresRequestOptions | app/genre/genre.go:22-28 | the genre index URL and the CSS pattern are the fixed, non-empty constants |
| Genres.GenresAlongMeaning | app/genre/genre.go:49-58 | each genre comes from the label at its position with its link and parsed ID; no error means one genre per label; an error is the parse error of the first label whose link fails |
| Genres.GenresAlongResult | app/genre/genre.go:49-58 | whatever the visiting order, every genre is built from its label, no error means one genre per visited label, and an error is some label's parse error |
| Genres.GenresAlongStops | app/genre/genre.go:52-54 | after the first failing link nothing more is added |
| Genres.GenresAlongStep | app/genre/genre.go:49-56 | one more label adds its genre or stops with its error |
| Genres.GetGenres | app/genre/genre.go:40-59 | a failed scrape gives no genres and the error wrapped with "genres cannot be loaded from URL: <url>"; otherwise the labels are visited once each, in some order, until the first failing link; every genre is built from a scraped label, its link and the link's ID; without error there is one genre per label, and an error is the parse error of some scraped link |
| Shows.ShowsRequestOptions | app/show/show.go:69-78 | the genre's URL, the show-link pattern and the lookup prefix "https://itunes.apple.com/lookup?id=" |
| Shows.ShowAPIURLCarriesID | app/show/show.go:161 | the API URL is the prefix followed by the decimal ID, which Atoi reads back |
| Shows.ShowAPIURLInjective | app/show/show.go:161 | distinct IDs give distinct API URLs |
| Shows.GetShowFromAPI | app/show/show.go:159-180 | a transport or read failure is the error; otherwise the body is decoded; the status code is not examined |
| Shows.APIIgnoresStatus | app/show/show.go:159-180 | two answers differing only in status code give the same outcome |
| Shows.GetShowFromRSS | app/show/show.go:182-202 | a transport or read failure is the error; otherwise the body is decoded as RSS |
| Shows.NewShow | app/show/show.go:204-226 | identity, artist, feed, genres and images come from the first API result; description and last episode from the feed channel; language is empty |
| Shows.NewShowUsesFirstResultOnly | app/show/show.go:206 | results after the first never influence the show |
| Shows.FeedOf | app/show/show.go:151-154 | no feed URL means the empty RSS; a feed that fails is replaced by the empty RSS |
| Shows.GetShowDetails | app/show/show.go:139-157 | an ID error or an API error is returned as it is; otherwise the show is built from the API answer and its feed |
| Shows.RSSFailureIgnored | app/show/show.go:151-156 | a missing or failing feed still yields a show, with empty description and last episode |
| Shows.NoFeedNoRSSRequest | app/show/show.go:152-153 | without a feed URL only the API answer matters |
| Shows.DetailsAlong | app/show/show.go:118-127 | one outcome per visited link, in visiting order, each that link's show details |
| Shows.DetailsAlongSnoc | app/show/show.go:118-127 | one more visited link appends its outcome |
| Shows.ShowWorker | app/show/show.go:120-127 | one goroutine sends the show to the result channel or the error to the error channel, never both |
| Shows.GetShowsFromEntities | app/show/show.go:112-137 | both channels come back closed; every link is visited once in some order; the result and error channels hold the successes and failures of those links in that order |
| Shows.GetShows | app/show/show.go:80-100 | a failed scrape gives no shows and that single error; otherwise every link gives exactly one show or one error |
| Shows.ShowsFromLinks | app/show/show.go:112-137 | a show is returned exactly when some visited link builds it |
| Details.LookupURLCarriesID | app/show/details.go:47 | the lookup URL is "https://itunes.apple.com/lookup?id=" followed by the decimal ID, which Atoi reads back |
| Details.LookupURLInjective | app/show/details.go:47 | distinct show IDs give distinct lookup URLs |
| Details.LookupURLMatchesShowAPI | app/show/details.go:47 | the details lookup URL is the one the shows stage queries for the same ID |
| Details.GetDetailsRequestOptions | app/show/details.go:43-55 | one lookup URL per show, in show order, and a five-second interval |
| Details.LookupDecoder | app/show/details.go:104-113 | a decodable body gives the response value without error; otherwise a non-response entity with the decoding error |
| Details.GetLookupDetails | app/show/details.go:115-146 | a non-response entity is "Invalid entity detected"; an empty results list is "Show is not found"; otherwise the details come from the first result with empty description and last episode |
| Details.LookupDetailsUseFirstResult | app/show/details.go:126 | results after the first are ignored |
| Details.Classify | app/show/details.go:63-75 | a fetch error is kept as it is; otherwise the entity decides |
| Details.ErrorBeforeEntity | app/show/details.go:64-67 | the entity of an errored result plays no part |
| Details.ClassifyStep | app/show/details.go:63-75 | one more result goes to the end of the details or of the errors |
| Details.CollectDetails | app/show/details.go:63-75 | draining the closed channel gives, in channel order, the details and errors its results classify to |
| Details.GetDetails | app/show/details.go:57-78 | the details and errors are those of the limiter's results in URL order, one per URL |
| Details.GetDetailsMembers | app/show/details.go:57-78 | a detail or error is returned exactly when some lookup result classifies to it |
| Details.ClassifyAsWritten | app/show/details.go:63-75 | as written: a fetch error is kept, and every error-free result is classified as the invalid-entity error |
| Details.AsWrittenYieldsNoDetails | app/show/details.go:68 | with the result passed instead of its entity, no error-free lookup ever becomes a detail |
| Details.AsWrittenRejectsDecodedLookup | app/show/details.go:68 | a decodable 200 lookup is rejected as an invalid entity as written, but gives details or "Show is not found" as intended |
| Feeds.WithFeed | app/show/feed.go:75-78 | keeps only shows with a non-empty feed URL, no more of them than there are shows |
| Feeds.WithFeedMembers | app/show/feed.go:75-78 | exactly the shows with a non-empty feed URL take part |
| Feeds.WithFeedConcat | app/show/feed.go:75-79 | the filtering keeps show order |
| Feeds.FeedURLsOfFeeds | app/show/feed.go:83-93 | one non-empty URL per show with a feed, in show order |
| Feeds.GetShowsURLToID | app/show/feed.go:72-81 | the map built by the loop is the feed-URL-to-ID map of the shows with a feed |
| Feeds.GetRequestOptions | app/show/feed.go:83-93 | the requested URLs are the feed URLs in show order |
| Feeds.WithFeedAround | app/show/feed.go:75-79 | the filtered list splits around any show with a feed |
| Feeds.URLToIDLastWins | app/show/feed.go:75-79 | a feed URL maps to the ID of the last show carrying it |
| Feeds.RequestedURLsAreMapped | app/show/feed.go:72-93 | a URL is requested exactly when it is a key of the URL map |
| Feeds.FeedLanguage | app/show/feed.go:118 | the language code is the lower-cased text before the first '-' |
| Feeds.FeedLanguageExamples | app/show/feed.go:118 | "en-US" gives "en", "EN" gives "en", "" gives "" |
| Feeds.GetFeedData | app/show/feed.go:106-130 | a non-RSS entity is "Invalid entity detected"; an unknown URL is "Cannot retrieve the show id"; otherwise the feed has the mapped ID, language code, description and last episode with the build date as published |
| Feeds.RSSDecoder | app/show/feed.go:95-104 | a decodable body gives the RSS value without error; otherwise a non-RSS entity with the error |
| Feeds.Classify | app/show/feed.go:48-58 | a fetch error is kept as it is; otherwise the entity and URL decide |
| Feeds.ClassifyStep | app/show/feed.go:48-58 | one more result goes to the end of the feeds or of the errors |
| Feeds.CollectFeeds | app/show/feed.go:48-59 | draining the closed channel gives, in channel order, the feeds and errors its results classify to |
| Feeds.GetFeed | app/show/feed.go:40-62 | the completed fetches are a permutation of the fetches of the feed URLs; the feeds and errors are their classification in completion order, one per feed URL |
| Feeds.NoUnknownShow | app/show/feed.go:113-116 | every fetched URL is in the URL map, so "Cannot retrieve the show id" never happens; an error-free failure is only "Invalid entity detected" |
| Feeds.FeedOrderIrrelevant | app/show/feed.go:48-59 | completion order changes the order but not the multisets of feeds and errors |
| Compact.GetGenresMap | app/compact.go:36-42 | every genre is stored under its ID, a later genre with the same ID winning |
| Compact.GetDetailsMap | app/compact.go:44-50 | every detail is stored under its ID, the last one winning |
| Compact.GetFeedsMap | app/compact.go:52-58 | every feed is stored under its ID, the last one winning |
| Compact.GenreNamesBound | app/compact.go:92-103 | at most one name per genre ID |
| Compact.GenreNamesNoGenres | app/compact.go:98-101 | without known genres the list is empty |
| Compact.GenreNamesAllKnown | app/compact.go:92-103 | when every ID parses and is known, the names are those genres' names in ID order |
| Compact.GenreNamesConcat | app/compact.go:93-103 | names of concatenated ID lists concatenate |
| Compact.GenreNamesSkipsNonNumeric | app/compact.go:94-97 | an ID that Atoi rejects is skipped without effect on the others |
| Compact.CompactShow.constructor | app/compact.go:61-67 | the record holds the show's ID, name and URL and is otherwise empty |
| Compact.CompactShow.SetFromFeed | app/compact.go:70-78 | succeeds exactly when the show's ID has a feed; then only language and description change, otherwise nothing |
| Compact.CompactShow.SetFromDetails | app/compact.go:81-105 | succeeds exactly when the ID has details; then name, feed URL, the three images and the genre names change, otherwise nothing |
| Actions.CachedIDs | app/actions.go:45-48 | the map's keys are exactly the cached IDs, each marked 1 |
| Actions.Take | app/actions.go:53-55 | at most n items, a prefix of the list, the whole list when it is short and exactly n otherwise |
| Actions.SelectFresh | app/actions.go:50-55 | the batch is the first `chunk` uncached shows in show order |
| Actions.UncachedMembers | app/actions.go:52 | a show is a candidate exactly when it is not cached |
| Actions.UncachedConcat | app/actions.go:51-55 | selection keeps show order |
| Actions.FreshIsUncachedAndBounded | app/actions.go:50-55 | no cached show is selected; the batch never exceeds the chunk; chunk 0 selects nothing |
| Actions.FreshIsPrefixOfUncached | app/actions.go:50-55 | the batch is either full or holds every uncached show |
| Actions.DuplicatesBothSelected | app/actions.go:50-55 | two uncached shows with the same ID are both selected |
| Actions.NextCache | app/actions.go:57-62 | nothing is saved when a fetch failed; otherwise the old cache is followed by the new details |
| Actions.CacheMergeKeepsDuplicates | app/actions.go:61 | the merge is an append, so an already cached detail is stored twice |
| Actions.SavedShowNotRefetched | app/actions.go:45-61 | a show whose details were saved is never selected in the next run |
| Actions.FetchedMeaning | app/show/details.go:57-78 | a batch's lookups give no error exactly when each one classifies to details; then the details are those, in batch order |
| Actions.NextCacheOfBatch | app/actions.go:57-62 | nothing is saved exactly when some batch show's lookup fails; otherwise the old cache is followed by each batch show's details, in batch order |
| Actions.AsWrittenRoundSavesNothing | app/show/details.go:68 | with the lookup as written, a round over any non-empty batch saves nothing |
| Actions.DetailsRound | app/actions.go:45-62 | the saved cache is what the next-cache rule gives for the first `chunk` uncached shows' fetched details and errors; it starts with the old cache and grows by exactly the batch size |
| AppOptions.IsTypeValid | app/options.go:31-40 | valid exactly when the type is one of genres, shows, details, feed |
| AppOptions.ValidTypeIsExact | app/options.go:18-33 | matching is exact: "genre", "Genres" and the default "" are refused |
| AppOptions.NewOptions | app/options.go:15-29 | fails with "Invalid data type" exactly when the type is invalid, otherwise returns the parsed options |
| Text.ParseDecimal | app/crawler/crawler.go:89 | a failure is the Atoi syntax error naming the input; a success means an optional sign followed by at least one decimal digit |
| Text.ParseDecimalMeaning | app/crawler/crawler.go:89 | Atoi succeeds exactly on an optional sign followed by at least one decimal digit (leading zeros and '+' allowed), and the value is the digits' value, negated after '-' |
| Text.FormatThenParse | app/show/details.go:47 | formatting an integer with %d and reading it back with Atoi gives the integer |
| Text.LastSegment | app/crawler/crawler.go:86-87 | the last segment holds no '/' and is the tail of the URL after its last '/' |
| Text.FirstField | app/show/feed.go:118 | the text before the first separator: a prefix free of the separator, followed by the separator unless it is the whole text |
| Text.ToLowerAscii | app/show/feed.go:118 | same length, each ASCII capital replaced by its small letter and every other character kept |
| Errors.Wrap | app/crawler/crawler.go:91 | the wrapped error reads context, ": ", then the original message, and keeps the original's cause |
| Errors.Cause | app/crawler/crawler.go:91 | the cause is a plain message, and a plain message is its own cause |
| Text.TrimPrefix | app/crawler/crawler.go:89 | one leading copy of the prefix is removed when present; otherwise the text is unchanged |

## Left out

- HTTP requests are not modelled. The network is a function parameter that gives the same answer to every request for the same URL (`http.Get`, `ioutil.ReadAll`).
- HTML scraping with colly is not modelled. `getEntitiesFromHTML` and the `GetEntities` that `genre.go` and `show.go` call are outside the model. Their output (a label-to-link map or an error) is an input of `Genres.GetGenres` and `Shows.GetShows`. The goroutine fan-out of `ScrapeEntities` (crawler.go:28-44) is not modelled; only its merge loop is (`Crawler.MergeScrapes`, over the pages in delivery order).
- JSON and XML decoding are parameters returning a `Result`. A decoded value of the wrong Go type is the entity `OtherValue`.
- File I/O is not modelled: `Save*`, `*FromFile`, `static.Save`/`Load` and `SaveCompactShows`. The cached details are an input of `Actions.DetailsRound`.
- `actionGenres`, `actionShows` and `actionFeed` are not modelled. Each only chains a modelled stage with file I/O and `stopOnErrors`. `actionDetails` is modelled as `Actions.DetailsRound`.
- Logging, `fmt.Println`, the progress counter `i` in the limiter, and `stopOnError(s)` (process exit) are not modelled. The exit on a fetch error is why `Actions.NextCache` saves nothing when errors occurred.
- `flag` parsing is not modelled. `AppOptions.NewOptions` takes the already-parsed flags. `AppOptions.DefaultOptions` records the defaults.
- Timing is not modelled. `time.Tick` spacing is not modelled. A non-positive duration makes `time.Tick` return nil, and the worker then blocks forever at its first URL; so `Requester.RequestEntitiesWithLimiter` and `Details.GetDetails` require a positive duration unless the URL list is empty, in which case the worker closes `out` without waiting.
- `sync.WaitGroup` and goroutine interleaving are modelled as an arbitrary completion order chosen one step at a time. Concurrent sends that overlap in time are not modelled.
- `strings.ToLower` is modelled on ASCII letters only (`Text.ToLowerAscii`). Unicode case mapping is not modelled.
- `strconv.Atoi`'s range limit is not modelled. Out-of-range input is a range error in Go; the model reads any length of digits.
- The index-out-of-range panic is not modelled as an outcome. `getShowDetails` and `newShow` read `Results[0]` without checking (show.go:152-153, 206), so a successful lookup with no results crashes the whole program, and no show or error is ever returned. `Shows.GetShowDetails` and `Shows.ShowWorker` therefore require this for their own link (`Shows.ResultsPresent`), `Shows.GetShowsFromEntities` and `Shows.GetShows` for each scraped link (`Shows.LinksAnswered`), and `Shows.DetailsAlong` for each visited link.
- `chunk` is a `nat`. The `-chunk` flag is an `int`, and a negative value makes `make([]*show.Show, 0, chunk)` panic (actions.go:50); that crash is not modelled.
- The quoting of `strconv.Atoi`'s error is not modelled in full. Go quotes the input with `strconv.Quote`, which escapes `"`, `\`, non-printable characters and invalid UTF-8; `Text.SyntaxError` puts the input between plain quotes. For a last segment such as `a"b`, the error text of `Crawler.GetEntityIDFromURL` therefore differs from the program's.
- Values returned alongside an error are not modelled. The empty `&Show{}`, `&ShowDetails{}`, `&Feed{}` and the `0` ID are ignored by every caller, so those results are `Result.Err`.
- `GetScraperOptions` (crawler.go:23-26) is not a separate function. It is the datatype constructor `Crawler.ScraperOptions`.
- `actionDetails` calls `GetDetailsRequestOptions` with a second argument (actions.go:57). The `details.go` in this revision takes only the shows and fixes the interval at five seconds, so the model follows `details.go`.
- The details cache merge is a plain append, not a keyed union: a detail present both in the cache and in the new batch is kept twice (actions.go:61; `Actions.CacheMergeKeepsDuplicates`).
- `crawler_test.go:83` expects the bare Atoi message. The code wraps it with `errors.Wrapf` (crawler.go:91), and the model follows the code: the Atoi message is the error's cause (`Crawler.NonNumericID`).
- `show.go` and `details.go` both declare `ShowImage` and `Podcast`, with different fields. `Shows` keeps the `show.go` versions and `ShowRecords` the `details.go`/`feed.go` versions.
- Actions.DetailsRound: like `Actions.Lookup` and `Actions.Fetched`, it is built on the corrected lookup of the details.go:68 finding (`Details.Classify`). With the code as written a non-empty batch saves nothing (`Actions.AsWrittenRoundSavesNothing`).

## Findings

| source | as written | input that shows it | evidently intended | confidence | as-written member | corrected member |
|---|---|---|---|---|---|---|
| app/show/details.go:68 | `getLookupDetails(en)` passes the whole `*RequestResult`, so the type assertion to `lookupResponse` always fails and every error-free lookup becomes "Invalid entity detected" | any lookup answered 200 whose body decodes to a `lookupResponse`, such as the answers `details_test.go:81-118` expects to yield details | `getLookupDetails(en.Entity)`, which gives the show's details or "Show is not found" | high, not executed | Details.AsWrittenYieldsNoDetails, Actions.AsWrittenRoundSavesNothing | Details.GetDetails, Actions.DetailsRound |
