# tweet_harvest timeline-extraction core, in Dafny

This project models the part of `tweet_harvest` that turns the X/Twitter web app's GraphQL timeline
responses into CSV rows, and proves properties of that model. The modelled code is:

- `TwitterCrawler` in `tweet_harvest/crawler.py`:
  - the output-path and mode settings;
  - the search query;
  - the response filter;
  - `_parse_and_save`, which resolves the entries, filters and normalises each one, dedups the rows and writes one batch per payload;
  - `_prepare_csv_row`, including the regex text cleaning;
  - the stopping rule of the scroll loop in `crawl`.
- The pydantic schema in `tweet_harvest/models.py`.
- The capped exponential backoff in `tweet_harvest/features/backoff.py`.

Modules, one per component:

| file | module | models |
|---|---|---|
| `Values.dfy` | `Values` | Decoded JSON and the Python semantics the code relies on: `dict.get` with a default, and truthiness. |
| `Text.dfy` | `Text` | Python's `in` on strings, `\s`, `re.sub(r'(\s+\|https?://[^\s]+)', ' ', …)`, `str.strip()` and `replace(" ", "_")`. |
| `Models.dfy` | `Models` | `model_validate` for every record of `models.py`, as a total function from JSON to a record or `ValidationError`. |
| `Backoff.dfy` | `Backoff` | `wait_for_rate_limit`'s wait time. |
| `Resolver.dfy` | `Resolver` | Finding the raw entries of one payload, search shape or user-timeline shape. |
| `Rows.dfy` | `Rows` | The fate of one raw entry (skip, emit a row, or crash the payload) and the row builder. |
| `Harvest.dfy` | `Harvest` | The dedup accumulator as specification functions, and an independent "emitted rows, then dedup" reference. |
| `Crawler.dfy` | `Crawler` | The `TwitterCrawler` class: the store `all_tweets`, a ghost log of written batches, and the `_parse_and_save` and scroll loops as methods. |

Python exceptions are modelled explicitly:

- A `ValidationError` skips one entry.
- Any other exception in the entry loop is a `Crash` verdict. It abandons the rest of the payload, but the rows already appended stay in the store.
- An exception in the resolver outside its `try` gives `None`.

Three behaviours of the code are easy to misread. The model follows the code as written:

- **Text cleaning** (`tweet_harvest/crawler.py:136`). The regex replaces each whitespace run and each URL with its own space, and `strip()` only trims the ends. So `"Check this out   https://example.com/x  now"` becomes `"Check this out   now"`, with three spaces, not one (`Text.CleanTextExample`).
- **Empty id** (`tweet_harvest/models.py:35`). `id_str` is a required `str`, so the empty string is accepted (`Models.TweetLegacyRequiresId`). The dedup test at `tweet_harvest/crawler.py:121` then treats `""` like any other id.
- **Failures.** The per-entry `except` at `tweet_harvest/crawler.py:125` catches only `ValidationError`. Any other exception leaves `_parse_and_save` and is swallowed by `_handle_response` (`tweet_harvest/crawler.py:72`), so the rest of the payload is dropped:
  - a `tweet_results` that is not a dict, a post without `legacy`, a null `full_text` or `entities`, or an empty media list (`tweet_harvest/crawler.py:107-154`);
  - a dict `instructions` in the search branch (`KeyError` at `[0]`, `tweet_harvest/crawler.py:82`), or a null `instructions` in either branch (`TypeError`), which escape the `except (IndexError, AttributeError)` at `tweet_harvest/crawler.py:83` and `94`. In the user branch a dict yields its string keys, and the first `.get` raises an `AttributeError` that line 94 catches, so nothing escapes there;
  - a `TimelineAddEntries` entry list that is null or a number (`TypeError` in `extend`, `tweet_harvest/crawler.py:89`).

## Model

| member | source | states |
|---|---|---|
| `Text.ContainsIffOccurs` | tweet_harvest/crawler.py:103 | Python's `t in s` on strings holds exactly when `t` occurs in `s` at some index. |
| `Text.Substitute` | tweet_harvest/crawler.py:136 | After the regex substitution, every whitespace character left is a plain space. |
| `Text.SubstituteLeavesNoUrl` | tweet_harvest/crawler.py:136 | No position of the substituted text starts an `http://` or `https://` URL token. |
| `Text.Strip` | tweet_harvest/crawler.py:136 | `strip()` gives a slice of the input with no whitespace at either end, and only whitespace was removed on each side. |
| `Text.CleanText` | tweet_harvest/crawler.py:136 | The cleaned text has no whitespace at either end, no whitespace other than `' '`, and no URL token anywhere. |
| `Text.CleanTextExample` | tweet_harvest/crawler.py:136 | `"Check this out   https://example.com/x  now"` cleans to `"Check this out   now"`, with three spaces. |
| `Text.ReplaceSpaces` | tweet_harvest/crawler.py:39 | `replace(" ", "_")` keeps the length and changes exactly the spaces, to underscores. |
| `Models.ValidateItems` | tweet_harvest/models.py:50 | A `List[TweetItem]` validates exactly when every element does, and the result lists the elements' records in order. |
| `Models.UserRoundTrip` | tweet_harvest/models.py:5-24 | Validating a serialised `User` (with its legacy, core and location records) gives it back. |
| `Models.TweetLegacyRoundTrip` | tweet_harvest/models.py:26-38 | Validating a serialised `TweetLegacy` gives it back. |
| `Models.TweetResultRoundTrip` | tweet_harvest/models.py:40-43 | Validating a serialised `TweetResult` gives it back. |
| `Models.TweetLegacyRequiresId` | tweet_harvest/models.py:35 | With well-typed optional fields, `TweetLegacy` validates exactly when `id_str` is present and a string (the empty string included), and the record carries that id. |
| `Models.TweetLegacyValidIff` | tweet_harvest/models.py:26-38 | A value validates as `TweetLegacy` exactly when it is an object, its optional fields are absent, null or of their type, and it has a string `id_str`. |
| `Models.TweetLegacyDefaults` | tweet_harvest/models.py:27-38 | With only `id_str` given, the strings default to `""`, the counters to `0`, `in_reply_to_screen_name` to None and `entities` to `{}`. |
| `Models.TweetLegacyExplicitNull` | tweet_harvest/models.py:27-38 | A field given as JSON `null` validates to None, not to its default. |
| `Models.TweetLegacyIgnoresUnknownKeys` | tweet_harvest/models.py:26-38 | Adding or changing a key `TweetLegacy` does not declare does not change the validation result. |
| `Models.UserSubRecordDefaults` | tweet_harvest/models.py:5-19 | An empty object validates as `UserCore`, `Location` and `UserLegacy`, giving `""` and `0` defaults. |
| `Models.UserSubRecordsValidIff` | tweet_harvest/models.py:5-19 | The user sub-records fail only on a field of the wrong type, never on a missing key. |
| `Models.UserMissingKeys` | tweet_harvest/models.py:21-24 | A `User` without `legacy`, `core` and `location` validates, with all three None. |
| `Models.TweetResultDefaults` | tweet_harvest/models.py:40-43 | A `TweetResult` without its keys validates with `rest_id` `""`, `legacy` None and `core` `{}`. |
| `Models.EntryRequiresAlias` | tweet_harvest/models.py:52-54 | An `Entry` needs a string `entryId` and carries it as `entry_id`; `entry_id` under its Python name is rejected. |
| `Models.EntryContentFields` | tweet_harvest/models.py:45-50 | `EntryContent` reads `itemContent` (not `item_content`), and a valid `items` list keeps its length. |
| `Backoff.WaitTimeCapped` | tweet_harvest/features/backoff.py:5 | The wait never exceeds `max_timeout_secs` nor `base * 2^attempt`, and equals one of the two. |
| `Backoff.Pow2Monotone` | tweet_harvest/features/backoff.py:5 | `2 ** attempt` is non-decreasing in `attempt`. |
| `Backoff.WaitTimeMonotone` | tweet_harvest/features/backoff.py:5 | With a non-negative base, a later attempt never waits less. |
| `Backoff.DefaultSchedule` | tweet_harvest/features/backoff.py:3-5 | With the defaults, attempts 0 to 3 wait 60, 120, 240 and 480 seconds, and every later attempt waits 600. |
| `Resolver.Iterate` | tweet_harvest/crawler.py:87-89 | Iterating or extending by a list yields its items; null, numbers and bools raise `TypeError`; strings and dicts yield only strings. |
| `Resolver.ResolveEntries` | tweet_harvest/crawler.py:77-97 | The resolver with the instruction loop written out computes `Resolve(payload)`. |
| `Resolver.GatherStopped` | tweet_harvest/crawler.py:86-94 | Once the instruction loop has been stopped by an exception, later instructions change nothing. |
| `Resolver.SearchTakesPriority` | tweet_harvest/crawler.py:80-84 | When `data.search_by_raw_query` is truthy, the search branch decides the result whatever `data.user` holds. |
| `Resolver.SearchTakesFirstInstruction` | tweet_harvest/crawler.py:80-83 | In the search shape the entries are exactly `instructions[0].entries`, in order; later instructions are ignored. |
| `Resolver.SearchWithoutInstructions` | tweet_harvest/crawler.py:80-83 | An empty or missing `instructions` list yields no entries, without an error. |
| `Resolver.GatherConcatenates` | tweet_harvest/crawler.py:86-93 | Over well-formed instructions, the result concatenates each `TimelineAddEntries` list and each truthy pinned entry in instruction order; other types contribute nothing. |
| `Resolver.KeepsPrefixOnAttributeError` | tweet_harvest/crawler.py:86-94 | An instruction that is not a dict stops the loop, and the entries gathered before it are kept. |
| `Resolver.UserShapeConcatenates` | tweet_harvest/crawler.py:84-94 | A user-timeline payload resolves to the concatenation of its instructions' contributions. |
| `Resolver.NeitherShape` | tweet_harvest/crawler.py:77-97 | A non-dict payload is dropped, and a payload with neither shape yields no entries. |
| `Rows.RowCells` | tweet_harvest/crawler.py:141-157 | A row's keys are exactly the 15 columns of `FILTERED_FIELDS`, in that order. |
| `Rows.ImageUrl` | tweet_harvest/crawler.py:154 | Without a `media` key the image URL is `""`. When `media` is a non-empty list whose first item is a dict, it is that item's `media_url_https` (`""` when missing). In every other case the lookup raises. |
| `Rows.PrepareRow` | tweet_harvest/crawler.py:134-157 | Row building succeeds exactly when `legacy`, `full_text`, `entities` and a first media dict (when `media` is given) are present. The row then copies `created_at`, `id_str`, the four counters, `lang`, `user_id_str`, `conversation_id_str` and `in_reply_to_screen_name` from `legacy`, holds the cleaned text and the image URL, and builds the URL from username and id. Username and location are `""` when `user.core` or `user.location` is absent. |
| `Rows.EmitRequiresFilters` | tweet_harvest/crawler.py:100-119 | An emitted row comes only from an entry meeting every filter in order: a valid entry, "tweet" in the id, non-empty `itemContent`, tweet and user results, both validating, and the language filter passing. The row is built from the validated records. |
| `Rows.NonTweetIdSkipped` | tweet_harvest/crawler.py:103-104 | An entry whose id does not contain "tweet" is skipped whatever else it holds. |
| `Rows.NonObjectSkipped` | tweet_harvest/crawler.py:101-102 | A raw entry that is not a dict fails validation and is skipped. |
| `Rows.LanguageFilter` | tweet_harvest/crawler.py:116-117 | A non-empty filter keeps a post exactly when its language equals the filter: a post that would be emitted unfiltered is emitted unchanged when its language matches and skipped otherwise, and every other verdict is unchanged. An empty or absent filter changes nothing. |
| `Rows.EmittedRowShape` | tweet_harvest/crawler.py:136-153 | An emitted row's `tweet_url` is `https://x.com/<username>/status/<id_str>` and ends with the id. Its text has no edge whitespace, no whitespace other than `' '`, and no URL. |
| `Rows.MissingLegacyCrashes` | tweet_harvest/crawler.py:136 | A post without `legacy` raises in the row builder. |
| `Rows.RowDefaults` | tweet_harvest/crawler.py:138-154 | With no media key and no user core or location, the image URL, username and location are `""` and the URL is `https://x.com//status/<id>`. |
| `Rows.EmptyMediaCrashes` | tweet_harvest/crawler.py:154 | An empty media list raises `IndexError` in the row builder. |
| `Harvest.AbsorbAppends` | tweet_harvest/crawler.py:121-123 | The store after the entry loop is the store before it followed by the batch. |
| `Harvest.AbsorbKeepsDistinct` | tweet_harvest/crawler.py:121-123 | The entry loop keeps the stored ids pairwise distinct. |
| `Harvest.IngestAppendsNewRows` | tweet_harvest/crawler.py:99-126 | One payload appends exactly its batch. The batch has no id already stored and no id twice, and the store's ids stay distinct. |
| `Harvest.AbsorbCrashed` | tweet_harvest/crawler.py:100-126 | After a crash the remaining entries are not looked at. |
| `Harvest.AbsorbIsDedupOfEmitted` | tweet_harvest/crawler.py:99-126 | The batch is the rows emitted before the first crash, minus those whose id is stored or kept earlier, in order. The loop crashed exactly when some entry crashes. |
| `Harvest.IngestIsDedupOfEmitted` | tweet_harvest/crawler.py:77-126 | The same for a whole resolved payload, starting from an empty batch. |
| `Harvest.CrashTruncates` | tweet_harvest/crawler.py:100-130 | A crashing entry ends the payload. The outcome is what the entries before it gave: their rows stay stored, but no batch is written. |
| `Harvest.EmittedIdsStored` | tweet_harvest/crawler.py:121-123 | Every row emitted before the first crash has its id in the final store, and no stored id is lost. |
| `Harvest.AbsorbStoredAddsNothing` | tweet_harvest/crawler.py:121-123 | When every emitted id is already stored, the loop changes neither store nor batch. |
| `Harvest.IngestIdempotent` | tweet_harvest/crawler.py:77-130 | Handling the same payload a second time adds no row and writes no batch. |
| `Harvest.IdsConcat` | tweet_harvest/crawler.py:121 | The id set of two concatenated row lists is the union of their id sets. |
| `Harvest.DistinctConcat` | tweet_harvest/crawler.py:121-123 | Two row lists concatenate without duplicate ids exactly when each is duplicate-free and they share no id. |
| `Crawler.OutputPath` | tweet_harvest/crawler.py:39-45 | The output path ends with `.csv` and contains no space. |
| `Crawler.DefaultUserPath` | tweet_harvest/crawler.py:36-45 | Without an output name, a user crawl writes to `tweets-data/from_<user>_<time>.csv`, with spaces made underscores. |
| `Crawler.DefaultPathFollowsMode` | tweet_harvest/crawler.py:36-45 | Without an output name the mode decides the file. A user crawl writes `tweets-data/from_<user>_<time>.csv`. A search crawl writes `tweets-data/<keywords>_<time>.csv`, or `<keywords>_<time>.csv` itself when the keywords start with `/`. Spaces become underscores. |
| `Crawler.NoKeywordsPath` | tweet_harvest/crawler.py:42-45 | A search without keywords writes `tweets-data/None_<time>.csv`, as the f-string prints `None`. |
| `Crawler.RelativeOutputName` | tweet_harvest/crawler.py:39-45 | A relative output name gives `tweets-data/<name>.csv`, spaces made underscores, in either mode. |
| `Crawler.EmptyOutputNameIgnored` | tweet_harvest/crawler.py:39-43 | An empty output name is falsy, so the default name is used. |
| `Crawler.AbsoluteOutputName` | tweet_harvest/crawler.py:45 | An absolute output name replaces the `tweets-data` folder, as `os.path.join` does. |
| `Crawler.SearchQuery` | tweet_harvest/crawler.py:57-61 | The query fails exactly when there are no keywords, and otherwise starts with the keywords. |
| `Crawler.SearchQueryDates` | tweet_harvest/crawler.py:57-61 | Dates are appended as ` since:<from>` then ` until:<to>`, each only when truthy: both, `since` alone, `until` alone, or neither. |
| `Crawler.AcceptResponseIff` | tweet_harvest/crawler.py:68 | A response is handled exactly when its status is 200 and its URL contains `api/graphql` and either `SearchTimeline` or `UserTweets`. |
| `Crawler.AcceptResponseExamples` | tweet_harvest/crawler.py:68 | A search-timeline GraphQL URL with status 200 is accepted; a 429 status or the home page is not. |
| `Crawler.HandleSeqIgnoresRejected` | tweet_harvest/crawler.py:68 | Dropping the responses the handler rejects changes neither the store nor the written batches. |
| `Crawler.StopRuleStep` | tweet_harvest/crawler.py:212-227 | One more step below the target, with the counter reset on growth and incremented otherwise, keeps the stop rule: every window of five steps before the last one added a row. |
| `Crawler.TwitterCrawler.constructor` | tweet_harvest/crawler.py:23-48 | A new crawler stores its settings, derives mode and path, and starts with an empty store and no written batch. |
| `Crawler.TwitterCrawler.WriteKeepsValid` | tweet_harvest/crawler.py:128-130 | Writing the rows just appended keeps the written ids distinct and stored. |
| `Crawler.TwitterCrawler.ParseAndSave` | tweet_harvest/crawler.py:75-131 | The loop over entries leaves the store equal to `Ingest` of the old store. The sink receives the payload's batch once, only when the payload completed and added rows. Stored and written ids stay distinct. |
| `Crawler.TwitterCrawler.SaveEntries` | tweet_harvest/crawler.py:99-131 | After resolving, the store becomes the entry loop's final store. The sink receives the batch once, only when the loop completed and added rows. Stored and written ids stay distinct. |
| `Crawler.TwitterCrawler.RunEntryLoop` | tweet_harvest/crawler.py:99-126 | The loop over the entries leaves exactly the store, batch and crash flag that folding the entries' verdicts over the old store gives. It stops at the first crash. |
| `Crawler.TwitterCrawler.HandleResponse` | tweet_harvest/crawler.py:64-73 | Accepted responses with a JSON body are ingested; other responses change nothing; the store only grows. |
| `Crawler.TwitterCrawler.HandleAll` | tweet_harvest/crawler.py:64-73 | Handling a scroll step's responses in order leaves the store and the written batches that `HandleSeq` gives: each accepted response with a body is ingested, the others are ignored. |
| `Crawler.TwitterCrawler.Crawl` | tweet_harvest/crawler.py:187-227 | A failed login returns before any scroll: no step, nothing stored, nothing written. A confirmed login never yields `LoginFailed`, and the scroll loop's promises hold. |
| `Crawler.TwitterCrawler.ScrollLoop` | tweet_harvest/crawler.py:209-227 | The store and written batches are those of `Scrolled`, the fold of `HandleSeq` over the steps, and `counts` are its sizes. Every step starts below the target. `TargetReached` means the target was met. `Stagnated` means the last five steps added nothing while below target. The loop stops at the first such run: every earlier window of five steps added a row. It takes at most 5·(target − starting count) + 5 steps. |

## Left out

- **Browser work.** Playwright launch, the cookie context, `goto`, the login selector wait, listener (de)registration, `scroll_down` and `time.sleep` (`tweet_harvest/crawler.py:171-205, 215-216, 229-231`) are not modelled. Login success is a parameter of `Crawl`. The responses a scroll step delivers come from a function `arrivals` of the step number. They are handled in order, one at a time, so concurrency and callback timing are not modelled.
- **Target URL.** The target URL built in `crawl` (lines 196-200) depends on `urllib.parse.quote`, a library call. It is not modelled; `SearchQuery` gives the query before encoding.
- `Crawler.TwitterCrawler.Crawl`: a search-mode crawler without keywords makes `_build_search_query` raise `TypeError` (`tweet_harvest/crawler.py:57-62`, called at 197) after login and before any scroll, so `crawl` aborts. `Crawl` scrolls anyway, because that call belongs to the unmodelled target-URL set-up; `SearchQuery` returns None in that case, and the command line (`tweet_harvest/cli.py:30-32`) never builds a crawler with neither keywords nor a user.
- **Response plumbing.** `response.json()` is not modelled. A response carries its decoded body, or none when decoding raises.
- **CSV writing.** `_write_to_csv` (file I/O, the header depending on `os.path.exists`) is not modelled. Each call is recorded as one batch in the ghost log `written`.
- **JSON numbers.** JSON numbers are integers only. Floats are not modelled, and neither is pydantic's acceptance of whole floats or numeric strings in `int` fields: `Models.IntField` accepts only integers, booleans and null.
- **Dict iteration.** Iterating or extending by a dict yields its keys, whose order a Dafny map does not keep. `Resolver.Iterate` yields nothing for a dict. Every consumer rejects strings (`Rows.NonObjectSkipped`, and a string instruction stops the loop), so the rows produced are the same.
- **Logging.** Rich console output and the log calls are not modelled.
- **Backoff sleep.** `time.sleep` and the log line in `wait_for_rate_limit` are not modelled. The function returns the wait it would sleep, which is `Backoff.WaitTime`. A negative `attempt`, which makes `2 ** attempt` a float, is excluded by typing `attempt` as a natural number.
- **Other files.** `tweet_harvest/cli.py` (argument parsing and prompts), `tweet_harvest/helpers/page_helpers.py`, `tweet_harvest/features/network.py` and the timestamp and `makedirs` in `tweet_harvest/constants.py` are not modelled. `NOW` is a constructor parameter.
- `Crawler.TwitterCrawler.Crawl`: the source's `delay_seconds` and the per-step sleep have no effect in the model, because time is not modelled.
