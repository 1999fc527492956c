# n8n workflow popularity, modelled in Dafny

The modelled system collects popularity signals for n8n workflows from
three sources and stores them in one SQLite table. The sources are
YouTube videos, topics of the n8n community forum, and Google Trends
search interest. A small HTTP API reads that table back. This project
models the logic under the network, scheduling and HTTP layers, and
proves properties of it. Every external call is replaced by an input
value: a JSON payload, a reply that raised, or a trends frame.

It covers these parts:

- **Record.** The record every part exchanges is `WorkflowMetrics`
  (`schema.dfy`). It has five fields. The dataclass `__eq__` compares all
  five, and compares the metrics dictionaries with Python's `==`, under
  which `100 == 100.0` and `True == 1`.
- **Store.** `DatabaseManager` (`db_manager.dfy`) is a class over an
  in-memory table.
  - The rows are kept in rowid order next to the AUTOINCREMENT counter.
  - `save_workflows` applies `INSERT OR REPLACE` once per record. This
    deletes the row holding the same `(workflow, platform, country)` key
    and appends a new row with a fresh id.
  - `get_workflows` builds its `WHERE` conditions, evaluates them, and
    turns each row into a dictionary.
  - The proofs cover key uniqueness, last write wins, untouched keys,
    idempotence of a repeated save, and the filter laws.
- **Collectors.**
  - `forum_collector.dfy` models the topic filter and the engagement
    score. It also models the merge of the top and latest feeds, whose
    duplicate check compares whole records with `__eq__`, timestamps
    included.
    `DistinctStampsKeepBoth` proves that once the timestamps differ the
    duplicate check never removes anything.
  - `youtube_collector.dfy` models the view floor and the rounded
    ratios, and the loop over the ten queries with per-query failure
    isolation.
  - `google_trends_collector.dfy` models the quarter-window trend
    change, the region fallback, the mean-interest threshold, the
    display name, and the one-keyword batch loop, which runs over the keyword list by index
    as `range(0, len, batch_size)` does.
- **Orchestrator.** `workflow_service.dfy` calls the collectors in a
  fixed order (YouTube for US then IN, the forum once, Google Trends for
  US then IN). Each call absorbs its own failure. The results are
  flattened and saved once, and only when there is something to save.
- **API.** `routes.dfy` models the `/workflows` envelope and the
  `/workflows/stats` aggregation. The proofs show that each grouping
  sums to the total and that `last_updated` is the greatest stored
  timestamp.

Helper modules model the Python and SQLite builtins the code relies on:

- `json.dfy`: JSON values, `dict.get`, `int()`, and decimal text.
- `text.dfy`: ASCII `lower()`, substring search, `replace`, `title()`,
  and string ordering and `max`.
- `numbers.dfy`: sum, mean, max, and `round()` with ties to even.

Two behaviours of the code are easy to miss, and the model follows them:

- A forum feed whose `topics` value is a dictionary or a string yields
  no record. Iterating it yields strings, and the parser turns a string
  into nothing.
- `collect_all_workflows` catches collector failures but not a failing
  save.

## Model

| member | source | states |
|---|---|---|
| Schema.Create | schema/data_schema.py:4-11 | a record built without a timestamp has `last_updated` None and keeps every supplied field unchanged |
| Schema.ToDict | schema/data_schema.py:13-14 | `to_dict` has exactly the five field names as keys, each holding its field's value (a missing timestamp becomes null) |
| Schema.FromToDict | schema/data_schema.py:13-14 | `to_dict` loses nothing: reading the dictionary back gives the original record |
| Schema.ToDictInjective | schema/data_schema.py:4-11 | two records have equal dictionaries exactly when all five fields are equal, so record equality is field-wise, timestamp included |
| Schema.SameRecordAsDicts | schema/data_schema.py:4-11 | the dataclass `__eq__` holds exactly when the `to_dict` dictionaries are `==`, and identical records are `__eq__` |
| Database.StampOr | database/db_manager.py:50 | the stored timestamp is the record's own when it is neither None nor empty, otherwise the current time |
| Database.Without | database/db_manager.py:41-44 | the replace half of INSERT OR REPLACE drops exactly the rows holding the record's key and keeps the others |
| Database.UpsertWellFormed | database/db_manager.py:22-51 | one INSERT OR REPLACE keeps at most one row per key and keeps ids increasing and below the AUTOINCREMENT counter |
| Database.SaveAllWellFormed | database/db_manager.py:28-51 | after saving a batch there is still at most one row per `(workflow, platform, country)`, and one id is consumed per record |
| Database.WithoutWellFormed | database/db_manager.py:28-44 | removing the rows of one key keeps keys unique and ids ordered |
| Database.Upsert | database/db_manager.py:40-51 | one INSERT OR REPLACE consumes exactly one AUTOINCREMENT id |
| Database.UpsertRows | database/db_manager.py:41-51 | after one INSERT OR REPLACE the new row comes last, and the rows are the old rows of other keys plus that new row |
| Database.SaveAllGrowth | database/db_manager.py:40-51 | saving a batch adds at most one row per record |
| Database.Find | database/db_manager.py:28 | the row found for a key holds that key, and no row holds a key that finds nothing |
| Database.FindUnique | database/db_manager.py:28 | in a table with unique keys, every row is the one found for its own key |
| Database.UpsertFind | database/db_manager.py:41-51 | one INSERT OR REPLACE makes its key hold the new row and leaves every other key's row as it was |
| Database.LastWithKey | database/db_manager.py:40-51 | the record found for a key has that key and sits at a position of the batch after which no record has the key; with no such record, no record of the batch has the key |
| Database.SaveAllUntouched | database/db_manager.py:40-51 | a row whose key no record of the batch carries is unchanged by `save_workflows`, id included |
| Database.SaveAllLastWins | database/db_manager.py:40-51 | a key carried by the batch ends up holding the values of its last record in the batch |
| Database.SaveAllViewAt | database/db_manager.py:40-51 | after a save, each key holds its last record of the batch if it has one, and otherwise what it held before |
| Database.SaveAllIdempotent | database/db_manager.py:40-51 | saving the same batch twice leaves every key holding what the first save stored (the values of the second write) |
| Database.Views | database/db_manager.py:80-88 | each row becomes one dictionary of its five non-id columns, in row order |
| Database.Select | database/db_manager.py:62-88 | a query returns at most one dictionary per stored row |
| Database.SelectEverything | database/db_manager.py:62-77 | with both filters None or empty there is no WHERE clause and every stored row is returned |
| Database.SelectExactly | database/db_manager.py:65-77 | a dictionary is returned exactly when a row with `lower(platform) == lower(p)` (if p is given) and `lower(country) == lower(c)` (if c is given) has it |
| Database.WhereIsSelect | database/db_manager.py:65-77 | evaluating the AND of the conditions selects exactly the rows the filters describe |
| Database.WhereClause | database/db_manager.py:62-74 | a row satisfies the built conditions exactly when it matches every truthy filter case-insensitively; with no truthy filter there is no condition |
| Database.RowDicts | database/db_manager.py:80-88 | the loop turns each fetched row into its dictionary, in fetch order |
| Database.ReadBack | database/db_manager.py:48-85 | a record saved as the last of its key is read back by an unfiltered query, with its metrics exactly as saved |
| Database.DatabaseManager.GetWorkflows | database/db_manager.py:57-90 | the condition list built from the truthy filters, the query and the row loop return exactly the matching rows' dictionaries in rowid order |
| Database.DatabaseManager.SaveWorkflows | database/db_manager.py:35-55 | the table becomes the batch's records upserted one after another, and the table stays well formed |
| Database.DatabaseManager.InitDatabase | database/db_manager.py:15-33 | CREATE TABLE IF NOT EXISTS leaves an existing table and all its rows unchanged, and otherwise creates an empty one |
| Database.DatabaseManager.constructor | database/db_manager.py:11-13 | a manager opened on a file holds that file's table, with the table created if it was missing |
| ForumCollector.ParseForumTopic | collectors/forum_collector.py:48-82 | an accepted topic has a title from the topic that contains a keyword after lowering, at least 50 numeric views, platform Forum, country Global, the four counts copied and `(likes*2 + replies*3) / max(views, 1)` as score; a topic without views is rejected |
| ForumCollector.ParseForumTopicAccepts | collectors/forum_collector.py:58-64 | conversely, a topic with a keyword in its title, at least 50 views and numeric counts is accepted; 50 views passes |
| ForumCollector.EngagementOverViews | collectors/forum_collector.py:74 | for an accepted topic, `max(views, 1)` is the view count, so the score is `(likes*2 + replies*3) / views` |
| ForumCollector.ParseForumTopicString | collectors/forum_collector.py:51-82 | a string in place of a topic dictionary yields no record |
| ForumCollector.ParseAll | collectors/forum_collector.py:26-29 | the records one feed yields number at most its topics, are all Forum/Global, and each carries the time of some parse call |
| ForumCollector.FeedTopics | collectors/forum_collector.py:26 | `data.get('topic_list', {}).get('topics', [])` raises unless both levels are dictionaries; a list is iterated as it is; a dictionary or a string yields no topic; a missing `topic_list` yields no topic |
| ForumCollector.FeedItems | collectors/forum_collector.py:22-38 | a raising request yields None (the try block is left), a status other than 200 yields no topic, and a 200 reply yields its body's topics |
| ForumCollector.Collected | collectors/forum_collector.py:13-46 | a top request that raises, or whose body cannot be read, gives the empty list |
| ForumCollector.AppendNew | collectors/forum_collector.py:38-41 | adding the latest feed's records keeps what was collected as a prefix, adds only latest records, leaves every latest record with an `==`-equal record in the result, and never appends a record `==`-equal to an earlier one; `==` is the dataclass `__eq__`, so metrics 100 and 100.0 are equal |
| ForumCollector.AppendFresh | collectors/forum_collector.py:40-41 | appending a record that no collected record equals keeps the tail free of repeats and keeps every present record present |
| ForumCollector.EqualRecordDropped | collectors/forum_collector.py:40 | a latest record `==`-equal to a collected one is not appended, even where the two differ as values (an int and a float count) |
| ForumCollector.ParseTopFeed | collectors/forum_collector.py:26-29 | the top feed loop keeps every topic that parses, in feed order |
| ForumCollector.MergeStep | collectors/forum_collector.py:38-41 | one more latest topic appends its record unless an equal record is already collected |
| ForumCollector.MergeTopic | collectors/forum_collector.py:39-41 | the body of the latest feed loop advances the merge by exactly one topic |
| ForumCollector.MergeLatestFeed | collectors/forum_collector.py:38-41 | the latest feed loop appends, in order, every parsed record not equal to one already collected |
| ForumCollector.CollectedShape | collectors/forum_collector.py:13-46 | the top feed's records come first, in order and without deduplication; no later record is `==`-equal to an earlier one; every record comes from one of the feeds; a failed top request yields nothing; a failed latest request yields exactly the top feed's records |
| ForumCollector.CollectedKeepsLatest | collectors/forum_collector.py:34-41 | every record of the latest feed has an `==`-equal record in the result, either appended or already there |
| ForumCollector.AppendNewDistinct | collectors/forum_collector.py:38-41 | when all timestamps differ, the membership test never fires and the records are simply appended |
| ForumCollector.ParseAllDistinct | collectors/forum_collector.py:66-78 | records parsed at pairwise distinct times carry pairwise distinct timestamps |
| ForumCollector.DistinctStampsKeepBoth | collectors/forum_collector.py:13-77 | when every parse call reads a different time, the result is both feeds' records one after the other; the duplicate check removes nothing |
| ForumCollector.StampsDistinctJoin | collectors/forum_collector.py:26-41 | two record lists with distinct timestamps and no timestamp in common have distinct timestamps end to end |
| ForumCollector.CollectPopularTopics | collectors/forum_collector.py:13-46 | the two loops, with the early exit when a request raises, compute the merge: top records first, then the latest feed's records not already present |
| YouTubeCollector.ParseVideoData | collectors/youtube_collector.py:78-114 | an accepted video has parseable counts (default 0) with at least 100 views, metrics views/likes/comments and both ratios rounded to 4 places of count/views, platform YouTube, the given country and the snippet's title; a video without viewCount is rejected |
| YouTubeCollector.NonNumericCountRejected | collectors/youtube_collector.py:84-114 | a count `int()` cannot parse makes the video yield None rather than an exception |
| YouTubeCollector.VideoAboveFloorKept | collectors/youtube_collector.py:84-90 | conversely, a video with decimal-string counts and at least 100 views is kept; 100 passes |
| YouTubeCollector.RatiosNearExact | collectors/youtube_collector.py:95-106 | each stored ratio is within half of 0.0001 of `likes/views` and `comments/views` |
| YouTubeCollector.ParseVideos | collectors/youtube_collector.py:65-68 | the records of one statistics reply are all YouTube records of the given country |
| YouTubeCollector.QueryRecords | collectors/youtube_collector.py:33-71 | one query contributes only YouTube records of the given country stamped with the run's time |
| YouTubeCollector.GatherAppend | collectors/youtube_collector.py:33-76 | output order is query order: the records of two query lists joined are the records of the first list, then those of the second |
| YouTubeCollector.GatherSkip | collectors/youtube_collector.py:33-74 | a query that contributes nothing leaves the records of the queries before and after it as they would be without it |
| YouTubeCollector.FailedQuerySilent | collectors/youtube_collector.py:34-74 | a query whose search request raises yields no record |
| YouTubeCollector.UnansweredQuerySilent | collectors/youtube_collector.py:47-52 | a query whose search answers other than 200, or finds no video id, yields no record |
| YouTubeCollector.StatsFailureSilent | collectors/youtube_collector.py:61-62 | a query whose statistics request raises or answers other than 200 yields no record |
| YouTubeCollector.IdsOf | collectors/youtube_collector.py:50 | the id list exists exactly when every item has a string `id.videoId`, and then holds those ids in item order |
| YouTubeCollector.VideoIds | collectors/youtube_collector.py:49-50 | a list of items gives its ids; a non-dictionary body raises; in place of the list only an empty dictionary or empty string passes, giving no id |
| YouTubeCollector.VideoItems | collectors/youtube_collector.py:63-65 | a dictionary body gives its `items` list; a dictionary or string in place of the list gives no video; anything else raises |
| YouTubeCollector.QueryItems | collectors/youtube_collector.py:47-65 | videos reach the parser only when the search answered 200 with at least one id and the statistics request answered 200, and they are that reply's items |
| YouTubeCollector.CollectQuery | collectors/youtube_collector.py:34-74 | the try block of one query (search, statistics request, video loop, early exits) computes exactly that query's records |
| YouTubeCollector.CollectQueries | collectors/youtube_collector.py:33-76 | the loop over a query list returns the records of the queries in query order, all YouTube records of the country stamped with the run's time |
| YouTubeCollector.SearchN8nWorkflows | collectors/youtube_collector.py:15-76 | the nested loops return the records of the ten queries, query by query and in item order |
| GoogleTrendsCollector.GeoCode | collectors/google_trends_collector.py:72 | the region sent is always US or IN, and it is the requested country exactly when that is US or IN |
| GoogleTrendsCollector.TrendChange | collectors/google_trends_collector.py:114-126 | fewer than 4 points give 0, and a previous quarter without interest gives 0 |
| GoogleTrendsCollector.TrendChangeRatio | collectors/google_trends_collector.py:120-125 | when the previous quarter has interest, the result times the previous mean is `(recent - previous) * 100` |
| GoogleTrendsCollector.TrendWindows | collectors/google_trends_collector.py:120-122 | for n >= 4, with q = n div 4, q >= 1 and 2q <= n, and the two windows are adjacent, equally long and end the series |
| GoogleTrendsCollector.TrendChangeSign | collectors/google_trends_collector.py:124-125 | the trend is positive exactly when the last quarter's mean is higher, and zero exactly when the two means are equal |
| GoogleTrendsCollector.TrendChangeFlat | collectors/google_trends_collector.py:116-126 | a flat series has a trend change of 0 |
| GoogleTrendsCollector.TrendChangeFloor | collectors/google_trends_collector.py:114-126 | with no negative interest, the trend change is never below -100 percent |
| GoogleTrendsCollector.DisplayName | collectors/google_trends_collector.py:92 | the display name is never longer than the keyword |
| GoogleTrendsCollector.DisplayNameDropsPrefix | collectors/google_trends_collector.py:92 | for "n8n " followed by text without that prefix, the name is the text in title case |
| GoogleTrendsCollector.DisplayNameUnprefixed | collectors/google_trends_collector.py:92 | a keyword without the prefix is its own title case |
| GoogleTrendsCollector.KeywordRecord | collectors/google_trends_collector.py:85-103 | a keyword yields a record exactly when its column exists, is non-empty and has mean > 5; the record has the display name, platform Google, the requested country (not the region code), rounded mean and trend, and a peak that is the greatest point |
| GoogleTrendsCollector.AverageNearExact | collectors/google_trends_collector.py:95 | the stored average interest is within 0.005 of the exact mean |
| GoogleTrendsCollector.KeywordsRecords | collectors/google_trends_collector.py:85-103 | one batch yields at most one record per keyword, all Google records of the requested country |
| GoogleTrendsCollector.BatchRecords | collectors/google_trends_collector.py:70-110 | a batch whose request raised yields nothing; otherwise at most one record per keyword |
| GoogleTrendsCollector.EmptyFrameSilent | collectors/google_trends_collector.py:84 | the `empty` check changes nothing: a frame without data yields no record through the keyword loop either |
| GoogleTrendsCollector.BatchAt | collectors/google_trends_collector.py:66-68 | the batch at index i is the non-empty slice of the next `batch_size` keywords, shorter only at the end of the list |
| GoogleTrendsCollector.TrendsShift | collectors/google_trends_collector.py:67-68 | running the batch loop from index i gives what running it from 0 on the keywords from i gives |
| GoogleTrendsCollector.TrendsAppend | collectors/google_trends_collector.py:66-68 | with one keyword per batch, the records of a joined keyword list are those of its parts in order |
| GoogleTrendsCollector.OneKeywordPerRequest | collectors/google_trends_collector.py:66-68 | each keyword is requested once, alone and in list order: a keyword added at the end adds its own batch's records at the end |
| GoogleTrendsCollector.SilentBatchIsolated | collectors/google_trends_collector.py:70-110 | a keyword whose batch yields nothing (its request raised, say) leaves the records of the keywords before and after it unaffected |
| GoogleTrendsCollector.GoogleRecordsOnly | collectors/google_trends_collector.py:66-103 | the batch loop from index i yields at most one record per remaining keyword, each a Google record of the requested country stamped with the run's time |
| GoogleTrendsCollector.CollectBatch | collectors/google_trends_collector.py:84-103 | the keyword loop over a non-empty frame computes the batch's records |
| GoogleTrendsCollector.CollectKeywords | collectors/google_trends_collector.py:66-112 | the batch loop over a keyword list returns the batches' records in order, at most one per keyword, all Google records of the country |
| GoogleTrendsCollector.CollectTrendingWorkflows | collectors/google_trends_collector.py:42-112 | the batch loop returns the records of the five keywords in order, each requested for the fallback region, at most one per keyword |
| WorkflowService.Absorbed | services/workflow_service.py:28-33 | a collector call that raises contributes nothing, and one that returns contributes exactly its records |
| WorkflowService.PerCountryMembers | services/workflow_service.py:27-33 | the records of the country loop are exactly those some country's call returned |
| WorkflowService.Expected | services/workflow_service.py:16-63 | the result has exactly the keys YouTube, Forum, Google in that order: YouTube is the US then IN result, Forum the one forum result, Google the US then IN result, each with failures absorbed |
| WorkflowService.ExtendPerCountry | services/workflow_service.py:27-33 | the loop over the countries extends the list with each country's records in country order, a raising call adding nothing |
| WorkflowService.FlattenMembers | services/workflow_service.py:53-55 | the flattened list holds exactly the records of the entries |
| WorkflowService.FlattenThree | services/workflow_service.py:53-55 | three entries flatten to their records end to end, in entry order |
| WorkflowService.FlattenEntries | services/workflow_service.py:53-55 | the loop over the entries joins their records in dictionary order |
| WorkflowService.FlattenExpected | services/workflow_service.py:53-55 | the saved batch is the YouTube records, then the Forum records, then the Google records |
| WorkflowService.EndToEndCounts | services/workflow_service.py:16-63 | with 2 US and 1 IN video records, 3 forum records and none from trends, the entries hold 3, 3 and 0 records and one batch of 6 is saved |
| WorkflowService.WorkflowCollectorService.CollectAllWorkflows | services/workflow_service.py:16-63 | the run returns the expected entries and never raises on collector failure; it saves exactly once with the flattened list when that list is non-empty, and otherwise leaves the store untouched |
| WorkflowService.WorkflowCollectorService.GetWorkflowsFromDb | services/workflow_service.py:65-67 | the result is exactly what the store's `get_workflows` returns for the same filters |
| WorkflowService.WorkflowCollectorService.constructor | services/workflow_service.py:10-14 | the service owns a fresh store on its database file |
| Routes.GetWorkflows | api/routes.py:52-64 | the envelope holds the store's filtered rows, `total_count` equals their number, and the filters are echoed |
| Routes.Bump | api/routes.py:94-95 | `d[k] = d.get(k, 0) + 1`: k becomes a key whose count is one more than before (1 if it was absent), and every other count is unchanged |
| Routes.Tally | api/routes.py:90-95 | the counts have exactly the strings met as keys, and each count is the number of occurrences of its exact string (case-sensitive) |
| Routes.TallySum | api/routes.py:90-95 | the counts of a tally add up to the number of strings counted |
| Routes.SumValuesRemove | api/routes.py:90-95 | the sum of the counts does not depend on the order keys are taken |
| Routes.SumValuesBump | api/routes.py:94-95 | one increment adds one to the sum of the counts |
| Routes.StatsSums | api/routes.py:84-95 | `sum(by_platform.values())` and `sum(by_country.values())` both equal the number of workflows |
| Routes.LatestTimestamp | api/routes.py:87 | the greatest stored timestamp is one of the rows' timestamps and no smaller than any of them |
| Routes.GetWorkflowStats | api/routes.py:78-97 | `total_workflows` is the number of stored rows; `by_platform` and `by_country` count exact strings and each sums to the total; `last_updated` is None exactly when there are no rows, and otherwise is the lexicographic maximum of the rows' timestamps |
| Json.Trunc | collectors/youtube_collector.py:84-86 | `int()` of a float truncates toward zero: a non-negative float gives the integer just at or below it, a negative one the integer just at or above it |
| Json.PyIntCases | collectors/youtube_collector.py:84-86 | `int()` of a number (bool as 0 or 1) is its truncation toward zero (`Trunc`); of text, follows the literal grammar; of None, a list or a dictionary, raises |
| Json.ParseIntShape | collectors/youtube_collector.py:84-86 | `int()` of text raises on blank text, accepts only text ending in a digit, and gives a negative value only after a minus sign |
| Json.SeparatorNotStripped | collectors/youtube_collector.py:84-86 | `int()` does not strip the separator characters `\x1c`–`\x1f`: `int("\x1c5")` raises |
| Json.PyEqReflexive | collectors/forum_collector.py:40 | every JSON value is `==` to itself |
| Json.IntEqualsItsFloat | collectors/forum_collector.py:40 | an integer is `==` to the float of the same value while being a different decoded value |
| Json.ParseShow | collectors/youtube_collector.py:84-86 | `int()` reads back every integer written in decimal, so counts sent as strings parse to their value |
| Json.ParseUnsigned | collectors/youtube_collector.py:84-86 | `int()` of well-formed digit text is its decimal value |
| Json.ParseNegative | collectors/youtube_collector.py:84-86 | `int()` of a minus sign before well-formed digit text is the negated value |
| Json.ShowNatDigits | collectors/youtube_collector.py:84-86 | the decimal text of a natural number is well-formed digit text |
| Text.Lower | database/db_manager.py:69-72 | lowering keeps the length and lowers each character (ASCII) |
| Text.ContainsAt | collectors/forum_collector.py:59 | `sub in s` holds exactly when sub occurs at some position of s |
| Text.RemoveAll | collectors/google_trends_collector.py:92 | removing every occurrence of a pattern never lengthens the string |
| Text.RemoveAllPrefix | collectors/google_trends_collector.py:92 | a leading occurrence is removed and the scan carries on right after it |
| Text.RemoveAllAbsent | collectors/google_trends_collector.py:92 | removing a pattern that does not occur leaves the string unchanged |
| Text.TitleAt | collectors/google_trends_collector.py:92 | `title()` raises a letter that follows a non-letter or starts the string and lowers every other letter, leaving non-letters alone |
| Text.LexLeReflexive | api/routes.py:87 | every string is no greater than itself |
| Text.LexLeTotal | api/routes.py:87 | any two strings are ordered one way or the other |
| Text.LexLeTransitive | api/routes.py:87 | string order is transitive |
| Text.LexLeAntisymmetric | api/routes.py:87 | two strings each no greater than the other are equal |
| Text.MaxString | api/routes.py:87 | `max` of a non-empty list of strings is one of them and no smaller than any |
| Numbers.SumConstant | collectors/google_trends_collector.py:120-122 | a series of n points equal to c sums to n*c |
| Numbers.MeanTimesLength | collectors/google_trends_collector.py:87 | the mean of a series times its number of points is its sum |
| Numbers.MeanConstant | collectors/google_trends_collector.py:120-122 | the mean of a flat series is its value |
| Numbers.SumBounds | collectors/google_trends_collector.py:87 | a sum lies between n times the least and n times the greatest bound of the points |
| Numbers.MeanNonNegative | collectors/google_trends_collector.py:121 | a series without negative points has a non-negative mean |
| Numbers.Peak | collectors/google_trends_collector.py:97 | `max` of a non-empty series is one of its points and no smaller than any |
| Numbers.RoundHalfEven | collectors/youtube_collector.py:105-106 | the integer chosen is within half a unit of its argument |
| Numbers.RoundToError | collectors/google_trends_collector.py:95-98 | rounding to a multiple of 1/scale moves a value by at most half a step |
| Numbers.RoundError | collectors/google_trends_collector.py:95-98 | `round(x, d)` differs from x by at most half a unit in the d-th decimal place |
| Numbers.RoundHalfToEven | collectors/google_trends_collector.py:95-98 | a value halfway between two integers rounds to the even one (2.5 to 2, 3.5 to 4) |
| Numbers.RoundToExact | collectors/google_trends_collector.py:95-98 | a value already on the grid of d decimals is returned unchanged by rounding |

## Left out

- The scheduler, configuration loading, the app entry point, the FastAPI
  app setup, CORS, the startup hook, `/health`, and `/workflows/refresh`.
  These concern timing and plumbing, not the collection logic.
- Networking: HTTP sessions, request parameters, the API key and JSON
  decoding. Each request is an input that is either `Raised` or a status
  with a JSON body. Rate-limit sleeps and pytrends retries are left out,
  and so is asynchronous execution: calls happen one after another.
- SQLite itself: SQL text, connections and commits, and `json.dumps` and
  `json.loads`, treated as the identity on metrics. Database errors are
  not modelled either. That includes an exception in `save_workflows`
  escaping `collect_all_workflows`, and the order in which SQLite would
  return rows other than rowid order.
- Database.DatabaseManager.SaveWorkflows: all records of a batch get one
  time `now` when they have no timestamp. The source calls
  `datetime.now()` per record.
- YouTubeCollector.SearchN8nWorkflows and
  GoogleTrendsCollector.CollectTrendingWorkflows: every record of one run
  is stamped with one `now`. The source reads the clock per record. The
  forum collector keeps one clock reading per parse call, because its
  duplicate check depends on the timestamps.
- YouTubeCollector.ParseVideoData: a non-string title is rejected. The
  source would store the non-string value as `workflow`.
- Json.PyInt: `int()` of text is modelled for ASCII digits with an
  optional sign and `_` separators. The surrounding whitespace it strips
  is ASCII `\t\n\v\f\r` and space, plus the non-ASCII characters for
  which `str.isspace()` holds; `\x1c` to `\x1f` are not stripped.
  Non-ASCII decimal digits, which Python also accepts, are rejected.
- Floating point: numbers are exact reals. `round()` is exact
  round-half-to-even on reals, not on binary doubles. pandas `std()` for
  `search_consistency` is a parameter of the trends collector, so no
  property of it is proved, and the NaN of a one-point series is not
  represented.
- Text.Lower and Text.TitleAt: lowering and `title()` are ASCII only.
  That is exact for SQLite's `lower()` but not for Python's
  `str.lower()` and `str.title()` on other letters.
- Routes.GetWorkflowStats: the key order of `by_platform` and
  `by_country` is not modelled, because the counts are maps.
- GoogleTrendsCollector.KeywordRecord: the record's values come from a
  frame of integer columns given as input. The pytrends frame layout and
  its `isPartial` column are not modelled.
- Concrete forum titles such as "Best automation workflow tips" (kept)
  and "Random chat" (dropped) are not proved as separate lemmas. The
  contracts of ParseForumTopic and ParseForumTopicAccepts cover them.
