# YouTube Trend Analyzer — a verified model of its data pipeline

YouTube Trend Analyzer finds the most-viewed recent YouTube videos for a topic.
It then summarises them for a Streamlit dashboard. All of its logic lives in
the class `YouTubeAnalyzer` (`src/youtube_api.py`). This project models that
class in Dafny, in three parts:

- **Keywords** (`keywords.dfy`): `_load_keywords`. It strips every line of the
  keyword file with Python's `str.strip()`, drops blank lines and `#` comments,
  and keeps file order. The file is supplied as the lines it delivered.
- **Collector** (`collector.dfy`, with the record type in `records.dfy`):
  - `_process_video_data` turns one search item into a record, returns None
    for it, or raises.
  - `search_videos` is modelled with its per-term `try` blocks, its keyword
    mode and custom-query mode, and its final sort by `view_count`.
  - The YouTube Data API is an input. The `search().list` outcome comes from a
    function from the request to its response. Each item carries the outcome
    of its own `videos().list` statistics lookup.
- **Trends** (`trends.dfy`): `analyze_trends`. It covers the empty case, the
  count, the column sums, the top-10 channel counts and the ten most-viewed
  rows.
- **Ranking** (`ranking.dfy`): the parts of pandas the core relies on. These
  are the descending sort (`sort_values`), `nlargest` and the ranking behind
  `value_counts().head`. Each is a descending insertion sort whose result is
  proved ordered and a permutation of its input.

`LoadKeywords`, `SearchTerm` and `SearchVideos` are methods with loops, as in
the source. Each is proved against a specification function: `KeywordsOf`,
`TermRecords` and `CollectTerms`. The lemmas are stated about those functions.
`_process_video_data` and `analyze_trends` are plain computations, so they are
modelled as functions.

Behaviour of the code that the model keeps, and that is easy to miss:

- A term whose processing raises part-way keeps the records appended for it
  before the exception in `all_videos` (lines 62 and 81-88).
  `RaiseKeepsPrefix` states it.
- Only a statistics lookup that returns an empty `items` list drops a video.
  A lookup that raises aborts the rest of the term.
- Each `top_channels` count is exactly the channel's number of rows.
- Records are not deduplicated across terms. A video found by two keywords
  appears twice, and `most_engaging_videos` can show it twice.

## Model

| member | source | states |
|---|---|---|
| `Keywords.IsWhitespace` | src/youtube_api.py:25 | definition: the characters Python's `str.isspace` accepts, which `str.strip()` removes |
| `Keywords.StripLeft` | src/youtube_api.py:25 | the kept suffix does not start with whitespace, and every removed character is whitespace in Python's sense |
| `Keywords.StripRight` | src/youtube_api.py:25 | the kept prefix does not end with whitespace, and every removed character is whitespace |
| `Keywords.StripLeftIsSuffix` | src/youtube_api.py:25 | what left-stripping keeps is a suffix of the line |
| `Keywords.StripRightIsPrefix` | src/youtube_api.py:25 | what right-stripping keeps is a prefix of the line |
| `Keywords.Strip` | src/youtube_api.py:25 | a stripped line has no leading or trailing whitespace and is no longer than the line |
| `Keywords.StripIsSlice` | src/youtube_api.py:25 | a stripped line is a contiguous part of the line, and everything removed on either side is whitespace |
| `Keywords.StripFixesStripped` | src/youtube_api.py:25 | a line with no surrounding whitespace is left unchanged |
| `Keywords.StripIdempotent` | src/youtube_api.py:25 | stripping twice gives the same as stripping once |
| `Keywords.IsKeyword` | src/youtube_api.py:26 | definition: a stripped line is kept when it is non-empty and does not start with `#` |
| `Keywords.KeywordsOf` | src/youtube_api.py:19-30 | every keyword is non-empty, stripped and does not start with `#`; there are no more keywords than lines |
| `Keywords.LoadKeywords` | src/youtube_api.py:21-30 | the loop returns exactly the filtered keywords, each non-empty, stripped and not a `#` comment |
| `Keywords.KeywordsOfConcat` | src/youtube_api.py:24-27 | file order is kept: the keywords of two runs of lines are those of the first run followed by those of the second |
| `Keywords.KeywordsOfMembers` | src/youtube_api.py:24-27 | a string is returned if and only if it is a keyword and some line strips to it |
| `Keywords.KeywordsOfSound` | src/youtube_api.py:24-27 | every returned keyword comes from some line |
| `Keywords.KeywordsOfComplete` | src/youtube_api.py:24-27 | every line that strips to a keyword contributes it |
| `Ranking.Insert` | src/youtube_api.py:117 | inserting into a descending sequence keeps it descending and adds exactly the new element |
| `Ranking.SortDesc` | src/youtube_api.py:117 | the result is ordered by non-increasing key and is a permutation of the input |
| `Ranking.PrefixIsTop` | src/youtube_api.py:132 | a prefix of a descending permutation is drawn from the input, and nothing left out is larger than anything kept |
| `Ranking.Top` | src/youtube_api.py:131-132 | the top `n` has `min(n, len)` elements drawn from the input, in descending order; it is all of the input when `n` covers it; no left-out element has a larger key than a kept one |
| `Collector.RequestFor` | src/youtube_api.py:69-78 | definition: the `search().list` request for a term: part `snippet`, type `video`, order `viewCount`, region `US`, the given `maxResults` |
| `Collector.CountOf` | src/youtube_api.py:52-54 | definition: `int(stats.get(key, 0))`: the statistics value, or 0 when the key is missing |
| `Collector.WatchUrl` | src/youtube_api.py:35 | definition: the watch URL prefix followed by the video id |
| `Collector.VideoIdOfUrl` | src/youtube_api.py:35 | a recognised watch URL is the watch URL of the id it yields |
| `Collector.UrlRoundTrip` | src/youtube_api.py:35 | the watch URL built from a video id gives that id back, so distinct videos get distinct URLs |
| `Collector.ProcessVideo` | src/youtube_api.py:32-57 | None exactly when the id is present and the lookup returns no items; a record exactly when the lookup returns statistics and no field access, date parse or `int()` raises; the record's url is the watch prefix plus its id, its search_query is the term, and each count is the statistics value or 0 when the key is missing |
| `Collector.ItemsRecords` | src/youtube_api.py:81-84 | a term's items give at most one record each, every one tagged with the term and carrying the watch URL of its id |
| `Collector.TermRecords` | src/youtube_api.py:68-88 | every record a term contributes is tagged with that term |
| `Collector.CollectTerms` | src/youtube_api.py:67-88 | `all_videos` after the keyword loop: every record it holds was collected for one of the terms |
| `Collector.ItemsRecordsSnoc` | src/youtube_api.py:81-84 | after items that did not raise, one more item appends its record if it built one, and nothing otherwise |
| `Collector.RaiseKeepsPrefix` | src/youtube_api.py:62-88 | an exception on item j keeps the records appended for the items before j and abandons every later item of that term |
| `Collector.RecordsPlusDropped` | src/youtube_api.py:43-57 | when no item raises, each item gives either one record or is dropped for an empty lookup |
| `Collector.CollectTermsConcat` | src/youtube_api.py:67-88 | terms are processed in order: the records of two runs of terms are those of the first run followed by those of the second |
| `Collector.OtherTerms` | src/youtube_api.py:55 | the records kept are records of the input that some other term produced |
| `Collector.OtherTermsConcat` | src/youtube_api.py:55 | filtering out one term's records distributes over concatenation |
| `Collector.OtherTermsOfOneTerm` | src/youtube_api.py:55 | filtering one term out of a single term's records removes all of them or none |
| `Collector.FailureIsolation` | src/youtube_api.py:62-88 | whatever the API answers for one keyword (a failure, an exception part-way through, any items), the records of every other keyword are the same and in the same order |
| `Collector.FailedTermContributesNothing` | src/youtube_api.py:67-88 | a keyword whose search fails contributes no record, and the run goes on |
| `Collector.SearchTerm` | src/youtube_api.py:68-88 | one per-term try block appends exactly that term's records: all built records up to the first exception, none after a failed search |
| `Collector.SearchVideos` | src/youtube_api.py:59-118 | the result is sorted by view_count, non-increasing; in keyword mode it is a permutation of the records of the file's keywords and ignores the query; otherwise it is a permutation of the query's records, or empty when the query is empty |
| `Trends.Total` | src/youtube_api.py:127 | definition: the column sum `df[column].sum()` |
| `Trends.TotalConcat` | src/youtube_api.py:127 | a column sum distributes over concatenation |
| `Trends.TotalPermutation` | src/youtube_api.py:127 | a column sum does not depend on the order of the rows |
| `Trends.ChannelCount` | src/youtube_api.py:131 | definition: the number of rows whose `channel_title` (the column `Channels`) is the given channel |
| `Trends.ChannelCountIsTotal` | src/youtube_api.py:131 | a channel's count in `df['channel_title']` (`Channels`) is the number of rows with that channel |
| `Trends.ChannelCountPermutation` | src/youtube_api.py:131 | a channel's count does not depend on the order of the rows |
| `Trends.Distinct` | src/youtube_api.py:131 | the distinct values are exactly the values that occur, each listed once |
| `Trends.ValueCounts` | src/youtube_api.py:131 | `value_counts()` of `df['channel_title']` (`Channels`): one pair per distinct value, no key twice; each count is that value's number of occurrences, and every value occurring has its pair |
| `Trends.ToDict` | src/youtube_api.py:131 | the dict has no more keys than rows, exactly as many when the rows' keys are distinct; every key comes from a row with its value, and every row's key is present |
| `Trends.KeptChannelsCounted` | src/youtube_api.py:131 | every kept channel maps to its exact, positive number of occurrences |
| `Trends.LeftOutChannelsNotLarger` | src/youtube_api.py:131 | a channel left out occurs no more often than any kept channel |
| `Trends.AllChannelsKept` | src/youtube_api.py:131 | with at most ten distinct channels, every channel is kept |
| `Trends.TopChannels` | src/youtube_api.py:131 | `min(10, distinct channels)` channels; each maps to its exact, positive row count; no channel left out has more rows than a kept one; with at most 10 distinct channels all are kept |
| `Trends.KeptKeysDistinct` | src/youtube_api.py:131 | rows taken from the value counts, counting repeats, have distinct keys, so `to_dict()` keeps every one of the ten |
| `Trends.Engagement` | src/youtube_api.py:132 | definition: the title, view_count and channel_title of one row |
| `Trends.EngagementsPermutation` | src/youtube_api.py:132 | the `[['title', 'view_count', 'channel_title']]` projection of two orderings of the same rows holds the same entries with the same repeats |
| `Trends.ShownRowsAreTop` | src/youtube_api.py:132 | the first `k` rows of a descending reordering, projected, are part of the projected input (counting repeats), and no projected row beyond them has more views |
| `Trends.MostEngaging` | src/youtube_api.py:132 | `min(10, n)` entries in non-increasing view order, taken from the projected rows counting repeats (a video found twice can appear twice); no projected row left out, counting repeats, has more views than a shown entry |
| `Trends.AnalyzeTrends` | src/youtube_api.py:120-135 | `{}` if and only if the input is empty; otherwise total_videos is the row count, the view, like and comment totals are the column sums, top_channels is `TopChannels` (at most 10 exact channel counts) and most_engaging_videos is `MostEngaging` (`min(10, n)` entries) |
| `Trends.SummaryIgnoresOrder` | src/youtube_api.py:126-131 | two orderings of the same rows give the same emptiness, count, sums and channel counts, so summarising the sorted search result reports the collected records' figures |

## Left out

- The `googleapiclient` client (`__init__`) and the two network calls are replaced by supplied outcomes. The search API is a function of the request, so two identical requests (a keyword listed twice) get identical responses.
- `_get_date_range`: it reads the wall clock. The request's `publishedAfter`/`publishedBefore` window is not part of `SearchRequest`.
- dateutil's `parse` of `publishedAt` is opaque. An item carries the parsed `DateTime`, or None when the key is missing or parsing raises. A missing `id.videoId`, `title` or `channelTitle` key is None too.
- A statistics response without an `items` or `statistics` key raises in the source. It is folded into `LookupFailed`.
- A statistics value for which `int()` raises is `None` in the statistics map. Python's `int()` parsing of the string itself is not modelled.
- Opening and reading `config/keywords.txt`: the model receives the lines delivered before end of file or before a read error. An unopenable file delivers no lines, and the method returns an empty list.
- All `print` logging of errors.
- `avg_views`, `avg_likes`, `avg_comments`: floating-point means. The summary carries their sums (`totalViews`, `totalLikes`, `totalComments`) and the count `totalVideos` instead.
- Counts are unbounded integers. pandas' int64 columns are not modelled, so a count beyond 64 bits does not overflow in the model.
- Dict key order of `top_channels` and column order of the frame are not modelled.
- `SearchVideos`: the model sorts with a stable insertion sort. The contract states only "sorted and a permutation", because pandas' default quicksort does not fix the order of equal view counts.
- `TopChannels`: which of several equally frequent channels survives the cut at ten is not pinned, since pandas does not fix the tie order in `value_counts`; the model ranks ties in order of first occurrence.
- `MostEngaging`: `nlargest`'s `keep='first'` rule for ties at the cut is not proved. The model keeps the earlier of equal rows, but only the size, order, the multiset of shown entries and dominance are stated.
- `src/app.py` (the Streamlit dashboard) and `streamlit_app.py` (a path tweak and an import): presentation only.
