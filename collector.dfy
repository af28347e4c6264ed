/** Collecting video records: `YouTubeAnalyzer._process_video_data` and
    `YouTubeAnalyzer.search_videos` (src/youtube_api.py:32-118).

    The two YouTube Data API calls are not made here. The outcome of the
    `search().list` call is supplied by the function `api` from the request
    to its response, and the outcome of each item's `videos().list` lookup is
    carried by the item itself. The date window of the request is left out. */
module Collector {
  import opened Records
  import Keywords
  import Ranking

  const WatchUrlPrefix: string := "https://www.youtube.com/watch?v="

  /** Outcome of the `videos().list` statistics lookup for one item. */
  datatype StatsLookup =
    | LookupFailed                                  // the call raised, or the response had no `items`/`statistics` key
    | NoItems                                       // the response's `items` list was empty
    | Statistics(fields: map<string, Option<int>>)  // the statistics map; None where `int(...)` of the value raises

  /** One entry of the search response's `items`. A field is None when its key
      is missing; `publishedAt` is None also when dateutil cannot parse it. */
  datatype SearchItem = SearchItem(
    videoId: Option<string>,
    title: Option<string>,
    channelTitle: Option<string>,
    publishedAt: Option<DateTime>,
    lookup: StatsLookup)

  /** Outcome of executing one `search().list` request. A response without an
      `items` key reads as `Items([])`. */
  datatype SearchResponse = SearchFailed | Items(items: seq<SearchItem>)

  /** The parameters of the `search().list` request (lines 69-78); the date
      window is not modelled. */
  datatype SearchRequest = SearchRequest(
    q: string, part: string, kind: string, order: string, regionCode: string, maxResults: int)

  function RequestFor(term: string, maxResults: int): SearchRequest {
    SearchRequest(term, "snippet", "video", "viewCount", "US", maxResults)
  }

  /** What `_process_video_data` does with one item: raise, return None, or
      return a record. */
  datatype VideoOutcome = Raises | Dropped | Built(record: VideoRecord)

  /** `int(stats.get(key, 0))` does not raise. */
  predicate Convertible(fields: map<string, Option<int>>, key: string) {
    key in fields ==> fields[key].Some?
  }

  /** The value of `int(stats.get(key, 0))`, where it does not raise. */
  function CountOf(fields: map<string, Option<int>>, key: string): int
    requires Convertible(fields, key)
  {
    if key in fields then fields[key].value else 0
  }

  /** A count read from the statistics map is the map's value, or 0 when the key is absent. */
  ghost predicate CountFrom(fields: map<string, Option<int>>, key: string, count: int) {
    if key in fields then fields[key] == Some(count) else count == 0
  }

  /** The watch URL of a video (line 35). */
  function WatchUrl(videoId: string): string {
    WatchUrlPrefix + videoId
  }

  /** The video id a watch URL points to, if it is one. */
  function VideoIdOfUrl(url: string): (id: Option<string>)
    ensures id.Some? ==> WatchUrl(id.value) == url
  {
    if |WatchUrlPrefix| <= |url| && url[..|WatchUrlPrefix|] == WatchUrlPrefix
    then Some(url[|WatchUrlPrefix|..])
    else None
  }

  /** The URL of a record gives back its video id, so distinct ids give distinct URLs. */
  lemma UrlRoundTrip(videoId: string)
    ensures VideoIdOfUrl(WatchUrl(videoId)) == Some(videoId)
  {
    var url := WatchUrl(videoId);
    assert url[..|WatchUrlPrefix|] == WatchUrlPrefix;
    assert url[|WatchUrlPrefix|..] == videoId;
  }

  /** `_process_video_data(item, query)` (lines 32-57). */
  function ProcessVideo(item: SearchItem, query: string): (r: VideoOutcome)
    ensures r.Dropped? <==> item.videoId.Some? && item.lookup.NoItems?
    ensures r.Built? <==>
      && item.videoId.Some? && item.lookup.Statistics?
      && item.title.Some? && item.channelTitle.Some? && item.publishedAt.Some?
      && Convertible(item.lookup.fields, "viewCount")
      && Convertible(item.lookup.fields, "likeCount")
      && Convertible(item.lookup.fields, "commentCount")
    ensures r.Built? ==>
      var rec := r.record;
      && rec.videoId == item.videoId.value
      && rec.url == WatchUrlPrefix + rec.videoId
      && rec.searchQuery == query
      && rec.title == item.title.value
      && rec.channelTitle == item.channelTitle.value
      && rec.publishedAt == item.publishedAt.value
      && CountFrom(item.lookup.fields, "viewCount", rec.viewCount)
      && CountFrom(item.lookup.fields, "likeCount", rec.likeCount)
      && CountFrom(item.lookup.fields, "commentCount", rec.commentCount)
  {
    match item.videoId
    case None => Raises
    case Some(videoId) =>
      match item.lookup
      case LookupFailed => Raises
      case NoItems => Dropped
      case Statistics(fields) =>
        if || item.title.None? || item.channelTitle.None? || item.publishedAt.None?
           || !Convertible(fields, "viewCount")
           || !Convertible(fields, "likeCount")
           || !Convertible(fields, "commentCount")
        then Raises
        else Built(VideoRecord(
          videoId, WatchUrl(videoId), item.title.value, item.channelTitle.value,
          item.publishedAt.value,
          CountOf(fields, "viewCount"), CountOf(fields, "likeCount"), CountOf(fields, "commentCount"),
          query))
  }

  /** The records the inner loop appends for a term's items: one per built
      item, none for a dropped one, and nothing from the first raising item on. */
  function ItemsRecords(items: seq<SearchItem>, query: string): (rs: seq<VideoRecord>)
    ensures |rs| <= |items|
    ensures forall r :: r in rs ==> r.searchQuery == query && r.url == WatchUrlPrefix + r.videoId
  {
    if items == [] then []
    else
      match ProcessVideo(items[0], query)
      case Raises => []
      case Dropped => ItemsRecords(items[1..], query)
      case Built(rec) => [rec] + ItemsRecords(items[1..], query)
  }

  /** No item of `items` raises. */
  ghost predicate NoneRaises(items: seq<SearchItem>, query: string) {
    forall i :: 0 <= i < |items| ==> !ProcessVideo(items[i], query).Raises?
  }

  /** The records one term contributes to `all_videos`. */
  function TermRecords(term: string, response: SearchResponse): (rs: seq<VideoRecord>)
    ensures forall r :: r in rs ==> r.searchQuery == term
  {
    match response
    case SearchFailed => []
    case Items(items) => ItemsRecords(items, term)
  }

  /** `all_videos` after the keyword loop has run over `terms`. */
  function CollectTerms(terms: seq<string>, maxResults: int, api: SearchRequest -> SearchResponse)
    : (rs: seq<VideoRecord>)
    ensures forall r :: r in rs ==> r.searchQuery in terms
  {
    if terms == [] then []
    else
      var last := terms[|terms| - 1];
      var init := CollectTerms(terms[..|terms| - 1], maxResults, api);
      init + TermRecords(last, api(RequestFor(last, maxResults)))
  }

  /** Descending order of view counts, as `sort_values('view_count', ascending=False)` leaves it. */
  ghost predicate SortedByViews(rs: seq<VideoRecord>) {
    forall i, j :: 0 <= i < j < |rs| ==> rs[i].viewCount >= rs[j].viewCount
  }

  /** Processing one more item after items none of which raised appends
      that item's record, if it built one. */
  lemma {:induction false} ItemsRecordsSnoc(items: seq<SearchItem>, item: SearchItem, query: string)
    requires NoneRaises(items, query)
    ensures ItemsRecords(items + [item], query) ==
            ItemsRecords(items, query) + (match ProcessVideo(item, query)
                                          case Built(rec) => [rec]
                                          case _ => [])
  {
    if items != [] {
      assert (items + [item])[1..] == items[1..] + [item];
      assert (items + [item])[0] == items[0];
      ItemsRecordsSnoc(items[1..], item, query);
    }
  }

  /** An exception on item `j` keeps the records appended for the items
      before it and abandons every item after it. */
  lemma {:induction false} RaiseKeepsPrefix(items: seq<SearchItem>, j: nat, query: string)
    requires j < |items| && ProcessVideo(items[j], query).Raises?
    requires NoneRaises(items[..j], query)
    ensures ItemsRecords(items, query) == ItemsRecords(items[..j], query)
  {
    if j > 0 {
      var before := items[..j];
      var tail := items[1..][..j - 1];
      assert before[0] == items[0] && before[1..] == tail;
      assert !ProcessVideo(before[0], query).Raises?;
      assert NoneRaises(tail, query) by {
        forall i | 0 <= i < j - 1 ensures !ProcessVideo(tail[i], query).Raises? {
          assert tail[i] == before[i + 1];
        }
      }
      RaiseKeepsPrefix(items[1..], j - 1, query);
    }
  }

  /** How many items `_process_video_data` drops because their statistics
      lookup returned no items. */
  function DroppedCount(items: seq<SearchItem>, query: string): nat {
    if items == [] then 0
    else (if ProcessVideo(items[0], query).Dropped? then 1 else 0) + DroppedCount(items[1..], query)
  }

  /** When no item raises, every item either yields one record or is dropped. */
  lemma {:induction false} RecordsPlusDropped(items: seq<SearchItem>, query: string)
    requires NoneRaises(items, query)
    ensures |ItemsRecords(items, query)| + DroppedCount(items, query) == |items|
  {
    if items != [] {
      assert NoneRaises(items[1..], query) by {
        forall i | 0 <= i < |items| - 1 ensures !ProcessVideo(items[1..][i], query).Raises? {
          assert items[1..][i] == items[i + 1];
        }
      }
      assert !ProcessVideo(items[0], query).Raises?;
      RecordsPlusDropped(items[1..], query);
    }
  }

  lemma DropLastOfConcat<T>(a: seq<T>, b: seq<T>)
    requires b != []
    ensures (a + b)[..|a + b| - 1] == a + b[..|b| - 1]
    ensures (a + b)[|a + b| - 1] == b[|b| - 1]
  {
  }

  lemma ConcatAssoc<T>(a: seq<T>, b: seq<T>, c: seq<T>)
    ensures (a + b) + c == a + (b + c)
  {
  }

  /** The records of two consecutive runs of terms are those of the first run
      followed by those of the second: terms are processed in order. */
  lemma {:induction false} CollectTermsConcat(a: seq<string>, b: seq<string>, maxResults: int,
                                              api: SearchRequest -> SearchResponse)
    ensures CollectTerms(a + b, maxResults, api) ==
            CollectTerms(a, maxResults, api) + CollectTerms(b, maxResults, api)
    decreases |b|
  {
    if b == [] {
      assert a + b == a;
    } else {
      var b' := b[..|b| - 1];
      var last := b[|b| - 1];
      var ab := a + b;
      DropLastOfConcat(a, b);
      var tail := TermRecords(last, api(RequestFor(last, maxResults)));
      assert CollectTerms(ab, maxResults, api) == CollectTerms(a + b', maxResults, api) + tail;
      assert CollectTerms(b, maxResults, api) == CollectTerms(b', maxResults, api) + tail;
      CollectTermsConcat(a, b', maxResults, api);
      ConcatAssoc(CollectTerms(a, maxResults, api), CollectTerms(b', maxResults, api), tail);
    }
  }

  /** The records of `rs` that some other term than `t` produced. */
  function OtherTerms(rs: seq<VideoRecord>, t: string): (out: seq<VideoRecord>)
    ensures forall r :: r in out ==> r in rs && r.searchQuery != t
  {
    if rs == [] then []
    else (if rs[0].searchQuery == t then [] else [rs[0]]) + OtherTerms(rs[1..], t)
  }

  lemma {:induction false} OtherTermsConcat(a: seq<VideoRecord>, b: seq<VideoRecord>, t: string)
    ensures OtherTerms(a + b, t) == OtherTerms(a, t) + OtherTerms(b, t)
  {
    if a != [] {
      assert (a + b)[0] == a[0] && (a + b)[1..] == a[1..] + b;
      OtherTermsConcat(a[1..], b, t);
    } else {
      assert a + b == b;
    }
  }

  lemma {:induction false} OtherTermsOfOneTerm(rs: seq<VideoRecord>, u: string, t: string)
    requires forall r :: r in rs ==> r.searchQuery == u
    ensures OtherTerms(rs, t) == if u == t then [] else rs
  {
    if rs != [] {
      assert rs[0] in rs;
      OtherTermsOfOneTerm(rs[1..], u, t);
      assert rs == [rs[0]] + rs[1..];
    }
  }

  /** Per-term isolation: whatever the API answers for term `t` (a failure, an
      exception part-way through its items, any items at all), the records
      of every other term are exactly the same, in the same order. */
  lemma {:induction false} FailureIsolation(terms: seq<string>, t: string, maxResults: int,
                                            api1: SearchRequest -> SearchResponse,
                                            api2: SearchRequest -> SearchResponse)
    requires forall i :: 0 <= i < |terms| && terms[i] != t ==>
               api1(RequestFor(terms[i], maxResults)) == api2(RequestFor(terms[i], maxResults))
    ensures OtherTerms(CollectTerms(terms, maxResults, api1), t) ==
            OtherTerms(CollectTerms(terms, maxResults, api2), t)
    decreases |terms|
  {
    if terms != [] {
      var init := terms[..|terms| - 1];
      var last := terms[|terms| - 1];
      FailureIsolation(init, t, maxResults, api1, api2);
      var r1 := TermRecords(last, api1(RequestFor(last, maxResults)));
      var r2 := TermRecords(last, api2(RequestFor(last, maxResults)));
      OtherTermsConcat(CollectTerms(init, maxResults, api1), r1, t);
      OtherTermsConcat(CollectTerms(init, maxResults, api2), r2, t);
      OtherTermsOfOneTerm(r1, last, t);
      OtherTermsOfOneTerm(r2, last, t);
    }
  }

  /** A term whose search request fails contributes no record, and the run
      goes on without raising. */
  lemma {:induction false} FailedTermContributesNothing(terms: seq<string>, t: string, maxResults: int,
                                                        api: SearchRequest -> SearchResponse)
    requires api(RequestFor(t, maxResults)) == SearchFailed
    ensures forall r :: r in CollectTerms(terms, maxResults, api) ==> r.searchQuery != t
    decreases |terms|
  {
    if terms != [] {
      FailedTermContributesNothing(terms[..|terms| - 1], t, maxResults, api);
    }
  }

  /** The body of one per-term `try` block (lines 68-88 and 92-111): run the
      search outcome's items through `_process_video_data`, append what it
      builds, and on an exception keep what was appended and stop the term. */
  method SearchTerm(allVideos: seq<VideoRecord>, term: string, response: SearchResponse)
    returns (videos: seq<VideoRecord>)
    ensures videos == allVideos + TermRecords(term, response)
  {
    videos := allVideos;
    match response
    case SearchFailed =>
    case Items(items) =>
      var j := 0;
      while j < |items|
        invariant 0 <= j <= |items|
        invariant NoneRaises(items[..j], term)
        invariant videos == allVideos + ItemsRecords(items[..j], term)
      {
        var outcome := ProcessVideo(items[j], term);
        if outcome.Raises? {
          RaiseKeepsPrefix(items, j, term);
          return;
        }
        ItemsRecordsSnoc(items[..j], items[j], term);
        assert items[..j + 1] == items[..j] + [items[j]];
        if outcome.Built? {
          videos := videos + [outcome.record];
        }
        j := j + 1;
      }
      assert items[..j] == items;
  }

  /** `search_videos(query, use_keywords, max_results)` (lines 59-118), with
      the keyword file given as its lines. */
  method SearchVideos(query: string, useKeywords: bool, maxResults: int,
                      keywordLines: seq<string>, api: SearchRequest -> SearchResponse)
    returns (videos: seq<VideoRecord>)
    ensures useKeywords ==>
      multiset(videos) == multiset(CollectTerms(Keywords.KeywordsOf(keywordLines), maxResults, api))
    ensures !useKeywords && query != [] ==>
      multiset(videos) == multiset(TermRecords(query, api(RequestFor(query, maxResults))))
    ensures !useKeywords && query == [] ==> videos == []
    ensures SortedByViews(videos)
  {
    var allVideos: seq<VideoRecord> := [];
    if useKeywords {
      var keywords := Keywords.LoadKeywords(keywordLines);
      for i := 0 to |keywords|
        invariant allVideos == CollectTerms(keywords[..i], maxResults, api)
      {
        assert keywords[..i + 1][..i] == keywords[..i];
        allVideos := SearchTerm(allVideos, keywords[i], api(RequestFor(keywords[i], maxResults)));
      }
      assert keywords[..|keywords|] == keywords;
    } else if query != [] {
      allVideos := SearchTerm(allVideos, query, api(RequestFor(query, maxResults)));
    }
    if allVideos == [] {
      return [];
    }
    videos := Ranking.SortDesc(allVideos, (r: VideoRecord) => r.viewCount);
  }
}
