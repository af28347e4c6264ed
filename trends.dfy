/** Summarising a collected data frame: `YouTubeAnalyzer.analyze_trends`
    (src/youtube_api.py:120-135). The three means are not computed: the
    summary carries the sums and the count they are taken from. */
module Trends {
  import opened Records
  import Ranking

  /** The number of rows `value_counts().head` and `nlargest` keep. */
  const TopCount: nat := 10

  /** One entry of `most_engaging_videos`: the columns title, view_count, channel_title. */
  datatype EngagingVideo = EngagingVideo(title: string, viewCount: int, channelTitle: string)

  /** The dict `analyze_trends` returns: `{}` for an empty frame, else the summary. */
  datatype Analysis =
    | NoAnalysis
    | Analysis(totalVideos: nat, totalViews: int, totalLikes: int, totalComments: int,
               topChannels: map<string, nat>, mostEngaging: seq<EngagingVideo>)

  function Views(r: VideoRecord): int { r.viewCount }
  function Likes(r: VideoRecord): int { r.likeCount }
  function Comments(r: VideoRecord): int { r.commentCount }

  /** The column sum `df[column].sum()`. */
  function Total(rs: seq<VideoRecord>, column: VideoRecord -> int): int {
    if rs == [] then 0 else column(rs[0]) + Total(rs[1..], column)
  }

  lemma {:induction false} TotalConcat(a: seq<VideoRecord>, b: seq<VideoRecord>, column: VideoRecord -> int)
    ensures Total(a + b, column) == Total(a, column) + Total(b, column)
  {
    if a == [] {
      assert a + b == b;
    } else {
      assert (a + b)[0] == a[0] && (a + b)[1..] == a[1..] + b;
      TotalConcat(a[1..], b, column);
    }
  }

  /** A column sum does not depend on the order of the rows. */
  lemma {:induction false} TotalPermutation(a: seq<VideoRecord>, b: seq<VideoRecord>, column: VideoRecord -> int)
    requires multiset(a) == multiset(b)
    ensures Total(a, column) == Total(b, column)
    decreases |a|
  {
    if a == [] {
      assert |b| == |multiset(b)| == 0;
    } else {
      var x := a[0];
      assert x in multiset(b);
      var j :| 0 <= j < |b| && b[j] == x;
      var rest := b[..j] + b[j + 1..];
      assert b == b[..j] + ([x] + b[j + 1..]);
      assert a == [x] + a[1..];
      assert multiset(a) == multiset{x} + multiset(a[1..]);
      assert multiset(b) == multiset(b[..j]) + multiset{x} + multiset(b[j + 1..]);
      assert multiset(rest) == multiset(b[..j]) + multiset(b[j + 1..]);
      assert multiset(a[1..]) == multiset(a) - multiset{x};
      assert multiset(rest) == multiset(b) - multiset{x};
      TotalPermutation(a[1..], rest, column);
      TotalConcat(b[..j], [x] + b[j + 1..], column);
      TotalConcat(b[..j], b[j + 1..], column);
      assert ([x] + b[j + 1..])[1..] == b[j + 1..];
    }
  }

  /** The `channel_title` column. */
  function Channels(rs: seq<VideoRecord>): seq<string> {
    seq(|rs|, i requires 0 <= i < |rs| => rs[i].channelTitle)
  }

  /** How many rows have channel `c`. */
  function ChannelCount(rs: seq<VideoRecord>, c: string): nat {
    multiset(Channels(rs))[c]
  }

  /** A channel's count does not depend on the order of the rows. */
  lemma {:induction false} ChannelCountPermutation(a: seq<VideoRecord>, b: seq<VideoRecord>, c: string)
    requires multiset(a) == multiset(b)
    ensures ChannelCount(a, c) == ChannelCount(b, c)
  {
    var onC := (r: VideoRecord) => if r.channelTitle == c then 1 else 0;
    ChannelCountIsTotal(a, c);
    ChannelCountIsTotal(b, c);
    TotalPermutation(a, b, onC);
  }

  lemma {:induction false} ChannelCountIsTotal(rs: seq<VideoRecord>, c: string)
    ensures ChannelCount(rs, c) == Total(rs, (r: VideoRecord) => if r.channelTitle == c then 1 else 0)
  {
    if rs != [] {
      ChannelCountIsTotal(rs[1..], c);
      assert Channels(rs) == [rs[0].channelTitle] + Channels(rs[1..]);
    }
  }

  /** The values of `s` in order of first occurrence, each once. */
  function Distinct(s: seq<string>): (d: seq<string>)
    ensures forall x :: x in d <==> x in s
    ensures forall i, j :: 0 <= i < j < |d| ==> d[i] != d[j]
    ensures |d| <= |s|
  {
    if s == [] then []
    else
      var d := Distinct(s[..|s| - 1]);
      var x := s[|s| - 1];
      assert s == s[..|s| - 1] + [x];
      if x in d then d else d + [x]
  }

  /** The keys of `pairs` are pairwise distinct. */
  ghost predicate DistinctKeys(pairs: seq<(string, nat)>) {
    forall i, j :: 0 <= i < j < |pairs| ==> pairs[i].0 != pairs[j].0
  }

  /** `value_counts()` before its sort: each value of `s` with its number of
      occurrences. */
  function ValueCounts(s: seq<string>): (counts: seq<(string, nat)>)
    ensures |counts| == |Distinct(s)|
    ensures DistinctKeys(counts)
    ensures forall p :: p in counts ==> p.0 in s && p.1 == multiset(s)[p.0]
    ensures forall x :: x in s ==> (x, multiset(s)[x]) in counts
  {
    var d := Distinct(s);
    var counts := seq(|d|, i requires 0 <= i < |d| => (d[i], multiset(s)[d[i]]));
    assert forall x :: x in s ==> (x, multiset(s)[x]) in counts by {
      forall x | x in s ensures (x, multiset(s)[x]) in counts {
        var i :| 0 <= i < |d| && d[i] == x;
        assert counts[i] == (x, multiset(s)[x]);
      }
    }
    counts
  }

  /** `to_dict()` of a sequence of (key, value) rows. */
  function ToDict(pairs: seq<(string, nat)>): (m: map<string, nat>)
    ensures |m| <= |pairs|
    ensures DistinctKeys(pairs) ==> |m| == |pairs|
    ensures forall k :: k in m ==> (k, m[k]) in pairs
    ensures forall p :: p in pairs ==> p.0 in m
  {
    if pairs == [] then map[]
    else
      var last := pairs[|pairs| - 1];
      var init := pairs[..|pairs| - 1];
      assert pairs == init + [last];
      ToDict(init)[last.0 := last.1]
  }

  function PairCount(p: (string, nat)): int { p.1 }

  /** A row of `counts` that the ranked prefix `top` left out has no larger
      count than a row it kept. */
  lemma LeftOutPairNotLarger(counts: seq<(string, nat)>, top: seq<(string, nat)>,
                             kept: (string, nat), dropped: (string, nat))
    requires forall x, y :: x in top && y in multiset(counts) - multiset(top) ==> PairCount(y) <= PairCount(x)
    requires kept in top && dropped in counts && dropped !in top
    ensures dropped.1 <= kept.1
  {
    assert dropped in multiset(counts) - multiset(top);
  }

  /** Every row of the ranked prefix `top` is a row of `counts`. */
  lemma KeptPairIsCounted(counts: seq<(string, nat)>, top: seq<(string, nat)>, p: (string, nat))
    requires multiset(top) <= multiset(counts) && p in top
    ensures p in counts
  {
    assert p in multiset(top);
  }

  /** The facts about the ranked prefix of `counts` that `Ranking.Top` gives. */
  ghost predicate RankedPrefix(counts: seq<(string, nat)>, top: seq<(string, nat)>) {
    && multiset(top) <= multiset(counts)
    && (forall x, y :: x in top && y in multiset(counts) - multiset(top) ==> PairCount(y) <= PairCount(x))
  }

  lemma KeptChannelsCounted(s: seq<string>, top: seq<(string, nat)>)
    requires RankedPrefix(ValueCounts(s), top)
    ensures forall c :: c in ToDict(top) ==> ToDict(top)[c] == multiset(s)[c] > 0
  {
    var m := ToDict(top);
    forall c | c in m ensures m[c] == multiset(s)[c] > 0 {
      KeptPairIsCounted(ValueCounts(s), top, (c, m[c]));
    }
  }

  lemma LeftOutChannelsNotLarger(s: seq<string>, top: seq<(string, nat)>)
    requires RankedPrefix(ValueCounts(s), top)
    ensures forall c, d :: c in ToDict(top) && d !in ToDict(top) ==> multiset(s)[d] <= ToDict(top)[c]
  {
    var m := ToDict(top);
    forall c, d | c in m && d !in m ensures multiset(s)[d] <= m[c] {
      if d in s {
        LeftOutPairNotLarger(ValueCounts(s), top, (c, m[c]), (d, multiset(s)[d]));
      }
    }
  }

  lemma AllChannelsKept(rs: seq<VideoRecord>, top: seq<(string, nat)>)
    requires |Distinct(Channels(rs))| <= TopCount ==> multiset(top) == multiset(ValueCounts(Channels(rs)))
    ensures |Distinct(Channels(rs))| <= TopCount ==> forall r :: r in rs ==> r.channelTitle in ToDict(top)
  {
    var s := Channels(rs);
    if |Distinct(s)| <= TopCount {
      forall r | r in rs ensures r.channelTitle in ToDict(top) {
        var i :| 0 <= i < |rs| && rs[i] == r;
        assert s[i] == r.channelTitle;
        assert (r.channelTitle, multiset(s)[r.channelTitle]) in multiset(top);
      }
    }
  }

  /** In a sequence without repeats, a value occurs at most once. */
  lemma {:induction false} OccursOnce<T>(s: seq<T>, x: T)
    requires forall i, j :: 0 <= i < j < |s| ==> s[i] != s[j]
    ensures multiset(s)[x] <= 1
  {
    if s != [] {
      assert s == [s[0]] + s[1..];
      OccursOnce(s[1..], x);
      if s[0] == x {
        assert x !in s[1..];
      }
    }
  }

  /** A value found at two positions of a sequence occurs in it at least twice. */
  lemma TwoPositions<T>(s: seq<T>, i: nat, j: nat)
    requires i < j < |s|
    ensures s[i] == s[j] ==> multiset(s)[s[i]] >= 2
  {
    assert s == s[..i] + [s[i]] + s[i + 1..j] + [s[j]] + s[j + 1..];
  }

  /** Rows drawn from rows with distinct keys have distinct keys. */
  lemma KeptKeysDistinct(counts: seq<(string, nat)>, top: seq<(string, nat)>)
    requires DistinctKeys(counts) && multiset(top) <= multiset(counts)
    ensures DistinctKeys(top)
  {
    forall i, j | 0 <= i < j < |top| ensures top[i].0 != top[j].0 {
      assert top[i] in multiset(counts) && top[j] in multiset(counts);
      var a :| 0 <= a < |counts| && counts[a] == top[i];
      var b :| 0 <= b < |counts| && counts[b] == top[j];
      OccursOnce(counts, top[i]);
      TwoPositions(top, i, j);
    }
  }

  /** `df['channel_title'].value_counts().head(10).to_dict()`: ten channels,
      or all of them when there are fewer; each with its exact number of rows;
      no channel left out has more rows than one that is kept. */
  function TopChannels(rs: seq<VideoRecord>): (m: map<string, nat>)
    ensures |m| == Ranking.Min(TopCount, |Distinct(Channels(rs))|)
    ensures forall c :: c in m ==> m[c] == ChannelCount(rs, c) && m[c] > 0
    ensures forall c, d :: c in m && d !in m ==> ChannelCount(rs, d) <= m[c]
    ensures |Distinct(Channels(rs))| <= TopCount ==> forall r :: r in rs ==> r.channelTitle in m
  {
    var s := Channels(rs);
    var counts := ValueCounts(s);
    var top := Ranking.Top(counts, PairCount, TopCount);
    KeptChannelsCounted(s, top);
    LeftOutChannelsNotLarger(s, top);
    AllChannelsKept(rs, top);
    KeptKeysDistinct(counts, top);
    ToDict(top)
  }

  /** The columns title, view_count and channel_title of one row. */
  function Engagement(r: VideoRecord): EngagingVideo {
    EngagingVideo(r.title, r.viewCount, r.channelTitle)
  }

  /** `rs[['title', 'view_count', 'channel_title']]`, row by row. */
  function Engagements(rs: seq<VideoRecord>): seq<EngagingVideo> {
    seq(|rs|, i requires 0 <= i < |rs| => Engagement(rs[i]))
  }

  lemma EngagementsConcat(a: seq<VideoRecord>, b: seq<VideoRecord>)
    ensures Engagements(a + b) == Engagements(a) + Engagements(b)
  {
    assert forall i :: 0 <= i < |a| + |b| ==> Engagements(a + b)[i] == (Engagements(a) + Engagements(b))[i];
  }

  /** Reordering the rows reorders their projections: the projected rows
      form the same multiset. */
  lemma {:induction false} EngagementsPermutation(a: seq<VideoRecord>, b: seq<VideoRecord>)
    requires multiset(a) == multiset(b)
    ensures multiset(Engagements(a)) == multiset(Engagements(b))
    decreases |a|
  {
    if a == [] {
      assert |b| == |multiset(b)| == 0;
    } else {
      var x := a[0];
      assert x in multiset(b);
      var j :| 0 <= j < |b| && b[j] == x;
      var rest := b[..j] + b[j + 1..];
      assert b == b[..j] + [x] + b[j + 1..];
      assert a == [x] + a[1..];
      assert multiset(a[1..]) == multiset(a) - multiset{x};
      assert multiset(rest) == multiset(b) - multiset{x};
      EngagementsPermutation(a[1..], rest);
      EngagementsConcat([x], a[1..]);
      EngagementsConcat(b[..j] + [x], b[j + 1..]);
      EngagementsConcat(b[..j], [x]);
      EngagementsConcat(b[..j], b[j + 1..]);
    }
  }

  /** Projecting a descending permutation of `rs` and cutting it at `k`
      keeps a part of the projected rows, and no projected row cut off has
      more views than one kept. */
  lemma ShownRowsAreTop(rs: seq<VideoRecord>, sorted: seq<VideoRecord>, k: nat)
    requires multiset(sorted) == multiset(rs) && Ranking.NonIncreasing(sorted, Views) && k <= |sorted|
    ensures multiset(Engagements(sorted[..k])) <= multiset(Engagements(rs))
    ensures forall v, w :: v in Engagements(sorted[..k]) && w in multiset(Engagements(rs)) - multiset(Engagements(sorted[..k]))
              ==> w.viewCount <= v.viewCount
  {
    var top := Engagements(sorted[..k]);
    var rest := Engagements(sorted[k..]);
    assert sorted == sorted[..k] + sorted[k..];
    EngagementsConcat(sorted[..k], sorted[k..]);
    EngagementsPermutation(sorted, rs);
    assert multiset(Engagements(rs)) == multiset(top) + multiset(rest);
    forall v, w | v in top && w in multiset(Engagements(rs)) - multiset(top) ensures w.viewCount <= v.viewCount {
      var i :| 0 <= i < |top| && top[i] == v;
      assert w in rest;
      var j :| 0 <= j < |rest| && rest[j] == w;
      assert Views(sorted[i]) >= Views(sorted[k + j]);
    }
  }

  /** `df.nlargest(10, 'view_count')[['title', 'view_count', 'channel_title']]
      .to_dict('records')`: `min(10, |rs|)` projected rows taken from the
      projected input, counting repeats, largest view count first, none with
      fewer views than a projected row left out. */
  function MostEngaging(rs: seq<VideoRecord>): (top: seq<EngagingVideo>)
    ensures |top| == Ranking.Min(TopCount, |rs|)
    ensures forall i, j :: 0 <= i < j < |top| ==> top[i].viewCount >= top[j].viewCount
    ensures multiset(top) <= multiset(Engagements(rs))
    ensures forall v, w :: v in top && w in multiset(Engagements(rs)) - multiset(top) ==> w.viewCount <= v.viewCount
  {
    var picked := Ranking.Top(rs, Views, TopCount);
    var sorted := Ranking.SortDesc(rs, Views);
    assert |sorted| == |multiset(sorted)| == |rs|;
    assert picked == sorted[..Ranking.Min(TopCount, |rs|)];
    ShownRowsAreTop(rs, sorted, |picked|);
    var top := Engagements(picked);
    assert forall i, j :: 0 <= i < j < |top| ==> Views(picked[i]) >= Views(picked[j]);
    top
  }

  /** `analyze_trends(df)`. */
  function AnalyzeTrends(rs: seq<VideoRecord>): (a: Analysis)
    ensures a.NoAnalysis? <==> rs == []
    ensures a.Analysis? ==>
      && a.totalVideos == |rs|
      && a.totalViews == Total(rs, Views)
      && a.totalLikes == Total(rs, Likes)
      && a.totalComments == Total(rs, Comments)
      && a.topChannels == TopChannels(rs)
      && a.mostEngaging == MostEngaging(rs)
      && |a.topChannels| <= TopCount
      && (forall c :: c in a.topChannels ==> a.topChannels[c] == ChannelCount(rs, c))
      && |a.mostEngaging| == Ranking.Min(TopCount, |rs|)
  {
    if rs == [] then NoAnalysis
    else Analysis(|rs|, Total(rs, Views), Total(rs, Likes), Total(rs, Comments),
                  TopChannels(rs), MostEngaging(rs))
  }

  /** The count, the sums and every channel's count of a summary are the same
      for any order of the same rows, so summarising the sorted search result
      gives the figures of the records as they were collected. */
  lemma SummaryIgnoresOrder(a: seq<VideoRecord>, b: seq<VideoRecord>, c: string)
    requires multiset(a) == multiset(b)
    ensures AnalyzeTrends(a).NoAnalysis? == AnalyzeTrends(b).NoAnalysis?
    ensures AnalyzeTrends(a).Analysis? ==>
      && AnalyzeTrends(a).totalVideos == AnalyzeTrends(b).totalVideos
      && AnalyzeTrends(a).totalViews == AnalyzeTrends(b).totalViews
      && AnalyzeTrends(a).totalLikes == AnalyzeTrends(b).totalLikes
      && AnalyzeTrends(a).totalComments == AnalyzeTrends(b).totalComments
    ensures ChannelCount(a, c) == ChannelCount(b, c)
  {
    assert |a| == |multiset(a)| == |b|;
    TotalPermutation(a, b, Views);
    TotalPermutation(a, b, Likes);
    TotalPermutation(a, b, Comments);
    ChannelCountPermutation(a, b, c);
  }
}
