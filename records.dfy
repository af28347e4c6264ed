/** The values the collector builds and the aggregator reads (src/youtube_api.py:46-56). */
module Records {

  datatype Option<T> = None | Some(value: T)

  /** The structured value dateutil's `parse` yields for a `publishedAt` string.
      The model carries it through unchanged and never inspects it. */
  datatype DateTime = DateTime(year: int, month: int, day: int,
                               hour: int, minute: int, second: int,
                               microsecond: int, utcOffsetSeconds: Option<int>)

  /** One row of the collected data frame: the dict `_process_video_data` returns. */
  datatype VideoRecord = VideoRecord(
    videoId: string,
    url: string,
    title: string,
    channelTitle: string,
    publishedAt: DateTime,
    viewCount: int,
    likeCount: int,
    commentCount: int,
    searchQuery: string)
}
