/** The YouTube search response and its projection to `YouTubeVideo` (src/lib/youtube.ts). */
module YouTube {
  import opened Wrappers

  datatype ItemId = ItemId(videoId: string)
  datatype Thumbnail = Thumbnail(url: string)
  datatype Thumbnails = Thumbnails(high: Thumbnail)
  datatype Snippet = Snippet(
    title: string,
    description: string,
    thumbnails: Thumbnails,
    publishedAt: string,
    channelTitle: string)
  datatype Statistics = Statistics(viewCount: string, likeCount: string)
  datatype Item = Item(id: ItemId, snippet: Snippet, statistics: Option<Statistics>)
  datatype YouTubeApiResponse = YouTubeApiResponse(items: seq<Item>)

  datatype YouTubeVideo = YouTubeVideo(
    id: string,
    title: string,
    description: string,
    thumbnailUrl: string,
    publishedAt: string,
    channelTitle: string,
    viewCount: Option<string>,
    likeCount: Option<string>)

  /** One search item as a `YouTubeVideo`. */
  function MapItem(item: Item): (v: YouTubeVideo)
    ensures v.id == item.id.videoId
    ensures v.thumbnailUrl == item.snippet.thumbnails.high.url
    ensures v.viewCount.None? <==> item.statistics.None?
    ensures v.likeCount.None? <==> item.statistics.None?
  {
    YouTubeVideo(
      item.id.videoId,
      item.snippet.title,
      item.snippet.description,
      item.snippet.thumbnails.high.url,
      item.snippet.publishedAt,
      item.snippet.channelTitle,
      if item.statistics.Some? then Some(item.statistics.value.viewCount) else None,
      if item.statistics.Some? then Some(item.statistics.value.likeCount) else None)
  }

  /**
   * The item a mapped video came from. Defined on its own, it shows that the
   * projection copies every field of the item and drops nothing.
   */
  function ItemOf(v: YouTubeVideo): Item {
    Item(
      ItemId(v.id),
      Snippet(v.title, v.description, Thumbnails(Thumbnail(v.thumbnailUrl)), v.publishedAt, v.channelTitle),
      if v.viewCount.Some? && v.likeCount.Some? then Some(Statistics(v.viewCount.value, v.likeCount.value)) else None)
  }

  lemma MapItemLosesNothing(item: Item)
    ensures ItemOf(MapItem(item)) == item
  {
  }

  /** `response.items.map(...)`: one video per item, in the same order. */
  function MapYouTubeApiResponse(response: YouTubeApiResponse): (videos: seq<YouTubeVideo>)
    ensures |videos| == |response.items|
    ensures forall i :: 0 <= i < |videos| ==> videos[i] == MapItem(response.items[i])
  {
    seq(|response.items|, i requires 0 <= i < |response.items| => MapItem(response.items[i]))
  }

  /** The mapped list determines the response it came from. */
  lemma MapYouTubeApiResponseLosesNothing(response: YouTubeApiResponse)
    ensures var videos := MapYouTubeApiResponse(response);
      seq(|videos|, i requires 0 <= i < |videos| => ItemOf(videos[i])) == response.items
  {
    var videos := MapYouTubeApiResponse(response);
    forall i | 0 <= i < |videos|
      ensures ItemOf(videos[i]) == response.items[i]
    {
      MapItemLosesNothing(response.items[i]);
    }
  }
}
