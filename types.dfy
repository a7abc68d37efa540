/** The canonical video record every route produces (src/lib/types.ts). */
module Types {
  import opened Wrappers

  /** The closed set of platforms a record can come from. */
  datatype Platform = YouTube | TikTok | Twitter

  /** The string literal a platform is written as in JSON. */
  function PlatformTag(p: Platform): string {
    match p
    case YouTube => "youtube"
    case TikTok => "tiktok"
    case Twitter => "twitter"
  }

  /** Reads a platform tag; anything outside the closed set is refused. */
  function ParsePlatform(s: string): Option<Platform> {
    if s == "youtube" then Some(YouTube)
    else if s == "tiktok" then Some(TikTok)
    else if s == "twitter" then Some(Twitter)
    else None
  }

  lemma PlatformTagRoundTrip(p: Platform, s: string)
    ensures ParsePlatform(PlatformTag(p)) == Some(p)
    ensures ParsePlatform(s).Some? ==> PlatformTag(ParsePlatform(s).value) == s
  {
  }

  /** A video record; `likeCount` is its only optional field. */
  datatype Video = Video(
    id: string,
    title: string,
    description: string,
    thumbnail: string,
    thumbnailUrl: string,
    publishedAt: string,
    channelTitle: string,
    creator: string,
    views: string,
    viewCount: string,
    duration: string,
    likeCount: Option<string>,
    videoUrl: string,
    platform: Platform)

  /** The two aliases commented in the record agree: `thumbnailUrl` is `thumbnail`, `creator` is `channelTitle`. */
  predicate WellFormed(v: Video) {
    v.thumbnailUrl == v.thumbnail && v.creator == v.channelTitle
  }

  /** The type guard: compares the record's platform tag with "youtube". */
  function IsYouTubeVideo(video: Video): (b: bool)
    ensures b <==> video.platform == YouTube
    ensures video.platform in {TikTok, Twitter} ==> !b
  {
    PlatformTag(video.platform) == "youtube"
  }
}
